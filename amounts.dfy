/**
 * `safeAmount` (src/helper/safeAmount.js): coerce a value with `Number`, map NaN
 * to 0 and round to two fractional digits with `toFixed(2)`.
 *
 * Numbers are exact decimals (mantissa / 10^scale) rather than binary floats, and
 * an amount with two fractional digits is an integer count of cents.
 */
module Amounts {
  import opened Outcomes

  /** The finite decimal `mantissa / 10^scale`. */
  datatype Decimal = Decimal(mantissa: int, scale: nat)

  /** The JSON values a handler can be given where an amount is expected. */
  datatype JsValue = Undefined | Null | Bool(b: bool) | Num(d: Decimal) | Str(s: string)

  /** The outcome of JavaScript's `Number(val)`. */
  datatype Number = NaN | Finite(d: Decimal)

  function Pow10(n: nat): (r: nat)
    ensures r >= 1
  {
    if n == 0 then 1 else 10 * Pow10(n - 1)
  }

  function Abs(x: int): nat
  {
    if x < 0 then -x else x
  }

  // ---------------------------------------------------------------- Number(val)

  /** The white-space and line-terminator characters `Number` strips from a string. */
  predicate IsWhitespace(c: char)
  {
    c == ' ' || c == '\t' || c == '\n' || c == '\r' || c == '\U{B}' || c == '\U{C}'
    || c == '\U{A0}' || c == '\U{FEFF}' || c == '\U{1680}' || ('\U{2000}' <= c <= '\U{200A}')
    || c == '\U{2028}' || c == '\U{2029}' || c == '\U{202F}' || c == '\U{205F}' || c == '\U{3000}'
  }

  function TrimStart(s: string): string
  {
    if |s| > 0 && IsWhitespace(s[0]) then TrimStart(s[1..]) else s
  }

  function TrimEnd(s: string): string
  {
    if |s| > 0 && IsWhitespace(s[|s| - 1]) then TrimEnd(s[..|s| - 1]) else s
  }

  function Trim(s: string): string
  {
    TrimEnd(TrimStart(s))
  }

  predicate IsDigit(c: char)
  {
    '0' <= c <= '9'
  }

  predicate AllDigits(s: string)
  {
    forall i :: 0 <= i < |s| ==> IsDigit(s[i])
  }

  function DigitValue(c: char): int
  {
    c as int - '0' as int
  }

  /** The value of a string of decimal digits, most significant first. */
  function DigitsValue(s: string): int
  {
    if |s| == 0 then 0 else 10 * DigitsValue(s[..|s| - 1]) + DigitValue(s[|s| - 1])
  }

  /** The index of the first occurrence of `c` in `s`. */
  function IndexOf(s: string, c: char): (r: Option<nat>)
    ensures r.Some? ==> r.value < |s| && s[r.value] == c && c !in s[..r.value]
    ensures r.None? ==> c !in s
  {
    if |s| == 0 then None
    else if s[0] == c then Some(0)
    else match IndexOf(s[1..], c)
      case None => None
      case Some(i) => Some(i + 1)
  }

  /** An unsigned decimal literal: digits, optionally a point and more digits, at least one digit in all. */
  function ParseUnsigned(u: string): Number
  {
    var dot := IndexOf(u, '.');
    var whole := if dot.None? then u else u[..dot.value];
    var fraction := if dot.None? then "" else u[dot.value + 1..];
    if AllDigits(whole) && AllDigits(fraction) && |whole| + |fraction| > 0
    then Finite(Decimal(DigitsValue(whole + fraction), |fraction|))
    else NaN
  }

  function Negate(n: Number): Number
  {
    match n
    case NaN => NaN
    case Finite(d) => Finite(Decimal(-d.mantissa, d.scale))
  }

  /** `Number` on a string that has already been trimmed: empty is 0, a signed decimal literal is its value. */
  function StringToNumber(t: string): Number
  {
    if |t| == 0 then Finite(Decimal(0, 0))
    else if t[0] == '-' then Negate(ParseUnsigned(t[1..]))
    else if t[0] == '+' then ParseUnsigned(t[1..])
    else ParseUnsigned(t)
  }

  /** JavaScript's `Number(val)`. */
  function ToNumber(v: JsValue): Number
  {
    match v
    case Undefined => NaN
    case Null => Finite(Decimal(0, 0))
    case Bool(b) => Finite(Decimal(if b then 1 else 0, 0))
    case Num(d) => Finite(d)
    case Str(s) => StringToNumber(Trim(s))
  }

  // ------------------------------------------------------- toFixed(2) rounding

  /** `r` is the integer nearest to `m / q`, a tie going away from zero. */
  predicate NearestAwayFromZero(m: int, q: nat, r: int)
  {
    2 * Abs(m - r * q) <= q && (2 * Abs(m - r * q) == q ==> Abs(r * q) > Abs(m))
  }

  /** `cents` hundredths are what `toFixed(2)` makes of `d`: the same value when `d` has at most
      two fractional digits, the nearest hundredth otherwise. */
  predicate IsCentsOf(d: Decimal, cents: int)
  {
    if d.scale <= 2 then cents * Pow10(d.scale) == d.mantissa * 100
    else NearestAwayFromZero(d.mantissa, Pow10(d.scale - 2), cents)
  }

  lemma RoundHalfUp(m: nat, q: nat)
    requires q >= 1
    ensures NearestAwayFromZero(m, q, (2 * m + q) / (2 * q))
  {
    var x, y := 2 * m + q, 2 * q;
    var r := x / y;
    assert x == r * y + x % y && 0 <= x % y < y;
    assert r * y == 2 * (r * q);
    assert 0 <= r * q by {
      if r < 0 {
        assert r * y < 0;
      }
    }
  }

  /** Scaling a mantissa with at most two fractional digits up to hundredths is exact. */
  lemma ScaleToCents(m: int, scale: nat)
    requires scale <= 2
    ensures (m * Pow10(2 - scale)) * Pow10(scale) == m * 100
  {
    assert Pow10(2 - scale) * Pow10(scale) == 100 by {
      assert scale == 0 || scale == 1 || scale == 2;
    }
    assert (m * Pow10(2 - scale)) * Pow10(scale) == m * (Pow10(2 - scale) * Pow10(scale));
  }

  /** For a negative mantissa, the rounding of its magnitude, negated. */
  lemma RoundHalfUpNegative(m: int, q: nat)
    requires q >= 1 && m < 0
    ensures NearestAwayFromZero(m, q, -((2 * -m + q) / (2 * q)))
  {
    var r := (2 * -m + q) / (2 * q);
    RoundHalfUp(-m, q);
    assert (-r) * q == -(r * q);
    assert m - (-r) * q == -(-m - r * q);
  }

  /** `parseFloat(d.toFixed(2))`, in cents. */
  function RoundToCents(d: Decimal): (cents: int)
    ensures IsCentsOf(d, cents)
  {
    if d.scale <= 2 then
      ScaleToCents(d.mantissa, d.scale);
      d.mantissa * Pow10(2 - d.scale)
    else
      var q := Pow10(d.scale - 2);
      if d.mantissa >= 0 then
        RoundHalfUp(d.mantissa, q);
        (2 * d.mantissa + q) / (2 * q)
      else
        RoundHalfUpNegative(d.mantissa, q);
        -((2 * -d.mantissa + q) / (2 * q))
  }

  /** `safeAmount(val)`, in cents: 0 for a value `Number` cannot read, its rounding otherwise. */
  function SafeAmount(v: JsValue): (cents: int)
    ensures ToNumber(v).NaN? ==> cents == 0
    ensures ToNumber(v).Finite? ==> IsCentsOf(ToNumber(v).d, cents)
  {
    match ToNumber(v)
    case NaN => 0
    case Finite(d) => RoundToCents(d)
  }

  /** An amount already held as whole cents, as the JSON number the handlers pass on. */
  function CentsValue(cents: int): JsValue
  {
    Num(Decimal(cents, 2))
  }

  /** A number with two fractional digits comes back unchanged from `toFixed(2)` and `safeAmount`. */
  lemma SafeAmountOfCents(cents: int)
    ensures RoundToCents(Decimal(cents, 2)) == cents
    ensures SafeAmount(CentsValue(cents)) == cents
  {
  }

  /** `safeAmount(safeAmount(x)) == safeAmount(x)`. */
  lemma SafeAmountIdempotent(v: JsValue)
    ensures SafeAmount(CentsValue(SafeAmount(v))) == SafeAmount(v)
  {
    SafeAmountOfCents(SafeAmount(v));
  }

  lemma MulBounds(x: int, q: nat)
    requires q >= 1
    ensures x >= 1 ==> x * q >= q
    ensures x <= -1 ==> x * q + q <= 0
    ensures (x - 1) * q == x * q - q
  {
    if x >= 1 {
      assert x * q == (x - 1) * q + q;
      assert (x - 1) * q >= 0;
    } else if x <= -1 {
      assert x * q == (x + 1) * q - q;
      assert (-x - 1) * q >= 0;
      assert (x + 1) * q == -((-x - 1) * q);
    }
  }

  lemma {:induction false} NearestUnique(m: int, q: nat, a: int, b: int)
    requires q >= 1
    requires NearestAwayFromZero(m, q, a) && NearestAwayFromZero(m, q, b)
    ensures a == b
  {
    // a * q and b * q both lie within q / 2 of m, so a and b differ by at most one; if they
    // differed by one, both would be ties on either side of m, and as a tie goes away from
    // zero, the larger of a * q and b * q would lie strictly between 0 and q.
    var hi := if a > b then a else b;
    assert a * q - b * q == (a - b) * q;
    MulBounds(a - b, q);
    MulBounds(a - b - 1, q);
    MulBounds(a - b + 1, q);
    MulBounds(hi, q);
    MulBounds(hi - 1, q);
  }

  lemma MulCancel(a: int, b: int, p: nat)
    requires p >= 1 && a * p == b * p
    ensures a == b
  {
    assert (a - b) * p == a * p - b * p;
    MulBounds(a - b, p);
  }

  /** The rounding rule determines the amount: two amounts that both satisfy it for the same
      number are equal, so `IsCentsOf` is a complete description of `RoundToCents`. */
  lemma CentsUnique(d: Decimal, a: int, b: int)
    requires IsCentsOf(d, a) && IsCentsOf(d, b)
    ensures a == b
  {
    if d.scale <= 2 {
      MulCancel(a, b, Pow10(d.scale));
    } else {
      NearestUnique(d.mantissa, Pow10(d.scale - 2), a, b);
    }
  }

  // ---------------------------------------------------------------- toFixed(2)

  function DigitChar(d: nat): (c: char)
    requires d < 10
    ensures IsDigit(c) && DigitValue(c) == d
  {
    ('0' as int + d) as char
  }

  /** The decimal digits of `n`, without leading zeros. */
  function NatToDigits(n: nat): (s: string)
    ensures |s| > 0 && AllDigits(s)
  {
    if n < 10 then [DigitChar(n)] else NatToDigits(n / 10) + [DigitChar(n % 10)]
  }

  /** The whole units of `a` cents, a point and two digits. */
  function UnsignedText(a: nat): string
  {
    NatToDigits(a / 100) + "." + [DigitChar(a % 100 / 10), DigitChar(a % 10)]
  }

  /** `(cents / 100).toFixed(2)`: an optional minus sign, the whole units, a point and two digits. */
  function FormatCents(cents: int): string
  {
    (if cents < 0 then "-" else "") + UnsignedText(Abs(cents))
  }

  lemma {:induction false} NatToDigitsValue(n: nat)
    ensures DigitsValue(NatToDigits(n)) == n
  {
    if n >= 10 {
      NatToDigitsValue(n / 10);
      var s := NatToDigits(n / 10) + [DigitChar(n % 10)];
      assert s[..|s| - 1] == NatToDigits(n / 10);
    }
  }

  lemma {:induction false} IndexOfAfterPrefix(p: string, c: char, rest: string)
    requires c !in p
    ensures IndexOf(p + [c] + rest, c) == Some(|p|)
  {
    if |p| > 0 {
      IndexOfAfterPrefix(p[1..], c, rest);
      assert (p + [c] + rest)[1..] == p[1..] + [c] + rest;
    }
  }

  lemma {:induction false} ParseSplit(w: string, f: string)
    requires AllDigits(w) && AllDigits(f) && |w| + |f| > 0
    ensures ParseUnsigned(w + ['.'] + f) == Finite(Decimal(DigitsValue(w + f), |f|))
  {
    assert '.' !in w;
    IndexOfAfterPrefix(w, '.', f);
    var u := w + ['.'] + f;
    assert u[..|w|] == w;
    assert u[|w| + 1..] == f;
  }

  lemma DigitsValueTwoMore(w: string, x: char, y: char)
    ensures DigitsValue(w + [x, y]) == 100 * DigitsValue(w) + 10 * DigitValue(x) + DigitValue(y)
  {
    var all := w + [x, y];
    assert all[..|all| - 1] == w + [x];
    assert (w + [x])[..|w|] == w;
  }

  lemma SplitHundreds(a: nat)
    ensures 100 * (a / 100) + 10 * (a % 100 / 10) + a % 10 == a
  {
  }

  /** Reading back the unsigned two-decimal text of an amount gives exactly that amount. */
  lemma UnsignedTextValue(a: nat)
    ensures ParseUnsigned(UnsignedText(a)) == Finite(Decimal(a, 2))
  {
    var w := NatToDigits(a / 100);
    var x, y := DigitChar(a % 100 / 10), DigitChar(a % 10);
    assert w + "." + [x, y] == w + ['.'] + [x, y];
    ParseSplit(w, [x, y]);
    DigitsValueTwoMore(w, x, y);
    NatToDigitsValue(a / 100);
    SplitHundreds(a);
  }

  lemma TrimFormatted(s: string)
    requires |s| > 0 && !IsWhitespace(s[0]) && !IsWhitespace(s[|s| - 1])
    ensures Trim(s) == s
  {
  }

  lemma FormattedEnds(cents: int)
    ensures var s := FormatCents(cents); |s| > 0 && !IsWhitespace(s[0]) && !IsWhitespace(s[|s| - 1])
  {
    var body := UnsignedText(Abs(cents));
    assert body[0] == NatToDigits(Abs(cents) / 100)[0];
    assert IsDigit(body[0]) && IsDigit(body[|body| - 1]);
    if cents < 0 {
      assert FormatCents(cents) == "-" + body;
    } else {
      assert FormatCents(cents) == body;
    }
  }

  lemma FormattedValue(cents: int)
    ensures StringToNumber(FormatCents(cents)) == Finite(Decimal(cents, 2))
  {
    var body := UnsignedText(Abs(cents));
    var s := FormatCents(cents);
    UnsignedTextValue(Abs(cents));
    assert body[0] == NatToDigits(Abs(cents) / 100)[0];
    assert IsDigit(body[0]);
    if cents < 0 {
      assert s == "-" + body;
      assert s[1..] == body;
    } else {
      assert s == body;
    }
  }

  /** `Number(x.toFixed(2))` reads back `x`, so `safeAmount` of the text is the amount itself
      (a numeric string such as "45.00" comes back as the number 45). */
  lemma FormatCentsRoundTrip(cents: int)
    ensures ToNumber(Str(FormatCents(cents))) == Finite(Decimal(cents, 2))
    ensures SafeAmount(Str(FormatCents(cents))) == cents
  {
    FormattedEnds(cents);
    TrimFormatted(FormatCents(cents));
    FormattedValue(cents);
    SafeAmountOfCents(cents);
  }

  /** A numeric string already holding two decimals comes back as the same amount. */
  lemma TwoDecimalStringKept()
    ensures SafeAmount(Str("45.00")) == 4500
  {
    assert NatToDigits(45) == "45";
    assert FormatCents(4500) == "45.00";
    FormatCentsRoundTrip(4500);
  }

  // ------------------------------------------------------------- String(number)

  /** The shortest decimal text of `a` hundredths: no point for a whole number, else one or two
      fractional digits, without a trailing zero. */
  function ShortUnsignedText(a: nat): string
  {
    if a % 100 == 0 then NatToDigits(a / 100)
    else if a % 10 == 0 then NatToDigits(a / 100) + "." + [DigitChar(a % 100 / 10)]
    else UnsignedText(a)
  }

  /** `String(cents / 100)`, the text `+` gives a number when the other operand is a string:
      12.5 for 1250 cents, 12 for 1200, -0.05 for -5. */
  function NumberText(cents: int): string
  {
    (if cents < 0 then "-" else "") + ShortUnsignedText(Abs(cents))
  }

  /** The decimal `ShortUnsignedText(a)` spells. */
  function ShortDecimal(a: nat): Decimal
  {
    if a % 100 == 0 then Decimal(a / 100, 0)
    else if a % 10 == 0 then Decimal(a / 10, 1)
    else Decimal(a, 2)
  }

  lemma ParseWholeUnits(n: nat)
    ensures ParseUnsigned(NatToDigits(n)) == Finite(Decimal(n, 0))
  {
    var w := NatToDigits(n);
    NatToDigitsValue(n);
    assert '.' !in w;
    assert w + "" == w;
  }

  lemma ParseOneDecimal(n: nat, x: nat)
    requires x < 10
    ensures ParseUnsigned(NatToDigits(n) + "." + [DigitChar(x)]) == Finite(Decimal(10 * n + x, 1))
  {
    var w := NatToDigits(n);
    var c := DigitChar(x);
    NatToDigitsValue(n);
    assert w + "." + [c] == w + ['.'] + [c];
    ParseSplit(w, [c]);
    assert (w + [c])[..|w|] == w;
  }

  lemma ShortDecimalCents(a: nat)
    ensures RoundToCents(ShortDecimal(a)) == a
    ensures RoundToCents(Decimal(-ShortDecimal(a).mantissa, ShortDecimal(a).scale)) == -(a as int)
  {
    var d := ShortDecimal(a);
    if a % 100 == 0 {
      assert d.mantissa * Pow10(2) == a;
      assert (-d.mantissa) * Pow10(2) == -(d.mantissa * Pow10(2));
    } else if a % 10 == 0 {
      assert d.mantissa * Pow10(1) == a;
      assert (-d.mantissa) * Pow10(1) == -(d.mantissa * Pow10(1));
    }
  }

  lemma ShortUnsignedValue(a: nat)
    ensures ParseUnsigned(ShortUnsignedText(a)) == Finite(ShortDecimal(a))
  {
    if a % 100 == 0 {
      ParseWholeUnits(a / 100);
    } else if a % 10 == 0 {
      ParseOneDecimal(a / 100, a % 100 / 10);
      assert 10 * (a / 100) + a % 100 / 10 == a / 10;
    } else {
      UnsignedTextValue(a);
    }
  }

  lemma ShortUnsignedEnds(a: nat)
    ensures var u := ShortUnsignedText(a); |u| > 0 && IsDigit(u[0]) && IsDigit(u[|u| - 1])
  {
    var u := ShortUnsignedText(a);
    assert u[0] == NatToDigits(a / 100)[0];
  }

  /** The number text reads back through `Number` as the same amount. */
  lemma NumberTextRoundTrip(cents: int)
    ensures ToNumber(Str(NumberText(cents))).Finite?
    ensures SafeAmount(Str(NumberText(cents))) == cents
  {
    var a := Abs(cents);
    var u := ShortUnsignedText(a);
    var s := NumberText(cents);
    var d := ShortDecimal(a);
    ShortUnsignedValue(a);
    ShortDecimalCents(a);
    NumberTextEnds(cents);
    TrimFormatted(s);
    if cents < 0 {
      assert s[0] == '-' && s[1..] == u;
      assert ToNumber(Str(s)) == Finite(Decimal(-d.mantissa, d.scale));
    } else {
      assert s == u;
      assert ToNumber(Str(s)) == Finite(d);
    }
  }

  /** The number text is the shortest that reads back: it has a point only when the amount is
      not whole, and no trailing zero after the point. */
  lemma NumberTextShortest(cents: int)
    ensures '.' in NumberText(cents) <==> cents % 100 != 0
    ensures '.' in NumberText(cents) ==> NumberText(cents)[|NumberText(cents)| - 1] != '0'
  {
    var a := Abs(cents);
    var w := NatToDigits(a / 100);
    var u := ShortUnsignedText(a);
    assert '.' !in w;
    assert cents % 100 != 0 <==> a % 100 != 0;
    assert '.' in NumberText(cents) <==> '.' in u;
    if a % 100 != 0 && a % 10 == 0 {
      assert u == w + ['.'] + [DigitChar(a % 100 / 10)];
      assert u[|u| - 1] == DigitChar(a % 100 / 10);
    } else if a % 100 != 0 {
      assert u == w + ['.'] + [DigitChar(a % 100 / 10), DigitChar(a % 10)];
      assert u[|u| - 1] == DigitChar(a % 10);
    }
  }

  /** Three instances of the shortest text. */
  lemma NumberTextExamples()
    ensures NumberText(1250) == "12.5"
    ensures NumberText(1200) == "12"
    ensures NumberText(-1205) == "-12.05"
  {
    assert NatToDigits(12) == "12";
  }

  /** The number text starts with a digit or a minus sign and ends with a digit. */
  lemma NumberTextEnds(cents: int)
    ensures var s := NumberText(cents); |s| > 0 && !IsWhitespace(s[0]) && IsDigit(s[|s| - 1])
  {
    ShortUnsignedEnds(Abs(cents));
    var u := ShortUnsignedText(Abs(cents));
    if cents < 0 {
      assert NumberText(cents) == "-" + u;
    } else {
      assert NumberText(cents) == u;
    }
  }

  /** A string no decimal literal, `Infinity` included, can start like, and with no surrounding
      whitespace, reads as NaN. */
  lemma NonNumericText(s: string)
    requires |s| > 0 && !IsWhitespace(s[0]) && !IsWhitespace(s[|s| - 1])
    requires !IsDigit(s[0]) && s[0] != '+' && s[0] != '-' && s[0] != '.' && s[0] != 'I'
    ensures ToNumber(Str(s)) == NaN && SafeAmount(Str(s)) == 0
  {
    TrimFormatted(s);
    var dot := IndexOf(s, '.');
    if dot.Some? {
      assert s[..dot.value][0] == s[0];
    }
  }
}

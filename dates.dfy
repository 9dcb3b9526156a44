/**
 * Calendar dates are ISO strings ("2025-01-31") and the store compares them as
 * strings, so a date window is a pair of strings under lexicographic order.
 */
module Dates {

  /** Lexicographic `a <= b` on strings, character by character. */
  predicate LexLe(a: string, b: string)
  {
    |a| == 0 || (|b| > 0 && (a[0] < b[0] || (a[0] == b[0] && LexLe(a[1..], b[1..]))))
  }

  /** `from <= d && d <= to`: both ends of the window are inclusive. */
  predicate InRange(d: string, from: string, to: string)
  {
    LexLe(from, d) && LexLe(d, to)
  }

  lemma {:induction false} LexLeReflexive(a: string)
    ensures LexLe(a, a)
  {
    if |a| > 0 {
      LexLeReflexive(a[1..]);
    }
  }

  lemma {:induction false} LexLeAntisymmetric(a: string, b: string)
    requires LexLe(a, b) && LexLe(b, a)
    ensures a == b
  {
    if |a| > 0 {
      LexLeAntisymmetric(a[1..], b[1..]);
      assert a == [a[0]] + a[1..] && b == [b[0]] + b[1..];
    }
  }

  lemma {:induction false} LexLeTransitive(a: string, b: string, c: string)
    requires LexLe(a, b) && LexLe(b, c)
    ensures LexLe(a, c)
  {
    if |a| > 0 && a[0] == b[0] && b[0] == c[0] {
      LexLeTransitive(a[1..], b[1..], c[1..]);
    }
  }

  /** A date equal to either end of a non-empty window lies inside it. */
  lemma BoundsIncluded(from: string, to: string)
    requires LexLe(from, to)
    ensures InRange(from, from, to) && InRange(to, from, to)
  {
    LexLeReflexive(from);
    LexLeReflexive(to);
  }

  /** A date strictly before the start, or strictly after the end, lies outside. */
  lemma OutsideExcluded(d: string, from: string, to: string)
    requires (LexLe(d, from) && d != from) || (LexLe(to, d) && d != to)
    ensures !InRange(d, from, to)
  {
    if InRange(d, from, to) {
      if LexLe(d, from) && d != from {
        LexLeAntisymmetric(d, from);
      } else {
        LexLeAntisymmetric(d, to);
      }
    }
  }
}

/**
 * The full recompute of an aggregate (src/routes/budgets.js, budget create and
 * budget update): start every category of `CATEGORY_LIST` at zero, then add the
 * amount of every ledger row of the budget's user dated inside the budget's
 * window to the entry of that row's category.
 */
module Recompute {
  import opened Outcomes
  import opened Dates
  import opened Amounts
  import opened Records
  import opened Sums

  /** The ledger query of a recompute: one user's rows dated within [fromDate, toDate]. */
  datatype Window = Window(userId: string, fromDate: string, toDate: string)

  predicate InWindow(t: Txn, w: Window)
  {
    t.userId == w.userId && InRange(t.date, w.fromDate, w.toDate)
  }

  /** `Object.fromEntries(CATEGORY_LIST.map(cat => [cat, 0]))` */
  const ZeroTotals: Totals := map c | c in CategoryList :: Sum(0)

  /** `categoryTotals[c] += amount`: a category outside the list starts from `undefined`,
      and `undefined + amount` is NaN, as is NaN plus anything. */
  function AddToTotal(t: Totals, c: string, amount: int): Totals
  {
    t[c := if c in t && t[c].Sum? then Sum(t[c].cents + amount) else NotANumber]
  }

  /** An entry of the recompute's map as JavaScript builds it: a number, NaN, or a string that
      begins with an inherited member's text. */
  datatype RawTotal = RawSum(cents: int) | RawNaN | RawText(text: string)

  function Raw(t: Totals): map<string, RawTotal>
  {
    map k | k in t :: if t[k].Sum? then RawSum(t[k].cents) else RawNaN
  }

  /** `categoryTotals[c] += amount` as written: an absent name of an inherited member reads that
      member, so the sum is the member's text followed by the number's text (`String(amount)`);
      a string assigned to `__proto__` is ignored. Only entry `c` changes; it becomes text exactly
      when it was text already or names an absent inherited member, and text always ends with
      the amount's number text. */
  function AddToTotalAsWritten(t: map<string, RawTotal>, c: string, amount: int): (r: map<string, RawTotal>)
    ensures forall k :: k != c ==> (k in r <==> k in t) && (k in t ==> r[k] == t[k])
    ensures c in r <==> c in t || c != "__proto__"
    ensures c in t && t[c].RawSum? ==> r[c] == RawSum(t[c].cents + amount)
    ensures c in r ==> (r[c].RawText? <==> (c in t && t[c].RawText?) || (c !in t && c in InheritedNames))
    ensures c in r && r[c].RawText? ==>
      var x, n := r[c].text, NumberText(amount); |x| >= |n| && x[|x| - |n|..] == n
  {
    if c in t then
      match t[c]
      case RawSum(x) => t[c := RawSum(x + amount)]
      case RawNaN => t
      case RawText(s) => t[c := RawText(s + NumberText(amount))]
    else if c == "__proto__" then t
    else if c in InheritedNames then t[c := RawText(InheritedText(c) + NumberText(amount))]
    else t[c := RawNaN]
  }

  /** Off the inherited names, the recompute as written and the corrected one agree. */
  lemma AddToTotalAsWrittenAgrees(t: Totals, c: string, amount: int)
    requires c in t || c !in InheritedNames
    ensures AddToTotalAsWritten(Raw(t), c, amount) == Raw(AddToTotal(t, c, amount))
  {
    var lhs, rhs := AddToTotalAsWritten(Raw(t), c, amount), Raw(AddToTotal(t, c, amount));
    assert lhs.Keys == rhs.Keys;
    forall k | k in lhs
      ensures lhs[k] == rhs[k]
    {
    }
  }

  /** An absent inherited name other than `__proto__` takes the member's text and the amount's. */
  lemma AbsentInheritedEntry(t: map<string, RawTotal>, c: string, amount: int)
    requires c !in t && c in InheritedNames && c != "__proto__"
    ensures AddToTotalAsWritten(t, c, amount)[c] == RawText(InheritedText(c) + NumberText(amount))
  {
  }

  /** Adding 12.50 to an absent "toString" stores the member's text followed by "12.5", the
      number's text, not the "12.50" of `toFixed(2)`. */
  lemma ToStringEntryText(t: map<string, RawTotal>)
    requires "toString" !in t
    ensures AddToTotalAsWritten(t, "toString", 1250)["toString"] == RawText(InheritedText("toString") + "12.5")
  {
    AbsentInheritedEntry(t, "toString", 1250);
    NumberTextExamples();
  }

  /** A row filed under "toString" makes the recomputed entry a string rather than NaN, and one
      filed under "__proto__" leaves no entry at all. */
  lemma InheritedCategoryIsText()
    ensures AddToTotalAsWritten(Raw(ZeroTotals), "toString", 1250)["toString"]
         == RawText(InheritedText("toString") + "12.5")
    ensures InheritedText("toString")[0] == 'f'
    ensures AddToTotalAsWritten(Raw(ZeroTotals), "__proto__", 1250) == Raw(ZeroTotals)
    ensures AddToTotal(ZeroTotals, "toString", 1250)["toString"] == NotANumber
  {
    assert "toString" !in CategoryList;
    assert "__proto__" !in CategoryList;
    ToStringEntryText(Raw(ZeroTotals));
  }

  // ------------------------------------------------------------ specification

  /** What one row contributes to the sum for `category` (to the sum of all categories for `None`). */
  ghost function RowValue(t: Txn, w: Window, category: Option<string>): int
  {
    if InWindow(t, w) && (category.None? || t.category == category.value) then t.amount else 0
  }

  ghost function RowValues(ledger: Ledger, w: Window, category: Option<string>): map<string, int>
  {
    map id | id in ledger :: RowValue(ledger[id], w, category)
  }

  /** The sum of the amounts of the rows in the window (of one category, for `Some`). */
  ghost function LedgerSum(ledger: Ledger, w: Window, category: Option<string>): int
  {
    SumMap(RowValues(ledger, w, category))
  }

  ghost function MatchedCategories(ledger: Ledger, w: Window): set<string>
  {
    set id | id in ledger && InWindow(ledger[id], w) :: ledger[id].category
  }

  /** The aggregate a recompute must produce: every listed category holds the sum of its rows
      in the window; a category outside the list that some row in the window carries is NaN. */
  ghost function RecomputedTotals(ledger: Ledger, w: Window): Totals
  {
    map c | c in (set l | l in CategoryList) + MatchedCategories(ledger, w) ::
      if c in CategoryList then Sum(LedgerSum(ledger, w, Some(c))) else NotANumber
  }

  function Restrict(ledger: Ledger, ids: set<string>): Ledger
  {
    map id | id in ledger && id in ids :: ledger[id]
  }

  // ------------------------------------------------------------ the recompute

  /** The `forEach` over the query result, with the query's filter applied to each row. */
  method SumByCategory(ledger: Ledger, w: Window) returns (totals: Totals)
    ensures totals == RecomputedTotals(ledger, w)
  {
    totals := ZeroTotals;
    var pending := ledger.Keys;
    ghost var done: set<string> := {};
    RestrictNone(ledger);
    EmptyLedgerTotals(w);
    while pending != {}
      invariant pending + done == ledger.Keys && pending !! done
      invariant totals == RecomputedTotals(Restrict(ledger, done), w)
      decreases |pending|
    {
      var id :| id in pending;
      var txn := ledger[id];
      RestrictStep(ledger, done, id);
      RecomputeStep(Restrict(ledger, done + {id}), id, w);
      if InWindow(txn, w) {
        SafeAmountOfCents(txn.amount);
        totals := AddToTotal(totals, txn.category, RoundToCents(Decimal(txn.amount, 2)));
      }
      pending := pending - {id};
      done := done + {id};
    }
    RestrictAll(ledger, done);
  }

  lemma RestrictNone(ledger: Ledger)
    ensures Restrict(ledger, {}) == map[]
  {
  }

  lemma RestrictAll(ledger: Ledger, ids: set<string>)
    requires ids == ledger.Keys
    ensures Restrict(ledger, ids) == ledger
  {
  }

  lemma RestrictStep(ledger: Ledger, done: set<string>, id: string)
    requires id in ledger && id !in done
    ensures id in Restrict(ledger, done + {id})
    ensures Restrict(ledger, done + {id})[id] == ledger[id]
    ensures Restrict(ledger, done + {id}) - {id} == Restrict(ledger, done)
  {
  }

  // ------------------------------------------------------------------- lemmas

  lemma LedgerSumRemove(ledger: Ledger, w: Window, category: Option<string>, id: string)
    requires id in ledger
    ensures LedgerSum(ledger, w, category)
         == RowValue(ledger[id], w, category) + LedgerSum(ledger - {id}, w, category)
  {
    SumMapRemove(RowValues(ledger, w, category), id);
    assert RowValues(ledger, w, category) - {id} == RowValues(ledger - {id}, w, category);
  }

  lemma EmptyLedgerTotals(w: Window)
    ensures RecomputedTotals(map[], w) == ZeroTotals
  {
    forall c | c in CategoryList
      ensures LedgerSum(map[], w, Some(c)) == 0
    {
      assert RowValues(map[], w, Some(c)) == map[];
    }
  }

  lemma MatchedRemove(ledger: Ledger, id: string, w: Window)
    requires id in ledger
    ensures MatchedCategories(ledger, w)
         == MatchedCategories(ledger - {id}, w) + (if InWindow(ledger[id], w) then {ledger[id].category} else {})
  {
    var rest := ledger - {id};
    forall c | c in MatchedCategories(ledger, w)
      ensures c in MatchedCategories(rest, w) || (InWindow(ledger[id], w) && c == ledger[id].category)
    {
      var j :| j in ledger && InWindow(ledger[j], w) && ledger[j].category == c;
      if j != id {
        assert j in rest;
      }
    }
  }

  /** Taking one row out of the ledger: the recompute of the whole ledger is the recompute of
      the rest with that row added (when it is in the window). */
  lemma RecomputeStep(ledger: Ledger, id: string, w: Window)
    requires id in ledger
    ensures RecomputedTotals(ledger, w)
         == if InWindow(ledger[id], w)
            then AddToTotal(RecomputedTotals(ledger - {id}, w), ledger[id].category, ledger[id].amount)
            else RecomputedTotals(ledger - {id}, w)
  {
    var rest, t := ledger - {id}, ledger[id];
    var whole, part := RecomputedTotals(ledger, w), RecomputedTotals(rest, w);
    var expected := if InWindow(t, w) then AddToTotal(part, t.category, t.amount) else part;
    MatchedRemove(ledger, id, w);
    assert whole.Keys == expected.Keys;
    forall c | c in whole
      ensures whole[c] == expected[c]
    {
      if c in CategoryList {
        LedgerSumRemove(ledger, w, Some(c), id);
      }
    }
  }

  /** With no row of the user in the window, every listed category is 0 and nothing else is present. */
  lemma ZeroWhenNoMatch(ledger: Ledger, w: Window)
    requires forall id :: id in ledger ==> !InWindow(ledger[id], w)
    ensures RecomputedTotals(ledger, w) == ZeroTotals
  {
    forall c | c in CategoryList
      ensures LedgerSum(ledger, w, Some(c)) == 0
    {
      SumMapZero(RowValues(ledger, w, Some(c)));
    }
    assert MatchedCategories(ledger, w) == {};
  }

  /** The sum over the five listed categories. */
  function ListTotal(t: Totals): int
  {
    Numeric(t, CategoryList[0]) + Numeric(t, CategoryList[1]) + Numeric(t, CategoryList[2])
    + Numeric(t, CategoryList[3]) + Numeric(t, CategoryList[4])
  }

  lemma {:induction false} SplitByCategory(ledger: Ledger, w: Window)
    requires forall id :: id in ledger && InWindow(ledger[id], w) ==> ledger[id].category in CategoryList
    ensures LedgerSum(ledger, w, Some(CategoryList[0])) + LedgerSum(ledger, w, Some(CategoryList[1]))
          + LedgerSum(ledger, w, Some(CategoryList[2])) + LedgerSum(ledger, w, Some(CategoryList[3]))
          + LedgerSum(ledger, w, Some(CategoryList[4]))
         == LedgerSum(ledger, w, None)
    decreases |ledger|
  {
    if |ledger| == 0 {
      EmptySums(ledger, w);
    } else {
      var id :| id in ledger;
      SizeRemove(ledger, id);
      SplitByCategory(ledger - {id}, w);
      RowSplit(ledger[id], w);
      LedgerSumRemove(ledger, w, None, id);
      LedgerSumRemove(ledger, w, Some(CategoryList[0]), id);
      LedgerSumRemove(ledger, w, Some(CategoryList[1]), id);
      LedgerSumRemove(ledger, w, Some(CategoryList[2]), id);
      LedgerSumRemove(ledger, w, Some(CategoryList[3]), id);
      LedgerSumRemove(ledger, w, Some(CategoryList[4]), id);
    }
  }

  /** A row in the window counts under exactly one listed category. */
  lemma RowSplit(t: Txn, w: Window)
    requires InWindow(t, w) ==> t.category in CategoryList
    ensures RowValue(t, w, Some(CategoryList[0])) + RowValue(t, w, Some(CategoryList[1]))
          + RowValue(t, w, Some(CategoryList[2])) + RowValue(t, w, Some(CategoryList[3]))
          + RowValue(t, w, Some(CategoryList[4]))
         == RowValue(t, w, None)
  {
  }

  lemma EmptySums(ledger: Ledger, w: Window)
    requires |ledger| == 0
    ensures forall c :: LedgerSum(ledger, w, c) == 0
  {
    forall c ensures LedgerSum(ledger, w, c) == 0 {
      assert RowValues(ledger, w, c) == map[];
    }
  }

  /** Aggregate correctness (I1): when every row in the window carries a listed category, the
      recomputed totals of the five categories add up to the sum of the amounts in the window. */
  lemma RecomputeGrandTotal(ledger: Ledger, w: Window)
    requires forall id :: id in ledger && InWindow(ledger[id], w) ==> ledger[id].category in CategoryList
    ensures ListTotal(RecomputedTotals(ledger, w)) == LedgerSum(ledger, w, None)
  {
    SplitByCategory(ledger, w);
  }

  /** A row of the user dated exactly on either end of the window is counted in full. */
  lemma BoundaryRowCounted(ledger: Ledger, w: Window, id: string)
    requires id in ledger && ledger[id].userId == w.userId && LexLe(w.fromDate, w.toDate)
    requires ledger[id].date == w.fromDate || ledger[id].date == w.toDate
    ensures LedgerSum(ledger, w, Some(ledger[id].category))
         == ledger[id].amount + LedgerSum(ledger - {id}, w, Some(ledger[id].category))
  {
    BoundsIncluded(w.fromDate, w.toDate);
    LedgerSumRemove(ledger, w, Some(ledger[id].category), id);
  }

  /** A row dated strictly before the window or strictly after it contributes nothing. */
  lemma OutsideRowIgnored(ledger: Ledger, w: Window, id: string, category: Option<string>)
    requires id in ledger
    requires var d := ledger[id].date;
      (LexLe(d, w.fromDate) && d != w.fromDate) || (LexLe(w.toDate, d) && d != w.toDate)
    ensures LedgerSum(ledger, w, category) == LedgerSum(ledger - {id}, w, category)
  {
    OutsideExcluded(ledger[id].date, w.fromDate, w.toDate);
    LedgerSumRemove(ledger, w, category, id);
  }
}

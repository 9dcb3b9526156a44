/**
 * The incremental path (src/routes/transactions.js): which budget a transaction
 * counts against, how a batch of new transactions is folded into per-budget
 * deltas, and how a category change or a delete adjusts one aggregate.
 */
module Incremental {
  import opened Outcomes
  import opened Dates
  import opened Amounts
  import opened Records
  import opened Recompute
  import opened Sums

  // ---------------------------------------------------------- budget lookup

  /** The budget query: same user, `fromDate <= date` and `toDate >= date`. */
  predicate Covers(b: Budget, userId: string, date: string)
  {
    b.userId == userId && LexLe(b.fromDate, date) && LexLe(date, b.toDate)
  }

  function BudgetWindow(b: Budget): Window
  {
    Window(b.userId, b.fromDate, b.toDate)
  }

  /** The index of the first budget that covers the user and date (`docs[0]`), if any. */
  function FirstMatch(budgets: seq<Budget>, userId: string, date: string): (r: Option<nat>)
    ensures r.Some? ==> r.value < |budgets| && Covers(budgets[r.value], userId, date)
    ensures r.Some? ==> forall j :: 0 <= j < r.value ==> !Covers(budgets[j], userId, date)
    ensures r.None? ==> forall j :: 0 <= j < |budgets| ==> !Covers(budgets[j], userId, date)
  {
    if |budgets| == 0 then None
    else if Covers(budgets[0], userId, date) then Some(0)
    else match FirstMatch(budgets[1..], userId, date)
      case None => None
      case Some(i) => Some(i + 1)
  }

  function MatchedBudgetId(budgets: seq<Budget>, userId: string, date: string): Option<string>
  {
    match FirstMatch(budgets, userId, date)
    case None => None
    case Some(i) => Some(budgets[i].id)
  }

  /** The budget a row is matched to is one whose recompute window contains the row. */
  lemma MatchedBudgetCountsRow(budgets: seq<Budget>, t: Txn)
    requires FirstMatch(budgets, t.userId, t.date).Some?
    ensures InWindow(t, BudgetWindow(budgets[FirstMatch(budgets, t.userId, t.date).value]))
  {
  }

  // -------------------------------------------------- one-entry adjustments

  /** `categoryTotals[c] = safeAmount((categoryTotals[c] || 0) + delta)` */
  function Adjust(t: Totals, c: string, delta: int): (r: Totals)
    ensures c in r && r[c] == Sum(Numeric(t, c) + delta)
    ensures forall k :: k != c ==> (k in r <==> k in t) && (k in t ==> r[k] == t[k])
  {
    SafeAmountOfCents(Numeric(t, c) + delta);
    t[c := Sum(SafeAmount(CentsValue(Numeric(t, c) + delta)))]
  }

  // ---------------------------------------- the adjustment as JavaScript runs it

  /** What `categoryTotals[c]` reads: an own entry, an inherited member, or `undefined`. */
  datatype Slot = Own(total: Total) | Inherits(name: string) | NoEntry

  function ReadSlot(t: Totals, c: string): Slot
  {
    if c in t then Own(t[c]) else if c in InheritedNames then Inherits(c) else NoEntry
  }

  /** The right-hand side of an adjustment: `+ amount` (a create, the new category of a change)
      or `- amount` (the old category of a change, a delete). */
  datatype Operand = Plus(amount: int) | Minus(amount: int)

  function Signed(o: Operand): int
  {
    match o
    case Plus(a) => a
    case Minus(a) => -a
  }

  /** `x - amount` for a number `x`: NaN stays NaN. */
  function MinusCents(n: Number, amount: int): Number
  {
    match n
    case NaN => NaN
    case Finite(d) => Finite(Decimal(d.mantissa * 100 - amount * Pow10(d.scale), d.scale + 2))
  }

  /** The adjustment as written. An inherited member is truthy, so `|| 0` keeps it. Then
      `+ amount` concatenates the amount's number text onto the member's text, which `safeAmount`
      reads as NaN; `- amount` reads the member's text as a number, which is NaN at once. Either
      way the entry becomes 0, except that assigning a number to an absent `__proto__` is ignored. */
  function AdjustAsWritten(t: Totals, c: string, o: Operand): (r: Totals)
    ensures ReadSlot(t, c).Inherits? && c != "__proto__" ==> r == t[c := Sum(0)]
    ensures ReadSlot(t, c).Inherits? && c == "__proto__" ==> r == t
    ensures !ReadSlot(t, c).Inherits? ==> r == Adjust(t, c, Signed(o))
  {
    match ReadSlot(t, c)
    case Inherits(name) =>
      var text := InheritedText(name);
      var entry := (match o
        case Plus(a) =>
          NumberTextEnds(a);
          NonNumericText(text + NumberText(a));
          SafeAmount(Str(text + NumberText(a)))
        case Minus(a) =>
          NonNumericText(text);
          (match MinusCents(ToNumber(Str(text)), a)
           case NaN => 0
           case Finite(d) => SafeAmount(Num(d))));
      if name == "__proto__" then t else t[c := Sum(entry)]
    case _ => Adjust(t, c, Signed(o))
  }

  /** The category move as written: `- amount` on the old category, then `+ amount` on the new. */
  function MoveAmountAsWritten(t: Totals, from: string, to: string, amount: int): Totals
  {
    AdjustAsWritten(AdjustAsWritten(t, from, Minus(amount)), to, Plus(amount))
  }

  /** Moving 12.50 from "Shopping" to "toString" in totals holding no "toString" entry: as written
      the amount is lost, and the corrected move keeps it. */
  lemma InheritedCategoryLosesAmount()
    ensures MoveAmountAsWritten(map["Shopping" := Sum(1250)], "Shopping", "toString", 1250)
         == map["Shopping" := Sum(0), "toString" := Sum(0)]
    ensures MoveAmount(map["Shopping" := Sum(1250)], "Shopping", "toString", 1250)
         == map["Shopping" := Sum(0), "toString" := Sum(1250)]
  {
    var t := map["Shopping" := Sum(1250)];
    assert ReadSlot(t, "Shopping") == Own(Sum(1250));
    var once := AdjustAsWritten(t, "Shopping", Minus(1250));
    assert once == Adjust(t, "Shopping", -1250);
    assert once == map["Shopping" := Sum(0)];
    assert "toString" !in once && "toString" in InheritedNames;
    assert ReadSlot(once, "toString") == Inherits("toString");
    assert AdjustAsWritten(once, "toString", Plus(1250)) == once["toString" := Sum(0)];
    assert Adjust(once, "toString", 1250) == once["toString" := Sum(1250)];
  }

  /** The sum of every entry of an aggregate, NaN and missing entries read as 0. */
  ghost function GrandTotal(t: Totals): int
  {
    SumMap(map k | k in t :: Numeric(t, k))
  }

  lemma AdjustGrandTotal(t: Totals, c: string, delta: int)
    ensures GrandTotal(Adjust(t, c, delta)) == GrandTotal(t) + delta
  {
    var values := map k | k in t :: Numeric(t, k);
    var v := Numeric(t, c) + delta;
    SumMapUpdate(values, c, v);
    var r := Adjust(t, c, delta);
    var after := map k | k in r :: Numeric(r, k);
    assert after.Keys == values[c := v].Keys;
    forall k | k in after
      ensures after[k] == values[c := v][k]
    {
      if k != c {
        assert r[k] == t[k];
      }
    }
    assert after == values[c := v];
  }

  /** The category change: take the amount out of the old category, then add it to the new one. */
  function MoveAmount(t: Totals, from: string, to: string, amount: int): Totals
  {
    Adjust(Adjust(t, from, -amount), to, amount)
  }

  /** Category-change conservation: the old category drops by the amount, the new one rises by
      it, nothing else changes, and the total over all categories is the same. */
  lemma MoveConserves(t: Totals, from: string, to: string, amount: int)
    ensures var r := MoveAmount(t, from, to, amount);
      && GrandTotal(r) == GrandTotal(t)
      && (from != to ==> Numeric(r, from) == Numeric(t, from) - amount && Numeric(r, to) == Numeric(t, to) + amount)
      && (from == to ==> Numeric(r, from) == Numeric(t, from))
      && forall k :: k != from && k != to ==> (k in r <==> k in t) && (k in t ==> r[k] == t[k])
  {
    AdjustGrandTotal(t, from, -amount);
    AdjustGrandTotal(Adjust(t, from, -amount), to, amount);
  }

  /** Delete conservation: only the row's category changes, down by the amount, and so does the
      total over all categories. */
  lemma SubtractChangesOneEntry(t: Totals, c: string, amount: int)
    ensures var r := Adjust(t, c, -amount);
      && Numeric(r, c) == Numeric(t, c) - amount
      && GrandTotal(r) == GrandTotal(t) - amount
      && forall k :: k != c ==> (k in r <==> k in t) && (k in t ==> r[k] == t[k])
  {
    AdjustGrandTotal(t, c, -amount);
  }

  // ------------------------------------------------------- the batch create

  /** One record of the `transactions` array of a batch create; `amount` in cents. */
  datatype TxnInput = TxnInput(
    userId: string, transactionId: string, amount: int, description: string, date: string, category: string)

  /** No field is missing or falsy (an empty string, an amount of 0). */
  predicate RecordComplete(r: TxnInput)
  {
    r.userId != "" && r.transactionId != "" && r.amount != 0
    && r.description != "" && r.date != "" && r.category != ""
  }

  function LedgerRow(r: TxnInput): Txn
  {
    Txn(r.userId, SafeAmount(CentsValue(r.amount)), r.description, r.date, r.category)
  }

  /** A queued `batch.set` of a ledger row. */
  datatype Write = Write(id: string, row: Txn)

  function LedgerWrites(rs: seq<TxnInput>): (w: seq<Write>)
    ensures |w| == |rs|
    ensures forall i :: 0 <= i < |rs| ==> w[i] == Write(rs[i].transactionId, LedgerRow(rs[i]))
  {
    if |rs| == 0 then []
    else LedgerWrites(rs[..|rs| - 1]) + [Write(rs[|rs| - 1].transactionId, LedgerRow(rs[|rs| - 1]))]
  }

  /** Committing the queued sets in order; a later set of the same id overwrites an earlier one. */
  function Upsert(ledger: Ledger, writes: seq<Write>): Ledger
  {
    if |writes| == 0 then ledger
    else Upsert(ledger, writes[..|writes| - 1])[writes[|writes| - 1].id := writes[|writes| - 1].row]
  }

  /** The row of the last write to `id`, if any. */
  function LastWrite(writes: seq<Write>, id: string): Option<Txn>
  {
    if |writes| == 0 then None
    else if writes[|writes| - 1].id == id then Some(writes[|writes| - 1].row)
    else LastWrite(writes[..|writes| - 1], id)
  }

  /** The ledger is keyed by id: after the commit each written id holds exactly the row of its
      last write, and every other row is as it was. */
  lemma {:induction false} UpsertSpec(ledger: Ledger, writes: seq<Write>)
    ensures forall id :: id in Upsert(ledger, writes) <==> id in ledger || LastWrite(writes, id).Some?
    ensures forall id :: id in Upsert(ledger, writes) ==>
      Upsert(ledger, writes)[id] == (if LastWrite(writes, id).Some? then LastWrite(writes, id).value else ledger[id])
  {
    if |writes| > 0 {
      UpsertSpec(ledger, writes[..|writes| - 1]);
    }
  }

  /** Writing the same rows again changes nothing: a re-import does not duplicate ledger rows. */
  lemma UpsertIdempotent(ledger: Ledger, writes: seq<Write>)
    ensures Upsert(Upsert(ledger, writes), writes) == Upsert(ledger, writes)
  {
    var once := Upsert(ledger, writes);
    UpsertSpec(ledger, writes);
    UpsertSpec(once, writes);
  }

  /** The ids of the budgets, in no order. */
  function BudgetIds(budgets: seq<Budget>): set<string>
  {
    set b | b in budgets :: b.id
  }

  /** A record is only ever matched to an existing budget. */
  lemma {:induction false} AssignedIsBudget(budgets: seq<Budget>, rs: seq<TxnInput>, id: string)
    requires AnyAssigned(budgets, rs, id, None)
    ensures id in BudgetIds(budgets)
  {
    if !AnyAssigned(budgets, rs[..|rs| - 1], id, None) {
      var r := rs[|rs| - 1];
      var i := FirstMatch(budgets, r.userId, r.date).value;
      assert budgets[i] in budgets;
    } else {
      AssignedIsBudget(budgets, rs[..|rs| - 1], id);
    }
  }

  /** The stored totals a budget's delta starts from: those of its aggregate, or `{}`. */
  function PriorTotals(aggregates: map<string, Aggregate>, id: string): Totals
  {
    if id in aggregates then aggregates[id].categoryTotals else map[]
  }

  /** The `budgetUpdates` dictionary after the given records. */
  function Deltas(budgets: seq<Budget>, aggregates: map<string, Aggregate>, rs: seq<TxnInput>): map<string, Totals>
  {
    if |rs| == 0 then map[]
    else
      var d, r := Deltas(budgets, aggregates, rs[..|rs| - 1]), rs[|rs| - 1];
      match MatchedBudgetId(budgets, r.userId, r.date)
      case None => d
      case Some(id) =>
        var base := if id in d then d[id] else PriorTotals(aggregates, id);
        d[id := Adjust(base, r.category, r.amount)]
  }

  predicate Assigned(budgets: seq<Budget>, r: TxnInput, id: string)
  {
    MatchedBudgetId(budgets, r.userId, r.date) == Some(id)
  }

  /** Some record of the batch is matched to budget `id` (and carries category `c`, for `Some`). */
  predicate AnyAssigned(budgets: seq<Budget>, rs: seq<TxnInput>, id: string, c: Option<string>)
  {
    |rs| > 0
    && (AnyAssigned(budgets, rs[..|rs| - 1], id, c)
        || (Assigned(budgets, rs[|rs| - 1], id) && (c.None? || rs[|rs| - 1].category == c.value)))
  }

  /** The sum of the amounts of the records matched to budget `id` with category `c`. */
  function BatchSum(budgets: seq<Budget>, rs: seq<TxnInput>, id: string, c: string): int
  {
    if |rs| == 0 then 0
    else
      var r := rs[|rs| - 1];
      BatchSum(budgets, rs[..|rs| - 1], id, c) + (if Assigned(budgets, r, id) && r.category == c then r.amount else 0)
  }

  lemma {:induction false} UnassignedSumsZero(budgets: seq<Budget>, rs: seq<TxnInput>, id: string, c: string)
    requires !AnyAssigned(budgets, rs, id, None)
    ensures BatchSum(budgets, rs, id, c) == 0 && !AnyAssigned(budgets, rs, id, Some(c))
  {
    if |rs| > 0 {
      UnassignedSumsZero(budgets, rs[..|rs| - 1], id, c);
    }
  }

  /** What the entry `e` for budget `id` holds after the records `rs`, category by category. */
  ghost predicate EntryMeaning(budgets: seq<Budget>, aggregates: map<string, Aggregate>, rs: seq<TxnInput>, e: Totals, id: string)
  {
    forall c ::
      && Numeric(e, c) == Numeric(PriorTotals(aggregates, id), c) + BatchSum(budgets, rs, id, c)
      && (AnyAssigned(budgets, rs, id, Some(c)) ==> c in e && e[c].Sum?)
      && (!AnyAssigned(budgets, rs, id, Some(c)) ==>
        (c in e <==> c in PriorTotals(aggregates, id))
        && (c in PriorTotals(aggregates, id) ==> e[c] == PriorTotals(aggregates, id)[c]))
  }

  /** What the dictionary `d` after the records `rs` holds. */
  ghost predicate DeltasMeaning(budgets: seq<Budget>, aggregates: map<string, Aggregate>, rs: seq<TxnInput>, d: map<string, Totals>)
  {
    && (forall id :: id in d <==> AnyAssigned(budgets, rs, id, None))
    && (forall id :: id in d ==> EntryMeaning(budgets, aggregates, rs, d[id], id))
  }

  /** A record matched elsewhere leaves the meaning of an entry as it was. */
  lemma EntryUntouched(budgets: seq<Budget>, aggregates: map<string, Aggregate>, rs: seq<TxnInput>, e: Totals, id: string)
    requires |rs| > 0 && !Assigned(budgets, rs[|rs| - 1], id)
    requires EntryMeaning(budgets, aggregates, rs[..|rs| - 1], e, id)
    ensures EntryMeaning(budgets, aggregates, rs, e, id)
  {
    var prefix := rs[..|rs| - 1];
    forall c
      ensures BatchSum(budgets, rs, id, c) == BatchSum(budgets, prefix, id, c)
      ensures AnyAssigned(budgets, rs, id, Some(c)) == AnyAssigned(budgets, prefix, id, Some(c))
    {
    }
  }

  /** A record matched to budget `id` adds its amount to its category's entry. */
  lemma EntryAdjusted(budgets: seq<Budget>, aggregates: map<string, Aggregate>, rs: seq<TxnInput>, e: Totals, id: string)
    requires |rs| > 0 && Assigned(budgets, rs[|rs| - 1], id)
    requires EntryMeaning(budgets, aggregates, rs[..|rs| - 1], e, id)
    ensures EntryMeaning(budgets, aggregates, rs, Adjust(e, rs[|rs| - 1].category, rs[|rs| - 1].amount), id)
  {
    var prefix, r := rs[..|rs| - 1], rs[|rs| - 1];
    var e' := Adjust(e, r.category, r.amount);
    forall c
      ensures Numeric(e', c) == Numeric(PriorTotals(aggregates, id), c) + BatchSum(budgets, rs, id, c)
      ensures AnyAssigned(budgets, rs, id, Some(c)) ==> c in e' && e'[c].Sum?
      ensures !AnyAssigned(budgets, rs, id, Some(c)) ==>
        (c in e' <==> c in PriorTotals(aggregates, id))
        && (c in PriorTotals(aggregates, id) ==> e'[c] == PriorTotals(aggregates, id)[c])
    {
      assert BatchSum(budgets, rs, id, c) == BatchSum(budgets, prefix, id, c) + (if r.category == c then r.amount else 0);
      assert AnyAssigned(budgets, rs, id, Some(c)) == (AnyAssigned(budgets, prefix, id, Some(c)) || r.category == c);
    }
  }

  /** Before any record is matched to budget `id`, its stored totals already mean what an entry must. */
  lemma EntryFromPrior(budgets: seq<Budget>, aggregates: map<string, Aggregate>, rs: seq<TxnInput>, id: string)
    requires !AnyAssigned(budgets, rs, id, None)
    ensures EntryMeaning(budgets, aggregates, rs, PriorTotals(aggregates, id), id)
  {
    forall c
      ensures BatchSum(budgets, rs, id, c) == 0 && !AnyAssigned(budgets, rs, id, Some(c))
    {
      UnassignedSumsZero(budgets, rs, id, c);
    }
  }

  /** One more record keeps the meaning of the dictionary. */
  lemma DeltasStep(budgets: seq<Budget>, aggregates: map<string, Aggregate>, rs: seq<TxnInput>)
    requires |rs| > 0
    requires DeltasMeaning(budgets, aggregates, rs[..|rs| - 1], Deltas(budgets, aggregates, rs[..|rs| - 1]))
    ensures DeltasMeaning(budgets, aggregates, rs, Deltas(budgets, aggregates, rs))
  {
    var prefix, r := rs[..|rs| - 1], rs[|rs| - 1];
    var d, d' := Deltas(budgets, aggregates, prefix), Deltas(budgets, aggregates, rs);
    forall id | id in d'
      ensures EntryMeaning(budgets, aggregates, rs, d'[id], id)
    {
      if Assigned(budgets, r, id) {
        var base := if id in d then d[id] else PriorTotals(aggregates, id);
        if id !in d {
          EntryFromPrior(budgets, aggregates, prefix, id);
        }
        assert d'[id] == Adjust(base, r.category, r.amount);
        EntryAdjusted(budgets, aggregates, rs, base, id);
      } else {
        assert id in d && d'[id] == d[id];
        EntryUntouched(budgets, aggregates, rs, d[id], id);
      }
    }
  }

  /** The dictionary holds an entry for exactly the budgets some record was matched to; each
      entry's category total is the stored total (0 when absent or NaN) plus the amounts of the
      batch records matched to that budget with that category; a category no such record
      carries keeps its stored entry. */
  lemma {:induction false} DeltasSpec(budgets: seq<Budget>, aggregates: map<string, Aggregate>, rs: seq<TxnInput>)
    ensures forall id :: id in Deltas(budgets, aggregates, rs) <==> AnyAssigned(budgets, rs, id, None)
    ensures forall id, c :: id in Deltas(budgets, aggregates, rs) ==>
      Numeric(Deltas(budgets, aggregates, rs)[id], c) == Numeric(PriorTotals(aggregates, id), c) + BatchSum(budgets, rs, id, c)
    ensures forall id, c :: id in Deltas(budgets, aggregates, rs) && AnyAssigned(budgets, rs, id, Some(c)) ==>
      c in Deltas(budgets, aggregates, rs)[id] && Deltas(budgets, aggregates, rs)[id][c].Sum?
    ensures forall id, c :: id in Deltas(budgets, aggregates, rs) && !AnyAssigned(budgets, rs, id, Some(c)) ==>
      (c in Deltas(budgets, aggregates, rs)[id] <==> c in PriorTotals(aggregates, id))
      && (c in PriorTotals(aggregates, id) ==> Deltas(budgets, aggregates, rs)[id][c] == PriorTotals(aggregates, id)[c])
  {
    if |rs| > 0 {
      DeltasSpec(budgets, aggregates, rs[..|rs| - 1]);
      DeltasStep(budgets, aggregates, rs);
    }
    var d := Deltas(budgets, aggregates, rs);
    assert DeltasMeaning(budgets, aggregates, rs, d);
    forall id, c | id in d
      ensures Numeric(d[id], c) == Numeric(PriorTotals(aggregates, id), c) + BatchSum(budgets, rs, id, c)
      ensures AnyAssigned(budgets, rs, id, Some(c)) ==> c in d[id] && d[id][c].Sum?
      ensures !AnyAssigned(budgets, rs, id, Some(c)) ==>
        (c in d[id] <==> c in PriorTotals(aggregates, id))
        && (c in PriorTotals(aggregates, id) ==> d[id][c] == PriorTotals(aggregates, id)[c])
    {
      assert EntryMeaning(budgets, aggregates, rs, d[id], id);
    }
  }

  /** Committing the dictionary with `set(..., { merge: true })`: an existing aggregate keeps its
      other fields and has its totals merged key by key; a missing one is created with the
      totals alone. */
  function CommitDeltas(aggregates: map<string, Aggregate>, updates: map<string, Totals>): map<string, Aggregate>
  {
    map id | id in aggregates.Keys + updates.Keys ::
      if id !in updates then aggregates[id]
      else if id in aggregates then aggregates[id].(categoryTotals := aggregates[id].categoryTotals + updates[id])
      else Aggregate(None, None, None, None, None, None, updates[id])
  }

  /** The aggregates after a batch create has committed. */
  function PostAggregates(budgets: seq<Budget>, aggregates: map<string, Aggregate>, rs: seq<TxnInput>): map<string, Aggregate>
  {
    CommitDeltas(aggregates, Deltas(budgets, aggregates, rs))
  }

  /** After a batch create, each budget some record was matched to holds, per category, its
      prior total plus the sum of the batch amounts matched to it with that category, and keeps
      every other field and every untouched entry; every other aggregate is unchanged. */
  lemma PostedTotals(budgets: seq<Budget>, aggregates: map<string, Aggregate>, rs: seq<TxnInput>)
    ensures var after := PostAggregates(budgets, aggregates, rs);
      && (forall id :: id in after <==> id in aggregates || AnyAssigned(budgets, rs, id, None))
      && (forall id :: id in aggregates && !AnyAssigned(budgets, rs, id, None) ==> after[id] == aggregates[id])
      && (forall id, c :: AnyAssigned(budgets, rs, id, None) ==>
            Numeric(after[id].categoryTotals, c) == Numeric(PriorTotals(aggregates, id), c) + BatchSum(budgets, rs, id, c))
      && (forall id, c :: AnyAssigned(budgets, rs, id, None) && !AnyAssigned(budgets, rs, id, Some(c)) ==>
            (c in after[id].categoryTotals <==> c in PriorTotals(aggregates, id))
            && (c in PriorTotals(aggregates, id) ==> after[id].categoryTotals[c] == PriorTotals(aggregates, id)[c]))
      && (forall id :: id in aggregates && AnyAssigned(budgets, rs, id, None) ==>
            after[id] == aggregates[id].(categoryTotals := after[id].categoryTotals))
  {
    var d := Deltas(budgets, aggregates, rs);
    DeltasSpec(budgets, aggregates, rs);
    var after := CommitDeltas(aggregates, d);
    forall id | id in d
      ensures after[id].categoryTotals == d[id]
    {
      if id in aggregates {
        var prior := aggregates[id].categoryTotals;
        forall c | c in prior
          ensures c in d[id]
        {
          if !AnyAssigned(budgets, rs, id, Some(c)) {
            assert c in PriorTotals(aggregates, id);
          }
        }
        assert prior + d[id] == d[id];
      }
    }
  }

  /** Re-posting is not idempotent for the aggregate: posting the same batch twice (with no
      budget change in between) adds every matched amount twice, while the ledger holds each
      row once. */
  lemma RepostCountsTwice(budgets: seq<Budget>, aggregates: map<string, Aggregate>, ledger: Ledger, rs: seq<TxnInput>)
    ensures forall id :: AnyAssigned(budgets, rs, id, None) ==>
      id in PostAggregates(budgets, PostAggregates(budgets, aggregates, rs), rs)
    ensures forall id, c :: AnyAssigned(budgets, rs, id, None) ==>
      Numeric(PostAggregates(budgets, PostAggregates(budgets, aggregates, rs), rs)[id].categoryTotals, c)
      == Numeric(PriorTotals(aggregates, id), c) + 2 * BatchSum(budgets, rs, id, c)
    ensures Upsert(Upsert(ledger, LedgerWrites(rs)), LedgerWrites(rs)) == Upsert(ledger, LedgerWrites(rs))
  {
    var once := PostAggregates(budgets, aggregates, rs);
    PostedTotals(budgets, aggregates, rs);
    PostedTotals(budgets, once, rs);
    UpsertIdempotent(ledger, LedgerWrites(rs));
  }

  /** One more record extends the queued writes and the dictionary by that record alone. */
  lemma BatchStep(budgets: seq<Budget>, aggregates: map<string, Aggregate>, rs: seq<TxnInput>, i: nat)
    requires i < |rs|
    ensures LedgerWrites(rs[..i + 1]) == LedgerWrites(rs[..i]) + [Write(rs[i].transactionId, LedgerRow(rs[i]))]
    ensures Deltas(budgets, aggregates, rs[..i + 1]) ==
      var d := Deltas(budgets, aggregates, rs[..i]);
      match MatchedBudgetId(budgets, rs[i].userId, rs[i].date)
      case None => d
      case Some(id) => d[id := Adjust(if id in d then d[id] else PriorTotals(aggregates, id), rs[i].category, rs[i].amount)]
  {
    assert rs[..i + 1][..i] == rs[..i];
  }

  /** The validated batch: the queued ledger writes and the `budgetUpdates` dictionary. */
  datatype Batch = Batch(writes: seq<Write>, updates: map<string, Totals>)

  /** The loop of the batch create: validate each record in turn, queue its ledger write, and
      fold its amount into the dictionary entry of its first matching budget, which starts from
      that budget's stored totals (or `{}` when it has no aggregate). */
  method CollectBatch(budgets: seq<Budget>, aggregates: map<string, Aggregate>, rs: seq<TxnInput>)
    returns (r: Result<Batch>)
    ensures r.Err? <==> exists i :: 0 <= i < |rs| && !RecordComplete(rs[i])
    ensures r.Err? ==> r.error == BadRequest
    ensures r.Ok? ==> r.value == Batch(LedgerWrites(rs), Deltas(budgets, aggregates, rs))
  {
    var writes: seq<Write> := [];
    var updates: map<string, Totals> := map[];
    var i := 0;
    while i < |rs|
      invariant 0 <= i <= |rs|
      invariant forall j :: 0 <= j < i ==> RecordComplete(rs[j])
      invariant writes == LedgerWrites(rs[..i])
      invariant updates == Deltas(budgets, aggregates, rs[..i])
    {
      var t := rs[i];
      if !RecordComplete(t) {
        return Err(BadRequest);
      }
      BatchStep(budgets, aggregates, rs, i);
      writes := writes + [Write(t.transactionId, LedgerRow(t))];
      var m := FirstMatch(budgets, t.userId, t.date);
      if m.Some? {
        var id := budgets[m.value].id;
        var base := if id in updates then updates[id] else PriorTotals(aggregates, id);
        updates := updates[id := Adjust(base, t.category, t.amount)];
      }
      assert updates == Deltas(budgets, aggregates, rs[..i + 1]);
      i := i + 1;
    }
    assert rs[..i] == rs;
    return Ok(Batch(writes, updates));
  }

  // ------------------------------------------- category change and delete

  /** The aggregates after a category change of row `t`: if its first matching budget has an
      aggregate, the amount moves from the old category to the new one; otherwise nothing. */
  function Recategorized(budgets: seq<Budget>, aggregates: map<string, Aggregate>, t: Txn, category: string)
    : map<string, Aggregate>
  {
    match MatchedBudgetId(budgets, t.userId, t.date)
    case None => aggregates
    case Some(id) =>
      if id !in aggregates then aggregates
      else
        var amount := SafeAmount(CentsValue(t.amount));
        aggregates[id := aggregates[id].(categoryTotals := MoveAmount(aggregates[id].categoryTotals, t.category, category, amount))]
  }

  /** Only the totals of the matched budget's aggregate change, and their total over all
      categories is conserved. */
  lemma RecategorizedConserves(budgets: seq<Budget>, aggregates: map<string, Aggregate>, t: Txn, category: string)
    ensures var after := Recategorized(budgets, aggregates, t, category);
      && after.Keys == aggregates.Keys
      && forall id :: id in after ==>
           after[id] == aggregates[id].(categoryTotals := after[id].categoryTotals)
           && GrandTotal(after[id].categoryTotals) == GrandTotal(aggregates[id].categoryTotals)
           && (MatchedBudgetId(budgets, t.userId, t.date) != Some(id) ==> after[id] == aggregates[id])
  {
    match MatchedBudgetId(budgets, t.userId, t.date)
    case None =>
    case Some(b) =>
      if b in aggregates {
        var amount := SafeAmount(CentsValue(t.amount));
        var moved := MoveAmount(aggregates[b].categoryTotals, t.category, category, amount);
        MoveConserves(aggregates[b].categoryTotals, t.category, category, amount);
        assert Recategorized(budgets, aggregates, t, category) == aggregates[b := aggregates[b].(categoryTotals := moved)];
      }
  }

  /** The aggregates after row `t` is deleted: the amount comes out of its category in the first
      matching budget's aggregate; a matching budget without an aggregate is an error. */
  function Unbooked(budgets: seq<Budget>, aggregates: map<string, Aggregate>, t: Txn): Result<map<string, Aggregate>>
  {
    match MatchedBudgetId(budgets, t.userId, t.date)
    case None => Ok(aggregates)
    case Some(id) =>
      if id !in aggregates then Err(ServerError)
      else
        var amount := SafeAmount(CentsValue(t.amount));
        Ok(aggregates[id := aggregates[id].(categoryTotals := Adjust(aggregates[id].categoryTotals, t.category, -amount))])
  }

  /** A delete lowers exactly one entry of one aggregate, by the row's amount. */
  lemma UnbookedChangesOneEntry(budgets: seq<Budget>, aggregates: map<string, Aggregate>, t: Txn)
    ensures Unbooked(budgets, aggregates, t).Err? <==>
      MatchedBudgetId(budgets, t.userId, t.date).Some? && MatchedBudgetId(budgets, t.userId, t.date).value !in aggregates
    ensures Unbooked(budgets, aggregates, t).Ok? ==>
      var after := Unbooked(budgets, aggregates, t).value;
      && after.Keys == aggregates.Keys
      && forall id :: id in after ==>
           if MatchedBudgetId(budgets, t.userId, t.date) == Some(id) then
             && after[id] == aggregates[id].(categoryTotals := after[id].categoryTotals)
             && Numeric(after[id].categoryTotals, t.category) == Numeric(aggregates[id].categoryTotals, t.category) - t.amount
             && GrandTotal(after[id].categoryTotals) == GrandTotal(aggregates[id].categoryTotals) - t.amount
             && forall c :: c != t.category ==>
                  (c in after[id].categoryTotals <==> c in aggregates[id].categoryTotals)
                  && (c in aggregates[id].categoryTotals ==> after[id].categoryTotals[c] == aggregates[id].categoryTotals[c])
           else after[id] == aggregates[id]
  {
    match MatchedBudgetId(budgets, t.userId, t.date)
    case None =>
    case Some(b) =>
      if b in aggregates {
        SubtractChangesOneEntry(aggregates[b].categoryTotals, t.category, t.amount);
      }
  }
}

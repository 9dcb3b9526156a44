/**
 * The budget handlers' rules (src/routes/budgets.js): which create requests are
 * accepted, what a patch writes to the budget document, the window an update
 * recomputes over, and the aggregate documents create and update write.
 */
module BudgetRules {
  import opened Outcomes
  import opened Amounts
  import opened Records
  import opened Recompute

  /** The body of a create request; `amount` is in cents. */
  datatype BudgetRequest = BudgetRequest(userId: string, amount: int, title: string, fromDate: string, toDate: string)

  /** Every field is truthy: no empty string, and an amount other than 0. */
  predicate BudgetComplete(req: BudgetRequest)
  {
    req.userId != "" && req.amount != 0 && req.title != "" && req.fromDate != "" && req.toDate != ""
  }

  function NewBudget(id: string, req: BudgetRequest): Budget
  {
    Budget(id, req.userId, req.title, req.amount, req.fromDate, req.toDate)
  }

  function RequestWindow(req: BudgetRequest): Window
  {
    Window(req.userId, req.fromDate, req.toDate)
  }

  /** The aggregate a create writes: every header field, the amount through `toFixed(2)`, and the
      recomputed totals. A whole number of cents comes back unchanged from the rounding. */
  function CreatedAggregate(id: string, req: BudgetRequest, totals: Totals): (a: Aggregate)
    ensures a.amount == Some(AmountNumber(req.amount))
    ensures a.budgetId == Some(id) && a.userId == Some(req.userId) && a.title == Some(req.title)
    ensures a.fromDate == Some(req.fromDate) && a.toDate == Some(req.toDate) && a.categoryTotals == totals
  {
    SafeAmountOfCents(req.amount);
    Aggregate(Some(req.userId), Some(id), Some(req.title), Some(AmountNumber(RoundToCents(Decimal(req.amount, 2)))),
      Some(req.fromDate), Some(req.toDate), totals)
  }

  // ------------------------------------------------------------------ lookup and removal

  /** The position of the budget with id `id`. */
  function FindBudget(budgets: seq<Budget>, id: string): (r: Option<nat>)
    ensures r.Some? ==> r.value < |budgets| && budgets[r.value].id == id
    ensures r.None? <==> forall i :: 0 <= i < |budgets| ==> budgets[i].id != id
  {
    if |budgets| == 0 then None
    else if budgets[0].id == id then Some(0)
    else match FindBudget(budgets[1..], id)
      case None => None
      case Some(i) => Some(i + 1)
  }

  /** The budgets without the one with id `id` (if any), the others in their order. */
  function RemoveBudget(budgets: seq<Budget>, id: string): (r: seq<Budget>)
    ensures forall b :: b in r <==> b in budgets && b.id != id
    ensures |r| <= |budgets|
  {
    if |budgets| == 0 then []
    else (if budgets[0].id == id then [] else [budgets[0]]) + RemoveBudget(budgets[1..], id)
  }

  // ------------------------------------------------------------------ update

  /** The fields a patch may carry; an absent field is left alone. */
  datatype BudgetPatch = BudgetPatch(
    userId: Option<string>,
    title: Option<string>,
    amount: Option<int>,
    fromDate: Option<string>,
    toDate: Option<string>)

  function Patched<T>(o: Option<T>, current: T): T
  {
    if o.Some? then o.value else current
  }

  /** `updates.x || old.x`: the patch's value unless it is absent or empty. */
  function OrElse(o: Option<string>, fallback: string): string
  {
    if o.Some? && o.value != "" then o.value else fallback
  }

  /** The budget document after the patch: every field the patch carries, empty or not, is written. */
  function PatchBudget(b: Budget, p: BudgetPatch): (r: Budget)
    ensures r.id == b.id
  {
    Budget(b.id, Patched(p.userId, b.userId), Patched(p.title, b.title), Patched(p.amount, b.amount),
      Patched(p.fromDate, b.fromDate), Patched(p.toDate, b.toDate))
  }

  /** The window an update recomputes over: always the old owner; each date from the patch when
      it is non-empty, else the old budget's. */
  function PatchWindow(b: Budget, p: BudgetPatch): Window
  {
    Window(b.userId, OrElse(p.fromDate, b.fromDate), OrElse(p.toDate, b.toDate))
  }

  /** `parseFloat(updates.amount).toFixed(2)`: the amount's text, or "NaN" when it is absent. */
  function UpdatedAmountText(p: BudgetPatch): string
  {
    if p.amount.Some? then FormatCents(p.amount.value) else "NaN"
  }

  /** The amount text is never empty, so the fallback to the old amount is never taken; it reads
      back as the patched amount, or is "NaN" exactly when the patch has no amount. */
  lemma UpdatedAmountMeaning(p: BudgetPatch)
    ensures UpdatedAmountText(p) != ""
    ensures UpdatedAmountText(p) == "NaN" <==> p.amount.None?
    ensures p.amount.Some? ==> SafeAmount(Str(UpdatedAmountText(p))) == p.amount.value
    ensures p.amount.None? ==> ToNumber(Str(UpdatedAmountText(p))) == NaN
  {
    assert Trim("NaN") == "NaN";
    assert !AllDigits("NaN");
    assert ToNumber(Str("NaN")) == NaN;
    if p.amount.Some? {
      FormatCentsRoundTrip(p.amount.value);
    }
  }

  /** The aggregate after an update: title, amount text and dates as the handler computes them,
      the totals replaced by the recompute; owner and budget id kept. */
  function UpdatedAggregate(a: Aggregate, b: Budget, p: BudgetPatch, totals: Totals): Aggregate
  {
    var w := PatchWindow(b, p);
    a.(title := Some(OrElse(p.title, b.title)), amount := Some(AmountText(UpdatedAmountText(p))),
       fromDate := Some(w.fromDate), toDate := Some(w.toDate), categoryTotals := totals)
  }

  /** Applying the same patch a second time recomputes over the same window exactly when the patch
      neither changes the owner nor empties a date: an empty date is stored in the budget, but the
      first update's window fell back to the old date. */
  lemma RepeatedPatchWindow(b: Budget, p: BudgetPatch)
    ensures PatchWindow(PatchBudget(b, p), p) == PatchWindow(b, p) <==>
      && (p.userId.None? || p.userId.value == b.userId)
      && (p.fromDate != Some("") || b.fromDate == "")
      && (p.toDate != Some("") || b.toDate == "")
  {
  }

  /** The recompute depends only on the ledger and the window, so repeating a patch that neither
      changes the owner nor empties a date, with the ledger unchanged, yields the same totals. */
  lemma RepeatedUpdateSameTotals(ledger: Ledger, b: Budget, p: BudgetPatch)
    requires p.userId.None? || p.userId.value == b.userId
    requires p.fromDate != Some("") && p.toDate != Some("")
    ensures RecomputedTotals(ledger, PatchWindow(PatchBudget(b, p), p)) == RecomputedTotals(ledger, PatchWindow(b, p))
  {
    RepeatedPatchWindow(b, p);
  }

  /** A concrete case: a patch that empties `fromDate` does not settle the window. */
  lemma EmptyDateNotRepeatable()
    ensures var b := Budget("b1", "u1", "Jan", 100000, "2025-01-01", "2025-01-31");
      var p := BudgetPatch(None, None, None, Some(""), None);
      && PatchWindow(b, p).fromDate == "2025-01-01"
      && PatchWindow(PatchBudget(b, p), p).fromDate == ""
  {
  }
}

/**
 * The three collections the handlers change and the handlers themselves
 * (src/routes/transactions.js, src/routes/budgets.js, src/routes/plaid.js),
 * each as a method of one store object.
 */
module Store {
  import opened Outcomes
  import opened Amounts
  import opened Records
  import opened Recompute
  import opened Incremental
  import opened BudgetRules
  import opened Classifier

  /** No two budgets share an id. */
  predicate UniqueIds(budgets: seq<Budget>)
  {
    forall i, j :: 0 <= i < j < |budgets| ==> budgets[i].id != budgets[j].id
  }

  /** Patching a budget in place keeps the set of ids. */
  lemma PatchKeepsIds(budgets: seq<Budget>, i: nat, p: BudgetPatch)
    requires i < |budgets|
    ensures BudgetIds(budgets[i := PatchBudget(budgets[i], p)]) == BudgetIds(budgets)
  {
    var after := budgets[i := PatchBudget(budgets[i], p)];
    forall id | id in BudgetIds(budgets)
      ensures id in BudgetIds(after)
    {
      var b :| b in budgets && b.id == id;
      var k :| 0 <= k < |budgets| && budgets[k] == b;
      assert after[k] in after;
    }
    forall id | id in BudgetIds(after)
      ensures id in BudgetIds(budgets)
    {
      var b :| b in after && b.id == id;
      var k :| 0 <= k < |after| && after[k] == b;
      assert budgets[k] in budgets;
    }
  }

  class Db {
    /** The `transactions` collection. */
    var ledger: Ledger
    /** The `budgets` collection, in the order queries return them. */
    var budgets: seq<Budget>
    /** The `budget-transactions` collection, keyed by budget id. */
    var aggregates: map<string, Aggregate>

    ghost predicate Valid()
      reads this
    {
      UniqueIds(budgets)
    }

    /** Every budget has its aggregate and every aggregate its budget. No handler promises this,
        but each keeps it once it holds. */
    ghost predicate Consistent()
      reads this
    {
      aggregates.Keys == BudgetIds(budgets)
    }

    constructor ()
      ensures Valid() && Consistent()
      ensures ledger == map[] && budgets == [] && aggregates == map[]
    {
      ledger := map[];
      budgets := [];
      aggregates := map[];
    }

    // ------------------------------------------------------------ transactions

    /** POST /transactions: validate the whole batch, then commit the rows, then the merged totals. */
    method PostTransactions(transactions: Option<seq<TxnInput>>) returns (r: Result<()>)
      requires Valid()
      modifies this
      ensures Valid() && budgets == old(budgets)
      ensures r.Err? <==>
        || transactions.None?
        || |transactions.value| == 0
        || exists i :: 0 <= i < |transactions.value| && !RecordComplete(transactions.value[i])
      ensures r.Err? ==> r.error == BadRequest && ledger == old(ledger) && aggregates == old(aggregates)
      ensures r.Ok? ==>
        && ledger == Upsert(old(ledger), LedgerWrites(transactions.value))
        && aggregates == PostAggregates(old(budgets), old(aggregates), transactions.value)
      ensures old(Consistent()) ==> Consistent()
    {
      if transactions.None? || |transactions.value| == 0 {
        return Err(BadRequest);
      }
      var batch := CollectBatch(budgets, aggregates, transactions.value);
      if batch.Err? {
        return Err(batch.error);
      }
      if Consistent() {
        PostKeepsConsistent(budgets, aggregates, transactions.value);
      }
      ledger := Upsert(ledger, batch.value.writes);
      aggregates := CommitDeltas(aggregates, batch.value.updates);
      return Ok(());
    }

    /** PATCH /transactions/{id}: file the row under a new category and move its amount between the
        totals of its budget's aggregate, when the budget has one. */
    method PatchTransactionCategory(transactionId: string, category: string) returns (r: Result<()>)
      requires Valid()
      modifies this
      ensures Valid() && budgets == old(budgets)
      ensures category == "" ==> r == Err(BadRequest) && ledger == old(ledger) && aggregates == old(aggregates)
      ensures category != "" && transactionId !in old(ledger) ==>
        r == Err(NotFound) && ledger == old(ledger) && aggregates == old(aggregates)
      ensures category != "" && transactionId in old(ledger) ==>
        && r == Ok(())
        && ledger == old(ledger)[transactionId := old(ledger)[transactionId].(category := category)]
        && aggregates == Recategorized(old(budgets), old(aggregates), old(ledger)[transactionId], category)
      ensures old(Consistent()) ==> Consistent()
    {
      if category == "" {
        return Err(BadRequest);
      }
      if transactionId !in ledger {
        return Err(NotFound);
      }
      var txn := ledger[transactionId];
      ledger := ledger[transactionId := txn.(category := category)];
      var amount := SafeAmount(CentsValue(txn.amount));
      var m := FirstMatch(budgets, txn.userId, txn.date);
      if m.Some? {
        var id := budgets[m.value].id;
        if id in aggregates {
          var totals := aggregates[id].categoryTotals;
          totals := Adjust(totals, txn.category, -amount);
          totals := Adjust(totals, category, amount);
          aggregates := aggregates[id := aggregates[id].(categoryTotals := totals)];
        }
      }
      SafeAmountOfCents(txn.amount);
      return Ok(());
    }

    /** DELETE /transactions/{id}: remove the row, then take its amount out of its budget's totals;
        a matching budget without an aggregate fails after the row is gone. */
    method DeleteTransaction(transactionId: string) returns (r: Result<()>)
      requires Valid()
      modifies this
      ensures Valid() && budgets == old(budgets)
      ensures transactionId !in old(ledger) ==>
        r == Err(NotFound) && ledger == old(ledger) && aggregates == old(aggregates)
      ensures transactionId in old(ledger) ==>
        && ledger == old(ledger) - {transactionId}
        && var after := Unbooked(old(budgets), old(aggregates), old(ledger)[transactionId]);
           if after.Err? then r == Err(ServerError) && aggregates == old(aggregates)
           else r == Ok(()) && aggregates == after.value
      ensures old(Consistent()) ==> Consistent()
    {
      if transactionId !in ledger {
        return Err(NotFound);
      }
      var txn := ledger[transactionId];
      var amount := SafeAmount(CentsValue(txn.amount));
      ledger := ledger - {transactionId};
      var m := FirstMatch(budgets, txn.userId, txn.date);
      if m.Some? {
        var id := budgets[m.value].id;
        if id !in aggregates {
          return Err(ServerError);
        }
        var totals := Adjust(aggregates[id].categoryTotals, txn.category, -amount);
        aggregates := aggregates[id := aggregates[id].(categoryTotals := totals)];
      }
      SafeAmountOfCents(txn.amount);
      return Ok(());
    }

    /** GET /transactions/by-budget: the owner's rows dated inside the window, with their amounts
        normalised to cents. */
    function TransactionsByBudget(userId: string, fromDate: string, toDate: string): (r: Result<Ledger>)
      reads this
      ensures r.Err? <==> userId == "" || fromDate == "" || toDate == ""
      ensures r.Err? ==> r.error == BadRequest
      ensures r.Ok? ==> forall id :: id in r.value <==> id in ledger && InWindow(ledger[id], Window(userId, fromDate, toDate))
      ensures r.Ok? ==> forall id :: id in r.value ==> r.value[id] == ledger[id]
    {
      if userId == "" || fromDate == "" || toDate == "" then Err(BadRequest)
      else
        var w := Window(userId, fromDate, toDate);
        var rows := map id | id in ledger && InWindow(ledger[id], w) :: ledger[id].(amount := SafeAmount(CentsValue(ledger[id].amount)));
        assert forall id :: id in rows ==> rows[id] == ledger[id] by {
          forall id | id in rows
            ensures rows[id] == ledger[id]
          {
            SafeAmountOfCents(ledger[id].amount);
          }
        }
        Ok(rows)
    }

    // ------------------------------------------------------------ budgets

    /** POST /budgets: total the owner's rows in the window, write the budget, then its aggregate.
        `newId` is the id the store generates for the new document. */
    method CreateBudget(req: BudgetRequest, newId: string) returns (r: Result<Totals>)
      requires Valid()
      requires newId !in BudgetIds(budgets)
      modifies this
      ensures Valid() && ledger == old(ledger)
      ensures r.Err? <==> !BudgetComplete(req)
      ensures r.Err? ==> r.error == BadRequest && budgets == old(budgets) && aggregates == old(aggregates)
      ensures r.Ok? ==>
        && r.value == RecomputedTotals(old(ledger), RequestWindow(req))
        && budgets == old(budgets) + [NewBudget(newId, req)]
        && aggregates == old(aggregates)[newId := CreatedAggregate(newId, req, r.value)]
      ensures old(Consistent()) ==> Consistent()
    {
      if !BudgetComplete(req) {
        return Err(BadRequest);
      }
      var totals := SumByCategory(ledger, Window(req.userId, req.fromDate, req.toDate));
      var b := Budget(newId, req.userId, req.title, req.amount, req.fromDate, req.toDate);
      assert forall i :: 0 <= i < |budgets| ==> budgets[i].id != newId by {
        forall i | 0 <= i < |budgets|
          ensures budgets[i].id != newId
        {
          assert budgets[i] in budgets;
        }
      }
      budgets := budgets + [b];
      aggregates := aggregates[newId := CreatedAggregate(newId, req, totals)];
      assert BudgetIds(budgets) == BudgetIds(old(budgets)) + {newId} by {
        assert b in budgets;
        forall id | id in BudgetIds(budgets)
          ensures id in BudgetIds(old(budgets)) + {newId}
        {
          var c :| c in budgets && c.id == id;
          if c != b {
            assert c in old(budgets);
          }
        }
      }
      return Ok(totals);
    }

    /** PATCH /budgets/{id}: write the patch to the budget, recompute over the window it names, and
        rewrite the aggregate; a budget without an aggregate fails after the budget is written. */
    method UpdateBudget(budgetId: string, patch: BudgetPatch) returns (r: Result<()>)
      requires Valid()
      modifies this
      ensures Valid() && ledger == old(ledger)
      ensures FindBudget(old(budgets), budgetId).None? ==>
        r == Err(NotFound) && budgets == old(budgets) && aggregates == old(aggregates)
      ensures FindBudget(old(budgets), budgetId).Some? ==>
        var i := FindBudget(old(budgets), budgetId).value;
        var b := old(budgets)[i];
        && budgets == old(budgets)[i := PatchBudget(b, patch)]
        && (budgetId !in old(aggregates) ==> r == Err(ServerError) && aggregates == old(aggregates))
        && (budgetId in old(aggregates) ==>
              r == Ok(())
              && aggregates == old(aggregates)[budgetId :=
                   UpdatedAggregate(old(aggregates)[budgetId], b, patch, RecomputedTotals(old(ledger), PatchWindow(b, patch)))])
      ensures old(Consistent()) ==> Consistent()
    {
      var found := FindBudget(budgets, budgetId);
      if found.None? {
        return Err(NotFound);
      }
      var i := found.value;
      var b := budgets[i];
      PatchKeepsIds(budgets, i, patch);
      budgets := budgets[i := PatchBudget(b, patch)];
      var window := Window(b.userId, OrElse(patch.fromDate, b.fromDate), OrElse(patch.toDate, b.toDate));
      var totals := SumByCategory(ledger, window);
      if budgetId !in aggregates {
        return Err(ServerError);
      }
      aggregates := aggregates[budgetId := UpdatedAggregate(aggregates[budgetId], b, patch, totals)];
      return Ok(());
    }

    /** DELETE /budgets/{id}: delete the budget and its aggregate; deleting what is not there is no error. */
    method DeleteBudget(budgetId: string) returns (r: Result<()>)
      requires Valid()
      modifies this
      ensures Valid() && r == Ok(()) && ledger == old(ledger)
      ensures budgets == RemoveBudget(old(budgets), budgetId)
      ensures |budgets| == |old(budgets)| - (if FindBudget(old(budgets), budgetId).Some? then 1 else 0)
      ensures aggregates == old(aggregates) - {budgetId}
      ensures old(Consistent()) ==> Consistent()
    {
      RemoveCount(budgets, budgetId);
      budgets := RemoveBudget(budgets, budgetId);
      aggregates := aggregates - {budgetId};
      RemoveKeepsUnique(old(budgets), budgetId);
      RemoveDropsId(old(budgets), budgetId);
      return Ok(());
    }

    // ------------------------------------------------------------ provider import

    /** POST /plaid/get_transactions: upsert one row per provider record; the totals are not touched.
        `response` is the provider's answer, `None` when the request to it failed. */
    method ImportTransactions(accessToken: string, userId: string, response: Option<seq<ProviderTxn>>)
      returns (r: Result<()>)
      requires Valid()
      modifies this
      ensures Valid() && budgets == old(budgets) && aggregates == old(aggregates)
      ensures accessToken == "" ==> r == Err(BadRequest) && ledger == old(ledger)
      ensures accessToken != "" && response.None? ==> r == Err(ServerError) && ledger == old(ledger)
      ensures accessToken != "" && response.Some? ==>
        r == Ok(()) && ledger == Upsert(old(ledger), ImportWrites(userId, response.value))
      ensures old(Consistent()) ==> Consistent()
    {
      if accessToken == "" {
        return Err(BadRequest);
      }
      if response.None? {
        return Err(ServerError);
      }
      ledger := Upsert(ledger, ImportWrites(userId, response.value));
      return Ok(());
    }
  }

  /** `RemoveBudget` one step at a time. */
  lemma RemoveUnfold(budgets: seq<Budget>, id: string)
    requires |budgets| > 0
    ensures RemoveBudget(budgets, id)
         == if budgets[0].id == id then RemoveBudget(budgets[1..], id)
            else [budgets[0]] + RemoveBudget(budgets[1..], id)
  {
  }

  lemma UniqueCons(b: Budget, tail: seq<Budget>)
    requires UniqueIds(tail)
    requires forall j :: 0 <= j < |tail| ==> tail[j].id != b.id
    ensures UniqueIds([b] + tail)
  {
    var s := [b] + tail;
    forall i, j | 0 <= i < j < |s|
      ensures s[i].id != s[j].id
    {
      assert s[j] == tail[j - 1];
      if i > 0 {
        assert s[i] == tail[i - 1];
      }
    }
  }

  /** Removing a budget keeps the others' ids distinct. */
  lemma {:induction false} RemoveKeepsUnique(budgets: seq<Budget>, id: string)
    requires UniqueIds(budgets)
    ensures UniqueIds(RemoveBudget(budgets, id))
  {
    if |budgets| > 0 {
      var head, tail := budgets[0], budgets[1..];
      assert UniqueIds(tail) by {
        forall i, j | 0 <= i < j < |tail|
          ensures tail[i].id != tail[j].id
        {
          assert tail[i] == budgets[i + 1] && tail[j] == budgets[j + 1];
        }
      }
      RemoveKeepsUnique(tail, id);
      RemoveUnfold(budgets, id);
      var rest := RemoveBudget(tail, id);
      if head.id != id {
        forall j | 0 <= j < |rest|
          ensures rest[j].id != head.id
        {
          assert rest[j] in rest;
          var k :| 0 <= k < |tail| && tail[k] == rest[j];
          assert budgets[k + 1] == rest[j];
        }
        UniqueCons(head, rest);
      }
    }
  }

  /** The match in a sequence of budgets is its head when the head covers the row, and the
      match in the tail otherwise. */
  lemma MatchedCons(b: Budget, tail: seq<Budget>, userId: string, date: string)
    ensures MatchedBudgetId([b] + tail, userId, date)
         == if Covers(b, userId, date) then Some(b.id) else MatchedBudgetId(tail, userId, date)
  {
    assert ([b] + tail)[1..] == tail;
  }

  /** Removing a budget keeps the others in their order, so every row not matched to the removed
      budget stays matched to the same budget. */
  lemma {:induction false} RemoveKeepsMatches(budgets: seq<Budget>, id: string, userId: string, date: string)
    requires MatchedBudgetId(budgets, userId, date) != Some(id)
    ensures MatchedBudgetId(RemoveBudget(budgets, id), userId, date) == MatchedBudgetId(budgets, userId, date)
  {
    if |budgets| > 0 {
      var head, tail := budgets[0], budgets[1..];
      assert budgets == [head] + tail;
      MatchedCons(head, tail, userId, date);
      RemoveUnfold(budgets, id);
      var rest := RemoveBudget(tail, id);
      if head.id == id {
        RemoveKeepsMatches(tail, id, userId, date);
      } else {
        MatchedCons(head, rest, userId, date);
        if !Covers(head, userId, date) {
          RemoveKeepsMatches(tail, id, userId, date);
        }
      }
    }
  }

  /** Removing an id no budget carries changes nothing. */
  lemma {:induction false} RemoveAbsent(budgets: seq<Budget>, id: string)
    requires forall j :: 0 <= j < |budgets| ==> budgets[j].id != id
    ensures RemoveBudget(budgets, id) == budgets
  {
    if |budgets| > 0 {
      RemoveAbsent(budgets[1..], id);
      RemoveUnfold(budgets, id);
      assert budgets == [budgets[0]] + budgets[1..];
    }
  }

  /** With distinct ids, removing a budget deletes one document when the id is found and none
      otherwise. */
  lemma {:induction false} RemoveCount(budgets: seq<Budget>, id: string)
    requires UniqueIds(budgets)
    ensures |RemoveBudget(budgets, id)| == |budgets| - (if FindBudget(budgets, id).Some? then 1 else 0)
  {
    if |budgets| > 0 {
      var tail := budgets[1..];
      RemoveUnfold(budgets, id);
      assert UniqueIds(tail) by {
        forall i, j | 0 <= i < j < |tail|
          ensures tail[i].id != tail[j].id
        {
          assert tail[i] == budgets[i + 1] && tail[j] == budgets[j + 1];
        }
      }
      if budgets[0].id == id {
        forall j | 0 <= j < |tail|
          ensures tail[j].id != id
        {
          assert tail[j] == budgets[j + 1];
        }
        RemoveAbsent(tail, id);
      } else {
        RemoveCount(tail, id);
        assert FindBudget(budgets, id).Some? <==> FindBudget(tail, id).Some?;
      }
    }
  }

  /** Removing a budget drops exactly its id. */
  lemma RemoveDropsId(budgets: seq<Budget>, id: string)
    ensures BudgetIds(RemoveBudget(budgets, id)) == BudgetIds(budgets) - {id}
  {
    var r := RemoveBudget(budgets, id);
    forall x | x in BudgetIds(budgets) - {id}
      ensures x in BudgetIds(r)
    {
      var b :| b in budgets && b.id == x;
      assert b in r;
    }
  }

  /** A batch only writes aggregates of existing budgets, so it keeps budgets and aggregates paired. */
  lemma PostKeepsConsistent(budgets: seq<Budget>, aggregates: map<string, Aggregate>, rs: seq<TxnInput>)
    requires aggregates.Keys == BudgetIds(budgets)
    ensures PostAggregates(budgets, aggregates, rs).Keys == BudgetIds(budgets)
  {
    PostedTotals(budgets, aggregates, rs);
    forall id | AnyAssigned(budgets, rs, id, None)
      ensures id in BudgetIds(budgets)
    {
      AssignedIsBudget(budgets, rs, id);
    }
  }
}

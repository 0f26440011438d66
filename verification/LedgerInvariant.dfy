/** The request ledger: conservation of request ids and bounded retention of results. */
module LedgerInvariant {
  import opened Prelude
  import opened Orders
  import opened Protocol
  import opened Optimistic
  import opened ClientSteps

  type ResultMap = map<RequestID, FunctionResult>

  /** The mutations and actions completed so far, in completion order, with their results. */
  datatype Completions = Completions(mutations: seq<RequestID>, mutationResults: ResultMap,
                                     actions: seq<RequestID>, actionResults: ResultMap)

  const NOTHING_COMPLETED := Completions([], map[], [], map[])

  /** order and results hold exactly the most recent completions. */
  ghost predicate Retains(limit: nat, done: seq<RequestID>, all: ResultMap, order: seq<RequestID>, kept: ResultMap) {
    && order == LastN(done, limit)
    && kept.Keys == Elements(order)
    && (forall x :: x in kept ==> x in all && kept[x] == all[x])
  }

  ghost predicate RequestShapes(requests: Requests, next: nat) {
    forall id :: id in requests ==>
      && requests[id].id == id && id < next
      && (requests[id].kind == MutationKind ==>
            requests[id].message.MutationRequest? && requests[id].message.requestID == id)
      && (requests[id].kind == ActionKind ==>
            && requests[id].message.ActionRequest? && requests[id].message.requestID == id
            && requests[id].update.None? && requests[id].result.None? && requests[id].ts.None?)
  }

  /** Every id below the next one is pending, a completed mutation or a completed action,
      and only one of the three. */
  ghost predicate Conserved(requests: Requests, next: nat, done: Completions) {
    && (forall id: nat :: id < next <==> id in requests || id in done.mutations || id in done.actions)
    && (forall id :: id in requests ==> id !in done.mutations && id !in done.actions)
    && (forall id :: id in done.mutations ==> id !in done.actions)
    && Distinct(done.mutations) && Distinct(done.actions)
  }

  ghost predicate LedgerOK(l: Ledger, done: Completions) {
    && l.limit >= 1
    && RequestShapes(l.requests, l.nextRequestID)
    && Conserved(l.requests, l.nextRequestID, done)
    && Retains(l.limit, done.mutations, done.mutationResults, l.completedMutationOrder, l.mutationResults)
    && Retains(l.limit, done.actions, done.actionResults, l.actionResultOrder, l.actionResults)
    && l.completedMutations == Elements(l.completedMutationOrder)
  }

  // ---- recording one completion ----

  function DoneMutation(done: Completions, id: RequestID, result: FunctionResult): Completions {
    done.(mutations := done.mutations + [id], mutationResults := done.mutationResults[id := result])
  }

  function DoneAction(done: Completions, id: RequestID, result: FunctionResult): Completions {
    done.(actions := done.actions + [id], actionResults := done.actionResults[id := result])
  }

  lemma LastNSnoc<T>(xs: seq<T>, x: T, n: nat)
    requires n >= 1
    ensures LastN(LastN(xs, n) + [x], n) == LastN(xs + [x], n)
  {
  }

  lemma LastNElements<T>(xs: seq<T>, n: nat)
    ensures forall x :: x in LastN(xs, n) ==> x in xs
    ensures |LastN(xs, n)| == if |xs| <= n then |xs| else n
  {
  }

  lemma RetainsSnoc(limit: nat, done: seq<RequestID>, all: ResultMap, order: seq<RequestID>, kept: ResultMap,
                    id: RequestID, result: FunctionResult)
    requires limit >= 1 && Retains(limit, done, all, order, kept) && id !in done
    ensures var order' := LastN(order + [id], limit);
      Retains(limit, done + [id], all[id := result], order', Retain(kept[id := result], order'))
  {
    var order' := LastN(order + [id], limit);
    var kept' := Retain(kept[id := result], order');
    LastNSnoc(done, id, limit);
    LastNElements(order + [id], limit);
    forall x ensures x in kept' <==> x in Elements(order') {
      if x in order' {
        assert x == id || x in Elements(order);
      }
    }
    LastNElements(done, limit);
    assert id !in Elements(order);
  }

  /** A pending mutation completes: it moves from the pending to the completed side. */
  lemma CompletingMutation(l: Ledger, done: Completions, id: RequestID, result: FunctionResult)
    requires LedgerOK(l, done) && id in l.requests
    ensures LedgerOK(Forget(RememberMutation(l, id, result), id), DoneMutation(done, id, result))
  {
    RetainsSnoc(l.limit, done.mutations, done.mutationResults, l.completedMutationOrder, l.mutationResults, id, result);
    MovesOnce(l.requests, l.nextRequestID, done, id);
    CompletedSet(l.completedMutationOrder, id, l.limit);
  }

  lemma CompletedSet(order: seq<RequestID>, id: RequestID, limit: nat)
    ensures var order' := LastN(order + [id], limit);
      (set x | x in Elements(order) + {id} && x in order') == Elements(order')
  {
    LastNElements(order + [id], limit);
  }

  lemma MovesOnce(requests: Requests, next: nat, done: Completions, id: RequestID)
    requires Conserved(requests, next, done) && id in requests
    ensures Conserved(requests - {id}, next, done.(mutations := done.mutations + [id]))
    ensures Conserved(requests - {id}, next, done.(actions := done.actions + [id]))
  {
  }

  lemma CompletingAction(l: Ledger, done: Completions, id: RequestID, result: FunctionResult)
    requires LedgerOK(l, done) && id in l.requests
    ensures LedgerOK(Forget(RememberAction(l, id, result), id), DoneAction(done, id, result))
  {
    RetainsSnoc(l.limit, done.actions, done.actionResults, l.actionResultOrder, l.actionResults, id, result);
    MovesOnce(l.requests, l.nextRequestID, done, id);
  }

  // ---- recording several completions ----

  function DoneMutations(done: Completions, ids: seq<RequestID>, results: map<RequestID, Request>): Completions
    requires forall i :: 0 <= i < |ids| ==> ids[i] in results && results[ids[i]].result.Some?
  {
    if ids == [] then done
    else
      var n := |ids| - 1;
      DoneMutation(DoneMutations(done, ids[..n], results), ids[n], results[ids[n]].result.value)
  }

  lemma {:induction false} CompleteMutationsFrame(l: Ledger, ids: seq<RequestID>)
    requires Distinct(ids)
    requires forall i :: 0 <= i < |ids| ==> ids[i] in l.requests && l.requests[ids[i]].result.Some?
    ensures var l' := CompleteMutations(l, ids);
      && l'.requests == l.requests - Elements(ids)
      && l'.nextRequestID == l.nextRequestID && l'.limit == l.limit
      && l'.actionResults == l.actionResults && l'.actionResultOrder == l.actionResultOrder
  {
    if ids != [] {
      var n := |ids| - 1;
      CompleteMutationsFrame(l, ids[..n]);
      ElementsSnoc(ids);
      assert ids[n] !in ids[..n];
    } else {
      assert l.requests - Elements(ids) == l.requests;
    }
  }

  lemma ElementsSnoc<T>(ids: seq<T>)
    requires ids != []
    ensures Elements(ids) == Elements(ids[..|ids| - 1]) + {ids[|ids| - 1]}
  {
    assert ids == ids[..|ids| - 1] + [ids[|ids| - 1]];
  }

  lemma {:induction false} CompletingMutations(l: Ledger, done: Completions, ids: seq<RequestID>)
    requires LedgerOK(l, done) && Distinct(ids)
    requires forall i :: 0 <= i < |ids| ==> ids[i] in l.requests && l.requests[ids[i]].result.Some?
    ensures LedgerOK(CompleteMutations(l, ids), DoneMutations(done, ids, l.requests))
  {
    if ids != [] {
      var n := |ids| - 1;
      CompletingMutations(l, done, ids[..n]);
      CompleteMutationsFrame(l, ids[..n]);
      assert ids[n] !in ids[..n];
      CompletingMutation(CompleteMutations(l, ids[..n]), DoneMutations(done, ids[..n], l.requests), ids[n],
                         l.requests[ids[n]].result.value);
    }
  }

  function DoneActions(done: Completions, ids: seq<RequestID>, result: FunctionResult): Completions {
    if ids == [] then done
    else DoneAction(DoneActions(done, ids[..|ids| - 1], result), ids[|ids| - 1], result)
  }

  lemma {:induction false} CancelActionsFrame(l: Ledger, ids: seq<RequestID>)
    ensures var l' := CancelActions(l, ids);
      && l'.requests == l.requests - Elements(ids)
      && l'.nextRequestID == l.nextRequestID && l'.limit == l.limit
      && l'.mutationResults == l.mutationResults && l'.completedMutationOrder == l.completedMutationOrder
      && l'.completedMutations == l.completedMutations
  {
    if ids != [] {
      CancelActionsFrame(l, ids[..|ids| - 1]);
      ElementsSnoc(ids);
    } else {
      assert l.requests - Elements(ids) == l.requests;
    }
  }

  lemma {:induction false} CancellingActions(l: Ledger, done: Completions, ids: seq<RequestID>)
    requires LedgerOK(l, done) && Distinct(ids)
    requires forall i :: 0 <= i < |ids| ==> ids[i] in l.requests
    ensures LedgerOK(CancelActions(l, ids), DoneActions(done, ids, ErrorMessageResult(RECONNECT_ERROR)))
  {
    if ids != [] {
      var n := |ids| - 1;
      var error := ErrorMessageResult(RECONNECT_ERROR);
      CancellingActions(l, done, ids[..n]);
      CancelActionsFrame(l, ids[..n]);
      assert ids[n] !in ids[..n];
      CompletingAction(CancelActions(l, ids[..n]), DoneActions(done, ids[..n], error), ids[n], error);
    }
  }

  lemma {:induction false} DoneMutationsShape(done: Completions, ids: seq<RequestID>, requests: map<RequestID, Request>)
    requires forall i :: 0 <= i < |ids| ==> ids[i] in requests && requests[ids[i]].result.Some?
    ensures var d := DoneMutations(done, ids, requests);
      && d.mutations == done.mutations + ids
      && d.actions == done.actions && d.actionResults == done.actionResults
      && (forall x :: x in ids ==> x in d.mutationResults && d.mutationResults[x] == requests[x].result.value)
      && (forall x :: x !in ids ==>
            && (x in d.mutationResults <==> x in done.mutationResults)
            && (x in done.mutationResults ==> d.mutationResults[x] == done.mutationResults[x]))
  {
    if ids != [] {
      var n := |ids| - 1;
      DoneMutationsShape(done, ids[..n], requests);
      assert ids == ids[..n] + [ids[n]];
      assert done.mutations + ids == done.mutations + ids[..n] + [ids[n]];
    }
  }

  lemma {:induction false} DoneActionsShape(done: Completions, ids: seq<RequestID>, result: FunctionResult)
    ensures var d := DoneActions(done, ids, result);
      && d.actions == done.actions + ids
      && d.mutations == done.mutations && d.mutationResults == done.mutationResults
      && (forall x :: x in ids ==> x in d.actionResults && d.actionResults[x] == result)
      && (forall x :: x !in ids ==>
            && (x in d.actionResults <==> x in done.actionResults)
            && (x in done.actionResults ==> d.actionResults[x] == done.actionResults[x]))
  {
    if ids != [] {
      var n := |ids| - 1;
      DoneActionsShape(done, ids[..n], result);
      assert ids == ids[..n] + [ids[n]];
      assert done.actions + ids == done.actions + ids[..n] + [ids[n]];
    }
  }

  // ---- issuing and answering ----

  lemma Issuing(l: Ledger, done: Completions, r: Request)
    requires LedgerOK(l, done)
    requires r.id == l.nextRequestID && r.result.None? && r.ts.None?
    requires r.kind == MutationKind ==> r.message.MutationRequest? && r.message.requestID == r.id
    requires r.kind == ActionKind ==> r.message.ActionRequest? && r.message.requestID == r.id && r.update.None?
    ensures LedgerOK(Track(l, r), done)
  {
  }

  lemma Answering(l: Ledger, done: Completions, id: RequestID, response: Response, ts: Option<Timestamp>)
    requires LedgerOK(l, done) && id in l.requests && l.requests[id].kind == MutationKind
    ensures LedgerOK(Answer(l, id, response, ts), done)
  {
  }
}

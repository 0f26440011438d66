/** Optimistic results: a full recompute is the same as applying one more update. */
module OptimisticTheorems {
  import opened Prelude
  import opened Orders
  import opened Values
  import opened Canonical
  import opened Protocol
  import opened Optimistic
  import opened ClientSteps
  import opened RegistryInvariant
  import opened LedgerInvariant
  import opened ClientRuns
  import opened ClientTheorems

  /** The visible results are what a recompute would produce now. */
  ghost predicate Synced(s: Client) {
    VisibleResults(s.reg.queries, s.serverResults, s.ledger.requests) == Some(s.results)
  }

  /** Two pending sets with the same updates under the same ids. */
  ghost predicate SameUpdates(a: Requests, b: Requests) {
    OptimisticIds(a) == OptimisticIds(b) && forall id :: id in OptimisticIds(a) ==> a[id].update == b[id].update
  }

  lemma SamePendingUpdates(a: Requests, b: Requests)
    requires SameUpdates(a, b)
    ensures PendingUpdates(a) == PendingUpdates(b)
  {
    var ids := Ascending(OptimisticIds(a));
    assert forall i :: 0 <= i < |ids| ==> ids[i] in OptimisticIds(a);
  }

  lemma OptimisticIdsSnoc(requests: Requests, next: nat, r: Request)
    requires RequestShapes(requests, next) && r.kind == MutationKind && r.update.Some?
    ensures OptimisticIds(requests[next := r]) == OptimisticIds(requests) + {next}
    ensures Ascending(OptimisticIds(requests[next := r])) == Ascending(OptimisticIds(requests)) + [next]
  {
    assert OptimisticIds(requests[next := r]) == OptimisticIds(requests) + {next};
    assert forall y :: y in OptimisticIds(requests) ==> y < next;
    AscendingSnoc(OptimisticIds(requests), next);
  }

  lemma UpdatesOfSnoc(ids: seq<RequestID>, requests: Requests, next: nat, r: Request)
    requires forall i :: 0 <= i < |ids| ==> ids[i] in requests && requests[ids[i]].update.Some? && ids[i] != next
    requires r.update.Some?
    ensures var all := requests[next := r];
      && (forall i :: 0 <= i < |ids + [next]| ==> (ids + [next])[i] in all && all[(ids + [next])[i]].update.Some?)
      && UpdatesOf(ids + [next], all) == UpdatesOf(ids, requests) + [r.update.value]
  {
  }

  /** A request with the highest id contributes the last update. */
  lemma PendingUpdatesSnoc(requests: Requests, next: nat, r: Request)
    requires RequestShapes(requests, next) && r.kind == MutationKind && r.update.Some?
    ensures PendingUpdates(requests[next := r]) == PendingUpdates(requests) + [r.update.value]
  {
    OptimisticIdsSnoc(requests, next, r);
    var ids := Ascending(OptimisticIds(requests));
    forall i | 0 <= i < |ids| ensures ids[i] in requests && requests[ids[i]].update.Some? && ids[i] != next {
      assert ids[i] in OptimisticIds(requests);
    }
    UpdatesOfSnoc(ids, requests, next, r);
  }

  /** Full recompute refines incremental application: from synced results, issuing an
      optimistic mutation leaves exactly the results of running its one update on the current
      ones, and the results stay synced; if the update fails, nothing at all changes. */
  lemma IncrementalMutation(s: Client, path: string, args: seq<Value>, u: Update)
    requires Synced(s) && RequestShapes(s.ledger.requests, s.ledger.nextRequestID)
    ensures var (t, id) := MutationStep(s, path, args, Some(u));
      match Apply(u, s.reg.queries, s.results) {
        case None => t == s && id.None?
        case Some(r) => t.results == r && Synced(t) && id == Some(s.ledger.nextRequestID)
      }
  {
    var id := s.ledger.nextRequestID;
    var r := Request(id, MutationKind, MutationRequest(id, path, args), Some(u), None, None);
    PendingUpdatesSnoc(s.ledger.requests, id, r);
    ApplyAllSnoc(PendingUpdates(s.ledger.requests), u, s.reg.queries, s.serverResults);
  }

  /** Update i is the first to fail: those before it run, and it fails on what they leave. */
  ghost predicate FailsAt(us: seq<Update>, i: nat, queries: Registry, server: Results)
    requires i < |us|
  {
    match ApplyAll(us[..i], queries, server)
    case None => false
    case Some(r) => Apply(us[i], queries, r).None?
  }

  lemma {:induction false} FailureHasCulprit(us: seq<Update>, queries: Registry, server: Results)
    ensures ApplyAll(us, queries, server).None? <==> exists i :: 0 <= i < |us| && FailsAt(us, i, queries, server)
  {
    hide Apply;
    if us == [] {
      assert ApplyAll(us, queries, server) == Some(server);
    } else {
      var n := |us| - 1;
      FailureHasCulprit(us[..n], queries, server);
      forall i | 0 <= i < n ensures FailsAt(us[..n], i, queries, server) <==> FailsAt(us, i, queries, server) {
        assert us[..n][..i] == us[..i];
      }
      if ApplyAll(us[..n], queries, server).Some? && ApplyAll(us, queries, server).None? {
        assert FailsAt(us, n, queries, server);
      }
    }
  }

  /** Synced or not, an optimistic mutation is refused exactly when one of the pending updates
      or its own, replayed in order over the server results, is the first to fail; and then
      the whole client is unchanged. */
  lemma MutationRefusedExactly(s: Client, path: string, args: seq<Value>, u: Update)
    requires RequestShapes(s.ledger.requests, s.ledger.nextRequestID)
    ensures var (t, id) := MutationStep(s, path, args, Some(u));
      var us := PendingUpdates(s.ledger.requests) + [u];
      && (id.None? <==> exists i :: 0 <= i < |us| && FailsAt(us, i, s.reg.queries, s.serverResults))
      && (id.None? ==> t == s)
  {
    hide FailsAt;
    var id := s.ledger.nextRequestID;
    var r := Request(id, MutationKind, MutationRequest(id, path, args), Some(u), None, None);
    PendingUpdatesSnoc(s.ledger.requests, id, r);
    FailureHasCulprit(PendingUpdates(s.ledger.requests) + [u], s.reg.queries, s.serverResults);
  }

  /** The events that can leave the visible results out of date: a query appears or
      disappears, or a recompute fails. */
  ghost predicate Desyncs(s: Client, e: Event) {
    match e
    case Subscribe(path, args) =>
      CanonicalQuery(path, args).Some? && CanonicalQuery(path, args).value.token !in s.reg.queries
    case Unsubscribe(id) => UnsubscribeStep(s, id).1 == LastUnsubscribed
    case Receive(Transition(start, end, ms)) => start == s.link.remoteVersion && !TransitionStep(s, start, end, ms).1
    case Receive(MutationResponse(id, response, ts)) =>
      id in PendingOf(s.ledger.requests, MutationKind) && !response.success
        && !MutationResponseStep(s, id, response, ts).1
    case _ => false
  }

  lemma SyncedFrame(s: Client, t: Client)
    requires Synced(s) && t.serverResults == s.serverResults && t.results == s.results
    requires SameQueries(s.reg.queries, t.reg.queries) && UniqueIds(s.reg.queries) && UniqueIds(t.reg.queries)
    requires SameUpdates(s.ledger.requests, t.ledger.requests)
    ensures Synced(t)
  {
    SamePendingUpdates(s.ledger.requests, t.ledger.requests);
    SameApplyAll(PendingUpdates(s.ledger.requests), s.reg.queries, t.reg.queries, s.serverResults);
  }

  lemma SyncedSame(s: Client, t: Client)
    requires Synced(s) && t.serverResults == s.serverResults && t.results == s.results
    requires t.reg.queries == s.reg.queries && SameUpdates(s.ledger.requests, t.ledger.requests)
    ensures Synced(t)
  {
    SamePendingUpdates(s.ledger.requests, t.ledger.requests);
  }

  lemma SubscribeSynced(s: Client, k: QueryKey)
    requires Inverse(s.reg) && Synced(s) && k.token in s.reg.queries
    ensures Synced(SubscribeStep(s, k).0)
  {
    var t := SubscribeStep(s, k).0;
    SubscribeKeepsInverse(s.reg, k);
    UniqueBoth(s.reg, t.reg);
    SubscribeSameQueries(s.reg, k);
    SyncedFrame(s, t);
  }

  lemma UniqueBoth(r: Reg, r': Reg)
    requires Inverse(r) && Inverse(r')
    ensures UniqueIds(r.queries) && UniqueIds(r'.queries)
  {
    IdsAreKeys(r);
    IdsAreKeys(r');
  }

  lemma SubscribeSameQueries(r: Reg, k: QueryKey)
    requires k.token in r.queries
    ensures SameQueries(r.queries, RegSubscribe(r, k).0.queries)
  {
    assert RegSubscribe(r, k).0.queries.Keys == r.queries.Keys;
  }

  lemma UnsubscribeSynced(s: Client, id: SubscriberID)
    requires Inverse(s.reg) && Synced(s) && UnsubscribeStep(s, id).1 != LastUnsubscribed
    ensures Synced(UnsubscribeStep(s, id).0)
  {
    var t := UnsubscribeStep(s, id).0;
    UnsubscribeKeepsInverse(s.reg, id);
    UniqueBoth(s.reg, t.reg);
    UnsubscribeSameQueries(s.reg, id);
    SyncedFrame(s, t);
  }

  lemma UnsubscribeSameQueries(r: Reg, id: SubscriberID)
    requires RegUnsubscribe(r, id).1 != LastUnsubscribed
    ensures SameQueries(r.queries, RegUnsubscribe(r, id).0.queries)
  {
    assert RegUnsubscribe(r, id).0.queries.Keys == r.queries.Keys;
  }

  lemma ResponseSynced(s: Client, id: RequestID, response: Response, ts: Option<Timestamp>)
    requires Synced(s) && !Desyncs(s, Receive(MutationResponse(id, response, ts)))
    ensures Synced(MutationResponseStep(s, id, response, ts).0)
  {
    if id in PendingOf(s.ledger.requests, MutationKind) && !response.success {
      FailureSynced(s, id, response, ts);
    } else {
      OtherResponseSynced(s, id, response, ts);
    }
  }

  lemma OtherResponseSynced(s: Client, id: RequestID, response: Response, ts: Option<Timestamp>)
    requires Synced(s) && (id !in PendingOf(s.ledger.requests, MutationKind) || response.success)
    ensures Synced(MutationResponseStep(s, id, response, ts).0)
  {
    hide Synced;
    if id in PendingOf(s.ledger.requests, MutationKind) {
      AnswerSameUpdates(s.ledger, id, response, ts);
    }
    SyncedSame(s, MutationResponseStep(s, id, response, ts).0);
  }

  lemma AnswerSameUpdates(l: Ledger, id: RequestID, response: Response, ts: Option<Timestamp>)
    requires id in l.requests
    ensures SameUpdates(l.requests, Answer(l, id, response, ts).requests)
    ensures l.requests[id].update.None? ==>
      SameUpdates(l.requests, CompleteMutation(Answer(l, id, response, ts), id).requests)
  {
    assert CompleteMutation(Answer(l, id, response, ts), id).requests == l.requests - {id};
  }

  lemma FailureSynced(s: Client, id: RequestID, response: Response, ts: Option<Timestamp>)
    requires id in PendingOf(s.ledger.requests, MutationKind) && !response.success
    requires Synced(s) && MutationResponseStep(s, id, response, ts).1
    ensures Synced(MutationResponseStep(s, id, response, ts).0)
  {
    if s.ledger.requests[id].update.None? {
      AnswerSameUpdates(s.ledger, id, response, ts);
      SyncedSame(s, MutationResponseStep(s, id, response, ts).0);
    }
  }

  lemma ActionsCarryNoUpdate(requests: Requests, ids: set<RequestID>)
    requires ids <= PendingOf(requests, ActionKind)
    ensures SameUpdates(requests, requests - ids)
  {
  }

  lemma IssueCarriesNoUpdate(requests: Requests, next: nat, r: Request)
    requires RequestShapes(requests, next) && r.update.None?
    ensures SameUpdates(requests, requests[next := r])
  {
  }

  lemma ReceiveSynced(s: Client, m: ServerMessage)
    requires Scoped(s) && Inverse(s.reg) && Synced(s) && !Desyncs(s, Receive(m))
    ensures Synced(ReceiveStep(s, m).0)
  {
    hide Synced, Scoped, Inverse;
    match m
    case Transition(start, end, ms) => TransitionSynced(s, start, end, ms);
    case MutationResponse(id, response, ts) => ResponseSynced(s, id, response, ts);
    case ActionResponse(id, response) => ActionResponseSynced(s, id, response);
    case _ =>
  }

  lemma TransitionSynced(s: Client, start: StateVersion, end: StateVersion, ms: seq<StateModification>)
    requires Scoped(s) && Inverse(s.reg) && Synced(s)
    requires start == s.link.remoteVersion ==> TransitionStep(s, start, end, ms).1
    ensures Synced(TransitionStep(s, start, end, ms).0)
  {
    if start == s.link.remoteVersion {
      TransitionOutcome(s, start, end, ms);
    }
  }

  lemma ActionResponseSynced(s: Client, id: RequestID, response: Response)
    requires Synced(s)
    ensures Synced(ActionResponseStep(s, id, response).0)
  {
    if id in PendingOf(s.ledger.requests, ActionKind) {
      ActionsCarryNoUpdate(s.ledger.requests, {id});
      SyncedSame(s, ActionResponseStep(s, id, response).0);
    }
  }

  lemma RestartSynced(s: Client, fetched: Option<AuthToken>)
    requires Synced(s)
    ensures Synced(RestartStep(s, fetched).0)
  {
    hide Synced, RestartStep;
    var pending := PendingOf(s.ledger.requests, ActionKind);
    RestartFrame(s, fetched);
    CancelActionsFrame(s.ledger, Ascending(pending));
    assert Elements(Ascending(pending)) == pending;
    ActionsCarryNoUpdate(s.ledger.requests, pending);
    SyncedSame(s, RestartStep(s, fetched).0);
  }

  /** Sync is lost only through the events named above. */
  lemma SyncedKept(s: Client, e: Event, done: Completions)
    requires Scoped(s) && Inverse(s.reg) && LedgerOK(s.ledger, done) && Synced(s) && !Desyncs(s, e)
    ensures Synced(Step(s, e))
  {
    hide Synced, Scoped, Inverse;
    match e
    case Subscribe(path, args) =>
      if CanonicalQuery(path, args).Some? {
        SubscribeSynced(s, CanonicalQuery(path, args).value);
      }
    case Unsubscribe(id) => UnsubscribeSynced(s, id);
    case Mutate(path, args, update) => MutateSynced(s, path, args, update);
    case Act(path, args) => ActSynced(s, path, args);
    case Receive(message) => ReceiveSynced(s, message);
    case Restart(fetched) => RestartSynced(s, fetched);
    case _ => SyncedSame(s, Step(s, e));
  }

  lemma MutateSynced(s: Client, path: string, args: GoValue, update: Option<Update>)
    requires Synced(s) && RequestShapes(s.ledger.requests, s.ledger.nextRequestID)
    ensures Synced(Step(s, Mutate(path, args, update)))
  {
    hide CanonicalRequest, Synced, RequestShapes, MutationStep, Apply;
    if CanonicalRequest(path, args).Some? {
      var k := CanonicalRequest(path, args).value;
      if update.Some? {
        IncrementalMutation(s, k.0, k.1, update.value);
      } else {
        PlainMutationSynced(s, k.0, k.1);
      }
    }
  }

  lemma PlainMutationSynced(s: Client, path: string, args: seq<Value>)
    requires Synced(s) && RequestShapes(s.ledger.requests, s.ledger.nextRequestID)
    ensures Synced(MutationStep(s, path, args, None).0)
    ensures Synced(ActionStep(s, path, args).0)
  {
    var id := s.ledger.nextRequestID;
    var m, a := MutationRequest(id, path, args), ActionRequest(id, path, args);
    IssueCarriesNoUpdate(s.ledger.requests, id, Request(id, MutationKind, m, None, None, None));
    IssueCarriesNoUpdate(s.ledger.requests, id, Request(id, ActionKind, a, None, None, None));
    SyncedSame(s, MutationStep(s, path, args, None).0);
    SyncedSame(s, ActionStep(s, path, args).0);
  }

  lemma ActSynced(s: Client, path: string, args: GoValue)
    requires Synced(s) && RequestShapes(s.ledger.requests, s.ledger.nextRequestID)
    ensures Synced(Step(s, Act(path, args)))
  {
    hide CanonicalRequest, Synced, RequestShapes;
    if CanonicalRequest(path, args).Some? {
      var k := CanonicalRequest(path, args).value;
      PlainMutationSynced(s, k.0, k.1);
    }
  }

  /** In every run: if no event since position k desynchronizes, results that were synced at
      k are still synced.  They are synced at the start and after every successful transition. */
  lemma {:induction false} SyncedSince(configuredLimit: int, events: seq<Event>, k: nat)
    requires k <= |events| && Synced(Run(configuredLimit, events[..k]).client)
    requires forall j :: k <= j < |events| ==> !Desyncs(Run(configuredLimit, events[..j]).client, events[j])
    ensures Synced(Run(configuredLimit, events).client)
  {
    hide Run, Synced, Desyncs, Step;
    if k == |events| {
      assert events[..k] == events;
    } else {
      var n := |events| - 1;
      var init := events[..n];
      RunSnoc(configuredLimit, events, n);
      assert events[..n + 1] == events;
      assert init[..k] == events[..k];
      forall j | k <= j < |init| ensures !Desyncs(Run(configuredLimit, init[..j]).client, init[j]) {
        assert init[..j] == events[..j];
      }
      SyncedSince(configuredLimit, init, k);
      SyncedNext(configuredLimit, init, events[n]);
    }
  }

  lemma SyncedNext(configuredLimit: int, events: seq<Event>, e: Event)
    requires var s := Run(configuredLimit, events).client; Synced(s) && !Desyncs(s, e)
    ensures Synced(Step(Run(configuredLimit, events).client, e))
  {
    RunInv(configuredLimit, events);
    var w := Run(configuredLimit, events);
    StepInvParts(w);
    SyncedKept(w.client, e, w.history.done);
  }

  lemma StartIsSynced(configuredLimit: int)
    ensures Synced(New(configuredLimit))
  {
    var s := New(configuredLimit);
    assert OptimisticIds(s.ledger.requests) == {};
    assert PendingUpdates(s.ledger.requests) == [];
  }

  /** The refinement in every run: with nothing desynchronizing since a synced state, a full
      recompute for a new optimistic mutation is one application of its update. */
  lemma IncrementalInEveryRun(configuredLimit: int, events: seq<Event>, k: nat, path: string, args: seq<Value>,
      u: Update)
    requires k <= |events| && Synced(Run(configuredLimit, events[..k]).client)
    requires forall j :: k <= j < |events| ==> !Desyncs(Run(configuredLimit, events[..j]).client, events[j])
    ensures var s := Run(configuredLimit, events).client;
      var (t, id) := MutationStep(s, path, args, Some(u));
      match Apply(u, s.reg.queries, s.results) {
        case None => t == s && id.None?
        case Some(r) => t.results == r && Synced(t) && id == Some(s.ledger.nextRequestID)
      }
  {
    hide Run, Synced, MutationStep, Apply, Desyncs;
    SyncedSince(configuredLimit, events, k);
    RequestsInRun(configuredLimit, events, Pop);
    IncrementalMutation(Run(configuredLimit, events).client, path, args, u);
  }
}

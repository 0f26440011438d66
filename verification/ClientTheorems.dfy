/** The guarantees of the sync client, over every run. */
module ClientTheorems {
  import opened Prelude
  import opened Orders
  import opened Values
  import opened Canonical
  import opened Protocol
  import opened Optimistic
  import opened ClientSteps
  import opened Sessions
  import opened RegistryInvariant
  import opened LedgerInvariant
  import opened SessionInvariant
  import opened ClientRuns

  // ---- the server's view ----

  /** The server's view and the client's agree: a fresh server that processes everything
      queued in this session accepts all of it, ends with exactly the client's query set and
      version counters, and has received every pending request. */
  ghost predicate Agrees(w: World) {
    && ServeAll(Log(w)).Some?
    && var sv := ServeAll(Log(w)).value;
       && sv.view == LocalView(w.client.reg)
       && sv.querySet == w.client.link.querySetVersion && sv.identity == w.client.link.identityVersion
       && Holds(sv.seen, PendingMessages(w.client.ledger.requests))
  }

  /** Server-view agreement: it holds in every run whose last restart, if any, succeeded. */
  lemma ServerViewAgreement(configuredLimit: int, events: seq<Event>)
    ensures var w := Run(configuredLimit, events); w.history.complete ==> Agrees(w)
  {
    var w := Run(configuredLimit, events);
    RunInv(configuredLimit, events);
    if w.history.complete {
      ServedVersions(Log(w));
    }
  }

  /** Version chains: in every session, even after a restart that failed on auth, the
      query-set messages are numbered (0,1), (1,2), ... up to the current version and the
      auth messages 0, 1, ... below the current identity version. */
  lemma SessionVersions(configuredLimit: int, events: seq<Event>)
    ensures var w := Run(configuredLimit, events);
      var qs, auths := QuerySetMessages(Log(w)), AuthMessages(Log(w));
      && |qs| == w.client.link.querySetVersion
      && (forall k :: 0 <= k < |qs| ==> qs[k].ModifyQuerySet? && qs[k].baseVersion == k && qs[k].newVersion == k + 1)
      && |auths| == w.client.link.identityVersion
      && (forall k :: 0 <= k < |auths| ==> auths[k].Authenticate? && auths[k].authBase == k)
  {
    RunInv(configuredLimit, events);
    VersionsExplained(Log(Run(configuredLimit, events)));
  }

  /** Until the next restart the session log only grows at its end, so what was handed out
      is never recalled or reordered. */
  lemma {:induction false} LogOnlyGrows(configuredLimit: int, events: seq<Event>, i: nat)
    requires i <= |events| && forall j :: i <= j < |events| ==> !events[j].Restart?
    ensures var w, w' := Run(configuredLimit, events[..i]), Run(configuredLimit, events);
      Log(w) <= Log(w') && w.history.popped <= w'.history.popped
  {
    hide Run, Log;
    if i == |events| {
      assert events[..i] == events;
    } else {
      var n := |events| - 1;
      var init := events[..n];
      LogOnlyGrows(configuredLimit, init, i);
      assert init[..i] == events[..i] && events[..n + 1] == events;
      RunSnoc(configuredLimit, events, n);
      RunInv(configuredLimit, init);
      StepKeepsLog(Run(configuredLimit, init), events[n]);
    }
  }

  lemma StepKeepsLog(w: World, e: Event)
    requires Inv(w) && !e.Restart?
    ensures Log(w) <= Log(Next(w, e))
    ensures w.history.popped <= Next(w, e).history.popped
  {
    hide Inv, Next;
    if e.Pop? && w.client.link.outgoing != [] {
      PopKeepsLog(w);
    } else {
      StepInvParts(w);
      OtherStepsKeepLog(w, e);
    }
  }

  lemma OtherStepsKeepLog(w: World, e: Event)
    requires Scoped(w.client) && Inverse(w.client.reg) && !e.Restart? && !(e.Pop? && w.client.link.outgoing != [])
    ensures Log(w) <= Log(Next(w, e)) && w.history.popped == Next(w, e).history.popped
  {
    hide Step, RestartStep, RecordCompletions, Scoped, Inverse;
    OutgoingGrows(w.client, e);
    var out, out' := w.client.link.outgoing, Step(w.client, e).link.outgoing;
    assert out' == out + out'[|out|..];
    assert w.history.popped + (out + out'[|out|..]) == Log(w) + out'[|out|..];
  }

  lemma StepInvParts(w: World)
    requires Inv(w)
    ensures Scoped(w.client) && Inverse(w.client.reg) && LedgerOK(w.client.ledger, w.history.done)
  {
  }

  lemma PopKeepsLog(w: World)
    requires w.client.link.outgoing != []
    ensures Log(Next(w, Pop)) == Log(w) && w.history.popped <= Next(w, Pop).history.popped
  {
    var out := w.client.link.outgoing;
    assert w.history.popped + [out[0]] + out[1..] == w.history.popped + out;
  }

  lemma OutgoingGrows(s: Client, e: Event)
    requires Scoped(s) && Inverse(s.reg) && !e.Restart? && !(e.Pop? && s.link.outgoing != [])
    ensures s.link.outgoing <= Step(s, e).link.outgoing
  {
    hide TransitionStep, MutationResponseStep, MutationStep, CanonicalRequest, CanonicalQuery, RegSubscribe,
      RegUnsubscribe;
    match e
    case Mutate(path, args, update) =>
      if CanonicalRequest(path, args).Some? {
        MutationFrame(s, CanonicalRequest(path, args).value.0, CanonicalRequest(path, args).value.1, update);
      }
    case Receive(Transition(start, end, ms)) => TransitionFrame(s, start, end, ms);
    case Receive(MutationResponse(id, response, ts)) => MutationResponseFrame(s, id, response, ts);
    case _ =>
  }

  // ---- subscribers and results ----

  /** The registry invariant in every reachable state. */
  lemma RegistryInEveryRun(configuredLimit: int, events: seq<Event>)
    ensures var s := Run(configuredLimit, events).client;
      && Registered(s.reg) && Keyed(s.reg) && Scoped(s)
      && forall id :: UnsubscribeStep(s, id).1 != UnknownQuery && UnsubscribeStep(s, id).1 != MissingToken
  {
    RunInv(configuredLimit, events);
    var s := Run(configuredLimit, events).client;
    forall id ensures UnsubscribeStep(s, id).1 != UnknownQuery && UnsubscribeStep(s, id).1 != MissingToken {
      UnsubscribeOutcomes(s.reg, id);
    }
  }

  lemma NextIssues(w: World, e: Event)
    ensures w.history.issued <= Next(w, e).history.issued
  {
  }

  lemma {:induction false} IssuedOnlyGrows(configuredLimit: int, events: seq<Event>, n: nat)
    requires n <= |events|
    ensures Run(configuredLimit, events[..n]).history.issued <= Run(configuredLimit, events).history.issued
  {
    hide Step, Record;
    if n < |events| {
      var init := events[..|events| - 1];
      IssuedOnlyGrows(configuredLimit, init, n);
      assert init[..n] == events[..n];
      NextIssues(Run(configuredLimit, init), events[|events| - 1]);
    } else {
      assert events[..n] == events;
    }
  }

  lemma RunSnoc(configuredLimit: int, events: seq<Event>, n: nat)
    requires n < |events|
    ensures Run(configuredLimit, events[..n + 1]) == Next(Run(configuredLimit, events[..n]), events[n])
  {
    assert events[..n + 1][..n] == events[..n];
  }

  /** The subscriber id returned by event k of a run, when it is a successful Subscribe. */
  ghost function SubscribedAt(configuredLimit: int, events: seq<Event>, k: nat): Option<SubscriberID>
    requires k < |events|
  {
    match events[k]
    case Subscribe(path, args) =>
      (match CanonicalQuery(path, args)
       case None => None
       case Some(key) => Some(SubscribeStep(Run(configuredLimit, events[..k]).client, key).1))
    case _ => None
  }

  /** No run hands out the same subscriber id twice. */
  lemma SubscribersNeverReissued(configuredLimit: int, events: seq<Event>, i: nat, j: nat)
    requires i < j < |events|
    requires SubscribedAt(configuredLimit, events, i).Some?
    ensures SubscribedAt(configuredLimit, events, i) != SubscribedAt(configuredLimit, events, j)
  {
    var id := SubscribedAt(configuredLimit, events, i).value;
    SubscribedIsIssued(configuredLimit, events, i, j);
    if SubscribedAt(configuredLimit, events, j).Some? {
      FreshInRun(configuredLimit, events[..j], CanonicalQuery(events[j].path, events[j].args).value);
    }
  }

  lemma SubscribedIsIssued(configuredLimit: int, events: seq<Event>, i: nat, j: nat)
    requires i < j <= |events| && SubscribedAt(configuredLimit, events, i).Some?
    ensures SubscribedAt(configuredLimit, events, i).value in Run(configuredLimit, events[..j]).history.issued
  {
    hide Run, Next, SubscribeStep, CanonicalQuery;
    RunSnoc(configuredLimit, events, i);
    SubscribeIssues(Run(configuredLimit, events[..i]), events[i], CanonicalQuery(events[i].path, events[i].args).value);
    IssuedOnlyGrows(configuredLimit, events[..j], i + 1);
    assert events[..j][..i + 1] == events[..i + 1];
  }

  lemma FreshInRun(configuredLimit: int, events: seq<Event>, k: QueryKey)
    ensures var w := Run(configuredLimit, events); SubscribeStep(w.client, k).1 !in w.history.issued
  {
    RunInv(configuredLimit, events);
    var w := Run(configuredLimit, events);
    SubscribeIsFresh(w.client.reg, k, w.history.issued);
  }

  lemma SubscribeIssues(w: World, e: Event, k: QueryKey)
    requires e.Subscribe? && CanonicalQuery(e.path, e.args) == Some(k)
    ensures SubscribeStep(w.client, k).1 in Next(w, e).history.issued
  {
    var (t, id) := SubscribeStep(w.client, k);
    assert id in t.reg.subscribers;
  }

  /** Two live subscriptions are answered by the same server query exactly when their
      canonical paths and argument values are equal. */
  lemma SharedQueriesAreExact(configuredLimit: int, events: seq<Event>, a: QueryID, b: QueryID)
    requires var r := Run(configuredLimit, events).client.reg; a in r.queryIDToToken && b in r.queryIDToToken
    ensures var view := LocalView(Run(configuredLimit, events).client.reg);
      a in view && b in view && (a == b <==> view[a] == view[b])
  {
    RunInv(configuredLimit, events);
    var r := Run(configuredLimit, events).client.reg;
    var ta, tb := r.queryIDToToken[a], r.queryIDToToken[b];
    var qa, qb := r.queries[ta], r.queries[tb];
    TokensAreExact(QueryKey(qa.path, qa.args, ta), QueryKey(qb.path, qb.args, tb));
  }

  // ---- requests ----

  lemma StepKeepsLimit(s: Client, e: Event)
    requires Scoped(s) && Inverse(s.reg)
    ensures Step(s, e).ledger.limit == s.ledger.limit
  {
    hide RestartStep, TransitionStep, MutationResponseStep, MutationStep, RegSubscribe, RegUnsubscribe;
    hide Scoped, Inverse, CanonicalQuery, CanonicalRequest, NormalizeToken, Ascending;
    match e
    case Receive(Transition(start, end, ms)) => TransitionKeepsLimit(s, start, end, ms);
    case Receive(MutationResponse(id, response, ts)) => MutationResponseFrame(s, id, response, ts);
    case Mutate(path, args, update) =>
      if CanonicalRequest(path, args).Some? {
        MutationFrame(s, CanonicalRequest(path, args).value.0, CanonicalRequest(path, args).value.1, update);
      }
    case Restart(fetched) =>
      RestartFrame(s, fetched);
      CancelActionsFrame(s.ledger, Ascending(PendingOf(s.ledger.requests, ActionKind)));
    case _ =>
  }

  lemma TransitionKeepsLimit(s: Client, start: StateVersion, end: StateVersion, ms: seq<StateModification>)
    requires Scoped(s) && Inverse(s.reg)
    ensures TransitionStep(s, start, end, ms).0.ledger.limit == s.ledger.limit
  {
    hide TransitionStep;
    TransitionFrame(s, start, end, ms);
    var ids := Ascending(Due(s.ledger.requests, end.ts));
    assert forall i :: 0 <= i < |ids| ==> ids[i] in Due(s.ledger.requests, end.ts);
    CompleteMutationsFrame(s.ledger, ids);
  }

  lemma {:induction false} LimitInEveryRun(configuredLimit: int, events: seq<Event>)
    ensures Run(configuredLimit, events).client.ledger.limit == if configuredLimit < 1 then 1 else configuredLimit
  {
    hide Step, Record, Inv;
    if events != [] {
      var n := |events| - 1;
      LimitInEveryRun(configuredLimit, events[..n]);
      RunInv(configuredLimit, events[..n]);
      StepInvParts(Run(configuredLimit, events[..n]));
      StepKeepsLimit(Run(configuredLimit, events[..n]).client, events[n]);
    }
  }

  /** Request conservation and retention in every reachable state. */
  lemma RequestConservation(configuredLimit: int, events: seq<Event>)
    ensures var w := Run(configuredLimit, events);
      var l, done := w.client.ledger, w.history.done;
      && Conserved(l.requests, l.nextRequestID, done)
      && l.limit == (if configuredLimit < 1 then 1 else configuredLimit)
      && l.completedMutationOrder == LastN(done.mutations, l.limit)
      && l.completedMutations == l.mutationResults.Keys == Elements(l.completedMutationOrder)
      && l.actionResultOrder == LastN(done.actions, l.limit)
      && l.actionResults.Keys == Elements(l.actionResultOrder)
      && (forall id :: id in l.mutationResults ==>
          id in done.mutationResults && l.mutationResults[id] == done.mutationResults[id])
      && (forall id :: id in l.actionResults ==>
          id in done.actionResults && l.actionResults[id] == done.actionResults[id])
  {
    hide Run;
    RunInv(configuredLimit, events);
    LimitInEveryRun(configuredLimit, events);
  }

  /** Event j of the run is the successful response that pending request r still carries. */
  ghost predicate AnsweredBy(e: Event, r: Request) {
    && e.Receive? && e.message.MutationResponse? && e.message.requestID == r.id
    && e.message.response.success && r.ts == e.message.ts
    && r.result == Some(ValueResult(e.message.response.value))
  }

  ghost predicate FailedBy(e: Event, id: RequestID) {
    e.Receive? && e.message.MutationResponse? && e.message.requestID == id && !e.message.response.success
  }

  /** The ways a step can change the pending requests. */
  ghost predicate RequestsChange(rs: Requests, next: nat, e: Event, rs': Requests) {
    || rs' == rs
    || ((e.Mutate? || e.Act?) && next in rs' && rs' == rs[next := rs'[next]] && rs'[next].result.None?)
    || (e.Restart? && rs' == rs - PendingOf(rs, ActionKind))
    || (e.Receive? && e.message.Transition? && rs' == rs - Due(rs, e.message.end.ts))
    || (e.Receive? && e.message.ActionResponse? && rs' == rs - {e.message.requestID}
        && e.message.requestID in PendingOf(rs, ActionKind))
    || (e.Receive? && e.message.MutationResponse? && e.message.requestID in PendingOf(rs, MutationKind)
        && rs' == if e.message.response.success then AnswerIn(rs, e.message) else rs - {e.message.requestID})
  }

  ghost function AnswerIn(rs: Requests, m: ServerMessage): Requests
    requires m.MutationResponse? && m.requestID in rs
  {
    rs[m.requestID := rs[m.requestID].(result := Some(ResponseResult(m.response)), ts := m.ts)]
  }

  lemma StepRequests(s: Client, e: Event, done: Completions)
    requires Scoped(s) && Inverse(s.reg) && LedgerOK(s.ledger, done)
    ensures RequestsChange(s.ledger.requests, s.ledger.nextRequestID, e, Step(s, e).ledger.requests)
  {
    hide LedgerOK, ReceiveStep, RestartStep, CanonicalRequest, CanonicalQuery, MutationStep, RegSubscribe;
    hide RegUnsubscribe, Scoped, Inverse, NormalizeToken;
    match e
    case Mutate(path, args, update) =>
      if CanonicalRequest(path, args).Some? {
        MutationFrame(s, CanonicalRequest(path, args).value.0, CanonicalRequest(path, args).value.1, update);
      }
    case Receive(m) => ReceiveRequests(s, m);
    case Restart(fetched) => RestartKeepsLedger(s, e, done);
    case _ =>
  }

  lemma ReceiveRequests(s: Client, m: ServerMessage)
    requires Scoped(s) && Inverse(s.reg)
    ensures RequestsChange(s.ledger.requests, s.ledger.nextRequestID, Receive(m), ReceiveStep(s, m).0.ledger.requests)
  {
    hide TransitionStep, MutationResponseStep, Scoped, Inverse, Due;
    match m
    case Transition(start, end, ms) => TransitionRequests(s, start, end, ms);
    case MutationResponse(x, response, ts) => ResponseRequests(s, x, response, ts);
    case _ =>
  }

  lemma ResponseRequests(s: Client, id: RequestID, response: Response, ts: Option<Timestamp>)
    requires Scoped(s) && Inverse(s.reg)
    ensures var rs, rs' := s.ledger.requests, MutationResponseStep(s, id, response, ts).0.ledger.requests;
      || rs' == rs
      || (id in PendingOf(rs, MutationKind) &&
          rs' == if response.success then AnswerIn(rs, MutationResponse(id, response, ts)) else rs - {id})
  {
    MutationResponseFrame(s, id, response, ts);
    if id in s.ledger.requests {
      assert Answer(s.ledger, id, response, ts).requests - {id} == s.ledger.requests - {id};
    }
  }

  lemma TransitionRequests(s: Client, start: StateVersion, end: StateVersion, ms: seq<StateModification>)
    requires Scoped(s) && Inverse(s.reg)
    ensures var t := TransitionStep(s, start, end, ms).0;
      t.ledger.requests == s.ledger.requests || t.ledger.requests == s.ledger.requests - Due(s.ledger.requests, end.ts)
  {
    TransitionFrame(s, start, end, ms);
    var due := Due(s.ledger.requests, end.ts);
    var ids := Ascending(due);
    assert forall i :: 0 <= i < |ids| ==> ids[i] in due;
    CompleteMutationsFrame(s.ledger, ids);
    assert Elements(ids) == due;
  }

  /** How one pending request can change in a step. */
  lemma RequestEvolves(rs: Requests, next: nat, e: Event, rs': Requests, id: RequestID)
    requires RequestShapes(rs, next) && RequestsChange(rs, next, e, rs') && id in rs'
    ensures (id in rs && rs'[id] == rs[id]) || rs'[id].result.None? || AnsweredBy(e, rs'[id])
  {
  }

  /** Why a mutation can leave the pending set. */
  lemma MutationLeaves(rs: Requests, next: nat, e: Event, rs': Requests, id: RequestID)
    requires RequestsChange(rs, next, e, rs') && id in PendingOf(rs, MutationKind) && id !in rs'
    ensures FailedBy(e, id) || (e.Receive? && e.message.Transition? && id in Due(rs, e.message.end.ts))
  {
  }

  lemma RequestsInRun(configuredLimit: int, events: seq<Event>, e: Event)
    ensures var l := Run(configuredLimit, events).client.ledger;
      && RequestShapes(l.requests, l.nextRequestID)
      && RequestsChange(l.requests, l.nextRequestID, e, Step(Run(configuredLimit, events).client, e).ledger.requests)
  {
    RunInv(configuredLimit, events);
    var w := Run(configuredLimit, events);
    StepRequests(w.client, e, w.history.done);
  }

  /** Every answered pending mutation was answered, successfully, by an event of the run. */
  lemma {:induction false} AnswersComeFromTheRun(configuredLimit: int, events: seq<Event>, id: RequestID)
    requires var rs := Run(configuredLimit, events).client.ledger.requests; id in rs && rs[id].result.Some?
    ensures var r := Run(configuredLimit, events).client.ledger.requests[id];
      exists j :: 0 <= j < |events| && AnsweredBy(events[j], r)
  {
    if events != [] {
      var n := |events| - 1;
      var rs := Run(configuredLimit, events[..n]).client.ledger.requests;
      var r := Run(configuredLimit, events).client.ledger.requests[id];
      RequestEvolvesInRun(configuredLimit, events[..n], events[n], id, r);
      if !AnsweredBy(events[n], r) {
        AnswersComeFromTheRun(configuredLimit, events[..n], id);
        var j :| 0 <= j < |events[..n]| && AnsweredBy(events[..n][j], r);
        assert AnsweredBy(events[j], r);
      }
    }
  }

  lemma RequestEvolvesInRun(configuredLimit: int, events: seq<Event>, e: Event, id: RequestID, r: Request)
    requires var rs' := Step(Run(configuredLimit, events).client, e).ledger.requests; id in rs' && rs'[id] == r
    ensures var rs := Run(configuredLimit, events).client.ledger.requests;
      (id in rs && r == rs[id]) || r.result.None? || AnsweredBy(e, r)
  {
    RequestsInRun(configuredLimit, events, e);
    var s := Run(configuredLimit, events).client;
    RequestEvolves(s.ledger.requests, s.ledger.nextRequestID, e, Step(s, e).ledger.requests, id);
  }

  /** No early rollback: in every run, a mutation stops being pending only because the server
      reported its failure, or in a transition that ends at or after the commit timestamp of a
      success the server reported earlier; and then the recorded result is that success. */
  lemma NoEarlyRollback(configuredLimit: int, events: seq<Event>, n: nat, id: RequestID)
    requires n < |events|
    requires id in PendingOf(Run(configuredLimit, events[..n]).client.ledger.requests, MutationKind)
    requires id !in Run(configuredLimit, events[..n + 1]).client.ledger.requests
    ensures || FailedBy(events[n], id)
            || (&& events[n].Receive? && events[n].message.Transition?
                && exists j :: 0 <= j < n && CommittedBy(events[j], events[n].message.end.ts, id,
                     Run(configuredLimit, events[..n + 1]).history.done.mutationResults))
  {
    RunSnoc(configuredLimit, events, n);
    var w := Run(configuredLimit, events[..n]);
    MutationLeavesInRun(configuredLimit, events[..n], events[n], id);
    if !FailedBy(events[n], id) {
      AnswersComeFromTheRun(configuredLimit, events[..n], id);
      var j :| 0 <= j < |events[..n]| && AnsweredBy(events[..n][j], w.client.ledger.requests[id]);
      CommitIsRecorded(w, events[n], id, events[j]);
    }
  }

  lemma MutationLeavesInRun(configuredLimit: int, events: seq<Event>, e: Event, id: RequestID)
    requires var s := Run(configuredLimit, events).client;
      id in PendingOf(s.ledger.requests, MutationKind) && id !in Step(s, e).ledger.requests
    ensures var s := Run(configuredLimit, events).client;
      && s.ledger.requests[id].id == id
      && (|| FailedBy(e, id)
          || (e.Receive? && e.message.Transition? && id in Due(s.ledger.requests, e.message.end.ts)))
  {
    RequestsInRun(configuredLimit, events, e);
    var s := Run(configuredLimit, events).client;
    MutationLeaves(s.ledger.requests, s.ledger.nextRequestID, e, Step(s, e).ledger.requests, id);
  }

  lemma CommitIsRecorded(w: World, e: Event, id: RequestID, answer: Event)
    requires e.Receive? && e.message.Transition?
    requires id in PendingOf(w.client.ledger.requests, MutationKind) && id !in Step(w.client, e).ledger.requests
    requires id in Due(w.client.ledger.requests, e.message.end.ts)
    requires w.client.ledger.requests[id].id == id && AnsweredBy(answer, w.client.ledger.requests[id])
    ensures CommittedBy(answer, e.message.end.ts, id, Next(w, e).history.done.mutationResults)
  {
    var s, t := w.client, Step(w.client, e);
    assert id in PendingOf(s.ledger.requests, MutationKind) - t.ledger.requests.Keys;
    assert id in Left(s, t, MutationKind);
    assert id in Outcomes(s, e, Left(s, t, MutationKind));
  }

  ghost predicate CommittedBy(e: Event, end: Timestamp, id: RequestID, results: ResultMap) {
    && e.Receive? && e.message.MutationResponse? && e.message.requestID == id && e.message.response.success
    && e.message.ts.Some? && e.message.ts.value <= end
    && id in results && results[id] == ValueResult(e.message.response.value)
  }

  /** A pending mutation with a result and a commit timestamp. */
  predicate AnsweredMutation(r: Request) {
    r.kind == MutationKind && r.result.Some? && r.ts.Some?
  }

  /** What a successful transition leaves. */
  lemma TransitionOutcome(s: Client, start: StateVersion, end: StateVersion, ms: seq<StateModification>)
    requires Scoped(s) && Inverse(s.reg) && TransitionStep(s, start, end, ms).1
    ensures var t := TransitionStep(s, start, end, ms).0;
      && t.link.remoteVersion == end
      && VisibleResults(t.reg.queries, t.serverResults, t.ledger.requests) == Some(t.results)
      && t.serverResults == ApplyModifications(s, ms).0.serverResults
      && (forall id :: id in t.ledger.requests ==>
          id in s.ledger.requests && t.ledger.requests[id] == s.ledger.requests[id])
      && (forall id :: id in s.ledger.requests ==>
            var r := s.ledger.requests[id];
            if AnsweredMutation(r) then id in t.ledger.requests <==> r.ts.value > end.ts
            else id in t.ledger.requests)
  {
    hide VisibleResults, ApplyModifications, CompleteMutations;
    ModificationsStayScoped(s, ms);
    var due := Due(s.ledger.requests, end.ts);
    var ids := Ascending(due);
    assert forall i :: 0 <= i < |ids| ==> ids[i] in due;
    CompleteMutationsFrame(s.ledger, ids);
    assert Elements(ids) == due;
  }

  lemma NextTransition(w: World, start: StateVersion, end: StateVersion, ms: seq<StateModification>)
    ensures Next(w, Receive(Transition(start, end, ms))).client == TransitionStep(w.client, start, end, ms).0
  {
    hide TransitionStep, Record;
  }
}

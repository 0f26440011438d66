/** What each operation of the client does, exactly: when it succeeds and what it leaves.
    The statements name the queue, the pending requests, the subscribers and the results, not
    the functions that compute them. */
module OutcomeTheorems {
  import opened Prelude
  import opened Orders
  import opened Values
  import opened Canonical
  import opened Protocol
  import opened Optimistic
  import opened QuerySnapshots
  import opened ClientSteps
  import opened Sessions
  import opened RegistryInvariant
  import opened LedgerInvariant
  import opened SessionInvariant
  import opened ClientRuns
  import opened ClientTheorems
  import opened OptimisticTheorems
  import opened ObservationTheorems

  // ---- results ----

  predicate ShowsValue(r: FunctionResult, v: Value) {
    r.value == v && r.errorMessage == "" && r.convexError.None?
  }

  /** A failure without data is an error message, one with data a Convex error. */
  predicate ShowsFailure(r: FunctionResult, message: string, data: Option<Value>) {
    match data
    case None => r.errorMessage == message && r.convexError.None?
    case Some(d) => r.convexError == Some(ConvexError(message, d))
  }

  predicate ShowsResponse(r: FunctionResult, response: Response) {
    if response.success then ShowsValue(r, response.value) else ShowsFailure(r, response.message, response.data)
  }

  /** Every response is shown as what it is; a failure passes for a value exactly when it has
      neither text nor data. */
  lemma ResponsesAreShown(response: Response)
    ensures ShowsResponse(ResponseResult(response), response)
    ensures ResultValue(ResponseResult(response)) ==
      if response.success then Some(response.value)
      else if response.message == "" && response.data.None? then Some(Null) else None
  {
  }

  // ---- the optimistic stack ----

  /** us are the updates of the mutations in ids, by increasing request id. */
  ghost predicate StackOf(us: seq<Update>, requests: Requests, ids: set<RequestID>) {
    && |us| == |ids|
    && forall i :: 0 <= i < |us| ==>
         Ascending(ids)[i] in requests && requests[Ascending(ids)[i]].update == Some(us[i])
  }

  /** The updates run one after the other over the server results, none of them failing. */
  ghost predicate RunsThrough(us: seq<Update>, queries: Registry, server: Results) {
    forall i :: 0 <= i < |us| ==> !FailsAt(us, i, queries, server)
  }

  /** The pending mutations with an update. */
  ghost function Optimistics(requests: Requests): set<RequestID> {
    set id | id in requests && requests[id].kind == MutationKind && requests[id].update.Some?
  }

  /** The same without those a transition to ts completes. */
  ghost function OptimisticsAfter(requests: Requests, ts: Timestamp): set<RequestID> {
    set id | id in Optimistics(requests) && !(AnsweredMutation(requests[id]) && requests[id].ts.value <= ts)
  }

  lemma StackIsPending(us: seq<Update>, requests: Requests)
    requires StackOf(us, requests, Optimistics(requests))
    ensures us == PendingUpdates(requests)
  {
    assert Optimistics(requests) == OptimisticIds(requests);
    var ids := Ascending(OptimisticIds(requests));
    assert forall i :: 0 <= i < |ids| ==> ids[i] in OptimisticIds(requests);
  }

  /** Recomputing succeeds exactly when no pending update fails, and shows their fold. */
  lemma RecomputeExactly(s: Client, us: seq<Update>)
    requires StackOf(us, s.ledger.requests, Optimistics(s.ledger.requests))
    ensures var (t, ok) := Recompute(s);
      && (ok <==> RunsThrough(us, s.reg.queries, s.serverResults))
      && t == s.(results := t.results)
      && (if ok then ApplyAll(us, s.reg.queries, s.serverResults) == Some(t.results) else t == s)
      && (us == [] ==> ok && t.results == s.serverResults)
  {
    hide FailsAt, StackOf, PendingUpdates;
    StackIsPending(us, s.ledger.requests);
    FailureHasCulprit(us, s.reg.queries, s.serverResults);
  }

  // ---- transitions ----

  predicate Supported(ms: seq<StateModification>) {
    forall i :: 0 <= i < |ms| ==> !ms[i].Unsupported?
  }

  lemma {:induction false} ModificationsSucceedExactly(s: Client, ms: seq<StateModification>)
    ensures ApplyModifications(s, ms).1 <==> Supported(ms)
    decreases ms
  {
    if ms != [] {
      ModificationsSucceedExactly(ApplyModification(s, ms[0]).0, ms[1..]);
      assert Supported(ms) <==> !ms[0].Unsupported? && Supported(ms[1..]);
    }
  }

  /** A transition is applied when it continues the client's version and is understood. */
  predicate Applies(s: Client, start: StateVersion, ms: seq<StateModification>) {
    start == s.link.remoteVersion && Supported(ms)
  }

  lemma AppliedTransition(s: Client, start: StateVersion, end: StateVersion, ms: seq<StateModification>)
    requires Scoped(s)
    ensures !Applies(s, start, ms) ==> !TransitionStep(s, start, end, ms).1
    ensures start != s.link.remoteVersion ==> TransitionStep(s, start, end, ms).0 == s
    ensures Applies(s, start, ms) ==>
      var s1 := TransitionCommit(ApplyModifications(s, ms).0, end);
      && TransitionStep(s, start, end, ms) == Recompute(s1)
      && s1.reg == s.reg && s1.link == s.link.(remoteVersion := end)
      && s1.serverResults == ApplyModifications(s, ms).0.serverResults
      && s1.ledger.requests == s.ledger.requests - Due(s.ledger.requests, end.ts)
  {
    hide ApplyModifications, Recompute;
    ModificationsSucceedExactly(s, ms);
    ModificationsStayScoped(s, ms);
    var due := Due(s.ledger.requests, end.ts);
    var ids := Ascending(due);
    assert forall i :: 0 <= i < |ids| ==> ids[i] in due;
    CompleteMutationsFrame(s.ledger, ids);
    assert Elements(ids) == due;
  }

  lemma StackAfter(us: seq<Update>, requests: Requests, ts: Timestamp)
    requires StackOf(us, requests, OptimisticsAfter(requests, ts))
    ensures var left := requests - Due(requests, ts); StackOf(us, left, Optimistics(left))
  {
    var left := requests - Due(requests, ts);
    assert Optimistics(left) == OptimisticsAfter(requests, ts);
    assert forall i :: 0 <= i < |us| ==> Ascending(Optimistics(left))[i] in Optimistics(left);
  }

  /** A transition succeeds exactly when it continues the client's version, contains nothing
      unknown, and none of the updates that stay pending fails over the new server results;
      then the visible results are their fold.  Applied or not, it leaves the rest alone. */
  lemma TransitionSucceedsExactly(s: Client, start: StateVersion, end: StateVersion, ms: seq<StateModification>,
                                  us: seq<Update>)
    requires Scoped(s) && StackOf(us, s.ledger.requests, OptimisticsAfter(s.ledger.requests, end.ts))
    ensures var (t, ok) := TransitionStep(s, start, end, ms);
      && (ok <==> Applies(s, start, ms) && RunsThrough(us, s.reg.queries, t.serverResults))
      && (ok ==> ApplyAll(us, s.reg.queries, t.serverResults) == Some(t.results))
      && (ok && us == [] ==> t.results == t.serverResults)
      && (Applies(s, start, ms) ==>
            && t.link == s.link.(remoteVersion := end) && t.reg == s.reg
            && t.serverResults == ApplyModifications(s, ms).0.serverResults
            && t.ledger.requests == s.ledger.requests - Due(s.ledger.requests, end.ts))
      && (start != s.link.remoteVersion ==> t == s)
  {
    hide TransitionStep, TransitionCommit, ApplyModifications, Recompute, StackOf, RunsThrough, Due, Supported;
    AppliedTransition(s, start, end, ms);
    if Applies(s, start, ms) {
      StackAfter(us, s.ledger.requests, end.ts);
      RecomputeExactly(TransitionCommit(ApplyModifications(s, ms).0, end), us);
    }
  }

  lemma RunTransition(configuredLimit: int, events: seq<Event>, start: StateVersion, end: StateVersion,
                      ms: seq<StateModification>)
    ensures Run(configuredLimit, events + [Receive(Transition(start, end, ms))]).client ==
            TransitionStep(Run(configuredLimit, events).client, start, end, ms).0
  {
    hide Run, Next, TransitionStep;
    var all := events + [Receive(Transition(start, end, ms))];
    assert all[..|events|] == events && all[..|all|] == all;
    RunSnoc(configuredLimit, all, |events|);
    NextTransition(Run(configuredLimit, events), start, end, ms);
  }

  /** In every run, for whatever transition arrives next: if it applies, the client is at its
      end version and an answered mutation is still pending exactly when its timestamp is later
      than the end; it succeeds exactly when moreover no update of a still pending mutation
      fails; and then the visible results are those updates, by increasing request id, over the
      server results. */
  lemma TransitionInEveryRun(configuredLimit: int, events: seq<Event>, start: StateVersion, end: StateVersion,
                             ms: seq<StateModification>, us: seq<Update>)
    requires var rs := Run(configuredLimit, events).client.ledger.requests;
      StackOf(us, rs, OptimisticsAfter(rs, end.ts))
    ensures var s := Run(configuredLimit, events).client;
      var t := Run(configuredLimit, events + [Receive(Transition(start, end, ms))]).client;
      var ok := TransitionStep(s, start, end, ms).1;
      && (ok <==> Applies(s, start, ms) && RunsThrough(us, t.reg.queries, t.serverResults))
      && (ok ==> ApplyAll(us, t.reg.queries, t.serverResults) == Some(t.results))
      && (Applies(s, start, ms) ==>
            && t.link.remoteVersion == end
            && forall id :: id in s.ledger.requests ==>
                 (id in t.ledger.requests <==>
                    !AnsweredMutation(s.ledger.requests[id]) || s.ledger.requests[id].ts.value > end.ts))
      && (start != s.link.remoteVersion ==> t == s)
  {
    hide Run, TransitionStep, Applies, OptimisticsAfter, StackOf, RunsThrough, ApplyModifications;
    var s := Run(configuredLimit, events).client;
    ScopedInRun(configuredLimit, events);
    RunTransition(configuredLimit, events, start, end, ms);
    TransitionSucceedsExactly(s, start, end, ms, us);
    TransitionKeepsRegistry(s, start, end, ms);
  }

  lemma TransitionKeepsRegistry(s: Client, start: StateVersion, end: StateVersion, ms: seq<StateModification>)
    requires Scoped(s)
    ensures TransitionStep(s, start, end, ms).0.reg == s.reg
  {
    hide CompleteMutations, VisibleResults;
    ModificationsStayScoped(s, ms);
  }

  /** With no update left pending, every transition that continues the client's version and is
      understood succeeds, and the visible results are the server's. */
  lemma PlainTransitionSucceeds(configuredLimit: int, events: seq<Event>, start: StateVersion, end: StateVersion,
                                ms: seq<StateModification>)
    requires var s := Run(configuredLimit, events).client;
      Applies(s, start, ms) && OptimisticsAfter(s.ledger.requests, end.ts) == {}
    ensures var (t, ok) := TransitionStep(Run(configuredLimit, events).client, start, end, ms);
      ok && t.results == t.serverResults && t.link.remoteVersion == end
  {
    hide Run, TransitionStep, Applies, OptimisticsAfter;
    ScopedInRun(configuredLimit, events);
    TransitionSucceedsExactly(Run(configuredLimit, events).client, start, end, ms, []);
  }

  /** A transition that must succeed: it applies, and leaves no update pending. */
  ghost predicate IsPlain(s: Client, m: ServerMessage) {
    m.Transition? && Applies(s, m.start, m.modifications) && OptimisticsAfter(s.ledger.requests, m.end.ts) == {}
  }

  lemma PlainReceive(s: Client, m: ServerMessage)
    requires Scoped(s) && IsPlain(s, m)
    ensures var (t, ok) := ReceiveStep(s, m); ok && t.results == t.serverResults
  {
    hide TransitionStep, Applies, OptimisticsAfter, Scoped;
    TransitionSucceedsExactly(s, m.start, m.end, m.modifications, []);
  }

  /** What a subscriber is shown by the last modification that concerns its query. */
  predicate ShowsModification(r: Option<FunctionResult>, m: StateModification) {
    match m
    case QueryUpdated(_, v) => r.Some? && ShowsValue(r.value, v)
    case QueryFailed(_, message, data) => r.Some? && ShowsFailure(r.value, message, data)
    case QueryRemoved(_) => r.None?
    case Unsupported => false
  }

  /** From the wire to the subscriber: in every run, with no update left pending, each live
      subscriber reads from the snapshot after a transition what the last modification of its
      query said, or what the server said earlier. */
  lemma SubscribersSeeTheServer(configuredLimit: int, events: seq<Event>, start: StateVersion, end: StateVersion,
                                ms: seq<StateModification>, x: SubscriberID)
    requires var s := Run(configuredLimit, events).client;
      Applies(s, start, ms) && OptimisticsAfter(s.ledger.requests, end.ts) == {} && x in s.reg.subscribers
    ensures var s := Run(configuredLimit, events).client;
      var t := TransitionStep(s, start, end, ms).0;
      var seen := QueryResults(t.reg.subscribers, t.results).Get(x);
      match LastFor(ms, x.queryID)
      case Some(m) => ShowsModification(seen, m)
      case None => seen == (if x.queryID in s.serverResults then Some(s.serverResults[x.queryID]) else None)
  {
    hide Run, TransitionStep, OptimisticsAfter, ApplyModifications, Supported, LastFor;
    var s := Run(configuredLimit, events).client;
    ScopedInRun(configuredLimit, events);
    LiveQueryIsActive(configuredLimit, events, x);
    TransitionSucceedsExactly(s, start, end, ms, []);
    ModificationsSucceedExactly(s, ms);
    LastModificationWins(s, ms, x.queryID);
    LastForIsSupported(ms, x.queryID);
    if LastFor(ms, x.queryID).Some? {
      DecidesShows(LastFor(ms, x.queryID).value);
    }
  }

  lemma LiveQueryIsActive(configuredLimit: int, events: seq<Event>, x: SubscriberID)
    requires x in Run(configuredLimit, events).client.reg.subscribers
    ensures x.queryID in Run(configuredLimit, events).client.reg.queryIDToToken
  {
    RunInv(configuredLimit, events);
  }

  lemma {:induction false} LastForIsSupported(ms: seq<StateModification>, id: QueryID)
    ensures LastFor(ms, id).Some? ==> !LastFor(ms, id).value.Unsupported?
  {
    if ms != [] {
      LastForIsSupported(ms[..|ms| - 1], id);
    }
  }

  lemma DecidesShows(m: StateModification)
    requires !m.Unsupported?
    ensures ShowsModification(Decides(m), m)
  {
  }

  // ---- responses ----

  /** What a response to a mutation does.  It is accepted for a mutation that is pending, or
      was completed lately; a success is kept with its timestamp until a transition reaches it,
      and must have one; a failure is recorded at once and its update no longer shown. */
  lemma MutationResponseOutcome(s: Client, done: Completions, id: RequestID, response: Response,
                                ts: Option<Timestamp>, us: seq<Update>)
    requires Scoped(s) && Inverse(s.reg) && LedgerOK(s.ledger, done)
    requires StackOf(us, s.ledger.requests - {id}, Optimistics(s.ledger.requests - {id}))
    ensures var (t, ok) := MutationResponseStep(s, id, response, ts);
      var rs := s.ledger.requests;
      && t.reg == s.reg && t.link == s.link && t.serverResults == s.serverResults
      && (if id !in rs then
            t.ledger == s.ledger && t.results == s.results && (ok <==> id in s.ledger.completedMutations)
          else if rs[id].kind == ActionKind then !ok && t == s
          else if response.success then
            && (ok <==> ts.Some?) && t.results == s.results && id in t.ledger.requests
            && t.ledger.requests == rs[id := t.ledger.requests[id]]
            && AnswersWith(rs[id], response, ts, t.ledger.requests[id])
          else
            && t.ledger.requests == rs - {id}
            && id in t.ledger.mutationResults && ShowsResponse(t.ledger.mutationResults[id], response)
            && (if rs[id].update.None? then ok && t.results == s.results
                else
                  && (ok <==> RunsThrough(us, s.reg.queries, s.serverResults))
                  && (if ok then ApplyAll(us, s.reg.queries, s.serverResults) == Some(t.results)
                      else t.results == s.results)))
  {
    hide RunsThrough, StackOf, CompleteMutation, Recompute, Scoped, Inverse, ApplyAll, VisibleResults;
    MutationResponseFrame(s, id, response, ts);
    ResponsesAreShown(response);
    if id in s.ledger.requests && s.ledger.requests[id].kind == MutationKind && !response.success {
      FailureIsRecorded(s.ledger, done, id, response, ts);
      var s1 := s.(ledger := CompleteMutation(Answer(s.ledger, id, response, ts), id));
      RecomputeExactly(s1, us);
    }
  }

  /** The request r' is r with the answer. */
  predicate AnswersWith(r: Request, response: Response, ts: Option<Timestamp>, r': Request) {
    && r'.id == r.id && r'.kind == r.kind && r'.message == r.message && r'.update == r.update
    && r'.ts == ts && r'.result.Some? && ShowsResponse(r'.result.value, response)
  }

  lemma LatestIsRetained(order: seq<RequestID>, limit: nat, m: ResultMap, id: RequestID, result: FunctionResult)
    requires limit >= 1
    ensures var kept := Retain(m[id := result], LastN(order + [id], limit)); id in kept && kept[id] == result
  {
    var xs := LastN(order + [id], limit);
    assert xs[|xs| - 1] == id;
  }

  lemma FailureIsRecorded(l: Ledger, done: Completions, id: RequestID, response: Response, ts: Option<Timestamp>)
    requires LedgerOK(l, done) && id in l.requests
    ensures var l' := CompleteMutation(Answer(l, id, response, ts), id);
      && l'.requests == l.requests - {id}
      && id in l'.mutationResults && l'.mutationResults[id] == ResponseResult(response)
  {
    hide ResponseResult, Conserved, RequestShapes, Retains;
    LatestIsRetained(l.completedMutationOrder, l.limit, l.mutationResults, id, ResponseResult(response));
    assert Answer(l, id, response, ts).requests - {id} == l.requests - {id};
  }

  /** A response to an action is accepted exactly while that action is pending; then the action
      is over and its result kept. */
  lemma ActionResponseOutcome(s: Client, done: Completions, id: RequestID, response: Response)
    requires LedgerOK(s.ledger, done)
    ensures var (t, ok) := ActionResponseStep(s, id, response);
      && (ok <==> id in PendingOf(s.ledger.requests, ActionKind))
      && (if ok then
            && t.ledger.requests == s.ledger.requests - {id} && t == s.(ledger := t.ledger)
            && id in t.ledger.actionResults && ShowsResponse(t.ledger.actionResults[id], response)
          else t == s)
  {
    hide ResponseResult, Conserved, RequestShapes, Retains;
    LatestIsRetained(s.ledger.actionResultOrder, s.ledger.limit, s.ledger.actionResults, id, ResponseResult(response));
    ResponsesAreShown(response);
  }

  /** In every run: exactly which server messages are accepted, and that the others change
      nothing but what a transition or a response can. */
  lemma OtherMessages(s: Client, m: ServerMessage)
    requires !m.Transition? && !m.MutationResponse? && !m.ActionResponse?
    ensures ReceiveStep(s, m).0 == s && (ReceiveStep(s, m).1 <==> m == Ping)
  {
  }

  /** In every run, a restart, failed or not, completes exactly the pending actions, each with
      the error that says why. */
  lemma RestartCompletesActions(configuredLimit: int, events: seq<Event>, fetched: Option<AuthToken>, id: RequestID)
    requires id in PendingOf(Run(configuredLimit, events).client.ledger.requests, ActionKind)
    ensures var w := Next(Run(configuredLimit, events), Restart(fetched));
      && id !in w.client.ledger.requests && id in w.history.done.actions && id in w.history.done.actionResults
      && ShowsFailure(w.history.done.actionResults[id], "Connection lost while action was in flight", None)
  {
    hide Run, Inv;
    RunInv(configuredLimit, events);
    CancelledIsRecorded(Run(configuredLimit, events), fetched, id);
  }

  lemma CancelledIsRecorded(w: World, fetched: Option<AuthToken>, id: RequestID)
    requires Inv(w) && id in PendingOf(w.client.ledger.requests, ActionKind)
    ensures var w' := Next(w, Restart(fetched));
      && id !in w'.client.ledger.requests && id in w'.history.done.actions && id in w'.history.done.actionResults
      && w'.history.done.actionResults[id] == ErrorMessageResult("Connection lost while action was in flight")
  {
    hide Inv, Step, LedgerOK, RecordCompletions, RestartStep, PendingOf;
    var s, e := w.client, Restart(fetched);
    StepInvParts(w);
    RestartKeepsLedger(s, e, w.history.done);
    ActionIsRecorded(w.history.done, s, e, Step(s, e), id);
  }

  lemma ActionIsRecorded(done: Completions, s: Client, e: Event, t: Client, id: RequestID)
    requires id in PendingOf(s.ledger.requests, ActionKind) && id !in t.ledger.requests
    ensures var done' := RecordCompletions(done, s, e, t);
      id in done'.actions && id in done'.actionResults && done'.actionResults[id] == OutcomeOf(s, e, id)
  {
    hide OutcomeOf;
    var ids := ClientRuns.Left(s, t, ActionKind);
    assert id in PendingOf(s.ledger.requests, ActionKind) - t.ledger.requests.Keys;
    assert id in ids && id in Outcomes(s, e, ids);
  }

  // ---- issuing requests ----

  /** What issuing a request leaves: the message at the end of the queue, the request pending
      under the next id, and that id used up. */
  ghost predicate IssuesRequest(s: Client, t: Client, r: Request) {
    var n := s.ledger.nextRequestID;
    && r.id == n && r.result.None? && r.ts.None?
    && t.link.outgoing == s.link.outgoing + [r.message]
    && t.ledger.requests == s.ledger.requests[n := r] && t.ledger.nextRequestID == n + 1
    && t == s.(link := s.link.(outgoing := t.link.outgoing), results := t.results,
               ledger := s.ledger.(requests := t.ledger.requests, nextRequestID := n + 1))
  }

  /** A mutation whose path and arguments canonicalize is refused exactly when it has an update
      and one of the updates then pending fails; refused, it changes nothing; accepted, it
      is issued under the next id, and its update shows. */
  lemma MutationOutcome(s: Client, path: string, args: seq<Value>, update: Option<Update>, us: seq<Update>)
    requires RequestShapes(s.ledger.requests, s.ledger.nextRequestID)
    requires StackOf(us, s.ledger.requests, Optimistics(s.ledger.requests))
    ensures var (t, id) := MutationStep(s, path, args, update);
      var n := s.ledger.nextRequestID;
      var r := Request(n, MutationKind, MutationRequest(n, path, args), update, None, None);
      if update.None? then id == Some(n) && IssuesRequest(s, t, r) && t.results == s.results
      else if RunsThrough(us + [update.value], s.reg.queries, s.serverResults) then
        && id == Some(n) && IssuesRequest(s, t, r)
        && ApplyAll(us + [update.value], s.reg.queries, s.serverResults) == Some(t.results)
      else id.None? && t == s
  {
    hide FailsAt, StackOf, PendingUpdates;
    StackIsPending(us, s.ledger.requests);
    if update.Some? {
      var n := s.ledger.nextRequestID;
      var r := Request(n, MutationKind, MutationRequest(n, path, args), update, None, None);
      PendingUpdatesSnoc(s.ledger.requests, n, r);
      FailureHasCulprit(us + [update.value], s.reg.queries, s.serverResults);
    }
  }

  /** An action whose path and arguments canonicalize is always issued. */
  lemma ActionOutcome(s: Client, path: string, args: seq<Value>)
    ensures var (t, id) := ActionStep(s, path, args);
      && id == s.ledger.nextRequestID && t.results == s.results
      && IssuesRequest(s, t, Request(id, ActionKind, ActionRequest(id, path, args), None, None, None))
  {
  }

  /** The id returned by event k of a run, when it is an accepted mutation or action. */
  ghost function RequestedAt(configuredLimit: int, events: seq<Event>, k: nat): Option<RequestID>
    requires k < |events|
  {
    var s := Run(configuredLimit, events[..k]).client;
    match events[k]
    case Mutate(path, args, update) =>
      (match CanonicalRequest(path, args)
       case None => None
       case Some(key) => MutationStep(s, key.0, key.1, update).1)
    case Act(path, args) =>
      (match CanonicalRequest(path, args)
       case None => None
       case Some(key) => Some(ActionStep(s, key.0, key.1).1))
    case _ => None
  }

  lemma RequestTakesNextId(configuredLimit: int, events: seq<Event>, k: nat)
    requires k < |events| && RequestedAt(configuredLimit, events, k).Some?
    ensures var l := Run(configuredLimit, events[..k]).client.ledger;
      var l' := Run(configuredLimit, events[..k + 1]).client.ledger;
      RequestedAt(configuredLimit, events, k) == Some(l.nextRequestID) && l'.nextRequestID == l.nextRequestID + 1
  {
    hide Run, CanonicalRequest, VisibleResults, RecordCompletions;
    RunSnoc(configuredLimit, events, k);
  }

  lemma {:induction false} IdsOnlyGrow(configuredLimit: int, events: seq<Event>, n: nat)
    requires n <= |events|
    ensures Run(configuredLimit, events[..n]).client.ledger.nextRequestID <=
            Run(configuredLimit, events).client.ledger.nextRequestID
  {
    hide Run, Next, Step, Inv, HasEffect;
    if n == |events| {
      assert events[..n] == events;
    } else {
      var last := |events| - 1;
      assert events[..last][..n] == events[..n] && events[..last + 1] == events;
      IdsOnlyGrow(configuredLimit, events[..last], n);
      RunSnoc(configuredLimit, events, last);
      RunInv(configuredLimit, events[..last]);
      StepIdsGrow(Run(configuredLimit, events[..last]), events[last]);
    }
  }

  lemma RestartKeepsIds(s: Client, fetched: Option<AuthToken>)
    ensures Step(s, Restart(fetched)).ledger.nextRequestID == s.ledger.nextRequestID
  {
    hide RestartStep;
    var pending := PendingOf(s.ledger.requests, ActionKind);
    RestartFrame(s, fetched);
    CancelActionsFrame(s.ledger, Ascending(pending));
  }

  lemma PopKeepsIds(s: Client)
    ensures Step(s, Pop).ledger == s.ledger
  {
  }

  lemma StepIdsGrow(w: World, e: Event)
    requires Inv(w)
    ensures w.client.ledger.nextRequestID <= Next(w, e).client.ledger.nextRequestID
  {
    hide Inv, Step, Record, Scoped, Inverse, LedgerOK;
    StepInvParts(w);
    if e.Restart? {
      RestartKeepsIds(w.client, e.fetched);
    } else if e.Pop? {
      PopKeepsIds(w.client);
    } else {
      var f := StepEffect(w.client, e);
    }
  }

  /** No run gives out the same request id twice: later accepted mutations and actions get
      larger ids. */
  lemma RequestIdsIncrease(configuredLimit: int, events: seq<Event>, i: nat, j: nat)
    requires i < j < |events|
    ensures var a, b := RequestedAt(configuredLimit, events, i), RequestedAt(configuredLimit, events, j);
      a.Some? && b.Some? ==> a.value < b.value
  {
    hide Run, RequestedAt;
    if RequestedAt(configuredLimit, events, i).Some? && RequestedAt(configuredLimit, events, j).Some? {
      RequestTakesNextId(configuredLimit, events, i);
      RequestTakesNextId(configuredLimit, events, j);
      IdsOnlyGrow(configuredLimit, events[..j], i + 1);
      assert events[..j][..i + 1] == events[..i + 1];
    }
  }

  // ---- subscriptions ----

  ghost predicate Subscribed(s: Client, k: QueryKey, t: Client, x: SubscriberID) {
    var v := s.link.querySetVersion;
    && x !in s.reg.subscribers && t.reg.subscribers == s.reg.subscribers + {x}
    && t == s.(reg := t.reg, link := t.link)
    && (if x.queryID in LocalView(s.reg) then
          && LocalView(s.reg)[x.queryID] == (k.path, k.args)
          && t.link == s.link && LocalView(t.reg) == LocalView(s.reg)
        else
          && LocalView(t.reg) == LocalView(s.reg)[x.queryID := (k.path, k.args)]
          && t.link.outgoing == s.link.outgoing + [ModifyQuerySet(v, v + 1, [Add(x.queryID, k.path, k.args)])])
  }

  /** Subscribing adds exactly one subscriber, of the query with that path and argument; the
      server is told exactly when the query is new, and nothing shown changes. */
  lemma SubscribeOutcome(configuredLimit: int, events: seq<Event>, k: QueryKey)
    requires IsKey(k)
    ensures var s := Run(configuredLimit, events).client;
      var (t, x) := SubscribeStep(s, k);
      Subscribed(s, k, t, x)
  {
    hide Run, IsKey, Inv, SubscribeStep, Subscribed;
    RunInv(configuredLimit, events);
    SubscribeStepOutcome(Run(configuredLimit, events), k);
  }

  lemma SubscribeStepOutcome(w: World, k: QueryKey)
    requires Inv(w) && IsKey(k)
    ensures Subscribed(w.client, k, SubscribeStep(w.client, k).0, SubscribeStep(w.client, k).1)
  {
    hide Inv, IsKey, LocalView, RegSubscribe;
    SubscribeFacts(w, k);
  }

  lemma SubscribeFacts(w: World, k: QueryKey)
    requires Inv(w) && IsKey(k)
    ensures var r := w.client.reg;
      var (r', x) := RegSubscribe(r, k);
      && x !in r.subscribers && r'.subscribers == r.subscribers + {x}
      && (k.token in r.queries <==> x.queryID in LocalView(r))
      && (if k.token in r.queries then LocalView(r)[x.queryID] == (k.path, k.args) && LocalView(r') == LocalView(r)
          else x.queryID == r.nextQueryID && LocalView(r') == LocalView(r)[x.queryID := (k.path, k.args)])
  {
    hide LedgerOK, SessionPart, Counted;
    var s := w.client;
    SubscribeIsFresh(s.reg, k, w.history.issued);
    SubscribeView(s.reg, k);
    if k.token in s.reg.queries {
      KeyOfToken(s.reg, k);
    }
  }

  lemma KeyOfToken(r: Reg, k: QueryKey)
    requires Keyed(r) && IsKey(k) && k.token in r.queries
    ensures r.queries[k.token].path == k.path && r.queries[k.token].args == k.args
  {
    hide IsKey;
    TokensAreExact(QueryKey(r.queries[k.token].path, r.queries[k.token].args, k.token), k);
  }

  /** Another live subscriber has the same query. */
  ghost predicate Shared(r: Reg, x: SubscriberID) {
    exists y :: y in r.subscribers && y != x && y.queryID == x.queryID
  }

  ghost predicate LeavesQuery(s: Client, x: SubscriberID, t: Client, outcome: UnsubscribeOutcome) {
    var q, v := x.queryID, s.link.querySetVersion;
    && t.reg.subscribers == s.reg.subscribers - {x}
    && t == s.(reg := t.reg, link := t.link, serverResults := t.serverResults, results := t.results)
    && (if Shared(s.reg, x) then
          && outcome == Unsubscribed && LocalView(t.reg) == LocalView(s.reg)
          && t.link == s.link && t.serverResults == s.serverResults && t.results == s.results
        else
          && outcome == LastUnsubscribed && q in LocalView(s.reg) && LocalView(t.reg) == LocalView(s.reg) - {q}
          && t.link.outgoing == s.link.outgoing + [ModifyQuerySet(v, v + 1, [Remove(q)])]
          && t.serverResults == s.serverResults - {q} && t.results == s.results - {q})
  }

  /** Unsubscribing a live subscriber removes it and no other.  Its query stays exactly while
      another subscriber has it; otherwise the server is told to remove it and its results go,
      and nothing else shown changes.  Anything but a live subscriber changes nothing. */
  lemma UnsubscribeOutcome(configuredLimit: int, events: seq<Event>, x: SubscriberID)
    ensures var s := Run(configuredLimit, events).client;
      var (t, outcome) := UnsubscribeStep(s, x);
      if x in s.reg.subscribers then LeavesQuery(s, x, t, outcome) else t == s && outcome == UnknownSubscriber
  {
    hide Run, Inv, UnsubscribeStep, LeavesQuery;
    RunInv(configuredLimit, events);
    UnsubscribeStepOutcome(Run(configuredLimit, events), x);
  }

  lemma UnsubscribeStepOutcome(w: World, x: SubscriberID)
    requires Inv(w)
    ensures var (t, outcome) := UnsubscribeStep(w.client, x);
      if x in w.client.reg.subscribers then LeavesQuery(w.client, x, t, outcome)
      else t == w.client && outcome == UnknownSubscriber
  {
    hide Inv, LocalView, RegUnsubscribe, Shared;
    UnsubscribeFacts(w, x);
  }

  lemma UnsubscribeFacts(w: World, x: SubscriberID)
    requires Inv(w)
    ensures var r := w.client.reg;
      var (r', outcome) := RegUnsubscribe(r, x);
      if x !in r.subscribers then r' == r && outcome == UnknownSubscriber
      else
        && r'.subscribers == r.subscribers - {x}
        && outcome == (if Shared(r, x) then Unsubscribed else LastUnsubscribed)
        && (if Shared(r, x) then LocalView(r') == LocalView(r)
            else x.queryID in LocalView(r) && LocalView(r') == LocalView(r) - {x.queryID})
  {
    hide LedgerOK, SessionPart, LocalView, Shared, SubscribersOf;
    var r := w.client.reg;
    UnsubscribeOutcomes(r, x);
    UnsubscribeView(r, x);
    if x in r.subscribers {
      SharedExactly(r, x);
    }
  }

  lemma SharedExactly(r: Reg, x: SubscriberID)
    requires x in r.subscribers
    ensures Shared(r, x) <==> SubscribersOf(r.subscribers, x.queryID) != {x}
  {
    var live := SubscribersOf(r.subscribers, x.queryID);
    assert x in live;
    if live != {x} {
      var y :| y in live && y != x;
      assert Shared(r, x);
    } else {
      forall y | y in r.subscribers && y.queryID == x.queryID ensures y == x {
        assert y in live;
      }
    }
  }
}

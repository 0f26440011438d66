/** Runs of the client: any sequence of method calls and server messages, with the history
    that the guarantees talk about, and the invariant every run keeps. */
module ClientRuns {
  import opened Prelude
  import opened Orders
  import opened Values
  import opened Canonical
  import opened Protocol
  import opened Optimistic
  import opened ClientSteps
  import opened Sessions
  import opened RegistryInvariant
  import opened LedgerInvariant
  import opened SessionInvariant

  /** What has happened: messages handed out since the last reset, whether that reset
      succeeded, transitions received since then, subscriber ids ever live, completions. */
  datatype History = History(
    popped: seq<ClientMessage>,
    complete: bool,
    transitions: nat,
    issued: set<SubscriberID>,
    done: Completions)

  datatype World = World(client: Client, history: History)

  ghost function Start(configuredLimit: int): World {
    World(New(configuredLimit), History([], true, 0, {}, NOTHING_COMPLETED))
  }

  /** The result a completion must carry, told from the event that caused it. */
  ghost function OutcomeOf(s: Client, e: Event, id: RequestID): FunctionResult {
    match e
    case Receive(MutationResponse(_, response, _)) => ResponseResult(response)
    case Receive(ActionResponse(_, response)) => ResponseResult(response)
    case Restart(_) => ErrorMessageResult(RECONNECT_ERROR)
    case _ =>
      if id in s.ledger.requests && s.ledger.requests[id].result.Some? then s.ledger.requests[id].result.value
      else ErrorMessageResult("")
  }

  /** The requests of a kind that a step from s to t took out of the pending set. */
  ghost function Left(s: Client, t: Client, kind: Kind): seq<RequestID> {
    Ascending(PendingOf(s.ledger.requests, kind) - t.ledger.requests.Keys)
  }

  ghost function Outcomes(s: Client, e: Event, ids: seq<RequestID>): ResultMap {
    map id | id in ids :: OutcomeOf(s, e, id)
  }

  ghost function RecordCompletions(done: Completions, s: Client, e: Event, t: Client): Completions {
    var ms, xs := Left(s, t, MutationKind), Left(s, t, ActionKind);
    Completions(done.mutations + ms, done.mutationResults + Outcomes(s, e, ms),
                done.actions + xs, done.actionResults + Outcomes(s, e, xs))
  }

  ghost function Record(h: History, s: Client, e: Event, t: Client): History {
    History(
      if e.Restart? then [] else if e.Pop? && s.link.outgoing != [] then h.popped + [s.link.outgoing[0]] else h.popped,
      if e.Restart? then RestartStep(s, e.fetched).1 else h.complete,
      if e.Restart? then 0
      else if e.Receive? && e.message.Transition? && e.message.start == s.link.remoteVersion then h.transitions + 1
      else h.transitions,
      h.issued + t.reg.subscribers,
      RecordCompletions(h.done, s, e, t))
  }

  ghost function Next(w: World, e: Event): World {
    var t := Step(w.client, e);
    World(t, Record(w.history, w.client, e, t))
  }

  ghost function Run(configuredLimit: int, events: seq<Event>): World {
    if events == [] then Start(configuredLimit)
    else Next(Run(configuredLimit, events[..|events| - 1]), events[|events| - 1])
  }

  ghost function Log(w: World): seq<ClientMessage> {
    w.history.popped + w.client.link.outgoing
  }

  // ---- the invariant ----

  ghost predicate RegistryPart(s: Client, issued: set<SubscriberID>) {
    Registered(s.reg) && Keyed(s.reg) && Issued(s.reg, issued) && Scoped(s)
  }

  ghost predicate SessionPart(s: Client, popped: seq<ClientMessage>, complete: bool) {
    && Numbered(popped + s.link.outgoing, s.link)
    && (complete ==> Served(popped + s.link.outgoing, LocalView(s.reg), PendingMessages(s.ledger.requests),
        s.ledger.nextRequestID))
  }

  ghost predicate Inv(w: World) {
    && RegistryPart(w.client, w.history.issued)
    && LedgerOK(w.client.ledger, w.history.done)
    && SessionPart(w.client, w.history.popped, w.history.complete)
    && (w.history.transitions == 0 ==> w.client.link.remoteVersion == ZERO_VERSION)
  }

  // ---- frames: what each step touches ----

  lemma TransitionFrame(s: Client, start: StateVersion, end: StateVersion, ms: seq<StateModification>)
    requires Scoped(s) && Inverse(s.reg)
    ensures var t := TransitionStep(s, start, end, ms).0;
      && t.reg == s.reg && Scoped(t)
      && t.link == s.link.(remoteVersion := t.link.remoteVersion)
      && (start != s.link.remoteVersion ==> t == s)
      && (t.ledger == s.ledger || t.ledger == CompleteMutations(s.ledger, Ascending(Due(s.ledger.requests, end.ts))))
  {
    ModificationsStayScoped(s, ms);
    var (s1, ok) := ApplyModifications(s, ms);
    if start == s.link.remoteVersion && ok {
      VisibleStaysScoped(TransitionCommit(s1, end));
    }
  }

  lemma RecomputeFrame(s: Client)
    requires Scoped(s) && Inverse(s.reg)
    ensures var t := Recompute(s).0; t == s.(results := t.results) && Scoped(t)
  {
    VisibleStaysScoped(s);
  }

  lemma FailedMutationFrame(s: Client, id: RequestID, response: Response, ts: Option<Timestamp>)
    requires Scoped(s) && Inverse(s.reg)
    requires id in s.ledger.requests && s.ledger.requests[id].kind == MutationKind && !response.success
    ensures var t := MutationResponseStep(s, id, response, ts).0;
      && t.reg == s.reg && Scoped(t) && t.link == s.link
      && t.ledger == CompleteMutation(Answer(s.ledger, id, response, ts), id)
  {
    RecomputeFrame(s.(ledger := CompleteMutation(Answer(s.ledger, id, response, ts), id)));
  }

  lemma MutationResponseFrame(s: Client, id: RequestID, response: Response, ts: Option<Timestamp>)
    requires Scoped(s) && Inverse(s.reg)
    ensures var t := MutationResponseStep(s, id, response, ts).0;
      && t.reg == s.reg && Scoped(t) && t.link == s.link
      && (if id !in s.ledger.requests || s.ledger.requests[id].kind != MutationKind then t.ledger == s.ledger
          else if response.success then t.ledger == Answer(s.ledger, id, response, ts)
          else t.ledger == CompleteMutation(Answer(s.ledger, id, response, ts), id))
  {
    if id in s.ledger.requests && s.ledger.requests[id].kind == MutationKind && !response.success {
      FailedMutationFrame(s, id, response, ts);
    }
  }

  lemma MutationFrame(s: Client, path: string, args: seq<Value>, update: Option<Update>)
    requires Scoped(s) && Inverse(s.reg)
    ensures var t := MutationStep(s, path, args, update).0;
      var id := s.ledger.nextRequestID;
      var message := MutationRequest(id, path, args);
      && t.reg == s.reg && Scoped(t)
      && (t == s || (t.link == Push(s.link, message)
                     && t.ledger == Track(s.ledger, Request(id, MutationKind, message, update, None, None))))
  {
    var id := s.ledger.nextRequestID;
    var message := MutationRequest(id, path, args);
    VisibleStaysScoped(s.(ledger := Track(s.ledger, Request(id, MutationKind, message, update, None, None))));
  }

  lemma ReplayFrame(s: Client)
    ensures var t := Replay(s); t == s.(link := t.link) && t.link.remoteVersion == s.link.remoteVersion
  {
  }

  lemma RestartFrame(s: Client, fetched: Option<AuthToken>)
    ensures var t := RestartStep(s, fetched).0;
      && t == s.(link := t.link, ledger := t.ledger)
      && t.ledger == CancelActions(s.ledger, Ascending(PendingOf(s.ledger.requests, ActionKind)))
      && t.link.remoteVersion == ZERO_VERSION
  {
    var s1 := ClearSession(s);
    ReplayFrame(s1);
    ReplayFrame(RefreshAuthStep(s1, fetched).0);
  }

  // ---- the registry part ----

  lemma SameRegistryKeeps(s: Client, t: Client, issued: set<SubscriberID>)
    requires RegistryPart(s, issued) && t.reg == s.reg && Scoped(t)
    ensures RegistryPart(t, issued + t.reg.subscribers)
  {
    assert issued + s.reg.subscribers == issued;
  }

  lemma StepKeepsRegistry(s: Client, e: Event, issued: set<SubscriberID>)
    requires RegistryPart(s, issued)
    ensures RegistryPart(Step(s, e), issued + Step(s, e).reg.subscribers)
  {
    match e
    case Subscribe(path, args) =>
      CanonicalQueryShape(path, args);
      if CanonicalQuery(path, args).Some? {
        SubscribeKeepsRegistry(s, CanonicalQuery(path, args).value, issued);
      } else {
        SameRegistryKeeps(s, s, issued);
      }
    case Unsubscribe(id) => UnsubscribeKeepsRegistry(s, id, issued);
    case _ =>
      OtherStepsKeepRegistry(s, e);
      SameRegistryKeeps(s, Step(s, e), issued);
  }

  lemma OtherStepsKeepRegistry(s: Client, e: Event)
    requires Scoped(s) && Inverse(s.reg) && !e.Subscribe? && !e.Unsubscribe?
    ensures Step(s, e).reg == s.reg && Scoped(Step(s, e))
  {
    match e
    case Mutate(path, args, update) =>
      if CanonicalRequest(path, args).Some? {
        MutationFrame(s, CanonicalRequest(path, args).value.0, CanonicalRequest(path, args).value.1, update);
      }
    case Receive(message) => ReceiveKeepsRegistry(s, message);
    case Restart(fetched) => RestartFrame(s, fetched);
    case _ =>
  }

  lemma SubscribeKeepsRegistry(s: Client, k: QueryKey, issued: set<SubscriberID>)
    requires RegistryPart(s, issued) && IsKey(k)
    ensures RegistryPart(SubscribeStep(s, k).0, issued + SubscribeStep(s, k).0.reg.subscribers)
  {
    var t := SubscribeStep(s, k).0;
    SubscribeKeepsInverse(s.reg, k);
    SubscribeKeepsCounted(s.reg, k, issued);
    SubscribeKeepsKeyed(s.reg, k);
    SubscribeIsFresh(s.reg, k, issued);
    SubscribeScope(s, k);
    IssuedGrows(issued, s.reg, k);
  }

  lemma SubscribeScope(s: Client, k: QueryKey)
    requires Scoped(s)
    ensures SubscribeStep(s, k).0.reg == RegSubscribe(s.reg, k).0 && Scoped(SubscribeStep(s, k).0)
  {
  }

  lemma IssuedGrows(issued: set<SubscriberID>, r: Reg, k: QueryKey)
    requires r.subscribers <= issued
    ensures issued + RegSubscribe(r, k).0.subscribers == issued + {RegSubscribe(r, k).1}
  {
  }

  lemma UnsubscribeKeepsRegistry(s: Client, id: SubscriberID, issued: set<SubscriberID>)
    requires RegistryPart(s, issued)
    ensures RegistryPart(UnsubscribeStep(s, id).0, issued + UnsubscribeStep(s, id).0.reg.subscribers)
  {
    UnsubscribeKeepsInverse(s.reg, id);
    UnsubscribeKeepsCounted(s.reg, id);
    UnsubscribeKeepsKeyed(s.reg, id);
    UnsubscribeKeepsIssued(s.reg, id, issued);
    UnsubscribeScope(s, id);
    IssuedStays(issued, s.reg, id);
  }

  lemma UnsubscribeScope(s: Client, id: SubscriberID)
    requires Scoped(s)
    ensures UnsubscribeStep(s, id).0.reg == RegUnsubscribe(s.reg, id).0 && Scoped(UnsubscribeStep(s, id).0)
  {
  }

  lemma IssuedStays(issued: set<SubscriberID>, r: Reg, id: SubscriberID)
    requires r.subscribers <= issued
    ensures issued + RegUnsubscribe(r, id).0.subscribers == issued
  {
  }

  lemma ReceiveKeepsRegistry(s: Client, m: ServerMessage)
    requires Scoped(s) && Inverse(s.reg)
    ensures ReceiveStep(s, m).0.reg == s.reg && Scoped(ReceiveStep(s, m).0)
  {
    match m
    case Transition(start, end, ms) => TransitionFrame(s, start, end, ms);
    case MutationResponse(id, response, ts) => MutationResponseFrame(s, id, response, ts);
    case _ =>
  }

  // ---- the ledger part ----

  lemma LeftIs(s: Client, t: Client, kind: Kind, ids: set<RequestID>)
    requires PendingOf(s.ledger.requests, kind) - t.ledger.requests.Keys == ids
    ensures Left(s, t, kind) == Ascending(ids)
    ensures ids == {} ==> Left(s, t, kind) == []
  {
  }

  lemma OneKindLeft(requests: Requests, keys: set<RequestID>, kind: Kind, ids: set<RequestID>)
    requires ids <= PendingOf(requests, kind) && keys == requests.Keys - ids
    ensures PendingOf(requests, kind) - keys == ids
    ensures forall k :: k != kind ==> PendingOf(requests, k) - keys == {}
  {
  }

  lemma NoOutcomes(s: Client, e: Event, m: ResultMap)
    ensures m + Outcomes(s, e, []) == m
  {
    assert Outcomes(s, e, []) == map[];
  }

  /** Completions are recorded from what was pending before and is not pending after. */
  lemma NothingLeft(done: Completions, s: Client, e: Event, t: Client)
    requires s.ledger.requests.Keys <= t.ledger.requests.Keys
    ensures RecordCompletions(done, s, e, t) == done
  {
    LeftIs(s, t, MutationKind, {});
    LeftIs(s, t, ActionKind, {});
    NoOutcomes(s, e, done.mutationResults);
    NoOutcomes(s, e, done.actionResults);
    assert done.mutations + [] == done.mutations && done.actions + [] == done.actions;
  }

  lemma MutationsLeft(done: Completions, s: Client, e: Event, t: Client, ids: set<RequestID>, xs: seq<RequestID>,
                      answered: Requests)
    requires ids <= PendingOf(s.ledger.requests, MutationKind) && xs == Ascending(ids)
    requires t.ledger.requests.Keys == s.ledger.requests.Keys - ids
    requires forall i :: 0 <= i < |xs| ==> xs[i] in answered && answered[xs[i]].result == Some(OutcomeOf(s, e, xs[i]))
    ensures RecordCompletions(done, s, e, t) == DoneMutations(done, xs, answered)
  {
    OneKindLeft(s.ledger.requests, t.ledger.requests.Keys, MutationKind, ids);
    LeftIs(s, t, MutationKind, ids);
    LeftIs(s, t, ActionKind, {});
    NoOutcomes(s, e, done.actionResults);
    assert done.actions + [] == done.actions;
    DoneMutationsShape(done, xs, answered);
    MutationOutcomes(done, s, e, xs, answered);
  }

  lemma MutationOutcomes(done: Completions, s: Client, e: Event, xs: seq<RequestID>, answered: Requests)
    requires forall i :: 0 <= i < |xs| ==> xs[i] in answered && answered[xs[i]].result == Some(OutcomeOf(s, e, xs[i]))
    ensures done.mutationResults + Outcomes(s, e, xs) == DoneMutations(done, xs, answered).mutationResults
  {
    hide OutcomeOf, DoneMutations;
    DoneMutationsShape(done, xs, answered);
    var m, n := done.mutationResults + Outcomes(s, e, xs), DoneMutations(done, xs, answered).mutationResults;
    forall x ensures x in m <==> x in n
             ensures x in m && x in n ==> m[x] == n[x]
    {
      if x in xs {
        var i :| 0 <= i < |xs| && xs[i] == x;
      }
    }
  }

  lemma ActionsLeft(done: Completions, s: Client, e: Event, t: Client, ids: set<RequestID>, xs: seq<RequestID>,
                    result: FunctionResult)
    requires ids <= PendingOf(s.ledger.requests, ActionKind) && xs == Ascending(ids)
    requires t.ledger.requests.Keys == s.ledger.requests.Keys - ids
    requires forall i :: 0 <= i < |xs| ==> OutcomeOf(s, e, xs[i]) == result
    ensures RecordCompletions(done, s, e, t) == DoneActions(done, xs, result)
  {
    OneKindLeft(s.ledger.requests, t.ledger.requests.Keys, ActionKind, ids);
    LeftIs(s, t, MutationKind, {});
    LeftIs(s, t, ActionKind, ids);
    NoOutcomes(s, e, done.mutationResults);
    assert done.mutations + [] == done.mutations;
    DoneActionsShape(done, xs, result);
    ActionOutcomes(done, s, e, xs, result);
  }

  lemma ActionOutcomes(done: Completions, s: Client, e: Event, xs: seq<RequestID>, result: FunctionResult)
    requires forall i :: 0 <= i < |xs| ==> OutcomeOf(s, e, xs[i]) == result
    ensures done.actionResults + Outcomes(s, e, xs) == DoneActions(done, xs, result).actionResults
  {
    hide OutcomeOf, DoneActions;
    DoneActionsShape(done, xs, result);
    var m, n := done.actionResults + Outcomes(s, e, xs), DoneActions(done, xs, result).actionResults;
    forall x ensures x in m <==> x in n
             ensures x in m && x in n ==> m[x] == n[x]
    {
      if x in xs {
        var i :| 0 <= i < |xs| && xs[i] == x;
      }
    }
  }

  lemma AscendingOne(id: nat)
    ensures Ascending({id}) == [id]
  {
    var xs := Ascending({id});
    assert |xs| == 1;
    assert xs[0] in xs;
  }

  lemma TransitionKeepsLedger(s: Client, e: Event, done: Completions)
    requires Scoped(s) && Inverse(s.reg) && LedgerOK(s.ledger, done)
    requires e.Receive? && e.message.Transition?
    ensures LedgerOK(Step(s, e).ledger, RecordCompletions(done, s, e, Step(s, e)))
  {
    hide LedgerOK, RecordCompletions, TransitionStep, CompleteMutations;
    var end := e.message.end;
    var t := TransitionStep(s, e.message.start, end, e.message.modifications).0;
    assert t == Step(s, e);
    TransitionFrame(s, e.message.start, end, e.message.modifications);
    var due := Due(s.ledger.requests, end.ts);
    var ids := Ascending(due);
    if t.ledger == s.ledger {
      NothingLeft(done, s, e, t);
    } else {
      assert forall i :: 0 <= i < |ids| ==> ids[i] in due;
      CompleteMutationsFrame(s.ledger, ids);
      assert Elements(ids) == due;
      MutationsLeft(done, s, e, t, due, ids, s.ledger.requests);
      CompletingMutations(s.ledger, done, ids);
    }
  }

  lemma FailureKeepsLedger(s: Client, e: Event, t: Client, done: Completions)
    requires LedgerOK(s.ledger, done) && e.Receive? && e.message.MutationResponse? && !e.message.response.success
    requires e.message.requestID in PendingOf(s.ledger.requests, MutationKind)
    requires t.ledger == CompleteMutation(Answer(s.ledger, e.message.requestID, e.message.response, e.message.ts),
      e.message.requestID)
    ensures LedgerOK(t.ledger, RecordCompletions(done, s, e, t))
  {
    hide LedgerOK, RecordCompletions, DoneMutation;
    var MutationResponse(id, response, ts) := e.message;
    var l := Answer(s.ledger, id, response, ts);
    Answering(s.ledger, done, id, response, ts);
    assert t.ledger.requests.Keys == s.ledger.requests.Keys - {id};
    AscendingOne(id);
    MutationsLeft(done, s, e, t, {id}, [id], l.requests);
    CompletingMutation(l, done, id, ResponseResult(response));
    OneDone(done, id, l.requests);
  }

  lemma MutationResponseKeepsLedger(s: Client, e: Event, done: Completions)
    requires Scoped(s) && Inverse(s.reg) && LedgerOK(s.ledger, done)
    requires e.Receive? && e.message.MutationResponse?
    ensures LedgerOK(Step(s, e).ledger, RecordCompletions(done, s, e, Step(s, e)))
  {
    hide LedgerOK, RecordCompletions, MutationResponseStep, CompleteMutation;
    var MutationResponse(id, response, ts) := e.message;
    var t := MutationResponseStep(s, id, response, ts).0;
    MutationResponseFrame(s, id, response, ts);
    if id in PendingOf(s.ledger.requests, MutationKind) && !response.success {
      FailureKeepsLedger(s, e, t, done);
    } else {
      NothingLeft(done, s, e, t);
      if id in PendingOf(s.ledger.requests, MutationKind) {
        Answering(s.ledger, done, id, response, ts);
      }
    }
  }

  lemma OneDone(done: Completions, id: RequestID, requests: Requests)
    requires id in requests && requests[id].result.Some?
    ensures DoneMutations(done, [id], requests) == DoneMutation(done, id, requests[id].result.value)
  {
    assert [id][..0] == [];
    assert DoneMutations(done, [], requests) == done;
  }

  lemma ActionResponseKeepsLedger(s: Client, e: Event, done: Completions)
    requires LedgerOK(s.ledger, done)
    requires e.Receive? && e.message.ActionResponse?
    ensures LedgerOK(Step(s, e).ledger, RecordCompletions(done, s, e, Step(s, e)))
  {
    var ActionResponse(id, response) := e.message;
    var t := ActionResponseStep(s, id, response).0;
    assert t == Step(s, e);
    if id !in s.ledger.requests || s.ledger.requests[id].kind != ActionKind {
      NothingLeft(done, s, e, t);
    } else {
      assert t.ledger.requests.Keys == s.ledger.requests.Keys - {id};
      var result := ResponseResult(response);
      AscendingOne(id);
      ActionsLeft(done, s, e, t, {id}, [id], result);
      CompletingAction(s.ledger, done, id, result);
      assert [id][..0] == [];
      assert DoneActions(done, [], result) == done;
      assert DoneActions(done, [id], result) == DoneAction(done, id, result);
    }
  }

  lemma RestartKeepsLedger(s: Client, e: Event, done: Completions)
    requires LedgerOK(s.ledger, done) && e.Restart?
    ensures LedgerOK(Step(s, e).ledger, RecordCompletions(done, s, e, Step(s, e)))
    ensures Step(s, e).ledger.requests == s.ledger.requests - PendingOf(s.ledger.requests, ActionKind)
  {
    hide LedgerOK, RecordCompletions, RestartStep, CancelActions;
    var t := RestartStep(s, e.fetched).0;
    assert t == Step(s, e);
    RestartFrame(s, e.fetched);
    var pending := PendingOf(s.ledger.requests, ActionKind);
    var ids := Ascending(pending);
    assert forall i :: 0 <= i < |ids| ==> ids[i] in pending;
    assert Elements(ids) == pending;
    CancelActionsFrame(s.ledger, ids);
    CancellingActions(s.ledger, done, ids);
    ActionsLeft(done, s, e, t, pending, ids, ErrorMessageResult(RECONNECT_ERROR));
  }

  lemma StepKeepsLedger(s: Client, e: Event, done: Completions)
    requires Scoped(s) && Inverse(s.reg) && LedgerOK(s.ledger, done)
    ensures LedgerOK(Step(s, e).ledger, RecordCompletions(done, s, e, Step(s, e)))
  {
    hide LedgerOK, RecordCompletions, Scoped, Inverse;
    match e
    case Mutate(path, args, update) =>
      NothingLeftAfterIssue(s, e, done);
    case Act(path, args) =>
      NothingLeftAfterIssue(s, e, done);
    case Receive(Transition(_, _, _)) => TransitionKeepsLedger(s, e, done);
    case Receive(MutationResponse(_, _, _)) => MutationResponseKeepsLedger(s, e, done);
    case Receive(ActionResponse(_, _)) => ActionResponseKeepsLedger(s, e, done);
    case Restart(fetched) => RestartKeepsLedger(s, e, done);
    case _ =>
      assert Step(s, e).ledger == s.ledger;
      NothingLeft(done, s, e, Step(s, e));
  }

  lemma NothingLeftAfterIssue(s: Client, e: Event, done: Completions)
    requires Scoped(s) && Inverse(s.reg) && LedgerOK(s.ledger, done) && (e.Mutate? || e.Act?)
    ensures LedgerOK(Step(s, e).ledger, RecordCompletions(done, s, e, Step(s, e)))
  {
    hide LedgerOK, RecordCompletions, CanonicalRequest, MutationStep;
    var key := CanonicalRequest(e.path, e.args);
    var id := s.ledger.nextRequestID;
    if key.Some? {
      var (path, args) := key.value;
      if e.Mutate? {
        MutationFrame(s, path, args, e.update);
        Issuing(s.ledger, done, Request(id, MutationKind, MutationRequest(id, path, args), e.update, None, None));
      } else {
        Issuing(s.ledger, done, Request(id, ActionKind, ActionRequest(id, path, args), None, None, None));
      }
    }
    NothingLeft(done, s, e, Step(s, e));
  }

  // ---- the session part ----

  lemma SubscribeKeepsSession(s: Client, k: QueryKey, popped: seq<ClientMessage>, complete: bool)
    requires Inverse(s.reg) && SessionPart(s, popped, complete)
    ensures SessionPart(SubscribeStep(s, k).0, popped, complete)
  {
    SubscribeView(s.reg, k);
    if k.token !in s.reg.queries {
      var m := Add(s.reg.nextQueryID, k.path, k.args);
      PushQuerySetNumbered(popped, s.link, [m]);
      if complete {
        PushQuerySetServed(popped, s.link, m, LocalView(s.reg), LocalView(RegSubscribe(s.reg, k).0),
                           PendingMessages(s.ledger.requests), s.ledger.nextRequestID);
      }
    }
  }

  lemma UnsubscribeKeepsSession(s: Client, id: SubscriberID, popped: seq<ClientMessage>, complete: bool)
    requires Inverse(s.reg) && SessionPart(s, popped, complete)
    ensures SessionPart(UnsubscribeStep(s, id).0, popped, complete)
  {
    UnsubscribeView(s.reg, id);
    if RegUnsubscribe(s.reg, id).1 == LastUnsubscribed {
      PushQuerySetNumbered(popped, s.link, [Remove(id.queryID)]);
      if complete {
        PushQuerySetServed(popped, s.link, Remove(id.queryID), LocalView(s.reg), LocalView(RegUnsubscribe(s.reg, id).0),
                           PendingMessages(s.ledger.requests), s.ledger.nextRequestID);
      }
    }
  }

  lemma QueueAuthKeepsSession(s: Client, token: AuthToken, popped: seq<ClientMessage>, complete: bool)
    requires SessionPart(s, popped, complete)
    ensures SessionPart(QueueAuthStep(s, token), popped, complete)
  {
    PushAuthNumbered(popped, s.link, token);
    if complete {
      PushAuthServed(popped, s.link, token, LocalView(s.reg), PendingMessages(s.ledger.requests),
        s.ledger.nextRequestID);
    }
  }

  lemma IssueKeepsSession(s: Client, t: Client, m: ClientMessage, r: Request, popped: seq<ClientMessage>,
      complete: bool)
    requires SessionPart(s, popped, complete)
    requires (m.MutationRequest? || m.ActionRequest?) && m.requestID == s.ledger.nextRequestID
    requires t.reg == s.reg && t.link == Push(s.link, m) && t.ledger.nextRequestID == s.ledger.nextRequestID + 1
    requires t.ledger.requests == s.ledger.requests[s.ledger.nextRequestID := r] && r.message == m
    ensures SessionPart(t, popped, complete)
  {
    PushRequestNumbered(popped, s.link, m);
    LogSnoc(popped, s.link.outgoing, m);
    if complete {
      PushRequestServed(popped + s.link.outgoing, m, LocalView(s.reg), PendingMessages(s.ledger.requests),
        s.ledger.nextRequestID);
      assert PendingMessages(t.ledger.requests) == PendingMessages(s.ledger.requests)[s.ledger.nextRequestID := m];
    }
  }

  /** Steps that queue nothing and at most complete requests. */
  lemma QuietKeepsSession(s: Client, t: Client, popped: seq<ClientMessage>, complete: bool)
    requires SessionPart(s, popped, complete)
    requires t.reg == s.reg && t.link == s.link.(remoteVersion := t.link.remoteVersion)
    requires t.ledger.nextRequestID == s.ledger.nextRequestID && FewerRequests(s.ledger.requests, t.ledger.requests)
    ensures SessionPart(t, popped, complete)
  {
  }

  lemma PopKeepsSession(s: Client, popped: seq<ClientMessage>, complete: bool)
    requires SessionPart(s, popped, complete) && s.link.outgoing != []
    ensures SessionPart(PopStep(s).0, popped + [s.link.outgoing[0]], complete)
    ensures popped + [s.link.outgoing[0]] + PopStep(s).0.link.outgoing == popped + s.link.outgoing
  {
    assert popped + [s.link.outgoing[0]] + s.link.outgoing[1..] == popped + s.link.outgoing;
  }

  /** A restart begins a new session; if it succeeds, the new session is complete. */
  lemma RestartBeginsSession(s: Client, fetched: Option<AuthToken>, done: Completions)
    requires Inverse(s.reg) && LedgerOK(s.ledger, done)
    ensures SessionPart(RestartStep(s, fetched).0, [], RestartStep(s, fetched).1)
  {
    hide LocalView, PendingMessages, Served, Numbered, LedgerOK, ClearSession, Replay;
    var s1 := ClearSession(s);
    ClearSessionFacts(s, done);
    EmptySession(s1);
    assert [] + s1.link.outgoing == s1.link.outgoing;
    if s1.authFetcher.None? {
      ReplayBeginsSession(s1);
    } else if Fetch(s1.authFetcher.value, fetched).Some? {
      var token := Fetch(s1.authFetcher.value, fetched).value;
      AuthSession(s1, token);
      ReplayBeginsSession(QueueAuthStep(s1, token));
    }
  }

  lemma ClearSessionFacts(s: Client, done: Completions)
    requires LedgerOK(s.ledger, done)
    ensures var s1 := ClearSession(s);
      && s1.reg == s.reg && s1.link == Link(0, 0, ZERO_VERSION, [])
      && RequestShapes(s1.ledger.requests, s1.ledger.nextRequestID)
      && forall id :: id in s1.ledger.requests ==> s1.ledger.requests[id].kind == MutationKind
  {
    var pending := PendingOf(s.ledger.requests, ActionKind);
    CancelActionsFrame(s.ledger, Ascending(pending));
    assert Elements(Ascending(pending)) == pending;
  }

  lemma ReplayBeginsSession(s: Client)
    requires Inverse(s.reg) && RequestShapes(s.ledger.requests, s.ledger.nextRequestID)
    requires forall id :: id in s.ledger.requests ==> s.ledger.requests[id].kind == MutationKind
    requires Numbered(s.link.outgoing, s.link) && Served(s.link.outgoing, map[], map[], 0)
    ensures SessionPart(Replay(s), [], true)
  {
    hide LocalView, PendingMessages, Served, Numbered;
    ReplayServed(s);
    ReplayFrame(s);
    assert [] + Replay(s).link.outgoing == Replay(s).link.outgoing;
  }

  lemma EmptySession(s1: Client)
    requires s1.link == Link(0, 0, ZERO_VERSION, [])
    ensures Numbered(s1.link.outgoing, s1.link) && Served(s1.link.outgoing, map[], map[], 0)
  {
  }

  lemma AuthSession(s1: Client, token: AuthToken)
    requires s1.link == Link(0, 0, ZERO_VERSION, [])
    ensures var t := QueueAuthStep(s1, token);
      Numbered(t.link.outgoing, t.link) && Served(t.link.outgoing, map[], map[], 0)
  {
    EmptySession(s1);
    var t := QueueAuthStep(s1, token);
    assert [] + s1.link.outgoing == s1.link.outgoing;
    assert [] + t.link.outgoing == t.link.outgoing;
    PushAuthNumbered([], s1.link, token);
    PushAuthServed([], s1.link, token, map[], map[], 0);
  }

  /** What a step other than a restart or a pop can do to the session. */
  datatype Effect =
    | Quiet                            // at most completes or answers requests
    | Subscribes(key: QueryKey)
    | Unsubscribes(id: SubscriberID)
    | Authenticates(token: AuthToken)
    | Issues(request: Request)

  ghost predicate HasEffect(s: Client, t: Client, f: Effect) {
    match f
    case Quiet =>
      && t.reg == s.reg && t.link == s.link.(remoteVersion := t.link.remoteVersion)
      && t.ledger.nextRequestID == s.ledger.nextRequestID
      && FewerRequests(s.ledger.requests, t.ledger.requests)
    case Subscribes(k) =>
      t.reg == RegSubscribe(s.reg, k).0 && t.link == SubscribeStep(s, k).0.link && t.ledger == s.ledger
    case Unsubscribes(id) =>
      t.reg == RegUnsubscribe(s.reg, id).0 && t.link == UnsubscribeStep(s, id).0.link && t.ledger == s.ledger
    case Authenticates(token) =>
      t.reg == s.reg && t.link == PushAuth(s.link, token) && t.ledger == s.ledger
    case Issues(r) =>
      && (r.message.MutationRequest? || r.message.ActionRequest?) && r.message.requestID == s.ledger.nextRequestID
      && t.reg == s.reg && t.link == Push(s.link, r.message)
      && t.ledger.nextRequestID == s.ledger.nextRequestID + 1
      && t.ledger.requests == s.ledger.requests[s.ledger.nextRequestID := r]
  }

  ghost predicate FewerRequests(before: Requests, after: Requests) {
    forall id :: id in after ==> id in before && after[id].message == before[id].message
  }

  lemma ReceiveIsQuiet(s: Client, m: ServerMessage)
    requires Scoped(s) && Inverse(s.reg)
    ensures HasEffect(s, ReceiveStep(s, m).0, Quiet)
  {
    hide TransitionStep, MutationResponseStep;
    var t := ReceiveStep(s, m).0;
    match m
    case Transition(start, end, ms) =>
      TransitionFrame(s, start, end, ms);
      if t.ledger != s.ledger {
        var ids := Ascending(Due(s.ledger.requests, end.ts));
        assert forall i :: 0 <= i < |ids| ==> ids[i] in Due(s.ledger.requests, end.ts);
        CompleteMutationsFrame(s.ledger, ids);
      }
    case MutationResponse(id, response, ts) =>
      MutationResponseFrame(s, id, response, ts);
      if id in s.ledger.requests {
        assert Answer(s.ledger, id, response, ts).requests.Keys == s.ledger.requests.Keys;
      }
    case _ =>
  }

  /** Every step other than a restart or a pop has one of these effects. */
  lemma StepEffect(s: Client, e: Event) returns (f: Effect)
    requires Scoped(s) && Inverse(s.reg) && !e.Restart? && !(e.Pop? && s.link.outgoing != [])
    ensures HasEffect(s, Step(s, e), f)
  {
    hide Scoped, Inverse, CanonicalQuery, CanonicalRequest, MutationStep, ReceiveStep;
    f := Quiet;
    match e
    case Subscribe(path, args) =>
      if CanonicalQuery(path, args).Some? {
        f := Subscribes(CanonicalQuery(path, args).value);
      }
    case Unsubscribe(id) => f := Unsubscribes(id);
    case Mutate(path, args, update) =>
      if CanonicalRequest(path, args).Some? {
        f := MutationEffect(s, CanonicalRequest(path, args).value.0, CanonicalRequest(path, args).value.1, update);
      }
    case Act(path, args) =>
      if CanonicalRequest(path, args).Some? {
        f := ActionEffect(s, CanonicalRequest(path, args).value.0, CanonicalRequest(path, args).value.1);
      }
    case Receive(message) => ReceiveIsQuiet(s, message);
    case SetAuth(token) => f := Authenticates(token);
    case ClearAuth => f := Authenticates(AuthToken(NoAuth, "", None));
    case SetAuthCallback(_, fetched) =>
      if fetched.Some? {
        f := Authenticates(fetched.value);
      }
    case RefreshAuth(fetched) =>
      if s.authFetcher.Some? && Fetch(s.authFetcher.value, fetched).Some? {
        f := Authenticates(Fetch(s.authFetcher.value, fetched).value);
      }
    case Pop =>
  }

  lemma MutationEffect(s: Client, path: string, args: seq<Value>, update: Option<Update>) returns (f: Effect)
    requires Scoped(s) && Inverse(s.reg)
    ensures HasEffect(s, MutationStep(s, path, args, update).0, f)
  {
    MutationFrame(s, path, args, update);
    var id := s.ledger.nextRequestID;
    f := if MutationStep(s, path, args, update).0 == s then Quiet
         else Issues(Request(id, MutationKind, MutationRequest(id, path, args), update, None, None));
  }

  lemma ActionEffect(s: Client, path: string, args: seq<Value>) returns (f: Effect)
    ensures HasEffect(s, ActionStep(s, path, args).0, f)
  {
    var id := s.ledger.nextRequestID;
    f := Issues(Request(id, ActionKind, ActionRequest(id, path, args), None, None, None));
  }

  lemma EffectKeepsSession(s: Client, t: Client, f: Effect, popped: seq<ClientMessage>, complete: bool)
    requires Inverse(s.reg) && SessionPart(s, popped, complete) && HasEffect(s, t, f)
    ensures SessionPart(t, popped, complete)
  {
    hide Inverse, RegSubscribe, RegUnsubscribe, Served, Numbered, LocalView;
    match f
    case Quiet => QuietKeepsSession(s, t, popped, complete);
    case Subscribes(k) => SubscribeKeepsSession(s, k, popped, complete);
    case Unsubscribes(id) => UnsubscribeKeepsSession(s, id, popped, complete);
    case Authenticates(token) => QueueAuthKeepsSession(s, token, popped, complete);
    case Issues(r) => IssueKeepsSession(s, t, r.message, r, popped, complete);
  }

  lemma StepKeepsSession(s: Client, e: Event, popped: seq<ClientMessage>, complete: bool)
    requires Scoped(s) && Inverse(s.reg) && SessionPart(s, popped, complete)
    requires !e.Restart? && !(e.Pop? && s.link.outgoing != [])
    ensures SessionPart(Step(s, e), popped, complete)
  {
    hide Step, SessionPart, HasEffect, Scoped, Inverse;
    var f := StepEffect(s, e);
    EffectKeepsSession(s, Step(s, e), f, popped, complete);
  }

  // ---- every run ----

  lemma StartInv(configuredLimit: int)
    ensures Inv(Start(configuredLimit))
  {
    hide RegistryPart, LedgerOK, SessionPart;
    StartParts(configuredLimit);
  }

  lemma StartParts(configuredLimit: int)
    ensures var w := Start(configuredLimit);
      && RegistryPart(w.client, {}) && LedgerOK(w.client.ledger, NOTHING_COMPLETED) && SessionPart(w.client, [], true)
  {
    var w := Start(configuredLimit);
    assert RegistryPart(w.client, {});
    StartLedger(configuredLimit);
    assert [] + w.client.link.outgoing == [];
    assert LocalView(w.client.reg) == map[] && PendingMessages(w.client.ledger.requests) == map[];
  }

  lemma StartLedger(configuredLimit: int)
    ensures LedgerOK(New(configuredLimit).ledger, NOTHING_COMPLETED)
  {
  }

  lemma StepKeepsRemote(s: Client, e: Event)
    requires Scoped(s) && Inverse(s.reg) && !e.Restart? && !(e.Receive? && e.message.Transition?)
    ensures Step(s, e).link.remoteVersion == s.link.remoteVersion
  {
    hide Scoped, Inverse, CanonicalQuery, CanonicalRequest, MutationStep, MutationResponseStep, RegSubscribe;
    hide RegUnsubscribe, NormalizeToken;
    match e
    case Receive(MutationResponse(id, response, ts)) => MutationResponseFrame(s, id, response, ts);
    case Mutate(path, args, update) =>
      if CanonicalRequest(path, args).Some? {
        MutationFrame(s, CanonicalRequest(path, args).value.0, CanonicalRequest(path, args).value.1, update);
      }
    case _ =>
  }

  lemma RestartIsStep(s: Client, fetched: Option<AuthToken>)
    ensures Step(s, Restart(fetched)) == RestartStep(s, fetched).0
  {
    hide RestartStep;
  }

  lemma TransitionIsStep(s: Client, start: StateVersion, end: StateVersion, ms: seq<StateModification>)
    ensures Step(s, Receive(Transition(start, end, ms))) == TransitionStep(s, start, end, ms).0
  {
    hide TransitionStep;
  }

  lemma PopIsStep(s: Client)
    ensures Step(s, Pop) == PopStep(s).0
  {
  }

  lemma RemoteVersionKept(w: World, e: Event)
    requires Scoped(w.client) && Inverse(w.client.reg)
    requires w.history.transitions == 0 ==> w.client.link.remoteVersion == ZERO_VERSION
    ensures Next(w, e).history.transitions == 0 ==> Next(w, e).client.link.remoteVersion == ZERO_VERSION
  {
    hide Step, RestartStep, TransitionStep, RecordCompletions, Scoped, Inverse;
    if e.Receive? && e.message.Transition? {
      TransitionFrame(w.client, e.message.start, e.message.end, e.message.modifications);
      TransitionIsStep(w.client, e.message.start, e.message.end, e.message.modifications);
    } else if e.Restart? {
      RestartFrame(w.client, e.fetched);
      RestartIsStep(w.client, e.fetched);
    } else {
      StepKeepsRemote(w.client, e);
    }
  }

  lemma NextSession(w: World, e: Event)
    requires Scoped(w.client) && Inverse(w.client.reg) && LedgerOK(w.client.ledger, w.history.done)
    requires SessionPart(w.client, w.history.popped, w.history.complete)
    ensures SessionPart(Next(w, e).client, Next(w, e).history.popped, Next(w, e).history.complete)
  {
    hide Step, RestartStep, RecordCompletions, Scoped, Inverse, LedgerOK, SessionPart;
    var s, h := w.client, w.history;
    if e.Restart? {
      RestartBeginsSession(s, e.fetched, h.done);
      RestartIsStep(s, e.fetched);
    } else if e.Pop? && s.link.outgoing != [] {
      PopKeepsSession(s, h.popped, h.complete);
      PopIsStep(s);
    } else {
      StepKeepsSession(s, e, h.popped, h.complete);
    }
  }

  lemma NextInv(w: World, e: Event)
    requires Inv(w)
    ensures Inv(Next(w, e))
  {
    hide Step, RestartStep, RecordCompletions, Scoped, Inverse, LedgerOK, SessionPart, Counted, Keyed, Issued;
    var s, h := w.client, w.history;
    StepKeepsRegistry(s, e, h.issued);
    StepKeepsLedger(s, e, h.done);
    RemoteVersionKept(w, e);
    NextSession(w, e);
  }

  /** Every reachable world satisfies the invariant. */
  lemma {:induction false} RunInv(configuredLimit: int, events: seq<Event>)
    ensures Inv(Run(configuredLimit, events))
  {
    if events == [] {
      StartInv(configuredLimit);
    } else {
      RunInv(configuredLimit, events[..|events| - 1]);
      NextInv(Run(configuredLimit, events[..|events| - 1]), events[|events| - 1]);
    }
  }
}

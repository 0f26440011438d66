/** Exactly when the server's view and the client's agree.

    A restart that fails on auth has already emptied the session and leaves it so: what the
    server will learn from then on lacks the queries and mutations of before.  This module
    says in which runs that matters. */
module AgreementTheorems {
  import opened Prelude
  import opened Orders
  import opened Values
  import opened Paths
  import opened Spellings
  import opened Canonical
  import opened Protocol
  import opened Optimistic
  import opened ClientSteps
  import opened Sessions
  import opened RegistryInvariant
  import opened LedgerInvariant
  import opened SessionInvariant
  import opened ClientRuns
  import opened ClientTheorems
  import opened RestartTheorems

  // ---- logs that know nothing of the past ----

  predicate AddsAbove(ms: seq<QuerySetModification>, q: QueryID) {
    forall j :: 0 <= j < |ms| && ms[j].Add? ==> ms[j].queryID >= q
  }

  /** The message adds no query below q and makes no request below r. */
  predicate MessageAbove(m: ClientMessage, q: QueryID, r: RequestID) {
    match m
    case ModifyQuerySet(_, _, ms) => AddsAbove(ms, q)
    case Authenticate(_, _) => true
    case MutationRequest(id, _, _) => id >= r
    case ActionRequest(id, _, _) => id >= r
  }

  predicate LogAbove(log: seq<ClientMessage>, q: QueryID, r: RequestID) {
    forall i :: 0 <= i < |log| ==> MessageAbove(log[i], q, r)
  }

  predicate MessageRemoves(m: ClientMessage, id: QueryID) {
    m.ModifyQuerySet? && Remove(id) in m.modifications
  }

  predicate Removes(log: seq<ClientMessage>, id: QueryID) {
    exists i :: 0 <= i < |log| && MessageRemoves(log[i], id)
  }

  lemma {:induction false} ModificationsAbove(view: View, ms: seq<QuerySetModification>, q: QueryID)
    requires AddsAbove(ms, q) && ServeModifications(view, ms).Some? && forall id :: id in view ==> id >= q
    ensures forall id :: id in ServeModifications(view, ms).value ==> id >= q
    ensures forall id: QueryID :: Remove(id) in ms ==> id >= q
  {
    if ms != [] {
      var n := |ms| - 1;
      ModificationsAbove(view, ms[..n], q);
      forall id: QueryID | Remove(id) in ms ensures id >= q {
        if Remove(id) !in ms[..n] {
          assert ms[n] == Remove(id);
        }
      }
    }
  }

  /** A server that accepts such a log has only later queries and requests, and was never
      asked to remove an earlier query. */
  lemma {:induction false} ServedAbove(log: seq<ClientMessage>, q: QueryID, r: RequestID)
    requires LogAbove(log, q, r) && ServeAll(log).Some?
    ensures forall id :: id in ServeAll(log).value.view ==> id >= q
    ensures forall id :: id in ServeAll(log).value.seen ==> id >= r
    ensures forall id: QueryID :: Removes(log, id) ==> id >= q
  {
    if log != [] {
      var n := |log| - 1;
      ServedAbove(log[..n], q, r);
      var m := log[n];
      assert MessageAbove(m, q, r);
      if m.ModifyQuerySet? {
        ModificationsAbove(ServeAll(log[..n]).value.view, m.modifications, q);
      }
      forall id: QueryID | Removes(log, id) ensures id >= q {
        var i :| 0 <= i < |log| && MessageRemoves(log[i], id);
        if i < n {
          assert MessageRemoves(log[..n][i], id);
          assert Removes(log[..n], id);
        }
      }
    }
  }

  // ---- what a step adds to the log ----

  ghost function Appended(s: Client, f: Effect): seq<ClientMessage> {
    var q := s.link.querySetVersion;
    match f
    case Quiet => []
    case Subscribes(k) =>
      if k.token in s.reg.queries then [] else [ModifyQuerySet(q, q + 1, [Add(s.reg.nextQueryID, k.path, k.args)])]
    case Unsubscribes(id) =>
      if RegUnsubscribe(s.reg, id).1 == LastUnsubscribed then [ModifyQuerySet(q, q + 1, [Remove(id.queryID)])] else []
    case Authenticates(token) => [Authenticate(s.link.identityVersion, NormalizeToken(token))]
    case Issues(r) => [r.message]
  }

  /** A step adds only new queries and requests, and a query leaves the registry only with
      its removal on the log. */
  lemma EffectAppends(s: Client, t: Client, f: Effect)
    requires HasEffect(s, t, f)
    ensures t.link.outgoing == s.link.outgoing + Appended(s, f)
    ensures LogAbove(Appended(s, f), s.reg.nextQueryID, s.ledger.nextRequestID)
    ensures s.reg.nextQueryID <= t.reg.nextQueryID && s.ledger.nextRequestID <= t.ledger.nextRequestID
    ensures forall id :: id in s.reg.queryIDToToken && id !in t.reg.queryIDToToken ==> Removes(Appended(s, f), id)
  {
    hide NormalizeToken;
    if f.Unsubscribes? && RegUnsubscribe(s.reg, f.id).1 == LastUnsubscribed {
      assert MessageRemoves(Appended(s, f)[0], f.id.queryID);
    }
  }

  // ---- the stretch after a failed restart ----

  /** The client without the requests that were pending when the session was emptied. */
  ghost function Without(s: Client, gone: set<RequestID>): Client {
    s.(ledger := s.ledger.(requests := s.ledger.requests - gone))
  }

  lemma EffectWithout(s: Client, t: Client, f: Effect, gone: set<RequestID>)
    requires HasEffect(s, t, f) && forall id :: id in gone ==> id < s.ledger.nextRequestID
    ensures HasEffect(Without(s, gone), Without(t, gone), f)
  {
    hide RegSubscribe, RegUnsubscribe, NormalizeToken;
    if f.Issues? {
      assert t.ledger.requests - gone == (s.ledger.requests - gone)[s.ledger.nextRequestID := f.request];
    }
  }

  /** What holds at w since a restart failed at s: the log knows nothing of the queries and
      mutations of s, and if s had no queries it covers everything else. */
  ghost predicate Emptied(s: Client, w: World) {
    && s.reg.nextQueryID <= w.client.reg.nextQueryID
    && s.ledger.nextRequestID <= w.client.ledger.nextRequestID
    && LogAbove(Log(w), s.reg.nextQueryID, s.ledger.nextRequestID)
    && (forall id :: id in s.reg.queryIDToToken ==> id in w.client.reg.queryIDToToken || Removes(Log(w), id))
    && (s.reg.queryIDToToken == map[] ==>
          SessionPart(Without(w.client, PendingOf(s.ledger.requests, MutationKind)), w.history.popped, true))
  }

  lemma AppendKeepsLog(log: seq<ClientMessage>, tail: seq<ClientMessage>, q: QueryID, r: RequestID, q': QueryID,
      r': RequestID)
    requires LogAbove(log, q, r) && LogAbove(tail, q', r') && q <= q' && r <= r'
    ensures LogAbove(log + tail, q, r)
    ensures forall id :: Removes(log, id) || Removes(tail, id) ==> Removes(log + tail, id)
  {
    forall id | Removes(log, id) || Removes(tail, id) ensures Removes(log + tail, id) {
      if Removes(log, id) {
        var i :| 0 <= i < |log| && MessageRemoves(log[i], id);
        assert MessageRemoves((log + tail)[i], id);
      } else {
        var i :| 0 <= i < |tail| && MessageRemoves(tail[i], id);
        assert MessageRemoves((log + tail)[|log| + i], id);
      }
    }
    forall i | 0 <= i < |log + tail| ensures MessageAbove((log + tail)[i], q, r) {
      if i >= |log| {
        assert MessageAbove(tail[i - |log|], q', r');
      }
    }
  }

  lemma EffectKeepsEmptied(s: Client, w: World, w': World, f: Effect)
    requires Emptied(s, w) && HasEffect(w.client, w'.client, f) && Inverse(w.client.reg)
    requires w'.history.popped == w.history.popped
    requires forall id :: id in PendingOf(s.ledger.requests, MutationKind) ==> id < s.ledger.nextRequestID
    ensures Emptied(s, w')
  {
    hide HasEffect, MessageAbove, Appended, Inverse, SessionPart, Removes, LogAbove;
    var t, gone := w'.client, PendingOf(s.ledger.requests, MutationKind);
    var tail := Appended(w.client, f);
    EffectAppends(w.client, t, f);
    AppendKeepsLog(Log(w), tail, s.reg.nextQueryID, s.ledger.nextRequestID,
                   w.client.reg.nextQueryID, w.client.ledger.nextRequestID);
    assert w.history.popped + (w.client.link.outgoing + tail) == Log(w) + tail;
    EffectWithout(w.client, t, f, gone);
    if s.reg.queryIDToToken == map[] {
      EffectKeepsSession(Without(w.client, gone), Without(t, gone), f, w.history.popped, true);
    }
  }

  lemma PopKeepsEmptied(s: Client, w: World)
    requires Emptied(s, w) && w.client.link.outgoing != []
    ensures Emptied(s, Next(w, Pop))
  {
    hide LogAbove, Removes, SessionPart, RecordCompletions, RestartStep;
    PopKeepsLog(w);
    if s.reg.queryIDToToken == map[] {
      var c := Without(w.client, PendingOf(s.ledger.requests, MutationKind));
      PopKeepsSession(c, w.history.popped, true);
    }
  }

  lemma NextParts(w: World, e: Event)
    requires !e.Restart? && !(e.Pop? && w.client.link.outgoing != [])
    ensures Next(w, e).client == Step(w.client, e) && Next(w, e).history.popped == w.history.popped
  {
    hide Step, RecordCompletions, RestartStep;
  }

  lemma StepKeepsEmptied(s: Client, w: World, e: Event)
    requires Inv(w) && Emptied(s, w) && !e.Restart?
    requires forall id :: id in PendingOf(s.ledger.requests, MutationKind) ==> id < s.ledger.nextRequestID
    ensures Emptied(s, Next(w, e))
  {
    hide Inv, Next, Step, HasEffect, Emptied, Scoped, Inverse, LedgerOK;
    if e.Pop? && w.client.link.outgoing != [] {
      PopKeepsEmptied(s, w);
    } else {
      StepInvParts(w);
      var f := StepEffect(w.client, e);
      NextParts(w, e);
      EffectKeepsEmptied(s, w, Next(w, e), f);
    }
  }

  lemma FailedRestartEmpties(w: World, fetched: Option<AuthToken>)
    requires Inv(w) && !RestartStep(w.client, fetched).1
    ensures Emptied(w.client, Next(w, Restart(fetched)))
  {
    hide Inv, Next, RestartStep, SessionPart, LedgerOK, ClearSession, LocalView, LogAbove, Removes;
    var s := w.client;
    StepInvParts(w);
    NextRestart(w, fetched);
    RestartOutcome(s, fetched);
    ClearSessionFacts(s, w.history.done);
    OnlyMutationsLeft(s);
    NoQueriesNoView(s.reg);
    var w' := Next(w, Restart(fetched));
    assert Log(w') == [];
    NothingLogged(s.reg.nextQueryID, s.ledger.nextRequestID);
    if s.reg.queryIDToToken == map[] {
      NothingToServe(w'.client, PendingOf(s.ledger.requests, MutationKind));
    }
  }

  lemma NothingLogged(q: QueryID, r: RequestID)
    ensures LogAbove([], q, r)
  {
  }

  lemma NothingToServe(t: Client, gone: set<RequestID>)
    requires t.link == Link(0, 0, ZERO_VERSION, []) && LocalView(t.reg) == map[]
    requires t.ledger.requests - gone == map[]
    ensures SessionPart(Without(t, gone), [], true)
  {
    hide LocalView;
    EmptySession(t);
    assert [] + t.link.outgoing == [];
    assert PendingMessages(Without(t, gone).ledger.requests) == map[];
  }

  lemma OnlyMutationsLeft(s: Client)
    ensures ClearSession(s).ledger.requests - PendingOf(s.ledger.requests, MutationKind) == map[]
    ensures ClearSession(s).ledger.nextRequestID == s.ledger.nextRequestID
  {
    var pending := PendingOf(s.ledger.requests, ActionKind);
    CancelActionsFrame(s.ledger, Ascending(pending));
    assert Elements(Ascending(pending)) == pending;
  }

  lemma NoQueriesNoView(r: Reg)
    requires Inverse(r)
    ensures r.queryIDToToken == map[] <==> LocalView(r) == map[]
    ensures LocalView(r).Keys == r.queryIDToToken.Keys
  {
    assert LocalView(r).Keys == r.queryIDToToken.Keys;
  }

  // ---- agreement, exactly ----

  /** After a failed restart at s, agreement returns only if s had no queries, and not before
      every mutation pending at s is completed. */
  ghost predicate NothingMissing(s: Client, t: Client) {
    && LocalView(s.reg) == map[]
    && forall id :: id in PendingOf(s.ledger.requests, MutationKind) ==> id !in t.ledger.requests
  }

  lemma MissingQuery(s: Client, w: World, id: QueryID)
    requires Inverse(s.reg) && Inverse(w.client.reg) && Emptied(s, w) && id in s.reg.queryIDToToken
    ensures !Agrees(w)
  {
    NoQueriesNoView(w.client.reg);
    if ServeAll(Log(w)).Some? {
      ServedAbove(Log(w), s.reg.nextQueryID, s.ledger.nextRequestID);
    }
  }

  lemma MissingMutation(s: Client, w: World, id: RequestID)
    requires Emptied(s, w) && id < s.ledger.nextRequestID && id in w.client.ledger.requests
    ensures !Agrees(w)
  {
    assert id in PendingMessages(w.client.ledger.requests);
    if ServeAll(Log(w)).Some? {
      ServedAbove(Log(w), s.reg.nextQueryID, s.ledger.nextRequestID);
    }
  }

  lemma NothingMissingAgrees(s: Client, w: World)
    requires Emptied(s, w) && s.reg.queryIDToToken == map[] && NothingMissing(s, w.client)
    ensures Agrees(w)
  {
    hide LocalView, PendingMessages;
    var gone := PendingOf(s.ledger.requests, MutationKind);
    assert w.client.ledger.requests - gone == w.client.ledger.requests;
    assert Without(w.client, gone) == w.client;
    ServedVersions(Log(w));
  }

  lemma EmptiedAgreement(s: Client, w: World)
    requires Inverse(s.reg) && Inverse(w.client.reg) && Emptied(s, w)
    requires forall id :: id in PendingOf(s.ledger.requests, MutationKind) ==> id < s.ledger.nextRequestID
    ensures Agrees(w) <==> NothingMissing(s, w.client)
  {
    hide Agrees, Emptied, LocalView, Inverse;
    NoQueriesNoView(s.reg);
    if s.reg.queryIDToToken != map[] {
      var id :| id in s.reg.queryIDToToken;
      MissingQuery(s, w, id);
    } else if NothingMissing(s, w.client) {
      NothingMissingAgrees(s, w);
    } else {
      var id :| id in PendingOf(s.ledger.requests, MutationKind) && id in w.client.ledger.requests;
      MissingMutation(s, w, id);
    }
  }

  /** The position of the last restart of a run, -1 if there is none. */
  function LastRestart(events: seq<Event>): (k: int)
    ensures -1 <= k < |events|
    ensures k >= 0 ==> events[k].Restart?
    ensures forall j :: k < j < |events| ==> !events[j].Restart?
  {
    if events == [] then -1
    else if events[|events| - 1].Restart? then |events| - 1
    else
      var k := LastRestart(events[..|events| - 1]);
      assert forall j :: k < j < |events| - 1 ==> events[..|events| - 1][j] == events[j];
      k
  }

  /** Whether a restart with this answer from the fetcher can succeed. */
  predicate AuthAvailable(s: Client, fetched: Option<AuthToken>) {
    s.authFetcher.None? || Fetch(s.authFetcher.value, fetched).Some?
  }

  lemma {:induction false} EmptiedSince(configuredLimit: int, events: seq<Event>, k: nat)
    requires k < |events| && events[k].Restart? && forall j :: k < j < |events| ==> !events[j].Restart?
    requires !RestartStep(Run(configuredLimit, events[..k]).client, events[k].fetched).1
    ensures Emptied(Run(configuredLimit, events[..k]).client, Run(configuredLimit, events))
  {
    hide Run, RestartStep, Emptied, Inv, Next;
    var n := |events| - 1;
    RunSnoc(configuredLimit, events, n);
    assert events[..n + 1] == events;
    RunInv(configuredLimit, events[..n]);
    if k == n {
      FailedRestartEmpties(Run(configuredLimit, events[..n]), events[n].fetched);
    } else {
      assert events[..n][..k] == events[..k];
      EmptiedSince(configuredLimit, events[..n], k);
      PendingBelowNext(configuredLimit, events[..k]);
      StepKeepsEmptied(Run(configuredLimit, events[..k]).client, Run(configuredLimit, events[..n]), events[n]);
    }
  }

  lemma PendingBelowNext(configuredLimit: int, events: seq<Event>)
    ensures var s := Run(configuredLimit, events).client;
      && Inverse(s.reg)
      && forall id :: id in PendingOf(s.ledger.requests, MutationKind) ==> id < s.ledger.nextRequestID
  {
    hide Run;
    RunInv(configuredLimit, events);
    StepInvParts(Run(configuredLimit, events));
  }

  lemma {:induction false} CompleteSince(configuredLimit: int, events: seq<Event>)
    ensures var k := LastRestart(events);
      Run(configuredLimit, events).history.complete ==
        (k < 0 || RestartStep(Run(configuredLimit, events[..k]).client, events[k].fetched).1)
  {
    hide RestartStep, RecordCompletions, Step;
    if events != [] {
      var n := |events| - 1;
      CompleteSince(configuredLimit, events[..n]);
      var k := LastRestart(events[..n]);
      assert k >= 0 ==> events[..n][..k] == events[..k];
    }
  }

  /** In every run, the server's view and the client's agree exactly when there was no restart,
      or the last one succeeded, or it failed on a client without queries and every mutation
      pending then has completed since. */
  lemma AgreementExactly(configuredLimit: int, events: seq<Event>)
    ensures var k := LastRestart(events);
      Agrees(Run(configuredLimit, events)) <==>
        k < 0 ||
        var s := Run(configuredLimit, events[..k]).client;
        AuthAvailable(s, events[k].fetched) || NothingMissing(s, Run(configuredLimit, events).client)
  {
    hide Run, RestartStep, Emptied, Agrees, NothingMissing, Inverse;
    var w := Run(configuredLimit, events);
    var k := LastRestart(events);
    CompleteSince(configuredLimit, events);
    ServerViewAgreement(configuredLimit, events);
    if k >= 0 {
      var s := Run(configuredLimit, events[..k]).client;
      RestartOutcome(s, events[k].fetched);
      if !AuthAvailable(s, events[k].fetched) {
        EmptiedSince(configuredLimit, events, k);
        PendingBelowNext(configuredLimit, events[..k]);
        PendingBelowNext(configuredLimit, events);
        EmptiedAgreement(s, w);
      }
    }
  }

  /** Right after a restart: agreement holds exactly when the token could be refreshed, or
      there was nothing to rebuild. */
  lemma RestartAgreement(configuredLimit: int, events: seq<Event>, fetched: Option<AuthToken>)
    ensures var s := Run(configuredLimit, events).client;
      Agrees(Run(configuredLimit, events + [Restart(fetched)])) <==>
        || AuthAvailable(s, fetched)
        || (LocalView(s.reg) == map[] && PendingOf(s.ledger.requests, MutationKind) == {})
  {
    hide Run, Next, RestartStep, Agrees, AuthAvailable, LocalView, LastRestart, NothingMissing, PendingOf;
    var s := Run(configuredLimit, events).client;
    var all := events + [Restart(fetched)];
    assert all[..|events|] == events && all[..|all|] == all;
    assert all[|events|].Restart?;
    assert LastRestart(all) == |events|;
    AgreementExactly(configuredLimit, all);
    RunSnoc(configuredLimit, all, |events|);
    NextRestart(Run(configuredLimit, events), fetched);
    RestartCancels(s, fetched);
    MutationsStay(s, Run(configuredLimit, all).client);
  }

  lemma MutationsStay(s: Client, t: Client)
    requires t.ledger.requests == s.ledger.requests - PendingOf(s.ledger.requests, ActionKind)
    ensures NothingMissing(s, t) <==> LocalView(s.reg) == map[] && PendingOf(s.ledger.requests, MutationKind) == {}
  {
    hide LocalView;
    assert forall id :: id in PendingOf(s.ledger.requests, MutationKind) ==> id in t.ledger.requests;
  }

  /** One subscription, and a callback that answers once. */
  ghost function ExampleEvents(token: AuthToken): seq<Event> {
    [Subscribe("a:list", GoNil), SetAuthCallback(0, Some(token))]
  }

  lemma ExampleQueryIsAccepted()
    ensures CanonicalQuery("a:list", GoNil).Some?
  {
    hide CanonicalQueryPath, ArgValue, CanonicalQuery;
    ExampleIsDotFree();
    SpellingsCollapse(["a"], "list", Colon);
    assert Spell(["a"], "list", Colon) == "a:list";
    NoArguments();
    CanonicalQueryShape("a:list", GoNil);
  }

  lemma ExampleState(configuredLimit: int, token: AuthToken)
    ensures var s := Run(configuredLimit, ExampleEvents(token)).client;
      0 in s.reg.queryIDToToken && s.authFetcher == Some(Callback(0))
  {
    hide CanonicalQuery, RecordCompletions, NormalizeToken;
    ExampleQueryIsAccepted();
    var es := ExampleEvents(token);
    assert es[..1] == [es[0]] && es[..1][..0] == [];
    assert Run(configuredLimit, []).client == New(configuredLimit);
    var w := Run(configuredLimit, es[..1]);
    assert w.client.reg == RegSubscribe(New(configuredLimit).reg, CanonicalQuery("a:list", GoNil).value).0;
    assert Run(configuredLimit, es) == Next(w, es[1]);
  }

  /** A failing run: with one subscription, a restart whose fetcher fails leaves a session
      from which the server never learns that query, not even that it was dropped. */
  lemma FailedRestartExample(configuredLimit: int, token: AuthToken)
    ensures var events := ExampleEvents(token) + [Restart(None)];
      && !Agrees(Run(configuredLimit, events))
      && !Agrees(Run(configuredLimit, events + [Unsubscribe(SubscriberID(0, 1))]))
  {
    hide Run, Agrees, LocalView, LastRestart;
    var before := ExampleEvents(token);
    var s := Run(configuredLimit, before).client;
    ExampleState(configuredLimit, token);
    PendingBelowNext(configuredLimit, before);
    NoQueriesNoView(s.reg);
    RestartAgreement(configuredLimit, before, None);
    var events := before + [Restart(None)] + [Unsubscribe(SubscriberID(0, 1))];
    assert events[2].Restart? && !events[3].Restart? && LastRestart(events) == 2;
    assert events[..2] == before;
    AgreementExactly(configuredLimit, events);
  }
}

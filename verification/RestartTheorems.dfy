/** What reconnecting rebuilds. */
module RestartTheorems {
  import opened Prelude
  import opened Orders
  import opened Values
  import opened Protocol
  import opened Optimistic
  import opened ClientSteps
  import opened Sessions
  import opened RegistryInvariant
  import opened LedgerInvariant
  import opened SessionInvariant
  import opened ClientRuns
  import opened ClientTheorems

  /** The messages of a rebuilt session: auth if a fetcher is set, one batch of Adds for all
      active queries by increasing id if there are any, then the pending mutations. */
  ghost function RebuiltQueue(view: View, auth: Option<AuthToken>, mutations: seq<ClientMessage>): seq<ClientMessage> {
    (match auth case None => [] case Some(token) => [Authenticate(0, NormalizeToken(token))])
    + (if view == map[] then [] else [ModifyQuerySet(0, 1, AddsOf(view, Ascending(view.Keys)))])
    + mutations
  }

  ghost function RefreshedToken(s: Client, fetched: Option<AuthToken>): Option<AuthToken> {
    match s.authFetcher
    case None => None
    case Some(f) => Fetch(f, fetched)
  }

  /** A restart succeeds unless the fetcher fails; then only the emptied session remains. */
  lemma RestartOutcome(s: Client, fetched: Option<AuthToken>)
    ensures var (t, ok) := RestartStep(s, fetched);
      && (ok <==> s.authFetcher.None? || RefreshedToken(s, fetched).Some?)
      && (!ok ==> t == ClearSession(s))
  {
    hide Replay;
    assert ClearSession(s).authFetcher == s.authFetcher;
  }

  lemma ReplayLink(s: Client)
    ensures var adds := ReplayAdds(s.reg.queries);
      Replay(s).link.outgoing == s.link.outgoing
        + (if adds == [] then [] else [ModifyQuerySet(s.link.querySetVersion, s.link.querySetVersion + 1, adds)])
        + ReplayMessages(s.ledger.requests)
  {
    hide ReplayAdds, ReplayMessages;
    assert s.link.outgoing + [] == s.link.outgoing;
  }

  lemma AddsForView(r: Reg)
    requires Inverse(r)
    ensures LocalView(r).Keys == r.queryIDToToken.Keys
    ensures ReplayAdds(r.queries) == AddsOf(LocalView(r), Ascending(LocalView(r).Keys))
    ensures ReplayAdds(r.queries) == [] <==> LocalView(r) == map[]
  {
    ReplayAddsAre(r);
    assert LocalView(r).Keys == r.queryIDToToken.Keys;
    var ids := Ascending(LocalView(r).Keys);
    assert |AddsOf(LocalView(r), ids)| == |ids| == |LocalView(r).Keys|;
  }

  /** The link a restart builds. */
  lemma RestartLink(s: Client, fetched: Option<AuthToken>)
    requires Inverse(s.reg) && RestartStep(s, fetched).1
    ensures RestartStep(s, fetched).0.link.outgoing ==
            RebuiltQueue(LocalView(s.reg), RefreshedToken(s, fetched), ReplayMessages(ClearSession(s).ledger.requests))
  {
    hide Replay, ReplayMessages, ReplayAdds, LocalView, CancelActions;
    AddsForView(s.reg);
    var s1 := ClearSession(s);
    assert s1.link == Link(0, 0, ZERO_VERSION, []) && s1.reg == s.reg && s1.authFetcher == s.authFetcher;
    if s.authFetcher.None? {
      ReplayLink(s1);
    } else {
      var s2 := QueueAuthStep(s1, RefreshedToken(s, fetched).value);
      assert s2.link.outgoing == [Authenticate(0, NormalizeToken(RefreshedToken(s, fetched).value))];
      ReplayLink(s2);
    }
  }

  /** The queue after a successful restart, exactly; and what a restart leaves alone. */
  lemma RestartQueue(s: Client, fetched: Option<AuthToken>)
    requires Inverse(s.reg) && RestartStep(s, fetched).1
    ensures var t := RestartStep(s, fetched).0;
      && t.link.outgoing == RebuiltQueue(LocalView(s.reg), RefreshedToken(s, fetched),
          ReplayMessages(t.ledger.requests))
      && t.link.remoteVersion == ZERO_VERSION
      && t.ledger.requests == s.ledger.requests - PendingOf(s.ledger.requests, ActionKind)
      && t == s.(link := t.link, ledger := t.ledger)
  {
    hide RestartStep, ReplayMessages, LocalView, RebuiltQueue;
    RestartFrame(s, fetched);
    RestartCancels(s, fetched);
    RestartLink(s, fetched);
    assert ClearSession(s).ledger == RestartStep(s, fetched).0.ledger;
  }

  lemma RestartCancels(s: Client, fetched: Option<AuthToken>)
    ensures RestartStep(s, fetched).0.ledger.requests == s.ledger.requests - PendingOf(s.ledger.requests, ActionKind)
    ensures PendingOf(RestartStep(s, fetched).0.ledger.requests, ActionKind) == {}
  {
    hide RestartStep;
    var pending := PendingOf(s.ledger.requests, ActionKind);
    RestartFrame(s, fetched);
    CancelActionsFrame(s.ledger, Ascending(pending));
    assert Elements(Ascending(pending)) == pending;
  }

  /** The replayed mutations: every pending mutation once, and in the only sequence that the
      comparator allows, whatever order the pending map was walked in. */
  lemma ReplayIsTheOnlyOrder(requests: Requests, next: nat, xs: seq<ReplayKey>)
    requires RequestShapes(requests, next)
    ensures Distinct(ReplayIds(requests)) && Elements(ReplayIds(requests)) == PendingOf(requests, MutationKind)
    ensures SortOf(xs, ReplayKeys(requests), ReplayBefore) ==> xs == ReplayOrder(requests)
  {
    ReplayIdsOnce(requests, next);
    ReplayBeforeTotal();
    if SortOf(xs, ReplayKeys(requests), ReplayBefore) {
      SortUnique(xs, ReplayOrder(requests), ReplayKeys(requests), ReplayBefore);
    }
  }

  /** Mutation a is replayed before mutation b: answered ones first, the latest commit first,
      and otherwise in the order they were issued. */
  predicate ReplayedBefore(a: Request, b: Request) {
    match (a.ts, b.ts)
    case (Some(x), Some(y)) => x > y || (x == y && a.id < b.id)
    case (Some(_), None) => true
    case (None, Some(_)) => false
    case (None, None) => a.id < b.id
  }

  /** The replay in plain terms: the messages of the pending mutations, once each, in that order. */
  lemma ReplayInPlainTerms(requests: Requests, next: nat)
    requires RequestShapes(requests, next)
    ensures var ms := ReplayMessages(requests);
      && (forall i :: 0 <= i < |ms| ==>
            && ms[i].MutationRequest? && ms[i].requestID in PendingOf(requests, MutationKind)
            && ms[i] == requests[ms[i].requestID].message)
      && (forall id :: id in PendingOf(requests, MutationKind) ==>
            exists i :: 0 <= i < |ms| && ms[i].MutationRequest? && ms[i].requestID == id)
      && (forall i, j :: 0 <= i < j < |ms| ==>
            ReplayedBefore(requests[ms[i].requestID], requests[ms[j].requestID]))
  {
    ReplayIdsOnce(requests, next);
    var ms, ids, xs := ReplayMessages(requests), ReplayIds(requests), ReplayOrder(requests);
    assert forall i :: 0 <= i < |ids| ==> ids[i] in Elements(ids);
    forall id | id in PendingOf(requests, MutationKind)
      ensures exists i :: 0 <= i < |ms| && ms[i].MutationRequest? && ms[i].requestID == id
    {
      var i :| 0 <= i < |ids| && ids[i] == id;
      assert ms[i].requestID == id;
    }
    forall i, j | 0 <= i < j < |ms| ensures ReplayedBefore(requests[ms[i].requestID], requests[ms[j].requestID]) {
      assert xs[i] in ReplayKeys(requests) && xs[j] in ReplayKeys(requests);
      assert ReplayBefore(xs[i], xs[j]);
    }
  }

  lemma ClearAgain(s: Client, t: Client)
    requires t == s.(link := t.link, ledger := ClearSession(s).ledger)
    ensures ClearSession(t) == ClearSession(s)
  {
    hide CancelAction;
    var pending := PendingOf(s.ledger.requests, ActionKind);
    CancelActionsFrame(s.ledger, Ascending(pending));
    assert Elements(Ascending(pending)) == pending;
    assert PendingOf(t.ledger.requests, ActionKind) == {};
    assert Ascending({}) == [];
  }

  /** A second restart with the same fetched token changes nothing. */
  lemma RestartIdempotent(s: Client, fetched: Option<AuthToken>)
    requires RestartStep(s, fetched).1
    ensures RestartStep(RestartStep(s, fetched).0, fetched) == RestartStep(s, fetched)
  {
    var t := RestartStep(s, fetched).0;
    RestartFrame(s, fetched);
    ClearAgain(s, t);
  }

  lemma RestartIsAccepted(s: Client, fetched: Option<AuthToken>, done: Completions)
    requires Inverse(s.reg) && LedgerOK(s.ledger, done) && RestartStep(s, fetched).1
    ensures var queue := RestartStep(s, fetched).0.link.outgoing;
      ServeAll(queue).Some? && ServeAll(queue).value.view == LocalView(s.reg)
  {
    hide RestartStep, LocalView, LedgerOK;
    RestartBeginsSession(s, fetched, done);
    RestartFrame(s, fetched);
    var t := RestartStep(s, fetched).0;
    assert [] + t.link.outgoing == t.link.outgoing;
  }

  lemma NextRestart(w: World, fetched: Option<AuthToken>)
    ensures var w' := Next(w, Restart(fetched));
      && w'.client == RestartStep(w.client, fetched).0
      && w'.history.popped == [] && w'.history.complete == RestartStep(w.client, fetched).1
  {
    hide RestartStep, RecordCompletions;
  }

  /** In every run, a restart that succeeds puts the client into a session that the server
      will accept from its first message, and drops every pending action. */
  lemma RestartInEveryRun(configuredLimit: int, events: seq<Event>, fetched: Option<AuthToken>)
    requires RestartStep(Run(configuredLimit, events).client, fetched).1
    ensures var s := Run(configuredLimit, events).client;
      var w := Next(Run(configuredLimit, events), Restart(fetched));
      && w.history.popped == [] && w.history.complete
      && w.client.link.outgoing == RebuiltQueue(LocalView(s.reg), RefreshedToken(s, fetched),
          ReplayMessages(w.client.ledger.requests))
      && PendingOf(w.client.ledger.requests, ActionKind) == {}
      && w.client.results == s.results
      && ServeAll(w.client.link.outgoing).Some?
      && ServeAll(w.client.link.outgoing).value.view == LocalView(s.reg)
  {
    hide RestartStep, RebuiltQueue, ReplayMessages, LocalView, Run, Next, LedgerOK, Inverse, Scoped;
    var w0 := Run(configuredLimit, events);
    RunInv(configuredLimit, events);
    StepInvParts(w0);
    NextRestart(w0, fetched);
    RestartQueue(w0.client, fetched);
    RestartCancels(w0.client, fetched);
    RestartIsAccepted(w0.client, fetched, w0.history.done);
  }
}

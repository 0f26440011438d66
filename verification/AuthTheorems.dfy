/** What the server is told about the caller's identity, and which token a reconnect uses. */
module AuthTheorems {
  import opened Prelude
  import opened Orders
  import opened Values
  import opened Canonical
  import opened Protocol
  import opened Optimistic
  import opened ClientSteps
  import opened Sessions
  import opened RegistryInvariant
  import opened LedgerInvariant
  import opened SessionInvariant
  import opened ClientRuns
  import opened ClientTheorems
  import opened RestartTheorems

  /** An admin token that acts for a user without naming its identifier. */
  predicate LacksIdentifier(token: AuthToken, a: Identity) {
    token.tokenType == Admin && a.tokenIdentifier == "" && a.issuer != "" && a.subject != ""
  }

  /** sent is the token as the server gets it: the same value, an unset type as none, and the
      missing identifier of an acted-for user made up of issuer and subject. */
  predicate Conveys(sent: AuthToken, token: AuthToken) {
    && sent.value == token.value
    && sent.tokenType == (if token.tokenType == Unset then NoAuth else token.tokenType)
    && match token.actingAs
       case None => sent.actingAs.None?
       case Some(a) =>
         && sent.actingAs.Some?
         && sent.actingAs.value.issuer == a.issuer && sent.actingAs.value.subject == a.subject
         && sent.actingAs.value.tokenIdentifier ==
              (if LacksIdentifier(token, a) then a.issuer + "|" + a.subject else a.tokenIdentifier)
  }

  predicate ConveysIn(m: ClientMessage, base: nat, token: AuthToken) {
    m.Authenticate? && m.authBase == base && Conveys(m.token, token)
  }

  lemma NormalizedConveys(token: AuthToken)
    ensures Conveys(NormalizeToken(token), token)
  {
  }

  /** The token an auth operation is about, if it comes to have one. */
  function TokenOf(s: Client, e: Event): Option<AuthToken> {
    match e
    case SetAuth(token) => Some(token)
    case ClearAuth => Some(AuthToken(NoAuth, "", None))
    case SetAuthCallback(_, fetched) => fetched
    case RefreshAuth(fetched) =>
      (match s.authFetcher
       case None => None
       case Some(Static(token)) => Some(token)
       case Some(Callback(_)) => fetched)
    case _ => None
  }

  /** An auth operation queues one message that conveys its token under the next identity
      version; one that gets no token changes nothing. */
  lemma AuthIsConveyed(s: Client, e: Event)
    requires e.SetAuth? || e.ClearAuth? || e.SetAuthCallback? || e.RefreshAuth?
    ensures var t := Step(s, e);
      match TokenOf(s, e)
      case None => t == s
      case Some(token) =>
        && t == s.(link := t.link, authFetcher := t.authFetcher)
        && t.link == s.link.(identityVersion := s.link.identityVersion + 1, outgoing := t.link.outgoing)
        && |t.link.outgoing| == |s.link.outgoing| + 1 && s.link.outgoing <= t.link.outgoing
        && ConveysIn(t.link.outgoing[|s.link.outgoing|], s.link.identityVersion, token)
  {
    hide NormalizeToken, Conveys;
    if TokenOf(s, e).Some? {
      NormalizedConveys(TokenOf(s, e).value);
    }
  }

  // ---- reconnecting ----

  /** The auth source in force after some events: the last one installed and not cleared. */
  function SourceAfter(events: seq<Event>): Option<Fetcher> {
    if events == [] then None
    else
      match events[|events| - 1]
      case SetAuth(token) => Some(Static(token))
      case ClearAuth => None
      case SetAuthCallback(f, Some(_)) => Some(Callback(f))
      case _ => SourceAfter(events[..|events| - 1])
  }

  lemma StepKeepsSource(s: Client, e: Event)
    requires Scoped(s) && Inverse(s.reg) && !e.SetAuth? && !e.ClearAuth? && !(e.SetAuthCallback? && e.fetched.Some?)
    ensures Step(s, e).authFetcher == s.authFetcher
  {
    hide RestartStep, TransitionStep, MutationResponseStep, MutationStep;
    match e
    case Receive(Transition(start, end, ms)) => TransitionKeepsSource(s, start, end, ms);
    case Receive(MutationResponse(id, response, ts)) => ResponseKeepsSource(s, id, response, ts);
    case Mutate(path, args, update) =>
      if CanonicalRequest(path, args).Some? {
        MutationKeepsSource(s, CanonicalRequest(path, args).value.0, CanonicalRequest(path, args).value.1, update);
      }
    case Restart(fetched) => RestartFrame(s, fetched);
    case _ =>
  }

  lemma TransitionKeepsSource(s: Client, start: StateVersion, end: StateVersion, ms: seq<StateModification>)
    requires Scoped(s)
    ensures TransitionStep(s, start, end, ms).0.authFetcher == s.authFetcher
  {
    hide CompleteMutations, VisibleResults;
    ModificationsStayScoped(s, ms);
  }

  lemma ResponseKeepsSource(s: Client, id: RequestID, response: Response, ts: Option<Timestamp>)
    ensures MutationResponseStep(s, id, response, ts).0.authFetcher == s.authFetcher
  {
    hide CompleteMutation, VisibleResults;
  }

  lemma MutationKeepsSource(s: Client, path: string, args: seq<Value>, update: Option<Update>)
    ensures MutationStep(s, path, args, update).0.authFetcher == s.authFetcher
  {
    hide VisibleResults;
  }

  /** In every run the client refreshes from the auth source installed last. */
  lemma {:induction false} SourceInEveryRun(configuredLimit: int, events: seq<Event>)
    ensures Run(configuredLimit, events).client.authFetcher == SourceAfter(events)
  {
    hide Inv, RecordCompletions, NormalizeToken;
    if events != [] {
      var n := |events| - 1;
      var w, e := Run(configuredLimit, events[..n]), events[n];
      SourceInEveryRun(configuredLimit, events[..n]);
      RunInv(configuredLimit, events[..n]);
      StepInvParts(w);
      SourceStep(w.client, e);
    }
  }

  lemma SourceStep(s: Client, e: Event)
    requires Scoped(s) && Inverse(s.reg)
    ensures Step(s, e).authFetcher ==
      match e {
        case SetAuth(token) => Some(Static(token))
        case ClearAuth => None
        case SetAuthCallback(f, Some(_)) => Some(Callback(f))
        case _ => s.authFetcher
      }
  {
    if !e.SetAuth? && !e.ClearAuth? && !(e.SetAuthCallback? && e.fetched.Some?) {
      StepKeepsSource(s, e);
    }
  }

  ghost predicate NoAuthMessage(ms: seq<ClientMessage>) {
    forall i :: 0 <= i < |ms| ==> !ms[i].Authenticate?
  }

  /** A restart asks the source installed last.  Without one it sends no auth message; with a
      fixed token it succeeds and sends that token first; with a callback it succeeds exactly
      when the callback does, and sends what it returned first.  There is never a second one. */
  lemma RestartAuth(configuredLimit: int, events: seq<Event>, fetched: Option<AuthToken>)
    ensures var (t, ok) := RestartStep(Run(configuredLimit, events).client, fetched);
      var out := t.link.outgoing;
      var token := match SourceAfter(events) {
        case None => None
        case Some(Static(token)) => Some(token)
        case Some(Callback(_)) => fetched
      };
      if SourceAfter(events).None? then ok && NoAuthMessage(out)
      else
        && (ok <==> token.Some?)
        && (if ok then out != [] && ConveysIn(out[0], 0, token.value) && NoAuthMessage(out[1..]) else out == [])
  {
    hide Run, RestartStep, Conveys, NormalizeToken, RebuiltQueue, LedgerOK;
    var w := Run(configuredLimit, events);
    RunInv(configuredLimit, events);
    StepInvParts(w);
    SourceInEveryRun(configuredLimit, events);
    RestartOutcome(w.client, fetched);
    if RestartStep(w.client, fetched).1 {
      RestartQueue(w.client, fetched);
      RestartedShapes(w.client, fetched, w.history.done);
      var t := RestartStep(w.client, fetched).0;
      QueueShape(LocalView(w.client.reg), RefreshedToken(w.client, fetched), ReplayMessages(t.ledger.requests));
    } else {
      ClearSessionFacts(w.client, w.history.done);
    }
  }

  lemma RestartedShapes(s: Client, fetched: Option<AuthToken>, done: Completions)
    requires LedgerOK(s.ledger, done)
    ensures NoAuthMessage(ReplayMessages(RestartStep(s, fetched).0.ledger.requests))
  {
    hide RestartStep, ReplayMessages;
    RestartFrame(s, fetched);
    RestartCancels(s, fetched);
    var rs := RestartStep(s, fetched).0.ledger.requests;
    ReplayIdsOnce(rs, s.ledger.nextRequestID);
  }

  lemma QueueShape(view: View, auth: Option<AuthToken>, mutations: seq<ClientMessage>)
    requires NoAuthMessage(mutations)
    ensures var out := RebuiltQueue(view, auth, mutations);
      match auth
      case None => NoAuthMessage(out)
      case Some(token) => out != [] && ConveysIn(out[0], 0, token) && NoAuthMessage(out[1..])
  {
    hide Conveys, NormalizeToken, AddsOf;
    var batch := if view == map[] then [] else [ModifyQuerySet(0, 1, AddsOf(view, Ascending(view.Keys)))];
    BatchShape(batch, mutations);
    match auth
    case None => assert RebuiltQueue(view, auth, mutations) == batch + mutations;
    case Some(token) =>
      NormalizedConveys(token);
      assert RebuiltQueue(view, auth, mutations) == [Authenticate(0, NormalizeToken(token))] + (batch + mutations);
  }

  lemma BatchShape(batch: seq<ClientMessage>, mutations: seq<ClientMessage>)
    requires NoAuthMessage(batch) && NoAuthMessage(mutations)
    ensures NoAuthMessage(batch + mutations)
  {
  }
}

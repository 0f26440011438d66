/** The sync client as a state machine: its state and one step per method.

    External calls become parameters: a step that calls the auth fetcher takes what the
    fetcher returned (None for an error). */
module ClientSteps {
  import opened Prelude
  import opened Orders
  import opened Values
  import opened Canonical
  import opened Protocol
  import opened Optimistic

  datatype Kind = MutationKind | ActionKind

  datatype Request = Request(
    id: RequestID, kind: Kind, message: ClientMessage, update: Option<Update>,
    result: Option<FunctionResult>, ts: Option<Timestamp>)

  type Requests = map<RequestID, Request>

  /** A fetcher made by SetAuth always returns its token; a callback may do anything. */
  datatype Fetcher = Static(token: AuthToken) | Callback(id: nat)

  /** The query registry. */
  datatype Reg = Reg(
    nextQueryID: nat,
    queries: Registry,
    queryIDToToken: map<QueryID, Wire>,
    subscribers: set<SubscriberID>)

  /** The session with the server: version counters and the outgoing queue. */
  datatype Link = Link(
    querySetVersion: nat,
    identityVersion: nat,
    remoteVersion: StateVersion,
    outgoing: seq<ClientMessage>)

  /** Pending and recently completed requests. */
  datatype Ledger = Ledger(
    limit: nat,
    nextRequestID: nat,
    requests: Requests,
    completedMutations: set<RequestID>,
    completedMutationOrder: seq<RequestID>,
    mutationResults: map<RequestID, FunctionResult>,
    actionResults: map<RequestID, FunctionResult>,
    actionResultOrder: seq<RequestID>)

  /** The fields of the client, grouped by concern. */
  datatype Client = Client(
    reg: Reg,
    link: Link,
    ledger: Ledger,
    serverResults: Results,
    results: Results,
    authFetcher: Option<Fetcher>,
    maxObserved: Option<Timestamp>)

  const RECONNECT_ERROR := "Connection lost while action was in flight"

  function NormalizedLimit(configured: int): (n: nat)
    ensures n >= 1
  {
    if configured < 1 then 1 else configured
  }

  function New(configuredLimit: int): Client {
    Client(Reg(0, map[], map[], {}),
           Link(0, 0, ZERO_VERSION, []),
           Ledger(NormalizedLimit(configuredLimit), 0, map[], {}, [], map[], map[], []),
           map[], map[], None, None)
  }

  // ---- the outgoing queue ----

  function Push(l: Link, m: ClientMessage): Link {
    l.(outgoing := l.outgoing + [m])
  }

  function PushQuerySet(l: Link, ms: seq<QuerySetModification>): Link {
    Push(l, ModifyQuerySet(l.querySetVersion, l.querySetVersion + 1, ms)).(querySetVersion := l.querySetVersion + 1)
  }

  function PushAuth(l: Link, token: AuthToken): Link {
    Push(l, Authenticate(l.identityVersion, NormalizeToken(token))).(identityVersion := l.identityVersion + 1)
  }

  function PopStep(s: Client): (Client, Option<ClientMessage>) {
    if s.link.outgoing == [] then (s, None)
    else (s.(link := s.link.(outgoing := s.link.outgoing[1..])), Some(s.link.outgoing[0]))
  }

  // ---- subscriptions ----

  function RegSubscribe(r: Reg, k: QueryKey): (Reg, SubscriberID) {
    if k.token in r.queries then
      var q := r.queries[k.token];
      var id := SubscriberID(q.id, q.lastIndex + 1);
      (r.(queries := r.queries[k.token := q.(numSubscribers := q.numSubscribers + 1, lastIndex := q.lastIndex + 1)],
          subscribers := r.subscribers + {id}),
       id)
    else
      var id := SubscriberID(r.nextQueryID, 1);
      (Reg(r.nextQueryID + 1,
           r.queries[k.token := Query(r.nextQueryID, k.path, k.args, 1, 1)],
           r.queryIDToToken[r.nextQueryID := k.token],
           r.subscribers + {id}),
       id)
  }

  function SubscribeStep(s: Client, k: QueryKey): (Client, SubscriberID) {
    var (reg, id) := RegSubscribe(s.reg, k);
    if k.token in s.reg.queries then (s.(reg := reg), id)
    else (s.(reg := reg, link := PushQuerySet(s.link, [Add(s.reg.nextQueryID, k.path, k.args)])), id)
  }

  datatype UnsubscribeOutcome = Unsubscribed | LastUnsubscribed | UnknownSubscriber | UnknownQuery | MissingToken

  function RegUnsubscribe(r: Reg, id: SubscriberID): (Reg, UnsubscribeOutcome) {
    if id !in r.subscribers then (r, UnknownSubscriber)
    else
      var r1 := r.(subscribers := r.subscribers - {id});
      if id.queryID !in r.queryIDToToken then (r1, UnknownQuery)
      else
        var token := r.queryIDToToken[id.queryID];
        if token !in r.queries then (r1, MissingToken)
        else
          var q := r.queries[token];
          if q.numSubscribers > 1 then
            (r1.(queries := r.queries[token := q.(numSubscribers := q.numSubscribers - 1)]), Unsubscribed)
          else
            (r1.(queries := r.queries - {token}, queryIDToToken := r.queryIDToToken - {id.queryID}), LastUnsubscribed)
  }

  function UnsubscribeStep(s: Client, id: SubscriberID): (Client, UnsubscribeOutcome) {
    var (reg, outcome) := RegUnsubscribe(s.reg, id);
    if outcome == LastUnsubscribed then
      (s.(reg := reg,
          link := PushQuerySet(s.link, [Remove(id.queryID)]),
          serverResults := s.serverResults - {id.queryID},
          results := s.results - {id.queryID}),
       outcome)
    else (s.(reg := reg), outcome)
  }

  // ---- auth ----

  function NormalizeToken(token: AuthToken): AuthToken {
    var t := if token.tokenType == Unset then token.(tokenType := NoAuth) else token;
    match t.actingAs
    case Some(a) =>
      if t.tokenType == Admin && a.tokenIdentifier == "" && a.issuer != "" && a.subject != "" then
        t.(actingAs := Some(a.(tokenIdentifier := a.issuer + "|" + a.subject)))
      else t
    case None => t
  }

  function QueueAuthStep(s: Client, token: AuthToken): Client {
    s.(link := PushAuth(s.link, token))
  }

  function SetAuthStep(s: Client, token: AuthToken): Client {
    QueueAuthStep(s.(authFetcher := Some(Static(token))), token)
  }

  function ClearAuthStep(s: Client): Client {
    QueueAuthStep(s.(authFetcher := None), AuthToken(NoAuth, "", None))
  }

  function SetAuthCallbackStep(s: Client, fetcher: nat, fetched: Option<AuthToken>): (Client, bool) {
    match fetched
    case None => (s, false)
    case Some(token) => (QueueAuthStep(s.(authFetcher := Some(Callback(fetcher))), token), true)
  }

  /** What the installed fetcher returns when asked to refresh. */
  function Fetch(f: Fetcher, fetched: Option<AuthToken>): Option<AuthToken> {
    match f
    case Static(token) => Some(token)
    case Callback(_) => fetched
  }

  function RefreshAuthStep(s: Client, fetched: Option<AuthToken>): (Client, bool) {
    match s.authFetcher
    case None => (s, false)
    case Some(f) =>
      match Fetch(f, fetched)
      case None => (s, false)
      case Some(token) => (QueueAuthStep(s, token), true)
  }

  // ---- optimistic results ----

  ghost function OptimisticIds(requests: Requests): set<RequestID> {
    set id | id in requests && requests[id].kind == MutationKind && requests[id].update.Some?
  }

  ghost function UpdatesOf(ids: seq<RequestID>, requests: Requests): seq<Update>
    requires forall i :: 0 <= i < |ids| ==> ids[i] in requests && requests[ids[i]].update.Some?
  {
    seq(|ids|, i requires 0 <= i < |ids| => requests[ids[i]].update.value)
  }

  ghost function PendingUpdates(requests: Requests): seq<Update> {
    var ids := Ascending(OptimisticIds(requests));
    assert forall i :: 0 <= i < |ids| ==> ids[i] in OptimisticIds(requests);
    UpdatesOf(ids, requests)
  }

  /** Server results under the pending updates, in increasing request id. */
  ghost function VisibleResults(queries: Registry, server: Results, requests: Requests): Option<Results> {
    ApplyAll(PendingUpdates(requests), queries, server)
  }

  // ---- requests ----

  function Track(l: Ledger, r: Request): Ledger {
    l.(nextRequestID := l.nextRequestID + 1, requests := l.requests[l.nextRequestID := r])
  }

  ghost function MutationStep(s: Client, path: string, args: seq<Value>, update: Option<Update>)
      : (Client, Option<RequestID>)
  {
    var id := s.ledger.nextRequestID;
    var message := MutationRequest(id, path, args);
    var issued := s.(ledger := Track(s.ledger, Request(id, MutationKind, message, update, None, None)),
                     link := Push(s.link, message));
    if update.None? then (issued, Some(id))
    else
      match VisibleResults(s.reg.queries, s.serverResults, issued.ledger.requests)
      case None => (s, None)
      case Some(r) => (issued.(results := r), Some(id))
  }

  function ActionStep(s: Client, path: string, args: seq<Value>): (Client, RequestID) {
    var id := s.ledger.nextRequestID;
    var message := ActionRequest(id, path, args);
    (s.(ledger := Track(s.ledger, Request(id, ActionKind, message, None, None, None)),
        link := Push(s.link, message)),
     id)
  }

  /** The last n elements. */
  function LastN<T>(xs: seq<T>, n: nat): seq<T> {
    if |xs| <= n then xs else xs[|xs| - n..]
  }

  function Retain(m: map<RequestID, FunctionResult>, order: seq<RequestID>): map<RequestID, FunctionResult> {
    map x | x in m && x in order :: m[x]
  }

  function RememberMutation(l: Ledger, id: RequestID, result: FunctionResult): Ledger {
    var order := LastN(l.completedMutationOrder + [id], l.limit);
    l.(completedMutationOrder := order,
       mutationResults := Retain(l.mutationResults[id := result], order),
       completedMutations := set x | x in l.completedMutations + {id} && x in order)
  }

  function RememberAction(l: Ledger, id: RequestID, result: FunctionResult): Ledger {
    var order := LastN(l.actionResultOrder + [id], l.limit);
    l.(actionResultOrder := order, actionResults := Retain(l.actionResults[id := result], order))
  }

  function Forget(l: Ledger, id: RequestID): Ledger {
    l.(requests := l.requests - {id})
  }

  /** An answered mutation leaves the pending set with the result it carries. */
  function CompleteMutation(l: Ledger, id: RequestID): Ledger {
    if id in l.requests && l.requests[id].result.Some? then
      Forget(RememberMutation(l, id, l.requests[id].result.value), id)
    else l
  }

  function CompleteMutations(l: Ledger, ids: seq<RequestID>): Ledger {
    if ids == [] then l
    else CompleteMutation(CompleteMutations(l, ids[..|ids| - 1]), ids[|ids| - 1])
  }

  /** Answered mutations whose commit timestamp is covered by ts. */
  ghost function Due(requests: Requests, ts: Timestamp): set<RequestID> {
    set id | id in requests && requests[id].kind == MutationKind && requests[id].result.Some?
             && requests[id].ts.Some? && requests[id].ts.value <= ts
  }

  function CancelAction(l: Ledger, id: RequestID): Ledger {
    Forget(RememberAction(l, id, ErrorMessageResult(RECONNECT_ERROR)), id)
  }

  function CancelActions(l: Ledger, ids: seq<RequestID>): Ledger {
    if ids == [] then l
    else CancelAction(CancelActions(l, ids[..|ids| - 1]), ids[|ids| - 1])
  }

  ghost function PendingOf(requests: Requests, kind: Kind): set<RequestID> {
    set id | id in requests && requests[id].kind == kind
  }

  // ---- messages from the server ----

  function Observe(seen: Option<Timestamp>, ts: Timestamp): Option<Timestamp> {
    if seen.None? || ts > seen.value then Some(ts) else seen
  }

  function ApplyModification(s: Client, m: StateModification): (Client, bool) {
    match m
    case QueryUpdated(id, value) =>
      (if id in s.reg.queryIDToToken then s.(serverResults := s.serverResults[id := ValueResult(value)]) else s, true)
    case QueryFailed(id, message, data) =>
      (if id in s.reg.queryIDToToken then s.(serverResults := s.serverResults[id := ErrorResult(message, data)])
        else s, true)
    case QueryRemoved(id) =>
      (s.(serverResults := s.serverResults - {id}, results := s.results - {id}), true)
    case Unsupported => (s, false)
  }

  /** Modifications in order, stopping at the first unsupported one. */
  function ApplyModifications(s: Client, ms: seq<StateModification>): (Client, bool)
    decreases ms
  {
    if ms == [] then (s, true)
    else
      var (s1, ok) := ApplyModification(s, ms[0]);
      if ok then ApplyModifications(s1, ms[1..]) else (s1, false)
  }

  /** The step up to, and without, recomputing the visible results. */
  ghost function TransitionCommit(s: Client, end: StateVersion): Client {
    s.(link := s.link.(remoteVersion := end),
       maxObserved := Observe(s.maxObserved, end.ts),
       ledger := CompleteMutations(s.ledger, Ascending(Due(s.ledger.requests, end.ts))))
  }

  ghost function Recompute(s: Client): (Client, bool) {
    match VisibleResults(s.reg.queries, s.serverResults, s.ledger.requests)
    case None => (s, false)
    case Some(r) => (s.(results := r), true)
  }

  ghost function TransitionStep(s: Client, start: StateVersion, end: StateVersion,
                               ms: seq<StateModification>): (Client, bool)
  {
    if start != s.link.remoteVersion then (s, false)
    else
      var (s1, ok) := ApplyModifications(s, ms);
      if !ok then (s1, false) else Recompute(TransitionCommit(s1, end))
  }

  function ObserveOption(s: Client, ts: Option<Timestamp>): Client {
    match ts
    case None => s
    case Some(t) => s.(maxObserved := Observe(s.maxObserved, t))
  }

  /** Recording an answer on a pending mutation. */
  function Answer(l: Ledger, id: RequestID, response: Response, ts: Option<Timestamp>): Ledger
    requires id in l.requests
  {
    l.(requests := l.requests[id := l.requests[id].(result := Some(ResponseResult(response)), ts := ts)])
  }

  ghost function MutationResponseStep(s: Client, id: RequestID, response: Response, ts: Option<Timestamp>)
      : (Client, bool)
  {
    if id !in s.ledger.requests then
      if id in s.ledger.completedMutations then (ObserveOption(s, ts), true) else (s, false)
    else
      var r := s.ledger.requests[id];
      if r.kind != MutationKind then (s, false)
      else
        var answered := s.(ledger := Answer(s.ledger, id, response, ts));
        if !response.success then
          var s1 := s.(ledger := CompleteMutation(answered.ledger, id));
          if r.update.None? then (ObserveOption(s1, ts), true)
          else
            var (s2, ok) := Recompute(s1);
            if ok then (ObserveOption(s2, ts), true) else (s2, false)
        else if ts.None? then (answered, false)
        else (ObserveOption(answered, ts), true)
  }

  function ActionResponseStep(s: Client, id: RequestID, response: Response): (Client, bool) {
    if id !in s.ledger.requests || s.ledger.requests[id].kind != ActionKind then (s, false)
    else (s.(ledger := Forget(RememberAction(s.ledger, id, ResponseResult(response)), id)), true)
  }

  ghost function ReceiveStep(s: Client, m: ServerMessage): (Client, bool) {
    match m
    case Transition(start, end, ms) => TransitionStep(s, start, end, ms)
    case MutationResponse(id, response, ts) => MutationResponseStep(s, id, response, ts)
    case ActionResponse(id, response) => ActionResponseStep(s, id, response)
    case Ping => (s, true)
    case _ => (s, false)
  }

  // ---- reconnecting ----

  /** What the replay comparator looks at. */
  datatype ReplayKey = ReplayKey(ts: Option<Timestamp>, id: RequestID)

  /** Answered mutations first, latest commit first; then by request id. */
  predicate ReplayBefore(a: ReplayKey, b: ReplayKey) {
    if a.ts.Some? && b.ts.Some? && a.ts.value != b.ts.value then a.ts.value > b.ts.value
    else if a.ts.Some? != b.ts.Some? then a.ts.Some?
    else a.id < b.id
  }

  lemma ReplayBeforeTotal()
    ensures StrictTotal(ReplayBefore)
  {
  }

  ghost function ReplayKeys(requests: Requests): set<ReplayKey> {
    set id | id in requests && requests[id].kind == MutationKind :: ReplayKey(requests[id].ts, id)
  }

  ghost function ReplayOrder(requests: Requests): (xs: seq<ReplayKey>)
    ensures SortOf(xs, ReplayKeys(requests), ReplayBefore)
    ensures forall x :: x in xs <==> x in ReplayKeys(requests)
  {
    ReplayBeforeTotal();
    var xs := SortSet(ReplayKeys(requests), ReplayBefore);
    assert forall x :: x in xs <==> x in Elements(xs);
    xs
  }

  ghost function MessagesOf(keys: seq<ReplayKey>, requests: Requests): seq<ClientMessage>
    requires forall i :: 0 <= i < |keys| ==> keys[i].id in requests
  {
    seq(|keys|, i requires 0 <= i < |keys| => requests[keys[i].id].message)
  }

  ghost function ReplayMessages(requests: Requests): seq<ClientMessage> {
    var xs := ReplayOrder(requests);
    assert forall i :: 0 <= i < |xs| ==> xs[i] in ReplayKeys(requests);
    MessagesOf(xs, requests)
  }

  ghost function AddsFor(ids: seq<QueryID>, queries: Registry): seq<QuerySetModification>
    requires forall i :: 0 <= i < |ids| ==> ids[i] in Ids(queries)
  {
    seq(|ids|, i requires 0 <= i < |ids| => var q := QueryWithId(queries, ids[i]); Add(q.id, q.path, q.args))
  }

  /** One Add per active query, by increasing id. */
  ghost function ReplayAdds(queries: Registry): seq<QuerySetModification> {
    AddsFor(Ascending(Ids(queries)), queries)
  }

  ghost function ClearSession(s: Client): Client {
    s.(link := Link(0, 0, ZERO_VERSION, []),
       ledger := CancelActions(s.ledger, Ascending(PendingOf(s.ledger.requests, ActionKind))))
  }

  ghost function Replay(s: Client): Client {
    var adds := ReplayAdds(s.reg.queries);
    var l := if adds == [] then s.link else PushQuerySet(s.link, adds);
    s.(link := l.(outgoing := l.outgoing + ReplayMessages(s.ledger.requests)))
  }

  ghost function RestartStep(s: Client, fetched: Option<AuthToken>): (Client, bool) {
    var s1 := ClearSession(s);
    if s1.authFetcher.None? then (Replay(s1), true)
    else
      var (s2, ok) := RefreshAuthStep(s1, fetched);
      if ok then (Replay(s2), true) else (s2, false)
  }

  // ---- runs ----

  datatype Event =
    | Subscribe(path: string, args: GoValue)
    | Unsubscribe(id: SubscriberID)
    | Pop
    | SetAuth(token: AuthToken)
    | ClearAuth
    | SetAuthCallback(fetcher: nat, fetched: Option<AuthToken>)
    | RefreshAuth(fetched: Option<AuthToken>)
    | Mutate(path: string, args: GoValue, update: Option<Update>)
    | Act(path: string, args: GoValue)
    | Receive(message: ServerMessage)
    | Restart(fetched: Option<AuthToken>)

  ghost function Step(s: Client, e: Event): Client {
    match e
    case Subscribe(path, args) =>
      (match CanonicalQuery(path, args) case None => s case Some(k) => SubscribeStep(s, k).0)
    case Unsubscribe(id) => UnsubscribeStep(s, id).0
    case Pop => PopStep(s).0
    case SetAuth(token) => SetAuthStep(s, token)
    case ClearAuth => ClearAuthStep(s)
    case SetAuthCallback(fetcher, fetched) => SetAuthCallbackStep(s, fetcher, fetched).0
    case RefreshAuth(fetched) => RefreshAuthStep(s, fetched).0
    case Mutate(path, args, update) =>
      (match CanonicalRequest(path, args) case None => s case Some(k) => MutationStep(s, k.0, k.1, update).0)
    case Act(path, args) =>
      (match CanonicalRequest(path, args) case None => s case Some(k) => ActionStep(s, k.0, k.1).0)
    case Receive(message) => ReceiveStep(s, message).0
    case Restart(fetched) => RestartStep(s, fetched).0
  }
}

/** The sync client itself: an object whose methods update its fields, each proved to make
    exactly one step of the state machine and to keep the history that goes with it. */
module BaseClient {
  import opened Prelude
  import opened Orders
  import opened Values
  import opened Canonical
  import opened Protocol
  import opened Optimistic
  import opened LocalStore
  import opened QuerySnapshots
  import opened ClientSteps
  import opened RegistryInvariant
  import opened LedgerInvariant
  import opened ClientRuns
  import opened ClientTheorems
  import opened AuthTheorems
  import opened OutcomeTheorems

  /** What the in-place eviction loops rely on. */
  ghost predicate Kept(l: Ledger) {
    && l.limit >= 1
    && Distinct(l.completedMutationOrder) && Distinct(l.actionResultOrder)
    && l.mutationResults.Keys == Elements(l.completedMutationOrder)
    && l.completedMutations == Elements(l.completedMutationOrder)
    && l.actionResults.Keys == Elements(l.actionResultOrder)
    && (forall id :: id in l.requests ==> id !in l.completedMutationOrder && id !in l.actionResultOrder)
  }

  lemma LedgerIsKept(l: Ledger, done: Completions)
    requires LedgerOK(l, done)
    ensures Kept(l)
  {
    LastNElements(done.mutations, l.limit);
    LastNElements(done.actions, l.limit);
  }

  /** Part-way through an eviction: order is a suffix of full, and kept has its results. */
  ghost predicate Evicting(full: seq<RequestID>, limit: nat, m: ResultMap, order: seq<RequestID>, kept: ResultMap) {
    && |order| <= |full| && order == full[|full| - |order|..]
    && (|full| > limit ==> |order| >= limit) && (|full| <= limit ==> order == full)
    && Distinct(order) && kept == Retain(m, order)
  }

  lemma EvictStart(order: seq<RequestID>, m: ResultMap, id: RequestID, result: FunctionResult, limit: nat)
    requires Distinct(order) && m.Keys == Elements(order) && id !in order
    ensures Evicting(order + [id], limit, m[id := result], order + [id], m[id := result])
    ensures Elements(order) + {id} == Elements(order + [id])
  {
    var full := order + [id];
    assert full[0..] == full;
    forall x | x in m[id := result] ensures x in full {
      assert x == id || x in Elements(order);
    }
    assert Retain(m[id := result], full) == m[id := result];
  }

  lemma EvictStep(full: seq<RequestID>, limit: nat, m: ResultMap, order: seq<RequestID>, kept: ResultMap)
    requires Evicting(full, limit, m, order, kept) && |order| > limit
    ensures Evicting(full, limit, m, order[1..], kept - {order[0]})
    ensures Elements(order) - {order[0]} == Elements(order[1..])
  {
    assert order == [order[0]] + order[1..];
    assert order[0] !in order[1..];
    assert full[|full| - |order[1..]|..] == order[1..];
    assert Retain(m, order) - {order[0]} == Retain(m, order[1..]);
  }

  lemma EvictEnd(full: seq<RequestID>, limit: nat, m: ResultMap, order: seq<RequestID>, kept: ResultMap)
    requires Evicting(full, limit, m, order, kept) && |order| <= limit
    ensures order == LastN(full, limit) && kept == Retain(m, LastN(full, limit))
  {
  }

  /** The ids of the requests that satisfy a condition, in the order the map yields them. */
  method CollectIds(requests: Requests, p: Request -> bool) returns (ids: seq<RequestID>)
    ensures Distinct(ids) && Elements(ids) == (set id | id in requests && p(requests[id]))
  {
    ids := [];
    var rest := requests.Keys;
    while rest != {}
      invariant rest <= requests.Keys && Distinct(ids)
      invariant forall id :: id in ids <==> id in requests && id !in rest && p(requests[id])
      decreases rest
    {
      var id :| id in rest;
      assert id !in ids;
      rest := rest - {id};
      if p(requests[id]) {
        ids := ids + [id];
      }
    }
  }

  /** Messages after which a snapshot is handed to the caller. */
  predicate PublishesResults(requests: Requests, m: ServerMessage) {
    match m
    case Transition(_, _, _) => true
    case MutationResponse(id, response, _) => !response.success && id in requests && requests[id].update.Some?
    case _ => false
  }

  method MessagesInOrder(keys: seq<ReplayKey>, requests: Requests) returns (messages: seq<ClientMessage>)
    requires keys == ReplayOrder(requests)
    ensures messages == ReplayMessages(requests)
  {
    messages := [];
    for i := 0 to |keys|
      invariant |messages| == i
      invariant forall j :: 0 <= j < i ==> keys[j].id in requests && messages[j] == requests[keys[j].id].message
    {
      assert keys[i] in ReplayKeys(requests);
      messages := messages + [requests[keys[i].id].message];
    }
    assert messages == ReplayMessages(requests);
  }

  method KeysOf(ids: seq<RequestID>, requests: Requests) returns (keys: seq<ReplayKey>)
    requires Distinct(ids) && Elements(ids) == PendingOf(requests, MutationKind)
    ensures Distinct(keys) && Elements(keys) == ReplayKeys(requests)
  {
    keys := [];
    for i := 0 to |ids|
      invariant |keys| == i
      invariant forall j :: 0 <= j < i ==> ids[j] in requests && keys[j] == ReplayKey(requests[ids[j]].ts, ids[j])
    {
      assert ids[i] in Elements(ids);
      keys := keys + [ReplayKey(requests[ids[i]].ts, ids[i])];
    }
    forall k ensures k in Elements(keys) <==> k in ReplayKeys(requests) {
      if k in ReplayKeys(requests) {
        assert k.id in Elements(ids);
        var i :| 0 <= i < |ids| && ids[i] == k.id;
        assert keys[i] == k;
      }
      if k in keys {
        var i :| 0 <= i < |keys| && keys[i] == k;
        assert ids[i] in Elements(ids);
      }
    }
  }

  lemma CandidateIds(requests: Requests, candidate: Request, ids: seq<RequestID>)
    requires Distinct(ids) && Elements(ids) == OptimisticIds(requests)
    requires candidate.id !in requests && candidate.kind == MutationKind
    ensures var ids' := if candidate.update.Some? then ids + [candidate.id] else ids;
      Distinct(ids') && Elements(ids') == OptimisticIds(requests[candidate.id := candidate])
  {
    var all := requests[candidate.id := candidate];
    assert candidate.id !in Elements(ids);
    if candidate.update.Some? {
      assert Elements(ids + [candidate.id]) == Elements(ids) + {candidate.id};
      assert OptimisticIds(all) == OptimisticIds(requests) + {candidate.id};
    } else {
      assert OptimisticIds(all) == OptimisticIds(requests);
    }
  }

  method UpdatesById(ids: seq<RequestID>, requests: Requests) returns (us: seq<Update>)
    requires ids == Ascending(OptimisticIds(requests))
    ensures us == PendingUpdates(requests)
  {
    us := [];
    for i := 0 to |ids|
      invariant |us| == i
      invariant forall j :: 0 <= j < i ==> ids[j] in requests && requests[ids[j]].update == Some(us[j])
    {
      assert ids[i] in OptimisticIds(requests);
      us := us + [requests[ids[i]].update.value];
    }
    assert us == PendingUpdates(requests);
  }

  class BaseClient {
    const limit: nat
    var nextQueryID: nat
    var querySetVersion: nat
    var queries: Registry
    var queryIDToToken: map<QueryID, Wire>
    var subscribers: set<SubscriberID>
    var serverResults: Results
    var results: Results
    var remoteVersion: StateVersion
    var identityVersion: nat
    var authFetcher: Option<Fetcher>
    var outgoing: seq<ClientMessage>
    var maxObservedTimestamp: Option<Timestamp>
    var nextRequestID: nat
    var requests: Requests
    var completedMutations: set<RequestID>
    var completedMutationOrder: seq<RequestID>
    var mutationResults: map<RequestID, FunctionResult>
    var actionResults: map<RequestID, FunctionResult>
    var actionResultOrder: seq<RequestID>

    ghost var history: History

    ghost function RegNow(): Reg
      reads this`nextQueryID, this`queries, this`queryIDToToken, this`subscribers
    {
      Reg(nextQueryID, queries, queryIDToToken, subscribers)
    }

    ghost function LinkNow(): Link
      reads this`querySetVersion, this`identityVersion, this`remoteVersion, this`outgoing
    {
      Link(querySetVersion, identityVersion, remoteVersion, outgoing)
    }

    ghost function LedgerNow(): Ledger
      reads this`nextRequestID, this`requests, this`completedMutations, this`completedMutationOrder
      reads this`mutationResults, this`actionResults, this`actionResultOrder
    {
      Ledger(limit, nextRequestID, requests, completedMutations, completedMutationOrder, mutationResults,
             actionResults, actionResultOrder)
    }

    ghost function State(): Client
      reads this`nextQueryID, this`queries, this`queryIDToToken, this`subscribers
      reads this`querySetVersion, this`identityVersion, this`remoteVersion, this`outgoing
      reads this`nextRequestID, this`requests, this`completedMutations, this`completedMutationOrder
      reads this`mutationResults, this`actionResults, this`actionResultOrder
      reads this`serverResults, this`results, this`authFetcher, this`maxObservedTimestamp
    {
      Client(RegNow(), LinkNow(), LedgerNow(), serverResults, results, authFetcher, maxObservedTimestamp)
    }

    ghost function Now(): World reads this { World(State(), history) }

    ghost predicate Valid() reads this { Inv(Now()) }

    constructor (configuredLimit: int)
      ensures Valid() && Now() == Start(configuredLimit)
    {
      hide Inv;
      limit := if configuredLimit < 1 then 1 else configuredLimit;
      nextQueryID, querySetVersion, queries, queryIDToToken, subscribers := 0, 0, map[], map[], {};
      serverResults, results, remoteVersion, identityVersion := map[], map[], ZERO_VERSION, 0;
      authFetcher, outgoing, maxObservedTimestamp := None, [], None;
      nextRequestID, requests, completedMutations, completedMutationOrder := 0, map[], {}, [];
      mutationResults, actionResults, actionResultOrder := map[], map[], [];
      history := History([], true, 0, {}, NOTHING_COMPLETED);
      new;
      StartInv(configuredLimit);
    }

    lemma Facts()
      requires Valid()
      ensures UniqueIds(queries) && Kept(LedgerNow()) && nextRequestID !in requests
    {
      ClientFacts(Now());
    }

    /** The history follows each completed step. */
    ghost method Commit(before: World, e: Event)
      requires Inv(before) && history == before.history && State() == Step(before.client, e)
      modifies this`history
      ensures Now() == Next(before, e) && Valid()
    {
      hide Inv, Step, Record;
      history := Record(before.history, before.client, e, State());
      NextInv(before, e);
    }

    // ---- subscriptions ----

    method Subscribe(path: string, args: GoValue) returns (r: Option<SubscriberID>)
      requires Valid()
      modifies this
      ensures Valid() && Now() == Next(old(Now()), Event.Subscribe(path, args))
      ensures match CanonicalQuery(path, args)
        case None => r.None?
        case Some(k) => r == Some(SubscribeStep(old(State()), k).1) && r.value !in old(history.issued)
    {
      hide Inv, CanonicalQuery, Next, SubscribeStep;
      ghost var before := Now();
      var key := CanonicalQuery(path, args);
      if key.None? {
        r := None;
      } else {
        SubscribeFreshIn(before, key.value);
        var id := AddSubscriber(key.value);
        r := Some(id);
      }
      Commit(before, Event.Subscribe(path, args));
    }

    /** A further subscriber of a known query, or a new query that the server must learn. */
    method AddSubscriber(k: QueryKey) returns (id: SubscriberID)
      modifies this`nextQueryID, this`queries, this`queryIDToToken, this`subscribers, this`querySetVersion,
        this`outgoing
      ensures (State(), id) == SubscribeStep(old(State()), k)
    {
      hide LedgerNow, RegSubscribe;
      var known, queryID := k.token in queries, nextQueryID;
      id := Register(k);
      if !known {
        PushModification(Add(queryID, k.path, k.args));
      }
    }

    method Register(k: QueryKey) returns (id: SubscriberID)
      modifies this`nextQueryID, this`queries, this`queryIDToToken, this`subscribers
      ensures (RegNow(), id) == RegSubscribe(old(RegNow()), k)
    {
      if k.token in queries {
        var q := queries[k.token];
        id := SubscriberID(q.id, q.lastIndex + 1);
        queries := queries[k.token := q.(numSubscribers := q.numSubscribers + 1, lastIndex := q.lastIndex + 1)];
        subscribers := subscribers + {id};
      } else {
        var queryID := nextQueryID;
        nextQueryID := nextQueryID + 1;
        queries := queries[k.token := Query(queryID, k.path, k.args, 1, 1)];
        queryIDToToken := queryIDToToken[queryID := k.token];
        id := SubscriberID(queryID, 1);
        subscribers := subscribers + {id};
      }
    }

    /** The next query-set message, with one modification. */
    method PushModification(m: QuerySetModification)
      modifies this`querySetVersion, this`outgoing
      ensures LinkNow() == PushQuerySet(old(LinkNow()), [m])
    {
      var baseVersion := querySetVersion;
      querySetVersion := querySetVersion + 1;
      outgoing := outgoing + [ModifyQuerySet(baseVersion, querySetVersion, [m])];
    }

    method Unsubscribe(id: SubscriberID) returns (outcome: UnsubscribeOutcome)
      requires Valid()
      modifies this
      ensures Valid() && Now() == Next(old(Now()), Event.Unsubscribe(id))
      ensures outcome == UnknownSubscriber <==> id !in old(subscribers)
      ensures outcome != UnknownQuery && outcome != MissingToken
    {
      hide Inv, Next;
      ghost var before := Now();
      UnsubscribeCases(before, id);
      outcome := Remove(id);
      assert (State(), outcome) == UnsubscribeStep(before.client, id);
      Commit(before, Event.Unsubscribe(id));
    }

    /** The body of Unsubscribe, with its two unexpected-state errors. */
    method Remove(id: SubscriberID) returns (outcome: UnsubscribeOutcome)
      modifies this`queries, this`queryIDToToken, this`subscribers, this`serverResults, this`results,
        this`querySetVersion, this`outgoing
      ensures (State(), outcome) == UnsubscribeStep(old(State()), id)
    {
      hide LedgerNow;
      if id !in subscribers {
        return UnknownSubscriber;
      }
      subscribers := subscribers - {id};
      if id.queryID !in queryIDToToken {
        return UnknownQuery;
      }
      var token := queryIDToToken[id.queryID];
      if token !in queries {
        return MissingToken;
      }
      var q := queries[token];
      if q.numSubscribers > 1 {
        queries := queries[token := q.(numSubscribers := q.numSubscribers - 1)];
        return Unsubscribed;
      }
      DropQuery(id.queryID, token);
      outcome := LastUnsubscribed;
    }

    method DropQuery(queryID: QueryID, token: Wire)
      modifies this`queries, this`queryIDToToken, this`serverResults, this`results, this`querySetVersion, this`outgoing
      ensures RegNow() == Reg(old(nextQueryID), old(queries) - {token}, old(queryIDToToken) - {queryID},
        old(subscribers))
      ensures LinkNow() == PushQuerySet(old(LinkNow()), [QuerySetModification.Remove(queryID)])
      ensures serverResults == old(serverResults) - {queryID} && results == old(results) - {queryID}
    {
      hide LedgerNow;
      queries, queryIDToToken := queries - {token}, queryIDToToken - {queryID};
      serverResults, results := serverResults - {queryID}, results - {queryID};
      PushModification(QuerySetModification.Remove(queryID));
    }

    method PopNextMessage() returns (m: Option<ClientMessage>)
      requires Valid()
      modifies this
      ensures Valid() && Now() == Next(old(Now()), Pop)
      ensures m == if old(outgoing) == [] then None else Some(old(outgoing)[0])
    {
      hide Inv, Next;
      ghost var before := Now();
      if outgoing == [] {
        m := None;
      } else {
        m := Some(outgoing[0]);
        outgoing := outgoing[1..];
      }
      Commit(before, Pop);
    }

    /** All subscribers of a query read one and the same entry. */
    method LatestResults() returns (snapshot: QueryResults)
      ensures snapshot == QueryResults(subscribers, results)
    {
      snapshot := QueryResults(subscribers, results);
    }

    // ---- auth ----

    method QueueAuth(token: AuthToken)
      modifies this`identityVersion, this`outgoing
      ensures State() == QueueAuthStep(old(State()), token)
      ensures |outgoing| == |old(outgoing)| + 1 && old(outgoing) <= outgoing
      ensures ConveysIn(outgoing[|old(outgoing)|], old(identityVersion), token)
    {
      var t := token;
      if t.tokenType == Unset {
        t := t.(tokenType := NoAuth);
      }
      if t.tokenType == Admin && t.actingAs.Some? && t.actingAs.value.tokenIdentifier == ""
         && t.actingAs.value.issuer != "" && t.actingAs.value.subject != "" {
        var identity := t.actingAs.value;
        t := t.(actingAs := Some(identity.(tokenIdentifier := identity.issuer + "|" + identity.subject)));
      }
      var baseVersion := identityVersion;
      identityVersion := identityVersion + 1;
      outgoing := outgoing + [Authenticate(baseVersion, t)];
    }

    /** SetAuth and SetAdminAuth. */
    method SetAuth(token: AuthToken)
      requires Valid()
      modifies this
      ensures Valid() && Now() == Next(old(Now()), Event.SetAuth(token))
      ensures |outgoing| == |old(outgoing)| + 1 && old(outgoing) <= outgoing
      ensures ConveysIn(outgoing[|old(outgoing)|], old(identityVersion), token)
    {
      hide Inv, Next, ConveysIn;
      ghost var before := Now();
      authFetcher := Some(Static(token));
      QueueAuth(token);
      Commit(before, Event.SetAuth(token));
    }

    method ClearAuth()
      requires Valid()
      modifies this
      ensures Valid() && Now() == Next(old(Now()), Event.ClearAuth)
    {
      hide Inv, Next;
      ghost var before := Now();
      authFetcher := None;
      QueueAuth(AuthToken(NoAuth, "", None));
      Commit(before, Event.ClearAuth);
    }

    method SetAuthCallback(fetcher: nat, fetched: Option<AuthToken>) returns (ok: bool)
      requires Valid()
      modifies this
      ensures Valid() && Now() == Next(old(Now()), Event.SetAuthCallback(fetcher, fetched))
      ensures ok <==> fetched.Some?
      ensures ok ==> |outgoing| == |old(outgoing)| + 1 && old(outgoing) <= outgoing
      ensures ok ==> ConveysIn(outgoing[|old(outgoing)|], old(identityVersion), fetched.value)
    {
      hide Inv, Next, ConveysIn;
      ghost var before := Now();
      ok := fetched.Some?;
      if ok {
        authFetcher := Some(Callback(fetcher));
        QueueAuth(fetched.value);
      }
      Commit(before, Event.SetAuthCallback(fetcher, fetched));
    }

    method RefreshAuth(fetched: Option<AuthToken>) returns (ok: bool)
      modifies this`identityVersion, this`outgoing
      ensures (State(), ok) == RefreshAuthStep(old(State()), fetched)
    {
      if authFetcher.None? {
        return false;
      }
      var token := Fetch(authFetcher.value, fetched);
      if token.None? {
        return false;
      }
      QueueAuth(token.value);
      ok := true;
    }

    method RefreshAuthForReconnect(fetched: Option<AuthToken>) returns (ok: bool)
      requires Valid()
      modifies this
      ensures Valid() && Now() == Next(old(Now()), Event.RefreshAuth(fetched))
      ensures ok == RefreshAuthStep(old(State()), fetched).1
    {
      hide Inv, Next;
      ghost var before := Now();
      ok := RefreshAuth(fetched);
      Commit(before, Event.RefreshAuth(fetched));
    }

    // ---- the request ledger ----

    /** rememberMutationResult, with its in-place eviction of the oldest results. */
    method RememberMutationResult(id: RequestID, result: FunctionResult)
      requires Kept(LedgerNow()) && id !in completedMutationOrder
      modifies this`mutationResults, this`completedMutations, this`completedMutationOrder
      ensures LedgerNow() == RememberMutation(old(LedgerNow()), id, result)
    {
      hide Evicting, Retain, LastN, Elements;
      ghost var full, m := completedMutationOrder + [id], mutationResults[id := result];
      EvictStart(completedMutationOrder, mutationResults, id, result, limit);
      mutationResults := mutationResults[id := result];
      completedMutations := completedMutations + {id};
      completedMutationOrder := completedMutationOrder + [id];
      while |completedMutationOrder| > limit
        invariant Evicting(full, limit, m, completedMutationOrder, mutationResults)
        invariant completedMutations == Elements(completedMutationOrder)
      {
        var evict := completedMutationOrder[0];
        EvictStep(full, limit, m, completedMutationOrder, mutationResults);
        completedMutationOrder := completedMutationOrder[1..];
        mutationResults := mutationResults - {evict};
        completedMutations := completedMutations - {evict};
      }
      EvictEnd(full, limit, m, completedMutationOrder, mutationResults);
      EvictionResult(old(completedMutationOrder), id, completedMutationOrder, limit);
    }

    method RememberActionResult(id: RequestID, result: FunctionResult)
      requires Kept(LedgerNow()) && id !in actionResultOrder
      modifies this`actionResults, this`actionResultOrder
      ensures LedgerNow() == RememberAction(old(LedgerNow()), id, result)
    {
      hide Evicting, Retain, LastN, Elements;
      ghost var full, m := actionResultOrder + [id], actionResults[id := result];
      EvictStart(actionResultOrder, actionResults, id, result, limit);
      actionResults := actionResults[id := result];
      actionResultOrder := actionResultOrder + [id];
      while |actionResultOrder| > limit
        invariant Evicting(full, limit, m, actionResultOrder, actionResults)
      {
        var evict := actionResultOrder[0];
        EvictStep(full, limit, m, actionResultOrder, actionResults);
        actionResultOrder := actionResultOrder[1..];
        actionResults := actionResults - {evict};
      }
      EvictEnd(full, limit, m, actionResultOrder, actionResults);
    }

    method CompleteMutationRequest(id: RequestID)
      requires Kept(LedgerNow())
      modifies this`mutationResults, this`completedMutations, this`completedMutationOrder, this`requests
      ensures LedgerNow() == CompleteMutation(old(LedgerNow()), id) && Kept(LedgerNow())
    {
      ghost var before := LedgerNow();
      if id !in requests || requests[id].result.None? {
        return;
      }
      RememberMutationResult(id, requests[id].result.value);
      requests := requests - {id};
      CompleteKeepsKept(before, id);
    }

    /** completeMutationsThrough: collect, sort, complete. */
    method CompleteMutationsThrough(ts: Timestamp)
      requires Kept(LedgerNow())
      modifies this`mutationResults, this`completedMutations, this`completedMutationOrder, this`requests
      ensures LedgerNow() == CompleteMutations(old(LedgerNow()), Ascending(Due(old(LedgerNow()).requests, ts)))
    {
      var unsorted := CollectIds(requests, (r: Request) =>
        r.kind == MutationKind && r.result.Some? && r.ts.Some? && r.ts.value <= ts);
      assert Elements(unsorted) == Due(requests, ts);
      var ids := SortIds(unsorted);
      CompleteInOrder(ids);
    }

    method CompleteInOrder(ids: seq<RequestID>)
      requires Kept(LedgerNow())
      modifies this`mutationResults, this`completedMutations, this`completedMutationOrder, this`requests
      ensures LedgerNow() == CompleteMutations(old(LedgerNow()), ids)
    {
      hide Kept, CompleteMutation, LedgerNow;
      for i := 0 to |ids|
        invariant Kept(LedgerNow())
        invariant LedgerNow() == CompleteMutations(old(LedgerNow()), ids[..i])
      {
        assert ids[..i + 1][..i] == ids[..i];
        CompleteMutationRequest(ids[i]);
      }
      assert ids[..|ids|] == ids;
    }

    method CancelPendingAction(id: RequestID)
      requires Kept(LedgerNow()) && id in requests
      modifies this`actionResults, this`actionResultOrder, this`requests
      ensures LedgerNow() == CancelAction(old(LedgerNow()), id) && Kept(LedgerNow())
    {
      ghost var before := LedgerNow();
      RememberActionResult(id, ErrorMessageResult(RECONNECT_ERROR));
      requests := requests - {id};
      CancelKeepsKept(before, id);
    }

    /** cancelPendingActionsForReconnect */
    method CancelPendingActions()
      requires Kept(LedgerNow())
      modifies this`actionResults, this`actionResultOrder, this`requests
      ensures LedgerNow() ==
        CancelActions(old(LedgerNow()), Ascending(PendingOf(old(LedgerNow()).requests, ActionKind)))
    {
      var unsorted := CollectIds(requests, (r: Request) => r.kind == ActionKind);
      assert Elements(unsorted) == PendingOf(requests, ActionKind);
      var ids := SortIds(unsorted);
      assert forall j :: 0 <= j < |ids| ==> ids[j] in PendingOf(requests, ActionKind);
      CancelInOrder(ids);
    }

    method CancelInOrder(ids: seq<RequestID>)
      requires Kept(LedgerNow()) && Distinct(ids) && forall j :: 0 <= j < |ids| ==> ids[j] in requests
      modifies this`actionResults, this`actionResultOrder, this`requests
      ensures LedgerNow() == CancelActions(old(LedgerNow()), ids)
    {
      hide Kept, CancelAction;
      for i := 0 to |ids|
        invariant Kept(LedgerNow())
        invariant LedgerNow() == CancelActions(old(LedgerNow()), ids[..i])
      {
        assert ids[..i + 1][..i] == ids[..i];
        CancelActionsFrame(old(LedgerNow()), ids[..i]);
        assert ids[i] !in ids[..i];
        CancelPendingAction(ids[i]);
      }
      assert ids[..|ids|] == ids;
    }

    // ---- optimistic results ----

    /** optimisticRequests: the updates of the pending mutations and the candidate, by id. */
    method OptimisticRequests(candidate: Option<Request>) returns (us: seq<Update>)
      requires candidate.Some? ==> candidate.value.id !in requests && candidate.value.kind == MutationKind
      ensures us ==
        PendingUpdates(if candidate.Some? then requests[candidate.value.id := candidate.value] else requests)
    {
      var unsorted := CollectIds(requests, (x: Request) => x.kind == MutationKind && x.update.Some?);
      assert Elements(unsorted) == OptimisticIds(requests);
      var all := requests;
      if candidate.Some? {
        all := requests[candidate.value.id := candidate.value];
        CandidateIds(requests, candidate.value, unsorted);
        if candidate.value.update.Some? {
          unsorted := unsorted + [candidate.value.id];
        }
      }
      var ids := SortIds(unsorted);
      us := UpdatesById(ids, all);
    }

    /** optimisticResultsWith: replays them over a copy of the server results. */
    method OptimisticResultsWith(candidate: Option<Request>) returns (r: Option<Results>)
      requires UniqueIds(queries)
      requires candidate.Some? ==> candidate.value.id !in requests && candidate.value.kind == MutationKind
      ensures r == VisibleResults(queries, serverResults,
        if candidate.Some? then requests[candidate.value.id := candidate.value] else requests)
    {
      hide ApplyAll, PendingUpdates;
      var us := OptimisticRequests(candidate);
      r := ReplayUpdates(us, queries, serverResults);
    }

    method RecomputeOptimisticResults() returns (ok: bool)
      requires UniqueIds(queries)
      modifies this`results
      ensures (State(), ok) == Recompute(old(State()))
    {
      hide VisibleResults;
      var r := OptimisticResultsWith(None);
      ok := r.Some?;
      if ok {
        results := r.value;
      }
    }

    // ---- requests ----

    /** Issues a mutation.  With an optimistic update the recomputed results become visible
        at once; if any update fails, nothing changes. */
    method Mutation(path: string, args: GoValue, update: Option<Update>)
        returns (id: Option<RequestID>, snapshot: Option<QueryResults>)
      requires Valid()
      modifies this
      ensures Valid() && Now() == Next(old(Now()), Mutate(path, args, update))
      ensures match CanonicalRequest(path, args)
        case None => id.None?
        case Some(k) => id == MutationStep(old(State()), k.0, k.1, update).1
      ensures snapshot == if id.Some? && update.Some? then Some(QueryResults(subscribers, results)) else None
      ensures id.None? ==> State() == old(State())
      ensures id.Some? ==>
        && CanonicalRequest(path, args).Some? && id.value == old(nextRequestID)
        && var (p, a) := CanonicalRequest(path, args).value;
           IssuedAs(Request(id.value, MutationKind, MutationRequest(id.value, p, a), update, None, None),
                    old(nextRequestID), old(requests), old(outgoing))
    {
      hide Inv, CanonicalRequest, Next, Step, MutationStep, State, Kept, UniqueIds, LedgerNow;
      ghost var before := Now();
      Facts();
      id := RequestMutation(path, args, update);
      snapshot := None;
      if id.Some? && update.Some? {
        var current := LatestResults();
        snapshot := Some(current);
      }
      Commit(before, Mutate(path, args, update));
    }

    method RequestMutation(path: string, args: GoValue, update: Option<Update>) returns (id: Option<RequestID>)
      requires UniqueIds(queries) && nextRequestID !in requests
      modifies this`results, this`nextRequestID, this`requests, this`outgoing
      ensures State() == Step(old(State()), Mutate(path, args, update))
      ensures match CanonicalRequest(path, args)
        case None => id.None?
        case Some(k) => id == MutationStep(old(State()), k.0, k.1, update).1
      ensures id.None? ==> State() == old(State())
      ensures id.Some? ==>
        && CanonicalRequest(path, args).Some? && id.value == old(nextRequestID)
        && var (p, a) := CanonicalRequest(path, args).value;
           IssuedAs(Request(id.value, MutationKind, MutationRequest(id.value, p, a), update, None, None),
                    old(nextRequestID), old(requests), old(outgoing))
    {
      hide CanonicalRequest, MutationStep, State, UniqueIds;
      var key := CanonicalRequest(path, args);
      id := None;
      if key.Some? {
        id := IssueMutation(key.value.0, key.value.1, update);
      }
    }

    /** Makes the update of a new mutation visible, unless some update fails. */
    method ShowOptimistically(request: Request) returns (ok: bool)
      requires UniqueIds(queries) && request.id !in requests && request.kind == MutationKind
      modifies this`results
      ensures State() == old(State()).(results := results)
      ensures match VisibleResults(queries, serverResults, requests[request.id := request])
        case None => !ok && results == old(results)
        case Some(r) => ok && results == r
    {
      hide VisibleResults, UniqueIds;
      var r := OptimisticResultsWith(Some(request));
      ok := r.Some?;
      if ok {
        results := r.value;
      }
    }

    /** The request is pending under the id n, that id is used up, and the message is queued. */
    ghost predicate IssuedAs(r: Request, n: nat, requestsBefore: Requests, outgoingBefore: seq<ClientMessage>)
      reads this`nextRequestID, this`requests, this`outgoing
    {
      && nextRequestID == n + 1 && requests == requestsBefore[n := r]
      && outgoing == outgoingBefore + [r.message]
    }

    /** A new request becomes pending and goes out. */
    method TrackRequest(request: Request)
      modifies this`nextRequestID, this`requests, this`outgoing
      ensures var s := old(State());
        State() == s.(ledger := Track(s.ledger, request), link := Push(s.link, request.message))
      ensures IssuedAs(request, old(nextRequestID), old(requests), old(outgoing))
    {
      requests := requests[nextRequestID := request];
      nextRequestID := nextRequestID + 1;
      outgoing := outgoing + [request.message];
    }

    lemma StateFields()
      ensures State().reg.queries == queries && State().serverResults == serverResults && State().results == results
      ensures State().ledger.requests == requests && State().ledger.nextRequestID == nextRequestID
    {
    }

    method IssueMutation(path: string, args: seq<Value>, update: Option<Update>) returns (id: Option<RequestID>)
      requires UniqueIds(queries) && nextRequestID !in requests
      modifies this`results, this`nextRequestID, this`requests, this`outgoing
      ensures (State(), id) == MutationStep(old(State()), path, args, update)
      ensures id.None? ==> State() == old(State())
      ensures id.Some? ==>
        && id.value == old(nextRequestID)
        && IssuedAs(Request(id.value, MutationKind, MutationRequest(id.value, path, args), update, None, None),
                    old(nextRequestID), old(requests), old(outgoing))
    {
      hide VisibleResults, UniqueIds, State;
      StateFields();
      var requestID := nextRequestID;
      var message := MutationRequest(requestID, path, args);
      var request := Request(requestID, MutationKind, message, update, None, None);
      if update.Some? {
        var ok := ShowOptimistically(request);
        if !ok {
          return None;
        }
      }
      TrackRequest(request);
      id := Some(requestID);
    }

    method Action(path: string, args: GoValue) returns (id: Option<RequestID>)
      requires Valid()
      modifies this
      ensures Valid() && Now() == Next(old(Now()), Act(path, args))
      ensures id == if CanonicalRequest(path, args).Some? then Some(old(nextRequestID)) else None
      ensures id.Some? ==>
        var (p, a) := CanonicalRequest(path, args).value;
        IssuedAs(Request(id.value, ActionKind, ActionRequest(id.value, p, a), None, None, None),
                 old(nextRequestID), old(requests), old(outgoing))
    {
      hide Inv, CanonicalRequest, Next, ActionStep;
      ghost var before := Now();
      var key := CanonicalRequest(path, args);
      id := None;
      if key.Some? {
        var requestID := IssueAction(key.value.0, key.value.1);
        id := Some(requestID);
      }
      Commit(before, Act(path, args));
    }

    method IssueAction(path: string, args: seq<Value>) returns (id: RequestID)
      modifies this`nextRequestID, this`requests, this`outgoing
      ensures (State(), id) == ActionStep(old(State()), path, args) && id == old(nextRequestID)
      ensures IssuedAs(Request(id, ActionKind, ActionRequest(id, path, args), None, None, None),
                       old(nextRequestID), old(requests), old(outgoing))
    {
      id := nextRequestID;
      nextRequestID := nextRequestID + 1;
      var message := ActionRequest(id, path, args);
      requests := requests[id := Request(id, ActionKind, message, None, None, None)];
      outgoing := outgoing + [message];
    }

    // ---- messages from the server ----

    method ApplyStateModification(m: StateModification) returns (ok: bool)
      modifies this`serverResults, this`results
      ensures (State(), ok) == ApplyModification(old(State()), m)
    {
      hide LedgerNow, LinkNow;
      ok := true;
      match m
      case QueryUpdated(id, value) =>
        if id in queryIDToToken {
          serverResults := serverResults[id := ValueResult(value)];
        }
      case QueryFailed(id, message, data) =>
        if id in queryIDToToken {
          serverResults := serverResults[id := ErrorResult(message, data)];
        }
      case QueryRemoved(id) =>
        serverResults := serverResults - {id};
        results := results - {id};
      case Unsupported =>
        ok := false;
    }

    method ApplyStateModifications(ms: seq<StateModification>) returns (ok: bool)
      modifies this`serverResults, this`results
      ensures (State(), ok) == ApplyModifications(old(State()), ms)
    {
      hide State, ApplyModification;
      for i := 0 to |ms|
        invariant ApplyModifications(State(), ms[i..]) == ApplyModifications(old(State()), ms)
      {
        assert ms[i..][1..] == ms[i + 1..];
        ok := ApplyStateModification(ms[i]);
        if !ok {
          return;
        }
      }
      ok := true;
    }

    method ObserveTimestamp(ts: Timestamp)
      modifies this`maxObservedTimestamp
      ensures maxObservedTimestamp == Observe(old(maxObservedTimestamp), ts)
    {
      if maxObservedTimestamp.None? || ts > maxObservedTimestamp.value {
        maxObservedTimestamp := Some(ts);
      }
    }

    method CommitTransition(end: StateVersion)
      requires Kept(LedgerNow())
      modifies this`remoteVersion, this`maxObservedTimestamp
      modifies this`mutationResults, this`completedMutations, this`completedMutationOrder, this`requests
      ensures State() == TransitionCommit(old(State()), end)
    {
      hide CompleteMutations, Kept, RegNow, LinkNow, LedgerNow, Due, Observe;
      AdvanceVersion(end);
      CompleteMutationsThrough(end.ts);
    }

    method AdvanceVersion(end: StateVersion)
      modifies this`remoteVersion, this`maxObservedTimestamp
      ensures LinkNow() == old(LinkNow()).(remoteVersion := end)
      ensures maxObservedTimestamp == Observe(old(maxObservedTimestamp), end.ts)
    {
      remoteVersion := end;
      ObserveTimestamp(end.ts);
    }

    method ReceiveTransition(start: StateVersion, end: StateVersion, ms: seq<StateModification>) returns (ok: bool)
      requires Kept(LedgerNow()) && UniqueIds(queries)
      modifies this`serverResults, this`results, this`remoteVersion, this`maxObservedTimestamp
      modifies this`mutationResults, this`completedMutations, this`completedMutationOrder, this`requests
      ensures (State(), ok) == TransitionStep(old(State()), start, end, ms)
    {
      hide ApplyModifications, TransitionCommit, Recompute, Kept;
      if start != remoteVersion {
        return false;
      }
      ok := ApplyStateModifications(ms);
      if !ok {
        return;
      }
      CommitTransition(end);
      ok := RecomputeOptimisticResults();
    }

    /** The pending mutation an answer is for. */
    method AnswerMutation(id: RequestID, response: Response, ts: Option<Timestamp>)
      requires id in requests
      modifies this`requests
      ensures LedgerNow() == Answer(old(LedgerNow()), id, response, ts)
    {
      requests := requests[id := requests[id].(result := Some(ResponseResult(response)), ts := ts)];
    }

    /** A failed mutation completes at once, and its optimistic update is rolled back. */
    method FailMutation(id: RequestID, response: Response, ts: Option<Timestamp>) returns (ok: bool)
      requires Kept(LedgerNow()) && UniqueIds(queries)
      requires id in requests && requests[id].kind == MutationKind && !response.success
      modifies this`results, this`mutationResults, this`completedMutations, this`completedMutationOrder, this`requests
      ensures var s1 := old(State()).(ledger := CompleteMutation(Answer(old(LedgerNow()), id, response, ts), id));
        (State(), ok) == if old(requests)[id].update.None? then (s1, true) else Recompute(s1)
    {
      hide Recompute, CompleteMutation, RegNow, LinkNow;
      ghost var before := LedgerNow();
      var hadOptimistic := requests[id].update.Some?;
      AnswerKeepsKept(before, id, response, ts);
      AnswerMutation(id, response, ts);
      CompleteMutationRequest(id);
      ok := true;
      if hadOptimistic {
        ok := RecomputeOptimisticResults();
      }
    }

    method ReceiveMutationResponse(id: RequestID, response: Response, ts: Option<Timestamp>) returns (ok: bool)
      requires Kept(LedgerNow()) && UniqueIds(queries)
      modifies this`results, this`mutationResults, this`completedMutations, this`completedMutationOrder, this`requests
      modifies this`maxObservedTimestamp
      ensures (State(), ok) == MutationResponseStep(old(State()), id, response, ts)
    {
      hide Recompute, CompleteMutation, Kept, UniqueIds, Observe;
      if id !in requests {
        if id !in completedMutations {
          return false;
        }
      } else if requests[id].kind != MutationKind {
        return false;
      } else if !response.success {
        ok := FailMutation(id, response, ts);
        if !ok {
          return;
        }
      } else {
        AnswerMutation(id, response, ts);
        if ts.None? {
          return false;
        }
      }
      if ts.Some? {
        ObserveTimestamp(ts.value);
      }
      ok := true;
    }

    method ReceiveActionResponse(id: RequestID, response: Response) returns (ok: bool)
      requires Kept(LedgerNow())
      modifies this`actionResults, this`actionResultOrder, this`requests
      ensures (State(), ok) == ActionResponseStep(old(State()), id, response)
    {
      hide RegNow, LinkNow;
      if id !in requests || requests[id].kind != ActionKind {
        return false;
      }
      RememberActionResult(id, ResponseResult(response));
      requests := requests - {id};
      ok := true;
    }

    /** ReceiveMessage.  A snapshot is returned after a transition and after the rollback of a
        failed optimistic mutation. */
    method ReceiveMessage(m: ServerMessage) returns (ok: bool, snapshot: Option<QueryResults>)
      requires Valid()
      modifies this
      ensures Valid() && Now() == Next(old(Now()), Receive(m))
      ensures ok == ReceiveStep(old(State()), m).1
      ensures snapshot ==
        if ok && PublishesResults(old(requests), m) then Some(QueryResults(subscribers, results)) else None
      ensures old(IsPlain(State(), m)) ==> ok && results == serverResults
    {
      hide Inv, Next, Step, State, ReceiveStep, IsPlain, Kept, UniqueIds, LedgerNow;
      ghost var before := Now();
      Facts();
      snapshot := None;
      var publishes := PublishesResults(requests, m);
      ok := Dispatch(m);
      PlainFacts(before, m);
      ReceiveIsStep(before.client, m);
      StateFields();
      if ok && publishes {
        var current := LatestResults();
        snapshot := Some(current);
      }
      Commit(before, Receive(m));
    }

    method Dispatch(m: ServerMessage) returns (ok: bool)
      requires Kept(LedgerNow()) && UniqueIds(queries)
      modifies this`serverResults, this`results, this`remoteVersion, this`maxObservedTimestamp
      modifies this`mutationResults, this`completedMutations, this`completedMutationOrder, this`requests
      modifies this`actionResults, this`actionResultOrder
      ensures (State(), ok) == ReceiveStep(old(State()), m)
    {
      hide State, TransitionStep, MutationResponseStep, ActionResponseStep, Kept, UniqueIds;
      match m
      case Transition(start, end, ms) => ok := ReceiveTransition(start, end, ms);
      case MutationResponse(id, response, ts) => ok := ReceiveMutationResponse(id, response, ts);
      case ActionResponse(id, response) => ok := ReceiveActionResponse(id, response);
      case Ping => ok := true;
      case _ => ok := false;
    }

    // ---- reconnecting ----

    /** ReplayOngoingRequests: the pending mutations in replay order. */
    method ReplayOngoingRequests() returns (messages: seq<ClientMessage>)
      ensures messages == ReplayMessages(requests)
    {
      var ids := CollectIds(requests, (r: Request) => r.kind == MutationKind);
      var keys := KeysOf(ids, requests);
      ReplayBeforeTotal();
      keys := SortSlice(keys, ReplayBefore);
      messages := MessagesInOrder(keys, requests);
    }

    method ReplayQueryAdds() returns (adds: seq<QuerySetModification>)
      requires UniqueIds(queries)
      ensures adds == ReplayAdds(queries)
    {
      hide QueryWithId, UniqueIds;
      var qs := SortedBaseQueries(queries);
      adds := [];
      for i := 0 to |qs|
        invariant |adds| == i
        invariant forall j :: 0 <= j < i ==> adds[j] == Add(qs[j].id, qs[j].path, qs[j].args)
      {
        adds := adds + [Add(qs[i].id, qs[i].path, qs[i].args)];
      }
      assert adds == ReplayAdds(queries);
    }

    method ResetSession()
      requires Kept(LedgerNow())
      modifies this`outgoing, this`identityVersion, this`querySetVersion, this`remoteVersion
      modifies this`actionResults, this`actionResultOrder, this`requests
      ensures State() == ClearSession(old(State()))
    {
      hide CancelActions, Kept, RegNow, LedgerNow, PendingOf;
      ResetLink();
      CancelPendingActions();
    }

    method ResetLink()
      modifies this`outgoing, this`identityVersion, this`querySetVersion, this`remoteVersion
      ensures LinkNow() == Link(0, 0, ZERO_VERSION, [])
    {
      outgoing := [];
      identityVersion := 0;
      querySetVersion := 0;
      remoteVersion := ZERO_VERSION;
    }

    method ReplaySession()
      requires UniqueIds(queries)
      modifies this`outgoing, this`querySetVersion
      ensures State() == ClientSteps.Replay(old(State()))
    {
      hide ReplayAdds, ReplayMessages;
      var adds := ReplayQueryAdds();
      if |adds| > 0 {
        var baseVersion := querySetVersion;
        querySetVersion := querySetVersion + 1;
        outgoing := outgoing + [ModifyQuerySet(baseVersion, querySetVersion, adds)];
      }
      var messages := ReplayOngoingRequests();
      outgoing := outgoing + messages;
    }

    /** RestartForReconnect: rebuilds the session from local state. */
    method RestartForReconnect(fetched: Option<AuthToken>) returns (ok: bool)
      requires Valid()
      modifies this
      ensures Valid() && Now() == Next(old(Now()), Restart(fetched))
      ensures ok == RestartStep(old(State()), fetched).1
    {
      hide Inv, Next, State, ClearSession, ClientSteps.Replay, RefreshAuthStep;
      ghost var before := Now();
      Facts();
      ok := RebuildSession(fetched);
      Commit(before, Restart(fetched));
    }

    method RebuildSession(fetched: Option<AuthToken>) returns (ok: bool)
      requires Kept(LedgerNow()) && UniqueIds(queries)
      modifies this`outgoing, this`identityVersion, this`querySetVersion, this`remoteVersion
      modifies this`actionResults, this`actionResultOrder, this`requests
      ensures (State(), ok) == RestartStep(old(State()), fetched)
    {
      hide ClearSession, ClientSteps.Replay, RefreshAuthStep, Kept, UniqueIds;
      ResetSession();
      ok := true;
      if authFetcher.Some? {
        ok := RefreshAuth(fetched);
      }
      if ok {
        ReplaySession();
      }
    }

    // ---- reading results ----

    /** GetQuery */
    method GetQuery(id: QueryID) returns (r: Option<FunctionResult>)
      requires Valid()
      ensures r == if id in results then Some(results[id]) else None
    {
      ResultsAreActive(Now());
      if id !in queryIDToToken {
        return None;
      }
      r := if id in results then Some(results[id]) else None;
    }

    /** MutationResult finds exactly the most recent completions. */
    method MutationResult(id: RequestID) returns (r: Option<FunctionResult>)
      requires Valid()
      ensures r.Some? <==> id in LastN(history.done.mutations, limit)
      ensures r.Some? ==> id in history.done.mutationResults && r.value == history.done.mutationResults[id]
    {
      hide RegistryPart, SessionPart;
      r := if id in mutationResults then Some(mutationResults[id]) else None;
      assert id in mutationResults <==> id in Elements(completedMutationOrder);
    }

    method ActionResult(id: RequestID) returns (r: Option<FunctionResult>)
      requires Valid()
      ensures r.Some? <==> id in LastN(history.done.actions, limit)
      ensures r.Some? ==> id in history.done.actionResults && r.value == history.done.actionResults[id]
    {
      hide RegistryPart, SessionPart;
      r := if id in actionResults then Some(actionResults[id]) else None;
      assert id in actionResults <==> id in Elements(actionResultOrder);
    }
  }

  lemma EvictionResult(before: seq<RequestID>, id: RequestID, after: seq<RequestID>, limit: nat)
    requires after == LastN(before + [id], limit)
    ensures (set x | x in Elements(before) + {id} && x in after) == Elements(after)
  {
    CompletedSet(before, id, limit);
  }

  lemma CompleteKeepsKept(l: Ledger, id: RequestID)
    requires Kept(l)
    ensures Kept(CompleteMutation(l, id))
  {
    if id in l.requests && l.requests[id].result.Some? {
      RememberKeeps(l.completedMutationOrder, l.mutationResults, id, l.requests[id].result.value, l.limit);
      CompletedSet(l.completedMutationOrder, id, l.limit);
    }
  }

  lemma AnswerKeepsKept(l: Ledger, id: RequestID, response: Response, ts: Option<Timestamp>)
    requires Kept(l) && id in l.requests
    ensures Kept(Answer(l, id, response, ts))
  {
  }

  lemma ResultsAreActive(w: World)
    requires Inv(w)
    ensures w.client.results.Keys <= w.client.reg.queryIDToToken.Keys
  {
  }

  lemma ReceiveIsStep(s: Client, m: ServerMessage)
    ensures Step(s, Receive(m)) == ReceiveStep(s, m).0
  {
    hide ReceiveStep;
  }

  lemma PlainFacts(w: World, m: ServerMessage)
    requires Inv(w)
    ensures IsPlain(w.client, m) ==>
      ReceiveStep(w.client, m).1 && ReceiveStep(w.client, m).0.results == ReceiveStep(w.client, m).0.serverResults
  {
    hide Inv, ReceiveStep, IsPlain, Scoped;
    StepInvParts(w);
    if IsPlain(w.client, m) {
      PlainReceive(w.client, m);
    }
  }

  lemma CancelKeepsKept(l: Ledger, id: RequestID)
    requires Kept(l) && id in l.requests
    ensures Kept(CancelAction(l, id))
  {
    RememberKeeps(l.actionResultOrder, l.actionResults, id, ErrorMessageResult(RECONNECT_ERROR), l.limit);
  }

  lemma RememberKeeps(order: seq<RequestID>, m: map<RequestID, FunctionResult>, id: RequestID,
      result: FunctionResult, limit: nat)
    requires Distinct(order) && m.Keys == Elements(order) && id !in order
    ensures var order' := LastN(order + [id], limit);
      && Distinct(order') && Retain(m[id := result], order').Keys == Elements(order')
      && forall x :: x in order' ==> x == id || x in order
  {
    var order' := LastN(order + [id], limit);
    LastNElements(order + [id], limit);
    forall x | x in order' ensures x in m[id := result] {
      assert x == id || x in Elements(order);
    }
  }

  /** What the private methods need of a valid client. */
  lemma ClientFacts(w: World)
    requires Inv(w)
    ensures UniqueIds(w.client.reg.queries) && Kept(w.client.ledger)
    ensures w.client.ledger.nextRequestID !in w.client.ledger.requests
  {
    IdsAreKeys(w.client.reg);
    LedgerIsKept(w.client.ledger, w.history.done);
  }

  lemma SubscribeFreshIn(w: World, k: QueryKey)
    requires Inv(w)
    ensures SubscribeStep(w.client, k).1 !in w.history.issued
  {
    SubscribeIsFresh(w.client.reg, k, w.history.issued);
  }

  lemma UnsubscribeCases(w: World, id: SubscriberID)
    requires Inv(w)
    ensures var outcome := UnsubscribeStep(w.client, id).1;
      && (outcome == UnknownSubscriber <==> id !in w.client.reg.subscribers)
      && outcome != UnknownQuery && outcome != MissingToken
  {
    UnsubscribeOutcomes(w.client.reg, id);
  }
}

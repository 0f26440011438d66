/** The ref-counted query registry: what every step keeps about queries, subscribers and
    result keys. */
module RegistryInvariant {
  import opened Prelude
  import opened Values
  import opened Canonical
  import opened Protocol
  import opened Optimistic
  import opened ClientSteps

  ghost function SubscribersOf(subs: set<SubscriberID>, id: QueryID): set<SubscriberID> {
    set x | x in subs && x.queryID == id
  }

  /** queries and queryIDToToken are mutually inverse, and ids are below the next one. */
  ghost predicate Inverse(r: Reg) {
    && (forall t :: t in r.queries ==>
          r.queries[t].id in r.queryIDToToken && r.queryIDToToken[r.queries[t].id] == t)
    && (forall i :: i in r.queryIDToToken ==>
          r.queryIDToToken[i] in r.queries && r.queries[r.queryIDToToken[i]].id == i && i < r.nextQueryID)
  }

  /** Each count is the number of live subscribers of that query, and at least one. */
  ghost predicate Counted(r: Reg) {
    && (forall t :: t in r.queries ==>
          && r.queries[t].numSubscribers == |SubscribersOf(r.subscribers, r.queries[t].id)|
          && r.queries[t].numSubscribers >= 1)
    && (forall x :: x in r.subscribers ==> x.queryID in r.queryIDToToken)
  }

  ghost predicate Registered(r: Reg) {
    Inverse(r) && Counted(r)
  }

  /** Each query sits under the token of its own path and arguments. */
  ghost predicate Keyed(r: Reg) {
    forall t :: t in r.queries ==> IsKey(QueryKey(r.queries[t].path, r.queries[t].args, t))
  }

  /** Every subscriber id handed out so far is accounted for, so none can recur. */
  ghost predicate Issued(r: Reg, issued: set<SubscriberID>) {
    && r.subscribers <= issued
    && forall x :: x in issued ==>
         && x.queryID < r.nextQueryID
         && (x.queryID in r.queryIDToToken && r.queryIDToToken[x.queryID] in r.queries ==>
               x.index <= r.queries[r.queryIDToToken[x.queryID]].lastIndex)
  }

  /** Results exist only for active queries. */
  ghost predicate Scoped(s: Client) {
    s.serverResults.Keys <= s.reg.queryIDToToken.Keys && s.results.Keys <= s.reg.queryIDToToken.Keys
  }

  lemma SubscribersAdd(subs: set<SubscriberID>, x: SubscriberID, id: QueryID)
    requires x !in subs
    ensures |SubscribersOf(subs + {x}, id)| == |SubscribersOf(subs, id)| + (if x.queryID == id then 1 else 0)
  {
    if x.queryID == id {
      assert SubscribersOf(subs + {x}, id) == SubscribersOf(subs, id) + {x};
    } else {
      assert SubscribersOf(subs + {x}, id) == SubscribersOf(subs, id);
    }
  }

  lemma SubscribersRemove(subs: set<SubscriberID>, x: SubscriberID, id: QueryID)
    requires x in subs
    ensures |SubscribersOf(subs - {x}, id)| == |SubscribersOf(subs, id)| - (if x.queryID == id then 1 else 0)
  {
    SubscribersAdd(subs - {x}, x, id);
    assert subs - {x} + {x} == subs;
  }

  lemma IdsAreKeys(r: Reg)
    requires Inverse(r)
    ensures Ids(r.queries) == r.queryIDToToken.Keys && UniqueIds(r.queries)
  {
    forall i | i in r.queryIDToToken ensures i in Ids(r.queries) {
      assert r.queries[r.queryIDToToken[i]].id == i;
    }
  }

  lemma QueryOfId(r: Reg, id: QueryID)
    requires Inverse(r) && id in r.queryIDToToken
    ensures id in Ids(r.queries) && QueryWithId(r.queries, id) == r.queries[r.queryIDToToken[id]]
  {
    IdsAreKeys(r);
    var q := QueryWithId(r.queries, id);
    var t :| t in r.queries && r.queries[t] == q;
    assert r.queryIDToToken[q.id] == t;
  }

  lemma SubscribeKeepsInverse(r: Reg, k: QueryKey)
    requires Inverse(r)
    ensures Inverse(RegSubscribe(r, k).0)
  {
    var t := RegSubscribe(r, k).0;
    if k.token in r.queries {
      assert t.queries.Keys == r.queries.Keys;
    }
  }

  lemma SubscribeKeepsKeyed(r: Reg, k: QueryKey)
    requires Keyed(r) && IsKey(k)
    ensures Keyed(RegSubscribe(r, k).0)
  {
    hide IsKey;
    assert k == QueryKey(k.path, k.args, k.token);
  }

  lemma SubscribeKeepsCounted(r: Reg, k: QueryKey, issued: set<SubscriberID>)
    requires Registered(r) && Issued(r, issued)
    ensures Counted(RegSubscribe(r, k).0)
  {
    var (t, id) := RegSubscribe(r, k);
    SubscribeIsFresh(r, k, issued);
    forall u | u in t.queries
      ensures t.queries[u].numSubscribers == |SubscribersOf(t.subscribers, t.queries[u].id)|
        && t.queries[u].numSubscribers >= 1
    {
      SubscribersAdd(r.subscribers, id, t.queries[u].id);
      if u == k.token && u !in r.queries {
        assert SubscribersOf(r.subscribers, r.nextQueryID) == {};
      } else {
        assert u in r.queries && r.queryIDToToken[r.queries[u].id] == u;
      }
    }
  }

  /** No subscriber id is ever handed out twice. */
  lemma SubscribeIsFresh(r: Reg, k: QueryKey, issued: set<SubscriberID>)
    requires Inverse(r) && Issued(r, issued)
    ensures RegSubscribe(r, k).1 !in issued
    ensures Issued(RegSubscribe(r, k).0, issued + {RegSubscribe(r, k).1})
  {
    var (t, id) := RegSubscribe(r, k);
    if k.token in r.queries {
      assert r.queryIDToToken[r.queries[k.token].id] == k.token;
    }
  }

  /** The two "cannot happen" errors of Unsubscribe are unreachable. */
  lemma UnsubscribeOutcomes(r: Reg, id: SubscriberID)
    requires Registered(r)
    ensures id !in r.subscribers ==> RegUnsubscribe(r, id) == (r, UnknownSubscriber)
    ensures id in r.subscribers ==>
      RegUnsubscribe(r, id).1 ==
        (if SubscribersOf(r.subscribers, id.queryID) == {id} then LastUnsubscribed else Unsubscribed)
  {
    if id in r.subscribers {
      var subs := SubscribersOf(r.subscribers, id.queryID);
      assert id in subs;
      if |subs| == 1 {
        LastSubscriber(r.subscribers, id);
        assert subs == {id};
      }
      assert r.queryIDToToken[id.queryID] in r.queries;
    }
  }

  lemma UnsubscribeKeepsInverse(r: Reg, id: SubscriberID)
    requires Inverse(r)
    ensures Inverse(RegUnsubscribe(r, id).0)
  {
  }

  lemma UnsubscribeKeepsKeyed(r: Reg, id: SubscriberID)
    requires Keyed(r)
    ensures Keyed(RegUnsubscribe(r, id).0)
  {
    hide IsKey;
    var t := RegUnsubscribe(r, id).0;
    assert forall u :: u in t.queries ==>
      u in r.queries && t.queries[u].path == r.queries[u].path && t.queries[u].args == r.queries[u].args;
  }

  lemma UnsubscribeKeepsCounted(r: Reg, id: SubscriberID)
    requires Registered(r)
    ensures Counted(RegUnsubscribe(r, id).0)
  {
    if id in r.subscribers {
      var t := RegUnsubscribe(r, id).0;
      var token := r.queryIDToToken[id.queryID];
      forall u | u in t.queries
        ensures t.queries[u].numSubscribers == |SubscribersOf(t.subscribers, t.queries[u].id)|
          && t.queries[u].numSubscribers >= 1
      {
        assert u in r.queries && r.queryIDToToken[r.queries[u].id] == u;
        SubscribersRemove(r.subscribers, id, r.queries[u].id);
      }
      if token !in t.queries {
        LastSubscriber(r.subscribers, id);
      }
    }
  }

  lemma LastSubscriber(subs: set<SubscriberID>, id: SubscriberID)
    requires id in subs && |SubscribersOf(subs, id.queryID)| == 1
    ensures forall x :: x in subs && x.queryID == id.queryID ==> x == id
  {
    var all := SubscribersOf(subs, id.queryID);
    assert all == {id} + (all - {id});
    assert all - {id} == {};
    forall x | x in subs && x.queryID == id.queryID ensures x == id {
      assert x in all;
    }
  }

  lemma UnsubscribeKeepsIssued(r: Reg, id: SubscriberID, issued: set<SubscriberID>)
    requires Inverse(r) && Issued(r, issued)
    ensures Issued(RegUnsubscribe(r, id).0, issued)
  {
  }

  lemma {:induction false} ModificationsStayScoped(s: Client, ms: seq<StateModification>)
    requires Scoped(s)
    ensures var t := ApplyModifications(s, ms).0;
      Scoped(t) && t == s.(serverResults := t.serverResults, results := t.results)
    decreases ms
  {
    if ms != [] {
      var (s1, ok) := ApplyModification(s, ms[0]);
      if ok {
        ModificationsStayScoped(s1, ms[1..]);
      }
    }
  }

  lemma VisibleStaysScoped(s: Client)
    requires Inverse(s.reg) && Scoped(s)
    ensures var v := VisibleResults(s.reg.queries, s.serverResults, s.ledger.requests);
      v.Some? ==> v.value.Keys <= s.reg.queryIDToToken.Keys
  {
    IdsAreKeys(s.reg);
    ApplyAllStaysActive(PendingUpdates(s.ledger.requests), s.reg.queries, s.serverResults);
  }
}

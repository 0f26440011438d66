/** Snapshots of the visible results, as handed to callers. */
module QuerySnapshots {
  import opened Prelude
  import opened Orders
  import opened Protocol
  import opened Optimistic

  datatype QueryResultEntry = QueryResultEntry(id: SubscriberID, result: Option<FunctionResult>)

  predicate SubscriberBefore(a: SubscriberID, b: SubscriberID) {
    if a.queryID != b.queryID then a.queryID < b.queryID else a.index < b.index
  }

  lemma SubscriberBeforeTotal()
    ensures StrictTotal(SubscriberBefore)
  {
  }

  datatype QueryResults = QueryResults(subscribers: set<SubscriberID>, results: Results) {
    function Get(id: SubscriberID): Option<FunctionResult> {
      if id in subscribers && id.queryID in results then Some(results[id.queryID]) else None
    }

    /** Each subscriber exactly once, in increasing order, with the result it sees; so
        subscribers of one query are adjacent and agree. */
    method Iter() returns (entries: seq<QueryResultEntry>)
      ensures |entries| == |subscribers|
      ensures forall x :: x in subscribers <==> exists i :: 0 <= i < |entries| && entries[i].id == x
      ensures forall i, j :: 0 <= i < j < |entries| ==> SubscriberBefore(entries[i].id, entries[j].id)
      ensures forall i :: 0 <= i < |entries| ==> entries[i].result == Get(entries[i].id)
      ensures forall i, j :: 0 <= i < j < |entries| && entries[i].id.queryID == entries[j].id.queryID ==>
        entries[i].result == entries[j].result
    {
      var sorted := SortSubscribers(subscribers);
      entries := [];
      for i := 0 to |sorted|
        invariant |entries| == i
        invariant forall j :: 0 <= j < i ==> entries[j].id == sorted[j] && entries[j].result == Get(sorted[j])
      {
        var id := sorted[i];
        assert id in sorted;
        entries := entries +
          [QueryResultEntry(id, if id.queryID in results then Some(results[id.queryID]) else None)];
      }
      forall x ensures x in subscribers <==> exists i :: 0 <= i < |entries| && entries[i].id == x {
        if x in subscribers {
          var i :| 0 <= i < |sorted| && sorted[i] == x;
          assert entries[i].id == x;
        }
        forall i | 0 <= i < |entries| ensures entries[i].id in subscribers {
          assert sorted[i] in sorted;
        }
      }
      assert forall i :: 0 <= i < |sorted| ==> sorted[i] in subscribers;
    }
  }

  method SortSubscribers(subscribers: set<SubscriberID>) returns (sorted: seq<SubscriberID>)
    ensures |sorted| == |subscribers| && forall x :: x in sorted <==> x in subscribers
    ensures forall i, j :: 0 <= i < j < |sorted| ==> SubscriberBefore(sorted[i], sorted[j])
  {
    var ids := Range(subscribers);
    SubscriberBeforeTotal();
    sorted := SortSlice(ids, SubscriberBefore);
    assert forall x :: x in sorted <==> x in Elements(sorted);
  }
}

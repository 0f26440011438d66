/** The mutable store optimistic updates write to, and the loop that replays them. */
module LocalStore {
  import opened Prelude
  import opened Orders
  import opened Values
  import opened Paths
  import opened Canonical
  import opened Protocol
  import opened Optimistic

  /** The registered queries, found by their ids. */
  method IndexById(queries: Registry) returns (byId: map<QueryID, Query>)
    requires UniqueIds(queries)
    ensures byId.Keys == Ids(queries)
    ensures forall t :: t in queries ==> queries[t].id in byId && byId[queries[t].id] == queries[t]
  {
    byId := map[];
    var rest := queries.Keys;
    while rest != {}
      invariant rest <= queries.Keys
      invariant forall t :: t in queries && t !in rest ==> queries[t].id in byId && byId[queries[t].id] == queries[t]
      invariant forall id :: id in byId ==> id in Ids(queries)
      decreases rest
    {
      var t :| t in rest;
      rest := rest - {t};
      assert queries[t].id in Ids(queries);
      byId := byId[queries[t].id := queries[t]];
    }
  }

  /** sortedBaseQueries: the registered queries by increasing id. */
  method SortedBaseQueries(queries: Registry) returns (qs: seq<Query>)
    requires UniqueIds(queries)
    ensures var ids := Ascending(Ids(queries));
      |qs| == |ids| && forall i :: 0 <= i < |ids| ==> ids[i] in Ids(queries) && qs[i] == QueryWithId(queries, ids[i])
  {
    var byId := IndexById(queries);
    var unsorted := Range(byId.Keys);
    var ids := SortIds(unsorted);
    qs := [];
    for i := 0 to |ids|
      invariant |qs| == i && forall j :: 0 <= j < i ==> ids[j] in Ids(queries) && qs[j] == QueryWithId(queries, ids[j])
    {
      assert ids[i] in Ids(queries);
      ghost var q := QueryWithId(queries, ids[i]);
      ghost var t :| t in queries && queries[t] == q;
      qs := qs + [byId[ids[i]]];
    }
  }

  class OptimisticLocalStore {
    const queries: Registry
    var results: Results

    constructor (results: Results, queries: Registry)
      ensures this.results == results && this.queries == queries
    {
      this.results := results;
      this.queries := queries;
    }

    method GetQuery(path: string, args: GoValue) returns (reply: Reply)
      ensures (results, reply) == Exec(StoreOp.GetQuery(path, args), queries, results)
    {
      hide CanonicalQuery, ValueFromGo, ResultValue;
      var key := CanonicalQuery(path, args);
      if key.None? {
        return Failed;
      }
      if key.value.token !in queries {
        return NoValue;
      }
      var id := queries[key.value.token].id;
      if id !in results {
        return NoValue;
      }
      var value := ResultValue(results[id]);
      reply := if value.Some? then Found(value.value) else NoValue;
    }

    method GetAllQueries(path: string) returns (reply: Reply)
      requires UniqueIds(queries)
      ensures (results, reply) == Exec(StoreOp.GetAllQueries(path), queries, results)
    {
      hide CanonicalQueryPath, EntryOf, QueryWithId, EntriesFor, Ids, UniqueIds;
      var canonical := CanonicalQueryPath(path);
      if canonical.None? {
        return Failed;
      }
      var qs := SortedBaseQueries(queries);
      ghost var ids := Ascending(Ids(queries));
      var entries: seq<Entry> := [];
      NoEntries(queries, results, canonical.value);
      for i := 0 to |qs|
        invariant entries == EntriesFor(ids[..i], queries, results, canonical.value)
      {
        var q := qs[i];
        EntriesSnoc(ids, i, queries, results, canonical.value);
        if q.path == canonical.value {
          entries := entries + [EntryOf(q, results)];
        }
      }
      assert ids[..|qs|] == ids;
      reply := Entries(entries);
    }

    method SetQuery(path: string, args: GoValue, value: GoValue) returns (reply: Reply)
      modifies this
      ensures (results, reply) == Exec(StoreOp.SetQuery(path, args, value), queries, old(results))
    {
      hide CanonicalQuery, ValueFromGo, ResultValue;
      var key := CanonicalQuery(path, args);
      if key.None? {
        return Failed;
      }
      if key.value.token !in queries {
        return Done;
      }
      var v := ValueFromGo(value);
      if v.None? {
        return Failed;
      }
      results := results[queries[key.value.token].id := ValueResult(v.value)];
      reply := Done;
    }

    method SetQueryLoading(path: string, args: GoValue) returns (reply: Reply)
      modifies this
      ensures (results, reply) == Exec(StoreOp.SetQueryLoading(path, args), queries, old(results))
    {
      hide CanonicalQuery, ValueFromGo, ResultValue;
      var key := CanonicalQuery(path, args);
      if key.None? {
        return Failed;
      }
      if key.value.token in queries {
        results := results - {queries[key.value.token].id};
      }
      reply := Done;
    }

    method Do(op: StoreOp) returns (reply: Reply)
      requires UniqueIds(queries)
      modifies this
      ensures (results, reply) == Exec(op, queries, old(results))
    {
      match op
      case GetQuery(path, args) => reply := GetQuery(path, args);
      case GetAllQueries(path) => reply := GetAllQueries(path);
      case SetQuery(path, args, value) => reply := SetQuery(path, args, value);
      case SetQueryLoading(path, args) => reply := SetQueryLoading(path, args);
    }

    /** Running one callback against the store, in place. */
    method Run(u: Update) returns (ok: bool)
      requires UniqueIds(queries)
      modifies this
      ensures match Apply(u, queries, old(results))
        case None => !ok
        case Some(r) => ok && results == r
    {
      hide Exec;
      var current := u;
      while current.Call?
        invariant Apply(current, queries, results) == Apply(u, queries, old(results))
        decreases current
      {
        var reply := Do(current.op);
        if reply !in current.cont {
          return false;
        }
        current := current.cont[reply];
      }
      ok := current.ok;
    }
  }

  lemma NoEntries(queries: Registry, results: Results, path: string)
    ensures EntriesFor([], queries, results, path) == []
  {
  }

  /** Replaying updates in order over a copy of the server results. */
  method ReplayUpdates(us: seq<Update>, queries: Registry, server: Results) returns (r: Option<Results>)
    requires UniqueIds(queries)
    ensures r == ApplyAll(us, queries, server)
  {
    hide Apply;
    var store := new OptimisticLocalStore(server, queries);
    for i := 0 to |us|
      invariant store.queries == queries
      invariant ApplyAll(us[..i], queries, server) == Some(store.results)
    {
      assert us[..i + 1] == us[..i] + [us[i]];
      ApplyAllSnoc(us[..i], us[i], queries, server);
      var ok := store.Run(us[i]);
      if !ok {
        FailureIsFinal(us, i + 1, queries, server);
        return None;
      }
    }
    assert us[..|us|] == us;
    r := Some(store.results);
  }

  lemma {:induction false} FailureIsFinal(us: seq<Update>, n: nat, queries: Registry, server: Results)
    requires n <= |us| && ApplyAll(us[..n], queries, server).None?
    ensures ApplyAll(us, queries, server).None?
  {
    if n == |us| {
      assert us[..n] == us;
    } else {
      assert us[..|us| - 1][..n] == us[..n];
      FailureIsFinal(us[..|us| - 1], n, queries, server);
    }
  }
}

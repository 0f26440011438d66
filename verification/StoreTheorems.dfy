/** What optimistic callbacks may rely on: the laws of the local store. */
module StoreTheorems {
  import opened Prelude
  import opened Orders
  import opened Values
  import opened Paths
  import opened Spellings
  import opened Canonical
  import opened Protocol
  import opened Optimistic

  // ---- spellings do not matter ----

  /** Two operations of the same kind that address the same canonical query, with values that
      encode alike. */
  predicate SameOperation(a: StoreOp, b: StoreOp) {
    match (a, b)
    case (GetQuery(p, x), GetQuery(q, y)) => CanonicalQuery(p, x) == CanonicalQuery(q, y)
    case (GetAllQueries(p), GetAllQueries(q)) => CanonicalQueryPath(p) == CanonicalQueryPath(q)
    case (SetQuery(p, x, v), SetQuery(q, y, w)) =>
      CanonicalQuery(p, x) == CanonicalQuery(q, y) && ValueFromGo(v) == ValueFromGo(w)
    case (SetQueryLoading(p, x), SetQueryLoading(q, y)) => CanonicalQuery(p, x) == CanonicalQuery(q, y)
    case _ => false
  }

  lemma SameOperationsExecAlike(a: StoreOp, b: StoreOp, queries: Registry, results: Results)
    requires SameOperation(a, b)
    ensures Exec(a, queries, results) == Exec(b, queries, results)
  {
    hide CanonicalQuery, CanonicalQueryPath, ValueFromGo, EntriesFor, ResultValue;
  }

  /** Any two accepted spellings of a function, with arguments of the same value, make the
      same operation. */
  lemma SpellingsReachTheSameQuery(comps: seq<string>, fn: string, sp: Spelling, sp': Spelling, args: GoValue,
                                   args': GoValue, value: GoValue)
    requires DotFreeModule(comps) && ValidIdentifier(fn) && ArgValue(args) == ArgValue(args')
    requires ValidSpelling(sp) && ValidSpelling(sp') && !Refused(comps, sp) && !Refused(comps, sp')
    ensures var p, p' := Spell(comps, fn, sp), Spell(comps, fn, sp');
      && SameOperation(GetQuery(p, args), GetQuery(p', args'))
      && SameOperation(GetAllQueries(p), GetAllQueries(p'))
      && SameOperation(SetQuery(p, args, value), SetQuery(p', args', value))
      && SameOperation(SetQueryLoading(p, args), SetQueryLoading(p', args'))
  {
    hide CanonicalQueryPath, ArgValue, ConvexJSON, StableJSON, ValueFromGo;
    SpellingsCollapse(comps, fn, sp);
    SpellingsCollapse(comps, fn, sp');
  }

  /** v is the callback u with its operations respelled. */
  ghost predicate Respells(u: Update, v: Update)
    decreases u
  {
    match u
    case Return(ok) => v == u
    case Call(op, cont) =>
      && v.Call? && SameOperation(op, v.op)
      && (forall r :: r in cont <==> r in v.cont)
      && forall r :: r in cont ==> Respells(cont[r], v.cont[r])
  }

  /** What a callback does is independent of how it spells the queries it addresses. */
  lemma {:induction false} RespelledUpdatesApplyAlike(u: Update, v: Update, queries: Registry, results: Results)
    requires Respells(u, v)
    ensures Apply(u, queries, results) == Apply(v, queries, results)
    decreases u
  {
    hide Exec, SameOperation;
    match u
    case Return(ok) =>
    case Call(op, cont) =>
      SameOperationsExecAlike(op, v.op, queries, results);
      var (next, reply) := Exec(op, queries, results);
      if reply in cont {
        RespelledUpdatesApplyAlike(cont[reply], v.cont[reply], queries, next);
      }
  }

  // ---- reads after writes ----

  ghost function Read(path: string, args: GoValue, queries: Registry, results: Results): Reply {
    Exec(GetQuery(path, args), queries, results).1
  }

  /** Both addresses canonicalize, to the same query. */
  predicate SameQuery(path: string, args: GoValue, path': string, args': GoValue) {
    var k, l := CanonicalQuery(path, args), CanonicalQuery(path', args');
    k.Some? && l.Some? && k.value.token == l.value.token
  }

  /** Read after write: an accepted write to an active query is what every spelling of that
      query reads afterwards, and no other read changes. */
  lemma SetThenGet(path: string, args: GoValue, value: GoValue, path': string, args': GoValue, queries: Registry,
                   results: Results)
    requires UniqueIds(queries)
    ensures var (written, reply) := Exec(SetQuery(path, args, value), queries, results);
      match CanonicalQuery(path, args)
      case None => written == results && reply == Failed
      case Some(k) =>
        if k.token !in queries then written == results && reply == Done
        else
          match ValueFromGo(value)
          case None => written == results && reply == Failed
          case Some(v) =>
            reply == Done &&
            Read(path', args', queries, written) ==
              if SameQuery(path, args, path', args') then Found(v) else Read(path', args', queries, results)
  {
    hide CanonicalQuery, ValueFromGo;
  }

  /** Loading hides exactly one query. */
  lemma LoadingThenGet(path: string, args: GoValue, path': string, args': GoValue, queries: Registry, results: Results)
    requires UniqueIds(queries)
    ensures var (written, reply) := Exec(SetQueryLoading(path, args), queries, results);
      && (reply == Failed <==> CanonicalQuery(path, args).None?)
      && Read(path', args', queries, written) ==
           if SameQuery(path, args, path', args') then NoValue else Read(path', args', queries, results)
  {
    hide CanonicalQuery, ResultValue;
  }

  /** What a read shows: the value of an active query that has one, and nothing while the query
      is loading, has failed or is not active. */
  lemma ReadsWhatIsVisible(path: string, args: GoValue, k: QueryKey, queries: Registry, results: Results)
    requires CanonicalQuery(path, args) == Some(k)
    ensures k.token !in queries ==> Read(path, args, queries, results) == NoValue
    ensures k.token in queries && queries[k.token].id !in results ==> Read(path, args, queries, results) == NoValue
    ensures k.token in queries ==> forall v ::
      Read(path, args, queries, results[queries[k.token].id := ValueResult(v)]) == Found(v)
    ensures k.token in queries ==> forall message, data: Option<Value> :: message != "" || data.Some? ==>
      Read(path, args, queries, results[queries[k.token].id := ErrorResult(message, data)]) == NoValue
  {
    hide CanonicalQuery;
  }

  // ---- listing ----

  /** The entry shows the query's path and argument, and its value if it has one. */
  ghost predicate Describes(e: Entry, q: Query, results: Results) {
    && e.path == q.path && e.args == (if |q.args| > 0 then q.args[0] else Null)
    && e.value ==
         if q.id in results && results[q.id].errorMessage == "" && results[q.id].convexError.None?
         then Some(results[q.id].value) else None
  }

  /** One entry for each of these queries, in this order. */
  ghost predicate ListsInOrder(es: seq<Entry>, order: seq<QueryID>, queries: Registry, results: Results) {
    && |es| == |order|
    && forall i :: 0 <= i < |es| ==>
         order[i] in Ids(queries) && Describes(es[i], QueryWithId(queries, order[i]), results)
  }

  /** The ids of the queries with this path, among some ids. */
  ghost function PathIds(queries: Registry, path: string, ids: seq<QueryID>): set<QueryID> {
    set t | t in queries && queries[t].path == path && queries[t].id in ids :: queries[t].id
  }

  lemma PathIdsSnoc(queries: Registry, path: string, ids: seq<QueryID>)
    requires UniqueIds(queries) && ids != [] && ids[|ids| - 1] in Ids(queries)
    ensures var n := |ids| - 1;
      PathIds(queries, path, ids) ==
        PathIds(queries, path, ids[..n]) + (if QueryWithId(queries, ids[n]).path == path then {ids[n]} else {})
  {
    var n := |ids| - 1;
    assert ids == ids[..n] + [ids[n]];
    var q := QueryWithId(queries, ids[n]);
    var t :| t in queries && queries[t] == q;
    assert forall u :: u in queries && queries[u].id == ids[n] ==> u == t;
  }

  lemma {:induction false} EntriesInOrder(ids: seq<QueryID>, queries: Registry, results: Results, path: string)
    requires UniqueIds(queries) && forall i :: 0 <= i < |ids| ==> ids[i] in Ids(queries)
    requires forall i, j :: 0 <= i < j < |ids| ==> ids[i] < ids[j]
    ensures ListsInOrder(EntriesFor(ids, queries, results, path), Ascending(PathIds(queries, path, ids)), queries,
                         results)
  {
    hide UniqueIds, Ids, QueryWithId, PathIds, ListsInOrder, EntryOf;
    if ids == [] {
      NothingInOrder(queries, results, path);
    } else {
      var n := |ids| - 1;
      EntriesInOrder(ids[..n], queries, results, path);
      PathIdsSnoc(queries, path, ids);
      var es, before := EntriesFor(ids[..n], queries, results, path), PathIds(queries, path, ids[..n]);
      var q := QueryWithId(queries, ids[n]);
      if q.path == path {
        PathIdsAreIds(queries, path, ids[..n]);
        assert forall y :: y in before ==> y < ids[n];
        AscendingSnoc(before, ids[n]);
        OneMore(es, Ascending(before), ids[n], queries, results);
      } else {
        assert es + [] == es && before + {} == before;
      }
    }
  }

  lemma NothingInOrder(queries: Registry, results: Results, path: string)
    ensures ListsInOrder([], Ascending(PathIds(queries, path, [])), queries, results)
  {
    assert PathIds(queries, path, []) == {};
  }

  lemma PathIdsAreIds(queries: Registry, path: string, ids: seq<QueryID>)
    ensures forall id :: id in PathIds(queries, path, ids) ==> id in ids
  {
  }

  lemma OneMore(es: seq<Entry>, order: seq<QueryID>, id: QueryID, queries: Registry, results: Results)
    requires ListsInOrder(es, order, queries, results) && id in Ids(queries)
    ensures ListsInOrder(es + [EntryOf(QueryWithId(queries, id), results)], order + [id], queries, results)
  {
    hide Ids, QueryWithId;
  }

  /** GetAllQueries lists every active query of the path once and nothing else, by increasing
      id, each with its argument and the value it shows. */
  lemma AllQueriesAreListed(path: string, queries: Registry, results: Results)
    requires UniqueIds(queries) && CanonicalQueryPath(path).Some?
    ensures var p := CanonicalQueryPath(path).value;
      var reply := Exec(GetAllQueries(path), queries, results).1;
      && reply.Entries?
      && ListsInOrder(reply.entries,
                      Ascending(set t | t in queries && queries[t].path == p :: queries[t].id), queries, results)
  {
    hide CanonicalQueryPath, EntriesFor, UniqueIds, ListsInOrder;
    var p := CanonicalQueryPath(path).value;
    var ids := Ascending(Ids(queries));
    assert forall i :: 0 <= i < |ids| ==> ids[i] in Ids(queries);
    EntriesInOrder(ids, queries, results, p);
    AllPathIds(queries, p);
  }

  lemma AllPathIds(queries: Registry, path: string)
    ensures PathIds(queries, path, Ascending(Ids(queries))) ==
      set t | t in queries && queries[t].path == path :: queries[t].id
  {
    var ids := Ascending(Ids(queries));
    forall t | t in queries ensures queries[t].id in ids {
      assert queries[t].id in Ids(queries);
    }
  }
}

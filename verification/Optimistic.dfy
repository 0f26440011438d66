/** Optimistic updates and the local store they run against. */
module Optimistic {
  import opened Prelude
  import opened Orders
  import opened Values
  import opened Paths
  import opened Canonical
  import opened Protocol

  /** A registered query with its subscriber count and last subscriber index. */
  datatype Query = Query(id: QueryID, path: string, args: seq<Value>, numSubscribers: nat, lastIndex: nat)

  type Registry = map<Wire, Query>
  type Results = map<QueryID, FunctionResult>

  datatype Entry = Entry(path: string, args: Value, value: Option<Value>)

  datatype StoreOp =
    | GetQuery(path: string, args: GoValue)
    | GetAllQueries(path: string)
    | SetQuery(path: string, args: GoValue, value: GoValue)
    | SetQueryLoading(path: string, args: GoValue)

  datatype Reply = Failed | Done | NoValue | Found(value: Value) | Entries(entries: seq<Entry>)

  /** A callback is an arbitrary deterministic interaction with the store: at each point it
      returns, or calls one operation and continues depending on the reply.  A reply with no
      continuation makes the callback fail. */
  datatype Update = Return(ok: bool) | Call(op: StoreOp, cont: imap<Reply, Update>)

  ghost function Ids(queries: Registry): set<QueryID> {
    set t | t in queries :: queries[t].id
  }

  ghost predicate UniqueIds(queries: Registry) {
    forall t, u :: t in queries && u in queries && queries[t].id == queries[u].id ==> t == u
  }

  ghost function QueryWithId(queries: Registry, id: QueryID): (q: Query)
    requires id in Ids(queries)
    ensures q.id == id && exists t :: t in queries && queries[t] == q
  {
    var t :| t in queries && queries[t].id == id;
    queries[t]
  }

  function ArgOf(q: Query): Value { if |q.args| > 0 then q.args[0] else Null }

  function EntryOf(q: Query, results: Results): Entry {
    Entry(q.path, ArgOf(q), if q.id in results then ResultValue(results[q.id]) else None)
  }

  /** The entries of the queries with the given path, for the given ids in order. */
  ghost function EntriesFor(ids: seq<QueryID>, queries: Registry, results: Results, path: string): seq<Entry>
    requires forall i :: 0 <= i < |ids| ==> ids[i] in Ids(queries)
  {
    if ids == [] then []
    else
      var n := |ids| - 1;
      var q := QueryWithId(queries, ids[n]);
      EntriesFor(ids[..n], queries, results, path) + (if q.path == path then [EntryOf(q, results)] else [])
  }

  lemma EntriesSnoc(ids: seq<QueryID>, n: nat, queries: Registry, results: Results, path: string)
    requires n < |ids| && forall i :: 0 <= i < |ids| ==> ids[i] in Ids(queries)
    ensures var q := QueryWithId(queries, ids[n]);
      EntriesFor(ids[..n + 1], queries, results, path) ==
        EntriesFor(ids[..n], queries, results, path) + (if q.path == path then [EntryOf(q, results)] else [])
  {
    hide Ids, QueryWithId, EntryOf;
    assert ids[..n + 1][..n] == ids[..n];
  }

  function ValueFromGo(g: GoValue): Option<Value> {
    match EncodeGo(g)
    case Some(w) => ValueFromWire(w)
    case None => None
  }

  /** The id of the active query an operation addresses; Error when its path or arguments
      do not canonicalize. */
  datatype Lookup = Error | Inactive | Active(id: QueryID)

  function Find(queries: Registry, path: string, args: GoValue): (r: Lookup)
  {
    match CanonicalQuery(path, args)
    case None => Error
    case Some(k) => if k.token in queries then Active(queries[k.token].id) else Inactive
  }

  /** One store operation: the results it leaves and the reply it gives. */
  ghost function Exec(op: StoreOp, queries: Registry, results: Results): (Results, Reply) {
    match op
    case GetQuery(path, args) =>
      (match Find(queries, path, args)
       case Error => (results, Failed)
       case Inactive => (results, NoValue)
       case Active(id) =>
         if id !in results then (results, NoValue)
         else match ResultValue(results[id]) case Some(v) => (results, Found(v)) case None => (results, NoValue))
    case GetAllQueries(path) =>
      (match CanonicalQueryPath(path)
       case None => (results, Failed)
       case Some(p) => (results, Entries(EntriesFor(Ascending(Ids(queries)), queries, results, p))))
    case SetQuery(path, args, value) =>
      (match Find(queries, path, args)
       case Error => (results, Failed)
       case Inactive => (results, Done)
       case Active(id) =>
         match ValueFromGo(value)
         case None => (results, Failed)
         case Some(v) => (results[id := ValueResult(v)], Done))
    case SetQueryLoading(path, args) =>
      (match Find(queries, path, args)
       case Error => (results, Failed)
       case Inactive => (results, Done)
       case Active(id) => (results - {id}, Done))
  }

  /** Running a callback: the results it leaves, or None when it fails. */
  ghost function Apply(u: Update, queries: Registry, results: Results): Option<Results>
    decreases u
  {
    match u
    case Return(ok) => if ok then Some(results) else None
    case Call(op, cont) =>
      var (next, reply) := Exec(op, queries, results);
      if reply in cont then Apply(cont[reply], queries, next) else None
  }

  /** Running callbacks one after the other; any failure fails the whole. */
  ghost function ApplyAll(us: seq<Update>, queries: Registry, results: Results): Option<Results> {
    if us == [] then Some(results)
    else
      match ApplyAll(us[..|us| - 1], queries, results)
      case None => None
      case Some(r) => Apply(us[|us| - 1], queries, r)
  }

  lemma ApplyAllSnoc(us: seq<Update>, u: Update, queries: Registry, results: Results)
    ensures ApplyAll(us + [u], queries, results) ==
      match ApplyAll(us, queries, results) { case None => None case Some(r) => Apply(u, queries, r) }
  {
    assert (us + [u])[..|us + [u]| - 1] == us;
  }

  lemma ExecStaysActive(op: StoreOp, queries: Registry, results: Results)
    requires results.Keys <= Ids(queries)
    ensures Exec(op, queries, results).0.Keys <= Ids(queries)
  {
    hide CanonicalQuery, CanonicalQueryPath, ValueFromGo, EntriesFor, ResultValue;
  }

  /** No composition of store operations reaches outside the active queries. */
  lemma {:induction false} ApplyStaysActive(u: Update, queries: Registry, results: Results)
    requires results.Keys <= Ids(queries)
    ensures Apply(u, queries, results).Some? ==> Apply(u, queries, results).value.Keys <= Ids(queries)
    decreases u
  {
    hide Exec;
    match u
    case Return(ok) =>
    case Call(op, cont) =>
      var (next, reply) := Exec(op, queries, results);
      ExecStaysActive(op, queries, results);
      if reply in cont {
        ApplyStaysActive(cont[reply], queries, next);
      }
  }

  lemma {:induction false} ApplyAllStaysActive(us: seq<Update>, queries: Registry, results: Results)
    requires results.Keys <= Ids(queries)
    ensures ApplyAll(us, queries, results).Some? ==> ApplyAll(us, queries, results).value.Keys <= Ids(queries)
  {
    if us != [] {
      var init := us[..|us| - 1];
      ApplyAllStaysActive(init, queries, results);
      if ApplyAll(init, queries, results).Some? {
        ApplyStaysActive(us[|us| - 1], queries, ApplyAll(init, queries, results).value);
      }
    }
  }

  // ---- updates see queries, not subscriber counts ----

  ghost predicate SameQueries(a: Registry, b: Registry) {
    && a.Keys == b.Keys
    && forall t :: t in a ==> a[t].id == b[t].id && a[t].path == b[t].path && a[t].args == b[t].args
  }

  lemma {:induction false} SameEntries(ids: seq<QueryID>, a: Registry, b: Registry, results: Results, path: string)
    requires SameQueries(a, b) && UniqueIds(a) && UniqueIds(b)
    requires forall i :: 0 <= i < |ids| ==> ids[i] in Ids(a) && ids[i] in Ids(b)
    ensures EntriesFor(ids, a, results, path) == EntriesFor(ids, b, results, path)
  {
    if ids != [] {
      var n := |ids| - 1;
      SameEntries(ids[..n], a, b, results, path);
      var qa, qb := QueryWithId(a, ids[n]), QueryWithId(b, ids[n]);
      var t :| t in a && a[t] == qa;
      assert b[t] == qb;
    }
  }

  lemma SameIds(a: Registry, b: Registry)
    requires SameQueries(a, b)
    ensures Ids(a) == Ids(b)
  {
    forall t | t in a ensures a[t].id in Ids(b) && b[t].id in Ids(a) {
      assert a[t].id == b[t].id;
    }
  }

  lemma SameFind(a: Registry, b: Registry, path: string, args: GoValue)
    requires SameQueries(a, b)
    ensures Find(a, path, args) == Find(b, path, args)
  {
    match CanonicalQuery(path, args)
    case None =>
    case Some(k) => assert k.token in a <==> k.token in b;
  }

  lemma SameListing(a: Registry, b: Registry, results: Results, path: string)
    requires SameQueries(a, b) && UniqueIds(a) && UniqueIds(b) && Ids(a) == Ids(b)
    ensures var ids := Ascending(Ids(a));
      && (forall i :: 0 <= i < |ids| ==> ids[i] in Ids(a) && ids[i] in Ids(b))
      && EntriesFor(ids, a, results, path) == EntriesFor(ids, b, results, path)
  {
    hide EntriesFor, SameQueries, UniqueIds, Ids;
    SameEntries(Ascending(Ids(a)), a, b, results, path);
  }

  lemma SameExec(op: StoreOp, a: Registry, b: Registry, results: Results)
    requires SameQueries(a, b) && UniqueIds(a) && UniqueIds(b)
    ensures Exec(op, a, results) == Exec(op, b, results)
  {
    hide Find, CanonicalQueryPath, ValueFromGo, EntriesFor, ResultValue, SameQueries, UniqueIds, Ids;
    match op
    case GetQuery(path, args) => SameFind(a, b, path, args);
    case SetQuery(path, args, value) => SameFind(a, b, path, args);
    case SetQueryLoading(path, args) => SameFind(a, b, path, args);
    case GetAllQueries(path) =>
      SameIds(a, b);
      if CanonicalQueryPath(path).Some? {
        SameListing(a, b, results, CanonicalQueryPath(path).value);
      }
  }

  lemma {:induction false} SameApply(u: Update, a: Registry, b: Registry, results: Results)
    requires SameQueries(a, b) && UniqueIds(a) && UniqueIds(b)
    ensures Apply(u, a, results) == Apply(u, b, results)
    decreases u
  {
    match u
    case Return(ok) =>
    case Call(op, cont) =>
      SameExec(op, a, b, results);
      var (next, reply) := Exec(op, a, results);
      if reply in cont {
        SameApply(cont[reply], a, b, next);
      }
  }

  lemma {:induction false} SameApplyAll(us: seq<Update>, a: Registry, b: Registry, results: Results)
    requires SameQueries(a, b) && UniqueIds(a) && UniqueIds(b)
    ensures ApplyAll(us, a, results) == ApplyAll(us, b, results)
  {
    if us != [] {
      SameApplyAll(us[..|us| - 1], a, b, results);
      match ApplyAll(us[..|us| - 1], a, results)
      case None =>
      case Some(r) => SameApply(us[|us| - 1], a, b, r);
    }
  }
}

/** The server's side of one sync session, as the protocol defines it: a fresh connection
    starts from version zero and an empty query set, and every message must fit what came
    before.  A session log is acceptable when a fresh server can process all of it. */
module Sessions {
  import opened Prelude
  import opened Values
  import opened Protocol

  type View = map<QueryID, (string, seq<Value>)>

  /** The requests received in the session. */
  type Inbox = map<RequestID, ClientMessage>

  datatype Server = Server(querySet: nat, identity: nat, view: View, seen: Inbox)

  const FRESH := Server(0, 0, map[], map[])

  /** Adding a known query or removing an unknown one is a protocol violation. */
  function ServeModification(view: View, m: QuerySetModification): Option<View> {
    match m
    case Add(id, path, args) => if id in view then None else Some(view[id := (path, args)])
    case Remove(id) => if id in view then Some(view - {id}) else None
  }

  function ServeModifications(view: View, ms: seq<QuerySetModification>): Option<View> {
    if ms == [] then Some(view)
    else
      match ServeModifications(view, ms[..|ms| - 1])
      case None => None
      case Some(v) => ServeModification(v, ms[|ms| - 1])
  }

  /** Versions must continue the chain, and a request id may be used once per session. */
  function Serve(sv: Server, m: ClientMessage): Option<Server> {
    match m
    case ModifyQuerySet(b, n, ms) =>
      if b != sv.querySet || n != b + 1 then None
      else
        (match ServeModifications(sv.view, ms)
         case None => None
         case Some(v) => Some(sv.(querySet := n, view := v)))
    case Authenticate(b, _) => if b != sv.identity then None else Some(sv.(identity := b + 1))
    case MutationRequest(id, _, _) => if id in sv.seen then None else Some(sv.(seen := sv.seen[id := m]))
    case ActionRequest(id, _, _) => if id in sv.seen then None else Some(sv.(seen := sv.seen[id := m]))
  }

  function ServeAll(log: seq<ClientMessage>): Option<Server> {
    if log == [] then Some(FRESH)
    else
      match ServeAll(log[..|log| - 1])
      case None => None
      case Some(sv) => Serve(sv, log[|log| - 1])
  }

  lemma ServeAllSnoc(log: seq<ClientMessage>, m: ClientMessage)
    ensures ServeAll(log + [m]) == match ServeAll(log) { case None => None case Some(sv) => Serve(sv, m) }
  {
    assert (log + [m])[..|log + [m]| - 1] == log;
  }

  /** Acceptability is inherited by every prefix. */
  lemma {:induction false} ServeAllPrefix(log: seq<ClientMessage>, n: nat)
    requires n <= |log| && ServeAll(log).Some?
    ensures ServeAll(log[..n]).Some?
  {
    if n < |log| {
      ServeAllPrefix(log[..|log| - 1], n);
      assert log[..|log| - 1][..n] == log[..n];
    } else {
      assert log[..n] == log;
    }
  }

  /** The version part alone: Some((q, i)) when the query-set messages are numbered
      (0,1), (1,2), ..., (q-1,q) and the auth messages 0, 1, ..., i-1. */
  function VersionsOf(log: seq<ClientMessage>): Option<(nat, nat)> {
    if log == [] then Some((0, 0))
    else
      match VersionsOf(log[..|log| - 1])
      case None => None
      case Some((q, i)) =>
        match log[|log| - 1]
        case ModifyQuerySet(b, n, _) => if b == q && n == q + 1 then Some((q + 1, i)) else None
        case Authenticate(b, _) => if b == i then Some((q, i + 1)) else None
        case _ => Some((q, i))
  }

  lemma VersionsSnoc(log: seq<ClientMessage>, m: ClientMessage)
    ensures VersionsOf(log + [m]) ==
      match VersionsOf(log) {
        case None => None
        case Some((q, i)) =>
          match m
          case ModifyQuerySet(b, n, _) => if b == q && n == q + 1 then Some((q + 1, i)) else None
          case Authenticate(b, _) => if b == i then Some((q, i + 1)) else None
          case _ => Some((q, i))
      }
  {
    assert (log + [m])[..|log + [m]| - 1] == log;
  }

  ghost function QuerySetMessages(log: seq<ClientMessage>): seq<ClientMessage> {
    if log == [] then []
    else QuerySetMessages(log[..|log| - 1]) + (if log[|log| - 1].ModifyQuerySet? then [log[|log| - 1]] else [])
  }

  ghost function AuthMessages(log: seq<ClientMessage>): seq<ClientMessage> {
    if log == [] then []
    else AuthMessages(log[..|log| - 1]) + (if log[|log| - 1].Authenticate? then [log[|log| - 1]] else [])
  }

  /** What a consistent numbering means, message by message. */
  lemma {:induction false} VersionsExplained(log: seq<ClientMessage>)
    requires VersionsOf(log).Some?
    ensures var (q, i) := VersionsOf(log).value;
      var qs, auths := QuerySetMessages(log), AuthMessages(log);
      && |qs| == q && (forall k :: 0 <= k < q ==>
          qs[k].ModifyQuerySet? && qs[k].baseVersion == k && qs[k].newVersion == k + 1)
      && |auths| == i && (forall k :: 0 <= k < i ==> auths[k].Authenticate? && auths[k].authBase == k)
  {
    if log != [] {
      VersionsExplained(log[..|log| - 1]);
    }
  }

  /** A server that accepts a log is at the versions the numbering says. */
  lemma {:induction false} ServedVersions(log: seq<ClientMessage>)
    requires ServeAll(log).Some?
    ensures VersionsOf(log) == Some((ServeAll(log).value.querySet, ServeAll(log).value.identity))
  {
    if log != [] {
      ServedVersions(log[..|log| - 1]);
    }
  }
}

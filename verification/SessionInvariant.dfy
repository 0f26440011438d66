/** The session log: everything queued since the last reset is what a fresh server needs
    to arrive at the client's own view. */
module SessionInvariant {
  import opened Prelude
  import opened Orders
  import opened Values
  import opened Canonical
  import opened Protocol
  import opened Optimistic
  import opened ClientSteps
  import opened Sessions
  import opened RegistryInvariant
  import opened LedgerInvariant

  /** The query set as the client has it. */
  ghost function LocalView(r: Reg): View {
    map id | id in r.queryIDToToken && r.queryIDToToken[id] in r.queries ::
      (r.queries[r.queryIDToToken[id]].path, r.queries[r.queryIDToToken[id]].args)
  }

  /** The log is numbered up to the current version counters. */
  ghost predicate Numbered(log: seq<ClientMessage>, l: Link) {
    VersionsOf(log) == Some((l.querySetVersion, l.identityVersion))
  }

  /** The messages of the pending requests. */
  ghost function PendingMessages(requests: Requests): Inbox {
    map id | id in requests :: requests[id].message
  }

  ghost predicate Holds(seen: Inbox, pending: Inbox) {
    forall id :: id in pending ==> id in seen && seen[id] == pending[id]
  }

  /** A fresh server accepts the log, ends with the given query set, and has received every
      pending request as the client holds it. */
  ghost predicate Served(log: seq<ClientMessage>, view: View, pending: Inbox, next: nat) {
    match ServeAll(log)
    case None => false
    case Some(sv) => sv.view == view && Holds(sv.seen, pending) && forall id :: id in sv.seen ==> id < next
  }

  lemma LogSnoc(popped: seq<ClientMessage>, outgoing: seq<ClientMessage>, m: ClientMessage)
    ensures popped + (outgoing + [m]) == (popped + outgoing) + [m]
  {
  }

  // ---- numbering ----

  lemma PushQuerySetNumbered(popped: seq<ClientMessage>, l: Link, ms: seq<QuerySetModification>)
    requires Numbered(popped + l.outgoing, l)
    ensures Numbered(popped + PushQuerySet(l, ms).outgoing, PushQuerySet(l, ms))
  {
    var m := ModifyQuerySet(l.querySetVersion, l.querySetVersion + 1, ms);
    LogSnoc(popped, l.outgoing, m);
    VersionsSnoc(popped + l.outgoing, m);
  }

  lemma PushAuthNumbered(popped: seq<ClientMessage>, l: Link, token: AuthToken)
    requires Numbered(popped + l.outgoing, l)
    ensures Numbered(popped + PushAuth(l, token).outgoing, PushAuth(l, token))
  {
    var m := Authenticate(l.identityVersion, NormalizeToken(token));
    LogSnoc(popped, l.outgoing, m);
    VersionsSnoc(popped + l.outgoing, m);
  }

  lemma PushRequestNumbered(popped: seq<ClientMessage>, l: Link, m: ClientMessage)
    requires Numbered(popped + l.outgoing, l) && (m.MutationRequest? || m.ActionRequest?)
    ensures Numbered(popped + Push(l, m).outgoing, Push(l, m))
  {
    LogSnoc(popped, l.outgoing, m);
    VersionsSnoc(popped + l.outgoing, m);
  }

  // ---- acceptance ----

  lemma ServeQuerySet(log: seq<ClientMessage>, q: nat, ms: seq<QuerySetModification>, view': View)
    requires ServeAll(log).Some? && ServeAll(log).value.querySet == q
    requires ServeModifications(ServeAll(log).value.view, ms) == Some(view')
    ensures ServeAll(log + [ModifyQuerySet(q, q + 1, ms)]) ==
            Some(ServeAll(log).value.(querySet := q + 1, view := view'))
  {
    ServeAllSnoc(log, ModifyQuerySet(q, q + 1, ms));
  }

  lemma ServeOne(view: View, m: QuerySetModification)
    ensures ServeModifications(view, [m]) == ServeModification(view, m)
  {
    assert [m][..0] == [];
    assert ServeModifications(view, []) == Some(view);
  }

  lemma PushQuerySetServed(popped: seq<ClientMessage>, l: Link, m: QuerySetModification, view: View, view': View,
                           pending: Inbox, next: nat)
    requires Numbered(popped + l.outgoing, l) && Served(popped + l.outgoing, view, pending, next)
    requires ServeModification(view, m) == Some(view')
    ensures Served(popped + PushQuerySet(l, [m]).outgoing, view', pending, next)
  {
    var log := popped + l.outgoing;
    LogSnoc(popped, l.outgoing, ModifyQuerySet(l.querySetVersion, l.querySetVersion + 1, [m]));
    ServedVersions(log);
    ServeOne(view, m);
    ServeQuerySet(log, l.querySetVersion, [m], view');
  }

  lemma PushAuthServed(popped: seq<ClientMessage>, l: Link, token: AuthToken, view: View, pending: Inbox, next: nat)
    requires Numbered(popped + l.outgoing, l) && Served(popped + l.outgoing, view, pending, next)
    ensures Served(popped + PushAuth(l, token).outgoing, view, pending, next)
  {
    var log := popped + l.outgoing;
    var msg := Authenticate(l.identityVersion, NormalizeToken(token));
    LogSnoc(popped, l.outgoing, msg);
    ServedVersions(log);
    ServeAllSnoc(log, msg);
  }

  lemma PushRequestServed(log: seq<ClientMessage>, m: ClientMessage, view: View, pending: Inbox, next: nat)
    requires Served(log, view, pending, next) && (m.MutationRequest? || m.ActionRequest?) && m.requestID == next
    ensures Served(log + [m], view, pending[next := m], next + 1)
  {
    ServeAllSnoc(log, m);
  }

  // ---- the query set follows the registry ----

  lemma SubscribeView(r: Reg, k: QueryKey)
    requires Inverse(r)
    ensures var view' := LocalView(RegSubscribe(r, k).0);
      if k.token in r.queries then view' == LocalView(r)
      else ServeModification(LocalView(r), Add(r.nextQueryID, k.path, k.args)) == Some(view')
  {
    SubscribeKeepsInverse(r, k);
    var r' := RegSubscribe(r, k).0;
    if k.token in r.queries {
      assert LocalView(r') == LocalView(r);
    } else {
      assert LocalView(r') == LocalView(r)[r.nextQueryID := (k.path, k.args)];
    }
  }

  lemma UnsubscribeView(r: Reg, id: SubscriberID)
    requires Inverse(r)
    ensures var (r', outcome) := RegUnsubscribe(r, id);
      if outcome == LastUnsubscribed then ServeModification(LocalView(r), Remove(id.queryID)) == Some(LocalView(r'))
      else LocalView(r') == LocalView(r)
  {
    UnsubscribeKeepsInverse(r, id);
    var (r', outcome) := RegUnsubscribe(r, id);
    if outcome == LastUnsubscribed {
      assert LocalView(r') == LocalView(r) - {id.queryID};
    } else {
      assert LocalView(r') == LocalView(r);
    }
  }

  // ---- replaying ----

  ghost function Restrict(view: View, ids: seq<QueryID>): View {
    map id | id in view && id in ids :: view[id]
  }

  ghost function AddsOf(view: View, ids: seq<QueryID>): seq<QuerySetModification>
    requires forall i :: 0 <= i < |ids| ==> ids[i] in view
  {
    seq(|ids|, i requires 0 <= i < |ids| => Add(ids[i], view[ids[i]].0, view[ids[i]].1))
  }

  lemma RestrictSnoc(view: View, ids: seq<QueryID>, id: QueryID)
    requires id in view && id !in ids
    ensures Restrict(view, ids + [id]) == Restrict(view, ids)[id := view[id]]
  {
  }

  /** A batch of Adds for distinct ids builds exactly those queries from nothing. */
  lemma {:induction false} AddsServe(view: View, ids: seq<QueryID>)
    requires Distinct(ids) && forall i :: 0 <= i < |ids| ==> ids[i] in view
    ensures ServeModifications(map[], AddsOf(view, ids)) == Some(Restrict(view, ids))
  {
    if ids == [] {
      assert Restrict(view, ids) == map[];
    } else {
      var n := |ids| - 1;
      var adds := AddsOf(view, ids);
      AddsServe(view, ids[..n]);
      assert adds[..n] == AddsOf(view, ids[..n]);
      assert ids[n] !in ids[..n];
      assert ids == ids[..n] + [ids[n]];
      RestrictSnoc(view, ids[..n], ids[n]);
    }
  }

  /** The replayed batch is the client's query set, by increasing id. */
  lemma ReplayAddsAre(r: Reg)
    requires Inverse(r)
    ensures var ids := Ascending(r.queryIDToToken.Keys);
      && (forall i :: 0 <= i < |ids| ==> ids[i] in LocalView(r))
      && ReplayAdds(r.queries) == AddsOf(LocalView(r), ids)
  {
    hide UniqueIds, QueryWithId;
    IdsAreKeys(r);
    var ids := Ascending(r.queryIDToToken.Keys);
    forall i | 0 <= i < |ids|
      ensures ids[i] in LocalView(r)
      ensures var q := QueryWithId(r.queries, ids[i]); LocalView(r)[ids[i]] == (q.path, q.args)
    {
      QueryOfId(r, ids[i]);
    }
    assert ReplayAdds(r.queries) == AddsOf(LocalView(r), ids);
  }

  lemma ReplayAddsServe(r: Reg)
    requires Inverse(r)
    ensures ServeModifications(map[], ReplayAdds(r.queries)) == Some(LocalView(r))
  {
    hide ReplayAdds, ServeModifications, AddsOf;
    ReplayAddsAre(r);
    var ids := Ascending(r.queryIDToToken.Keys);
    AddsServe(LocalView(r), ids);
    assert Restrict(LocalView(r), ids) == LocalView(r);
  }

  /** The inbox holds exactly these requests under these ids. */
  ghost predicate Received(seen: Inbox, ms: seq<ClientMessage>, ids: seq<RequestID>)
    requires |ms| == |ids|
  {
    && seen.Keys == Elements(ids)
    && forall i :: 0 <= i < |ms| ==> ids[i] in seen && seen[ids[i]] == ms[i]
  }

  lemma ReceivedSnoc(seen: Inbox, ms: seq<ClientMessage>, ids: seq<RequestID>)
    requires |ms| == |ids| > 0 && Distinct(ids)
    requires var n := |ms| - 1; Received(seen, ms[..n], ids[..n])
    ensures var n := |ms| - 1; ids[n] !in seen && Received(seen[ids[n] := ms[n]], ms, ids)
  {
    var n := |ms| - 1;
    ElementsSnoc(ids);
    assert ids[n] !in ids[..n];
    var seen' := seen[ids[n] := ms[n]];
    forall i | 0 <= i < |ms| ensures ids[i] in seen' && seen'[ids[i]] == ms[i] {
      assert i < n ==> ids[..n][i] == ids[i] && ms[..n][i] == ms[i];
    }
  }

  /** Appending requests with fresh, distinct ids. */
  lemma {:induction false} RequestsServe(log: seq<ClientMessage>, ms: seq<ClientMessage>, ids: seq<RequestID>)
    requires ServeAll(log).Some? && ServeAll(log).value.seen == map[]
    requires |ms| == |ids| && Distinct(ids)
    requires forall i :: 0 <= i < |ms| ==> ms[i].MutationRequest? && ms[i].requestID == ids[i]
    ensures ServeAll(log + ms).Some?
    ensures var sv := ServeAll(log + ms).value;
      sv == ServeAll(log).value.(seen := sv.seen) && Received(sv.seen, ms, ids)
  {
    hide ServeAll, Received;
    if ms == [] {
      assert log + ms == log;
      assert Received(map[], ms, ids) by {
        NothingReceived(ms, ids);
      }
    } else {
      var n := |ms| - 1;
      RequestsServe(log, ms[..n], ids[..n]);
      assert log + ms == (log + ms[..n]) + [ms[n]];
      ServeAllSnoc(log + ms[..n], ms[n]);
      ReceivedSnoc(ServeAll(log + ms[..n]).value.seen, ms, ids);
    }
  }

  lemma NothingReceived(ms: seq<ClientMessage>, ids: seq<RequestID>)
    requires ms == [] && ids == []
    ensures Received(map[], ms, ids)
  {
    assert Elements(ids) == {};
  }

  lemma {:induction false} RequestsNumbered(log: seq<ClientMessage>, ms: seq<ClientMessage>)
    requires forall i :: 0 <= i < |ms| ==> ms[i].MutationRequest?
    ensures VersionsOf(log + ms) == VersionsOf(log)
  {
    if ms == [] {
      assert log + ms == log;
    } else {
      var n := |ms| - 1;
      RequestsNumbered(log, ms[..n]);
      assert log + ms == (log + ms[..n]) + [ms[n]];
      VersionsSnoc(log + ms[..n], ms[n]);
    }
  }

  /** The ids of the replayed mutations: each pending mutation once. */
  ghost function ReplayIds(requests: Requests): seq<RequestID> {
    var xs := ReplayOrder(requests);
    seq(|xs|, i requires 0 <= i < |xs| => xs[i].id)
  }

  lemma ReplayIdsOnce(requests: Requests, next: nat)
    requires RequestShapes(requests, next)
    ensures var ids := ReplayIds(requests); var ms := ReplayMessages(requests);
      && Distinct(ids) && Elements(ids) == PendingOf(requests, MutationKind)
      && |ms| == |ids|
      && (forall i :: 0 <= i < |ms| ==>
            ms[i].MutationRequest? && ms[i].requestID == ids[i] &&
            ids[i] in requests && ms[i] == requests[ids[i]].message)
  {
    ReplayBeforeTotal();
    var xs := ReplayOrder(requests);
    var ids := ReplayIds(requests);
    assert forall i :: 0 <= i < |xs| ==> xs[i] in ReplayKeys(requests);
    forall i, j | 0 <= i < j < |ids| ensures ids[i] != ids[j] {
      assert ReplayBefore(xs[i], xs[j]);
    }
    forall id ensures id in Elements(ids) <==> id in PendingOf(requests, MutationKind) {
      if id in PendingOf(requests, MutationKind) {
        var key := ReplayKey(requests[id].ts, id);
        assert key in ReplayKeys(requests);
        var i :| 0 <= i < |xs| && xs[i] == key;
        assert ids[i] == id;
      }
      if id in ids {
        var i :| 0 <= i < |ids| && ids[i] == id;
        assert xs[i] in ReplayKeys(requests);
      }
    }
  }

  /** A replay from an emptied session (possibly with its auth message) is complete: a fresh
      server accepts it and ends with the client's query set and pending mutations. */
  lemma ReplayServed(s: Client)
    requires Inverse(s.reg) && RequestShapes(s.ledger.requests, s.ledger.nextRequestID)
    requires forall id :: id in s.ledger.requests ==> s.ledger.requests[id].kind == MutationKind
    requires Numbered(s.link.outgoing, s.link) && Served(s.link.outgoing, map[], map[], 0)
    ensures var t := Replay(s);
      && Numbered(t.link.outgoing, t.link)
      && Served(t.link.outgoing, LocalView(s.reg), PendingMessages(s.ledger.requests), s.ledger.nextRequestID)
  {
    ReplayAddsServe(s.reg);
    var adds := ReplayAdds(s.reg.queries);
    BatchServed(s.link, adds, LocalView(s.reg));
    var l := if adds == [] then s.link else PushQuerySet(s.link, adds);
    var ids := ReplayIds(s.ledger.requests);
    ReplayIdsOnce(s.ledger.requests, s.ledger.nextRequestID);
    assert Elements(ids) == s.ledger.requests.Keys;
    MutationsServed(l, ReplayMessages(s.ledger.requests), ids, PendingMessages(s.ledger.requests), LocalView(s.reg),
                    s.ledger.nextRequestID);
  }

  lemma MutationsServed(l: Link, ms: seq<ClientMessage>, ids: seq<RequestID>, pending: Inbox, view: View, next: nat)
    requires Numbered(l.outgoing, l) && Served(l.outgoing, view, map[], 0)
    requires |ms| == |ids| && Distinct(ids) && pending.Keys == Elements(ids)
    requires forall i :: 0 <= i < |ms| ==>
      ms[i].MutationRequest? && ms[i].requestID == ids[i] && ids[i] in pending && pending[ids[i]] == ms[i]
    requires forall id :: id in pending ==> id < next
    ensures Numbered(l.outgoing + ms, l) && Served(l.outgoing + ms, view, pending, next)
  {
    assert ServeAll(l.outgoing).value.seen == map[];
    RequestsServe(l.outgoing, ms, ids);
    RequestsNumbered(l.outgoing, ms);
    var sv := ServeAll(l.outgoing + ms).value;
    forall id | id in pending ensures id in sv.seen && sv.seen[id] == pending[id] {
      assert id in Elements(ids);
      var i :| 0 <= i < |ids| && ids[i] == id;
    }
  }

  lemma NoModifications(view: View)
    ensures ServeModifications(view, []) == Some(view)
  {
  }

  lemma BatchServed(l: Link, adds: seq<QuerySetModification>, view: View)
    requires Numbered(l.outgoing, l) && Served(l.outgoing, map[], map[], 0)
    requires ServeModifications(map[], adds) == Some(view)
    ensures var l' := if adds == [] then l else PushQuerySet(l, adds);
      Numbered(l'.outgoing, l') && Served(l'.outgoing, view, map[], 0)
  {
    hide ServeAll, ServeModifications, VersionsOf;
    if adds == [] {
      NoModifications(map[]);
    } else {
      assert [] + l.outgoing == l.outgoing;
      PushQuerySetNumbered([], l, adds);
      assert [] + PushQuerySet(l, adds).outgoing == PushQuerySet(l, adds).outgoing;
      ServedVersions(l.outgoing);
      ServeQuerySet(l.outgoing, l.querySetVersion, adds, view);
    }
  }
}

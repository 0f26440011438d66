/** When the reconnect loop rebuilds the session, how it counts, when it stops, and that it can
    always write out what is queued. */
module LoopTheorems {
  import opened Prelude
  import opened Values
  import opened Protocol
  import opened Optimistic
  import opened ClientSteps
  import opened Sessions
  import opened RegistryInvariant
  import opened LedgerInvariant
  import opened ClientRuns
  import opened ClientTheorems
  import opened ReconnectLoop

  // ---- restarts ----

  /** A connection that had been in use was given up. */
  predicate EndsConnection(a: Label) {
    a == WriteFailureNoticed || a == ReadFailsOrIdle
  }

  /** A used connection was given up, and since then no connection failed on its first write. */
  predicate RestartDue(labels: seq<Label>) {
    exists i :: 0 <= i < |labels| && EndsConnection(labels[i])
                && forall j :: i < j < |labels| ==> labels[j] != ConnectWriteFails
  }

  lemma RestartDueSnoc(labels: seq<Label>, a: Label)
    ensures RestartDue(labels + [a]) <==> EndsConnection(a) || (RestartDue(labels) && a != ConnectWriteFails)
  {
    var all := labels + [a];
    var n := |labels|;
    if EndsConnection(a) {
      assert EndsConnection(all[n]);
    } else if RestartDue(all) {
      var i :| 0 <= i < |all| && EndsConnection(all[i]) && forall j :: i < j < |all| ==> all[j] != ConnectWriteFails;
      assert all[n] == a;
      assert EndsConnection(labels[i]);
      forall j | i < j < n ensures labels[j] != ConnectWriteFails {
        assert labels[j] == all[j];
      }
    }
    if RestartDue(labels) && a != ConnectWriteFails {
      var i :| 0 <= i < n && EndsConnection(labels[i]) && forall j :: i < j < n ==> labels[j] != ConnectWriteFails;
      assert EndsConnection(all[i]);
    }
  }

  lemma StepNeedsRestart(l: Loop, a: Label)
    requires LoopStep(l, a).Some?
    ensures LoopStep(l, a).value.needsRestart == (EndsConnection(a) || (l.needsRestart && a != ConnectWriteFails))
  {
    hide Next, RestartStep, ReceiveStep;
  }

  /** In every run of the loop, a restart is due exactly when a used connection was given up and
      none failed on its first write since.  A dial that fails changes nothing about it. */
  lemma {:induction false} RestartIsDueExactly(w: World, labels: seq<Label>)
    requires RunLoop(w, labels).Some?
    ensures RunLoop(w, labels).value.needsRestart <==> RestartDue(labels)
  {
    hide LoopStep, RestartDue;
    if labels == [] {
      NothingDue();
    } else {
      var n := |labels| - 1;
      RestartIsDueExactly(w, labels[..n]);
      assert labels == labels[..n] + [labels[n]];
      RestartDueSnoc(labels[..n], labels[n]);
      StepNeedsRestart(RunLoop(w, labels[..n]).value, labels[n]);
    }
  }

  lemma NothingDue()
    ensures !RestartDue([])
  {
  }

  lemma {:induction false} PrefixRuns(w: World, labels: seq<Label>, n: nat)
    requires RunLoop(w, labels).Some? && n <= |labels|
    ensures RunLoop(w, labels[..n]).Some?
    ensures n < |labels| ==> LoopStep(RunLoop(w, labels[..n]).value, labels[n]).Some?
  {
    hide LoopStep;
    if n == |labels| {
      assert labels[..n] == labels;
    } else if n < |labels| - 1 {
      PrefixRuns(w, labels[..|labels| - 1], n);
      assert labels[..|labels| - 1][..n] == labels[..n];
    }
  }

  /** The loop restarts the client exactly where a restart is due, and passes over it exactly
      where none is. */
  lemma RestartsOnlyWhenDue(w: World, labels: seq<Label>, k: nat)
    requires RunLoop(w, labels).Some? && k < |labels|
    ensures labels[k].TryRestart? ==> RestartDue(labels[..k])
    ensures labels[k] == SkipRestart ==> !RestartDue(labels[..k])
  {
    hide RunLoop, Next, RestartDue;
    PrefixRuns(w, labels, k);
    RestartIsDueExactly(w, labels[..k]);
  }

  // ---- before the first connection ----

  /** No connection opens along these labels. */
  predicate NeverConnects(labels: seq<Label>) {
    forall i :: 0 <= i < |labels| ==> labels[i] != ConnectWritten
  }

  predicate OnlyCalls(events: seq<Event>) {
    forall i :: 0 <= i < |events| ==> IsCall(events[i])
  }

  lemma StepBeforeConnecting(l: Loop, a: Label)
    requires LoopStep(l, a).Some? && a != ConnectWritten && !l.phase.Connected? && !l.needsRestart
    ensures !LoopStep(l, a).value.phase.Connected? && !LoopStep(l, a).value.needsRestart
    ensures OnlyCalls(EventsOf(a))
  {
    hide Next, RestartStep, ReceiveStep;
  }

  lemma {:induction false} BeforeConnecting(w: World, labels: seq<Label>)
    requires RunLoop(w, labels).Some? && NeverConnects(labels)
    ensures !RunLoop(w, labels).value.phase.Connected? && !RunLoop(w, labels).value.needsRestart
    ensures OnlyCalls(Events(labels))
  {
    hide LoopStep;
    if labels != [] {
      var n := |labels| - 1;
      BeforeConnecting(w, labels[..n]);
      StepBeforeConnecting(RunLoop(w, labels[..n]).value, labels[n]);
    }
  }

  lemma CallKeepsRequests(w: World, e: Event)
    requires Inv(w) && IsCall(e)
    ensures forall id :: id in w.client.ledger.requests ==>
      id in Step(w.client, e).ledger.requests &&
      Step(w.client, e).ledger.requests[id] == w.client.ledger.requests[id]
  {
    hide Inv, Step, Scoped, Inverse;
    StepInvParts(w);
    StepRequests(w.client, e, w.history.done);
  }

  lemma {:induction false} CallsKeepRequests(configuredLimit: int, before: seq<Event>, calls: seq<Event>)
    requires OnlyCalls(calls)
    ensures var rs, rs' := Run(configuredLimit, before).client.ledger.requests,
                           Run(configuredLimit, before + calls).client.ledger.requests;
      forall id :: id in rs ==> id in rs' && rs'[id] == rs[id]
  {
    hide Run, Next, Step, Inv;
    if calls == [] {
      assert before + calls == before;
    } else {
      var n := |calls| - 1;
      CallsKeepRequests(configuredLimit, before, calls[..n]);
      var w := Run(configuredLimit, before + calls[..n]);
      RunInv(configuredLimit, before + calls[..n]);
      CallKeepsRequests(w, calls[n]);
      assert before + calls == (before + calls[..n]) + [calls[n]];
      RunAppend(configuredLimit, before + calls[..n], calls[n]);
      NextClient(w, calls[n]);
    }
  }

  lemma NextClient(w: World, e: Event)
    ensures Next(w, e).client == Step(w.client, e)
  {
  }

  /** As long as no connection has opened, however many dials fail, the client is never
      restarted and no pending request, action or mutation, is completed or changed. */
  lemma NothingLostBeforeConnecting(configuredLimit: int, before: seq<Event>, labels: seq<Label>)
    requires RunLoop(Run(configuredLimit, before), labels).Some? && NeverConnects(labels)
    ensures OnlyCalls(Events(labels))
    ensures var rs, l := Run(configuredLimit, before).client.ledger.requests,
                         RunLoop(Run(configuredLimit, before), labels).value;
      forall id :: id in rs ==> id in l.world.client.ledger.requests && l.world.client.ledger.requests[id] == rs[id]
  {
    hide Run, RunLoop, OnlyCalls, NeverConnects;
    BeforeConnecting(Run(configuredLimit, before), labels);
    LoopRunsTheClient(configuredLimit, before, labels);
    CallsKeepRequests(configuredLimit, before, Events(labels));
  }

  // ---- counting and stopping ----

  /** How often the loop has come back to its head. */
  function Failures(labels: seq<Label>): nat {
    if labels == [] then 0
    else
      var a := labels[|labels| - 1];
      Failures(labels[..|labels| - 1]) + if EndsConnection(a) || a == DialFails || a == ConnectWriteFails then 1 else 0
  }

  lemma StepCounts(l: Loop, a: Label)
    requires LoopStep(l, a).Some?
    ensures LoopStep(l, a).value.connectionCount ==
      l.connectionCount + if EndsConnection(a) || a == DialFails || a == ConnectWriteFails then 1 else 0
  {
    hide Next, RestartStep, ReceiveStep;
  }

  /** The connection count is the number of attempts that failed or ended before. */
  lemma {:induction false} CountsFailures(w: World, labels: seq<Label>)
    requires RunLoop(w, labels).Some?
    ensures RunLoop(w, labels).value.connectionCount == Failures(labels)
  {
    hide LoopStep;
    if labels != [] {
      CountsFailures(w, labels[..|labels| - 1]);
      StepCounts(RunLoop(w, labels[..|labels| - 1]).value, labels[|labels| - 1]);
    }
  }

  /** Label i ends the run: it cancels it, or delivers a message the client refuses. */
  ghost predicate EndsRun(w: World, labels: seq<Label>, i: nat)
    requires i < |labels|
  {
    match labels[i]
    case Cancel => true
    case Deliver(m) =>
      RunLoop(w, labels[..i]).Some? && !ReceiveStep(RunLoop(w, labels[..i]).value.world.client, m).1
    case _ => false
  }

  lemma StepStops(l: Loop, a: Label)
    requires LoopStep(l, a).Some?
    ensures LoopStep(l, a).value.phase.Stopped? <==>
      l.phase.Stopped? || a == Cancel || (a.Deliver? && !ReceiveStep(l.world.client, a.message).1)
  {
    hide Next, RestartStep, ReceiveStep;
  }

  /** The loop is over exactly when it was cancelled or a message was refused; no failure of a
      connection ends it. */
  lemma {:induction false} StopsExactly(w: World, labels: seq<Label>)
    requires RunLoop(w, labels).Some?
    ensures RunLoop(w, labels).value.phase.Stopped? <==> exists i :: 0 <= i < |labels| && EndsRun(w, labels, i)
  {
    hide LoopStep, ReceiveStep;
    if labels != [] {
      var n := |labels| - 1;
      StopsExactly(w, labels[..n]);
      StepStops(RunLoop(w, labels[..n]).value, labels[n]);
      forall i | 0 <= i < n ensures EndsRun(w, labels[..n], i) <==> EndsRun(w, labels, i) {
        assert labels[..n][..i] == labels[..i];
      }
      assert EndsRun(w, labels, n) <==>
        labels[n] == Cancel ||
        (labels[n].Deliver? && !ReceiveStep(RunLoop(w, labels[..n]).value.world.client, labels[n].message).1);
    }
  }

  // ---- writing out the queue ----

  /** The writer writes n messages, all successfully. */
  ghost function WriteOut(l: Loop, n: nat): Option<Loop>
    decreases n
  {
    if n == 0 then Some(l)
    else
      match LoopStep(l, WriteNext(true))
      case None => None
      case Some(l') => WriteOut(l', n - 1)
  }

  lemma WriteOne(l: Loop)
    requires l.phase == Connected(false) && l.connections != [] && l.world.client.link.outgoing != []
    ensures LoopStep(l, WriteNext(true)).Some?
    ensures var l', out := LoopStep(l, WriteNext(true)).value, l.world.client.link.outgoing;
      && l'.phase == l.phase && |l'.connections| == |l.connections|
      && l'.connections[|l.connections| - 1].written == l.connections[|l.connections| - 1].written + [out[0]]
      && l'.world.client == l.world.client.(link := l.world.client.link.(outgoing := out[1..]))
  {
    hide Record;
  }

  /** On a live connection the whole queue can always be written out, in its order and message
      by message, without touching anything else of the client. */
  lemma {:induction false} QueueCanBeWrittenOut(l: Loop)
    requires l.phase == Connected(false) && l.connections != []
    ensures var out := l.world.client.link.outgoing;
      && WriteOut(l, |out|).Some?
      && var l' := WriteOut(l, |out|).value;
         && l'.phase == Connected(false) && |l'.connections| == |l.connections|
         && l'.connections[|l.connections| - 1].written == l.connections[|l.connections| - 1].written + out
         && l'.world.client == l.world.client.(link := l.world.client.link.(outgoing := []))
    decreases |l.world.client.link.outgoing|
  {
    hide LoopStep;
    var out := l.world.client.link.outgoing;
    if out != [] {
      WriteOne(l);
      QueueCanBeWrittenOut(LoopStep(l, WriteNext(true)).value);
      assert [out[0]] + out[1..] == out;
    }
  }

  // ---- the loop can always get through ----

  lemma RunMore(w: World, labels: seq<Label>, a: Label)
    requires RunLoop(w, labels).Some?
    ensures RunLoop(w, labels + [a]) == LoopStep(RunLoop(w, labels).value, a)
  {
    hide LoopStep;
    assert (labels + [a])[..|labels|] == labels;
  }

  /** n successful writes. */
  function Writes(n: nat): seq<Label> {
    if n == 0 then [] else [WriteNext(true)] + Writes(n - 1)
  }

  lemma {:induction false} RunWrites(w: World, labels: seq<Label>, n: nat)
    requires RunLoop(w, labels).Some? && WriteOut(RunLoop(w, labels).value, n).Some?
    ensures RunLoop(w, labels + Writes(n)) == WriteOut(RunLoop(w, labels).value, n)
    decreases n
  {
    hide LoopStep, RunLoop;
    if n == 0 {
      assert labels + [] == labels;
    } else {
      RunMore(w, labels, WriteNext(true));
      RunWrites(w, labels + [WriteNext(true)], n - 1);
      assert labels + [WriteNext(true)] + Writes(n - 1) == labels + Writes(n);
    }
  }

  /** Where the loop is on its way to a live connection. */
  function Distance(l: Loop): nat {
    match l.phase
    case Connected(failed) => if failed then 3 else 0
    case Dialing => 1
    case LoopHead => 2
    case Stopped => 0
  }

  /** The next step of that way, with a token for the fetcher. */
  function Onward(l: Loop, token: AuthToken): Label {
    match l.phase
    case Connected(_) => WriteFailureNoticed
    case Dialing => ConnectWritten
    case LoopHead => if l.needsRestart then TryRestart(Some(token)) else SkipRestart
    case Stopped => Cancel
  }

  lemma OneStepOnward(l: Loop, token: AuthToken)
    requires !l.phase.Stopped? && l.phase != Connected(false)
    ensures LoopStep(l, Onward(l, token)).Some?
    ensures var l' := LoopStep(l, Onward(l, token)).value;
      !l'.phase.Stopped? && Distance(l') < Distance(l) && (l'.phase.Connected? ==> l'.connections != [])
  {
    hide Next, Replay, ClearSession;
    assert ClearSession(l.world.client).authFetcher == l.world.client.authFetcher by {
      ClearKeepsSource(l.world.client);
    }
  }

  lemma ClearKeepsSource(s: Client)
    ensures ClearSession(s).authFetcher == s.authFetcher
  {
  }

  lemma {:induction false} CanConnect(w: World, labels: seq<Label>, token: AuthToken) returns (more: seq<Label>)
    requires RunLoop(w, labels).Some? && !RunLoop(w, labels).value.phase.Stopped?
    requires RunLoop(w, labels).value.phase.Connected? ==> RunLoop(w, labels).value.connections != []
    ensures RunLoop(w, labels + more).Some?
    ensures RunLoop(w, labels + more).value.phase == Connected(false)
    ensures RunLoop(w, labels + more).value.connections != []
    decreases Distance(RunLoop(w, labels).value)
  {
    hide LoopStep, RunLoop;
    var l := RunLoop(w, labels).value;
    if l.phase == Connected(false) {
      more := [];
      assert labels + more == labels;
    } else {
      var a := Onward(l, token);
      OneStepOnward(l, token);
      RunMore(w, labels, a);
      var rest := CanConnect(w, labels + [a], token);
      more := [a] + rest;
      assert labels + [a] + rest == labels + more;
    }
  }

  /** From every state of every run that is not over, whatever has failed so far, the loop can
      still come to a live connection on which everything queued has been written, provided the
      auth fetcher answers. */
  lemma LoopCanAlwaysFlush(w: World, labels: seq<Label>, token: AuthToken) returns (more: seq<Label>)
    requires Inv(w) && Pristine(w) && RunLoop(w, labels).Some? && !RunLoop(w, labels).value.phase.Stopped?
    ensures RunLoop(w, labels + more).Some?
    ensures var l := RunLoop(w, labels + more).value;
      l.phase == Connected(false) && l.world.client.link.outgoing == []
  {
    hide LoopStep, RunLoop, Inv;
    RunLoopInv(w, labels);
    var first := CanConnect(w, labels, token);
    var l := RunLoop(w, labels + first).value;
    QueueCanBeWrittenOut(l);
    RunWrites(w, labels + first, |l.world.client.link.outgoing|);
    more := first + Writes(|l.world.client.link.outgoing|);
    assert labels + first + Writes(|l.world.client.link.outgoing|) == labels + more;
  }
}

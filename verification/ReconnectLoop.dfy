/** The reconnect loop as a step relation over the shared client.

    Each label is one atomic step: callers use the client at any time (under the manager's
    mutex), the writer goroutine pops and writes, the reader delivers server messages, and the
    run loop decides when to restart the session and dial.  Once a connection has been given
    up its writer no longer pops: the code cancels it without waiting for it, so this is an
    assumption about the schedule. */
module ReconnectLoop {
  import opened Prelude
  import opened Values
  import opened Protocol
  import opened Optimistic
  import opened ClientSteps
  import opened Sessions
  import opened RegistryInvariant
  import opened LedgerInvariant
  import opened SessionInvariant
  import opened ClientRuns
  import opened ClientTheorems
  import opened ObservationTheorems

  /** Where the run loop is.  writerFailed: a write failed and the writer has stopped, but the
      loop has not noticed yet. */
  datatype Phase = LoopHead | Dialing | Connected(writerFailed: bool) | Stopped

  /** One connection: its Connect message, the messages written after it, and the message
      whose write failed, if one did; nothing is written after a failure. */
  datatype Connection = Connection(
    count: nat, maxObserved: Option<Timestamp>, written: seq<ClientMessage>, lost: Option<ClientMessage>)
  {
    /** What was taken off the queue for this connection. */
    function Taken(): seq<ClientMessage> {
      written + (match lost case None => [] case Some(m) => [m])
    }
  }

  datatype Loop = Loop(
    world: World,
    phase: Phase,
    needsRestart: bool,
    connectionCount: nat,
    connections: seq<Connection>)

  datatype Label =
    | Call(event: Event)                          // Subscribe, Mutation, SetAuth, ... from any goroutine
    | SkipRestart                                 // loop head, nothing to rebuild
    | TryRestart(fetched: Option<AuthToken>)      // loop head, one attempt of prepareReconnect
    | DialFails
    | ConnectWriteFails
    | ConnectWritten
    | WriteNext(ok: bool)                         // the writer pops one message and writes it
    | WriteFailureNoticed
    | ReadFailsOrIdle
    | Deliver(message: ServerMessage)
    | Cancel

  /** Caller operations: everything but popping, receiving and restarting. */
  predicate IsCall(e: Event) {
    !e.Pop? && !e.Receive? && !e.Restart?
  }

  ghost function Begin(w: World): Loop {
    Loop(w, LoopHead, false, 0, [])
  }

  /** Leaving a connection, or failing to open one: back to the loop head. */
  function Reconnect(l: Loop, replay: bool): Loop {
    l.(phase := LoopHead, needsRestart := replay, connectionCount := l.connectionCount + 1)
  }

  /** The last connection after an attempt to write m. */
  function Written(cs: seq<Connection>, m: ClientMessage, ok: bool): seq<Connection>
    requires cs != []
  {
    var c := cs[|cs| - 1];
    cs[..|cs| - 1] + [if ok then c.(written := c.written + [m]) else c.(lost := Some(m))]
  }

  /** One step; None when the label is not enabled. */
  ghost function LoopStep(l: Loop, a: Label): Option<Loop> {
    match a
    case Call(e) => if IsCall(e) then Some(l.(world := Next(l.world, e))) else None
    case SkipRestart =>
      if l.phase.LoopHead? && !l.needsRestart then Some(l.(phase := Dialing)) else None
    case TryRestart(fetched) =>
      if l.phase.LoopHead? && l.needsRestart then
        Some(l.(world := Next(l.world, Restart(fetched)),
                phase := if RestartStep(l.world.client, fetched).1 then Dialing else LoopHead))
      else None
    case DialFails =>
      // the dial failed before anything was sent, so whether to restart is left as it was
      if l.phase.Dialing? then Some(Reconnect(l, l.needsRestart)) else None
    case ConnectWriteFails =>
      if l.phase.Dialing? then Some(Reconnect(l, false)) else None
    case ConnectWritten =>
      if l.phase.Dialing? then
        Some(l.(phase := Connected(false),
                connections := l.connections + [Connection(l.connectionCount, l.world.client.maxObserved, [], None)]))
      else None
    case WriteNext(ok) =>
      if l.phase == Connected(false) && l.connections != [] && l.world.client.link.outgoing != [] then
        Some(l.(world := Next(l.world, Pop),
                connections := Written(l.connections, l.world.client.link.outgoing[0], ok),
                phase := Connected(!ok)))
      else None
    case WriteFailureNoticed =>
      if l.phase == Connected(true) then Some(Reconnect(l, true)) else None
    case ReadFailsOrIdle =>
      if l.phase.Connected? then Some(Reconnect(l, true)) else None
    case Deliver(m) =>
      if l.phase.Connected? then
        Some(l.(world := Next(l.world, Receive(m)),
                phase := if ReceiveStep(l.world.client, m).1 then l.phase else Stopped))
      else None
    case Cancel => Some(l.(phase := Stopped))
  }

  /** The state after a sequence of labels, if each was enabled in its turn. */
  ghost function RunLoop(w: World, labels: seq<Label>): Option<Loop> {
    if labels == [] then Some(Begin(w))
    else
      match RunLoop(w, labels[..|labels| - 1])
      case None => None
      case Some(l) => LoopStep(l, labels[|labels| - 1])
  }

  // ---- the invariant ----

  /** Nothing of the current session has been used: no message handed out, no transition
      applied, and the session contains everything the server has to learn. */
  ghost predicate Pristine(w: World) {
    w.history.popped == [] && w.history.transitions == 0 && w.history.complete
  }

  ghost predicate Accepted(cs: seq<Connection>) {
    forall i :: 0 <= i < |cs| ==> ServeAll(cs[i].Taken()).Some?
  }

  ghost predicate Counted(cs: seq<Connection>, next: nat) {
    && (forall i :: 0 <= i < |cs| ==> cs[i].count < next)
    && (forall i, j :: 0 <= i < j < |cs| ==> cs[i].count < cs[j].count)
  }

  ghost predicate PhaseOK(l: Loop) {
    match l.phase
    case LoopHead => !l.needsRestart ==> Pristine(l.world)
    case Dialing => Pristine(l.world)
    case Connected(failed) =>
      && l.world.history.complete && l.connections != []
      && l.connections[|l.connections| - 1].Taken() == l.world.history.popped
      && l.connections[|l.connections| - 1].lost.Some? == failed
    case Stopped => true
  }

  ghost predicate LoopInv(l: Loop) {
    && Inv(l.world)
    && PhaseOK(l)
    && Accepted(l.connections)
    && Counted(l.connections, l.connectionCount + (if l.phase.Connected? || l.phase.Stopped? then 1 else 0))
  }

  lemma CallKeepsHistory(w: World, e: Event)
    requires IsCall(e)
    ensures var h := Next(w, e).history;
      h.popped == w.history.popped && h.transitions == w.history.transitions && h.complete == w.history.complete
  {
    hide Step, RecordCompletions;
  }

  lemma ReceiveKeepsHistory(w: World, m: ServerMessage)
    ensures var h := Next(w, Receive(m)).history;
      h.popped == w.history.popped && h.complete == w.history.complete
  {
    hide Step, RecordCompletions;
  }

  lemma RestartHistory(w: World, fetched: Option<AuthToken>)
    ensures RestartStep(w.client, fetched).1 ==> Pristine(Next(w, Restart(fetched)))
  {
    hide Step, RecordCompletions, RestartStep;
  }

  lemma PopHistory(w: World)
    requires w.client.link.outgoing != []
    ensures var h := Next(w, Pop).history;
      && h.popped == w.history.popped + [w.client.link.outgoing[0]]
      && h.transitions == w.history.transitions && h.complete == w.history.complete
  {
    hide Step, RecordCompletions;
  }

  /** Whatever has been handed out of a complete session is acceptable to a fresh server. */
  lemma PoppedIsAccepted(w: World)
    requires Inv(w) && w.history.complete
    ensures ServeAll(w.history.popped).Some?
  {
    var log := w.history.popped + w.client.link.outgoing;
    ServeAllPrefix(log, |w.history.popped|);
    assert log[..|w.history.popped|] == w.history.popped;
  }

  lemma WrittenFacts(cs: seq<Connection>, m: ClientMessage, ok: bool, next: nat)
    requires cs != [] && Accepted(cs) && Counted(cs, next)
    requires var c := cs[|cs| - 1]; c.lost.None? && ServeAll(c.written + [m]).Some?
    ensures var cs' := Written(cs, m, ok);
      && cs' != [] && Accepted(cs') && Counted(cs', next)
      && cs'[|cs'| - 1].Taken() == cs[|cs| - 1].Taken() + [m]
      && cs'[|cs'| - 1].lost.Some? == !ok
  {
    hide ServeAll;
    var c, cs' := cs[|cs| - 1], Written(cs, m, ok);
    assert c.Taken() == c.written;
    assert cs'[|cs'| - 1].Taken() == c.written + [m];
  }

  lemma WriteKeepsLoopInv(l: Loop, ok: bool)
    requires LoopInv(l) && LoopStep(l, WriteNext(ok)).Some?
    ensures LoopInv(LoopStep(l, WriteNext(ok)).value)
  {
    hide Inv, Next, ServeAll, Accepted, Counted, Written;
    var w := l.world;
    var m := w.client.link.outgoing[0];
    NextInv(w, Pop);
    PopHistory(w);
    PoppedIsAccepted(Next(w, Pop));
    var c := l.connections[|l.connections| - 1];
    assert c.Taken() == c.written;
    WrittenFacts(l.connections, m, ok, l.connectionCount + 1);
  }

  lemma WorldKeepsLoopInv(l: Loop, a: Label)
    requires LoopInv(l) && LoopStep(l, a).Some? && (a.Call? || a.TryRestart? || a.Deliver?)
    ensures LoopInv(LoopStep(l, a).value)
  {
    hide Inv, Next, RestartStep, ReceiveStep;
    match a
    case Call(e) =>
      NextInv(l.world, e);
      CallKeepsHistory(l.world, e);
    case TryRestart(fetched) =>
      NextInv(l.world, Restart(fetched));
      RestartHistory(l.world, fetched);
    case Deliver(m) =>
      NextInv(l.world, Receive(m));
      ReceiveKeepsHistory(l.world, m);
  }

  lemma LoopStepKeepsInv(l: Loop, a: Label)
    requires LoopInv(l) && LoopStep(l, a).Some?
    ensures LoopInv(LoopStep(l, a).value)
  {
    hide Inv, Next, ServeAll;
    match a
    case WriteNext(ok) => WriteKeepsLoopInv(l, ok);
    case Call(_) => WorldKeepsLoopInv(l, a);
    case TryRestart(_) => WorldKeepsLoopInv(l, a);
    case Deliver(_) => WorldKeepsLoopInv(l, a);
    case ConnectWritten => ConnectKeepsInv(l);
    case _ =>
  }

  lemma ConnectKeepsInv(l: Loop)
    requires LoopInv(l) && l.phase.Dialing?
    ensures LoopInv(LoopStep(l, ConnectWritten).value)
  {
    hide Inv, Next, Accepted, Counted;
    var c := Connection(l.connectionCount, l.world.client.maxObserved, [], None);
    OpenedFacts(l.connections, c);
  }

  lemma OpenedFacts(cs: seq<Connection>, c: Connection)
    requires Accepted(cs) && Counted(cs, c.count) && c.Taken() == []
    ensures Accepted(cs + [c]) && Counted(cs + [c], c.count + 1)
  {
    assert ServeAll([]).Some?;
  }

  /** Every state of every run of the loop, started on a client whose session is untouched. */
  lemma {:induction false} RunLoopInv(w: World, labels: seq<Label>)
    requires Inv(w) && Pristine(w) && RunLoop(w, labels).Some?
    ensures LoopInv(RunLoop(w, labels).value)
  {
    hide Inv, LoopStep;
    if labels != [] {
      RunLoopInv(w, labels[..|labels| - 1]);
      LoopStepKeepsInv(RunLoop(w, labels[..|labels| - 1]).value, labels[|labels| - 1]);
    }
  }

  // ---- the guarantees ----

  /** Fresh sessions: at the loop head without a pending restart, and whenever a dial is
      attempted, nothing of the session has been used, the next transition must start from
      version zero, and the whole queue is a complete session for a fresh server. */
  lemma EveryConnectionStartsFresh(w: World, labels: seq<Label>)
    requires Inv(w) && Pristine(w) && RunLoop(w, labels).Some?
    ensures var l := RunLoop(w, labels).value;
      (l.phase.Dialing? || (l.phase.LoopHead? && !l.needsRestart)) ==>
        && Pristine(l.world)
        && l.world.client.link.remoteVersion == ZERO_VERSION
        && ServeAll(l.world.client.link.outgoing).Some?
        && ServeAll(l.world.client.link.outgoing).value.view == LocalView(l.world.client.reg)
        && Holds(ServeAll(l.world.client.link.outgoing).value.seen, PendingMessages(l.world.client.ledger.requests))
  {
    hide RunLoop;
    RunLoopInv(w, labels);
    var l := RunLoop(w, labels).value;
    if l.phase.Dialing? || (l.phase.LoopHead? && !l.needsRestart) {
      PristineFacts(l.world);
    }
  }

  lemma PristineFacts(w: World)
    requires Inv(w) && Pristine(w)
    ensures w.client.link.remoteVersion == ZERO_VERSION
    ensures Served(w.client.link.outgoing, LocalView(w.client.reg), PendingMessages(w.client.ledger.requests),
      w.client.ledger.nextRequestID)
  {
    assert [] + w.client.link.outgoing == w.client.link.outgoing;
  }

  /** No connection ever carries traffic a fresh server would refuse: on each one, what is
      written after Connect continues version 0, 0 and never adds a known query, removes an
      unknown one or repeats a request id, however the previous connections ended.  That
      holds whether or not a message whose write failed reached the server after all. */
  lemma EveryConnectionIsAccepted(w: World, labels: seq<Label>, i: nat, n: nat)
    requires Inv(w) && Pristine(w) && RunLoop(w, labels).Some?
    requires i < |RunLoop(w, labels).value.connections|
    ensures var c := RunLoop(w, labels).value.connections[i];
      && (n <= |c.written| ==> ServeAll(c.written[..n]).Some?)
      && ServeAll(c.Taken()).Some?
  {
    hide RunLoop, Inv, ServeAll;
    RunLoopInv(w, labels);
    var c := RunLoop(w, labels).value.connections[i];
    if n <= |c.written| {
      ServeAllPrefix(c.Taken(), n);
      assert c.Taken()[..n] == c.written[..n];
    }
  }

  /** A drained queue means the server is up to date: on a connection with no failed write and
      nothing left to write, what was written gives the server exactly the client's query set
      and versions, and every pending request. */
  lemma FlushedConnectionIsComplete(w: World, labels: seq<Label>)
    requires Inv(w) && Pristine(w) && RunLoop(w, labels).Some?
    requires RunLoop(w, labels).value.phase == Connected(false)
    requires RunLoop(w, labels).value.world.client.link.outgoing == []
    ensures var l := RunLoop(w, labels).value;
      && l.connections != []
      && var sv := ServeAll(l.connections[|l.connections| - 1].written);
         && sv.Some? && sv.value.view == LocalView(l.world.client.reg)
         && sv.value.querySet == l.world.client.link.querySetVersion
         && sv.value.identity == l.world.client.link.identityVersion
         && Holds(sv.value.seen, PendingMessages(l.world.client.ledger.requests))
  {
    hide RunLoop, Inv, ServeAll, LocalView, PendingMessages, Holds, Accepted, Counted;
    RunLoopInv(w, labels);
    var l := RunLoop(w, labels).value;
    var c := l.connections[|l.connections| - 1];
    assert c.Taken() == c.written;
    DrainedFacts(l.world);
  }

  /** A failed write is not forgotten: the message it took off the queue is the only one the
      server may lack, and the loop does not dial again before a restart has rebuilt it. */
  lemma LostMessageIsRebuilt(w: World, labels: seq<Label>, a: Label)
    requires Inv(w) && Pristine(w) && RunLoop(w, labels).Some?
    requires RunLoop(w, labels).value.phase == Connected(true) && LoopStep(RunLoop(w, labels).value, a).Some?
    ensures var l := RunLoop(w, labels).value;
      && l.connections != []
      && var c := l.connections[|l.connections| - 1];
         c.lost.Some? && l.world.history.popped == c.written + [c.lost.value]
    ensures var l' := LoopStep(RunLoop(w, labels).value, a).value;
      l'.phase == Connected(true) || l'.phase.Stopped? || (l'.phase.LoopHead? && l'.needsRestart)
  {
    hide RunLoop, Next, Inv;
    RunLoopInv(w, labels);
  }

  lemma DrainedFacts(w: World)
    requires Inv(w) && w.history.complete && w.client.link.outgoing == []
    ensures ServeAll(w.history.popped).Some?
    ensures var sv := ServeAll(w.history.popped).value;
      && sv.view == LocalView(w.client.reg)
      && sv.querySet == w.client.link.querySetVersion && sv.identity == w.client.link.identityVersion
      && Holds(sv.seen, PendingMessages(w.client.ledger.requests))
  {
    assert w.history.popped + [] == w.history.popped;
    ServedVersions(w.history.popped);
  }

  /** Connect messages carry strictly increasing connection counts. */
  lemma ConnectionCountsIncrease(w: World, labels: seq<Label>, i: nat, j: nat)
    requires Inv(w) && Pristine(w) && RunLoop(w, labels).Some?
    requires i < j < |RunLoop(w, labels).value.connections|
    ensures RunLoop(w, labels).value.connections[i].count < RunLoop(w, labels).value.connections[j].count
  {
    hide RunLoop, Inv;
    RunLoopInv(w, labels);
  }

  /** The loop may start on a client that callers have already been using. */
  lemma {:induction false} UsedBeforeRun(configuredLimit: int, events: seq<Event>)
    requires forall i :: 0 <= i < |events| ==> IsCall(events[i])
    ensures Inv(Run(configuredLimit, events)) && Pristine(Run(configuredLimit, events))
  {
    RunInv(configuredLimit, events);
    CallsKeepPristine(configuredLimit, events);
  }

  lemma {:induction false} CallsKeepPristine(configuredLimit: int, events: seq<Event>)
    requires forall i :: 0 <= i < |events| ==> IsCall(events[i])
    ensures Pristine(Run(configuredLimit, events))
  {
    hide Next;
    if events != [] {
      var n := |events| - 1;
      CallsKeepPristine(configuredLimit, events[..n]);
      CallKeepsHistory(Run(configuredLimit, events[..n]), events[n]);
    }
  }

  // ---- runs of the loop are runs of the client ----

  /** The client events a label stands for. */
  function EventsOf(a: Label): seq<Event> {
    match a
    case Call(e) => [e]
    case TryRestart(fetched) => [Restart(fetched)]
    case WriteNext(_) => [Pop]
    case Deliver(m) => [Receive(m)]
    case _ => []
  }

  function Events(labels: seq<Label>): seq<Event> {
    if labels == [] then [] else Events(labels[..|labels| - 1]) + EventsOf(labels[|labels| - 1])
  }

  lemma RunAppend(configuredLimit: int, events: seq<Event>, e: Event)
    ensures Run(configuredLimit, events + [e]) == Next(Run(configuredLimit, events), e)
  {
    var all := events + [e];
    assert all[..|events|] == events && all[..|all|] == all;
    RunSnoc(configuredLimit, all, |events|);
  }

  lemma StepWorld(l: Loop, a: Label)
    requires LoopStep(l, a).Some?
    ensures LoopStep(l, a).value.world ==
      match EventsOf(a) { case es => if es == [] then l.world else Next(l.world, es[0]) }
  {
    hide Next, RestartStep, ReceiveStep;
  }

  /** Whatever the loop does to the shared client is a run of that client, so every guarantee
      about runs holds in every state of the loop. */
  lemma {:induction false} LoopRunsTheClient(configuredLimit: int, before: seq<Event>, labels: seq<Label>)
    requires RunLoop(Run(configuredLimit, before), labels).Some?
    ensures RunLoop(Run(configuredLimit, before), labels).value.world == Run(configuredLimit, before + Events(labels))
  {
    hide Run, Next, LoopStep;
    if labels == [] {
      assert before + [] == before;
    } else {
      var n := |labels| - 1;
      var a := labels[n];
      LoopRunsTheClient(configuredLimit, before, labels[..n]);
      StepWorld(RunLoop(Run(configuredLimit, before), labels[..n]).value, a);
      var events := before + Events(labels[..n]);
      assert before + Events(labels) == events + EventsOf(a);
      if EventsOf(a) == [] {
        assert events + [] == events;
      } else {
        RunAppend(configuredLimit, events, EventsOf(a)[0]);
      }
    }
  }

  /** Where connection i of a loop run was opened. */
  ghost predicate OpenedAt(w: World, labels: seq<Label>, c: Connection, n: nat) {
    && n < |labels| && labels[n] == ConnectWritten
    && RunLoop(w, labels[..n]).Some?
    && c.maxObserved == RunLoop(w, labels[..n]).value.world.client.maxObserved
    && c.count == RunLoop(w, labels[..n]).value.connectionCount
  }

  /** A step opens at most one connection and keeps what the others were opened with. */
  lemma StepConnections(l: Loop, a: Label, i: nat)
    requires LoopStep(l, a).Some? && i < |LoopStep(l, a).value.connections|
    ensures var c := LoopStep(l, a).value.connections[i];
      if i < |l.connections| then c.maxObserved == l.connections[i].maxObserved && c.count == l.connections[i].count
      else a == ConnectWritten && c.maxObserved == l.world.client.maxObserved && c.count == l.connectionCount
  {
    hide Next, RestartStep, ReceiveStep;
  }

  lemma {:induction false} EveryConnectionWasOpened(w: World, labels: seq<Label>, i: nat) returns (n: nat)
    requires RunLoop(w, labels).Some? && i < |RunLoop(w, labels).value.connections|
    ensures OpenedAt(w, labels, RunLoop(w, labels).value.connections[i], n)
  {
    hide LoopStep;
    var last := |labels| - 1;
    var l := RunLoop(w, labels[..last]).value;
    StepConnections(l, labels[last], i);
    if i < |l.connections| {
      n := EveryConnectionWasOpened(w, labels[..last], i);
      assert labels[..last][..n] == labels[..n];
    } else {
      n := last;
    }
  }

  /** c was opened at label n of the loop's run and reports the largest timestamp the client
      had observed by then, over its whole life. */
  ghost predicate ReportsLargest(configuredLimit: int, before: seq<Event>, labels: seq<Label>, c: Connection, n: nat) {
    && n < |labels| && OpenedAt(Run(configuredLimit, before), labels, c, n)
    && LargestObserved(configuredLimit, before + Events(labels[..n]), c.maxObserved)
  }

  /** Every Connect message reports the largest timestamp observed so far. */
  lemma ConnectReportsLargestTimestamp(configuredLimit: int, before: seq<Event>, labels: seq<Label>, c: Connection)
    requires RunLoop(Run(configuredLimit, before), labels).Some?
    requires c in RunLoop(Run(configuredLimit, before), labels).value.connections
    ensures exists n :: ReportsLargest(configuredLimit, before, labels, c, n)
  {
    hide Run, RunLoop, LargestObserved, Events;
    var cs := RunLoop(Run(configuredLimit, before), labels).value.connections;
    var i :| 0 <= i < |cs| && cs[i] == c;
    var n := EveryConnectionWasOpened(Run(configuredLimit, before), labels, i);
    LoopRunsTheClient(configuredLimit, before, labels[..n]);
    MaxObservedIsLargest(configuredLimit, before + Events(labels[..n]));
    assert ReportsLargest(configuredLimit, before, labels, c, n);
  }
}

/** The capacity-one channel that carries only the latest result to a subscriber.

    Producers hold the client mutex, so one send runs at a time; the consumer may receive
    between any two of its three channel operations.  Values are identified by their publish
    number: 0 is the first value ever published on the channel. */
module LatestChannel {
  import opened Prelude

  /** Where the running send is: before its first attempt, before emptying the buffer, or
      before its second attempt. */
  datatype Sender = Idle | FirstTry(v: nat) | Empty(v: nat) | SecondTry(v: nat)

  datatype Channel = Channel(buffer: Option<nat>, sender: Sender, published: nat, received: seq<nat>, dropped: seq<nat>)

  const FRESH := Channel(None, Idle, 0, [], [])

  datatype Step = Publish | Advance | Receive

  predicate Enabled(c: Channel, a: Step) {
    match a
    case Publish => c.sender.Idle?
    case Advance => !c.sender.Idle?
    case Receive => c.buffer.Some?
  }

  /** Each select with a default branch is one atomic step. */
  function Next(c: Channel, a: Step): Channel
    requires Enabled(c, a)
  {
    match a
    case Publish => c.(sender := FirstTry(c.published), published := c.published + 1)
    case Receive => c.(buffer := None, received := c.received + [c.buffer.value])
    case Advance =>
      match c.sender
      case FirstTry(v) =>
        if c.buffer.None? then c.(buffer := Some(v), sender := Idle) else c.(sender := Empty(v))
      case Empty(v) => c.(buffer := None, sender := SecondTry(v))
      case SecondTry(v) =>
        if c.buffer.None? then c.(buffer := Some(v), sender := Idle)
        else c.(sender := Idle, dropped := c.dropped + [v])
  }

  /** The channel after a schedule; a step that is not enabled has no effect. */
  ghost function Run(steps: seq<Step>): Channel {
    if steps == [] then FRESH
    else
      var c := Run(steps[..|steps| - 1]);
      if Enabled(c, steps[|steps| - 1]) then Next(c, steps[|steps| - 1]) else c
  }

  /** The newest number that has reached the buffer or the consumer. */
  function Newest(c: Channel): int {
    if c.buffer.Some? then c.buffer.value else if c.received != [] then c.received[|c.received| - 1] else -1
  }

  ghost predicate Inv(c: Channel) {
    && c.dropped == []
    && (forall i, j :: 0 <= i < j < |c.received| ==> c.received[i] < c.received[j])
    && (c.buffer.Some? ==> forall i :: 0 <= i < |c.received| ==> c.received[i] < c.buffer.value)
    && (forall i :: 0 <= i < |c.received| ==> c.received[i] < c.published)
    && match c.sender
       case Idle => Newest(c) == c.published - 1
       case FirstTry(v) => v == c.published - 1 && Newest(c) == v - 1
       case Empty(v) => v == c.published - 1 && Newest(c) == v - 1
       case SecondTry(v) => v == c.published - 1 && c.buffer.None? && Newest(c) < v
  }

  lemma NextKeepsInv(c: Channel, a: Step)
    requires Inv(c) && Enabled(c, a)
    ensures Inv(Next(c, a))
  {
  }

  lemma {:induction false} RunInv(steps: seq<Step>)
    ensures Inv(Run(steps))
  {
    if steps != [] {
      RunInv(steps[..|steps| - 1]);
      var c := Run(steps[..|steps| - 1]);
      if Enabled(c, steps[|steps| - 1]) {
        NextKeepsInv(c, steps[|steps| - 1]);
      }
    }
  }

  /** Whatever the interleaving: no send ever drops its own value, the consumer sees values in
      publish order without repeats, and between sends the buffer is empty or holds the value
      published last; if it is empty, the consumer already has that value. */
  lemma LatestIsDelivered(steps: seq<Step>)
    ensures var c := Run(steps);
      && c.dropped == []
      && (forall i, j :: 0 <= i < j < |c.received| ==> c.received[i] < c.received[j])
      && (c.sender.Idle? && c.published > 0 ==>
            if c.buffer.Some? then c.buffer.value == c.published - 1
            else c.received != [] && c.received[|c.received| - 1] == c.published - 1)
  {
    RunInv(steps);
  }
}

/** One sender's packets from the network to playout: the arrival tracker in front of the playout queue,
    both on 32-bit words. What the queue needs of its input, the tracker provides, whatever the network
    does. */
module ReceivePipeline {

  import DropRanges
  import opened PlayoutQueue
  import opened SerialNumbers
  import opened TimelyPackets
  import opened WordQueue
  import History = WordHistory
  import Tracker = SequenceTracker
  import WordTracker

  /** A packet off the network, which the queue admits or refuses while its sender is muted or not; or
      something done to the queue. */
  datatype Event =
    | Receive(packet: Packet, admitted: bool, muted: bool)
    | AskForPacket(gapWait: nat, blocked: bool)
    | CutLatency(blocked: bool)
    | Clear

  /** Every number received so far, in order, and everything done to the queue. */
  datatype Pipe = Pipe(received: seq<nat>, acts: seq<Action>)

  /** A refused packet of a muted sender leaves no trace. */
  predicate Noted(e: Event) { e.Receive? ==> e.admitted || !e.muted }

  /** What the tracker says of a packet with this number. */
  predicate PassedOn(received: seq<nat>, n: nat) {
    Tracker.ShouldEnqueue(WordTracker.WordRecord(WordTracker.WordAfter(received), Wire(n)).delta)
  }

  /** What an event makes the queue do. */
  function QueueAction(e: Event): Action {
    match e
    case Receive(packet, admitted, _) => if admitted then Arrive(packet) else ArriveDropped(packet.number)
    case AskForPacket(gapWait, blocked) => Take(gapWait, blocked)
    case CutLatency(blocked) => TrimOldest(blocked)
    case Clear => Forget
  }

  function Next(p: Pipe, e: Event): Pipe {
    if !e.Receive? then p.(acts := p.acts + [QueueAction(e)])
    else
      Pipe(p.received + [e.packet.number],
           if PassedOn(p.received, e.packet.number) && Noted(e) then p.acts + [QueueAction(e)] else p.acts)
  }

  function AfterAll(events: seq<Event>): Pipe {
    if events == [] then Pipe([], []) else Next(AfterAll(events[..|events| - 1]), events[|events| - 1])
  }

  /** What arrives and what is missing lie within half the number space of the next number, and what is
      queued, recorded and arriving lies in one half of the number space; nothing else is asked of the
      network. */
  ghost predicate NumbersNear(p: Pipe) { WordTracker.RunNear(p.received) && History.RunNear(p.acts) }

  /** A number the tracker passes on was never received before. */
  lemma PassedOnIsNew(received: seq<nat>, n: nat)
    requires PassedOn(received, n) && WordTracker.RunNear(received + [n])
    ensures n !in received
  {
    if n in received {
      var i :| 0 <= i < |received| && received[i] == n;
      var run, j := received + [n], |received|;
      assert run[..j] == received;
      WordTracker.NeverQueuedAgain(run, i, j);
    }
  }

  // ----- the queue's side ------------------------------------------------------------------------------

  lemma NearTakeEnabled(w: World, gapWait: nat, blocked: bool)
    requires History.ActionNear(w.queue, Take(gapWait, blocked))
    ensures Enabled(w, Take(gapWait, blocked))
  {
    var q := w.queue;
    var base: nat :| QueueNear(q, base) && History.ArrivesNear(q, Take(gapWait, blocked), base);
    forall i | 0 <= i < |q.packets| && !blocked ensures q.packets[i].number < Origin(q, blocked) + UINT32 {
      PacketsNearAt(q.packets, base, i);
      PacketsNearAt(q.packets, base, Earliest(q.packets, |q.packets|));
    }
  }

  /** Only arrivals make numbers known to the queue. */
  lemma StepKnows(w: World, a: Action)
    requires |w.queue.drops| == DropRanges.SLOTS
    ensures
      Step(w, a).arrived ==
      w.arrived + if a.Arrive? then {a.packet.number} else if a.ArriveDropped? then {a.number} else {}
  {
  }

  /** The queue is run as it has to be, and knows only what was received. */
  ghost predicate Inv(p: Pipe) { ValidRun(p.acts) && forall n :: n in After(p.acts).arrived ==> n in p.received }

  lemma NextKeeps(p: Pipe, e: Event)
    requires Inv(p) && NumbersNear(Next(p, e))
    ensures Inv(Next(p, e))
  {
    var p' := Next(p, e);
    if p'.acts != p.acts {
      var a := QueueAction(e);
      assert p'.acts == p.acts + [a] && p'.acts[..|p.acts|] == p.acts && History.NearAt(p'.acts, |p.acts|);
      if e.Receive? {
        PassedOnIsNew(p.received, e.packet.number);
      } else if e.AskForPacket? {
        NearTakeEnabled(After(p.acts), e.gapWait, e.blocked);
      }
      OneMore(p.acts, a);
      StepKnows(After(p.acts), a);
    }
  }

  lemma PrefixNear(p: Pipe, e: Event)
    requires NumbersNear(Next(p, e))
    ensures NumbersNear(p)
  {
    var p' := Next(p, e);
    assert p'.received[..|p.received|] == p.received && p'.acts[..|p.acts|] == p.acts;
    WordTracker.RunNearPrefix(p'.received, |p.received|);
    History.NearPrefix(p'.acts, |p.acts|);
  }

  lemma {:induction false} AlwaysInv(events: seq<Event>)
    requires NumbersNear(AfterAll(events))
    ensures Inv(AfterAll(events))
  {
    if events == [] {
    } else {
      var p, e := AfterAll(events[..|events| - 1]), events[|events| - 1];
      PrefixNear(p, e);
      AlwaysInv(events[..|events| - 1]);
      NextKeeps(p, e);
    }
  }

  // ----- what reaches the queue --------------------------------------------------------------------------

  /** The first packet received with a number newer than the first number ever received. */
  predicate FirstCopy(received: seq<nat>, n: nat) { n !in received && (received == [] || n > received[0]) }

  /** While the tracker's ranges do not fill up, the queue is given the first copy of every number, as a packet or
      as a drop of its own, and no other; a refused packet of a muted sender leaves no trace. */
  lemma FirstCopyGoesOn(events: seq<Event>, e: Event, p: Pipe, p': Pipe)
    requires p == AfterAll(events) && p' == Next(p, e) && e.Receive?
    requires NumbersNear(p') && Tracker.NeverFull(p'.received)
    ensures
      var n := e.packet.number;
      p'.acts == p.acts +
        if !FirstCopy(p.received, n) then []
        else if e.admitted then [Arrive(e.packet)]
        else if e.muted then []
        else [ArriveDropped(n)]
  {
    var run, j := p'.received, |p.received|;
    assert run[..j] == p.received;
    WordTracker.QueuedAtFirstArrival(run, j);
    assert p.acts + [] == p.acts;
  }

  /** So the first copy of a number, admitted while playout has not passed it, gets into the list in time, unless
      all 128 packets of a full list have lower numbers. */
  lemma FirstCopyIsQueued(events: seq<Event>, e: Event, p: Pipe, p': Pipe)
    requires p == AfterAll(events) && p' == Next(p, e) && e.Receive? && e.admitted
    requires NumbersNear(p') && Tracker.NeverFull(p'.received) && FirstCopy(p.received, e.packet.number)
    ensures
      var q, n := After(p.acts).queue, e.packet.number;
      InTime(After(p'.acts).queue, n) <==>
        && !(q.started && n < q.next)
        && (|q.packets| < 128 || exists i :: 0 <= i < |q.packets| && q.packets[i].number > n)
  {
    PrefixNear(p, e);
    AlwaysInv(events);
    FirstCopyGoesOn(events, e, p, p');
    PlayoutQueue.AlwaysInv(p.acts);
    assert p'.acts[..|p.acts|] == p.acts;
    ArrivalGetsIn(After(p.acts), e.packet, 0);
  }

  // ----- end to end --------------------------------------------------------------------------------------

  /** Whatever the network loses, repeats or reorders, whatever the queue refuses or trims, playout passes
      the sender's numbers one by one: entry i of its history is the i-th number since it started, modulo
      2^32, a number played was received, and a number counted as the receiver's drop was dropped. */
  lemma PlayoutPassesEachNumberOnce(events: seq<Event>, i: nat, p: Pipe, w: World, h: Heard)
    requires p == AfterAll(events) && NumbersNear(p) && w == After(p.acts) && h == WordAfter(p.acts)
    requires h.queue.started && i < |h.log|
    ensures
      var n := w.queue.next - |h.log| + i;
      && n >= 0 && h.queue.next == Wire(w.queue.next) && h.log[i].number == Wire(n)
      && (h.log[i].fate.Played? || h.log[i].fate.Trimmed? ==> n in p.received)
      && (h.log[i].fate.ConcealedDrop? || h.log[i].fate.SkippedDrop? ==> n in w.dropped)
  {
    AlwaysInv(events);
    History.EveryWordOnce(p.acts, i, w, h);
  }

  /** And a packet that reached the list in time is heard, unless it is dropped or trimmed. */
  lemma TimelyIsHeard(events: seq<Event>, i: nat, n: nat, p: Pipe, w: World, at: int)
    requires p == AfterAll(events) && NumbersNear(p) && History.HeldInTime(p.acts, i, n)
    requires w == After(p.acts) && w.queue.started && n < w.queue.next && at == n - (w.queue.next - |w.log|)
    ensures PlayedAt(WordAfter(p.acts).log, at, Wire(n))
  {
    AlwaysInv(events);
    History.TimelyWordIsPlayed(p.acts, i, n, w, at);
  }
}

/** Playout gets past every gap: on 32-bit words, with no assumption about how far numbers lie apart, a queue
    that holds a packet in time hands one out before long. */
module PlayoutProgress {

  import opened Common
  import opened DropRanges
  import opened FarPackets
  import opened PlayoutQueue
  import opened SerialNumbers
  import opened WordDrops
  import opened WordQueue
  import S = SequenceTracker
  import TimelyPackets
  import T = WordTracker

  // ----- how long playout can still go without a packet ---------------------------------------------------

  predicate InTimeAt(q: Queue, i: int) { 0 <= i < |q.packets| && !SequenceBefore(q.packets[i].number, q.next) }

  /** Playout has started, and some queued packet does not compare as behind it. */
  ghost predicate HoldsInTime(q: Queue) { q.started && exists i :: InTimeAt(q, i) }

  /** The number playout stands at is recorded as dropped. */
  predicate Marked(q: Queue)
    requires OnWords(q)
  {
    T.WordHolding(q.drops, q.next, 0).Some?
  }

  /** How often playout has waited for the number it stands at. */
  function Waited(q: Queue): nat { if q.wait.GapWait? && q.wait.number == q.next then q.wait.callbacks else 0 }

  /** How many more takes, waiting at most g times at a gap, can go without a packet: the waits left and two
      concealments; in a run of concealments, what is left of the two. */
  function Patience(q: Queue, g: nat): (p: nat)
    requires OnWords(q)
    ensures p <= g + 2
  {
    if q.lossRun.Some? then (if q.lossRun.value < 2 then 2 - q.lossRun.value else 0)
    else if Marked(q) then g + 2
    else WaitsLeft(q, g) + 2
  }

  function WaitsLeft(q: Queue, g: nat): nat { if Waited(q) < g then g - Waited(q) else 0 }

  // ----- one take -----------------------------------------------------------------------------------------

  /** On words, not behind is at most half the number space ahead. */
  lemma NotBehindIs(a: Word, b: Word)
    ensures !SequenceBefore(a, b) <==> Offset(a, b) <= HALF
  {
    if a < b {
      ModuloOf(a - b, -1, a - b + UINT32);
    } else {
      ModuloOf(a - b, 0, a - b);
    }
  }

  lemma {:induction false} SkipStops(drops: seq<S.Range>, next: Word, n: Word)
    requires T.Words(drops)
    ensures
      var s := WordSkip(drops, next, n);
      && (s.next == n || T.WordHolding(s.drops, s.next, 0).None?)
      && (next != n && T.WordHolding(drops, next, 0).Some? ==> s.next != next)
    decreases Offset(n, next)
  {
    if next == n || T.WordHolding(drops, next, 0).None? {
    } else {
      TakenOutWords(drops, next);
      OneStepCloser(n, next);
      SkipStops(WordTakenOut(drops, next), Wire(next + 1), n);
      SkipGoesAhead(WordTakenOut(drops, next), Wire(next + 1), n);
    }
  }

  /** A take did not hand a packet out, but it waited or concealed, and patience runs out. */
  ghost predicate CameCloser(r: Result, patience: nat, g: nat) {
    && (r.output.WaitingForGap? || r.output.Conceal?)
    && OnWords(r.queue) && HoldsInTime(r.queue) && Patience(r.queue, g) < patience
  }

  lemma GapProgress(q: Queue, i: nat, gapWait: nat, g: nat)
    requires OnWords(q) && q.started && i < |q.packets| && !Marked(q) && gapWait <= g
    requires 0 < Offset(q.packets[i].number, q.next) <= HALF
    ensures var r := WordAtGap(q, i, gapWait); r.output.Play? || CameCloser(r, Patience(q, g), g)
  {
    var r, n := WordAtGap(q, i, gapWait), q.packets[i].number;
    GapOnWords(q, i, gapWait);
    if !r.output.Play? {
      if r.output.Conceal? {
        OneStepCloser(n, q.next);
      }
      NotBehindIs(n, r.queue.next);
      assert InTimeAt(r.queue, i);
    }
  }

  lemma PassedOverPatience(q: Queue, s: Skip, g: nat)
    requires OnWords(q) && s.next < UINT32 && |s.drops| == SLOTS && T.Words(s.drops)
    requires s.next != q.next ==> Marked(q) && T.WordHolding(s.drops, s.next, 0).None?
    requires s.next == q.next ==> !Marked(q)
    ensures
      var r := WordPassedOver(q, s);
      && !Marked(r) && Patience(r, g) <= Patience(q, g)
      && r.started == q.started && r.packets == q.packets && r.next == s.next
  {
  }

  lemma MissingProgress(q: Queue, i: nat, gapWait: nat, g: nat)
    requires OnWords(q) && q.started && i < |q.packets| && gapWait <= g
    requires 0 < Offset(q.packets[i].number, q.next) <= HALF
    ensures
      var r := WordMissing(q, i, gapWait, WordSkip(q.drops, q.next, q.packets[i].number));
      r.output.Play? || CameCloser(r, Patience(q, g), g)
  {
    var n := q.packets[i].number;
    var s := WordSkip(q.drops, q.next, n);
    SkipStops(q.drops, q.next, n);
    SkipGoesAhead(q.drops, q.next, n);
    SameOrNot(n, q.next);
    if s.next != n {
      SameOrNot(n, s.next);
      MovedIfMarked(q, n);
      PassedOverPatience(q, s, g);
      GapProgress(WordPassedOver(q, s), i, gapWait, g);
    }
  }

  lemma SameOrNot(n: Word, next: Word)
    ensures Offset(n, next) == 0 <==> n == next
  {
    T.WireEqual(n, next);
    OffsetIs(n, next);
    ModuloOf(n, 0, n);
    ModuloOf(next, 0, next);
  }

  /** Playout moves over drops exactly if the number it stands at is recorded as one. */
  lemma MovedIfMarked(q: Queue, n: Word)
    requires OnWords(q) && q.next != n
    ensures WordSkip(q.drops, q.next, n).next == q.next <==> !Marked(q)
  {
    SkipStops(q.drops, q.next, n);
  }

  /** The list once what is behind playout is thrown away. */
  lemma FreshHolds(q: Queue, kept: seq<Packet>)
    requires OnWords(q) && HoldsInTime(q) && kept == WordFreshOnly(q.packets, q.next, 0)
    ensures kept != [] && WordPackets(kept)
    ensures forall i :: 0 <= i < |kept| ==> !SequenceBefore(kept[i].number, q.next)
  {
    var i :| InTimeAt(q, i);
    KeptIff(q.packets, q.next, 0, q.packets[i].number);
    forall j | 0 <= j < |kept| ensures !SequenceBefore(kept[j].number, q.next) {
      KeptIff(q.packets, q.next, 0, kept[j].number);
    }
  }

  /** A take from a queue that holds a packet in time, not put off, hands one out or comes closer to it. */
  lemma TakeProgress(q: Queue, gapWait: nat, g: nat)
    requires OnWords(q) && HoldsInTime(q) && gapWait <= g
    ensures var r := WordDequeue(q, gapWait, false); r.output.Play? || CameCloser(r, Patience(q, g), g)
  {
    var r := q.(packets := WordFreshOnly(q.packets, q.next, 0));
    FreshHolds(q, r.packets);
    var i := WordEarliest(r.packets, |r.packets|);
    var n := r.packets[i].number;
    if n != r.next {
      NotBehindIs(n, r.next);
      SameOrNot(n, r.next);
      MissingProgress(r, i, gapWait, g);
    }
  }

  // ----- arrivals in between --------------------------------------------------------------------------------

  function QueueStep(q: Queue, a: Action): (q': Queue)
    requires OnWords(q)
    ensures OnWords(q')
  {
    WordStep(Heard(q, []), a).queue
  }

  /** The arrival of a drop, or of a packet a full list drops, marks the number playout waits for: it then
      waits anew behind it. */
  predicate Restarts(q: Queue, a: Action)
    requires OnWords(q)
  {
    !a.Take? && q.lossRun.None? && !Marked(q) && Marked(QueueStep(q, a))
  }

  lemma RecordProgress(q: Queue, n: Word, q': Queue, g: nat)
    requires OnWords(q) && HoldsInTime(q) && q' == WordRecordDrop(q, n)
    ensures OnWords(q') && HoldsInTime(q')
    ensures Patience(q', g) <= Patience(q, g) + if q.lossRun.None? && !Marked(q) && Marked(q') then g else 0
  {
    WithDropWords(q.drops, n);
    var i :| InTimeAt(q, i);
    assert InTimeAt(q', i);
  }

  lemma AdmitHolds(q: Queue, p: Packet)
    requires OnWords(q) && HoldsInTime(q) && p.number < UINT32
    ensures HoldsInTime(WordAdmit(q, p))
  {
    var i :| InTimeAt(q, i);
    var q' := WordAdmit(q, p);
    if q'.packets == q.packets {
      assert InTimeAt(q', i);
    } else if |q'.packets| > |q.packets| {
      assert InTimeAt(q', i);
    } else {
      var l := WordLatest(q.packets, |q.packets|);
      assert InTimeAt(q', l);
    }
  }

  lemma ArrivalProgress(q: Queue, a: Action, g: nat)
    requires OnWords(q) && HoldsInTime(q) && (a.Arrive? || a.ArriveDropped?)
    ensures HoldsInTime(QueueStep(q, a))
    ensures Patience(QueueStep(q, a), g) <= Patience(q, g) + if Restarts(q, a) then g else 0
  {
    if a.Arrive? {
      AdmitHolds(q, PacketImage(a.packet));
    } else {
      RecordProgress(q, Wire(a.number), WordRecordDrop(q, Wire(a.number)), g);
    }
  }

  // ----- whole stretches ------------------------------------------------------------------------------------

  /** Packets and drops may arrive, and playout may ask, waiting at most g times at a gap; nothing is trimmed,
      cleared or put off. */
  predicate Allowed(a: Action, g: nat) { a.Arrive? || a.ArriveDropped? || (a.Take? && !a.blocked && a.gapWait <= g) }

  predicate AllAllowed(acts: seq<Action>, g: nat) { forall i :: 0 <= i < |acts| ==> Allowed(acts[i], g) }

  function Takes(acts: seq<Action>): nat {
    if acts == [] then 0 else (if acts[0].Take? then 1 else 0) + Takes(acts[1..])
  }

  predicate HandsOut(q: Queue, a: Action)
    requires OnWords(q)
  {
    a.Take? && WordDequeue(q, a.gapWait, a.blocked).output.Play?
  }

  /** No take of the stretch hands out a packet. */
  predicate NoneHandedOut(q: Queue, acts: seq<Action>)
    requires OnWords(q)
    decreases |acts|
  {
    acts == [] || (!HandsOut(q, acts[0]) && NoneHandedOut(QueueStep(q, acts[0]), acts[1..]))
  }

  lemma StepProgress(q: Queue, a: Action, g: nat)
    requires OnWords(q) && HoldsInTime(q) && Allowed(a, g) && !HandsOut(q, a)
    ensures HoldsInTime(QueueStep(q, a))
    ensures (if a.Take? then 1 else 0) + Patience(QueueStep(q, a), g) <=
            Patience(q, g) + if Restarts(q, a) then g else 0
  {
    if a.Take? {
      TakeProgress(q, a.gapWait, g);
    } else {
      ArrivalProgress(q, a, g);
    }
  }

  /** The waiting that restarts allow: g times for each. */
  function WaitsAgain(q: Queue, acts: seq<Action>, g: nat): nat
    requires OnWords(q)
    decreases |acts|
  {
    if acts == [] then 0
    else (if Restarts(q, acts[0]) then g else 0) + WaitsAgain(QueueStep(q, acts[0]), acts[1..], g)
  }

  lemma {:induction false} PatienceRunsOut(q: Queue, acts: seq<Action>, g: nat)
    requires OnWords(q) && HoldsInTime(q) && AllAllowed(acts, g) && NoneHandedOut(q, acts)
    ensures Takes(acts) <= Patience(q, g) + WaitsAgain(q, acts, g)
    decreases |acts|
  {
    if acts == [] {
    } else {
      assert Allowed(acts[0], g);
      StepProgress(q, acts[0], g);
      PatienceRunsOut(QueueStep(q, acts[0]), acts[1..], g);
    }
  }

  /** From a started queue that holds a packet in time, takes that are not put off and wait at most g times at
      a gap go without a packet at most g + 2 times, and g times more for every drop that arrives for the
      number they wait for. */
  lemma WithoutPacketAtMost(q: Queue, acts: seq<Action>, g: nat)
    requires OnWords(q) && HoldsInTime(q) && AllAllowed(acts, g) && NoneHandedOut(q, acts)
    ensures Takes(acts) <= g + 2 + WaitsAgain(q, acts, g)
  {
    PatienceRunsOut(q, acts, g);
  }

  /** So one of the next g + 3 takes hands out a packet, unless such a drop arrives. */
  lemma HandsOutWithin(q: Queue, acts: seq<Action>, g: nat)
    requires OnWords(q) && HoldsInTime(q) && AllAllowed(acts, g) && WaitsAgain(q, acts, g) == 0 && Takes(acts) >= g + 3
    ensures !NoneHandedOut(q, acts)
  {
    if NoneHandedOut(q, acts) {
      WithoutPacketAtMost(q, acts, g);
    }
  }

  /** Playout waits only outside a run of concealments, and conceals at most two numbers in a row. */
  lemma WaitsAndConcealments(q: Queue, gapWait: nat, r: Result)
    requires OnWords(q) && HoldsInTime(q) && r == WordDequeue(q, gapWait, false)
    ensures r.output.WaitingForGap? ==> q.lossRun.None? && r.queue.lossRun.None? && 0 < Waited(r.queue) <= gapWait
    ensures r.output.Conceal? ==>
              && r.queue.lossRun == Some(if q.lossRun.Some? then q.lossRun.value + 1 else 1)
              && r.queue.lossRun.value <= 2
    ensures r.output.Play? ==> r.queue.lossRun.None?
  {
    TakeProgress(q, gapWait, gapWait);
  }

  // ----- and it is the earliest ------------------------------------------------------------------------------

  /** In one half of the number space, the packet handed out is the lowest of those in time. */
  lemma HandsOutLowest(q: Queue, gapWait: nat, base: nat, j: nat)
    requires QueueNear(q, base) && Disjoint(q.drops) && WaitsForNext(q) && q.started && j < |q.packets|
    requires q.packets[j].number >= q.next
    ensures OnWords(QueueImage(q))
    ensures
      var o := WordDequeue(QueueImage(q), gapWait, false).output;
      o.Play? ==> exists p :: p in q.packets && o.packet == PacketImage(p) && q.next <= p.number <= q.packets[j].number
  {
    DequeueAgrees(q, gapWait, false, base);
    var o := Dequeue(q, gapWait, false).output;
    if o.Play? {
      LowestOnCounters(q, gapWait, j);
    }
  }

  lemma LowestOnCounters(q: Queue, gapWait: nat, j: nat)
    requires |q.drops| == SLOTS && q.started && j < |q.packets| && q.packets[j].number >= q.next
    requires Dequeue(q, gapWait, false).output.Play?
    ensures
      var p := Dequeue(q, gapWait, false).output.packet;
      p in q.packets && q.next <= p.number <= q.packets[j].number
  {
    var kept := FreshOnly(q.packets, q.next, 0);
    var i := Earliest(kept, |kept|);
    TimelyPackets.FreshKeeps(q.packets, q.next, 0, q.packets[j].number);
    EarliestIs(kept, |kept|);
    FreshFrom(q.packets, q.next, 0, kept[i]);
  }
}

/** What playout owes a packet that reached the list in time: it is played, unless a trim or a full list
    takes it. */
module TimelyPackets {

  import opened PlayoutQueue
  import opened DropRanges

  /** A packet with this number is in the list and not behind playout. */
  predicate InTime(q: Queue, n: nat) { Has(q.packets, n) && (q.started ==> n >= q.next) }

  /** Entry `at` of the history says this number was played, or trimmed just there. */
  predicate PlayedAt(log: seq<Passed>, at: int, n: nat) {
    0 <= at < |log| && log[at].number == n && (log[at].fate.Played? || log[at].fate.Trimmed?)
  }

  /** Playout passed the number as a packet, played or trimmed. */
  ghost predicate Settled(w: World, n: nat) { w.queue.started && exists i :: PlayedAt(w.log, i, n) }

  /** The packet leaves without a trace: the whole queue is forgotten, or it is trimmed before playout
      has started. */
  predicate LeavesNoTrace(w: World, a: Action, n: nat) {
    || a.Forget?
    || (a.TrimOldest? && !a.blocked && !w.queue.started && w.queue.packets != []
        && w.queue.packets[Earliest(w.queue.packets, |w.queue.packets|)].number == n)
  }

  // ----- the list ------------------------------------------------------------------------------------

  lemma EraseKeeps(ps: seq<Packet>, i: nat, n: nat)
    requires i < |ps| && Has(ps, n) && ps[i].number != n
    ensures Has(ErasePacket(ps, i), n)
  {
    var k :| 0 <= k < |ps| && ps[k].number == n;
    assert ErasePacket(ps, i)[if k == |ps| - 1 then i else k].number == n;
  }

  lemma {:induction false} FreshKeeps(ps: seq<Packet>, next: nat, i: nat, n: nat)
    requires i <= |ps| && (forall j :: 0 <= j < i ==> ps[j].number >= next) && Has(ps, n) && n >= next
    ensures Has(FreshOnly(ps, next, i), n)
    decreases |ps| - i
  {
    if i == |ps| {
    } else if ps[i].number < next {
      EraseKeeps(ps, i, n);
      FreshKeeps(ErasePacket(ps, i), next, i, n);
    } else {
      FreshKeeps(ps, next, i + 1, n);
    }
  }

  lemma EarliestAtMost(ps: seq<Packet>, n: nat)
    requires Has(ps, n)
    ensures ps[Earliest(ps, |ps|)].number <= n
  {
    EarliestIs(ps, |ps|);
  }

  // ----- one step --------------------------------------------------------------------------------------

  /** The packet is still in time, or it is the one handed out. */
  predicate KeptOrPlayed(r: Result, n: nat) {
    || (Has(r.queue.packets, n) && n >= r.queue.next)
    || (r.output.Play? && r.output.packet.number == n)
  }

  lemma PlayAtKeeps(q: Queue, i: nat, reset: bool, gap: nat, drop: nat, n: nat)
    requires i < |q.packets| && Has(q.packets, n) && q.packets[i].number <= n
    ensures KeptOrPlayed(PlayAt(q, i, reset, gap, drop), n)
  {
    if q.packets[i].number != n {
      EraseKeeps(q.packets, i, n);
    }
  }

  lemma AtGapKeeps(q: Queue, i: nat, gapWait: nat, n: nat)
    requires i < |q.packets| && q.next < q.packets[i].number <= n && |q.drops| == SLOTS && Has(q.packets, n)
    ensures KeptOrPlayed(AtGap(q, i, gapWait), n)
  {
    var abandoned := q.packets[i].number - q.next;
    var drops := Consumed(q.drops, q.next, abandoned, |q.drops|);
    var cut := q.(drops := CutAll(q.drops, q.next, abandoned));
    PlayAtKeeps(cut, i, true, SerialNumbers.Wire(abandoned - drops), drops, n);
  }

  lemma MissingKeeps(q: Queue, i: nat, gapWait: nat, s: Skip, n: nat)
    requires i < |q.packets| && |q.drops| == |s.drops| == SLOTS && q.next <= s.next <= q.packets[i].number <= n
    requires q.next < q.packets[i].number && Has(q.packets, n)
    ensures KeptOrPlayed(Missing(q, i, gapWait, s), n)
  {
    var r := PassedOver(q, s);
    if s.next == q.next {
      AtGapKeeps(q, i, gapWait, n);
    } else if s.next == q.packets[i].number {
      PlayAtKeeps(r, i, true, 0, 0, n);
    } else {
      AtGapKeeps(r, i, gapWait, n);
    }
  }

  /** Playout asks: it may conceal, skip or abandon other numbers, never this one. */
  lemma DequeueKeeps(q: Queue, gapWait: nat, n: nat)
    requires |q.drops| == SLOTS && InTime(q, n)
    ensures KeptOrPlayed(Dequeue(q, gapWait, false), n)
  {
    EarliestAtMost(q.packets, n);
    var s := Started(q);
    FreshKeeps(s.packets, s.next, 0, n);
    var r := s.(packets := FreshOnly(s.packets, s.next, 0));
    EarliestAtMost(r.packets, n);
    var i := Earliest(r.packets, |r.packets|);
    if r.packets[i].number == r.next {
      PlayAtKeeps(r, i, false, 0, 0, n);
    } else {
      MissingKeeps(r, i, gapWait, SkipDrops(r.drops, r.next, r.packets[i].number), n);
    }
  }

  /** Handed out, it is the last entry of the log, as played. */
  lemma TakeSettles(w: World, gapWait: nat, blocked: bool, n: nat)
    requires Inv(w) && Enabled(w, Take(gapWait, blocked)) && InTime(w.queue, n)
    ensures InTime(Taken(w, gapWait, blocked).queue, n) || Settled(Taken(w, gapWait, blocked), n)
  {
    var q := w.queue;
    if !blocked {
      var s := Started(q);
      var r := Dequeue(q, gapWait, false);
      assert Dequeue(s, gapWait, false) == r;
      DequeueKeeps(q, gapWait, n);
      DequeueOk(s, gapWait, false, w.arrived, w.dropped);
      if r.output.Play? && r.output.packet.number == n {
        var more, all := PassedBy(s.next, r), Taken(w, gapWait, blocked).log;
        assert more[|more| - 1] == Passed(n, Played);
        assert PlayedAt(all, |all| - 1, n);
      }
    }
  }

  lemma TrimSettles(w: World, blocked: bool, n: nat)
    requires InTime(w.queue, n) && !LeavesNoTrace(w, TrimOldest(blocked), n) && |w.queue.drops| == SLOTS
    ensures
      var w' := TrimmedOne(w, blocked);
      InTime(w'.queue, n) || Settled(w', n) || n in w'.dropped
  {
    var q := w.queue;
    if !blocked {
      EarliestAtMost(q.packets, n);
      var i := Earliest(q.packets, |q.packets|);
      if q.packets[i].number != n {
        EraseKeeps(q.packets, i, n);
      } else if n == q.next {
        var log := TrimmedOne(w, blocked).log;
        assert PlayedAt(log, |log| - 1, n);
      }
    }
  }

  lemma ArriveSettles(w: World, p: Packet, n: nat)
    requires InTime(w.queue, n) && |w.queue.drops| == SLOTS
    ensures InTime(Arrived(w, p).queue, n) || n in Arrived(w, p).dropped
  {
    var q := w.queue;
    var k :| 0 <= k < |q.packets| && q.packets[k].number == n;
    if (q.started && p.number < q.next) || Has(q.packets, p.number) {
    } else if |q.packets| < MAX_QUEUE {
      assert (q.packets + [p])[k].number == n;
    } else {
      var l := Latest(q.packets, |q.packets|);
      if k != l {
        assert q.packets[l := p][k].number == n;
      }
    }
  }

  /** One step: a packet in time stays so, is played or trimmed at its place, or is recorded as the
      receiver's own drop. */
  lemma StepSettles(w: World, a: Action, n: nat)
    requires Inv(w) && Enabled(w, a) && InTime(w.queue, n) && !LeavesNoTrace(w, a, n)
    ensures InTime(Step(w, a).queue, n) || Settled(Step(w, a), n) || n in Step(w, a).dropped
  {
    match a
    case Arrive(p) => ArriveSettles(w, p, n);
    case ArriveDropped(_) =>
    case Take(g, b) => TakeSettles(w, g, b, n);
    case TrimOldest(b) => TrimSettles(w, b, n);
  }

  lemma StaysSettled(w: World, a: Action, n: nat)
    requires Inv(w) && Settled(w, n) && !a.Forget?
    ensures Settled(Step(w, a), n)
  {
    var i :| PlayedAt(w.log, i, n);
    assert PlayedAt(Step(w, a).log, i, n);
  }

  // ----- who gets into the list --------------------------------------------------------------------------

  /** A number that is new and not behind playout gets into the list in time, unless the list is full and all
      128 numbers in it are lower. A full list gives up its highest number for it, and nothing else ever. */
  lemma ArrivalGetsIn(w: World, p: Packet, n: nat)
    requires Inv(w) && p.number !in w.arrived
    ensures
      var q, q' := w.queue, Arrived(w, p).queue;
      InTime(q', p.number) <==>
        && !(q.started && p.number < q.next)
        && (|q.packets| < 128 || exists i :: 0 <= i < |q.packets| && q.packets[i].number > p.number)
    ensures
      var q, q' := w.queue, Arrived(w, p).queue;
      Has(q.packets, n) && !Has(q'.packets, n) ==>
        && |q.packets| >= 128 && n > p.number && InTime(q', p.number)
        && forall i :: 0 <= i < |q.packets| ==> q.packets[i].number <= n
  {
    var q, q' := w.queue, Arrived(w, p).queue;
    NotThere(w, p.number);
    if (q.started && p.number < q.next) || |q.packets| < 128 {
      if q'.packets != q.packets {
        assert q'.packets[|q.packets|] == p;
      }
      if k :| 0 <= k < |q.packets| && q.packets[k].number == n {
        assert q'.packets[k] == q.packets[k];
      }
    } else {
      var l := Latest(q.packets, |q.packets|);
      LatestIs(q.packets, |q.packets|);
      if p.number < q.packets[l].number {
        assert q'.packets[l] == p;
        if k :| 0 <= k < |q.packets| && q.packets[k].number == n && k != l {
          assert q'.packets[k] == q.packets[k];
        }
      }
    }
  }

  lemma NotThere(w: World, n: nat)
    requires Inv(w) && n !in w.arrived
    ensures !Has(w.queue.packets, n)
  {
    forall i | 0 <= i < |w.queue.packets| ensures w.queue.packets[i].number != n {
      assert QueuedAt(w.queue.packets, i, w.arrived, w.queue.drops);
    }
  }

  /** A trim that is not blocked removes the lowest number and nothing else. */
  lemma TrimRemovesLowest(w: World, blocked: bool, n: nat)
    requires Inv(w)
    ensures
      var q, q' := w.queue, Trim(w.queue, blocked);
      Has(q'.packets, n) <==>
        Has(q.packets, n) && (blocked || exists i :: 0 <= i < |q.packets| && q.packets[i].number < n)
  {
    var q := w.queue;
    if q.packets != [] && !blocked {
      var e := Earliest(q.packets, |q.packets|);
      EarliestIs(q.packets, |q.packets|);
      GoodErased(q.packets, e, w.arrived, q.drops);
      if Has(q.packets, n) && n != q.packets[e].number {
        EraseKeeps(q.packets, e, n);
      }
      if Has(ErasePacket(q.packets, e), n) {
        ErasedWas(q.packets, e, n);
      }
    }
  }

  lemma ErasedWas(ps: seq<Packet>, e: nat, n: nat)
    requires e < |ps| && Has(ErasePacket(ps, e), n)
    ensures Has(ps, n)
  {
    var k :| 0 <= k < |ErasePacket(ps, e)| && ErasePacket(ps, e)[k].number == n;
    assert ps[if k == e then |ps| - 1 else k].number == n;
  }

  // ----- whole runs --------------------------------------------------------------------------------------

  /** State k of a run takes action k to state k + 1. */
  lemma OneStep(acts: seq<Action>, k: nat)
    requires ValidRun(acts) && k < |acts|
    ensures Inv(After(acts[..k])) && Enabled(After(acts[..k]), acts[k])
    ensures After(acts[..k + 1]) == Step(After(acts[..k]), acts[k])
  {
    InvAt(acts, k);
    assert EnabledAt(acts, k);
    assert acts[..k + 1][..k] == acts[..k];
  }

  ghost predicate Owed(w: World, n: nat) { InTime(w.queue, n) || Settled(w, n) }

  lemma StepOwed(w: World, a: Action, w': World, n: nat)
    requires Inv(w) && Enabled(w, a) && w' == Step(w, a) && Owed(w, n) && !LeavesNoTrace(w, a, n) && n !in w'.dropped
    ensures Owed(w', n)
  {
    if Settled(w, n) {
      StaysSettled(w, a, n);
    } else {
      StepSettles(w, a, n);
    }
  }

  lemma DroppedGrows(w: World, a: Action)
    requires |w.queue.drops| == SLOTS
    ensures w.dropped <= Step(w, a).dropped
  {
  }

  predicate TracedAt(acts: seq<Action>, k: nat, n: nat)
    requires k < |acts|
  {
    !LeavesNoTrace(After(acts[..k]), acts[k], n)
  }

  /** None of the actions from i up to j makes the packet leave without a trace. */
  ghost predicate Traced(acts: seq<Action>, i: nat, j: nat, n: nat)
    requires j <= |acts|
  {
    forall k :: i <= k < j ==> TracedAt(acts, k, n)
  }

  lemma {:induction false} InTimeUntilSettled(acts: seq<Action>, i: nat, j: nat, n: nat)
    requires ValidRun(acts) && i <= j <= |acts| && InTime(After(acts[..i]).queue, n) && Traced(acts, i, j, n)
    requires n !in After(acts[..j]).dropped
    ensures Owed(After(acts[..j]), n)
    decreases j
  {
    if i == j {
    } else {
      OneStep(acts, j - 1);
      DroppedGrows(After(acts[..j - 1]), acts[j - 1]);
      InTimeUntilSettled(acts, i, j - 1, n);
      assert TracedAt(acts, j - 1, n);
      StepOwed(After(acts[..j - 1]), acts[j - 1], After(acts[..j]), n);
    }
  }

  /** A number that was in the list in time, and that was neither recorded as dropped nor removed without
      a trace, is not concealed, skipped or abandoned: once playout has passed it, its entry in the
      history says it was played, or trimmed just there. */
  lemma TimelyIsPlayed(acts: seq<Action>, i: nat, j: nat, n: nat, w: World)
    requires ValidRun(acts) && i <= j <= |acts| && InTime(After(acts[..i]).queue, n) && Traced(acts, i, j, n)
    requires w == After(acts[..j]) && n !in w.dropped && w.queue.started && n < w.queue.next
    ensures PlayedAt(w.log, n - (w.queue.next - |w.log|), n)
  {
    InTimeUntilSettled(acts, i, j, n);
    InvAt(acts, j);
    SettledAt(w, n);
  }

  lemma InvAt(acts: seq<Action>, k: nat)
    requires ValidRun(acts) && k <= |acts|
    ensures Inv(After(acts[..k]))
  {
    PrefixValid(acts, k);
    AlwaysInv(acts[..k]);
  }

  lemma SettledAt(w: World, n: nat)
    requires Inv(w) && Settled(w, n)
    ensures PlayedAt(w.log, n - (w.queue.next - |w.log|), n)
  {
    var at :| PlayedAt(w.log, at, n);
    assert NumberAt(w.log, at, w.queue.next);
  }
}

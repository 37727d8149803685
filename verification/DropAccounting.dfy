/** What the queue makes of the drops recorded in its slots: every number still recorded when playout passes
    it is counted as the receiver's own drop and never as one lost on the way, and a record is lost only to a
    full table. */
module DropAccounting {

  import opened Common
  import opened DropRanges
  import opened PlayoutQueue
  import opened SequenceTracker
  import Timely = TimelyPackets

  // ----- the slots, exactly ----------------------------------------------------------------------------

  predicate Touches(r: Range, n: nat) { r.count > 0 && r.first <= n + 1 && n <= r.first + r.count }

  /** No slot is empty, and none holds n or ends next to it. */
  predicate TableFull(slots: seq<Range>, n: nat) {
    forall i :: 0 <= i < |slots| ==> slots[i].count > 0 && !Touches(slots[i], n)
  }

  lemma {:induction false} NoneAbsorbs(slots: seq<Range>, n: nat, i: nat)
    requires i <= |slots|
    ensures FirstAbsorbing(slots, n, i).None? ==> forall j :: i <= j < |slots| ==> !Touches(slots[j], n)
    decreases |slots| - i
  {
    if i == |slots| {
    } else {
      NoneAbsorbs(slots, n, i + 1);
    }
  }

  lemma {:induction false} NoneEmpty(slots: seq<Range>, i: nat)
    requires i <= |slots|
    ensures FirstEmpty(slots, i).None? ==> forall j :: i <= j < |slots| ==> slots[j].count > 0
    decreases |slots| - i
  {
    if i == |slots| {
    } else {
      NoneEmpty(slots, i + 1);
    }
  }

  /** Recording n loses nothing, unless the table is full: then it loses the range in slot n modulo 64. */
  lemma WithDropExact(slots: seq<Range>, n: nat, m: nat)
    requires Disjoint(slots)
    ensures Covers(WithDrop(slots, n), m) <==>
            m == n || (Covers(slots, m) && !(TableFull(slots, n) && In(slots[n % SLOTS], m)))
  {
    var a, e := FirstAbsorbing(slots, n, 0), FirstEmpty(slots, 0);
    var i := if a.Some? then a.value else if e.Some? then e.value else n % SLOTS;
    var r := if a.Some? then Absorbed(slots[i], n).value else Range(n, 1);
    assert WithDrop(slots, n) == slots[i := r];
    NoneAbsorbs(slots, n, 0);
    NoneEmpty(slots, 0);
    assert a.Some? ==> Touches(slots[i], n);
    assert TableFull(slots, n) <==> a.None? && e.None?;
    WithDropCovers(slots, n, m);
    ReplacedCovers(slots, i, r, m);
    if a.None? && e.None? && In(slots[i], m) && m != n {
      OnlyInSlot(slots, i, r, m);
    }
  }

  lemma OnlyInSlot(slots: seq<Range>, i: nat, r: Range, m: nat)
    requires Disjoint(slots) && i < |slots| && In(slots[i], m) && !In(r, m)
    ensures !Covers(slots[i := r], m)
  {
    var q := slots[i := r];
    if k :| 0 <= k < |q| && In(q[k], m) {
      DisjointPair(slots, k, i);
      assert false;
    }
  }

  /** The range lies ahead of playout, or well behind it. */
  predicate AlignedAt(slots: seq<Range>, i: int, next: nat) {
    0 <= i < |slots| && slots[i].count > 0 ==> slots[i].first >= next || slots[i].first + slots[i].count < next
  }

  ghost predicate Aligned(slots: seq<Range>, next: nat) { forall i :: AlignedAt(slots, i, next) }

  /** Taking out the number playout stands at loses no other. */
  lemma TakenOutExact(slots: seq<Range>, n: nat, m: nat)
    requires Disjoint(slots) && Aligned(slots, n)
    ensures Covers(TakenOut(slots, n), m) <==> Covers(slots, m) && m != n
  {
    TakenOutIs(slots, n, m);
    HoldingIs(slots, n, 0);
    var h := Holding(slots, n, 0);
    if h.Some? {
      assert AlignedAt(slots, h.value, n);
      ReplacedCovers(slots, h.value, Without(slots[h.value], n), m);
    } else if n == m && Covers(slots, m) {
      assert false;
    }
  }

  lemma TakenOutAligned(slots: seq<Range>, n: nat)
    requires Disjoint(slots) && Aligned(slots, n)
    ensures Aligned(TakenOut(slots, n), n + 1)
  {
    var out, next := TakenOut(slots, n), n + 1;
    HoldingIs(slots, n, 0);
    forall i ensures AlignedAt(out, i, next) {
      assert AlignedAt(slots, i, n);
      if 0 <= i < |slots| && In(slots[i], n) {
        var h := Holding(slots, n, 0).value;
        if i != h {
          DisjointPair(slots, i, h);
        }
      }
    }
  }

  /** Numbers of the stretch that are recorded. */
  function RecordedIn(slots: seq<Range>, first: nat, end: nat): set<nat> {
    set m: nat | first <= m < end && Covers(slots, m)
  }

  lemma GivenUpInSlot(slots: seq<Range>, first: nat, count: nat, i: nat, m: nat)
    requires Aligned(slots, first) && i < |slots| && In(slots[i], m) && first <= m < first + count
    ensures m in Span(slots[i].first, Overlap(slots[i], first, count))
  {
    assert AlignedAt(slots, i, first);
  }

  lemma {:induction false} GivenUpAll(slots: seq<Range>, first: nat, count: nat, k: nat, i: nat, m: nat)
    requires Aligned(slots, first) && i < k <= |slots| && In(slots[i], m) && first <= m < first + count
    ensures m in GivenUp(slots, first, count, k)
    decreases k
  {
    if i == k - 1 {
      GivenUpInSlot(slots, first, count, i, m);
    } else {
      GivenUpAll(slots, first, count, k - 1, i, m);
    }
  }

  /** What a stretch given up counts as the receiver's drops is the number of its numbers recorded. */
  lemma ConsumedExact(slots: seq<Range>, first: nat, count: nat)
    requires Disjoint(slots) && Aligned(slots, first)
    ensures Consumed(slots, first, count, |slots|) == |RecordedIn(slots, first, first + count)|
  {
    var g, r := GivenUp(slots, first, count, |slots|), RecordedIn(slots, first, first + count);
    ConsumedCounts(slots, first, count, |slots|);
    forall m: nat | m in g ensures m in r {
      GivenUpHeld(slots, first, count, |slots|, m);
    }
    forall m: nat | m in r ensures m in g {
      var i :| 0 <= i < |slots| && In(slots[i], m);
      GivenUpAll(slots, first, count, |slots|, i, m);
    }
    assert g == r;
  }

  lemma CutAllExact(slots: seq<Range>, first: nat, count: nat, m: nat)
    requires Aligned(slots, first)
    ensures Covers(CutAll(slots, first, count), m) <==> Covers(slots, m) && !(first <= m < first + count)
  {
    var out := CutAll(slots, first, count);
    if i :| 0 <= i < |slots| && In(out[i], m) {
      assert AlignedAt(slots, i, first);
      CoveredAt(slots, i, m);
    }
    if i :| 0 <= i < |slots| && In(slots[i], m) {
      if !(first <= m < first + count) {
        assert AlignedAt(slots, i, first);
        CoveredAt(out, i, m);
      }
    }
  }

  lemma CutAllAligned(slots: seq<Range>, first: nat, count: nat)
    requires Aligned(slots, first) && !Covers(slots, first + count)
    ensures Aligned(CutAll(slots, first, count), first + count + 1)
  {
    var out, end := CutAll(slots, first, count), first + count;
    var next := end + 1;
    forall i ensures AlignedAt(out, i, next) {
      assert AlignedAt(slots, i, first);
      if 0 <= i < |slots| && In(slots[i], end) {
        CoveredAt(slots, i, end);
      }
    }
  }

  lemma WithDropAligned(slots: seq<Range>, n: nat, next: nat)
    requires |slots| == SLOTS && Aligned(slots, next) && n >= next
    ensures Aligned(WithDrop(slots, n), next)
  {
    var out := WithDrop(slots, n);
    forall i ensures AlignedAt(out, i, next) {
      assert AlignedAt(slots, i, next);
    }
  }

  /** Playout passes a number that is not recorded. */
  lemma PassedAligned(slots: seq<Range>, next: nat)
    requires Aligned(slots, next) && !Covers(slots, next)
    ensures Aligned(slots, next + 1)
  {
    var past := next + 1;
    forall i ensures AlignedAt(slots, i, past) {
      assert AlignedAt(slots, i, next);
      assert 0 <= i < |slots| ==> !In(slots[i], next);
    }
  }

  // ----- a take ------------------------------------------------------------------------------------------

  predicate AheadAt(q: Queue, i: int) { 0 <= i < |q.packets| ==> q.packets[i].number >= q.next }

  /** Nothing queued is behind playout, and no recorded range lies across it. */
  ghost predicate InStep(q: Queue) { q.started ==> Aligned(q.drops, q.next) && forall i :: AheadAt(q, i) }

  /** The same numbers from `next` on are recorded before and after. */
  ghost predicate SameFrom(before: seq<Range>, after: seq<Range>, next: nat) {
    forall m: nat :: m >= next ==> (Covers(after, m) <==> Covers(before, m))
  }

  /** What a take makes of the drops recorded: it skips only numbers recorded, conceals only numbers that are
      not, splits those given up exactly, and leaves the record of the rest as it was. */
  ghost predicate Attributed(drops: seq<Range>, from: nat, r: Result) {
    && (forall m: nat :: from <= m < r.at ==> Covers(drops, m))
    && (r.output.Conceal? ==> !r.output.dropPending && !Covers(drops, r.output.number))
    && (r.output.Play? ==> r.output.abandonedDrop == |RecordedIn(drops, r.at, r.output.packet.number)|)
    && SameFrom(drops, r.queue.drops, r.queue.next) && Aligned(r.queue.drops, r.queue.next)
  }

  lemma {:induction false} SkipExact(drops: seq<Range>, next: nat, n: nat)
    requires Disjoint(drops) && Aligned(drops, next) && next <= n
    ensures
      var s := SkipDrops(drops, next, n);
      && Disjoint(s.drops) && Aligned(s.drops, s.next) && SameFrom(drops, s.drops, s.next)
      && (forall m: nat :: next <= m < s.next ==> Covers(drops, m))
      && (s.next == n || !Covers(s.drops, s.next))
    decreases n - next
  {
    if next == n || !Covers(drops, next) {
    } else {
      var t := TakenOut(drops, next);
      TakenOutIs(drops, next, next);
      TakenOutAligned(drops, next);
      SkipExact(t, next + 1, n);
      forall m: nat ensures Covers(t, m) <==> Covers(drops, m) && m != next {
        TakenOutExact(drops, next, m);
      }
    }
  }

  lemma RecordedFrom(before: seq<Range>, after: seq<Range>, first: nat, end: nat)
    requires SameFrom(before, after, first)
    ensures RecordedIn(before, first, end) == RecordedIn(after, first, end)
  {
  }

  /** Playout plays packet i at once. */
  lemma PlayAttributes(q: Queue, i: nat, reset: bool)
    requires Disjoint(q.drops) && Aligned(q.drops, q.next) && i < |q.packets| && q.packets[i].number == q.next
    requires !Covers(q.drops, q.next)
    ensures Attributed(q.drops, q.next, PlayAt(q, i, reset, 0, 0))
  {
    PassedAligned(q.drops, q.next);
    assert RecordedIn(q.drops, q.next, q.next) == {};
  }

  lemma GapAttributes(q: Queue, i: nat, gapWait: nat)
    requires Disjoint(q.drops) && Aligned(q.drops, q.next) && !Covers(q.drops, q.next)
    requires i < |q.packets| && q.next < q.packets[i].number && !Covers(q.drops, q.packets[i].number)
    ensures Attributed(q.drops, q.next, AtGap(q, i, gapWait))
  {
    var r := AtGap(q, i, gapWait);
    if r.output.Play? {
      var count := q.packets[i].number - q.next;
      ConsumedExact(q.drops, q.next, count);
      CutAllAligned(q.drops, q.next, count);
      forall m: nat | m >= r.queue.next ensures Covers(r.queue.drops, m) <==> Covers(q.drops, m) {
        CutAllExact(q.drops, q.next, count, m);
      }
    } else if r.output.Conceal? {
      TakenOutAligned(q.drops, q.next);
      forall m: nat ensures Covers(r.queue.drops, m) <==> Covers(q.drops, m) && m != q.next {
        TakenOutExact(q.drops, q.next, m);
      }
    }
  }

  /** Whatever is decided once drops have been passed over is decided for the queue before. */
  lemma AttributedBefore(drops: seq<Range>, from: nat, s: Skip, r: Result)
    requires Attributed(s.drops, s.next, r) && SameFrom(drops, s.drops, s.next) && from <= s.next == r.at
    requires forall m: nat :: from <= m < s.next ==> Covers(drops, m)
    requires r.at <= r.queue.next && (r.output.Conceal? ==> r.output.number >= s.next)
    ensures Attributed(drops, from, r)
  {
    if r.output.Play? {
      RecordedFrom(drops, s.drops, r.at, r.output.packet.number);
    }
  }

  lemma MissingAttributes(q: Queue, i: nat, gapWait: nat)
    requires Disjoint(q.drops) && Aligned(q.drops, q.next)
    requires i < |q.packets| && q.next < q.packets[i].number && !Covers(q.drops, q.packets[i].number)
    ensures Attributed(q.drops, q.next, Missing(q, i, gapWait, SkipDrops(q.drops, q.next, q.packets[i].number)))
  {
    var n := q.packets[i].number;
    var s := SkipDrops(q.drops, q.next, n);
    SkipExact(q.drops, q.next, n);
    var p := PassedOver(q, s);
    if s.next == n {
      PlayAttributes(p, i, true);
      AttributedBefore(q.drops, q.next, s, PlayAt(p, i, true, 0, 0));
    } else {
      GapAttributes(p, i, gapWait);
      AttributedBefore(q.drops, q.next, s, AtGap(p, i, gapWait));
      if s.next == q.next {
        assert !Covers(q.drops, q.next);
        GapAttributes(q, i, gapWait);
      }
    }
  }

  /** The packet playout looks at is not recorded as dropped, and neither is any other queued. */
  lemma QueuedNotRecorded(q: Queue, arrived: set<nat>, i: nat)
    requires Good(q.packets, arrived, q.drops) && i < |q.packets|
    ensures !Covers(q.drops, q.packets[i].number)
  {
    assert QueuedAt(q.packets, i, arrived, q.drops);
  }

  /** Nothing ahead of playout is thrown away before a take. */
  lemma {:induction false} AllFresh(ps: seq<Packet>, next: nat, i: nat)
    requires i <= |ps| && forall j :: 0 <= j < |ps| ==> ps[j].number >= next
    ensures FreshOnly(ps, next, i) == ps
    decreases |ps| - i
  {
    if i == |ps| {
    } else {
      AllFresh(ps, next, i + 1);
    }
  }

  lemma TakeAttributes(q: Queue, arrived: set<nat>, dropped: set<nat>, gapWait: nat)
    requires QueueInv(q, arrived, dropped) && q.started && InStep(q) && q.packets != []
    ensures Attributed(q.drops, q.next, Dequeue(q, gapWait, false))
  {
    forall j | 0 <= j < |q.packets| ensures q.packets[j].number >= q.next {
      assert AheadAt(q, j);
    }
    AllFresh(q.packets, q.next, 0);
    var i := Earliest(q.packets, |q.packets|);
    QueuedNotRecorded(q, arrived, i);
    assert q.(packets := q.packets) == q;
    if q.packets[i].number == q.next {
      PlayAttributes(q, i, false);
    } else {
      MissingAttributes(q, i, gapWait);
    }
  }

  /** Playout starts with the earliest packet: what is recorded lies before it or after it. */
  lemma StartAttributes(q: Queue, arrived: set<nat>, gapWait: nat)
    requires Good(q.packets, arrived, q.drops) && |q.drops| == SLOTS && !q.started && q.packets != []
    ensures
      var r := Dequeue(q, gapWait, false);
      && r.queue.started && r.queue.drops == q.drops && Aligned(q.drops, r.queue.next)
      && r.output == Play(q.packets[Earliest(q.packets, |q.packets|)], false, 0, 0)
      && r.at == r.output.packet.number == r.queue.next - 1 == Origin(q, false)
  {
    var i := Earliest(q.packets, |q.packets|);
    var n := q.packets[i].number;
    EarliestIs(q.packets, |q.packets|);
    AllFresh(q.packets, n, 0);
    assert Started(q).(packets := q.packets) == Started(q);
    QueuedNotRecorded(q, arrived, i);
    var next := n + 1;
    forall k ensures AlignedAt(q.drops, k, next) {
      assert 0 <= k < |q.drops| ==> !In(q.drops[k], n);
    }
  }

  // ----- every step --------------------------------------------------------------------------------------

  /** The number a step records as dropped. */
  function RecordedBy(q: Queue, a: Action): set<nat> {
    match a
    case Arrive(p) => DroppedFor(q, p)
    case ArriveDropped(n) => if q.started && n < q.next then {} else {n}
    case TrimOldest(b) => DroppedByTrim(q, b)
    case _ => {}
  }

  /** The step loses the record of m: the whole queue is forgotten, or the table is full and m is in the slot
      overwritten. */
  predicate Overwrites(q: Queue, a: Action, m: nat)
    requires |q.drops| == SLOTS
  {
    a.Forget? || exists n :: n in RecordedBy(q, a) && TableFull(q.drops, n) && In(q.drops[n % SLOTS], m)
  }

  lemma LatestAhead(q: Queue, l: nat)
    requires InStep(q) && q.started && l < |q.packets|
    ensures q.packets[l].number >= q.next
  {
    assert AheadAt(q, l);
  }

  /** A step other than a take records what it drops and, unless it overwrites, loses no record. */
  lemma RecordsExactly(w: World, a: Action, m: nat)
    requires Inv(w) && InStep(w.queue) && !a.Take? && !a.Forget?
    ensures
      var q := w.queue;
      Covers(Step(w, a).queue.drops, m) <==>
        m in RecordedBy(q, a) || (Covers(q.drops, m) && !Overwrites(q, a, m))
    ensures Step(w, a).queue.started == w.queue.started
    ensures w.queue.started ==> Aligned(Step(w, a).queue.drops, w.queue.next)
  {
    var q := w.queue;
    if RecordedBy(q, a) == {} {
      NothingRecorded(w, a);
    } else {
      var n := RecordedNumber(q, a);
      assert Step(w, a).queue.drops == WithDrop(q.drops, n);
      WithDropExact(q.drops, n, m);
      if q.started {
        WithDropAligned(q.drops, n, q.next);
      }
    }
  }

  lemma NothingRecorded(w: World, a: Action)
    requires |w.queue.drops| == SLOTS && RecordedBy(w.queue, a) == {} && !a.Take? && !a.Forget?
    ensures Step(w, a).queue.drops == w.queue.drops
  {
    var q := w.queue;
    if a.TrimOldest? && q.packets != [] {
      var n := q.packets[Earliest(q.packets, |q.packets|)].number;
      assert n != q.next ==> n in {n} - {q.next};
    }
  }

  lemma RecordedNumber(q: Queue, a: Action) returns (n: nat)
    requires InStep(q) && RecordedBy(q, a) != {}
    ensures RecordedBy(q, a) == {n} && (q.started ==> n >= q.next)
  {
    match a
    case Arrive(p) =>
      var l := Latest(q.packets, |q.packets|);
      n := if p.number < q.packets[l].number then q.packets[l].number else p.number;
      if q.started {
        LatestAhead(q, l);
      }
    case ArriveDropped(k) => n := k;
    case TrimOldest(_) =>
      var e := Earliest(q.packets, |q.packets|);
      n := q.packets[e].number;
      LatestAhead(q, e);
  }

  /** Removing a packet, or adding one that is not behind, leaves nothing behind. */
  lemma StepAhead(w: World, a: Action)
    requires Inv(w) && Enabled(w, a) && InStep(w.queue)
    ensures Step(w, a).queue.started ==> forall i :: AheadAt(Step(w, a).queue, i)
  {
    var q, q' := w.queue, Step(w, a).queue;
    if q'.started && a.Take? {
      TakeAhead(w, a);
    } else if q'.started {
      forall i ensures AheadAt(q', i) {
        assert AheadAt(q, i) && AheadAt(q, |q.packets| - 1);
        if a.TrimOldest? && 0 <= i < |q'.packets| && !a.blocked && q.packets != [] {
          var e := Earliest(q.packets, |q.packets|);
          EarliestIs(q.packets, |q.packets|);
          GoodErased(q.packets, e, w.arrived, q.drops);
        }
      }
    }
  }

  lemma ErasedAhead(ps: seq<Packet>, e: nat, arrived: set<nat>, drops: seq<Range>, i: nat)
    requires Good(ps, arrived, drops) && ps != [] && e == Earliest(ps, |ps|) && i < |ErasePacket(ps, e)|
    ensures ErasePacket(ps, e)[i].number > ps[e].number
  {
    EarliestIs(ps, |ps|);
    GoodErased(ps, e, arrived, drops);
  }

  /** A take leaves the list as it is and does not pass the earliest packet, or plays that one. */
  predicate LeavesRest(q: Queue, r: Result)
    requires q.packets != []
  {
    var e := Earliest(q.packets, |q.packets|);
    var n := q.packets[e].number;
    if r.output.Play? then r.queue.packets == ErasePacket(q.packets, e) && r.queue.next == n + 1
    else r.queue.packets == q.packets && r.queue.next <= n
  }

  lemma TakeLeavesRest(q: Queue, gapWait: nat)
    requires |q.drops| == SLOTS && q.packets != [] && q.started
    requires forall j :: 0 <= j < |q.packets| ==> q.packets[j].number >= q.next
    ensures LeavesRest(q, Dequeue(q, gapWait, false))
  {
    AllFresh(q.packets, q.next, 0);
    assert q.(packets := q.packets) == q;
  }

  lemma RestAhead(q: Queue, r: Result, arrived: set<nat>)
    requires q.packets != [] && LeavesRest(q, r) && Good(q.packets, arrived, q.drops)
    ensures forall i :: AheadAt(r.queue, i)
  {
    forall i ensures AheadAt(r.queue, i) {
      EarliestIs(q.packets, |q.packets|);
      if r.output.Play? && 0 <= i < |r.queue.packets| {
        ErasedAhead(q.packets, Earliest(q.packets, |q.packets|), arrived, q.drops, i);
      }
    }
  }

  lemma TakeAhead(w: World, a: Action)
    requires Inv(w) && InStep(w.queue) && a.Take?
    ensures Step(w, a).queue.started ==> forall i :: AheadAt(Step(w, a).queue, i)
  {
    var q := w.queue;
    if q.packets != [] && !a.blocked {
      var s := Started(q);
      forall j | 0 <= j < |q.packets| ensures q.packets[j].number >= s.next {
        EarliestIs(q.packets, |q.packets|);
        assert q.started ==> AheadAt(q, j);
      }
      TakeLeavesRest(s, a.gapWait);
      assert Dequeue(s, a.gapWait, false) == Dequeue(q, a.gapWait, false);
      RestAhead(s, Dequeue(s, a.gapWait, false), w.arrived);
    } else if q.started {
      forall i ensures AheadAt(Step(w, a).queue, i) {
        assert AheadAt(q, i);
      }
    }
  }

  lemma StepInStep(w: World, a: Action)
    requires Inv(w) && Enabled(w, a) && InStep(w.queue)
    ensures InStep(Step(w, a).queue)
  {
    var q := w.queue;
    StepAhead(w, a);
    if a.Take? {
      if q.packets != [] && !a.blocked {
        if q.started {
          TakeAttributes(q, w.arrived, w.dropped, a.gapWait);
        } else {
          StartAttributes(q, w.arrived, a.gapWait);
        }
      }
    } else if !a.Forget? {
      RecordsExactly(w, a, 0);
      if Step(w, a).queue.next != q.next {
        TrimAligned(w, a);
      }
    }
  }

  lemma TrimAligned(w: World, a: Action)
    requires Inv(w) && InStep(w.queue) && a.TrimOldest? && Step(w, a).queue.next != w.queue.next
    ensures w.queue.started && Step(w, a).queue.drops == w.queue.drops
    ensures Aligned(w.queue.drops, Step(w, a).queue.next) && !Covers(w.queue.drops, w.queue.next)
    ensures Step(w, a).queue.next == w.queue.next + 1
  {
    QueuedNotRecorded(w.queue, w.arrived, Earliest(w.queue.packets, |w.queue.packets|));
    PassedAligned(w.queue.drops, w.queue.next);
  }

  lemma {:induction false} AlwaysInStep(acts: seq<Action>, k: nat)
    requires ValidRun(acts) && k <= |acts|
    ensures InStep(PlayoutQueue.After(acts[..k]).queue)
    decreases k
  {
    if k == 0 {
    } else {
      AlwaysInStep(acts, k - 1);
      Timely.OneStep(acts, k - 1);
      StepInStep(PlayoutQueue.After(acts[..k - 1]), acts[k - 1]);
    }
  }

  // ----- over whole runs ---------------------------------------------------------------------------------

  /** Every take of every run: what it skips is recorded as the receiver's drop, what it conceals is not, and
      what it gives up splits exactly into the two. */
  lemma TakesAttribute(acts: seq<Action>, gapWait: nat, q: Queue)
    requires ValidRun(acts) && q == PlayoutQueue.After(acts).queue && q.packets != []
    ensures Attributed(q.drops, Origin(q, false), Dequeue(q, gapWait, false))
  {
    assert acts[..|acts|] == acts;
    AlwaysInv(acts);
    AlwaysInStep(acts, |acts|);
    var w := PlayoutQueue.After(acts);
    if q.started {
      TakeAttributes(q, w.arrived, w.dropped, gapWait);
    } else {
      StartAttributes(q, w.arrived, gapWait);
      assert RecordedIn(q.drops, Origin(q, false), Origin(q, false)) == {};
    }
  }

  predicate CountedAt(log: seq<Passed>, i: int, m: nat) {
    0 <= i < |log| && log[i].number == m ==> log[i].fate.SkippedDrop? || log[i].fate.Abandoned?
  }

  /** Playout has passed m, and not as played, concealed or trimmed. */
  ghost predicate Counted(w: World, m: nat) {
    w.queue.started && m < w.queue.next && forall i :: CountedAt(w.log, i, m)
  }

  ghost predicate StillRecorded(q: Queue, m: nat) { Covers(q.drops, m) && (q.started ==> m >= q.next) }

  lemma PassedAsDrop(q: Queue, r: Result, arrived: set<nat>, dropped: set<nat>, m: nat)
    requires TakeOk(q, r, arrived, dropped) && Good(q.packets, arrived, q.drops) && Attributed(q.drops, q.next, r)
    requires Covers(q.drops, m) && q.next <= m < r.queue.next
    ensures forall i :: CountedAt(PassedBy(q.next, r), i, m)
  {
    if r.output.Play? {
      var k :| 0 <= k < |q.packets| && q.packets[k] == r.output.packet;
      QueuedNotRecorded(q, arrived, k);
    }
  }

  lemma CountedGrows(log: seq<Passed>, next: nat, more: seq<Passed>, m: nat)
    requires Consecutive(log, next) && Consecutive(more, next + |more|)
    requires m >= next ==> forall i :: CountedAt(more, i, m)
    requires m < next ==> forall i :: CountedAt(log, i, m)
    ensures forall i :: CountedAt(log + more, i, m)
  {
    var all, end := log + more, next + |more|;
    forall i ensures CountedAt(all, i, m) {
      assert NumberAt(log, i, next) && NumberAt(more, i - |log|, end);
      assert m >= next ==> CountedAt(more, i - |log|, m);
      assert m < next ==> CountedAt(log, i, m);
    }
  }

  lemma TakeCounts(w: World, a: Action, m: nat)
    requires Inv(w) && Enabled(w, a) && InStep(w.queue) && a.Take? && w.queue.packets != [] && !a.blocked
    requires w.queue.started && (StillRecorded(w.queue, m) || Counted(w, m))
    ensures StillRecorded(Step(w, a).queue, m) || Counted(Step(w, a), m)
  {
    var q, r := w.queue, Dequeue(w.queue, a.gapWait, false);
    TakeAttributes(q, w.arrived, w.dropped, a.gapWait);
    DequeueOk(q, a.gapWait, false, w.arrived, w.dropped);
    var more := PassedBy(q.next, r);
    assert Consecutive(more, q.next + |more|) && q.next + |more| == r.queue.next;
    if m >= q.next && m < r.queue.next {
      PassedAsDrop(q, r, w.arrived, w.dropped, m);
    }
    if m < r.queue.next {
      CountedGrows(w.log, q.next, more, m);
    }
  }

  /** One step: a record stays until playout passes its number as the receiver's drop, or it is overwritten. */
  lemma StepCounts(w: World, a: Action, m: nat)
    requires Inv(w) && Enabled(w, a) && InStep(w.queue) && !Overwrites(w.queue, a, m)
    requires StillRecorded(w.queue, m) || Counted(w, m)
    ensures StillRecorded(Step(w, a).queue, m) || Counted(Step(w, a), m)
  {
    var q, w' := w.queue, Step(w, a);
    assert w.log + [] == w.log;
    if a.Take? {
      if q.packets != [] && !a.blocked {
        if q.started {
          TakeCounts(w, a, m);
        } else {
          StartAttributes(q, w.arrived, a.gapWait);
          StartCounts(w, a, m);
        }
      }
    } else {
      RecordsExactly(w, a, m);
      if w'.queue.next != q.next {
        TrimAligned(w, a);
        TrimCounts(w, a, m);
      }
    }
  }

  lemma StartCounts(w: World, a: Action, m: nat)
    requires Inv(w) && a.Take? && !a.blocked && w.queue.packets != [] && !w.queue.started && Covers(w.queue.drops, m)
    ensures StillRecorded(Step(w, a).queue, m) || Counted(Step(w, a), m)
  {
    var q, w' := w.queue, Step(w, a);
    StartAttributes(q, w.arrived, a.gapWait);
    var e := Earliest(q.packets, |q.packets|);
    QueuedNotRecorded(q, w.arrived, e);
    assert w'.log == [Passed(q.packets[e].number, Played)];
  }

  lemma TrimCounts(w: World, a: Action, m: nat)
    requires Inv(w) && a.TrimOldest? && w.queue.started && !Covers(w.queue.drops, w.queue.next)
    requires Step(w, a).queue.next == w.queue.next + 1 && Step(w, a).queue.drops == w.queue.drops
    requires StillRecorded(w.queue, m) || Counted(w, m)
    ensures StillRecorded(Step(w, a).queue, m) || Counted(Step(w, a), m)
  {
    var more := [Passed(w.queue.next, Trimmed)];
    assert Step(w, a).log == w.log + more;
    if m < w.queue.next {
      assert Consecutive(more, w.queue.next + |more|);
      CountedGrows(w.log, w.queue.next, more, m);
    }
  }

  predicate KeptAt(acts: seq<Action>, k: nat, m: nat)
    requires k < |acts|
  {
    !Overwrites(PlayoutQueue.After(acts[..k]).queue, acts[k], m)
  }

  /** Between i and j the record of m is not overwritten. */
  ghost predicate RecordKept(acts: seq<Action>, i: nat, j: nat, m: nat)
    requires j <= |acts|
  {
    forall k :: i <= k < j ==> KeptAt(acts, k, m)
  }

  lemma {:induction false} RecordedUntilCounted(acts: seq<Action>, i: nat, j: nat, m: nat)
    requires ValidRun(acts) && i <= j <= |acts| && RecordKept(acts, i, j, m)
    requires StillRecorded(PlayoutQueue.After(acts[..i]).queue, m)
    ensures StillRecorded(PlayoutQueue.After(acts[..j]).queue, m) || Counted(PlayoutQueue.After(acts[..j]), m)
    decreases j
  {
    if i == j {
    } else {
      RecordedUntilCounted(acts, i, j - 1, m);
      Timely.OneStep(acts, j - 1);
      AlwaysInStep(acts, j - 1);
      assert KeptAt(acts, j - 1, m);
      StepCounts(PlayoutQueue.After(acts[..j - 1]), acts[j - 1], m);
    }
  }

  /** A number recorded as the receiver's drop ahead of playout, its record never overwritten, is not counted as
      lost on the way: once playout has passed it, the history says it was skipped as a drop or given up, and
      then `TakesAttribute` says it was counted among the drops given up. */
  lemma RecordedIsCounted(acts: seq<Action>, i: nat, j: nat, m: nat, w: World)
    requires ValidRun(acts) && i <= j <= |acts| && RecordKept(acts, i, j, m)
    requires StillRecorded(PlayoutQueue.After(acts[..i]).queue, m)
    requires w == PlayoutQueue.After(acts[..j]) && w.queue.started && w.queue.next - |w.log| <= m < w.queue.next
    ensures w.log[m - (w.queue.next - |w.log|)].fate in {SkippedDrop, Abandoned}
  {
    RecordedUntilCounted(acts, i, j, m);
    Timely.InvAt(acts, j);
    var at := m - (w.queue.next - |w.log|);
    assert NumberAt(w.log, at, w.queue.next);
    assert CountedAt(w.log, at, m);
  }

  /** Recording: the receiver's drop of a number not yet passed is recorded. */
  lemma DropIsRecorded(w: World, n: nat)
    requires Inv(w) && InStep(w.queue) && n !in w.arrived
    ensures StillRecorded(Step(w, ArriveDropped(n)).queue, n) <==> !(w.queue.started && n < w.queue.next)
  {
    RecordsExactly(w, ArriveDropped(n), n);
    NotCoveredUnlessDropped(w, n);
  }
}

/** The arrival tracker as it is kept, on 32-bit words: it does what the tracker on counters does while
    arrivals and held ranges lie within half the number space of the next number, and exactly how it
    errs beyond. */
module WordTracker {

  import opened Common
  import opened SequenceTracker
  import opened SerialNumbers

  // ----- the operations on words ---------------------------------------------------------------------

  predicate WordIn(r: Range, n: Word)
    requires r.first < UINT32
  {
    Offset(n, r.first) < r.count
  }

  predicate Words(rs: seq<Range>) { forall i :: 0 <= i < |rs| ==> rs[i].first < UINT32 && rs[i].count < UINT32 }

  function WordEnding(rs: seq<Range>, n: Word, i: nat): (e: Option<nat>)
    requires i <= |rs|
    ensures e.Some? ==> i <= e.value < |rs|
    decreases |rs| - i
  {
    if i == |rs| then None else if Wire(rs[i].first + rs[i].count) == n then Some(i) else WordEnding(rs, n, i + 1)
  }

  function WordHolding(rs: seq<Range>, n: Word, i: nat): (h: Option<nat>)
    requires i <= |rs| && Words(rs)
    ensures h.Some? ==> i <= h.value < |rs| && WordIn(rs[h.value], n)
    decreases |rs| - i
  {
    if i == |rs| then None else if WordIn(rs[i], n) then Some(i) else WordHolding(rs, n, i + 1)
  }

  function Age(r: Range, next: Word): Word
    requires r.first < UINT32
  {
    Offset(next, r.first)
  }

  function WordOldest(rs: seq<Range>, next: Word, k: nat, excluded: nat): (o: Option<nat>)
    requires k <= |rs| && Words(rs)
    ensures o.Some? ==> o.value < k && o.value != excluded
  {
    if k == 0 then None
    else
      var o := WordOldest(rs, next, k - 1, excluded);
      if k - 1 == excluded then o
      else if o.None? || Age(rs[k - 1], next) > Age(rs[o.value], next) then Some(k - 1)
      else o
  }

  /** The list after a gap of `count` numbers from `first` on, when `first` was the next number. */
  function WordRemembered(rs: seq<Range>, first: Word, count: Word): seq<Range>
    requires Words(rs)
  {
    var e := WordEnding(rs, first, 0);
    var o := WordOldest(rs, first, |rs|, MAX_TRACKED_RANGES);
    if count == 0 then rs
    else if e.Some? then rs[e.value := Range(rs[e.value].first, Wire(rs[e.value].count + count))]
    else if |rs| < MAX_TRACKED_RANGES then rs + [Range(first, count)]
    else if o.Some? then rs[o.value := Range(first, count)]
    else rs
  }

  function WordEvicted(rs: seq<Range>, first: Word, count: Word): nat
    requires Words(rs)
  {
    var o := WordOldest(rs, first, |rs|, MAX_TRACKED_RANGES);
    if count == 0 || WordEnding(rs, first, 0).Some? || |rs| < MAX_TRACKED_RANGES || o.None? then 0
    else rs[o.value].count
  }

  function WordFront(rs: seq<Range>, i: nat, n: Word): (front: seq<Range>)
    requires i < |rs| && Words(rs)
    ensures Words(front) && |front| == |rs|
  {
    rs[i := Range(rs[i].first, Offset(n, rs[i].first))]
  }

  function WordBack(r: Range, n: Word): Range
    requires r.first < UINT32 && WordIn(r, n)
  {
    Range(Wire(n + 1), r.count - Offset(n, r.first) - 1)
  }

  function WordRemovedAt(rs: seq<Range>, next: Word, i: nat, n: Word): seq<Range>
    requires i < |rs| && Words(rs) && WordIn(rs[i], n)
  {
    var r := rs[i];
    var offset := Offset(n, r.first);
    if r.count == 1 then Erased(rs, i)
    else if offset == 0 then rs[i := Range(Wire(r.first + 1), r.count - 1)]
    else if offset == r.count - 1 then rs[i := Range(r.first, r.count - 1)]
    else if |rs| < MAX_TRACKED_RANGES then WordFront(rs, i, n) + [WordBack(r, n)]
    else
      var o := WordOldest(WordFront(rs, i, n), next, |rs|, i);
      if o.Some? then Erased(WordFront(rs, i, n), o.value) + [WordBack(r, n)] else WordFront(rs, i, n)
  }

  function WordCostAt(rs: seq<Range>, next: Word, i: nat, n: Word): nat
    requires i < |rs| && Words(rs) && WordIn(rs[i], n)
  {
    var r := rs[i];
    var offset := Offset(n, r.first);
    if r.count == 1 || offset == 0 || offset == r.count - 1 || |rs| < MAX_TRACKED_RANGES then 1
    else
      var o := WordOldest(WordFront(rs, i, n), next, |rs|, i);
      1 + if o.Some? then WordFront(rs, i, n)[o.value].count else WordBack(r, n).count
  }

  predicate OnWords(t: Tracker) { t.next < UINT32 && Words(t.ranges) }

  function WordRecord(t: Tracker, n: Word): Recorded
    requires OnWords(t)
  {
    var h := WordHolding(t.ranges, n, 0);
    if !t.initialized then Recorded(t.(initialized := true, next := Wire(n + 1)), Delta(0, 0, false))
    else if n == t.next then Recorded(t.(next := Wire(t.next + 1)), Delta(0, 0, false))
    else if SequenceAfter(n, t.next) then
      var gap := Offset(n, t.next);
      Recorded(
        t.(next := Wire(n + 1), detected := t.detected + gap,
           unresolved := Decreased(t.unresolved, WordEvicted(t.ranges, t.next, gap)) + gap,
           ranges := WordRemembered(t.ranges, t.next, gap)),
        Delta(gap, 0, false))
    else if h.Some? then
      Recorded(
        t.(recovered := t.recovered + 1,
           unresolved := Decreased(t.unresolved, WordCostAt(t.ranges, t.next, h.value, n)),
           ranges := WordRemovedAt(t.ranges, t.next, h.value, n)),
        Delta(0, 1, true))
    else Recorded(t, Delta(0, 0, true))
  }

  // ----- it does what the tracker on counters does -----------------------------------------------------

  function Image(r: Range): Range { Range(Wire(r.first), r.count) }

  function Images(rs: seq<Range>): (out: seq<Range>)
    ensures |out| == |rs| && forall i :: 0 <= i < |rs| ==> out[i] == Image(rs[i])
  {
    seq(|rs|, i requires 0 <= i < |rs| => Image(rs[i]))
  }

  function ImageOf(t: Tracker): Tracker { t.(next := Wire(t.next), ranges := Images(t.ranges)) }

  /** No held range starts more than half the number space back. */
  ghost predicate RangesNear(rs: seq<Range>, next: nat) { forall i :: NearAt(rs, i, next) }

  predicate NearAt(rs: seq<Range>, i: int, next: nat) { 0 <= i < |rs| ==> next - rs[i].first <= HALF }

  /** An arrival within half the number space of the next number. */
  predicate ArrivalNear(t: Tracker, n: nat) { !t.initialized || -HALF < n - t.next < HALF }

  lemma RangeNear(rs: seq<Range>, next: nat, i: nat)
    requires Sound(rs, next) && RangesNear(rs, next) && i < |rs|
    ensures 0 < rs[i].count <= HALF && rs[i].first + rs[i].count <= next && next - rs[i].first <= HALF
  {
    SoundAt(rs, next, i);
    assert NearAt(rs, i, next);
  }

  lemma ImagesAreWords(rs: seq<Range>, next: nat)
    requires Sound(rs, next) && RangesNear(rs, next)
    ensures Words(Images(rs))
  {
    forall i | 0 <= i < |rs| ensures rs[i].count < UINT32 {
      RangeNear(rs, next, i);
    }
  }

  /** Small differences survive the cut to 32 bits. */
  lemma SmallOffset(a: nat, b: nat)
    requires b <= a < b + UINT32
    ensures Offset(Wire(a), Wire(b)) == a - b
  {
    OffsetIs(a, b);
    ModuloOf(a - b, 0, a - b);
  }

  lemma WireEqual(a: nat, b: nat)
    requires -UINT32 < a - b < UINT32
    ensures Wire(a) == Wire(b) <==> a == b
  {
    OffsetIs(a, b);
    if a >= b {
      ModuloOf(a - b, 0, a - b);
    } else {
      ModuloOf(a - b, -1, a - b + UINT32);
    }
  }

  lemma WireOfWire(a: nat, k: nat)
    ensures Wire(Wire(a) + k) == Wire(a + k)
  {
    var q := a / UINT32;
    assert a + k == q * UINT32 + (Wire(a) + k);
    var q', r' := (Wire(a) + k) / UINT32, (Wire(a) + k) % UINT32;
    ModuloOf(a + k, q + q', r');
  }

  lemma {:induction false} EndingAgrees(rs: seq<Range>, next: nat, i: nat)
    requires Sound(rs, next) && RangesNear(rs, next) && i <= |rs|
    ensures WordEnding(Images(rs), Wire(next), i) == Ending(rs, next, i)
    decreases |rs| - i
  {
    if i == |rs| {
    } else {
      EndingAgrees(rs, next, i + 1);
      RangeNear(rs, next, i);
      WireOfWire(rs[i].first, rs[i].count);
      WireEqual(rs[i].first + rs[i].count, next);
    }
  }

  lemma {:induction false} HoldingAgrees(rs: seq<Range>, next: nat, n: nat, i: nat)
    requires Sound(rs, next) && RangesNear(rs, next) && i <= |rs| && -HALF < n - next < 0
    ensures Words(Images(rs)) && WordHolding(Images(rs), Wire(n), i) == Holding(rs, n, i)
    decreases |rs| - i
  {
    ImagesAreWords(rs, next);
    if i == |rs| {
    } else {
      HoldingAgrees(rs, next, n, i + 1);
      RangeNear(rs, next, i);
      RangeAgrees(n, rs[i].first, rs[i].count);
    }
  }

  lemma {:induction false} OldestAgrees(rs: seq<Range>, next: nat, k: nat, excluded: nat)
    requires k <= |rs| && Words(Images(rs)) && forall i :: 0 <= i < |rs| ==> rs[i].first <= next < rs[i].first + UINT32
    ensures WordOldest(Images(rs), Wire(next), k, excluded) == Oldest(rs, k, excluded)
  {
    if k == 0 {
    } else {
      OldestAgrees(rs, next, k - 1, excluded);
      SmallOffset(next, rs[k - 1].first);
      var o := Oldest(rs, k - 1, excluded);
      if o.Some? {
        SmallOffset(next, rs[o.value].first);
      }
    }
  }

  lemma FirstsNear(rs: seq<Range>, next: nat)
    requires Sound(rs, next) && RangesNear(rs, next)
    ensures forall i :: 0 <= i < |rs| ==> rs[i].first <= next < rs[i].first + UINT32
  {
    forall i | 0 <= i < |rs| ensures rs[i].first <= next < rs[i].first + UINT32 {
      RangeNear(rs, next, i);
    }
  }

  lemma RememberedAgrees(rs: seq<Range>, next: nat, gap: nat)
    requires Sound(rs, next) && RangesNear(rs, next) && gap < HALF
    ensures Words(Images(rs))
    ensures WordRemembered(Images(rs), Wire(next), gap) == Images(Remembered(rs, next, gap))
    ensures WordEvicted(Images(rs), Wire(next), gap) == Evicted(rs, next, gap)
  {
    ImagesAreWords(rs, next);
    FirstsNear(rs, next);
    EndingAgrees(rs, next, 0);
    EndingIs(rs, next, 0);
    OldestAgrees(rs, next, |rs|, MAX_TRACKED_RANGES);
    var e := Ending(rs, next, 0);
    if e.Some? {
      RangeNear(rs, next, e.value);
      ModuloOf(rs[e.value].count + gap, 0, rs[e.value].count + gap);
    }
  }

  lemma FrontAgrees(rs: seq<Range>, i: nat, n: nat)
    requires Words(Images(rs)) && i < |rs| && In(rs[i], n) && rs[i].count <= HALF
    ensures WordIn(Images(rs)[i], Wire(n)) && Offset(Wire(n), Images(rs)[i].first) == n - rs[i].first
    ensures WordFront(Images(rs), i, Wire(n)) == Images(Front(rs, i, n))
  {
    SmallOffset(n, rs[i].first);
  }

  lemma BackAgrees(r: Range, n: nat)
    requires In(r, n) && r.count <= HALF
    ensures WordIn(Image(r), Wire(n)) && WordBack(Image(r), Wire(n)) == Image(Back(r, n))
  {
    SmallOffset(n, r.first);
    WireOfWire(n, 1);
  }

  lemma OldestOfFront(rs: seq<Range>, next: nat, i: nat, n: nat)
    requires Sound(rs, next) && RangesNear(rs, next) && i < |rs| && In(rs[i], n) && Words(Images(Front(rs, i, n)))
    ensures WordOldest(Images(Front(rs, i, n)), Wire(next), |rs|, i) == Oldest(Front(rs, i, n), |rs|, i)
  {
    FirstsNear(rs, next);
    OldestAgrees(Front(rs, i, n), next, |rs|, i);
  }

  lemma RemovedAgrees(rs: seq<Range>, next: nat, i: nat, n: nat)
    requires Sound(rs, next) && RangesNear(rs, next) && i < |rs| && In(rs[i], n)
    ensures Words(Images(rs)) && WordIn(Images(rs)[i], Wire(n))
    ensures WordRemovedAt(Images(rs), Wire(next), i, Wire(n)) == Images(RemovedAt(rs, i, n))
    ensures WordCostAt(Images(rs), Wire(next), i, Wire(n)) == CostAt(rs, i, n)
  {
    ImagesAreWords(rs, next);
    RangeNear(rs, next, i);
    FrontAgrees(rs, i, n);
    BackAgrees(rs[i], n);
    OldestOfFront(rs, next, i, n);
    WireOfWire(rs[i].first, 1);
    if rs[i].count == 1 {
      ErasedImages(rs, i);
    } else if |rs| >= MAX_TRACKED_RANGES && rs[i].first < n < rs[i].first + rs[i].count - 1 {
      var o := Oldest(Front(rs, i, n), |rs|, i);
      if o.Some? {
        ErasedImages(Front(rs, i, n), o.value);
      }
    }
  }

  lemma ErasedImages(rs: seq<Range>, i: nat)
    requires i < |rs|
    ensures Erased(Images(rs), i) == Images(Erased(rs, i))
  {
  }

  /** One arrival, near: the words do what the counters do. */
  lemma RecordAgrees(t: Tracker, n: nat)
    requires Valid(t) && RangesNear(t.ranges, t.next) && ArrivalNear(t, n)
    ensures OnWords(ImageOf(t))
    ensures WordRecord(ImageOf(t), Wire(n)).tracker == ImageOf(Record(t, n).tracker)
    ensures WordRecord(ImageOf(t), Wire(n)).delta == Record(t, n).delta
  {
    ImagesAreWords(t.ranges, t.next);
    WireOfWire(n, 1);
    WireOfWire(t.next, 1);
    if t.initialized {
      BeforeAgrees(t.next, n);
      WireEqual(n, t.next);
      if n >= t.next {
        SmallOffset(n, t.next);
        RememberedAgrees(t.ranges, t.next, n - t.next);
      } else {
        HoldingAgrees(t.ranges, t.next, n, 0);
        HoldingIs(t.ranges, n, 0);
        var h := Holding(t.ranges, n, 0);
        if h.Some? {
          RemovedAgrees(t.ranges, t.next, h.value, n);
        }
      }
    }
  }

  // ----- whole runs ----------------------------------------------------------------------------------

  /** A tracker on words stays one. */
  lemma RecordKeepsWords(t: Tracker, n: Word)
    requires OnWords(t)
    ensures OnWords(WordRecord(t, n).tracker)
  {
    var rs := WordRecord(t, n).tracker.ranges;
    forall i | 0 <= i < |rs| ensures rs[i].first < UINT32 && rs[i].count < UINT32 {
    }
  }

  function WordAfter(run: seq<nat>): (t: Tracker)
    ensures OnWords(t)
  {
    if run == [] then EMPTY
    else
      var t, n := WordAfter(run[..|run| - 1]), Wire(run[|run| - 1]);
      RecordKeepsWords(t, n);
      WordRecord(t, n).tracker
  }

  predicate WordEnqueued(run: seq<nat>, i: nat)
    requires i < |run|
  {
    ShouldEnqueue(WordRecord(WordAfter(run[..i]), Wire(run[i])).delta)
  }

  predicate StepNear(run: seq<nat>, i: nat)
    requires i < |run|
  {
    ArrivalNear(After(run[..i]), run[i])
  }

  /** Every arrival, and every range held when it arrives, lies within half the number space of the
      next number. */
  ghost predicate RunNear(run: seq<nat>) {
    forall i {:trigger run[..i]} :: 0 <= i < |run| ==>
      RangesNear(After(run[..i]).ranges, After(run[..i]).next) && StepNear(run, i)
  }

  lemma RunNearPrefix(run: seq<nat>, k: nat)
    requires RunNear(run) && k <= |run|
    ensures RunNear(run[..k])
  {
    forall i | 0 <= i < k
      ensures RangesNear(After(run[..k][..i]).ranges, After(run[..k][..i]).next) && StepNear(run[..k], i)
    {
      assert run[..k][..i] == run[..i] && StepNear(run, i);
    }
  }

  lemma {:induction false} RunsAgree(run: seq<nat>)
    requires RunNear(run)
    ensures WordAfter(run) == ImageOf(After(run))
  {
    if run == [] {
      assert Images([]) == [];
    } else {
      var k := |run| - 1;
      RunNearPrefix(run, k);
      RunsAgree(run[..k]);
      AlwaysValid(run[..k]);
      assert StepNear(run, k);
      RecordAgrees(After(run[..k]), run[k]);
    }
  }

  lemma EnqueuedAgrees(run: seq<nat>, i: nat)
    requires RunNear(run) && i < |run|
    ensures WordEnqueued(run, i) == Enqueued(run, i)
  {
    RunNearPrefix(run, i);
    RunsAgree(run[..i]);
    AlwaysValid(run[..i]);
    assert StepNear(run, i);
    RecordAgrees(After(run[..i]), run[i]);
  }

  /** In every such run, repeated and reordered at will, no packet is queued for playout twice. */
  lemma NeverQueuedAgain(run: seq<nat>, i: nat, j: nat)
    requires RunNear(run) && i < j < |run| && run[i] == run[j]
    ensures !WordEnqueued(run, j)
  {
    EnqueuedAgrees(run, j);
    NeverQueuedTwice(run, i, j);
  }

  /** If besides the 64 ranges never fill up, a packet is queued exactly at its first arrival. */
  lemma QueuedAtFirstArrival(run: seq<nat>, j: nat)
    requires RunNear(run) && NeverFull(run) && j < |run|
    ensures WordEnqueued(run, j) <==> run[j] !in run[..j] && (j == 0 || run[j] > run[0])
  {
    EnqueuedAgrees(run, j);
    QueuedExactlyOnce(run, j);
  }

  predicate WordCovers(rs: seq<Range>, n: Word)
    requires Words(rs)
  {
    exists i :: 0 <= i < |rs| && WordIn(rs[i], n)
  }

  lemma {:induction false} WordHoldingIs(rs: seq<Range>, n: Word, i: nat)
    requires i <= |rs| && Words(rs)
    ensures WordHolding(rs, n, i).Some? <==> exists j :: i <= j < |rs| && WordIn(rs[j], n)
    decreases |rs| - i
  {
    if i == |rs| {
    } else {
      WordHoldingIs(rs, n, i + 1);
    }
  }

  lemma CoversOnWords(rs: seq<Range>, next: nat, m: nat)
    requires Sound(rs, next) && RangesNear(rs, next) && -HALF < m - next < 0
    ensures Words(Images(rs)) && (WordCovers(Images(rs), Wire(m)) <==> Covers(rs, m))
  {
    HoldingAgrees(rs, next, m, 0);
    HoldingIs(rs, m, 0);
    WordHoldingIs(Images(rs), Wire(m), 0);
  }

  /** On words, what is taken for missing has not arrived; and while the 64 ranges never fill up it is
      exactly what came after the first arrival and has not arrived. */
  lemma MissingOnWords(run: seq<nat>, m: nat, t: Tracker)
    requires RunNear(run) && run != [] && t == After(run) && RangesNear(t.ranges, t.next) && -HALF < m - t.next < 0
    ensures WordCovers(WordAfter(run).ranges, Wire(m)) ==> m !in run && run[0] < m
    ensures NeverFull(run) ==> (WordCovers(WordAfter(run).ranges, Wire(m)) <==> m !in run && run[0] < m)
  {
    RunsAgree(run);
    AlwaysValid(run);
    CoversOnWords(t.ranges, t.next, m);
    if Covers(t.ranges, m) {
      MissingHasNotArrived(run, m);
    }
    if NeverFull(run) {
      MissingExactly(run, m);
    }
  }

  lemma {:induction false} SumOfImages(rs: seq<Range>, k: nat)
    requires k <= |rs|
    ensures SumTo(Images(rs), k) == SumTo(rs, k)
  {
    if k == 0 {
    } else {
      SumOfImages(rs, k - 1);
    }
  }

  /** On words, the unresolved counter is exactly what the ranges hold, so its saturating decrement never
      saturates; and while the ranges never fill up, gaps detected are gaps recovered and unresolved. */
  lemma CountersOnWords(run: seq<nat>)
    requires RunNear(run)
    ensures WordAfter(run).unresolved == Sum(WordAfter(run).ranges)
    ensures NeverFull(run) ==> WordAfter(run).detected == WordAfter(run).recovered + WordAfter(run).unresolved
  {
    RunsAgree(run);
    AlwaysValid(run);
    SumOfImages(After(run).ranges, |After(run).ranges|);
    if NeverFull(run) {
      CountersBalance(run);
    }
  }

  // ----- and how it errs beyond ------------------------------------------------------------------------

  /** A number behind `next` looks new, or lies whole turns of the number space away from one that is
      still taken for missing. */
  ghost predicate Aliased(t: Tracker, n: nat)
    requires n < t.next
  {
    var d := (t.next - n) % UINT32;
    d == 0 || d > HALF || exists i :: 0 <= i < |t.ranges| && Wire(n - t.ranges[i].first) < t.ranges[i].count
  }

  /** A number that is behind and not missing is queued again, on words, if and only if it is aliased. */
  lemma QueuedAgainIff(t: Tracker, n: nat)
    requires t.initialized && n < t.next && Words(Images(t.ranges))
    ensures ShouldEnqueue(WordRecord(ImageOf(t), Wire(n)).delta) <==> Aliased(t, n)
  {
    WrapDistance(n, t.next);
    SameWord(n, t.next);
    WordHoldingIs(Images(t.ranges), Wire(n), 0);
    forall i | 0 <= i < |t.ranges|
      ensures WordIn(Images(t.ranges)[i], Wire(n)) <==> Wire(n - t.ranges[i].first) < t.ranges[i].count
    {
      OffsetIs(n, t.ranges[i].first);
    }
    CoversIff(t, n);
  }

  lemma CoversIff(t: Tracker, n: nat)
    requires Words(Images(t.ranges))
    requires forall i :: 0 <= i < |t.ranges| ==>
               (WordIn(Images(t.ranges)[i], Wire(n)) <==> Wire(n - t.ranges[i].first) < t.ranges[i].count)
    ensures WordCovers(Images(t.ranges), Wire(n)) <==>
            exists i :: 0 <= i < |t.ranges| && Wire(n - t.ranges[i].first) < t.ranges[i].count
  {
  }

  lemma SameWord(a: nat, b: nat)
    requires a <= b
    ensures Wire(a) == Wire(b) <==> (b - a) % UINT32 == 0
  {
    OffsetIs(b, a);
  }

  /** A tracker that still waits for number 5. */
  predicate WaitsForFive(t: Tracker, next: Word) {
    && OnWords(t) && t.initialized && t.next == next
    && 0 < |t.ranges| < MAX_TRACKED_RANGES && t.ranges[0] == Range(5, 1)
  }

  predicate EndsAt(rs: seq<Range>, n: Word) { exists i :: 0 <= i < |rs| && Wire(rs[i].first + rs[i].count) == n }

  lemma {:induction false} NoneEnds(rs: seq<Range>, n: Word, i: nat)
    requires i <= |rs| && !EndsAt(rs, n)
    ensures WordEnding(rs, n, i).None?
    decreases |rs| - i
  {
    if i == |rs| {
    } else {
      NoneEnds(rs, n, i + 1);
    }
  }

  /** A jump ahead opens a new range and leaves the others. */
  lemma JumpAhead(t: Tracker, n: Word)
    requires OnWords(t) && t.initialized && n != t.next && SequenceAfter(n, t.next)
    requires |t.ranges| < MAX_TRACKED_RANGES && !EndsAt(t.ranges, t.next)
    ensures
      var r := WordRecord(t, n);
      && r.tracker.initialized && r.tracker.next == Wire(n + 1) && !r.delta.lateOrDuplicate
      && r.tracker.ranges == t.ranges + [Range(t.next, Offset(n, t.next))] && OnWords(r.tracker)
  {
    NoneEnds(t.ranges, t.next, 0);
    RecordKeepsWords(t, n);
  }

  lemma FirstJump(t: Tracker, n: Word, u: Tracker)
    requires WaitsForFive(t, 7) && |t.ranges| == 1 && n == HALF + 6 && u == WordRecord(t, n).tracker
    ensures WaitsForFive(u, HALF + 7) && |u.ranges| == 2 && u.ranges[1] == Range(7, HALF - 1)
  {
    assert !EndsAt(t.ranges, 7);
    JumpAhead(t, n);
  }

  lemma SecondJump(t: Tracker, n: Word, r: Recorded)
    requires WaitsForFive(t, HALF + 7) && |t.ranges| == 2 && t.ranges[1] == Range(7, HALF - 1) && n == 5
    requires r == WordRecord(t, n)
    ensures WaitsForFive(r.tracker, 6) && ShouldEnqueue(r.delta)
  {
    assert !EndsAt(t.ranges, HALF + 7);
    JumpAhead(t, n);
  }

  lemma TakenForFive(t: Tracker)
    requires WaitsForFive(t, 6)
    ensures ShouldEnqueue(WordRecord(t, 5).delta)
  {
    assert WordIn(t.ranges[0], 5);
    WordHoldingIs(t.ranges, 5, 0);
  }

  lemma StartsWaiting(t: Tracker, n: Word, u: Tracker)
    requires t == WordRecord(EMPTY, 4).tracker && n == 6 && u == WordRecord(t, n).tracker
    ensures WaitsForFive(u, 7) && |u.ranges| == 1
  {
    assert !EndsAt(t.ranges, 5);
    JumpAhead(t, n);
  }

  /** From the start, arrivals 4, 6, 2^31 + 6 and twice 2^32 + 5: number 5 never arrives and stays
      missing, and the second packet whose number is 5 again is taken for it and queued. */
  lemma QueuedTwiceBeyond(t1: Tracker, t2: Tracker, t3: Tracker, r4: Recorded, n: Word)
    requires t1 == WordRecord(EMPTY, 4).tracker && OnWords(t1) && t2 == WordRecord(t1, 6).tracker
    requires OnWords(t2) && t3 == WordRecord(t2, HALF + 6).tracker
    requires n == Wire(UINT32 + 5) && OnWords(t3) && r4 == WordRecord(t3, n)
    ensures ShouldEnqueue(r4.delta) && OnWords(r4.tracker) && ShouldEnqueue(WordRecord(r4.tracker, n).delta)
  {
    StartsWaiting(t1, 6, t2);
    FirstJump(t2, HALF + 6, t3);
    SecondJump(t3, n, r4);
    TakenForFive(r4.tracker);
  }

  // ----- the tracker's own fields ----------------------------------------------------------------------

  class ArrivalTracker {
    var initialized: bool
    var next: Word
    var unresolved: nat
    var detected: nat
    var recovered: nat
    const missing: array<Range>
    var missingCount: nat

    ghost predicate Valid()
      reads this`missingCount, missing
    {
      missing.Length == MAX_TRACKED_RANGES && missingCount <= MAX_TRACKED_RANGES && Words(missing[..missingCount])
    }

    ghost function Ranges(): seq<Range>
      requires Valid()
      reads this`missingCount, missing
    {
      missing[..missingCount]
    }

    ghost function Value(): Tracker
      requires Valid()
      reads this, missing
    {
      Tracker(initialized, next, unresolved, detected, recovered, Ranges())
    }

    constructor ()
      ensures Valid() && Value() == EMPTY && fresh(missing)
    {
      initialized, next, unresolved, detected, recovered, missingCount := false, 0, 0, 0, 0, 0;
      missing := new Range[MAX_TRACKED_RANGES](_ => Range(0, 0));
    }

    method OldestIndex(excluded: nat) returns (oldest: Option<nat>)
      requires Valid()
      ensures oldest == WordOldest(Ranges(), next, missingCount, excluded)
    {
      oldest := None;
      for i := 0 to missingCount
        invariant oldest == WordOldest(Ranges(), next, i, excluded)
      {
        assert Ranges()[i] == missing[i];
        if i != excluded {
          if oldest.None? || Age(missing[i], next) > Age(missing[oldest.value], next) {
            oldest := Some(i);
          }
        }
      }
    }

    method FindEnding(n: Word) returns (found: Option<nat>)
      requires Valid()
      ensures found == WordEnding(Ranges(), n, 0)
    {
      for i := 0 to missingCount
        invariant WordEnding(Ranges(), n, 0) == WordEnding(Ranges(), n, i)
      {
        if Wire(missing[i].first + missing[i].count) == n {
          return Some(i);
        }
      }
      return None;
    }

    method FindHolding(n: Word) returns (found: Option<nat>)
      requires Valid()
      ensures found == WordHolding(Ranges(), n, 0)
    {
      for i := 0 to missingCount
        invariant WordHolding(Ranges(), n, 0) == WordHolding(Ranges(), n, i)
      {
        assert Ranges()[i] == missing[i];
        if WordIn(missing[i], n) {
          return Some(i);
        }
      }
      return None;
    }

    method DecrementUnresolved(count: nat)
      modifies this`unresolved
      ensures unresolved == Decreased(old(unresolved), count)
    {
      unresolved := if unresolved > count then unresolved - count else 0;
    }

    method Put(i: nat, r: Range)
      requires Valid() && i < missingCount && r.first < UINT32 && r.count < UINT32
      modifies missing
      ensures Valid() && Ranges() == old(Ranges())[i := r]
    {
      missing[i] := r;
      assert missing[..missingCount] == old(missing[..missingCount])[i := r];
    }

    method Append(r: Range)
      requires Valid() && missingCount < MAX_TRACKED_RANGES && r.first < UINT32 && r.count < UINT32
      modifies missing, this`missingCount
      ensures Valid() && Ranges() == old(Ranges()) + [r]
    {
      missing[missingCount] := r;
      missingCount := missingCount + 1;
      assert missing[..missingCount] == old(missing[..missingCount]) + [r];
    }

    method EraseAt(i: nat)
      requires Valid() && i < missingCount
      modifies missing, this`missingCount
      ensures Valid() && Ranges() == Erased(old(Ranges()), i)
    {
      if i + 1 < missingCount {
        missing[i] := missing[missingCount - 1];
      }
      missingCount := missingCount - 1;
      assert missing[..missingCount] == Erased(old(missing[..missingCount]), i);
    }

    method RememberMissingRange(count: Word)
      requires Valid()
      modifies missing, this`missingCount, this`unresolved
      ensures Valid() && Ranges() == WordRemembered(old(Ranges()), next, count)
      ensures unresolved == Decreased(old(unresolved), WordEvicted(old(Ranges()), next, count))
    {
      if count == 0 {
        return;
      }
      var ending := FindEnding(next);
      if ending.Some? {
        Put(ending.value, Range(missing[ending.value].first, Wire(missing[ending.value].count + count)));
        return;
      }
      if missingCount >= MAX_TRACKED_RANGES {
        var oldest := OldestIndex(MAX_TRACKED_RANGES);
        SomeIsOldest(Ranges(), next, missingCount, MAX_TRACKED_RANGES);
        DecrementUnresolved(missing[oldest.value].count);
        Put(oldest.value, Range(next, count));
        return;
      }
      Append(Range(next, count));
    }

    /** Of several ranges, some one not excluded is the oldest. */
    static lemma {:induction false} SomeIsOldest(rs: seq<Range>, next: Word, k: nat, excluded: nat)
      requires Words(rs) && k <= |rs| && (k > 1 || (k == 1 && excluded != 0))
      ensures WordOldest(rs, next, k, excluded).Some?
    {
      if k == 1 || k - 1 != excluded {
      } else {
        SomeIsOldest(rs, next, k - 1, excluded);
      }
    }

    /** The middle of range i arrives while every slot is taken. */
    method SplitWhenFull(i: nat, n: Word)
      requires Valid() && i < missingCount == MAX_TRACKED_RANGES && WordIn(Ranges()[i], n)
      requires 0 < Offset(n, missing[i].first) < missing[i].count - 1
      modifies missing, this`missingCount, this`unresolved
      ensures Valid() && Ranges() == WordRemovedAt(old(Ranges()), next, i, n)
      ensures unresolved == Decreased(old(unresolved), WordCostAt(old(Ranges()), next, i, n))
    {
      assert Ranges()[i] == missing[i];
      var right := WordBack(missing[i], n);
      Put(i, Range(missing[i].first, Offset(n, missing[i].first)));
      var oldest := OldestIndex(i);
      SomeIsOldest(Ranges(), next, missingCount, i);
      var expired := missing[oldest.value].count;
      EraseAt(oldest.value);
      Append(right);
      DecrementUnresolved(1 + expired);
    }

    method RemoveMissing(n: Word) returns (removed: bool)
      requires Valid()
      modifies missing, this`missingCount, this`unresolved
      ensures Valid() && removed == WordHolding(old(Ranges()), n, 0).Some?
      ensures !removed ==> Ranges() == old(Ranges()) && unresolved == old(unresolved)
      ensures var h := WordHolding(old(Ranges()), n, 0);
        removed ==>
          && Ranges() == WordRemovedAt(old(Ranges()), next, h.value, n)
          && unresolved == Decreased(old(unresolved), WordCostAt(old(Ranges()), next, h.value, n))
    {
      var found := FindHolding(n);
      if found.None? {
        return false;
      }
      var i := found.value;
      assert Ranges()[i] == missing[i];
      var r := missing[i];
      var offset := Offset(n, r.first);
      if r.count == 1 {
        EraseAt(i);
        DecrementUnresolved(1);
      } else if offset == 0 {
        Put(i, Range(Wire(r.first + 1), r.count - 1));
        DecrementUnresolved(1);
      } else if offset == r.count - 1 {
        Put(i, Range(r.first, r.count - 1));
        DecrementUnresolved(1);
      } else if missingCount < MAX_TRACKED_RANGES {
        Put(i, Range(r.first, offset));
        Append(WordBack(r, n));
        DecrementUnresolved(1);
      } else {
        SplitWhenFull(i, n);
      }
      return true;
    }

    method RecordArrival(n: Word) returns (delta: Delta)
      requires Valid()
      modifies this, missing
      ensures Valid() && Value() == WordRecord(old(Value()), n).tracker && delta == WordRecord(old(Value()), n).delta
    {
      if !initialized {
        initialized, next := true, Wire(n + 1);
        return Delta(0, 0, false);
      }
      if n == next {
        next := Wire(next + 1);
        return Delta(0, 0, false);
      }
      if SequenceAfter(n, next) {
        var gap := Offset(n, next);
        detected := detected + gap;
        RememberMissingRange(gap);
        unresolved := unresolved + gap;
        next := Wire(n + 1);
        return Delta(gap, 0, false);
      }
      var removed := RemoveMissing(n);
      if removed {
        recovered := recovered + 1;
        return Delta(0, 1, true);
      }
      return Delta(0, 0, true);
    }
  }
}

/** Which sequence numbers the receiver itself dropped: 64 slots of ranges that may forget but never
    invent. Numbers are counters here; `WordDrops` has the slots as they are kept. */
module DropRanges {

  import opened Common
  import opened SequenceTracker

  const SLOTS := 64
  const NOTHING := Range(0, 0)

  function NoDrops(): (s: seq<Range>)
    ensures |s| == SLOTS && forall i :: 0 <= i < SLOTS ==> s[i] == NOTHING
  {
    seq(SLOTS, _ => NOTHING)
  }

  /** What a slot becomes if it can take in n: it holds it already, or n is next to it. */
  function Absorbed(r: Range, n: nat): Option<Range> {
    if r.count == 0 then None
    else if In(r, n) then Some(r)
    else if n == r.first + r.count then Some(Range(r.first, r.count + 1))
    else if n + 1 == r.first then Some(Range(n, r.count + 1))
    else None
  }

  function FirstAbsorbing(slots: seq<Range>, n: nat, i: nat): (f: Option<nat>)
    requires i <= |slots|
    ensures f.Some? ==> i <= f.value < |slots| && Absorbed(slots[f.value], n).Some?
    decreases |slots| - i
  {
    if i == |slots| then None else if Absorbed(slots[i], n).Some? then Some(i) else FirstAbsorbing(slots, n, i + 1)
  }

  function FirstEmpty(slots: seq<Range>, i: nat): (f: Option<nat>)
    requires i <= |slots|
    ensures f.Some? ==> i <= f.value < |slots| && slots[f.value].count == 0
    decreases |slots| - i
  {
    if i == |slots| then None else if slots[i].count == 0 then Some(i) else FirstEmpty(slots, i + 1)
  }

  /** The slots with n dropped; with no slot left, one is overwritten. */
  function WithDrop(slots: seq<Range>, n: nat): (out: seq<Range>)
    requires |slots| == SLOTS
    ensures |out| == SLOTS
  {
    var a, e := FirstAbsorbing(slots, n, 0), FirstEmpty(slots, 0);
    if a.Some? then slots[a.value := Absorbed(slots[a.value], n).value]
    else if e.Some? then slots[e.value := Range(n, 1)]
    else slots[n % SLOTS := Range(n, 1)]
  }

  /** A slot cannot split: taking n from the middle gives up the rest of the range. */
  function Without(r: Range, n: nat): Range
    requires In(r, n)
  {
    if r.count == 1 then NOTHING
    else if n == r.first then Range(r.first + 1, r.count - 1)
    else if n == r.first + r.count - 1 then Range(r.first, r.count - 1)
    else NOTHING
  }

  /** What is left of a slot, and how much went, when the range first .. first + count - 1 is given up;
      a range that starts before it is left alone. */
  function Overlap(r: Range, first: nat, count: nat): nat {
    if r.count > 0 && first <= r.first < first + count then
      if r.count < first + count - r.first then r.count else first + count - r.first
    else 0
  }

  function Cut(r: Range, first: nat, count: nat): Range {
    var o := Overlap(r, first, count);
    if o == 0 then r else if o == r.count then NOTHING else Range(r.first + o, r.count - o)
  }

  function CutAll(slots: seq<Range>, first: nat, count: nat): (out: seq<Range>)
    ensures |out| == |slots| && forall i :: 0 <= i < |slots| ==> out[i] == Cut(slots[i], first, count)
  {
    seq(|slots|, i requires 0 <= i < |slots| => Cut(slots[i], first, count))
  }

  function Consumed(slots: seq<Range>, first: nat, count: nat, k: nat): nat
    requires k <= |slots|
  {
    if k == 0 then 0 else Consumed(slots, first, count, k - 1) + Overlap(slots[k - 1], first, count)
  }

  // ----- no number is in two slots -----------------------------------------------------------------

  predicate SlotsApart(slots: seq<Range>, i: int, j: int) { 0 <= i < j < |slots| ==> Apart(slots[i], slots[j]) }

  predicate EmptyIsNothing(slots: seq<Range>, i: int) {
    0 <= i < |slots| && slots[i].count == 0 ==> slots[i] == NOTHING
  }

  ghost predicate Disjoint(slots: seq<Range>) {
    && |slots| == SLOTS
    && (forall i :: EmptyIsNothing(slots, i))
    && (forall i, j :: SlotsApart(slots, i, j))
  }

  lemma DisjointPair(slots: seq<Range>, i: nat, j: nat)
    requires Disjoint(slots) && i < |slots| && j < |slots| && i != j
    ensures Apart(slots[i], slots[j])
  {
    assert SlotsApart(slots, i, j) && SlotsApart(slots, j, i);
  }

  lemma DisjointUpdated(slots: seq<Range>, i: nat, r: Range)
    requires Disjoint(slots) && i < |slots| && (r.count == 0 ==> r == NOTHING)
    requires forall j :: 0 <= j < |slots| && j != i ==> Apart(slots[j], r)
    ensures Disjoint(slots[i := r])
  {
    var q := slots[i := r];
    forall j ensures EmptyIsNothing(q, j) {
      assert EmptyIsNothing(slots, j);
    }
    forall j, k ensures SlotsApart(q, j, k) {
      assert SlotsApart(slots, j, k);
    }
  }

  /** A range that stays clear of n can only grow by n. */
  lemma GrownApart(a: Range, r: Range, n: nat)
    requires Apart(a, r) && !In(a, n) && Absorbed(r, n).Some? && (a.count == 0 ==> a == NOTHING)
    ensures Apart(a, Absorbed(r, n).value)
  {
  }

  lemma NotHeld(slots: seq<Range>, n: nat, j: nat)
    requires !Covers(slots, n) && j < |slots|
    ensures !In(slots[j], n)
  {
  }

  /** Dropping a number not yet held keeps the slots apart, holds it, and invents nothing. */
  lemma WithDropDisjoint(slots: seq<Range>, n: nat)
    requires Disjoint(slots) && !Covers(slots, n)
    ensures Disjoint(WithDrop(slots, n))
  {
    var a, e := FirstAbsorbing(slots, n, 0), FirstEmpty(slots, 0);
    if a.Some? {
      var i := a.value;
      forall j | 0 <= j < |slots| && j != i ensures Apart(slots[j], Absorbed(slots[i], n).value) {
        DisjointPair(slots, j, i);
        NotHeld(slots, n, j);
        assert EmptyIsNothing(slots, j);
        GrownApart(slots[j], slots[i], n);
      }
      DisjointUpdated(slots, i, Absorbed(slots[i], n).value);
    } else {
      forall j | 0 <= j < |slots| ensures Apart(slots[j], Range(n, 1)) {
        NotHeld(slots, n, j);
        assert EmptyIsNothing(slots, j);
      }
      DisjointUpdated(slots, if e.Some? then e.value else n % SLOTS, Range(n, 1));
    }
  }

  lemma WithDropCovers(slots: seq<Range>, n: nat, m: nat)
    requires |slots| == SLOTS
    ensures Covers(WithDrop(slots, n), n)
    ensures Covers(WithDrop(slots, n), m) ==> Covers(slots, m) || m == n
  {
    var a, e := FirstAbsorbing(slots, n, 0), FirstEmpty(slots, 0);
    var i := if a.Some? then a.value else if e.Some? then e.value else n % SLOTS;
    var r := if a.Some? then Absorbed(slots[i], n).value else Range(n, 1);
    assert WithDrop(slots, n) == slots[i := r];
    ReplacedCovers(slots, i, r, n);
    ReplacedCovers(slots, i, r, m);
    if In(slots[i], m) {
      CoveredAt(slots, i, m);
    }
  }

  lemma WithoutApart(a: Range, r: Range, n: nat)
    requires Apart(a, r) && In(r, n)
    ensures Apart(a, Without(r, n))
  {
  }

  /** Taking a number out: it is gone, and nothing is invented. */
  lemma WithoutSlot(slots: seq<Range>, i: nat, n: nat, m: nat)
    requires Disjoint(slots) && i < |slots| && In(slots[i], n)
    ensures Disjoint(slots[i := Without(slots[i], n)])
    ensures Covers(slots[i := Without(slots[i], n)], m) ==> Covers(slots, m) && m != n
  {
    var r := Without(slots[i], n);
    forall j | 0 <= j < |slots| && j != i ensures Apart(slots[j], r) {
      DisjointPair(slots, j, i);
      if r == NOTHING {
        assert Apart(slots[j], r);
      } else {
        WithoutApart(slots[j], slots[i], n);
      }
    }
    DisjointUpdated(slots, i, r);
    var q := slots[i := r];
    if k :| 0 <= k < |q| && In(q[k], m) {
      if k != i {
        DisjointPair(slots, k, i);
      }
      CoveredAt(slots, k, m);
    }
  }

  // ----- giving up a whole stretch -------------------------------------------------------------------

  function Span(first: nat, count: nat): set<nat> {
    set n: nat | first <= n < first + count && In(Range(first, count), n)
  }

  lemma {:induction false} SpanSize(first: nat, count: nat)
    ensures |Span(first, count)| == count
  {
    if count > 0 {
      SpanSize(first, count - 1);
      assert Span(first, count) == Span(first, count - 1) + {first + count - 1};
    } else {
      assert Span(first, 0) == {};
    }
  }

  /** The numbers the first k slots give up. */
  function GivenUp(slots: seq<Range>, first: nat, count: nat, k: nat): set<nat>
    requires k <= |slots|
  {
    if k == 0 then {}
    else GivenUp(slots, first, count, k - 1) + Span(slots[k - 1].first, Overlap(slots[k - 1], first, count))
  }

  lemma {:induction false} GivenUpHeld(slots: seq<Range>, first: nat, count: nat, k: nat, n: nat)
    requires k <= |slots| && n in GivenUp(slots, first, count, k)
    ensures first <= n < first + count && exists i :: 0 <= i < k && In(slots[i], n)
  {
    if k == 0 {
    } else {
      if n in Span(slots[k - 1].first, Overlap(slots[k - 1], first, count)) {
        assert In(slots[k - 1], n);
      } else {
        GivenUpHeld(slots, first, count, k - 1, n);
      }
    }
  }

  /** What is counted as given up is the number of distinct numbers given up. */
  lemma {:induction false} ConsumedCounts(slots: seq<Range>, first: nat, count: nat, k: nat)
    requires Disjoint(slots) && k <= |slots|
    ensures |GivenUp(slots, first, count, k)| == Consumed(slots, first, count, k)
  {
    if k == 0 {
    } else {
      ConsumedCounts(slots, first, count, k - 1);
      var before := GivenUp(slots, first, count, k - 1);
      var here := Span(slots[k - 1].first, Overlap(slots[k - 1], first, count));
      SpanSize(slots[k - 1].first, Overlap(slots[k - 1], first, count));
      forall n | n in before ensures n !in here {
        GivenUpHeld(slots, first, count, k - 1, n);
        var i :| 0 <= i < k - 1 && In(slots[i], n);
        DisjointPair(slots, i, k - 1);
      }
      DisjointSizes(before, here);
    }
  }

  lemma DisjointSizes(a: set<nat>, b: set<nat>)
    requires a !! b
    ensures |a + b| == |a| + |b|
  {
  }

  lemma SmallerSet(a: set<nat>, b: set<nat>)
    requires a <= b
    ensures |a| <= |b|
  {
    assert b == a + (b - a);
  }

  /** Never more than the stretch is long: with a number in two slots it could be. */
  lemma ConsumedWithin(slots: seq<Range>, first: nat, count: nat)
    requires Disjoint(slots)
    ensures Consumed(slots, first, count, |slots|) <= count
  {
    ConsumedCounts(slots, first, count, |slots|);
    var g := GivenUp(slots, first, count, |slots|);
    forall n | n in g ensures n in Span(first, count) {
      GivenUpHeld(slots, first, count, |slots|, n);
    }
    SmallerSet(g, Span(first, count));
    SpanSize(first, count);
  }

  /** One number in two slots, and a stretch of three gives up four. */
  lemma OverlapOvercounts()
    ensures
      var slots := [Range(4, 3), Range(6, 1)] + seq(62, _ => NOTHING);
      Consumed(slots, 4, 3, |slots|) == 4
  {
    var slots := [Range(4, 3), Range(6, 1)] + seq(62, _ => NOTHING);
    assert Consumed(slots, 4, 3, 1) == 3;
    assert Consumed(slots, 4, 3, 2) == 4;
    NothingConsumed(slots, 4, 3, 2, |slots|);
  }

  lemma {:induction false} NothingConsumed(slots: seq<Range>, first: nat, count: nat, j: nat, k: nat)
    requires j <= k <= |slots| && forall i :: j <= i < k ==> slots[i] == NOTHING
    ensures Consumed(slots, first, count, k) == Consumed(slots, first, count, j)
  {
    if j == k {
    } else {
      NothingConsumed(slots, first, count, j, k - 1);
    }
  }

  lemma CutApart(a: Range, b: Range, first: nat, count: nat)
    requires Apart(a, b)
    ensures Apart(Cut(a, first, count), Cut(b, first, count))
  {
  }

  lemma CutAllDisjoint(slots: seq<Range>, first: nat, count: nat)
    requires Disjoint(slots)
    ensures Disjoint(CutAll(slots, first, count))
  {
    var q := CutAll(slots, first, count);
    forall i ensures EmptyIsNothing(q, i) {
      assert EmptyIsNothing(slots, i);
    }
    forall i, j ensures SlotsApart(q, i, j) {
      assert SlotsApart(slots, i, j);
      if 0 <= i < j < |q| {
        CutApart(slots[i], slots[j], first, count);
      }
    }
  }

  lemma CutAllCovers(slots: seq<Range>, first: nat, count: nat, m: nat)
    requires Covers(CutAll(slots, first, count), m)
    ensures Covers(slots, m)
  {
    var i :| 0 <= i < |slots| && In(CutAll(slots, first, count)[i], m);
    CoveredAt(slots, i, m);
  }

  /** n taken out of the first slot that holds it. */
  function TakenOut(slots: seq<Range>, n: nat): (out: seq<Range>)
    ensures |out| == |slots|
  {
    var h := Holding(slots, n, 0);
    if h.Some? && h.value < |slots| && In(slots[h.value], n)
    then slots[h.value := Without(slots[h.value], n)]
    else slots
  }

  lemma TakenOutIs(slots: seq<Range>, n: nat, m: nat)
    requires Disjoint(slots)
    ensures Disjoint(TakenOut(slots, n))
    ensures Covers(TakenOut(slots, n), m) ==> Covers(slots, m) && m != n
  {
    HoldingIs(slots, n, 0);
    var h := Holding(slots, n, 0);
    if h.Some? {
      WithoutSlot(slots, h.value, n, m);
    }
  }
}

/** The slots of dropped numbers as they are kept, on 32-bit words: they do what the slots on counters do
    while the numbers asked about lie in one half of the number space and no slot lies further back than
    the other half. */
module WordDrops {

  import opened Common
  import opened DropRanges
  import opened SequenceTracker
  import opened SerialNumbers
  import opened WordTracker

  // ----- the operations on words ---------------------------------------------------------------------

  function WordAbsorbed(r: Range, n: Word): Option<Range>
    requires r.first < UINT32
  {
    var offset := Offset(n, r.first);
    if r.count == 0 then None
    else if offset < r.count then Some(r)
    else if offset == r.count && r.count != UINT32 - 1 then Some(Range(r.first, r.count + 1))
    else if Offset(r.first, n) == 1 && r.count != UINT32 - 1 then Some(Range(n, r.count + 1))
    else None
  }

  function WordAbsorbing(slots: seq<Range>, n: Word, i: nat): (f: Option<nat>)
    requires i <= |slots| && Words(slots)
    ensures f.Some? ==> i <= f.value < |slots| && WordAbsorbed(slots[f.value], n).Some?
    decreases |slots| - i
  {
    if i == |slots| then None else if WordAbsorbed(slots[i], n).Some? then Some(i) else WordAbsorbing(slots, n, i + 1)
  }

  function WordWithDrop(slots: seq<Range>, n: Word): (out: seq<Range>)
    requires |slots| == SLOTS && Words(slots)
    ensures |out| == SLOTS
  {
    var a, e := WordAbsorbing(slots, n, 0), FirstEmpty(slots, 0);
    if a.Some? then slots[a.value := WordAbsorbed(slots[a.value], n).value]
    else if e.Some? then slots[e.value := Range(n, 1)]
    else slots[n % SLOTS := Range(n, 1)]
  }

  function WordWithout(r: Range, n: Word): Range
    requires r.first < UINT32 && WordIn(r, n)
  {
    var offset := Offset(n, r.first);
    if r.count == 1 then NOTHING
    else if offset == 0 then Range(Wire(r.first + 1), r.count - 1)
    else if offset == r.count - 1 then Range(r.first, r.count - 1)
    else NOTHING
  }

  function WordTakenOut(slots: seq<Range>, n: Word): (out: seq<Range>)
    requires Words(slots)
    ensures |out| == |slots|
  {
    var h := WordHolding(slots, n, 0);
    if h.Some? then slots[h.value := WordWithout(slots[h.value], n)] else slots
  }

  function WordOverlap(r: Range, first: Word, count: Word): nat
    requires r.first < UINT32
  {
    var start := Offset(r.first, first);
    if r.count == 0 || start >= count then 0 else Min(r.count, count - start)
  }

  function WordCut(r: Range, first: Word, count: Word): Range
    requires r.first < UINT32
  {
    var o := WordOverlap(r, first, count);
    if o == 0 then r else if o == r.count then NOTHING else Range(Wire(r.first + o), r.count - o)
  }

  function WordCutAll(slots: seq<Range>, first: Word, count: Word): (out: seq<Range>)
    requires Words(slots)
    ensures |out| == |slots| && forall i :: 0 <= i < |slots| ==> out[i] == WordCut(slots[i], first, count)
  {
    seq(|slots|, i requires 0 <= i < |slots| => WordCut(slots[i], first, count))
  }

  /** The count is itself a word. */
  function WordConsumed(slots: seq<Range>, first: Word, count: Word, k: nat): Word
    requires k <= |slots| && Words(slots)
  {
    if k == 0 then 0 else Wire(WordConsumed(slots, first, count, k - 1) + WordOverlap(slots[k - 1], first, count))
  }

  // ----- slots stay words ------------------------------------------------------------------------------

  lemma WithDropWords(slots: seq<Range>, n: Word)
    requires |slots| == SLOTS && Words(slots)
    ensures Words(WordWithDrop(slots, n))
  {
  }

  lemma TakenOutWords(slots: seq<Range>, n: Word)
    requires Words(slots)
    ensures Words(WordTakenOut(slots, n))
  {
  }

  lemma CutAllWords(slots: seq<Range>, first: Word, count: Word)
    requires Words(slots)
    ensures Words(WordCutAll(slots, first, count))
  {
  }

  // ----- they do what the slots on counters do -----------------------------------------------------------

  /** A number asked about lies in the half of the number space that starts at `base`. */
  predicate Inside(n: nat, base: nat) { base <= n < base + HALF }

  /** A slot reaches no further back than the other half. */
  predicate SlotNear(r: Range, base: nat) {
    r.count > 0 ==> base < r.first + HALF && r.first + r.count <= base + HALF && r.count <= HALF
  }

  ghost predicate SlotsNear(slots: seq<Range>, base: nat) { forall i :: SlotNearAt(slots, i, base) }

  predicate SlotNearAt(slots: seq<Range>, i: int, base: nat) { 0 <= i < |slots| ==> SlotNear(slots[i], base) }

  lemma SlotsNearAt(slots: seq<Range>, i: nat, base: nat)
    requires SlotsNear(slots, base) && i < |slots|
    ensures SlotNear(slots[i], base)
  {
    assert SlotNearAt(slots, i, base);
  }

  /** The unsigned difference of two numbers less than a whole turn apart. */
  lemma OffsetBoth(a: nat, b: nat)
    requires -UINT32 < a - b < UINT32
    ensures Offset(Wire(a), Wire(b)) == if a >= b then a - b else a - b + UINT32
  {
    OffsetIs(a, b);
    if a >= b {
      ModuloOf(a - b, 0, a - b);
    } else {
      ModuloOf(a - b, -1, a - b + UINT32);
    }
  }

  lemma SlotsAreWords(slots: seq<Range>, base: nat)
    requires SlotsNear(slots, base)
    ensures Words(Images(slots))
  {
    forall i | 0 <= i < |slots| ensures slots[i].count < UINT32 {
      SlotsNearAt(slots, i, base);
    }
  }

  lemma AbsorbedAgrees(r: Range, n: nat, base: nat)
    requires SlotNear(r, base) && Inside(n, base)
    ensures Absorbed(r, n).None? ==> WordAbsorbed(Image(r), Wire(n)).None?
    ensures Absorbed(r, n).Some? ==> WordAbsorbed(Image(r), Wire(n)) == Some(Image(Absorbed(r, n).value))
  {
    if r.count > 0 {
      OffsetBoth(n, r.first);
      OffsetBoth(r.first, n);
    }
  }

  lemma {:induction false} AbsorbingAgrees(slots: seq<Range>, n: nat, base: nat, i: nat)
    requires SlotsNear(slots, base) && Inside(n, base) && i <= |slots|
    ensures Words(Images(slots)) && WordAbsorbing(Images(slots), Wire(n), i) == FirstAbsorbing(slots, n, i)
    decreases |slots| - i
  {
    SlotsAreWords(slots, base);
    if i == |slots| {
    } else {
      AbsorbingAgrees(slots, n, base, i + 1);
      SlotsNearAt(slots, i, base);
      AbsorbedAgrees(slots[i], n, base);
    }
  }

  lemma {:induction false} EmptyAgrees(slots: seq<Range>, i: nat)
    requires i <= |slots|
    ensures FirstEmpty(Images(slots), i) == FirstEmpty(slots, i)
    decreases |slots| - i
  {
    if i == |slots| {
    } else {
      EmptyAgrees(slots, i + 1);
    }
  }

  /** The slot overwritten when all are taken is the same one: 64 divides 2^32. */
  lemma SameSlot(n: nat)
    ensures Wire(n) % SLOTS == n % SLOTS
  {
    var q, r := n / UINT32, n % UINT32;
    var k, m := r / SLOTS, r % SLOTS;
    assert n == (q * (UINT32 / SLOTS) + k) * SLOTS + m;
    QuotientIs(n, q * (UINT32 / SLOTS) + k, m, SLOTS);
  }

  lemma WithDropAgrees(slots: seq<Range>, n: nat, base: nat)
    requires |slots| == SLOTS && SlotsNear(slots, base) && Inside(n, base)
    ensures Words(Images(slots)) && WordWithDrop(Images(slots), Wire(n)) == Images(WithDrop(slots, n))
  {
    AbsorbingAgrees(slots, n, base, 0);
    EmptyAgrees(slots, 0);
    SameSlot(n);
    var a := FirstAbsorbing(slots, n, 0);
    if a.Some? {
      SlotsNearAt(slots, a.value, base);
      AbsorbedAgrees(slots[a.value], n, base);
    }
  }

  lemma {:induction false} HoldingAgreesNear(slots: seq<Range>, n: nat, base: nat, i: nat)
    requires SlotsNear(slots, base) && Inside(n, base) && i <= |slots|
    ensures Words(Images(slots)) && WordHolding(Images(slots), Wire(n), i) == Holding(slots, n, i)
    decreases |slots| - i
  {
    SlotsAreWords(slots, base);
    if i == |slots| {
    } else {
      HoldingAgreesNear(slots, n, base, i + 1);
      SlotsNearAt(slots, i, base);
      if slots[i].count > 0 {
        RangeAgrees(n, slots[i].first, slots[i].count);
      }
    }
  }

  lemma WithoutAgrees(r: Range, n: nat, base: nat)
    requires SlotNear(r, base) && Inside(n, base) && In(r, n)
    ensures WordIn(Image(r), Wire(n)) && WordWithout(Image(r), Wire(n)) == Image(Without(r, n))
    ensures SlotNear(Without(r, n), base)
  {
    OffsetBoth(n, r.first);
    WireOfWire(r.first, 1);
  }

  /** Taking a number out finds it, and leaves the slots, as on counters. */
  lemma TakenOutAgrees(slots: seq<Range>, n: nat, base: nat)
    requires SlotsNear(slots, base) && Inside(n, base)
    ensures Words(Images(slots)) && WordTakenOut(Images(slots), Wire(n)) == Images(TakenOut(slots, n))
    ensures WordHolding(Images(slots), Wire(n), 0).Some? <==> Covers(slots, n)
    ensures SlotsNear(TakenOut(slots, n), base)
  {
    HoldingAgreesNear(slots, n, base, 0);
    HoldingIs(slots, n, 0);
    var h, out := Holding(slots, n, 0), TakenOut(slots, n);
    if h.Some? {
      SlotsNearAt(slots, h.value, base);
      WithoutAgrees(slots[h.value], n, base);
    }
    forall i ensures SlotNearAt(out, i, base) {
      assert SlotNearAt(slots, i, base);
    }
  }

  lemma OverlapAgrees(r: Range, first: nat, count: nat, base: nat)
    requires SlotNear(r, base) && Inside(first, base) && first + count < base + HALF
    ensures WordOverlap(Image(r), Wire(first), count) == Overlap(r, first, count)
    ensures WordCut(Image(r), Wire(first), count) == Image(Cut(r, first, count))
  {
    if r.count > 0 {
      OffsetBoth(r.first, first);
      WireOfWire(r.first, Overlap(r, first, count));
    }
  }

  lemma CutAllAgrees(slots: seq<Range>, first: nat, count: nat, base: nat)
    requires SlotsNear(slots, base) && Inside(first, base) && first + count < base + HALF
    ensures Words(Images(slots)) && WordCutAll(Images(slots), Wire(first), count) == Images(CutAll(slots, first, count))
  {
    SlotsAreWords(slots, base);
    forall i | 0 <= i < |slots|
      ensures WordCut(Images(slots)[i], Wire(first), count) == Image(Cut(slots[i], first, count))
    {
      SlotsNearAt(slots, i, base);
      OverlapAgrees(slots[i], first, count, base);
    }
  }

  lemma {:induction false} ConsumedGrows(slots: seq<Range>, first: nat, count: nat, j: nat, k: nat)
    requires j <= k <= |slots|
    ensures Consumed(slots, first, count, j) <= Consumed(slots, first, count, k)
  {
    if j == k {
    } else {
      ConsumedGrows(slots, first, count, j, k - 1);
    }
  }

  lemma {:induction false} ConsumedAgrees(slots: seq<Range>, first: nat, count: nat, base: nat, k: nat)
    requires Disjoint(slots) && k <= |slots|
    requires SlotsNear(slots, base) && Inside(first, base) && first + count < base + HALF
    ensures Words(Images(slots))
    ensures WordConsumed(Images(slots), Wire(first), count, k) == Consumed(slots, first, count, k)
  {
    SlotsAreWords(slots, base);
    if k == 0 {
    } else {
      ConsumedAgrees(slots, first, count, base, k - 1);
      SlotsNearAt(slots, k - 1, base);
      OverlapAgrees(slots[k - 1], first, count, base);
      ConsumedWithin(slots, first, count);
      ConsumedGrows(slots, first, count, k, |slots|);
      ModuloOf(Consumed(slots, first, count, k), 0, Consumed(slots, first, count, k));
    }
  }

  /** Beyond that, a slot left a whole turn back is taken for one that holds the number. */
  lemma OldSlotHoldsAgain(r: Range, n: nat)
    requires In(r, n) && r.count < UINT32
    ensures WordIn(Image(r), Wire(n + UINT32)) && !In(r, n + UINT32)
  {
    ModuloOf(n + UINT32, n / UINT32 + 1, n % UINT32);
    OffsetBoth(n, r.first);
  }

  // ----- the slots themselves ------------------------------------------------------------------------

  class ReceiverDroppedRanges {
    const slots: array<Range>

    ghost predicate Valid()
      reads slots
    {
      slots.Length == SLOTS && Words(slots[..])
    }

    constructor ()
      ensures Valid() && fresh(slots) && slots[..] == NoDrops()
    {
      slots := new Range[SLOTS](_ => NOTHING);
    }

    method Put(i: nat, r: Range)
      requires Valid() && i < SLOTS && r.first < UINT32 && r.count < UINT32
      modifies slots
      ensures Valid() && slots[..] == old(slots[..])[i := r]
    {
      slots[i] := r;
    }

    method FindAbsorbing(n: Word) returns (found: Option<nat>)
      requires Valid()
      ensures found == WordAbsorbing(slots[..], n, 0)
    {
      for i := 0 to SLOTS
        invariant WordAbsorbing(slots[..], n, 0) == WordAbsorbing(slots[..], n, i)
      {
        assert slots[..][i] == slots[i];
        if WordAbsorbed(slots[i], n).Some? {
          return Some(i);
        }
      }
      return None;
    }

    method FindEmpty() returns (found: Option<nat>)
      requires Valid()
      ensures found == FirstEmpty(slots[..], 0)
    {
      for i := 0 to SLOTS
        invariant FirstEmpty(slots[..], 0) == FirstEmpty(slots[..], i)
      {
        if slots[i].count == 0 {
          return Some(i);
        }
      }
      return None;
    }

    method Record(n: Word)
      requires Valid()
      modifies slots
      ensures Valid() && slots[..] == WordWithDrop(old(slots[..]), n)
    {
      var absorbing := FindAbsorbing(n);
      if absorbing.Some? {
        assert slots[..][absorbing.value] == slots[absorbing.value];
        Put(absorbing.value, WordAbsorbed(slots[absorbing.value], n).value);
        return;
      }
      var empty := FindEmpty();
      if empty.Some? {
        Put(empty.value, Range(n, 1));
        return;
      }
      Put(n % SLOTS, Range(n, 1));
    }

    method Consume(n: Word) returns (found: bool)
      requires Valid()
      modifies slots
      ensures Valid() && found == WordHolding(old(slots[..]), n, 0).Some?
      ensures slots[..] == WordTakenOut(old(slots[..]), n)
    {
      for i := 0 to SLOTS
        invariant Valid() && slots[..] == old(slots[..]) && WordHolding(slots[..], n, 0) == WordHolding(slots[..], n, i)
      {
        assert slots[..][i] == slots[i];
        if WordIn(slots[i], n) {
          Put(i, WordWithout(slots[i], n));
          return true;
        }
      }
      return false;
    }

    method ConsumeRange(first: Word, count: Word) returns (consumed: Word)
      requires Valid()
      modifies slots
      ensures Valid() && consumed == WordConsumed(old(slots[..]), first, count, SLOTS)
      ensures slots[..] == WordCutAll(old(slots[..]), first, count)
    {
      ghost var before := slots[..];
      consumed := 0;
      for i := 0 to SLOTS
        invariant consumed == WordConsumed(before, first, count, i)
        invariant forall j :: 0 <= j < i ==> slots[j] == WordCut(before[j], first, count)
        invariant forall j :: i <= j < SLOTS ==> slots[j] == before[j]
      {
        assert slots[i] == before[i];
        var overlap := WordOverlap(slots[i], first, count);
        slots[i] := WordCut(slots[i], first, count);
        consumed := Wire(consumed + overlap);
      }
      CutAllWords(before, first, count);
      assert slots[..] == WordCutAll(before, first, count);
    }
  }
}

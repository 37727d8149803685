/** Which sequence numbers of a sender are missing: kept as at most 64 ranges, updated by every arrival,
    and the reason no packet is queued twice.

    Numbers are the sender's counters, which do not wrap; WordTracker keeps them as the 32-bit words of
    the wire and relates the two. */
module SequenceTracker {

  import opened Common

  const MAX_TRACKED_RANGES := 64

  datatype Range = Range(first: nat, count: nat)

  predicate In(r: Range, n: nat) { r.first <= n < r.first + r.count }

  predicate Covers(rs: seq<Range>, n: nat) { exists i :: 0 <= i < |rs| && In(rs[i], n) }

  /** How many numbers the first k ranges hold. */
  function SumTo(rs: seq<Range>, k: nat): nat
    requires k <= |rs|
  {
    if k == 0 then 0 else SumTo(rs, k - 1) + rs[k - 1].count
  }

  function Sum(rs: seq<Range>): nat { SumTo(rs, |rs|) }

  // ----- the list of ranges ------------------------------------------------------------------------

  /** The first range, from position i on, that ends just before n. */
  function Ending(rs: seq<Range>, n: nat, i: nat): Option<nat>
    requires i <= |rs|
    decreases |rs| - i
  {
    if i == |rs| then None else if rs[i].first + rs[i].count == n then Some(i) else Ending(rs, n, i + 1)
  }

  /** The first range, from position i on, that holds n. */
  function Holding(rs: seq<Range>, n: nat, i: nat): Option<nat>
    requires i <= |rs|
    decreases |rs| - i
  {
    if i == |rs| then None else if In(rs[i], n) then Some(i) else Holding(rs, n, i + 1)
  }

  /** The oldest of the first k ranges, other than the excluded one. */
  function Oldest(rs: seq<Range>, k: nat, excluded: nat): (o: Option<nat>)
    requires k <= |rs|
    ensures o.Some? ==> o.value < k && o.value != excluded
  {
    if k == 0 then None
    else
      var o := Oldest(rs, k - 1, excluded);
      if k - 1 == excluded then o
      else if o.None? || rs[k - 1].first < rs[o.value].first then Some(k - 1)
      else o
  }

  lemma {:induction false} OldestIs(rs: seq<Range>, k: nat, excluded: nat)
    requires k <= |rs|
    ensures
      var o := Oldest(rs, k, excluded);
      && (o.None? <==> k == 0 || (k == 1 && excluded == 0))
      && (o.Some? ==> forall i :: 0 <= i < k && i != excluded ==> rs[o.value].first <= rs[i].first)
  {
    if k == 0 {
    } else {
      OldestIs(rs, k - 1, excluded);
    }
  }

  /** The last range takes the place of the one erased. */
  function Erased(rs: seq<Range>, i: nat): seq<Range>
    requires i < |rs|
  {
    rs[i := rs[|rs| - 1]][..|rs| - 1]
  }

  /** Ranges are not empty, lie below `next`, and do not overlap. */
  ghost predicate Sound(rs: seq<Range>, next: nat) {
    && |rs| <= MAX_TRACKED_RANGES
    && (forall i :: FitsAt(rs, i, next))
    && (forall i, j :: ApartAt(rs, i, j))
  }

  predicate FitsAt(rs: seq<Range>, i: int, next: nat) {
    0 <= i < |rs| ==> 0 < rs[i].count && rs[i].first + rs[i].count <= next
  }

  predicate ApartAt(rs: seq<Range>, i: int, j: int) { 0 <= i < j < |rs| ==> Apart(rs[i], rs[j]) }

  predicate Apart(a: Range, b: Range) { a.first + a.count <= b.first || b.first + b.count <= a.first }

  lemma {:induction false} SumToUpdated(rs: seq<Range>, i: nat, r: Range, k: nat)
    requires i < |rs| && k <= |rs|
    ensures SumTo(rs[i := r], k) == SumTo(rs, k) + if i < k then r.count - rs[i].count else 0
  {
    if k == 0 {
    } else {
      SumToUpdated(rs, i, r, k - 1);
    }
  }

  lemma {:induction false} SumToPrefix(rs: seq<Range>, qs: seq<Range>, k: nat)
    requires k <= |rs| && k <= |qs| && forall i :: 0 <= i < k ==> rs[i] == qs[i]
    ensures SumTo(rs, k) == SumTo(qs, k)
  {
    if k == 0 {
    } else {
      SumToPrefix(rs, qs, k - 1);
    }
  }

  lemma SumUpdated(rs: seq<Range>, i: nat, r: Range)
    requires i < |rs|
    ensures Sum(rs[i := r]) == Sum(rs) - rs[i].count + r.count
  {
    SumToUpdated(rs, i, r, |rs|);
  }

  lemma SumErased(rs: seq<Range>, i: nat)
    requires i < |rs|
    ensures Sum(Erased(rs, i)) == Sum(rs) - rs[i].count
  {
    var n := |rs| - 1;
    SumToUpdated(rs, i, rs[n], n);
    SumToPrefix(Erased(rs, i), rs[i := rs[n]], n);
  }

  lemma SumAdded(rs: seq<Range>, r: Range)
    ensures Sum(rs + [r]) == Sum(rs) + r.count
  {
    SumToPrefix(rs, rs + [r], |rs|);
  }

  lemma {:induction false} SumCovers(rs: seq<Range>, i: nat, k: nat)
    requires i < k <= |rs|
    ensures rs[i].count <= SumTo(rs, k)
  {
    if i == k - 1 {
    } else {
      SumCovers(rs, i, k - 1);
    }
  }

  lemma SoundAt(rs: seq<Range>, next: nat, i: nat)
    requires Sound(rs, next) && i < |rs|
    ensures 0 < rs[i].count && rs[i].first + rs[i].count <= next
  {
    assert FitsAt(rs, i, next);
  }

  lemma SoundPair(rs: seq<Range>, next: nat, i: nat, j: nat)
    requires Sound(rs, next) && i < |rs| && j < |rs| && i != j
    ensures Apart(rs[i], rs[j])
  {
    assert ApartAt(rs, i, j) && ApartAt(rs, j, i);
  }

  /** Replacing one range by one that touches nothing else keeps the list sound. */
  lemma SoundUpdated(rs: seq<Range>, next: nat, i: nat, r: Range)
    requires Sound(rs, next) && i < |rs| && 0 < r.count && r.first + r.count <= next
    requires forall j :: 0 <= j < |rs| && j != i ==> Apart(rs[j], r)
    ensures Sound(rs[i := r], next)
  {
    var q := rs[i := r];
    forall j ensures FitsAt(q, j, next) {
      assert FitsAt(rs, j, next);
    }
    forall j, k ensures ApartAt(q, j, k) {
      assert ApartAt(rs, j, k);
    }
  }

  lemma SoundErased(rs: seq<Range>, next: nat, i: nat)
    requires Sound(rs, next) && i < |rs|
    ensures Sound(Erased(rs, i), next)
  {
    var e, n := Erased(rs, i), |rs| - 1;
    forall j ensures FitsAt(e, j, next) {
      assert FitsAt(rs, j, next) && FitsAt(rs, n, next);
    }
    forall j, k ensures ApartAt(e, j, k) {
      if 0 <= j < k < |e| {
        SoundPair(rs, next, if j == i then n else j, if k == i then n else k);
      }
    }
  }

  lemma SoundAdded(rs: seq<Range>, next: nat, r: Range)
    requires Sound(rs, next) && |rs| < MAX_TRACKED_RANGES && 0 < r.count && r.first + r.count <= next
    requires forall j :: 0 <= j < |rs| ==> Apart(rs[j], r)
    ensures Sound(rs + [r], next)
  {
    var q := rs + [r];
    forall j ensures FitsAt(q, j, next) {
      assert FitsAt(rs, j, next);
    }
    forall j, k ensures ApartAt(q, j, k) {
      assert ApartAt(rs, j, k);
    }
  }

  lemma SoundLater(rs: seq<Range>, next: nat, later: nat)
    requires Sound(rs, next) && next <= later
    ensures Sound(rs, later)
  {
    forall i ensures FitsAt(rs, i, later) {
      assert FitsAt(rs, i, next);
    }
  }

  // ----- remembering and removing --------------------------------------------------------------------

  /** The list after numbers first .. first + count - 1 were found missing: they extend a range that
      ends there, take a new slot, or push out the oldest range. */
  function Remembered(rs: seq<Range>, first: nat, count: nat): seq<Range> {
    var e := Ending(rs, first, 0);
    var o := Oldest(rs, |rs|, MAX_TRACKED_RANGES);
    if count == 0 then rs
    else if e.Some? && e.value < |rs| then rs[e.value := Range(rs[e.value].first, rs[e.value].count + count)]
    else if |rs| < MAX_TRACKED_RANGES then rs + [Range(first, count)]
    else if o.Some? then rs[o.value := Range(first, count)]
    else rs
  }

  lemma {:induction false} EndingIs(rs: seq<Range>, n: nat, i: nat)
    requires i <= |rs|
    ensures
      var e := Ending(rs, n, i);
      if e.Some? then i <= e.value < |rs| && rs[e.value].first + rs[e.value].count == n
      else forall j :: i <= j < |rs| ==> rs[j].first + rs[j].count != n
    decreases |rs| - i
  {
    if i == |rs| {
    } else {
      EndingIs(rs, n, i + 1);
    }
  }

  /** A gap that goes on where a range ends takes no new slot; any other takes one while there is one. */
  lemma RememberedSlots(rs: seq<Range>, first: nat, count: nat)
    requires count > 0
    ensures
      var goesOn := exists i :: 0 <= i < |rs| && rs[i].first + rs[i].count == first;
      |Remembered(rs, first, count)| == if goesOn || |rs| >= MAX_TRACKED_RANGES then |rs| else |rs| + 1
  {
    EndingIs(rs, first, 0);
  }

  lemma {:induction false} HoldingIs(rs: seq<Range>, n: nat, i: nat)
    requires i <= |rs|
    ensures
      var h := Holding(rs, n, i);
      && (h.Some? ==> i <= h.value < |rs| && In(rs[h.value], n))
      && (h.None? ==> forall j :: i <= j < |rs| ==> !In(rs[j], n))
    decreases |rs| - i
  {
    if i == |rs| {
    } else {
      HoldingIs(rs, n, i + 1);
    }
  }

  lemma RememberedSound(rs: seq<Range>, first: nat, count: nat)
    requires Sound(rs, first)
    ensures Sound(Remembered(rs, first, count), first + count)
  {
    if count > 0 {
      EndingIs(rs, first, 0);
      OldestIs(rs, |rs|, MAX_TRACKED_RANGES);
      match Ending(rs, first, 0)
      case Some(e) => ExtendSound(rs, first, count, e);
      case None =>
        if |rs| < MAX_TRACKED_RANGES {
          AddSound(rs, first, count);
        } else {
          ReplaceSound(rs, first, count, Oldest(rs, |rs|, MAX_TRACKED_RANGES).value);
        }
    }
  }

  /** How many numbers are forgotten to make room. */
  function Evicted(rs: seq<Range>, first: nat, count: nat): nat {
    var o := Oldest(rs, |rs|, MAX_TRACKED_RANGES);
    if count == 0 || Ending(rs, first, 0).Some? || |rs| < MAX_TRACKED_RANGES || o.None? then 0 else rs[o.value].count
  }

  lemma RememberedSum(rs: seq<Range>, first: nat, count: nat)
    ensures Evicted(rs, first, count) <= Sum(rs)
    ensures Sum(Remembered(rs, first, count)) == Sum(rs) - Evicted(rs, first, count) + count
  {
    if count > 0 {
      EndingIs(rs, first, 0);
      OldestIs(rs, |rs|, MAX_TRACKED_RANGES);
      match Ending(rs, first, 0)
      case Some(e) => SumUpdated(rs, e, Range(rs[e].first, rs[e].count + count));
      case None =>
        if |rs| < MAX_TRACKED_RANGES {
          SumAdded(rs, Range(first, count));
        } else {
          var o := Oldest(rs, |rs|, MAX_TRACKED_RANGES).value;
          SumCovers(rs, o, |rs|);
          SumUpdated(rs, o, Range(first, count));
        }
    }
  }

  lemma ExtendSound(rs: seq<Range>, first: nat, count: nat, e: nat)
    requires Sound(rs, first) && e < |rs| && rs[e].first + rs[e].count == first
    ensures
      var q := rs[e := Range(rs[e].first, rs[e].count + count)];
      Sound(q, first + count) && Sum(q) == Sum(rs) + count
  {
    ExtendedIsApart(rs, first, count, e);
    SoundAt(rs, first, e);
    ReplaceRange(rs, first, e, Range(rs[e].first, rs[e].count + count), first + count);
  }

  lemma AddSound(rs: seq<Range>, first: nat, count: nat)
    requires Sound(rs, first) && |rs| < MAX_TRACKED_RANGES && count > 0
    ensures Sound(rs + [Range(first, count)], first + count) && Sum(rs + [Range(first, count)]) == Sum(rs) + count
  {
    PastIsApart(rs, first, count);
    SumAdded(rs, Range(first, count));
    SoundAdded(rs, first + count, Range(first, count));
  }

  lemma ReplaceSound(rs: seq<Range>, first: nat, count: nat, o: nat)
    requires Sound(rs, first) && o < |rs| && count > 0
    ensures Sound(rs[o := Range(first, count)], first + count)
    ensures Sum(rs[o := Range(first, count)]) == Sum(rs) - rs[o].count + count
  {
    PastIsApart(rs, first, count);
    ReplaceRange(rs, first, o, Range(first, count), first + count);
  }

  lemma PastIsApart(rs: seq<Range>, first: nat, count: nat)
    requires Sound(rs, first)
    ensures forall j :: 0 <= j < |rs| ==> Apart(rs[j], Range(first, count))
    ensures Sound(rs, first + count)
  {
    SoundLater(rs, first, first + count);
    forall j | 0 <= j < |rs| ensures Apart(rs[j], Range(first, count)) {
      SoundAt(rs, first, j);
    }
  }

  lemma ExtendedIsApart(rs: seq<Range>, first: nat, count: nat, e: nat)
    requires Sound(rs, first) && e < |rs| && rs[e].first + rs[e].count == first
    ensures forall j :: 0 <= j < |rs| && j != e ==> Apart(rs[j], Range(rs[e].first, rs[e].count + count))
  {
    forall j | 0 <= j < |rs| && j != e ensures Apart(rs[j], Range(rs[e].first, rs[e].count + count)) {
      SoundPair(rs, first, j, e);
      SoundAt(rs, first, j);
    }
  }

  /** Only what was missing before or is reported missing is remembered, and all of it unless the list
      was full. */
  lemma RememberedCovers(rs: seq<Range>, first: nat, count: nat, n: nat)
    requires Sound(rs, first)
    ensures Covers(Remembered(rs, first, count), n) ==> Covers(rs, n) || first <= n < first + count
    ensures |rs| < MAX_TRACKED_RANGES ==>
              (Covers(Remembered(rs, first, count), n) <==> Covers(rs, n) || first <= n < first + count)
  {
    if count > 0 {
      var e := Ending(rs, first, 0);
      EndingIs(rs, first, 0);
      OldestIs(rs, |rs|, MAX_TRACKED_RANGES);
      if e.Some? {
        ReplacedCovers(rs, e.value, Range(rs[e.value].first, rs[e.value].count + count), n);
      } else if |rs| < MAX_TRACKED_RANGES {
        AddedCovers(rs, Range(first, count), n);
      } else {
        ReplacedCovers(rs, Oldest(rs, |rs|, MAX_TRACKED_RANGES).value, Range(first, count), n);
      }
    }
  }

  /** Range i becomes r, which may reach past `next` but touches no other range. */
  lemma ReplaceRange(rs: seq<Range>, next: nat, i: nat, r: Range, after: nat)
    requires Sound(rs, next) && i < |rs| && 0 < r.count && next <= after && r.first + r.count <= after
    requires forall j :: 0 <= j < |rs| && j != i ==> Apart(rs[j], r)
    ensures Sound(rs[i := r], after) && Sum(rs[i := r]) == Sum(rs) - rs[i].count + r.count
  {
    SumUpdated(rs, i, r);
    SoundLater(rs, next, after);
    SoundUpdated(rs, after, i, r);
  }

  lemma CoveredAt(rs: seq<Range>, i: nat, n: nat)
    requires i < |rs| && In(rs[i], n)
    ensures Covers(rs, n)
  {
  }

  lemma ReplacedCovers(rs: seq<Range>, i: nat, r: Range, n: nat)
    requires i < |rs|
    ensures Covers(rs[i := r], n) ==> Covers(rs, n) || In(r, n)
    ensures (Covers(rs, n) && !In(rs[i], n)) || In(r, n) ==> Covers(rs[i := r], n)
  {
    var q := rs[i := r];
    if j :| 0 <= j < |q| && In(q[j], n) && j != i {
      CoveredAt(rs, j, n);
    }
    if In(r, n) {
      CoveredAt(q, i, n);
    } else if j :| 0 <= j < |rs| && In(rs[j], n) && j != i {
      CoveredAt(q, j, n);
    }
  }

  lemma AddedCovers(rs: seq<Range>, r: Range, n: nat)
    ensures Covers(rs + [r], n) <==> Covers(rs, n) || In(r, n)
  {
    var q := rs + [r];
    if j :| 0 <= j < |q| && In(q[j], n) && j != |rs| {
      CoveredAt(rs, j, n);
    }
    if In(r, n) {
      CoveredAt(q, |rs|, n);
    }
    if j :| 0 <= j < |rs| && In(rs[j], n) {
      CoveredAt(q, j, n);
    }
  }

  lemma ErasedCovers(rs: seq<Range>, next: nat, i: nat, n: nat)
    requires Sound(rs, next) && i < |rs|
    ensures Covers(Erased(rs, i), n) <==> Covers(rs, n) && !In(rs[i], n)
  {
    var q, last := Erased(rs, i), |rs| - 1;
    if j :| 0 <= j < |q| && In(q[j], n) {
      var k := if j == i then last else j;
      CoveredAt(rs, k, n);
      SoundPair(rs, next, i, k);
    }
    if j :| 0 <= j < |rs| && In(rs[j], n) && !In(rs[i], n) {
      CoveredAt(q, if j == last then i else j, n);
    }
  }

  // ----- a missing number arrives ------------------------------------------------------------------

  /** Range i without n, as its front part; what lies behind n is split off. */
  function Front(rs: seq<Range>, i: nat, n: nat): seq<Range>
    requires i < |rs| && In(rs[i], n)
  {
    rs[i := Range(rs[i].first, n - rs[i].first)]
  }

  function Back(r: Range, n: nat): Range
    requires In(r, n)
  {
    Range(n + 1, r.first + r.count - n - 1)
  }

  /** The list once n, held by range i, has arrived. */
  function RemovedAt(rs: seq<Range>, i: nat, n: nat): seq<Range>
    requires i < |rs| && In(rs[i], n)
  {
    var r := rs[i];
    if r.count == 1 then Erased(rs, i)
    else if n == r.first then rs[i := Back(r, n)]
    else if n == r.first + r.count - 1 then Front(rs, i, n)
    else if |rs| < MAX_TRACKED_RANGES then Front(rs, i, n) + [Back(r, n)]
    else
      var o := Oldest(Front(rs, i, n), |rs|, i);
      if o.Some? then Erased(Front(rs, i, n), o.value) + [Back(r, n)] else Front(rs, i, n)
  }

  /** How many numbers leave the list. */
  function CostAt(rs: seq<Range>, i: nat, n: nat): nat
    requires i < |rs| && In(rs[i], n)
  {
    var r := rs[i];
    if r.count == 1 || n == r.first || n == r.first + r.count - 1 || |rs| < MAX_TRACKED_RANGES then 1
    else
      var o := Oldest(Front(rs, i, n), |rs|, i);
      1 + if o.Some? then rs[o.value].count else Back(r, n).count
  }

  lemma RemovedSum(rs: seq<Range>, i: nat, n: nat)
    requires i < |rs| && In(rs[i], n)
    ensures CostAt(rs, i, n) <= Sum(rs) && Sum(RemovedAt(rs, i, n)) == Sum(rs) - CostAt(rs, i, n)
  {
    var r := rs[i];
    var front, back := Front(rs, i, n), Back(r, n);
    SumCovers(rs, i, |rs|);
    SumErased(rs, i);
    SumUpdated(rs, i, back);
    SumUpdated(rs, i, Range(r.first, n - r.first));
    SumAdded(front, back);
    var o := Oldest(front, |rs|, i);
    if o.Some? {
      SumErased(front, o.value);
      SumAdded(Erased(front, o.value), back);
    }
  }

  lemma FrontSound(rs: seq<Range>, next: nat, i: nat, n: nat)
    requires Sound(rs, next) && i < |rs| && In(rs[i], n) && n > rs[i].first
    ensures Sound(Front(rs, i, n), next)
    ensures forall j :: 0 <= j < |rs| ==> Apart(Front(rs, i, n)[j], Back(rs[i], n))
  {
    SoundAt(rs, next, i);
    forall j | 0 <= j < |rs| && j != i
      ensures Apart(rs[j], Range(rs[i].first, n - rs[i].first)) && Apart(rs[j], Back(rs[i], n))
    {
      SoundPair(rs, next, j, i);
      SoundAt(rs, next, j);
    }
    SoundUpdated(rs, next, i, Range(rs[i].first, n - rs[i].first));
  }

  lemma BackSound(rs: seq<Range>, next: nat, i: nat, n: nat)
    requires Sound(rs, next) && i < |rs| && In(rs[i], n) && n == rs[i].first && rs[i].count > 1
    ensures Sound(rs[i := Back(rs[i], n)], next)
  {
    SoundAt(rs, next, i);
    forall j | 0 <= j < |rs| && j != i ensures Apart(rs[j], Back(rs[i], n)) {
      SoundPair(rs, next, j, i);
    }
    SoundUpdated(rs, next, i, Back(rs[i], n));
  }

  lemma EvictSound(front: seq<Range>, next: nat, o: nat, back: Range)
    requires Sound(front, next) && o < |front| && 0 < back.count && back.first + back.count <= next
    requires forall j :: 0 <= j < |front| ==> Apart(front[j], back)
    ensures Sound(Erased(front, o) + [back], next)
  {
    SoundErased(front, next, o);
    SoundAdded(Erased(front, o), next, back);
  }

  lemma RemovedSound(rs: seq<Range>, next: nat, i: nat, n: nat)
    requires Sound(rs, next) && i < |rs| && In(rs[i], n)
    ensures Sound(RemovedAt(rs, i, n), next)
  {
    var r := rs[i];
    SoundAt(rs, next, i);
    if r.count == 1 {
      SoundErased(rs, next, i);
    } else if n == r.first {
      BackSound(rs, next, i, n);
    } else {
      FrontSound(rs, next, i, n);
      var o := Oldest(Front(rs, i, n), |rs|, i);
      if n < r.first + r.count - 1 {
        if |rs| < MAX_TRACKED_RANGES {
          SoundAdded(Front(rs, i, n), next, Back(r, n));
        } else if o.Some? {
          EvictSound(Front(rs, i, n), next, o.value, Back(r, n));
        }
      }
    }
  }

  /** The number that arrived is gone, nothing new is missing, and nothing else is forgotten unless the
      list was full. */
  lemma RemovedCovers(rs: seq<Range>, next: nat, i: nat, n: nat, m: nat)
    requires Sound(rs, next) && i < |rs| && In(rs[i], n)
    ensures Covers(RemovedAt(rs, i, n), m) ==> Covers(rs, m) && m != n
    ensures |rs| < MAX_TRACKED_RANGES ==> (Covers(RemovedAt(rs, i, n), m) <==> Covers(rs, m) && m != n)
  {
    var r := rs[i];
    var front, back := Front(rs, i, n), Back(r, n);
    CoveredAt(rs, i, n);
    if In(r, m) {
      CoveredAt(rs, i, m);
    }
    if r.count == 1 {
      ErasedCovers(rs, next, i, m);
    } else {
      OnlyThere(rs, next, i, n);
      ChangedCovers(rs, next, i, back, m);
      ChangedCovers(rs, next, i, Range(r.first, n - r.first), m);
      AddedCovers(front, back, m);
      var o := Oldest(front, |rs|, i);
      if n > r.first && o.Some? {
        FrontSound(rs, next, i, n);
        ErasedCovers(front, next, o.value, m);
        AddedCovers(Erased(front, o.value), back, m);
      }
    }
  }

  lemma OnlyThere(rs: seq<Range>, next: nat, i: nat, n: nat)
    requires Sound(rs, next) && i < |rs| && In(rs[i], n)
    ensures forall j :: 0 <= j < |rs| && j != i ==> !In(rs[j], n)
  {
    forall j | 0 <= j < |rs| && j != i ensures !In(rs[j], n) {
      SoundPair(rs, next, i, j);
    }
  }

  /** What changing one range of a sound list covers, exactly. */
  lemma ChangedCovers(rs: seq<Range>, next: nat, i: nat, r: Range, m: nat)
    requires Sound(rs, next) && i < |rs|
    ensures Covers(rs[i := r], m) <==> In(r, m) || (Covers(rs, m) && !In(rs[i], m))
  {
    var q := rs[i := r];
    ReplacedCovers(rs, i, r, m);
    if j :| 0 <= j < |q| && In(q[j], m) && j != i {
      SoundPair(rs, next, i, j);
    }
  }

  // ----- arrivals ----------------------------------------------------------------------------------

  datatype Tracker = Tracker(
    initialized: bool, next: nat, unresolved: nat, detected: nat, recovered: nat, ranges: seq<Range>)

  datatype Delta = Delta(detected: nat, recovered: nat, lateOrDuplicate: bool)

  datatype Recorded = Recorded(tracker: Tracker, delta: Delta)

  function Decreased(unresolved: nat, count: nat): nat { if unresolved > count then unresolved - count else 0 }

  function Record(t: Tracker, n: nat): Recorded {
    var h := Holding(t.ranges, n, 0);
    if !t.initialized then Recorded(t.(initialized := true, next := n + 1), Delta(0, 0, false))
    else if n >= t.next then
      var gap := n - t.next;
      Recorded(
        t.(next := n + 1, detected := t.detected + gap,
           unresolved := Decreased(t.unresolved, Evicted(t.ranges, t.next, gap)) + gap,
           ranges := Remembered(t.ranges, t.next, gap)),
        Delta(gap, 0, false))
    else if h.Some? && h.value < |t.ranges| && In(t.ranges[h.value], n) then
      Recorded(
        t.(recovered := t.recovered + 1, unresolved := Decreased(t.unresolved, CostAt(t.ranges, h.value, n)),
           ranges := RemovedAt(t.ranges, h.value, n)),
        Delta(0, 1, true))
    else Recorded(t, Delta(0, 0, true))
  }

  predicate ShouldEnqueue(d: Delta) { !d.lateOrDuplicate || d.recovered > 0 }

  /** The ranges are sound and the counter counts exactly what they hold. */
  ghost predicate Valid(t: Tracker) {
    && Sound(t.ranges, t.next) && t.unresolved == Sum(t.ranges)
    && (!t.initialized ==> t.next == 0 && t.ranges == [])
  }

  lemma RecordValid(t: Tracker, n: nat)
    requires Valid(t)
    ensures Valid(Record(t, n).tracker)
  {
    var h := Holding(t.ranges, n, 0);
    HoldingIs(t.ranges, n, 0);
    if !t.initialized {
      SoundLater(t.ranges, 0, n + 1);
    } else if n >= t.next {
      RememberedSound(t.ranges, t.next, n - t.next);
      RememberedSum(t.ranges, t.next, n - t.next);
      SoundLater(Remembered(t.ranges, t.next, n - t.next), n, n + 1);
    } else if h.Some? {
      RemovedSound(t.ranges, t.next, h.value, n);
      RemovedSum(t.ranges, h.value, n);
    }
  }

  /** What an arrival does to the set of missing numbers. */
  lemma RecordCovers(t: Tracker, n: nat, m: nat)
    requires Valid(t)
    ensures
      var t' := Record(t, n).tracker;
      var missing :=
        if t.initialized && n >= t.next then Covers(t.ranges, m) || t.next <= m < n else Covers(t.ranges, m) && m != n;
      && (Covers(t'.ranges, m) ==> missing)
      && (|t.ranges| < MAX_TRACKED_RANGES ==> (Covers(t'.ranges, m) <==> missing))
  {
    var h := Holding(t.ranges, n, 0);
    HoldingIs(t.ranges, n, 0);
    if t.initialized && n >= t.next {
      RememberedCovers(t.ranges, t.next, n - t.next, m);
    } else if t.initialized && h.Some? {
      RemovedCovers(t.ranges, t.next, h.value, n, m);
    }
  }

  lemma EnqueuedIff(t: Tracker, n: nat)
    ensures ShouldEnqueue(Record(t, n).delta) <==> !t.initialized || n >= t.next || Covers(t.ranges, n)
  {
    HoldingIs(t.ranges, n, 0);
  }

  // ----- whole runs ----------------------------------------------------------------------------------

  const EMPTY := Tracker(false, 0, 0, 0, 0, [])

  function After(run: seq<nat>): Tracker {
    if run == [] then EMPTY else Record(After(run[..|run| - 1]), run[|run| - 1]).tracker
  }

  /** Arrival i goes on to the playout queue. */
  predicate Enqueued(run: seq<nat>, i: nat)
    requires i < |run|
  {
    ShouldEnqueue(Record(After(run[..i]), run[i]).delta)
  }

  lemma {:induction false} AlwaysValid(run: seq<nat>)
    ensures Valid(After(run)) && (run == [] <==> !After(run).initialized)
    ensures forall i :: 0 <= i < |run| ==> run[i] < After(run).next
  {
    if run == [] {
    } else {
      AlwaysValid(run[..|run| - 1]);
      RecordValid(After(run[..|run| - 1]), run[|run| - 1]);
    }
  }

  /** Whatever is taken for missing came after the first arrival and has not arrived. */
  lemma {:induction false} MissingHasNotArrived(run: seq<nat>, m: nat)
    requires Covers(After(run).ranges, m)
    ensures m !in run && run != [] && run[0] < m < After(run).next
  {
    if run == [] {
      assert false;
    } else {
      var k := |run| - 1;
      AlwaysValid(run[..k]);
      RecordCovers(After(run[..k]), run[k], m);
      if Covers(After(run[..k]).ranges, m) {
        MissingHasNotArrived(run[..k], m);
        assert run == run[..k] + [run[k]];
      } else {
        GapIsNew(run, k, m);
      }
    }
  }

  lemma GapIsNew(run: seq<nat>, k: nat, m: nat)
    requires 0 < k == |run| - 1 && After(run[..k]).next <= m < run[k]
    ensures m !in run && run[0] < m < After(run).next
  {
    AlwaysValid(run);
    AlwaysValid(run[..k]);
    AllBelow(run, k, After(run[..k]).next, m);
  }

  lemma AllBelow(run: seq<nat>, k: nat, next: nat, m: nat)
    requires 0 < k == |run| - 1 && next <= m < run[k] && forall i :: 0 <= i < k ==> run[..k][i] < next
    ensures m !in run && run[0] < m
  {
    assert forall i :: 0 <= i < k ==> run[i] == run[..k][i];
  }

  /** No packet is queued for playout twice, however arrivals are repeated, reordered or forgotten. */
  lemma NeverQueuedTwice(run: seq<nat>, i: nat, j: nat)
    requires i < j < |run| && run[i] == run[j]
    ensures !Enqueued(run, j)
  {
    var before := run[..j];
    AlwaysValid(before);
    EnqueuedIff(After(before), run[j]);
    assert before[i] == run[j];
    if Covers(After(before).ranges, run[j]) {
      MissingHasNotArrived(before, run[j]);
    }
  }

  /** The list of ranges never fills up. */
  ghost predicate NeverFull(run: seq<nat>) {
    forall i {:trigger run[..i]} :: 0 <= i < |run| ==> |After(run[..i]).ranges| < MAX_TRACKED_RANGES
  }

  lemma NeverFullPrefix(run: seq<nat>, k: nat)
    requires NeverFull(run) && k <= |run|
    ensures NeverFull(run[..k])
  {
    forall i | 0 <= i < k ensures |After(run[..k][..i]).ranges| < MAX_TRACKED_RANGES {
      assert run[..k][..i] == run[..i];
    }
  }

  /** While the list does not fill up, the missing numbers are exactly those after the first arrival
      that have not arrived. */
  lemma {:induction false} MissingExactly(run: seq<nat>, m: nat)
    requires NeverFull(run) && run != []
    ensures Covers(After(run).ranges, m) <==> m !in run && run[0] < m < After(run).next
  {
    var k := |run| - 1;
    NeverFullPrefix(run, k);
    AlwaysValid(run);
    AlwaysValid(run[..k]);
    RecordCovers(After(run[..k]), run[k], m);
    assert |After(run[..k]).ranges| < MAX_TRACKED_RANGES;
    assert run == run[..k] + [run[k]];
    if k == 0 {
    } else {
      MissingExactly(run[..k], m);
      assert forall i :: 0 <= i < k ==> run[i] == run[..k][i] < After(run[..k]).next;
    }
  }

  /** Then every packet from the first number on is queued at its first arrival, and only then; and the
      counters balance. */
  lemma QueuedExactlyOnce(run: seq<nat>, j: nat)
    requires NeverFull(run) && j < |run|
    ensures Enqueued(run, j) <==> run[j] !in run[..j] && (j == 0 || run[j] > run[0])
  {
    var before := run[..j];
    AlwaysValid(before);
    EnqueuedIff(After(before), run[j]);
    if j > 0 {
      NeverFullPrefix(run, j);
      MissingExactly(before, run[j]);
      assert before[0] == run[0];
      if run[j] >= After(before).next {
        assert forall i :: 0 <= i < j ==> before[i] < run[j];
      }
    }
  }

  lemma {:induction false} CountersBalance(run: seq<nat>)
    requires NeverFull(run)
    ensures After(run).detected == After(run).recovered + After(run).unresolved
  {
    if run == [] {
    } else {
      var k := |run| - 1;
      NeverFullPrefix(run, k);
      CountersBalance(run[..k]);
      AlwaysValid(run[..k]);
      assert |After(run[..k]).ranges| < MAX_TRACKED_RANGES;
      OneStepBalances(After(run[..k]), run[k]);
    }
  }

  lemma OneStepBalances(t: Tracker, n: nat)
    requires Valid(t) && |t.ranges| < MAX_TRACKED_RANGES && t.detected == t.recovered + t.unresolved
    ensures var u := Record(t, n).tracker; u.detected == u.recovered + u.unresolved
  {
    var h := Holding(t.ranges, n, 0);
    HoldingIs(t.ranges, n, 0);
    if h.Some? {
      RemovedSum(t.ranges, h.value, n);
    }
    if n >= t.next {
      RememberedSum(t.ranges, t.next, n - t.next);
    }
  }
}

/** The loss rate that congestion control acts on: the lower median of what the room's receivers
    report, so that no minority of reporters decides it. */
module RobustLoss {

  import opened Common

  const MIN_REPORTER_OUTCOMES := 8

  datatype Resolved = Resolved(delivered: nat, lost: nat)

  /** Enough packets were resolved for the reporter to have a say. */
  predicate Counts(o: Resolved) { o.delivered + o.lost >= MIN_REPORTER_OUTCOMES }

  function Rate(o: Resolved): real
    requires Counts(o)
  {
    o.lost as real / (o.delivered + o.lost) as real
  }

  function Voice(o: Resolved): seq<real> { if Counts(o) then [Rate(o)] else [] }

  function Rates(rs: seq<Resolved>): seq<real> {
    if rs == [] then []
    else
      var n := |rs| - 1;
      Rates(rs[..n]) + Voice(rs[n])
  }

  /** How many entries lie below v (or at it, if `orAt`). */
  function CountBelow(s: seq<real>, v: real, orAt: bool): nat {
    if s == [] then 0
    else
      var n := |s| - 1;
      CountBelow(s[..n], v, orAt) + if s[n] < v || (orAt && s[n] == v) then 1 else 0
  }

  /** v has fewer than half of the others strictly below it, and at least half at or below it. */
  predicate IsLowerMedian(v: real, s: seq<real>) {
    s != [] && CountBelow(s, v, false) <= (|s| - 1) / 2 < CountBelow(s, v, true)
  }

  predicate Ascending(s: seq<real>) { forall i, j :: 0 <= i < j < |s| ==> s[i] <= s[j] }

  lemma {:induction false} CountBelowAppend(a: seq<real>, b: seq<real>, v: real, orAt: bool)
    ensures CountBelow(a + b, v, orAt) == CountBelow(a, v, orAt) + CountBelow(b, v, orAt)
    decreases |b|
  {
    if b == [] {
      assert a + b == a;
    } else {
      var n := |b| - 1;
      assert (a + b)[..|a| + n] == a + b[..n];
      CountBelowAppend(a, b[..n], v, orAt);
    }
  }

  lemma {:induction false} CountBelowMonotone(s: seq<real>, v: real, w: real)
    requires v < w
    ensures CountBelow(s, v, true) <= CountBelow(s, w, false)
  {
    if s == [] {
    } else {
      CountBelowMonotone(s[..|s| - 1], v, w);
    }
  }

  /** There is only one, so the order in which reporters are listed cannot matter. */
  lemma LowerMedianUnique(s: seq<real>, v: real, w: real)
    requires IsLowerMedian(v, s) && IsLowerMedian(w, s)
    ensures v == w
  {
    if v < w {
      CountBelowMonotone(s, v, w);
    } else if w < v {
      CountBelowMonotone(s, w, v);
    }
  }

  lemma {:induction false} CountBelowAll(s: seq<real>, v: real, orAt: bool)
    requires forall i :: 0 <= i < |s| ==> s[i] < v || (orAt && s[i] == v)
    ensures CountBelow(s, v, orAt) == |s|
  {
    if s == [] {
    } else {
      CountBelowAll(s[..|s| - 1], v, orAt);
    }
  }

  lemma {:induction false} CountBelowNone(s: seq<real>, v: real, orAt: bool)
    requires forall i :: 0 <= i < |s| ==> s[i] > v || (!orAt && s[i] == v)
    ensures CountBelow(s, v, orAt) == 0
  {
    if s == [] {
    } else {
      CountBelowNone(s[..|s| - 1], v, orAt);
    }
  }

  lemma MiddleIsLowerMedian(s: seq<real>)
    requires Ascending(s) && s != []
    ensures IsLowerMedian(s[(|s| - 1) / 2], s)
  {
    var k := (|s| - 1) / 2;
    var v := s[k];
    assert s == s[..k] + s[k..] && s == s[..k + 1] + s[k + 1..];
    CountBelowAppend(s[..k], s[k..], v, false);
    CountBelowNone(s[k..], v, false);
    CountBelowAtMostLength(s[..k], v, false);
    CountBelowAppend(s[..k + 1], s[k + 1..], v, true);
    CountBelowAll(s[..k + 1], v, true);
  }

  lemma {:induction false} CountBelowAtMostLength(s: seq<real>, v: real, orAt: bool)
    ensures CountBelow(s, v, orAt) <= |s|
  {
    if s == [] {
    } else {
      CountBelowAtMostLength(s[..|s| - 1], v, orAt);
    }
  }

  /** The same entries, compared by how many lie below any bound. */
  ghost predicate SameCounts(a: seq<real>, b: seq<real>) {
    |a| == |b| && forall v, orAt :: CountBelow(a, v, orAt) == CountBelow(b, v, orAt)
  }

  method Place(sorted: seq<real>, x: real) returns (out: seq<real>)
    requires Ascending(sorted)
    ensures Ascending(out) && SameCounts(out, sorted + [x]) && multiset(out) == multiset(sorted + [x])
  {
    var k := |sorted|;
    while k > 0 && sorted[k - 1] > x
      invariant 0 <= k <= |sorted|
      invariant forall i :: k <= i < |sorted| ==> sorted[i] > x
    {
      k := k - 1;
    }
    out := sorted[..k] + [x] + sorted[k..];
    PlacedInOrder(sorted, k, x);
    assert sorted == sorted[..k] + sorted[k..];
    PlacedAnywhere(sorted[..k], sorted[k..], x);
  }

  lemma PlacedInOrder(sorted: seq<real>, k: nat, x: real)
    requires Ascending(sorted) && k <= |sorted|
    requires k > 0 ==> sorted[k - 1] <= x
    requires forall i :: k <= i < |sorted| ==> sorted[i] > x
    ensures Ascending(sorted[..k] + [x] + sorted[k..])
  {
    var out := sorted[..k] + [x] + sorted[k..];
    forall i, j | 0 <= i < j < |out| ensures out[i] <= out[j] {
      assert out[i] == if i < k then sorted[i] else if i == k then x else sorted[i - 1];
      assert out[j] == if j < k then sorted[j] else if j == k then x else sorted[j - 1];
    }
  }

  lemma PlacedAnywhere(a: seq<real>, b: seq<real>, x: real)
    ensures SameCounts(a + [x] + b, a + b + [x])
    ensures multiset(a + [x] + b) == multiset(a + b + [x])
  {
    forall v, orAt ensures CountBelow(a + [x] + b, v, orAt) == CountBelow(a + b + [x], v, orAt) {
      CountBelowAppend(a + [x], b, v, orAt);
      CountBelowAppend(a, [x], v, orAt);
      CountBelowAppend(a, b, v, orAt);
      CountBelowAppend(a + b, [x], v, orAt);
    }
  }

  method Sort(s: seq<real>) returns (out: seq<real>)
    ensures Ascending(out) && SameCounts(out, s) && multiset(out) == multiset(s)
  {
    out := [];
    for i := 0 to |s|
      invariant Ascending(out) && SameCounts(out, s[..i]) && multiset(out) == multiset(s[..i])
    {
      ghost var before := out;
      assert s[..i + 1] == s[..i] + [s[i]];
      out := Place(out, s[i]);
      forall v, orAt ensures CountBelow(out, v, orAt) == CountBelow(s[..i + 1], v, orAt) {
        CountBelowAppend(before, [s[i]], v, orAt);
        CountBelowAppend(s[..i], [s[i]], v, orAt);
      }
    }
    assert s[..|s|] == s;
  }

  method RobustLossRate(reporters: seq<Resolved>) returns (r: Option<real>)
    ensures r.None? <==> Rates(reporters) == []
    ensures r.Some? ==> IsLowerMedian(r.value, Rates(reporters)) && r.value in Rates(reporters)
  {
    var rates := [];
    for i := 0 to |reporters|
      invariant rates == Rates(reporters[..i])
    {
      assert reporters[..i + 1][..i] == reporters[..i];
      if Counts(reporters[i]) {
        rates := rates + [Rate(reporters[i])];
      }
    }
    assert reporters[..|reporters|] == reporters;
    if rates == [] {
      return None;
    }
    var sorted := Sort(rates);
    MiddleIsLowerMedian(sorted);
    var middle := sorted[(|sorted| - 1) / 2];
    assert middle in multiset(sorted);
    assert middle in multiset(rates);
    return Some(middle);
  }

  // ----- the order of reporters ----------------------------------------------------------------------

  lemma {:induction false} RatesAppend(a: seq<Resolved>, b: seq<Resolved>)
    ensures Rates(a + b) == Rates(a) + Rates(b)
    decreases |b|
  {
    if b == [] {
      assert a + b == a;
    } else {
      var rest, x := b[..|b| - 1], b[|b| - 1];
      assert b == rest + [x];
      Regroup(a, rest, [x]);
      RatesAppend(a, rest);
      RatesLast(a + rest, x);
      RatesLast(rest, x);
      Regroup(Rates(a), Rates(rest), Voice(x));
    }
  }

  lemma Regroup<T>(a: seq<T>, b: seq<T>, c: seq<T>)
    ensures a + (b + c) == a + b + c
  {
  }

  lemma RatesLast(a: seq<Resolved>, x: Resolved)
    ensures Rates(a + [x]) == Rates(a) + Voice(x)
  {
    assert (a + [x])[..|a|] == a;
  }

  /** Taking one reporter out of the middle leaves the counts of the others. */
  lemma RatesWithout(a: seq<Resolved>, x: Resolved, b: seq<Resolved>, v: real, orAt: bool)
    ensures |Rates(a + [x] + b)| == |Rates(a + b)| + |Voice(x)|
    ensures CountBelow(Rates(a + [x] + b), v, orAt) == CountBelow(Rates(a + b), v, orAt) + CountBelow(Voice(x), v, orAt)
  {
    RatesAppend(a + [x], b);
    RatesAppend(a, [x]);
    RatesAppend(a, b);
    assert Rates([x]) == Voice(x);
    CountBelowAppend(Rates(a) + Voice(x), Rates(b), v, orAt);
    CountBelowAppend(Rates(a), Voice(x), v, orAt);
    CountBelowAppend(Rates(a), Rates(b), v, orAt);
  }

  lemma TakeOut(q: seq<Resolved>, x: Resolved) returns (a: seq<Resolved>, b: seq<Resolved>)
    requires x in multiset(q)
    ensures q == a + [x] + b && multiset(a + b) == multiset(q) - multiset{x}
  {
    var k :| 0 <= k < |q| && q[k] == x;
    a, b := q[..k], q[k + 1..];
    assert q == a + [x] + b;
    assert multiset(a + [x] + b) == multiset(a) + multiset{x} + multiset(b);
  }

  lemma {:induction false} SameCountsInAnyOrder(p: seq<Resolved>, q: seq<Resolved>, v: real, orAt: bool)
    requires multiset(p) == multiset(q)
    ensures |Rates(p)| == |Rates(q)| && CountBelow(Rates(p), v, orAt) == CountBelow(Rates(q), v, orAt)
    decreases |p|
  {
    if p == [] {
      assert |multiset(q)| == |q|;
    } else {
      var x := p[|p| - 1];
      assert x in multiset(p);
      var a, b := TakeOut(p, x);
      var c, d := TakeOut(q, x);
      SameCountsInAnyOrder(a + b, c + d, v, orAt);
      RatesWithout(a, x, b, v, orAt);
      RatesWithout(c, x, d, v, orAt);
    }
  }

  /** The same reports in any order give the same rate. */
  lemma OrderIrrelevant(p: seq<Resolved>, q: seq<Resolved>, v: real, w: real)
    requires multiset(p) == multiset(q) && IsLowerMedian(v, Rates(p)) && IsLowerMedian(w, Rates(q))
    ensures v == w
  {
    SameCountsInAnyOrder(p, q, v, false);
    SameCountsInAnyOrder(p, q, v, true);
    LowerMedianUnique(Rates(q), v, w);
  }

  // ----- what a minority can do --------------------------------------------------------------------

  /** Reporters with a say that are marked `mark`. */
  function CountMarked(rs: seq<Resolved>, honest: seq<bool>, mark: bool): nat
    requires |rs| == |honest|
  {
    if rs == [] then 0
    else
      var n := |rs| - 1;
      CountMarked(rs[..n], honest[..n], mark) + if Counts(rs[n]) && honest[n] == mark then 1 else 0
  }

  lemma {:induction false} MarkedAddUp(rs: seq<Resolved>, honest: seq<bool>)
    requires |rs| == |honest|
    ensures CountMarked(rs, honest, true) + CountMarked(rs, honest, false) == |Rates(rs)|
  {
    if rs == [] {
    } else {
      MarkedAddUp(rs[..|rs| - 1], honest[..|rs| - 1]);
    }
  }

  lemma {:induction false} HonestAllAbove(rs: seq<Resolved>, honest: seq<bool>, v: real)
    requires |rs| == |honest|
    requires forall i :: 0 <= i < |rs| && honest[i] && Counts(rs[i]) ==> Rate(rs[i]) > v
    ensures CountBelow(Rates(rs), v, true) <= CountMarked(rs, honest, false)
  {
    if rs == [] {
    } else {
      var n := |rs| - 1;
      HonestAllAbove(rs[..n], honest[..n], v);
      CountBelowAppend(Rates(rs[..n]), Voice(rs[n]), v, true);
    }
  }

  lemma {:induction false} HonestAllBelow(rs: seq<Resolved>, honest: seq<bool>, v: real)
    requires |rs| == |honest|
    requires forall i :: 0 <= i < |rs| && honest[i] && Counts(rs[i]) ==> Rate(rs[i]) < v
    ensures CountBelow(Rates(rs), v, false) >= CountMarked(rs, honest, true)
  {
    if rs == [] {
    } else {
      var n := |rs| - 1;
      HonestAllBelow(rs[..n], honest[..n], v);
      CountBelowAppend(Rates(rs[..n]), Voice(rs[n]), v, false);
    }
  }

  /** With fewer dishonest than honest reporters the rate is no lower than some honest one. */
  lemma NotBelowHonest(rs: seq<Resolved>, honest: seq<bool>, v: real)
    requires |rs| == |honest| && IsLowerMedian(v, Rates(rs))
    requires CountMarked(rs, honest, false) < CountMarked(rs, honest, true)
    ensures exists i :: 0 <= i < |rs| && honest[i] && Counts(rs[i]) && Rate(rs[i]) <= v
  {
    MarkedAddUp(rs, honest);
    if forall i :: 0 <= i < |rs| && honest[i] && Counts(rs[i]) ==> Rate(rs[i]) > v {
      HonestAllAbove(rs, honest, v);
    }
  }

  /** With no more dishonest than honest reporters the rate is no higher than some honest one. */
  lemma NotAboveHonest(rs: seq<Resolved>, honest: seq<bool>, v: real)
    requires |rs| == |honest| && IsLowerMedian(v, Rates(rs))
    requires CountMarked(rs, honest, false) <= CountMarked(rs, honest, true)
    ensures exists i :: 0 <= i < |rs| && honest[i] && Counts(rs[i]) && Rate(rs[i]) >= v
  {
    MarkedAddUp(rs, honest);
    if forall i :: 0 <= i < |rs| && honest[i] && Counts(rs[i]) ==> Rate(rs[i]) < v {
      HonestAllBelow(rs, honest, v);
    }
  }

  /** As many dishonest as honest reporters can hide any loss, and one more can invent total loss:
      both bounds above are the best possible. */
  lemma MajorityDecides(rates: seq<real>)
    requires rates != [] && forall i :: 0 <= i < |rates| ==> 0.0 < rates[i] < 1.0
    ensures IsLowerMedian(0.0, rates + seq(|rates|, _ => 0.0))
    ensures IsLowerMedian(1.0, rates + seq(|rates| + 1, _ => 1.0))
  {
    var zeros, ones := seq(|rates|, _ => 0.0), seq(|rates| + 1, _ => 1.0);
    CountBelowAppend(rates, zeros, 0.0, false);
    CountBelowAppend(rates, zeros, 0.0, true);
    CountBelowNone(rates, 0.0, false);
    CountBelowNone(zeros, 0.0, false);
    CountBelowAll(zeros, 0.0, true);
    CountBelowAppend(rates, ones, 1.0, false);
    CountBelowAppend(rates, ones, 1.0, true);
    CountBelowAll(rates, 1.0, false);
    CountBelowNone(ones, 1.0, false);
    CountBelowAll(rates, 1.0, true);
    CountBelowAll(ones, 1.0, true);
  }
}

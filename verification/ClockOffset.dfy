/** The server-clock estimate: offset and round trip from four timestamps, a 32-slot window of
    round trips that gates bad samples, and an integer moving average of what gets through. */
module ClockOffset {

  import opened Common
  import opened SerialNumbers

  const RTT_WINDOW_SAMPLES := 32
  const TOLERANCE_NS := 2_000_000

  /** The smallest element; a window is never empty when this is taken. */
  function Least(s: seq<int>): int
    requires |s| > 0
  {
    if |s| == 1 then s[0] else var m := Least(s[..|s| - 1]); if s[|s| - 1] < m then s[|s| - 1] else m
  }

  lemma {:induction false} LeastIsAMinimum(s: seq<int>)
    requires |s| > 0
    ensures Least(s) in s && forall i :: 0 <= i < |s| ==> Least(s) <= s[i]
  {
    if |s| == 1 {
    } else {
      LeastIsAMinimum(s[..|s| - 1]);
    }
  }

  lemma LeastUnique(s: seq<int>, m: int)
    requires |s| > 0 && m in s && forall i :: 0 <= i < |s| ==> m <= s[i]
    ensures m == Least(s)
  {
    LeastIsAMinimum(s);
  }

  /** The last up to 32 entries. */
  function Window(history: seq<int>): seq<int> {
    if |history| <= RTT_WINDOW_SAMPLES then history else history[|history| - RTT_WINDOW_SAMPLES..]
  }

  datatype Average = Average(offset: int, uncertainty: int, accepted: nat)

  datatype Estimate = Estimate(accepted: bool, ready: bool, offset: int, uncertainty: int)

  predicate Admits(a: Average, rtt: int, minimum: int) {
    a.accepted < 4 || rtt <= minimum + minimum / 2 + TOLERANCE_NS
  }

  function Blend(a: Average, rtt: int, offset: int): Average
    requires rtt >= 0
  {
    if a.accepted == 0 then Average(offset, rtt / 2, 1)
    else
      Average(TruncDiv(a.offset * 7 + offset, 8), TruncDiv(a.uncertainty * 7 + rtt / 2, 8), (a.accepted + 1) % UINT32)
  }

  /** The estimator's state as a value: the round trips seen since the reset, and the average. */
  datatype Tracked = Tracked(history: seq<int>, average: Average)

  function Track(t: Tracked, rtt: int, sample: int): Tracked
    requires rtt >= 0
  {
    var history := t.history + [rtt];
    Tracked(history,
            if Admits(t.average, rtt, Least(Window(history))) then Blend(t.average, rtt, sample) else t.average)
  }

  // ----- one ping -----------------------------------------------------------------------------

  /** Client send, server receive, server send, client receive, each on its own clock. */
  datatype Ping = Ping(t1: int, t2: int, t3: int, t4: int)

  function RoundTrip(p: Ping): int { (p.t4 - p.t1) - (p.t3 - p.t2) }

  function ClampedRoundTrip(p: Ping): nat { if RoundTrip(p) < 0 then 0 else RoundTrip(p) }

  function OffsetSample(p: Ping): int { TruncDiv((p.t2 - p.t1) + (p.t3 - p.t4), 2) }

  /** The server's clock is `truth` ahead of the client's and neither way takes negative time. */
  ghost predicate Physical(p: Ping, truth: int) {
    p.t2 - (p.t1 + truth) >= 0 && (p.t4 + truth) - p.t3 >= 0
  }

  function Abs(x: int): nat { if x < 0 then -x else x }

  lemma PingBound(p: Ping, truth: int)
    requires Physical(p, truth)
    ensures ClampedRoundTrip(p) == RoundTrip(p)
    ensures Abs(OffsetSample(p) - truth) <= RoundTrip(p) / 2 + 1
  {
    var out, back := p.t2 - (p.t1 + truth), (p.t4 + truth) - p.t3;
    assert RoundTrip(p) == out + back;
    assert (p.t2 - p.t1) + (p.t3 - p.t4) == 2 * truth + out - back;
  }

  // ----- every run of pings -----------------------------------------------------------------------

  ghost function After(pings: seq<Ping>): Tracked {
    if pings == [] then Tracked([], Average(0, 0, 0))
    else
      var p := pings[|pings| - 1];
      Track(After(pings[..|pings| - 1]), ClampedRoundTrip(p), OffsetSample(p))
  }

  ghost predicate Trustworthy(a: Average, truth: int) {
    a.uncertainty >= 0 && Abs(a.offset - truth) <= a.uncertainty + 15
  }

  /** Averaging in a sample keeps the bound: each truncation costs at most 7/8 ns and the next
      blend forgives an eighth of what has piled up, so it never exceeds 15 ns. */
  lemma BlendKeepsBound(a: Average, truth: int, rtt: nat, sample: int)
    requires a.accepted == 0 || Trustworthy(a, truth)
    requires Abs(sample - truth) <= rtt / 2 + 1
    ensures Trustworthy(Blend(a, rtt, sample), truth)
  {
    if a.accepted != 0 {
      var x := a.offset * 7 + sample;
      var u := a.uncertainty * 7 + rtt / 2;
      assert Abs(x - 8 * truth) <= 7 * (a.uncertainty + 15) + rtt / 2 + 1 == u + 106;
      assert 8 * TruncDiv(u, 8) >= u - 7;
      TruncWithin(x);
    }
  }

  lemma TruncWithin(x: int)
    ensures Abs(x - 8 * TruncDiv(x, 8)) <= 7
  {
  }

  /** For any run of pings with non-negative one-way delays and a constant true offset, the
      estimate is off by at most the reported uncertainty plus 15 ns. */
  lemma {:induction false} EstimateWithinUncertainty(pings: seq<Ping>, truth: int)
    requires |pings| > 0
    requires forall i :: 0 <= i < |pings| ==> Physical(pings[i], truth)
    ensures Trustworthy(After(pings).average, truth)
  {
    var n := |pings| - 1;
    PingBound(pings[n], truth);
    if n > 0 {
      EstimateWithinUncertainty(pings[..n], truth);
    } else {
      assert pings[..0] == [];
    }
    BlendKeepsBound(After(pings[..n]).average, truth, ClampedRoundTrip(pings[n]), OffsetSample(pings[n]));
  }

  lemma BlendBetween(x: int, y: int, low: int, high: int)
    requires low <= x <= high && low <= y <= high
    ensures low <= TruncDiv(x * 7 + y, 8) <= high
  {
  }

  /** Whatever the pings claim, the estimate stays within the range of their offsets; so with
      offsets below 2^60 no product in the average leaves 64 bits. */
  lemma {:induction false} EstimateWithinSamples(pings: seq<Ping>, low: int, high: int)
    requires |pings| > 0
    requires forall i :: 0 <= i < |pings| ==> low <= OffsetSample(pings[i]) <= high
    ensures low <= After(pings).average.offset <= high
    ensures -0x1000_0000_0000_0000 < low && high < 0x1000_0000_0000_0000 ==>
              forall i :: 0 <= i < |pings| ==>
                Abs(After(pings).average.offset * 7 + OffsetSample(pings[i])) < 0x8000_0000_0000_0000
  {
    var n := |pings| - 1;
    if n > 0 {
      EstimateWithinSamples(pings[..n], low, high);
      BlendBetween(After(pings[..n]).average.offset, OffsetSample(pings[n]), low, high);
    } else {
      assert pings[..0] == [];
    }
  }

  /** The gate: from the fifth accepted sample on, a sample is let in exactly when its round trip
      is within half again, plus 2 ms, of every one of the last 32. */
  lemma GateIsExact(t: Tracked, rtt: nat)
    requires t.average.accepted >= 4
    ensures var w := Window(t.history + [rtt]);
            Admits(t.average, rtt, Least(w)) <==> forall i :: 0 <= i < |w| ==> rtt <= w[i] + w[i] / 2 + TOLERANCE_NS
  {
    var w := Window(t.history + [rtt]);
    LeastIsAMinimum(w);
    var k :| 0 <= k < |w| && w[k] == Least(w);
  }

  // ----- the estimate follows the pings --------------------------------------------------------------

  /** A blend comes at least one nanosecond closer to the sample, until it is within seven. */
  lemma BlendApproaches(x: int, y: int)
    ensures Abs(TruncDiv(x * 7 + y, 8) - y) <= if Abs(x - y) > 7 then Abs(x - y) - 1 else 7
  {
    TruncWithin(x * 7 + y);
  }

  lemma TrackStep(t: Tracked, rtt: nat, sample: int, u: Tracked)
    requires u == Track(t, rtt, sample)
    ensures u.history == t.history + [rtt] && (u.average == t.average || u.average == Blend(t.average, rtt, sample))
    ensures Admits(t.average, rtt, Least(Window(u.history))) ==> u.average == Blend(t.average, rtt, sample)
  {
  }

  /** The states while pings with one round trip and one offset come in. */
  ghost predicate Repeats(run: seq<Tracked>, rtt: nat, sample: int) {
    |run| > 0 && forall i :: 0 < i < |run| ==> run[i] == Track(run[i - 1], rtt, sample)
  }

  lemma {:induction false} RepeatsFill(run: seq<Tracked>, rtt: nat, sample: int, n: nat)
    requires Repeats(run, rtt, sample) && n < |run|
    ensures |run[n].history| == |run[0].history| + n
    ensures forall i :: |run[0].history| <= i < |run[n].history| ==> run[n].history[i] == rtt
  {
    if n == 0 {
    } else {
      RepeatsFill(run, rtt, sample, n - 1);
      TrackStep(run[n - 1], rtt, sample, run[n]);
    }
  }

  /** Once the window has filled with one round trip, that round trip is let in. */
  lemma FilledAdmits(a: Average, h: seq<int>, rtt: nat)
    requires |h| >= 32 && forall i :: |h| - 32 <= i < |h| ==> h[i] == rtt
    ensures Admits(a, rtt, Least(Window(h)))
  {
    LeastIsAMinimum(Window(h));
  }

  function Closing(distance: nat, n: nat): nat {
    if distance <= 7 then 7
    else if n <= 31 then distance
    else if distance - (n - 31) > 7 then distance - (n - 31)
    else 7
  }

  lemma BlendCloser(a: Average, rtt: nat, sample: int, b: Average)
    requires b == Blend(a, rtt, sample)
    ensures Abs(b.offset - sample) <= if Abs(a.offset - sample) > 7 then Abs(a.offset - sample) - 1 else 7
    ensures Abs(b.uncertainty - rtt / 2) <=
            if Abs(a.uncertainty - rtt / 2) > 7 then Abs(a.uncertainty - rtt / 2) - 1 else 7
  {
    BlendApproaches(a.offset, sample);
    BlendApproaches(a.uncertainty, rtt / 2);
  }

  /** Whatever came before, after 31 pings with one round trip and one offset each further one brings the
      estimate at least one nanosecond closer to both, until it is within seven; and there it stays. */
  lemma {:induction false} EstimateFollows(run: seq<Tracked>, rtt: nat, sample: int, n: nat)
    requires Repeats(run, rtt, sample) && n < |run|
    ensures Abs(run[n].average.offset - sample) <= Closing(Abs(run[0].average.offset - sample), n)
    ensures Abs(run[n].average.uncertainty - rtt / 2) <= Closing(Abs(run[0].average.uncertainty - rtt / 2), n)
  {
    if n == 0 {
    } else {
      EstimateFollows(run, rtt, sample, n - 1);
      TrackStep(run[n - 1], rtt, sample, run[n]);
      BlendCloser(run[n - 1].average, rtt, sample, Blend(run[n - 1].average, rtt, sample));
      if n > 31 {
        RepeatsFill(run, rtt, sample, n);
        FilledAdmits(run[n - 1].average, run[n].history, rtt);
      }
    }
  }

  /** The first four pings are let in whatever their round trips. */
  lemma FirstFourAdmitted(t: Tracked, rtt: nat, sample: int)
    requires t.average.accepted < 4
    ensures Track(t, rtt, sample).average.accepted == t.average.accepted + 1
    ensures t.average.accepted == 0 ==> Track(t, rtt, sample).average == Average(sample, rtt / 2, 1)
  {
  }

  /** The index in [first, first + 32) that falls on ring slot j. */
  function SlotAfter(first: nat, j: nat): (k: nat)
    requires j < RTT_WINDOW_SAMPLES
    ensures first <= k < first + RTT_WINDOW_SAMPLES && k % RTT_WINDOW_SAMPLES == j
  {
    first + (j - first) % RTT_WINDOW_SAMPLES
  }

  lemma SlotsDiffer(k: int, n: int)
    requires n - RTT_WINDOW_SAMPLES < k < n
    ensures k % RTT_WINDOW_SAMPLES != n % RTT_WINDOW_SAMPLES
  {
  }

  lemma NextSlot(n: nat)
    ensures (n % RTT_WINDOW_SAMPLES + 1) % RTT_WINDOW_SAMPLES == (n + 1) % RTT_WINDOW_SAMPLES
  {
  }

  /** The last `count` of h sit in the ring at their positions modulo its size. */
  ghost predicate RingHolds(ring: seq<int>, h: seq<int>, count: nat) {
    && |ring| == RTT_WINDOW_SAMPLES
    && forall k :: |h| - count <= k < |h| && 0 <= k ==> ring[k % RTT_WINDOW_SAMPLES] == h[k]
  }

  lemma RingStep(ring: seq<int>, h: seq<int>, count: nat, count': nat, x: int)
    requires RingHolds(ring, h, count) && count' <= count + 1 && count' <= RTT_WINDOW_SAMPLES
    ensures RingHolds(ring[|h| % RTT_WINDOW_SAMPLES := x], h + [x], count')
  {
    var n := |h|;
    forall k | n + 1 - count' <= k < n + 1 && 0 <= k
      ensures ring[n % RTT_WINDOW_SAMPLES := x][k % RTT_WINDOW_SAMPLES] == (h + [x])[k]
    {
      if k < n {
        SlotsDiffer(k, n);
      }
    }
  }

  class Estimator {
    const window: array<int>
    var next: nat
    var count: nat
    var minimum: int
    var offset: int
    var uncertainty: int
    var accepted: nat
    ghost var history: seq<int>   // every round trip observed since the last reset

    ghost predicate Valid()
      reads this`next, this`count, this`history, window
    {
      && window.Length == RTT_WINDOW_SAMPLES
      && count == (if |history| < RTT_WINDOW_SAMPLES then |history| else RTT_WINDOW_SAMPLES)
      && next == |history| % RTT_WINDOW_SAMPLES
      && (forall k :: |history| - count <= k < |history| ==> window[k % RTT_WINDOW_SAMPLES] == history[k])
      && (forall k :: 0 <= k < |history| ==> history[k] >= 0)
    }

    ghost function Now(): Average
      reads this
    {
      Average(offset, uncertainty, accepted)
    }

    ghost function State(): Tracked
      reads this
    {
      Tracked(history, Now())
    }

    constructor ()
      ensures Valid() && State() == After([]) && fresh(window)
    {
      window := new int[RTT_WINDOW_SAMPLES](_ => 0);
      next, count, minimum, offset, uncertainty, accepted, history := 0, 0, 0x7FFF_FFFF_FFFF_FFFF, 0, 0, 0, [];
    }

    method Current(accept: bool) returns (e: Estimate)
      ensures e == Estimate(accept, accepted >= 4, offset, uncertainty)
    {
      e := Estimate(accept, accepted >= 4, offset, uncertainty);
    }

    /** The minimum of the filled part of the ring is the minimum of the last 32 round trips. */
    method WindowMinimum() returns (m: int)
      requires Valid() && count > 0
      ensures m == Least(Window(history))
    {
      m := window[0];
      var i := 1;
      while i < count
        invariant 1 <= i <= count
        invariant exists j :: 0 <= j < i && m == window[j]
        invariant forall j :: 0 <= j < i ==> m <= window[j]
      {
        if window[i] < m {
          m := window[i];
        }
        i := i + 1;
      }
      RingHoldsWindow(m);
    }

    lemma RingHoldsWindow(m: int)
      requires Valid() && count > 0
      requires exists j :: 0 <= j < count && m == window[j]
      requires forall j :: 0 <= j < count ==> m <= window[j]
      ensures m == Least(Window(history))
    {
      var w, first := Window(history), |history| - count;
      forall i | 0 <= i < |w| ensures m <= w[i] {
        assert w[i] == history[first + i] == window[(first + i) % RTT_WINDOW_SAMPLES];
      }
      var j :| 0 <= j < count && m == window[j];
      var k := if |history| <= RTT_WINDOW_SAMPLES then j else SlotAfter(first, j);
      assert first <= k < |history| && k % RTT_WINDOW_SAMPLES == j;
      assert w[k - first] == history[k] == m;
      LeastUnique(w, m);
    }

    /** Write the round trip into the ring, over the one observed 32 observations ago. */
    method Record(rtt: int)
      requires Valid() && rtt >= 0
      modifies this`next, this`count, this`history, window
      ensures Valid() && history == old(history) + [rtt] && count > 0
    {
      ghost var before, kept := window[..], count;
      ghost var past := history;
      window[next] := rtt;
      next := (next + 1) % RTT_WINDOW_SAMPLES;
      count := if count + 1 < RTT_WINDOW_SAMPLES then count + 1 else RTT_WINDOW_SAMPLES;
      history := history + [rtt];
      RingStep(before, past, kept, count, rtt);
      assert window[..] == before[|past| % RTT_WINDOW_SAMPLES := rtt];
      NextSlot(|past|);
    }

    method Observe(rtt: int, sample: int) returns (e: Estimate)
      requires Valid()
      modifies this, window
      ensures Valid()
      ensures rtt < 0 ==> State() == old(State()) && !e.accepted
      ensures rtt >= 0 ==>
                && State() == Track(old(State()), rtt, sample) && minimum == Least(Window(history))
                && e.accepted == Admits(old(Now()), rtt, minimum)
      ensures e == Estimate(e.accepted, accepted >= 4, offset, uncertainty)
    {
      if rtt < 0 {
        e := Current(false);
        return;
      }
      Record(rtt);
      minimum := WindowMinimum();
      if accepted >= 4 && rtt > minimum + minimum / 2 + TOLERANCE_NS {
        e := Current(false);
        return;
      }
      Fold(rtt, sample);
      e := Current(true);
    }

    /** A ping reply: derive round trip and offset, and feed the estimator. */
    method HandlePing(p: Ping) returns (e: Estimate)
      requires Valid()
      modifies this, window
      ensures Valid() && State() == Track(old(State()), ClampedRoundTrip(p), OffsetSample(p))
      ensures e.ready == (accepted >= 4) && e.offset == offset && e.uncertainty == uncertainty
    {
      var rtt, sample := ClampedRoundTrip(p), OffsetSample(p);
      e := Observe(rtt, sample);
    }

    method Fold(rtt: int, sample: int)
      requires rtt >= 0
      modifies this`offset, this`uncertainty, this`accepted
      ensures Now() == Blend(old(Now()), rtt, sample)
    {
      if accepted == 0 {
        offset := sample;
        uncertainty := rtt / 2;
      } else {
        offset := TruncDiv(offset * 7 + sample, 8);
        uncertainty := TruncDiv(uncertainty * 7 + rtt / 2, 8);
      }
      accepted := (accepted + 1) % UINT32;
    }

    method Reset()
      requires Valid()
      modifies this, window
      ensures Valid() && State() == After([])
    {
      minimum := 0x7FFF_FFFF_FFFF_FFFF;
      offset, uncertainty, accepted := 0, 0, 0;
      forall i | 0 <= i < window.Length {
        window[i] := 0x7FFF_FFFF_FFFF_FFFF;
      }
      count, next, history := 0, 0, [];
    }
  }
}

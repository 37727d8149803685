/** The arithmetic of the jitter buffer: milliseconds against packets, the rules for moving a target,
    and the playout rate that steers the queue. */
module JitterPolicy {

  import opened Common

  const MIN_PACKETS := 0
  const MAX_PACKETS := 32
  const AUTO_START_MS := 40

  function Clamp(packets: nat): nat { Min(packets, MAX_PACKETS) }

  /** A packet's length, and a span of time, in units of one millisecond-sample. */
  function PacketSpan(frame: nat): nat { frame * 1000 }

  function TimeSpan(ms: nat, rate: nat): nat { ms * rate }

  function DivDown(n: nat, d: nat): nat
    requires d > 0
  {
    n / d
  }

  function DivUp(n: nat, d: nat): nat
    requires d > 0
  {
    (n + d - 1) / d
  }

  function PacketsForMs(ms: int, rate: nat, frame: nat): nat {
    if ms <= 0 || rate == 0 || frame == 0 then MIN_PACKETS
    else Clamp(DivUp(TimeSpan(ms, rate), PacketSpan(frame)))
  }

  function PacketsWithinMs(ms: int, rate: nat, frame: nat): nat {
    if ms <= 0 || rate == 0 || frame == 0 then MIN_PACKETS
    else Clamp(DivDown(TimeSpan(ms, rate), PacketSpan(frame)))
  }

  function MsForPackets(packets: nat, rate: nat, frame: nat): nat {
    if packets == 0 || rate == 0 || frame == 0 then 0
    else DivDown(packets * PacketSpan(frame) + rate / 2, rate)
  }

  function AutoStart(floor: nat, rate: nat, frame: nat): nat {
    Clamp(Max(floor, PacketsForMs(AUTO_START_MS, rate, frame)))
  }

  // ----- what the conversions mean -----------------------------------------------------------------

  lemma Division(n: nat, d: nat)
    requires d > 0
    ensures DivDown(n, d) * d <= n < DivDown(n, d) * d + d
  {
  }

  lemma Below(a: int, b: int, d: nat)
    requires d > 0 && a * d < b * d
    ensures a < b
  {
  }

  lemma CeilDivision(n: nat, d: nat)
    requires d > 0
    ensures var q := DivUp(n, d); q * d >= n && (q > 0 ==> (q - 1) * d < n)
  {
    var q := DivUp(n, d);
    Division(n + d - 1, d);
    assert (q - 1) * d == q * d - d;
  }

  /** The fewest packets that last at least so long, as far as the limit allows. */
  lemma PacketsForMsIsLeast(ms: int, rate: nat, frame: nat)
    requires ms > 0 && rate > 0 && frame > 0
    ensures
      var p := PacketsForMs(ms, rate, frame);
      && (p < MAX_PACKETS ==> p * PacketSpan(frame) >= TimeSpan(ms, rate))
      && (p > 0 ==> (p - 1) * PacketSpan(frame) < TimeSpan(ms, rate))
  {
    LeastUpToLimit(TimeSpan(ms, rate), PacketSpan(frame));
  }

  lemma LeastUpToLimit(n: nat, d: nat)
    requires d > 0
    ensures
      var p := Clamp(DivUp(n, d));
      (p < MAX_PACKETS ==> p * d >= n) && (p > 0 ==> (p - 1) * d < n)
  {
    CeilDivision(n, d);
    SmallerMultiple(Clamp(DivUp(n, d)) - 1, DivUp(n, d) - 1, d);
  }

  lemma SmallerMultiple(a: int, b: int, d: nat)
    requires a <= b
    ensures a * d <= b * d
  {
  }

  /** The most packets that last no longer. */
  lemma PacketsWithinMsIsMost(ms: int, rate: nat, frame: nat)
    requires ms > 0 && rate > 0 && frame > 0
    ensures
      var p := PacketsWithinMs(ms, rate, frame);
      && p * PacketSpan(frame) <= TimeSpan(ms, rate)
      && (p < MAX_PACKETS ==> (p + 1) * PacketSpan(frame) > TimeSpan(ms, rate))
  {
    MostUpToLimit(TimeSpan(ms, rate), PacketSpan(frame));
  }

  lemma MostUpToLimit(n: nat, d: nat)
    requires d > 0
    ensures
      var p := Clamp(DivDown(n, d));
      p * d <= n && (p < MAX_PACKETS ==> (p + 1) * d > n)
  {
    Division(n, d);
    SmallerMultiple(Clamp(DivDown(n, d)), DivDown(n, d), d);
  }

  /** Rounding up and rounding down are at most one packet apart. */
  lemma FloorAndCeilingClose(ms: int, rate: nat, frame: nat)
    ensures PacketsWithinMs(ms, rate, frame) <= PacketsForMs(ms, rate, frame) <= PacketsWithinMs(ms, rate, frame) + 1
  {
    if ms > 0 && rate > 0 && frame > 0 {
      QuotientsClose(TimeSpan(ms, rate), PacketSpan(frame));
    }
  }

  lemma QuotientsClose(n: nat, d: nat)
    requires d > 0
    ensures DivDown(n, d) <= DivUp(n, d) <= DivDown(n, d) + 1
  {
    var q, c := DivDown(n, d), DivUp(n, d);
    Division(n, d);
    CeilDivision(n, d);
    assert (q - 1) * d == q * d - d && (c - 1) * d == c * d - d && (c + 1) * d == c * d + d && (q + 1) * d == q * d + d;
    Below(q, c + 1, d);
    if c > 0 {
      Below(c - 1, q + 1, d);
    }
  }

  // ----- there and back ----------------------------------------------------------------------------

  /** A length of n spans, rounded to whole units of r, rounds down. */
  predicate RoundsDown(n: nat, r: nat)
    requires r > 0
  {
    n % r + r / 2 < r
  }

  lemma Rounded(n: nat, r: nat)
    requires r > 0
    ensures
      var ms := (n + r / 2) / r;
      && (RoundsDown(n, r) ==> ms * r == n - n % r)
      && (!RoundsDown(n, r) ==> ms * r == n - n % r + r)
  {
    var q, m := n / r, n % r;
    assert n == q * r + m;
    if RoundsDown(n, r) {
      QuotientIs(n + r / 2, q, m + r / 2, r);
    } else {
      assert n + r / 2 == (q + 1) * r + (m + r / 2 - r);
      QuotientIs(n + r / 2, q + 1, m + r / 2 - r, r);
      assert (q + 1) * r == q * r + r;
    }
  }

  /** Packets to milliseconds and back: the same number, or one more when the duration was rounded
      up; exactly the same if and only if it rounds down or the limit caps it. */
  lemma RoundTrip(p: nat, rate: nat, frame: nat)
    requires 0 < p <= MAX_PACKETS && rate > 0 && frame > 0
    requires 2 * PacketSpan(frame) >= rate              // packets of at least half a millisecond
    ensures
      var n := p * PacketSpan(frame);
      var back := PacketsForMs(MsForPackets(p, rate, frame), rate, frame);
      && back == (if RoundsDown(n, rate) then p else Clamp(p + 1))
      && (back == p <==> RoundsDown(n, rate) || p == MAX_PACKETS)
  {
    var d, n, ms := PacketSpan(frame), p * PacketSpan(frame), MsForPackets(p, rate, frame);
    Rounded(n, rate);
    assert n >= d by {
      WholeMultiple(p, d);
    }
    MsPositive(n, d, rate);
    if RoundsDown(n, rate) {
      CeilingIs(TimeSpan(ms, rate), p, d);
    } else {
      assert (p + 1) * d == n + d;
      CeilingIs(TimeSpan(ms, rate), p + 1, d);
    }
  }

  lemma MsPositive(n: nat, d: nat, rate: nat)
    requires n >= d && 2 * d >= rate > 0
    ensures (n + rate / 2) / rate > 0
  {
    Division(n + rate / 2, rate);
  }

  lemma CeilingIs(n: nat, q: nat, d: nat)
    requires d > 0 && q > 0 && q * d - d < n <= q * d
    ensures DivUp(n, d) == q
  {
    QuotientIs(n + d - 1, q, n + d - 1 - q * d, d);
  }

  /** Packets of whole milliseconds survive unchanged. */
  lemma WholeMillisecondsExact(p: nat, rate: nat, frame: nat)
    requires 0 < p <= MAX_PACKETS && rate > 0 && frame > 0 && PacketSpan(frame) % rate == 0
    ensures PacketsForMs(MsForPackets(p, rate, frame), rate, frame) == p
  {
    var d := PacketSpan(frame);
    var k := d / rate;
    assert d == k * rate;
    assert k >= 1;
    WholeMultiple(k, rate);
    assert p * d == p * k * rate;
    QuotientIs(p * d, p * k, 0, rate);
    assert (p * d) % rate == 0 by {
      assert p * d == (p * d) / rate * rate + (p * d) % rate;
    }
    RoundTrip(p, rate, frame);
  }

  /** A target comes back as no packets at all if and only if it lasts less than half a millisecond. */
  lemma VanishesIff(p: nat, rate: nat, frame: nat)
    requires p <= MAX_PACKETS && rate > 0 && frame > 0
    ensures PacketsForMs(MsForPackets(p, rate, frame), rate, frame) == 0 <==> p * PacketSpan(frame) + rate / 2 < rate
  {
    if p > 0 {
      QuotientZero(p * PacketSpan(frame) + rate / 2, rate);
      var ms := MsForPackets(p, rate, frame);
      if ms > 0 {
        SomePackets(ms, rate, frame);
      }
    }
  }

  lemma QuotientZero(n: nat, d: nat)
    requires d > 0
    ensures DivDown(n, d) == 0 <==> n < d
  {
    if n < d {
      QuotientIs(n, 0, n, d);
    }
  }

  lemma SomePackets(ms: nat, rate: nat, frame: nat)
    requires ms > 0 && rate > 0 && frame > 0
    ensures PacketsForMs(ms, rate, frame) > 0
  {
    WholeMultiple(ms, rate);
    PacketsForMsIsLeast(ms, rate, frame);
  }

  // ----- moving a target ---------------------------------------------------------------------------

  predicate ShouldSnap(manual: bool, auto: bool, ready: bool, target: nat, floor: nat) {
    !manual && (target < floor || (!auto && !ready && target > floor))
  }

  function Snapped(manual: bool, auto: bool, ready: bool, target: nat, floor: nat): nat {
    if ShouldSnap(manual, auto, ready, target, floor) then floor else target
  }

  // ----- the playout rate --------------------------------------------------------------------------

  const DEADBAND := 0.25
  const GAIN := 0.005
  const MIN_RATIO := 0.995
  const MAX_RATIO := 1.005

  function PlayoutRatio(buffered: real, target: real): real {
    var error := buffered - target;
    var correction :=
      if error > DEADBAND then error - DEADBAND else if error < -DEADBAND then error + DEADBAND else 0.0;
    var ratio := 1.0 + correction * GAIN;
    if ratio < MIN_RATIO then MIN_RATIO else if ratio > MAX_RATIO then MAX_RATIO else ratio
  }

  /** The rate stays within half a percent, is nominal exactly in the dead band, at its limits exactly
      from 1.25 packets off, never falls as the queue grows, and treats too much and too little alike. */
  lemma PlayoutRatioShape(a: real, b: real, target: real)
    ensures MIN_RATIO <= PlayoutRatio(a, target) <= MAX_RATIO
    ensures PlayoutRatio(a, target) == 1.0 <==> -DEADBAND <= a - target <= DEADBAND
    ensures PlayoutRatio(a, target) == MAX_RATIO <==> a - target >= 1.25
    ensures PlayoutRatio(a, target) == MIN_RATIO <==> a - target <= -1.25
    ensures a <= b ==> PlayoutRatio(a, target) <= PlayoutRatio(b, target)
    ensures a - target == target - b ==> PlayoutRatio(a, target) - 1.0 == 1.0 - PlayoutRatio(b, target)
  {
  }
}

/** The bitrate controller: falls fast under loss or delay, climbs back slowly, and spends on a
    duplicate only what the configured budget leaves. */
module Bitrate {

  import opened Common

  const MIN_BITRATE := 32000
  const STEP := 8000
  const HEALTHY_INTERVALS := 3

  datatype State = State(target: int, maximum: int, depth: int, healthy: nat)

  /** What one interval reported. */
  datatype Feedback = Feedback(loss: real, rttMs: real)

  predicate Severe(f: Feedback) { f.loss >= 0.05 || f.rttMs >= 250.0 }

  predicate Impaired(f: Feedback) { f.loss >= 0.01 || f.rttMs >= 150.0 }

  function Clipped(f: Feedback): Feedback {
    f.(loss := if f.loss < 0.0 then 0.0 else if f.loss > 1.0 then 1.0 else f.loss)
  }

  function Update(given: State, raw: Feedback): State {
    var f := Clipped(raw);
    var maximum := Max(given.maximum, MIN_BITRATE);
    var s := given.(maximum := maximum, target := Min(Max(given.target, MIN_BITRATE), maximum));
    if Severe(f) then
      s.(target := Max(MIN_BITRATE, s.target - Max(STEP, s.target / 4)), depth := 0, healthy := 0)
    else if Impaired(f) then
      var target := Max(MIN_BITRATE, s.target - STEP);
      s.(target := target, depth := if f.loss < 0.03 && target * 2 <= maximum then 1 else 0, healthy := 0)
    else if s.healthy + 1 >= HEALTHY_INTERVALS then
      s.(target := Min(maximum, s.target + STEP), depth := -1, healthy := 0)
    else
      s.(healthy := s.healthy + 1)
  }

  function After(s: State, fs: seq<Feedback>): State {
    if fs == [] then s else Update(After(s, fs[..|fs| - 1]), fs[|fs| - 1])
  }

  // ----- what every run keeps ----------------------------------------------------------------------

  /** Within bounds, and a duplicate only where twice the rate fits the maximum. */
  predicate Safe(s: State) {
    && MIN_BITRATE <= s.target <= s.maximum && s.healthy < HEALTHY_INTERVALS
    && -1 <= s.depth <= 1 && (s.depth == 1 ==> 2 * s.target <= s.maximum)
  }

  lemma {:induction false} AlwaysSafe(s: State, fs: seq<Feedback>)
    requires Safe(s)
    ensures Safe(After(s, fs)) && After(s, fs).maximum == s.maximum
  {
    if fs == [] {
    } else {
      AlwaysSafe(s, fs[..|fs| - 1]);
    }
  }

  /** Any starting values become safe with the first interval, but for an old duplicate kept through
      healthy ones: it takes the third of those, or any impaired one, to settle it. */
  lemma FirstUpdateSafe(s: State, f: Feedback)
    requires s.healthy < HEALTHY_INTERVALS && -1 <= s.depth <= 1
    ensures
      var e := Update(s, f);
      && MIN_BITRATE <= e.target <= e.maximum && e.maximum == Max(s.maximum, MIN_BITRATE)
      && (Safe(e) <==> s.depth != 1 || Impaired(Clipped(f)) || s.healthy == 2 || 2 * e.target <= e.maximum)
  {
  }

  /** Worse feedback never earns a higher rate. */
  lemma WorseIsNoHigher(s: State, f: Feedback, g: Feedback)
    requires Safe(s) && f.loss <= g.loss && f.rttMs <= g.rttMs
    ensures Update(s, g).target <= Update(s, f).target
  {
  }

  /** The raw feedback decides: 5% or 250 ms is severe, 1% or 150 ms impaired. A duplicate is sent after an
      impaired interval that was not severe, had under 3% loss and left a rate that fits the maximum twice, or
      is kept through the first two healthy ones. */
  lemma DuplicateIff(s: State, f: Feedback)
    requires Safe(s)
    ensures
      var e := Update(s, f);
      e.depth == 1 <==>
        if f.loss >= 0.05 || f.rttMs >= 250.0 then false
        else if f.loss >= 0.01 || f.rttMs >= 150.0 then f.loss < 0.03 && 2 * e.target <= s.maximum
        else s.depth == 1 && s.healthy < 2
  {
  }

  /** A severe interval takes at least a quarter off, down to the floor; nothing but a severe one takes more than
      8000, and only the third healthy one in a row adds anything. */
  lemma SevereTakesAQuarter(s: State, f: Feedback)
    requires Safe(s)
    ensures
      var t, severe, impaired :=
        Update(s, f).target, f.loss >= 0.05 || f.rttMs >= 250.0, f.loss >= 0.01 || f.rttMs >= 150.0;
      && (severe ==> t == MIN_BITRATE || (4 * t <= 3 * s.target + 3 && t <= s.target - 8000))
      && (severe ==> t == MIN_BITRATE || t == s.target - 8000 || 4 * t >= 3 * s.target)
      && (!severe ==> t >= s.target - 8000)
      && (t > s.target <==> !severe && !impaired && s.healthy == 2 && s.target < s.maximum)
  {
  }

  // ----- how fast it moves -------------------------------------------------------------------------

  /** The least k with 8000k >= distance. */
  function Steps(distance: nat): (k: nat)
    ensures STEP * k >= distance && (k > 0 ==> STEP * (k - 1) < distance)
  {
    (distance + STEP - 1) / STEP
  }

  /** n impaired intervals in a row take the rate down 8000 each, severe ones at least that. */
  lemma {:induction false} ImpairedRun(s: State, fs: seq<Feedback>)
    requires Safe(s) && forall i :: 0 <= i < |fs| ==> Impaired(Clipped(fs[i]))
    ensures After(s, fs).target <= Max(MIN_BITRATE, s.target - STEP * |fs|)
    ensures (forall i :: 0 <= i < |fs| ==> !Severe(Clipped(fs[i]))) ==>
              After(s, fs).target == Max(MIN_BITRATE, s.target - STEP * |fs|)
  {
    if fs == [] {
    } else {
      var n := |fs| - 1;
      ImpairedRun(s, fs[..n]);
      AlwaysSafe(s, fs[..n]);
    }
  }

  /** Congestion brings it to the floor within ceil((target - 32000) / 8000) intervals, and more of
      it keeps it there. */
  lemma ReachesFloor(s: State, fs: seq<Feedback>)
    requires Safe(s) && (forall i :: 0 <= i < |fs| ==> Impaired(Clipped(fs[i])))
    requires |fs| >= Steps(s.target - MIN_BITRATE)
    ensures After(s, fs).target == MIN_BITRATE
  {
    ImpairedRun(s, fs);
    AlwaysSafe(s, fs);
  }

  /** Exactly where n healthy intervals lead, whatever share of a step had been earned before. */
  lemma {:induction false} HealthyRun(s: State, fs: seq<Feedback>)
    requires Safe(s) && forall i :: 0 <= i < |fs| ==> !Impaired(Clipped(fs[i]))
    ensures After(s, fs).target == Min(s.maximum, s.target + STEP * ((s.healthy + |fs|) / HEALTHY_INTERVALS))
    ensures After(s, fs).healthy == (s.healthy + |fs|) % HEALTHY_INTERVALS
  {
    if fs == [] {
    } else {
      var n := |fs| - 1;
      HealthyRun(s, fs[..n]);
      AlwaysSafe(s, fs[..n]);
      HealthyStep(After(s, fs[..n]), fs[n]);
      Thirds(s.healthy + n);
    }
  }

  lemma HealthyStep(s: State, f: Feedback)
    requires Safe(s) && !Impaired(Clipped(f))
    ensures
      var earned := s.healthy == HEALTHY_INTERVALS - 1;
      && Update(s, f).target == (if earned then Min(s.maximum, s.target + STEP) else s.target)
      && Update(s, f).healthy == (if earned then 0 else s.healthy + 1)
  {
  }

  lemma Thirds(n: nat)
    ensures (n + 1) % 3 == if n % 3 == 2 then 0 else n % 3 + 1
    ensures (n + 1) / 3 == if n % 3 == 2 then n / 3 + 1 else n / 3
  {
  }

  /** The maximum is back after n healthy intervals if and only if three for each missing step have
      been earned; 3 * ceil((max - target) / 8000) are always enough. */
  lemma RestoresMaximum(s: State, fs: seq<Feedback>)
    requires Safe(s) && forall i :: 0 <= i < |fs| ==> !Impaired(Clipped(fs[i]))
    ensures After(s, fs).target == s.maximum <==> s.healthy + |fs| >= HEALTHY_INTERVALS * Steps(s.maximum - s.target)
    ensures |fs| >= HEALTHY_INTERVALS * Steps(s.maximum - s.target) ==> After(s, fs).target == s.maximum
  {
    HealthyRun(s, fs);
    var earned, k := (s.healthy + |fs|) / HEALTHY_INTERVALS, Steps(s.maximum - s.target);
    assert earned >= k <==> s.healthy + |fs| >= HEALTHY_INTERVALS * k;
    assert earned >= k <==> STEP * earned >= s.maximum - s.target;
  }
}

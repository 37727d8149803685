/** One participant's jitter target: set by the user, by the arrival of packets of a new length, and
    by a controller that judges windows of 200 playout callbacks. */
module AutoJitter {

  import opened Common
  import opened JitterPolicy

  const RATE := 48000
  const WINDOW_CALLBACKS := 200
  const EVENTS_BEFORE_INCREASE := 3
  const DEFAULT_PACKETS := 2
  const MAX_AGE_MS := 250

  datatype Jitter = Jitter(
    target: nat, floor: nat, autoFloor: nat, auto: bool, manual: bool, overrideMs: int,
    callbacks: nat, events: nat, queueLimit: nat, frame: nat, ready: bool)

  /** What a setter or an arrival finds around the participant: the age limit, the global target, the
      local packet length and the packets queued. */
  datatype Setting = Setting(ageMs: int, globalMs: int, networkFrame: nat, queued: nat)

  const INITIAL := Jitter(3, 3, DEFAULT_PACKETS, false, false, 0, 0, 0, 128, 0, false)

  function FrameOf(j: Jitter, s: Setting): nat { if j.frame > 0 then j.frame else s.networkFrame }

  /** A target in packets, no longer than packets are allowed to age. */
  function WithinAge(ms: int, frame: nat, ageMs: int): nat {
    var p := PacketsForMs(ms, RATE, frame);
    if ageMs > 0 then Min(p, PacketsWithinMs(ageMs, RATE, frame)) else p
  }

  function MaxTarget(frame: nat, ageMs: int): nat {
    if ageMs > 0 && frame > 0 then Max(MIN_PACKETS, PacketsWithinMs(ageMs, RATE, frame)) else MAX_PACKETS
  }

  function ClampMs(ms: int, ageMs: int): int {
    var c := Max(0, Min(ms, MAX_AGE_MS));
    if ageMs > 0 then Min(c, ageMs) else c
  }

  // ----- the policy and its setters ----------------------------------------------------------------

  function ApplyPolicy(j: Jitter, floorPackets: nat, autoStart: nat, auto: bool, reset: bool, queued: nat): Jitter {
    var floor := Clamp(floorPackets);
    var target := if auto then Max(floor, Clamp(autoStart)) else floor;
    var k := j.(auto := auto, autoFloor := floor, callbacks := 0, events := 0, floor := floor);
    if reset || j.target < target then
      k.(target := target, queueLimit := Max(j.queueLimit, target + 3), ready := j.ready && queued >= Max(1, target))
    else k
  }

  function ApplyMs(j: Jitter, s: Setting, ms: int, auto: bool, reset: bool): Jitter {
    var floor := WithinAge(ms, FrameOf(j, s), s.ageMs);
    ApplyPolicy(j, floor, AutoStart(floor, RATE, FrameOf(j, s)), auto, reset, s.queued)
  }

  function SetManual(j: Jitter, s: Setting, ms: int): Jitter {
    var clamped := ClampMs(ms, s.ageMs);
    var p := WithinAge(clamped, FrameOf(j, s), s.ageMs);
    j.(manual := true, overrideMs := clamped, auto := false, floor := p, target := p,
       queueLimit := Max(j.queueLimit, p), ready := j.ready && s.queued >= Max(1, p))
  }

  /** The age limit's share in one participant. */
  function LimitAge(j: Jitter, s: Setting, ageMs: int): Jitter {
    var most := PacketsWithinMs(ageMs, RATE, FrameOf(j, s));
    if ageMs <= 0 || j.target <= most then j
    else j.(target := most, floor := Min(j.floor, most), autoFloor := Min(j.autoFloor, most))
  }

  /** A packet of `frame` samples arrives. */
  function Arrived(j: Jitter, s: Setting, frame: nat): Jitter {
    if j.manual then
      var p := WithinAge(j.overrideMs, frame, s.ageMs);
      j.(floor := p, target := p, ready := j.ready && (j.target == p || s.queued >= Max(1, p)), frame := frame)
    else
      var floor := WithinAge(s.globalMs, frame, s.ageMs);
      var k := j.(autoFloor := floor);
      if j.frame == 0 || j.frame != frame then
        ApplyPolicy(k, floor, AutoStart(floor, RATE, frame), j.auto, true, s.queued).(frame := frame)
      else
        k.(floor := floor, target := Snapped(j.manual, j.auto, j.ready, j.target, floor))
  }

  // ----- the controller ----------------------------------------------------------------------------

  predicate Active(j: Jitter) { j.auto && !j.manual }

  /** The target after a window with so many events, when `floor` and `most` bound it. */
  function Judged(target: nat, events: nat, floor: nat, most: nat): nat {
    var t := Min(target, most);
    if events >= EVENTS_BEFORE_INCREASE then (if t < most then Min(most, Max(3, t + 1)) else t)
    else if events == 0 && t > floor then t - 1
    else t
  }

  function WindowDone(j: Jitter, ageMs: int): Jitter {
    var most := MaxTarget(j.frame, ageMs);
    var next := Judged(j.target, j.events, Clamp(j.autoFloor), most);
    var raised := next > Min(j.target, most);
    j.(callbacks := 0, events := 0, target := next, floor := if next == j.target then j.floor else next,
       queueLimit := if raised then Max(j.queueLimit, next + 3) else j.queueLimit)
  }

  function Observed(j: Jitter, ageMs: int, unstable: bool): Jitter {
    if !Active(j) then j
    else
      var k := j.(events := if unstable then j.events + 1 else j.events, callbacks := j.callbacks + 1);
      if k.callbacks >= WINDOW_CALLBACKS then WindowDone(k, ageMs) else k
  }

  // ----- every run stays in range ------------------------------------------------------------------

  datatype Action =
    | GlobalMs(s: Setting, ms: int, opus: bool)  // also after a change of the local packet length
    | AutoDefault(s: Setting, enabled: bool)
    | ManualMs(s: Setting, ms: int)
    | Reset(s: Setting)
    | SetAuto(s: Setting, enabled: bool)
    | AgeLimit(s: Setting, ageMs: int)
    | Arrive(s: Setting, frame: nat)
    | Callback(ageMs: int, unstable: bool)

  /** A global target passes over a manual one, and over a sender not known to use Opus with a low floor. */
  predicate Keeps(j: Jitter, opus: bool) { j.manual || !(opus || j.floor >= DEFAULT_PACKETS) }

  function Step(j: Jitter, a: Action): Jitter {
    match a
    case GlobalMs(s, ms, opus) => if Keeps(j, opus) then j else ApplyMs(j, s, ClampMs(ms, s.ageMs), j.auto, true)
    case AutoDefault(s, on) => if j.manual then j else ApplyMs(j, s, s.globalMs, on, !on)
    case ManualMs(s, ms) => SetManual(j, s, ms)
    case Reset(s) => ApplyMs(j.(manual := false, overrideMs := 0), s, s.globalMs, false, true)
    case SetAuto(s, on) => ApplyMs(j.(manual := false, overrideMs := 0), s, s.globalMs, on, !on)
    case AgeLimit(s, age) => LimitAge(j, s, age)
    case Arrive(s, frame) => Arrived(j, s, frame)
    case Callback(age, unstable) => Observed(j, age, unstable)
  }

  function After(acts: seq<Action>): Jitter {
    if acts == [] then INITIAL else Step(After(acts[..|acts| - 1]), acts[|acts| - 1])
  }

  predicate InRange(j: Jitter) { j.target <= MAX_PACKETS && j.floor <= MAX_PACKETS && j.autoFloor <= MAX_PACKETS }

  lemma WithinAgeInRange(ms: int, frame: nat, ageMs: int)
    ensures WithinAge(ms, frame, ageMs) <= MAX_PACKETS
  {
  }

  lemma PolicyInRange(j: Jitter, floor: nat, autoStart: nat, auto: bool, reset: bool, queued: nat)
    requires InRange(j)
    ensures InRange(ApplyPolicy(j, floor, autoStart, auto, reset, queued))
  {
  }

  lemma ArrivedInRange(j: Jitter, s: Setting, frame: nat)
    requires InRange(j)
    ensures InRange(Arrived(j, s, frame))
  {
    var floor := WithinAge(s.globalMs, frame, s.ageMs);
    WithinAgeInRange(s.globalMs, frame, s.ageMs);
    WithinAgeInRange(j.overrideMs, frame, s.ageMs);
    PolicyInRange(j.(autoFloor := floor), floor, AutoStart(floor, RATE, frame), j.auto, true, s.queued);
  }

  lemma ObservedInRange(j: Jitter, ageMs: int, unstable: bool)
    requires InRange(j) && j.callbacks < WINDOW_CALLBACKS && j.events <= j.callbacks
    ensures
      var k := Observed(j, ageMs, unstable);
      InRange(k) && k.callbacks < WINDOW_CALLBACKS && k.events <= k.callbacks
  {
  }

  lemma ApplyMsInRange(j: Jitter, s: Setting, ms: int, auto: bool, reset: bool)
    requires InRange(j)
    ensures var k := ApplyMs(j, s, ms, auto, reset); InRange(k) && k.callbacks == k.events == 0
  {
    var floor := WithinAge(ms, FrameOf(j, s), s.ageMs);
    PolicyInRange(j, floor, AutoStart(floor, RATE, FrameOf(j, s)), auto, reset, s.queued);
  }

  lemma StepInRange(j: Jitter, a: Action)
    requires InRange(j) && j.callbacks < WINDOW_CALLBACKS && j.events <= j.callbacks
    ensures
      var k := Step(j, a);
      InRange(k) && k.callbacks < WINDOW_CALLBACKS && k.events <= k.callbacks
  {
    match a
    case GlobalMs(s, ms, _) => ApplyMsInRange(j, s, ClampMs(ms, s.ageMs), j.auto, true);
    case AutoDefault(s, on) => ApplyMsInRange(j, s, s.globalMs, on, !on);
    case ManualMs(s, ms) => WithinAgeInRange(ClampMs(ms, s.ageMs), FrameOf(j, s), s.ageMs);
    case Reset(s) => ApplyMsInRange(j.(manual := false, overrideMs := 0), s, s.globalMs, false, true);
    case SetAuto(s, on) => ApplyMsInRange(j.(manual := false, overrideMs := 0), s, s.globalMs, on, !on);
    case AgeLimit(_, _) =>
    case Arrive(s, frame) => ArrivedInRange(j, s, frame);
    case Callback(age, unstable) => ObservedInRange(j, age, unstable);
  }

  /** Through every setter, arrival and window, the target and both floors stay within the limits. */
  lemma {:induction false} AlwaysInRange(acts: seq<Action>)
    ensures InRange(After(acts)) && After(acts).callbacks < WINDOW_CALLBACKS
    ensures After(acts).events <= After(acts).callbacks
  {
    if acts == [] {
    } else {
      AlwaysInRange(acts[..|acts| - 1]);
      StepInRange(After(acts[..|acts| - 1]), acts[|acts| - 1]);
    }
  }

  // ----- what windows do ---------------------------------------------------------------------------

  function Observations(j: Jitter, ageMs: int, window: seq<bool>): Jitter {
    if window == [] then j
    else Observed(Observations(j, ageMs, window[..|window| - 1]), ageMs, window[|window| - 1])
  }

  function Events(window: seq<bool>): nat {
    if window == [] then 0 else Events(window[..|window| - 1]) + if window[|window| - 1] then 1 else 0
  }

  lemma {:induction false} WindowCollects(j: Jitter, ageMs: int, window: seq<bool>)
    requires Active(j) && j.callbacks == j.events == 0 && |window| < WINDOW_CALLBACKS
    ensures Observations(j, ageMs, window) == j.(callbacks := |window|, events := Events(window))
  {
    if window == [] {
    } else {
      WindowCollects(j, ageMs, window[..|window| - 1]);
    }
  }

  /** 200 callbacks are judged once, at the end, by the number of unstable ones. */
  lemma WindowJudged(j: Jitter, ageMs: int, window: seq<bool>)
    requires Active(j) && j.callbacks == j.events == 0 && |window| == WINDOW_CALLBACKS
    ensures
      var k := Observations(j, ageMs, window);
      && k.target == Judged(j.target, Events(window), Clamp(j.autoFloor), MaxTarget(j.frame, ageMs))
      && Active(k) && k.callbacks == k.events == 0 && k.autoFloor == j.autoFloor && k.frame == j.frame
      && k.floor == (if k.target == j.target then j.floor else k.target)
      && j.queueLimit <= k.queueLimit && (k.target > j.target ==> k.queueLimit >= k.target + 3)
  {
    var n := |window| - 1;
    WindowCollects(j, ageMs, window[..n]);
    assert Observed(Observations(j, ageMs, window[..n]), ageMs, window[n])
        == WindowDone(j.(callbacks := WINDOW_CALLBACKS, events := Events(window)), ageMs);
  }

  /** A run of whole windows. */
  function Windows(j: Jitter, ageMs: int, ws: seq<seq<bool>>): Jitter {
    if ws == [] then j else Observations(Windows(j, ageMs, ws[..|ws| - 1]), ageMs, ws[|ws| - 1])
  }

  ghost predicate WholeWindows(j: Jitter, ws: seq<seq<bool>>) {
    Active(j) && j.callbacks == j.events == 0 && forall i :: 0 <= i < |ws| ==> |ws[i]| == WINDOW_CALLBACKS
  }

  lemma {:induction false} WindowsKeep(j: Jitter, ageMs: int, ws: seq<seq<bool>>)
    requires WholeWindows(j, ws)
    ensures
      var k := Windows(j, ageMs, ws);
      Active(k) && k.callbacks == k.events == 0 && k.autoFloor == j.autoFloor && k.frame == j.frame
  {
    if ws == [] {
    } else {
      var n := |ws| - 1;
      WindowsKeep(j, ageMs, ws[..n]);
      WindowJudged(Windows(j, ageMs, ws[..n]), ageMs, ws[n]);
    }
  }

  /** Quiet windows lower an in-range target by one each, down to the floor and no further. */
  lemma {:induction false} QuietWindows(j: Jitter, ageMs: int, ws: seq<seq<bool>>)
    requires WholeWindows(j, ws) && (forall i :: 0 <= i < |ws| ==> Events(ws[i]) == 0)
    requires Clamp(j.autoFloor) <= j.target <= MaxTarget(j.frame, ageMs)
    ensures Windows(j, ageMs, ws).target == Max(Clamp(j.autoFloor), j.target - |ws|)
  {
    if ws == [] {
    } else {
      var n := |ws| - 1;
      QuietWindows(j, ageMs, ws[..n]);
      WindowsKeep(j, ageMs, ws[..n]);
      WindowJudged(Windows(j, ageMs, ws[..n]), ageMs, ws[n]);
    }
  }

  /** Unstable windows raise it, at once to three and then by one each, up to the age-limited maximum
      and no further. */
  lemma {:induction false} UnstableWindows(j: Jitter, ageMs: int, ws: seq<seq<bool>>)
    requires WholeWindows(j, ws) && (forall i :: 0 <= i < |ws| ==> Events(ws[i]) >= EVENTS_BEFORE_INCREASE)
    requires j.target <= MaxTarget(j.frame, ageMs)
    ensures Windows(j, ageMs, ws).target ==
            if ws == [] then j.target else Min(MaxTarget(j.frame, ageMs), Max(j.target + |ws|, |ws| + 2))
  {
    if ws == [] {
    } else {
      var n := |ws| - 1;
      UnstableWindows(j, ageMs, ws[..n]);
      WindowsKeep(j, ageMs, ws[..n]);
      WindowJudged(Windows(j, ageMs, ws[..n]), ageMs, ws[n]);
    }
  }

  /** One or two events leave an in-range target alone; any window brings a target that is too old
      within the age limit. */
  lemma OtherWindows(j: Jitter, ageMs: int, window: seq<bool>)
    requires WholeWindows(j, [window]) && |window| == WINDOW_CALLBACKS
    ensures
      var k, most := Observations(j, ageMs, window), MaxTarget(j.frame, ageMs);
      && k.target <= most
      && (0 < Events(window) < EVENTS_BEFORE_INCREASE && j.target <= most ==> k.target == j.target)
  {
    WindowJudged(j, ageMs, window);
  }

  // ----- the age limit between windows -------------------------------------------------------------

  /** The automatic start for packets of this length lasts no longer than packets may age. */
  predicate StartFits(frame: nat, ageMs: int) { PacketsForMs(AUTO_START_MS, RATE, frame) <= MaxTarget(frame, ageMs) }

  /** What can be seen before a step that sets the target: does it leave a target within the limit? */
  predicate LeavesWithinAge(j: Jitter, a: Action) {
    match a
    case GlobalMs(s, _, opus) =>
      if Keeps(j, opus) then j.target <= MaxTarget(j.frame, s.ageMs) else !j.auto || StartFits(j.frame, s.ageMs)
    case AutoDefault(s, on) =>
      if j.manual then j.target <= MaxTarget(j.frame, s.ageMs)
      else !on || (StartFits(j.frame, s.ageMs) && j.target <= MaxTarget(j.frame, s.ageMs))
    case ManualMs(_, _) => true
    case Reset(_) => true
    case SetAuto(s, on) => !on || (StartFits(j.frame, s.ageMs) && j.target <= MaxTarget(j.frame, s.ageMs))
    case AgeLimit(_, _) => true
    case Arrive(s, frame) =>
      if j.manual then true
      else if j.frame != frame then !j.auto || StartFits(frame, s.ageMs)
      else
        || ShouldSnap(j.manual, j.auto, j.ready, j.target, WithinAge(s.globalMs, frame, s.ageMs))
        || j.target <= MaxTarget(frame, s.ageMs)
    case Callback(age, _) =>
      j.target <= MaxTarget(j.frame, age) || (Active(j) && j.callbacks + 1 >= WINDOW_CALLBACKS)
  }

  /** The limit in force at a step. */
  function LimitOf(a: Action): int {
    match a
    case AgeLimit(_, age) => age
    case Callback(age, _) => age
    case _ => a.s.ageMs
  }

  lemma WithinAgeFits(ms: int, frame: nat, ageMs: int)
    requires ageMs > 0 && frame > 0
    ensures WithinAge(ms, frame, ageMs) <= MaxTarget(frame, ageMs)
  {
  }

  lemma PolicyWithinAge(j: Jitter, ms: int, s: Setting, frame: nat, auto: bool, reset: bool)
    requires s.ageMs > 0 && frame > 0 && InRange(j)
    ensures
      var floor := WithinAge(ms, frame, s.ageMs);
      var k := ApplyPolicy(j, floor, AutoStart(floor, RATE, frame), auto, reset, s.queued);
      k.target <= MaxTarget(frame, s.ageMs) <==>
        && (auto ==> StartFits(frame, s.ageMs))
        && (!reset ==> j.target <= MaxTarget(frame, s.ageMs))
  {
    WithinAgeFits(ms, frame, s.ageMs);
  }

  lemma ArrivedWithinAgeIff(j: Jitter, s: Setting, frame: nat)
    requires InRange(j) && s.ageMs > 0 && Arrived(j, s, frame).frame > 0
    ensures Arrived(j, s, frame).target <= MaxTarget(Arrived(j, s, frame).frame, s.ageMs) <==>
            LeavesWithinAge(j, Arrive(s, frame))
  {
    WithinAgeFits(j.overrideMs, frame, s.ageMs);
    WithinAgeFits(s.globalMs, frame, s.ageMs);
    PolicyWithinAge(j.(autoFloor := WithinAge(s.globalMs, frame, s.ageMs)), s.globalMs, s, frame, j.auto, true);
  }

  /** Between windows the target respects the age limit exactly under that condition: setters and
      arrivals cut the floor to the limit, but not the automatic start, nor a target they keep. */
  lemma WithinAgeIff(j: Jitter, a: Action)
    requires InRange(j) && LimitOf(a) > 0 && Step(j, a).frame > 0
    ensures Step(j, a).target <= MaxTarget(Step(j, a).frame, LimitOf(a)) <==> LeavesWithinAge(j, a)
  {
    match a
    case GlobalMs(s, ms, _) => PolicyWithinAge(j, ClampMs(ms, s.ageMs), s, j.frame, j.auto, true);
    case AutoDefault(s, on) => PolicyWithinAge(j, s.globalMs, s, j.frame, on, !on);
    case ManualMs(s, ms) => WithinAgeFits(ClampMs(ms, s.ageMs), j.frame, s.ageMs);
    case Reset(s) => PolicyWithinAge(j.(manual := false, overrideMs := 0), s.globalMs, s, j.frame, false, true);
    case SetAuto(s, on) => PolicyWithinAge(j.(manual := false, overrideMs := 0), s.globalMs, s, j.frame, on, !on);
    case AgeLimit(_, _) =>
    case Arrive(s, frame) => ArrivedWithinAgeIff(j, s, frame);
    case Callback(age, unstable) =>
  }

  /** A run that shows it: packets of 10 ms under a limit of 20 ms, and the controller starts at four
      packets where two may wait. */
  lemma StartIgnoresAgeLimit()
    ensures
      var s := Setting(20, 20, 480, 0);
      var j := After([Arrive(s, 480), SetAuto(s, true)]);
      j.target == 4 && MaxTarget(j.frame, s.ageMs) == 2
  {
    var s := Setting(20, 20, 480, 0);
    var run := [Arrive(s, 480), SetAuto(s, true)];
    assert PacketsForMs(20, 48000, 480) == 2 && PacketsForMs(40, 48000, 480) == 4;
    assert PacketsWithinMs(20, 48000, 480) == 2;
    assert run[..1] == [Arrive(s, 480)] && run[..1][..0] == [];
    assert After(run[..1]) == Step(INITIAL, Arrive(s, 480));
    assert After(run[..1]).target == 2 && After(run[..1]).frame == 480;
  }

  // ----- what a target in milliseconds means ---------------------------------------------------------

  /** p packets of `frame` samples last at least, or at most, so many milliseconds at 48 kHz. */
  predicate LastAtLeast(p: nat, frame: nat, ms: int) { p * (frame * 1000) >= ms * 48000 }

  predicate LastAtMost(p: nat, frame: nat, ms: int) { p * (frame * 1000) <= ms * 48000 }

  /** p is the fewest packets that last `ms`, unless the limit of 32 or the age limit cuts it shorter. */
  predicate Answers(p: nat, ms: int, frame: nat, ageMs: int) {
    if ms <= 0 || frame == 0 then p == 0
    else
      && p <= 32
      && (p > 0 ==> !LastAtLeast(p - 1, frame, ms))
      && (ageMs > 0 ==> LastAtMost(p, frame, ageMs))
      && (LastAtLeast(p, frame, ms) || p == 32 || (ageMs > 0 && !LastAtMost(p + 1, frame, ageMs)))
  }

  lemma FewerStillShort(p: nat, q: nat, frame: nat, ms: int)
    requires 0 < p <= q && !LastAtLeast(q - 1, frame, ms)
    ensures !LastAtLeast(p - 1, frame, ms)
  {
    SmallerMultiple(p - 1, q - 1, frame * 1000);
  }

  lemma FewerStillFit(p: nat, q: nat, frame: nat, ms: int)
    requires p <= q && LastAtMost(q, frame, ms)
    ensures LastAtMost(p, frame, ms)
  {
    SmallerMultiple(p, q, frame * 1000);
  }

  lemma WithinAgeAnswers(ms: int, frame: nat, ageMs: int)
    ensures Answers(WithinAge(ms, frame, ageMs), ms, frame, ageMs)
  {
    if ms > 0 && frame > 0 {
      var p, q := PacketsForMs(ms, RATE, frame), PacketsWithinMs(ageMs, RATE, frame);
      PacketsForMsIsLeast(ms, RATE, frame);
      if ageMs > 0 {
        PacketsWithinMsIsMost(ageMs, RATE, frame);
        if 0 < q < p {
          FewerStillShort(q, p, frame, ms);
        } else if p <= q {
          FewerStillFit(p, q, frame, ageMs);
        }
      }
    }
  }

  /** c is the wish brought into 0 to 250 ms and below the age limit. */
  predicate Brought(c: int, ms: int, ageMs: int) {
    var most := if 0 < ageMs < 250 then ageMs else 250;
    0 <= c <= most && (0 <= ms <= most ==> c == ms) && (ms < 0 ==> c == 0) && (ms > most ==> c == most)
  }

  /** The queue has room for the new target, and playback goes on only if that many packets, at least one, wait. */
  predicate Prepared(j: Jitter, s: Setting, k: Jitter) {
    && k.queueLimit >= j.queueLimit && k.queueLimit >= k.target
    && (k.ready <==> j.ready && s.queued >= 1 && s.queued >= k.target)
  }

  /** A target set by hand is the number of packets that the wish asks for. */
  lemma ManualAnswers(j: Jitter, s: Setting, ms: int, f: nat)
    requires f == if j.frame > 0 then j.frame else s.networkFrame
    ensures
      var k := Step(j, ManualMs(s, ms));
      && k.manual && !k.auto && Brought(k.overrideMs, ms, s.ageMs)
      && k.target == k.floor && Answers(k.target, k.overrideMs, f, s.ageMs) && Prepared(j, s, k)
  {
    WithinAgeAnswers(ClampMs(ms, s.ageMs), f, s.ageMs);
  }

  /** A reset goes back to the global wish. */
  lemma ResetAnswers(j: Jitter, s: Setting, f: nat)
    requires f == if j.frame > 0 then j.frame else s.networkFrame
    ensures
      var k := Step(j, Reset(s));
      && !k.manual && !k.auto && k.overrideMs == 0 && k.callbacks == k.events == 0
      && k.target == k.floor == k.autoFloor && Answers(k.target, s.globalMs, f, s.ageMs) && Prepared(j, s, k)
  {
    WithinAgeAnswers(s.globalMs, f, s.ageMs);
    WithinAgeInRange(s.globalMs, f, s.ageMs);
  }

  /** A global wish sets the floor of everyone not set by hand; the automatic start may only raise the target
      above it, to 40 ms worth of packets. */
  lemma GlobalAnswers(j: Jitter, s: Setting, ms: int, opus: bool, f: nat)
    requires f == if j.frame > 0 then j.frame else s.networkFrame
    ensures
      var k := Step(j, GlobalMs(s, ms, opus));
      if j.manual || (!opus && j.floor < 2) then k == j
      else
        && (exists c :: Brought(c, ms, s.ageMs) && Answers(k.floor, c, f, s.ageMs))
        && k.autoFloor == k.floor && Prepared(j, s, k) && k.callbacks == k.events == 0
        && k.target == if j.auto then Max(k.floor, PacketsForMs(40, 48000, f)) else k.floor
  {
    var c := ClampMs(ms, s.ageMs);
    WithinAgeAnswers(c, f, s.ageMs);
    WithinAgeInRange(c, f, s.ageMs);
    assert Brought(c, ms, s.ageMs);
  }

  /** Switching the controller for one participant ends a target set by hand; switched off, the target is what the
      global wish asks for, and switched on, a target above that and above the start stays. */
  lemma SwitchAnswers(j: Jitter, s: Setting, on: bool, f: nat)
    requires f == if j.frame > 0 then j.frame else s.networkFrame
    ensures
      var k := Step(j, SetAuto(s, on));
      var start := Max(k.floor, PacketsForMs(40, 48000, f));
      && !k.manual && k.auto == on && k.overrideMs == 0 && k.callbacks == k.events == 0
      && k.floor == k.autoFloor && Answers(k.floor, s.globalMs, f, s.ageMs)
      && k.target == if !on then k.floor else Max(j.target, start)
    ensures Step(j, AutoDefault(s, on)) == if j.manual then j else Step(j, SetAuto(s, on)).(overrideMs := j.overrideMs)
  {
    WithinAgeAnswers(s.globalMs, f, s.ageMs);
    WithinAgeInRange(s.globalMs, f, s.ageMs);
  }

  /** The most packets that fit the age limit. */
  predicate FillsAge(p: nat, frame: nat, ageMs: int) {
    p <= 32 && LastAtMost(p, frame, ageMs) && (p == 32 || !LastAtMost(p + 1, frame, ageMs))
  }

  /** The controller may go up to the most packets that fit the age limit, and to 32 without one. */
  lemma MaxTargetFits(frame: nat, ageMs: int)
    ensures
      var p := MaxTarget(frame, ageMs);
      if ageMs > 0 && frame > 0 then FillsAge(p, frame, ageMs) else p == 32
  {
    if ageMs > 0 && frame > 0 {
      PacketsWithinMsIsMost(ageMs, RATE, frame);
    }
  }

  /** A new age limit lowers a target, with the floors, to the most packets that fit it, and touches no target
      that already fits. */
  lemma LimitLowers(j: Jitter, s: Setting, ageMs: int, f: nat)
    requires f == (if j.frame > 0 then j.frame else s.networkFrame) && f > 0 && InRange(j)
    ensures
      var k := Step(j, AgeLimit(s, ageMs));
      if ageMs <= 0 || LastAtMost(j.target, f, ageMs) then k == j
      else
        && FillsAge(k.target, f, ageMs) && k.target < j.target && k.floor <= k.target && k.autoFloor <= k.target
        && k.floor <= j.floor && k.autoFloor <= j.autoFloor
  {
    if ageMs > 0 {
      PacketsWithinMsIsMost(ageMs, RATE, f);
      var most := PacketsWithinMs(ageMs, RATE, f);
      if j.target <= most {
        FewerStillFit(j.target, most, f, ageMs);
      } else if most < 32 {
        SmallerMultiple(most + 1, j.target, f * 1000);
      }
    }
  }

  function Onward(j: Jitter, acts: seq<Action>): Jitter {
    if acts == [] then j else Step(Onward(j, acts[..|acts| - 1]), acts[|acts| - 1])
  }

  /** Nothing the user does to this participant: no new target by hand, no reset, no switch. */
  predicate LeavesManual(acts: seq<Action>) {
    forall i :: 0 <= i < |acts| ==> !acts[i].ManualMs? && !acts[i].Reset? && !acts[i].SetAuto?
  }

  /** A target set by hand holds through every global change, arrival and window: the wish stays, and each
      arriving packet makes the target the number of such packets that the wish asks for. */
  lemma {:induction false} ManualHolds(j: Jitter, acts: seq<Action>)
    requires j.manual && !j.auto && LeavesManual(acts)
    ensures
      var k := Onward(j, acts);
      && k.manual && !k.auto && k.overrideMs == j.overrideMs
      && (|acts| > 0 && acts[|acts| - 1].Arrive? ==>
            var a := acts[|acts| - 1];
            k.target == k.floor && k.frame == a.frame && Answers(k.target, j.overrideMs, a.frame, a.s.ageMs))
  {
    if acts == [] {
    } else {
      var n := |acts| - 1;
      ManualHolds(j, acts[..n]);
      if acts[n].Arrive? {
        WithinAgeAnswers(j.overrideMs, acts[n].frame, acts[n].s.ageMs);
      }
    }
  }

  /** Playback goes on through an arrival that leaves the target alone, and otherwise only if that many packets, at
      least one, wait. */
  lemma ManualArrival(j: Jitter, s: Setting, frame: nat)
    requires j.manual
    ensures
      var k := Step(j, Arrive(s, frame));
      k.ready <==> j.ready && (k.target == j.target || (s.queued >= 1 && s.queued >= k.target))
  {
  }

  /** Without one, each arriving packet makes the floor the number of packets that the global wish asks for,
      and no target below it remains. A target above it stays if packets keep their length and playback has
      started or the controller is on; a new length starts over. */
  lemma ArrivalAnswers(j: Jitter, s: Setting, frame: nat)
    requires !j.manual
    ensures
      var k := Step(j, Arrive(s, frame));
      k.frame == frame && k.autoFloor == k.floor <= k.target && Answers(k.floor, s.globalMs, frame, s.ageMs)
    ensures
      var k := Step(j, Arrive(s, frame));
      if j.frame == frame && frame > 0 then k.target == if j.auto || j.ready then Max(j.target, k.floor) else k.floor
      else k.target == if j.auto then Max(k.floor, PacketsForMs(40, 48000, frame)) else k.floor
  {
    WithinAgeAnswers(s.globalMs, frame, s.ageMs);
    WithinAgeInRange(s.globalMs, frame, s.ageMs);
  }

  // ----- the participant's own fields ----------------------------------------------------------------

  class Participant {
    var target: nat
    var floor: nat
    var autoFloor: nat
    var auto: bool
    var manual: bool
    var overrideMs: int
    var callbacks: nat
    var events: nat
    var queueLimit: nat
    var frame: nat
    var ready: bool

    ghost function Value(): Jitter
      reads this
    {
      Jitter(target, floor, autoFloor, auto, manual, overrideMs, callbacks, events, queueLimit, frame, ready)
    }

    constructor ()
      ensures Value() == After([])
    {
      target, floor, autoFloor, auto, manual, overrideMs := 3, 3, DEFAULT_PACKETS, false, false, 0;
      callbacks, events, queueLimit, frame, ready := 0, 0, 128, 0, false;
    }

    method ApplyJitterPolicy(floorPackets: nat, autoStart: nat, enabled: bool, reset: bool, queued: nat)
      modifies this
      ensures Value() == ApplyPolicy(old(Value()), floorPackets, autoStart, enabled, reset, queued)
    {
      var lowest := Clamp(floorPackets);
      var wanted := if enabled then Max(lowest, Clamp(autoStart)) else lowest;
      auto, autoFloor, callbacks, events, floor := enabled, lowest, 0, 0, lowest;
      if reset || target < wanted {
        target := wanted;
        queueLimit := Max(queueLimit, wanted + 3);
        if queued < Max(1, wanted) {
          ready := false;
        }
      }
    }

    /** The floor and the automatic start for a target in milliseconds, applied as a policy. */
    method ApplyTargetMs(s: Setting, ms: int, enabled: bool, reset: bool)
      modifies this
      ensures Value() == ApplyMs(old(Value()), s, ms, enabled, reset)
    {
      var length := if frame > 0 then frame else s.networkFrame;
      var lowest := WithinAge(ms, length, s.ageMs);
      ApplyJitterPolicy(lowest, AutoStart(lowest, RATE, length), enabled, reset, s.queued);
    }

    method SetGlobalMs(s: Setting, ms: int, opus: bool)
      modifies this
      ensures Value() == Step(old(Value()), GlobalMs(s, ms, opus))
    {
      if manual {
        return;
      }
      if opus || floor >= DEFAULT_PACKETS {
        ApplyTargetMs(s, ClampMs(ms, s.ageMs), auto, true);
      }
    }

    method SetAutoDefault(s: Setting, enabled: bool)
      modifies this
      ensures Value() == Step(old(Value()), AutoDefault(s, enabled))
    {
      if !manual {
        ApplyTargetMs(s, s.globalMs, enabled, !enabled);
      }
    }

    method ResetOverride(s: Setting)
      modifies this
      ensures Value() == Step(old(Value()), Reset(s))
    {
      manual, overrideMs := false, 0;
      ApplyTargetMs(s, s.globalMs, false, true);
    }

    method SetAutoJitter(s: Setting, enabled: bool)
      modifies this
      ensures Value() == Step(old(Value()), SetAuto(s, enabled))
    {
      manual, overrideMs := false, 0;
      ApplyTargetMs(s, s.globalMs, enabled, !enabled);
    }

    method SetManualMs(s: Setting, ms: int)
      modifies this
      ensures Value() == Step(old(Value()), ManualMs(s, ms))
    {
      var clamped := ClampMs(ms, s.ageMs);
      var packets := WithinAge(clamped, if frame > 0 then frame else s.networkFrame, s.ageMs);
      manual, overrideMs, auto, floor, target := true, clamped, false, packets, packets;
      queueLimit := Max(queueLimit, packets);
      if s.queued < Max(1, packets) {
        ready := false;
      }
    }

    method LimitPacketAge(s: Setting, ageMs: int)
      modifies this
      ensures Value() == Step(old(Value()), AgeLimit(s, ageMs))
    {
      if ageMs <= 0 {
        return;
      }
      var most := PacketsWithinMs(ageMs, RATE, if frame > 0 then frame else s.networkFrame);
      if target <= most {
        return;
      }
      target, floor, autoFloor := most, Min(floor, most), Min(autoFloor, most);
    }

    /** The floor follows the length of the packets that arrive. */
    method UpdateJitterFloor(s: Setting, packetFrame: nat)
      modifies this
      ensures Value() == Step(old(Value()), Arrive(s, packetFrame))
    {
      var lowest := WithinAge(if manual then overrideMs else s.globalMs, packetFrame, s.ageMs);
      if manual {
        if target != lowest && s.queued < Max(1, lowest) {
          ready := false;
        }
        floor, target := lowest, lowest;
      } else {
        autoFloor := lowest;
        if frame == 0 || frame != packetFrame {
          ApplyJitterPolicy(lowest, AutoStart(lowest, RATE, packetFrame), auto, true, s.queued);
        } else {
          floor := lowest;
          if ShouldSnap(manual, auto, ready, target, lowest) {
            target := lowest;
          }
        }
      }
      frame := packetFrame;
    }

    method CompleteWindow(ageMs: int)
      modifies this
      ensures Value() == WindowDone(old(Value()), ageMs)
    {
      callbacks := 0;
      var counted := events;
      events := 0;
      var lowest := Clamp(autoFloor);
      var most := MaxTarget(frame, ageMs);
      if target > most {
        target, floor := most, most;
      }
      if counted >= EVENTS_BEFORE_INCREASE {
        if target < most {
          var next := Min(most, Max(3, target + 1));
          if next > target {
            target, floor := next, next;
            queueLimit := Max(queueLimit, next + 3);
          }
        }
        return;
      }
      if counted == 0 && target > lowest {
        target := target - 1;
        floor := target;
      }
    }

    method ObserveCallback(ageMs: int, unstable: bool)
      modifies this
      ensures Value() == Step(old(Value()), Callback(ageMs, unstable))
    {
      if !(auto && !manual) {
        return;
      }
      if unstable {
        events := events + 1;
      }
      callbacks := callbacks + 1;
      if callbacks >= WINDOW_CALLBACKS {
        CompleteWindow(ageMs);
      }
    }
  }
}

/** The shared metronome: tempo changes are agreed in server time, turned into positions of the
    local sample counter, and played sample by sample whatever the buffer sizes. */
module Metronome {

  import opened Common
  import opened SerialNumbers

  const SECOND_NS := 1_000_000_000
  const MIN_BPM_MILLI := 30000
  const MAX_BPM_MILLI := 240000

  datatype Sync = Sync(sequence: Word, bpmMilli: Word, running: bool, beat: Word)

  datatype Pending = Pending(bpmMilli: int, running: bool, beat: Word, effectiveNs: int, sequence: Word)

  datatype Metro = Metro(
    bpmMilli: int, running: bool, beat: Word, pending: Pending, prepared: Word, effective: int,
    applied: Word, epoch: int, cursor: int, ready: bool)

  /** What is heard at one frame: the position inside the click and whether it is a downbeat. */
  datatype Click = Click(sample: nat, downbeat: bool)

  // ----- arithmetic --------------------------------------------------------------------------------

  function Clamped(bpm: int): int {
    if bpm < MIN_BPM_MILLI then MIN_BPM_MILLI else if bpm > MAX_BPM_MILLI then MAX_BPM_MILLI else bpm
  }

  function AsInt32(w: Word): int { if w < UINT32 / 2 then w else w - UINT32 }

  function NsToSamples(ns: int, rate: nat): int { TruncDiv(ns * rate, SECOND_NS) }

  function BeatInterval(bpm: int, rate: nat): (i: nat)
    ensures i >= 1
  {
    Max(1, rate * 60000 / Max(1, bpm))
  }

  function ClickSamples(rate: nat): nat { Max(1, rate / 35) }

  /** A beat is a minute's samples by the tempo, to within one sample: in a thousand minutes the beats of the
      tempo, which is given in thousandths, fall short of the samples by less than one sample each. */
  lemma BeatsFillTheMinute(bpm: nat, rate: nat)
    requires bpm > 0
    ensures
      var i := BeatInterval(bpm, rate);
      if bpm <= rate * 60 * 1000 then i * bpm <= rate * 60 * 1000 < i * bpm + bpm else i == 1
  {
    var n := rate * 60 * 1000;
    assert n == n / bpm * bpm + n % bpm;
    if bpm <= n {
      AtLeastOne(n, bpm);
    } else {
      QuotientIs(n, 0, n, bpm);
    }
  }

  lemma AtLeastOne(n: nat, d: nat)
    requires 0 < d <= n
    ensures n / d >= 1
  {
  }

  // ----- the steps ---------------------------------------------------------------------------------

  predicate Accepts(m: Metro, s: Sync) { s.sequence == 0 || s.sequence > m.pending.sequence }

  function Schedule(m: Metro, s: Sync, effectiveNs: int): Metro {
    if !Accepts(m, s) then m
    else
      var number: Word := if s.sequence == 0 then (m.pending.sequence + 1) % UINT32 else s.sequence;
      m.(pending := Pending(Clamped(AsInt32(s.bpmMilli)), s.running, s.beat, effectiveNs, number))
  }

  function Prepare(m: Metro, localNs: int, rate: nat, offsetNs: int): Metro {
    if m.pending.sequence == 0 || m.pending.sequence == m.prepared then m
    else
      m.(effective := m.cursor + NsToSamples(m.pending.effectiveNs - offsetNs - localNs, rate),
         prepared := m.pending.sequence)
  }

  predicate Due(m: Metro) { m.prepared != 0 && m.prepared != m.applied && m.cursor >= m.effective }

  function ApplyDue(m: Metro, rate: nat): Metro {
    if !Due(m) then m
    else
      var bpm := Max(1, m.pending.bpmMilli);
      m.(bpmMilli := bpm, running := m.pending.running, beat := m.pending.beat,
         epoch := m.effective - m.pending.beat * BeatInterval(bpm, rate), ready := true, applied := m.prepared)
  }

  predicate Sounding(m: Metro) { m.running && m.ready && m.cursor >= m.epoch }

  function BeatAt(elapsed: nat, interval: nat): Word
    requires interval > 0
  {
    (elapsed / interval + 1) % UINT32
  }

  function ClickAt(elapsed: nat, interval: nat, rate: nat): Option<Click>
    requires interval > 0
  {
    var sample := elapsed % interval;
    if sample < ClickSamples(rate)
    then Some(Click(sample, (BeatAt(elapsed, interval) + UINT32 - 1) % UINT32 % 4 == 0))
    else None
  }

  /** One frame, once anything due has been applied. */
  function Heard(m: Metro, rate: nat, interval: nat): Option<Click>
    requires interval > 0
  {
    if Sounding(m) then ClickAt(m.cursor - m.epoch, interval, rate) else None
  }

  function Shown(m: Metro, interval: nat): Metro
    requires interval > 0
  {
    m.(beat := if Sounding(m) then BeatAt(m.cursor - m.epoch, interval) else m.beat, cursor := m.cursor + 1)
  }

  function Frame(m: Metro, rate: nat, interval: nat): Metro
    requires interval > 0
  {
    Shown(ApplyDue(m, rate), interval)
  }

  function Mixed(m: Metro, n: nat, rate: nat, interval: nat): Metro
    requires interval > 0
  {
    if n == 0 then m else Frame(Mixed(m, n - 1, rate, interval), rate, interval)
  }

  function Output(m: Metro, n: nat, rate: nat, interval: nat): seq<Option<Click>>
    requires interval > 0
  {
    if n == 0 then []
    else Output(m, n - 1, rate, interval) + [Heard(ApplyDue(Mixed(m, n - 1, rate, interval), rate), rate, interval)]
  }

  // ----- whole calls -------------------------------------------------------------------------------

  datatype Action =
    | Receive(sync: Sync, effectiveNs: int)
    | SetBpm(bpmMilli: int)
    | Callback(frames: nat, sampleRate: int, localNs: int, offsetNs: int)

  function Rate(sampleRate: int): nat { Max(1, sampleRate) }

  function MixInterval(m: Metro, sampleRate: int): (i: nat)
    ensures i >= 1
  {
    BeatInterval(Max(1, m.bpmMilli), Rate(sampleRate))
  }

  function Prepared(m: Metro, a: Action): Metro
    requires a.Callback?
  {
    Prepare(m, a.localNs, Rate(a.sampleRate), a.offsetNs)
  }

  function Step(m: Metro, a: Action): Metro {
    match a
    case Receive(s, ns) => Schedule(m, s, ns)
    case SetBpm(b) => m.(bpmMilli := Clamped(b))
    case Callback(n, r, _, _) => Mixed(Prepared(m, a), n, Rate(r), MixInterval(m, r))
  }

  const INITIAL := Metro(120000, false, 0, Pending(120000, false, 0, 0, 0), 0, 0, 0, 0, 0, false)

  function After(acts: seq<Action>): Metro {
    if acts == [] then INITIAL else Step(After(acts[..|acts| - 1]), acts[|acts| - 1])
  }

  // ----- what one buffer does ----------------------------------------------------------------------

  /** The schedule falls inside the next n frames. */
  predicate Applies(m: Metro, n: nat) {
    m.prepared != 0 && m.prepared != m.applied && m.effective < m.cursor + n && n > 0
  }

  /** A buffer applies what is prepared exactly if it falls before the buffer's end, and then
      completely; everything else but beat and cursor stays. */
  lemma {:induction false} MixApplies(m: Metro, n: nat, rate: nat, interval: nat)
    requires interval > 0
    ensures
      var e := Mixed(m, n, rate, interval);
      && e.cursor == m.cursor + n && e.pending == m.pending && e.prepared == m.prepared && e.effective == m.effective
      && (if Applies(m, n) then
            && e.applied == m.prepared && e.ready
            && e.bpmMilli == Max(1, m.pending.bpmMilli) && e.running == m.pending.running
            && e.epoch == m.effective - m.pending.beat * BeatInterval(e.bpmMilli, rate)
          else
            && e.applied == m.applied && e.ready == m.ready && e.bpmMilli == m.bpmMilli && e.running == m.running
            && e.epoch == m.epoch)
  {
    if n == 0 {
    } else {
      MixApplies(m, n - 1, rate, interval);
    }
  }

  // ----- sequence numbers over runs ----------------------------------------------------------------

  predicate Numbered(m: Metro) { m.applied <= m.prepared <= m.pending.sequence }

  /** A sync without a number arrives when numbers have run out. */
  predicate WrapsAt(m: Metro, a: Action) { a.Receive? && a.sync.sequence == 0 && m.pending.sequence == UINT32 - 1 }

  predicate NeverWraps(acts: seq<Action>) { forall i :: 0 <= i < |acts| ==> !WrapsAt(After(acts[..i]), acts[i]) }

  lemma StepNumbered(m: Metro, a: Action)
    requires Numbered(m)
    ensures Step(m, a).applied <= Step(m, a).prepared
    ensures Numbered(Step(m, a)) <==> !(WrapsAt(m, a) && m.prepared > 0)
  {
    if a.Callback? {
      MixApplies(Prepared(m, a), a.frames, Rate(a.sampleRate), MixInterval(m, a.sampleRate));
    }
  }

  /** applied <= prepared <= pending in every run whose numbers do not run out. */
  lemma {:induction false} AlwaysNumbered(acts: seq<Action>)
    requires NeverWraps(acts)
    ensures Numbered(After(acts))
  {
    if acts == [] {
    } else {
      var n := |acts| - 1;
      forall i | 0 <= i < n ensures !WrapsAt(After(acts[..n][..i]), acts[..n][i]) {
        assert acts[..n][..i] == acts[..i] && !WrapsAt(After(acts[..i]), acts[i]);
      }
      AlwaysNumbered(acts[..n]);
      assert !WrapsAt(After(acts[..n]), acts[n]);
      StepNumbered(After(acts[..n]), acts[n]);
    }
  }

  /** A callback applies nothing but the newest accepted sync, all of it, and does so at the latest
      in the buffer that reaches its sample. */
  lemma NewestApplied(m: Metro, a: Action)
    requires Numbered(m) && a.Callback? && a.frames > 0
    ensures
      var p, e := Prepared(m, a), Step(m, a);
      && (e.applied != m.applied ==>
            && e.applied == m.pending.sequence && m.applied < e.applied
            && e.bpmMilli == Max(1, m.pending.bpmMilli) && e.running == m.pending.running
            && e.epoch == p.effective - m.pending.beat * BeatInterval(e.bpmMilli, Rate(a.sampleRate)))
      && (e.applied == m.pending.sequence <==> m.applied == m.pending.sequence || p.effective < m.cursor + a.frames)
  {
    MixApplies(Prepared(m, a), a.frames, Rate(a.sampleRate), MixInterval(m, a.sampleRate));
  }

  /** A sync is taken if it has no number or a higher one than the last; then all of it waits, with its tempo,
      a signed number, brought to between 30 and 240 beats a minute. */
  lemma SyncWaits(m: Metro, s: Sync, ns: int)
    ensures
      var p := Step(m, Receive(s, ns)).pending;
      if s.sequence != 0 && s.sequence <= m.pending.sequence then p == m.pending
      else
        && p.running == s.running && p.beat == s.beat && p.effectiveNs == ns
        && p.sequence == (if s.sequence == 0 then (m.pending.sequence + 1) % UINT32 else s.sequence)
        && (30000 <= s.bpmMilli <= 240000 ==> p.bpmMilli == s.bpmMilli)
        && (240000 < s.bpmMilli < 0x8000_0000 ==> p.bpmMilli == 240000)
        && (s.bpmMilli < 30000 || s.bpmMilli >= 0x8000_0000 ==> p.bpmMilli == 30000)
  {
  }

  predicate TempoInRange(m: Metro) {
    30000 <= m.bpmMilli <= 240000 && 30000 <= m.pending.bpmMilli <= 240000
  }

  /** Whatever is received or set, the tempo stays between 30 and 240 beats a minute. */
  lemma {:induction false} TempoAlwaysInRange(acts: seq<Action>)
    ensures TempoInRange(After(acts))
  {
    if acts == [] {
    } else {
      var n := |acts| - 1;
      TempoAlwaysInRange(acts[..n]);
      var m, a := After(acts[..n]), acts[n];
      if a.Callback? {
        MixApplies(Prepared(m, a), a.frames, Rate(a.sampleRate), MixInterval(m, a.sampleRate));
      }
    }
  }

  /** Once placed, a schedule stays where it is: no later callback, whatever its clock reading, moves it. */
  lemma PlacedOnce(m: Metro, a: Action, b: Action)
    requires a.Callback? && b.Callback?
    ensures Prepared(Step(m, a), b).effective == Step(m, a).effective
  {
    MixApplies(Prepared(m, a), a.frames, Rate(a.sampleRate), MixInterval(m, a.sampleRate));
  }

  // ----- where it falls in the sample stream -------------------------------------------------------

  /** Sample `cursor` plays at local time `localNs` on a clock that played sample 0 at `originNs`. */
  predicate OnClock(cursor: int, localNs: int, originNs: int, rate: nat) {
    (localNs - originNs) * rate == cursor * SECOND_NS
  }

  /** Whole samples before, and not before, an instant `ns` after sample 0. */
  function FloorSample(ns: int, rate: nat): int { (ns * rate) / SECOND_NS }

  function CeilSample(ns: int, rate: nat): int { -((-(ns * rate)) / SECOND_NS) }

  lemma TruncShift(x: int, c: int)
    ensures c + TruncDiv(x - c * SECOND_NS, SECOND_NS) ==
            if x >= c * SECOND_NS then x / SECOND_NS else -((-x) / SECOND_NS)
  {
    ShiftedQuotient(x, -c);
    ShiftedQuotient(-x, c);
  }

  lemma ShiftedQuotient(x: int, c: int)
    ensures (x + c * SECOND_NS) / SECOND_NS == x / SECOND_NS + c
  {
    assert x == (x / SECOND_NS) * SECOND_NS + x % SECOND_NS;
  }

  /** The effective sample is the exact instant rounded down when the sync was prepared before it,
      and rounded up when it was prepared late; which buffer prepared it does not matter otherwise. */
  lemma EffectiveIsExact(m: Metro, localNs: int, rate: nat, offsetNs: int, originNs: int)
    requires m.pending.sequence != 0 && m.pending.sequence != m.prepared
    requires OnClock(m.cursor, localNs, originNs, rate)
    ensures
      var instant := m.pending.effectiveNs - offsetNs - originNs;
      Prepare(m, localNs, rate, offsetNs).effective ==
        if instant * rate >= m.cursor * SECOND_NS then FloorSample(instant, rate) else CeilSample(instant, rate)
    ensures
      var instant := m.pending.effectiveNs - offsetNs - originNs;
      FloorSample(instant, rate) <= CeilSample(instant, rate) <= FloorSample(instant, rate) + 1
  {
    var instant := m.pending.effectiveNs - offsetNs - originNs;
    assert (m.pending.effectiveNs - offsetNs - localNs) * rate == instant * rate - m.cursor * SECOND_NS;
    TruncShift(instant * rate, m.cursor);
  }

  // ----- the timeline ------------------------------------------------------------------------------

  /** The metronome runs on the timeline that counts `beat` beats at sample `effective`. */
  predicate OnTimeline(m: Metro, effective: int, beat: Word, interval: nat, rate: nat) {
    && m.ready && m.running
    && interval == BeatInterval(Max(1, m.bpmMilli), rate) && m.epoch == effective - beat * interval
    && m.cursor >= effective
  }

  /** What the timeline says at sample c: the beat, and the position within it. */
  function TimelineBeat(c: int, effective: int, beat: Word, interval: nat): Word
    requires interval > 0 && c >= effective
  {
    (beat + 1 + (c - effective) / interval) % UINT32
  }

  function TimelineClick(c: int, effective: int, beat: Word, interval: nat, rate: nat): Option<Click>
    requires interval > 0 && c >= effective
  {
    var sample := (c - effective) % interval;
    if sample < ClickSamples(rate)
    then Some(Click(sample, (TimelineBeat(c, effective, beat, interval) + UINT32 - 1) % UINT32 % 4 == 0)) else None
  }

  lemma Shifted(x: nat, b: nat, i: nat)
    requires i > 0
    ensures (x + b * i) / i == x / i + b && (x + b * i) % i == x % i
  {
    var q, r := x / i, x % i;
    assert x + b * i == (q + b) * i + r;
    QuotientIs(x + b * i, q + b, r, i);
  }

  /** Every beat of the timeline starts with its click, and every fourth one, counted from beat zero, is a
      downbeat. */
  lemma BeatClicks(k: nat, effective: int, beat: Word, interval: nat, rate: nat)
    requires interval > 0 && beat + k + 1 < UINT32
    ensures
      TimelineClick(effective + k * interval, effective, beat, interval, rate) == Some(Click(0, (beat + k) % 4 == 0))
    ensures TimelineBeat(effective + k * interval, effective, beat, interval) == beat + 1 + k
  {
    Shifted(0, k, interval);
  }

  lemma FrameFollowsTimeline(m: Metro, effective: int, beat: Word, interval: nat, rate: nat)
    requires interval > 0 && OnTimeline(m, effective, beat, interval, rate) && !Due(m)
    ensures Frame(m, rate, interval).beat == TimelineBeat(m.cursor, effective, beat, interval)
    ensures Heard(m, rate, interval) == TimelineClick(m.cursor, effective, beat, interval, rate)
  {
    Shifted(m.cursor - effective, beat, interval);
    assert m.cursor - m.epoch == (m.cursor - effective) + beat * interval;
  }

  /** A buffer before the next schedule takes effect stays on the timeline and ends on its beat. */
  lemma BufferStaysOnTimeline(m: Metro, n: nat, effective: int, beat: Word, interval: nat, rate: nat)
    requires interval > 0 && OnTimeline(m, effective, beat, interval, rate) && !Applies(m, n)
    ensures OnTimeline(Mixed(m, n, rate, interval), effective, beat, interval, rate)
    ensures n > 0 ==> Mixed(m, n, rate, interval).beat == TimelineBeat(m.cursor + n - 1, effective, beat, interval)
  {
    MixApplies(m, n, rate, interval);
    if n > 0 {
      MixApplies(m, n - 1, rate, interval);
      FrameFollowsTimeline(Mixed(m, n - 1, rate, interval), effective, beat, interval, rate);
    }
  }

  /** On a timeline, frame k of a buffer plays what the absolute sample position says, for any buffer
      size and any clock reading, up to the sample where the next schedule takes effect. */
  lemma {:induction false} BufferFollowsTimeline(
      m: Metro, n: nat, k: nat, effective: int, beat: Word, interval: nat, rate: nat)
    requires interval > 0 && OnTimeline(m, effective, beat, interval, rate) && k < n && !Applies(m, k + 1)
    ensures |Output(m, n, rate, interval)| == n
    ensures Output(m, n, rate, interval)[k] == TimelineClick(m.cursor + k, effective, beat, interval, rate)
  {
    OutputLength(m, n - 1, rate, interval);
    if k == n - 1 {
      MixApplies(m, k, rate, interval);
      FrameFollowsTimeline(Mixed(m, k, rate, interval), effective, beat, interval, rate);
    } else {
      BufferFollowsTimeline(m, n - 1, k, effective, beat, interval, rate);
    }
  }

  lemma {:induction false} OutputLength(m: Metro, n: nat, rate: nat, interval: nat)
    requires interval > 0
    ensures |Output(m, n, rate, interval)| == n
  {
    if n == 0 {
    } else {
      OutputLength(m, n - 1, rate, interval);
    }
  }

  /** The stream of clicks over a run in which syncs arrive between buffers. */
  function Stream(m: Metro, acts: seq<Action>): seq<Option<Click>>
    decreases |acts|
  {
    if acts == [] then []
    else
      var a := acts[0];
      (if a.Callback? then Output(Prepared(m, a), a.frames, Rate(a.sampleRate), MixInterval(m, a.sampleRate)) else [])
      + Stream(Step(m, a), acts[1..])
  }

  /** Sample k of that stream comes before any schedule takes effect, received before or meanwhile. */
  predicate BeforeNext(m: Metro, acts: seq<Action>, k: nat)
    decreases |acts|
  {
    if acts == [] then true
    else if !acts[0].Callback? then BeforeNext(Step(m, acts[0]), acts[1..], k)
    else if k < acts[0].frames then !Applies(Prepared(m, acts[0]), k + 1)
    else !Applies(Prepared(m, acts[0]), acts[0].frames) && BeforeNext(Step(m, acts[0]), acts[1..], k - acts[0].frames)
  }

  /** However the samples are cut into buffers and whatever syncs arrive between them, every click
      sounds where the timeline puts it until the sample at which the next schedule takes effect. */
  lemma {:induction false} StreamFollowsTimeline(
      m: Metro, acts: seq<Action>, effective: int, beat: Word, interval: nat, sampleRate: int, k: nat)
    requires interval > 0 && OnTimeline(m, effective, beat, interval, Rate(sampleRate))
    requires forall i :: 0 <= i < |acts| ==> acts[i].Receive? || (acts[i].Callback? && acts[i].sampleRate == sampleRate)
    requires k < |Stream(m, acts)| && BeforeNext(m, acts, k)
    ensures Stream(m, acts)[k] == TimelineClick(m.cursor + k, effective, beat, interval, Rate(sampleRate))
    decreases |acts|
  {
    var a := acts[0];
    if a.Receive? {
      assert OnTimeline(Step(m, a), effective, beat, interval, Rate(sampleRate)) && Step(m, a).cursor == m.cursor;
      StreamFollowsTimeline(Step(m, a), acts[1..], effective, beat, interval, sampleRate, k);
    } else {
      var p := Prepared(m, a);
      assert OnTimeline(p, effective, beat, interval, Rate(sampleRate)) && p.cursor == m.cursor;
      OutputLength(p, a.frames, Rate(sampleRate), interval);
      if k < a.frames {
        BufferFollowsTimeline(p, a.frames, k, effective, beat, interval, Rate(sampleRate));
      } else {
        BufferStaysOnTimeline(p, a.frames, effective, beat, interval, Rate(sampleRate));
        MixApplies(p, a.frames, Rate(sampleRate), interval);
        StreamFollowsTimeline(Step(m, a), acts[1..], effective, beat, interval, sampleRate, k - a.frames);
      }
    }
  }

  /** The buffer that applies a running sync leaves the metronome on that sync's timeline. */
  lemma ApplyingStartsTimeline(m: Metro, a: Action)
    requires Numbered(m) && a.Callback? && a.frames > 0 && m.pending.running
    requires m.applied != m.pending.sequence && Prepared(m, a).effective < m.cursor + a.frames
    ensures OnTimeline(Step(m, a), Prepared(m, a).effective, m.pending.beat,
                       BeatInterval(Max(1, m.pending.bpmMilli), Rate(a.sampleRate)), Rate(a.sampleRate))
  {
    MixApplies(Prepared(m, a), a.frames, Rate(a.sampleRate), MixInterval(m, a.sampleRate));
  }

  // ----- the buffer in which the tempo changes -----------------------------------------------------

  /** That buffer still counts in the old interval: an on-time change to `next` samples per beat
      shows the right beat at its own frame if and only if beats counted in the old interval have not
      yet drifted by a whole one. */
  lemma ApplyingFrameBeat(m: Metro, rate: nat, interval: nat, next: nat)
    requires interval > 0 && Due(m) && m.cursor == m.effective && m.pending.running && m.pending.beat + 1 < UINT32
    requires next == BeatInterval(Max(1, m.pending.bpmMilli), rate) && m.pending.beat * next / interval + 1 < UINT32
    ensures Frame(m, rate, interval).beat == m.pending.beat + 1 <==>
            0 <= m.pending.beat * next - m.pending.beat * interval < interval
  {
    ApplyingFrameCountsOld(m, rate, interval, next, m.pending.beat * next);
    DriftIff(m.pending.beat * next, m.pending.beat, interval, Frame(m, rate, interval).beat);
  }

  lemma DriftIff(elapsed: nat, beat: nat, interval: nat, shown: Word)
    requires interval > 0 && elapsed / interval + 1 < UINT32 && shown == (elapsed / interval + 1) % UINT32
    ensures shown == beat + 1 <==> 0 <= elapsed - beat * interval < interval
  {
    QuotientIff(elapsed, beat, interval);
    NoWrap(elapsed / interval + 1);
  }

  lemma NoWrap(n: nat)
    requires n < UINT32
    ensures n % UINT32 == n
  {
  }

  lemma ApplyingFrameCountsOld(m: Metro, rate: nat, interval: nat, next: nat, elapsed: nat)
    requires interval > 0 && Due(m) && m.cursor == m.effective && m.pending.running
    requires next == BeatInterval(Max(1, m.pending.bpmMilli), rate) && elapsed == m.pending.beat * next
    ensures Frame(m, rate, interval).beat == (elapsed / interval + 1) % UINT32
  {
    var a := ApplyDue(m, rate);
    assert a.epoch == m.effective - elapsed;
    assert Shown(a, interval).beat == BeatAt(elapsed, interval);
  }

  lemma QuotientIff(n: nat, q: nat, i: nat)
    requires i > 0
    ensures n / i == q <==> 0 <= n - q * i < i
  {
    if 0 <= n - q * i < i {
      QuotientIs(n, q, n - q * i, i);
    } else {
      assert n == (n / i) * i + n % i;
    }
  }

  /** From 120 to 60 beats a minute at beat 8, the applying frame shows beat 17: a first sync starts the
      metronome, it plays for a while, and a second sync is due just as its buffer starts. */
  lemma TempoChangeShowsWrongBeat(start: Action, play: Action, change: Action, apply: Action, now: int)
    requires start == Receive(Sync(1, 120000, true, 0), 0) && change == Receive(Sync(2, 60000, true, 8), now)
    requires play.Callback? && play.frames > 0 && play.localNs == play.offsetNs == 0
    requires apply == Callback(1, 48000, now, 0)
    ensures After([start, play, change, apply]).beat == 17
  {
    AfterFour(start, play, change, apply);
    var m := Step(INITIAL, start);
    StartsPlaying(m, play);
    var n := Step(m, play);
    ChangesAtBeatEight(Step(n, change), now);
  }

  lemma AfterFour(a: Action, b: Action, c: Action, d: Action)
    ensures After([a, b, c, d]) == Step(Step(Step(Step(INITIAL, a), b), c), d)
  {
    assert [a, b, c, d][..3] == [a, b, c] && [a, b, c][..2] == [a, b] && [a, b][..1] == [a] && [a][..0] == [];
    assert After([a]) == Step(INITIAL, a);
    assert After([a, b]) == Step(After([a]), b);
    assert After([a, b, c]) == Step(After([a, b]), c);
  }

  lemma StartsPlaying(m: Metro, play: Action)
    requires m.pending == Pending(120000, true, 0, 0, 1) && m.prepared == m.applied == 0 && m.cursor == 0
    requires play.Callback? && play.frames > 0 && play.localNs == play.offsetNs == 0
    ensures
      var e := Step(m, play);
      e.bpmMilli == 120000 && e.pending == m.pending && e.prepared == e.applied == 1
  {
    var p := Prepared(m, play);
    assert NsToSamples(0, Rate(play.sampleRate)) == 0;
    assert p.effective == 0 && p.prepared == 1;
    MixApplies(p, play.frames, Rate(play.sampleRate), MixInterval(m, play.sampleRate));
  }

  lemma ChangesAtBeatEight(m: Metro, now: int)
    requires m.bpmMilli == 120000 && m.pending == Pending(60000, true, 8, now, 2) && m.prepared == m.applied == 1
    ensures Step(m, Callback(1, 48000, now, 0)).beat == 17
  {
    var p := Prepared(m, Callback(1, 48000, now, 0));
    assert p.effective == m.cursor && Due(p);
    assert MixInterval(m, 48000) == BeatInterval(120000, 48000) == 24000 && BeatInterval(60000, 48000) == 48000;
    ApplyingFrameCountsOld(p, 48000, 24000, 48000, 384000);
    assert Mixed(p, 0, 48000, 24000) == p;
    assert Mixed(p, 1, 48000, 24000) == Frame(p, 48000, 24000);
  }

  /** When numbers run out, an unnumbered sync takes the order back to zero. */
  lemma NumbersRunOut()
    ensures
      var last := Receive(Sync(UINT32 - 1, 120000, true, 0), 0);
      !Numbered(After([last, Callback(0, 48000, 0, 0), Receive(Sync(0, 120000, true, 0), 0)]))
  {
    var a, b := Receive(Sync(UINT32 - 1, 120000, true, 0), 0), Callback(0, 48000, 0, 0);
    var c := Receive(Sync(0, 120000, true, 0), 0);
    var m1 := Step(INITIAL, a);
    var m2 := Step(m1, b);
    assert [a, b, c][..2] == [a, b] && [a, b][..1] == [a] && [a][..0] == [];
    assert After([a]) == m1;
    assert After([a, b]) == m2;
    assert m2.prepared == UINT32 - 1 == m2.pending.sequence;
    assert After([a, b, c]) == Step(m2, c);
  }

  // ----- the client's metronome ----------------------------------------------------------------------

  class ClientMetronome {
    var bpmMilli: int
    var running: bool
    var beat: Word
    var pending: Pending
    var preparedSequence: Word
    var preparedEffectiveSample: int
    var appliedSequence: Word
    var epochSample: int
    var audioSampleCursor: int
    var timelineReady: bool

    ghost function Value(): Metro
      reads this
    {
      Metro(bpmMilli, running, beat, pending, preparedSequence, preparedEffectiveSample, appliedSequence, epochSample,
            audioSampleCursor, timelineReady)
    }

    constructor ()
      ensures Value() == INITIAL
    {
      bpmMilli, running, beat, pending := 120000, false, 0, Pending(120000, false, 0, 0, 0);
      preparedSequence, preparedEffectiveSample, appliedSequence := 0, 0, 0;
      epochSample, audioSampleCursor, timelineReady := 0, 0, false;
    }

    method SetBpmMilliLocal(bpm: int)
      modifies this`bpmMilli
      ensures Value() == Step(old(Value()), SetBpm(bpm))
    {
      bpmMilli := Clamped(bpm);
    }

    method ScheduleSync(s: Sync, effectiveNs: int)
      modifies this`pending
      ensures Value() == Step(old(Value()), Receive(s, effectiveNs))
    {
      var current := pending.sequence;
      if s.sequence != 0 && s.sequence <= current {
        return;
      }
      pending := Pending(Clamped(AsInt32(s.bpmMilli)), s.running, s.beat, effectiveNs,
                         if s.sequence == 0 then (current + 1) % UINT32 else s.sequence);
    }

    method PrepareSchedule(localNs: int, rate: nat, offsetNs: int)
      modifies this`preparedSequence, this`preparedEffectiveSample
      ensures Value() == Prepare(old(Value()), localNs, rate, offsetNs)
    {
      if pending.sequence == 0 || pending.sequence == preparedSequence {
        return;
      }
      var localEffective := pending.effectiveNs - offsetNs;
      preparedEffectiveSample := audioSampleCursor + NsToSamples(localEffective - localNs, rate);
      preparedSequence := pending.sequence;
    }

    method ApplyDueSchedule(rate: nat)
      modifies this
      ensures Value() == ApplyDue(old(Value()), rate)
    {
      if preparedSequence == 0 || preparedSequence == appliedSequence || audioSampleCursor < preparedEffectiveSample {
        return;
      }
      var scheduledBpm := Max(1, pending.bpmMilli);
      var interval := BeatInterval(scheduledBpm, rate);
      bpmMilli := scheduledBpm;
      running := pending.running;
      beat := pending.beat;
      epochSample := preparedEffectiveSample - pending.beat * interval;
      timelineReady := true;
      appliedSequence := preparedSequence;
    }

    method MixFrame(rate: nat, interval: nat) returns (click: Option<Click>)
      requires interval > 0
      modifies this
      ensures Value() == Frame(old(Value()), rate, interval)
      ensures click == Heard(ApplyDue(old(Value()), rate), rate, interval)
    {
      ApplyDueSchedule(rate);
      click := None;
      var elapsed := audioSampleCursor - epochSample;
      if running && timelineReady && elapsed >= 0 {
        beat := BeatAt(elapsed, interval);
        click := ClickAt(elapsed, interval, rate);
      }
      audioSampleCursor := audioSampleCursor + 1;
    }

    method MixClick(frames: nat, sampleRate: int, localNs: int, offsetNs: int) returns (out: seq<Option<Click>>)
      modifies this
      ensures Value() == Step(old(Value()), Callback(frames, sampleRate, localNs, offsetNs))
      ensures out == Output(Prepared(old(Value()), Callback(frames, sampleRate, localNs, offsetNs)),
                            frames, Rate(sampleRate), MixInterval(old(Value()), sampleRate))
    {
      var rate := Rate(sampleRate);
      var interval := BeatInterval(Max(1, bpmMilli), rate);
      PrepareSchedule(localNs, rate, offsetNs);
      ghost var start := Value();
      out := [];
      for frame := 0 to frames
        invariant Value() == Mixed(start, frame, rate, interval)
        invariant out == Output(start, frame, rate, interval)
      {
        var click := MixFrame(rate, interval);
        out := out + [click];
      }
    }
  }
}

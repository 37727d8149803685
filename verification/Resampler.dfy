/** Fractional-rate playout of the decoded-audio buffer. Phase and ratio are reals: the source
    computes them in double precision and rounding is not modelled. Output is one channel. */
module Resampler {

  import JitterPolicy

  const MIN_RATIO := JitterPolicy.MIN_RATIO
  const MAX_RATIO := JitterPolicy.MAX_RATIO
  const PCM_BUFFER_FRAMES := 1920

  // ----- position arithmetic -------------------------------------------------------------------

  /** Where playback stands: frames waiting in the buffer and the fraction of a frame already used. */
  datatype Position = Position(frames: nat, phase: real)

  ghost predicate Fraction(phase: real) { 0.0 <= phase < 1.0 }

  /** The exact place, in buffered frames, that n output frames at this ratio lead to. */
  function Exact(phase: real, n: nat, ratio: real): real { phase + Span(n, ratio) }

  /** The length of n output frames, frame by frame. */
  function Span(n: nat, ratio: real): real { if n == 0 then 0.0 else Span(n - 1, ratio) + ratio }

  lemma {:induction false} SpanIs(n: nat, ratio: real)
    ensures Span(n, ratio) == n as real * ratio
  {
    if n == 0 {
    } else {
      SpanIs(n - 1, ratio);
      assert n as real * ratio == (n - 1) as real * ratio + ratio;
    }
  }

  function RequiredInput(phase: real, n: nat, ratio: real): int {
    if n == 0 then 0 else Exact(phase, n - 1, ratio).Floor + 1
  }

  /** The full mixer: move on by the whole part, keep the fraction, unless the buffer runs out. */
  function AfterMix(p: Position, n: nat, ratio: real): Position
    requires p.phase >= 0.0 && ratio > 0.0
  {
    var exact := Exact(p.phase, n, ratio);
    if n == 0 then p
    else if p.frames <= exact.Floor then Position(0, 0.0)
    else Position(p.frames - exact.Floor, exact - exact.Floor as real)
  }

  /** The tail mixer: moves on likewise, but leaves the fraction alone. */
  function AfterTail(p: Position, n: nat, ratio: real): Position
    requires p.phase >= 0.0 && ratio > 0.0
  {
    var exact := Exact(p.phase, n, ratio);
    if n == 0 || p.frames == 0 then p
    else if p.frames <= exact.Floor then Position(0, 0.0)
    else Position(p.frames - exact.Floor, p.phase)
  }

  function ConsumedBy(p: Position, p': Position): int { p.frames - p'.frames }

  lemma {:induction false} ExactMonotone(phase: real, m: nat, n: nat, ratio: real)
    requires m <= n && ratio > 0.0
    ensures Exact(phase, m, ratio) <= Exact(phase, n, ratio)
    ensures n > 0 ==> Exact(phase, n, ratio) == Exact(phase, n - 1, ratio) + ratio
  {
    if m == n {
    } else {
      ExactMonotone(phase, m, n - 1, ratio);
    }
  }

  /** Enough required input means no output frame reads past what is buffered; and the test is
      exact: one frame fewer and the last output frame would. */
  lemma RequiredInputIsExact(phase: real, n: nat, ratio: real, frames: nat)
    requires phase >= 0.0 && ratio > 0.0
    ensures RequiredInput(phase, n, ratio) <= frames <==>
            forall i :: 0 <= i < n ==> Exact(phase, i, ratio).Floor < frames
  {
    forall i | 0 <= i < n ensures 0 <= Exact(phase, i, ratio).Floor <= RequiredInput(phase, n, ratio) - 1 {
      ExactMonotone(phase, i, n - 1, ratio);
      ExactMonotone(phase, 0, i, ratio);
    }
    if n > 0 {
      var i := n - 1;
      assert Exact(phase, i, ratio).Floor == RequiredInput(phase, n, ratio) - 1;
    }
  }

  /** One call of the full mixer keeps the exact position if and only if it does not run out, or
      runs out on the dot; otherwise it forgets less than a ratio's worth of frames. */
  lemma MixKeepsPosition(p: Position, n: nat, ratio: real)
    requires Fraction(p.phase) && MIN_RATIO <= ratio <= MAX_RATIO
    requires n > 0 && RequiredInput(p.phase, n, ratio) <= p.frames
    ensures var p' := AfterMix(p, n, ratio);
            var exact := Exact(p.phase, n, ratio);
            && Fraction(p'.phase) && 0 <= ConsumedBy(p, p')
            && (ConsumedBy(p, p') as real + p'.phase == exact <==> exact.Floor < p.frames || exact == p.frames as real)
            && (p.frames <= exact.Floor ==> p' == Position(0, 0.0) && 0.0 <= exact - p.frames as real < ratio)
  {
    ExactMonotone(p.phase, 0, n, ratio);
  }

  /** If the required-input test fails, the tail mixer empties the buffer and zeroes the phase. */
  lemma TailDrains(p: Position, n: nat, ratio: real)
    requires p.phase >= 0.0 && ratio > 0.0
    requires RequiredInput(p.phase, n, ratio) > p.frames > 0
    ensures AfterTail(p, n, ratio) == Position(0, 0.0)
  {
    ExactMonotone(p.phase, n - 1, n, ratio);
  }

  /** A whole number. */
  predicate Whole(x: real) { x.Floor as real == x }

  /** When the queue has nothing to give, the tail mixer is entered because the test failed at the ratio
      read first, `started`, and mixes at the ratio read anew, `now`. It then keeps the exact position if
      and only if the output spans whole frames and the buffer does not run out, or it runs out on the
      dot. */
  lemma TailKeepsPosition(p: Position, n: nat, started: real, now: real)
    requires Fraction(p.phase) && n > 0 && p.frames > 0
    requires MIN_RATIO <= started <= MAX_RATIO && MIN_RATIO <= now <= MAX_RATIO
    requires RequiredInput(p.phase, n, started) > p.frames
    ensures var p' := AfterTail(p, n, now);
            var exact := Exact(p.phase, n, now);
            ConsumedBy(p, p') as real + p'.phase == exact <==>
            (Whole(n as real * now) && exact.Floor < p.frames) || exact == p.frames as real
  {
    TailPosition(p, n, now);
    SpanIs(n, now);
    WholeSpan(p.phase, n as real * now);
  }

  lemma TailPosition(p: Position, n: nat, ratio: real)
    requires Fraction(p.phase) && ratio > 0.0 && n > 0 && p.frames > 0
    ensures var p' := AfterTail(p, n, ratio);
            var exact := Exact(p.phase, n, ratio);
            ConsumedBy(p, p') as real + p'.phase == exact <==>
            if exact.Floor < p.frames then Span(n, ratio) == exact.Floor as real else exact == p.frames as real
  {
  }

  lemma WholeSpan(phase: real, span: real)
    requires Fraction(phase) && span >= 0.0
    ensures span == (phase + span).Floor as real <==> Whole(span)
  {
    if Whole(span) {
      FloorIs(phase + span, span.Floor);
    }
    if span == (phase + span).Floor as real {
      FloorIs(span, (phase + span).Floor);
    }
  }

  lemma FloorIs(x: real, k: int)
    requires k as real <= x < k as real + 1.0
    ensures x.Floor == k
  {
  }

  /** It does slip: with 481 frames buffered, 480 to play and a ratio that falls from 1.005 to 1.0005
      between the two readings, one frame stays and 0.24 of a frame is forgotten. */
  lemma TailCanSlip()
    ensures var p := Position(481, 0.0);
            && RequiredInput(p.phase, 480, 1.005) > p.frames
            && AfterTail(p, 480, 1.0005) == Position(1, 0.0) && Exact(p.phase, 480, 1.0005) == 480.24
  {
    SlipIs(479, 1.005, 480, 1.0005);
  }

  lemma SlipIs(m: nat, started: real, n: nat, now: real)
    requires m == 479 && started == 1.005 && n == 480 && now == 1.0005
    ensures Exact(0.0, m, started) == 481.395 && Exact(0.0, n, now) == 480.24
  {
    SpanIs(m, started);
    SpanIs(n, now);
  }

  // ----- whole runs ------------------------------------------------------------------------------

  datatype Op = Decode(frames: nat) | Mix(n: nat, ratio: real)

  ghost function Apply(p: Position, op: Op): Position
    requires Fraction(p.phase) && (op.Mix? ==> op.ratio > 0.0)
  {
    match op
    case Decode(k) => p.(frames := p.frames + k)
    case Mix(n, ratio) => AfterMix(p, n, ratio)
  }

  /** A run of decodes and full mixes in which the buffer never runs out. */
  ghost predicate Unbroken(p: Position, ops: seq<Op>)
    decreases |ops|
  {
    && Fraction(p.phase)
    && (ops != [] ==>
          && (ops[0].Mix? ==> ops[0].ratio > 0.0 && Exact(p.phase, ops[0].n, ops[0].ratio).Floor < p.frames)
          && Unbroken(Apply(p, ops[0]), ops[1..]))
  }

  ghost function EndOf(p: Position, ops: seq<Op>): Position
    requires Unbroken(p, ops)
    decreases |ops|
  {
    if ops == [] then p else EndOf(Apply(p, ops[0]), ops[1..])
  }

  ghost function Decoded(ops: seq<Op>): nat {
    if ops == [] then 0 else (if ops[0].Decode? then ops[0].frames else 0) + Decoded(ops[1..])
  }

  ghost function Played(ops: seq<Op>): real {
    if ops == [] then 0.0 else (if ops[0].Mix? then ops[0].n as real * ops[0].ratio else 0.0) + Played(ops[1..])
  }

  /** Over a run that never runs out, the frames that left the buffer plus the phase are exactly
      the initial phase plus everything played: fractions never accumulate an error. */
  lemma {:induction false} RunKeepsPosition(p: Position, ops: seq<Op>)
    requires Unbroken(p, ops)
    ensures var q := EndOf(p, ops);
            Fraction(q.phase) && (p.frames + Decoded(ops) - q.frames) as real + q.phase == p.phase + Played(ops)
    decreases |ops|
  {
    if ops == [] {
    } else {
      if ops[0].Mix? {
        SpanIs(ops[0].n, ops[0].ratio);
      }
      RunKeepsPosition(Apply(p, ops[0]), ops[1..]);
    }
  }

  // ----- the samples -----------------------------------------------------------------------------

  /** Linear interpolation between neighbouring frames; the last frame has no right neighbour. */
  function SampleAt(s: seq<real>, pos: real): real {
    var i := pos.Floor;
    if !(0 <= i < |s|) then 0.0
    else
      var b := if i + 1 < |s| then s[i + 1] else s[i];
      s[i] + (b - s[i]) * (pos - i as real)
  }

  /** At a whole position the frame itself, between two frames the straight line from one to the other. */
  lemma SampleAtIs(s: seq<real>, i: nat, t: real)
    requires i < |s| && 0.0 <= t < 1.0
    ensures SampleAt(s, i as real) == s[i]
    ensures SampleAt(s, i as real + t) == if i + 1 < |s| then OnLine(s[i], s[i + 1], t) else s[i]
  {
    assert (i as real + t).Floor == i;
    assert (i as real + t) - i as real == t;
    if i + 1 < |s| {
      LineFromLeft(s[i], s[i + 1], t);
    }
  }

  /** The point t of the way from a to b. */
  function OnLine(a: real, b: real, t: real): real { a * (1.0 - t) + b * t }

  lemma LineFromLeft(a: real, b: real, t: real)
    ensures a + (b - a) * t == OnLine(a, b, t)
  {
  }

  /** Interpolation never leaves the range of the two frames. */
  lemma LineBetween(a: real, b: real, t: real, p: real)
    requires 0.0 <= t < 1.0 && p == OnLine(a, b, t)
    ensures if a <= b then a <= p <= b else a >= p >= b
  {
    var d := b - a;
    var m := d * t;
    LineFromLeft(a, b, t);
    ScaledBetween(d, t, m);
  }

  lemma ScaledBetween(d: real, t: real, m: real)
    requires 0.0 <= t < 1.0 && m == d * t
    ensures if d >= 0.0 then 0.0 <= m <= d else d <= m <= 0.0
  {
    if d >= 0.0 {
      NotNegative(d, t);
      NotNegative(d, 1.0 - t);
    } else {
      NotNegative(-d, t);
      NotNegative(-d, 1.0 - t);
    }
  }

  lemma NotNegative(x: real, y: real)
    requires x >= 0.0 && y >= 0.0
    ensures x * y >= 0.0
  {
  }

  /** Output after a full mix: the first n frames gain the interpolated buffer, the rest stay. */
  ghost predicate Mixed(
      before: seq<real>, after: seq<real>, s: seq<real>, phase: real, n: nat, ratio: real, gain: real) {
    && |after| == |before|
    && (forall i :: 0 <= i < |before| && i < n ==>
          after[i] == Added(before[i], SampleAt(s, Exact(phase, i, ratio)), gain))
    && (forall i :: n <= i < |before| ==> after[i] == before[i])
  }

  function Added(x: real, sample: real, gain: real): real { x + sample * gain }

  function TailFadeGain(framesIntoTail: nat, n: nat): real {
    if n == 0 || framesIntoTail >= n then 0.0 else 1.0 - framesIntoTail as real / n as real
  }

  /** The fade falls in equal steps from one to zero over the n frames of a callback, and stays there. */
  lemma FadeFalls(k: nat, n: nat)
    requires n > 0
    ensures TailFadeGain(0, n) == 1.0 && (k >= n ==> TailFadeGain(k, n) == 0.0)
    ensures k < n ==> TailFadeGain(k, n) - TailFadeGain(k + 1, n) == 1.0 / n as real
    ensures 0.0 <= TailFadeGain(k, n) <= 1.0
  {
    if k < n {
      FadeStep(k, n, 1.0 / n as real);
    }
  }

  lemma FadeStep(k: nat, n: nat, step: real)
    requires k < n && step == 1.0 / n as real
    ensures k as real / n as real == k as real * step && (k + 1) as real / n as real == k as real * step + step
    ensures n as real * step == 1.0 && 0.0 <= k as real * step && k as real * step + step <= 1.0
  {
    NotNegative(k as real, step);
    NotNegative((n - k - 1) as real, step);
  }

  /** How many of the first i output frames ask for a frame beyond the buffer. */
  function TailFrames(frames: nat, phase: real, i: nat, ratio: real): nat {
    if i == 0 then 0
    else TailFrames(frames, phase, i - 1, ratio) + if Exact(phase, i - 1, ratio).Floor >= frames then 1 else 0
  }

  function TailSample(s: seq<real>, phase: real, i: nat, n: nat, ratio: real): real
    requires |s| > 0
  {
    var pos := Exact(phase, i, ratio);
    if pos.Floor < |s| - 1 then SampleAt(s, pos)
    else if pos.Floor == |s| - 1 then s[|s| - 1]
    else s[|s| - 1] * TailFadeGain(TailFrames(|s|, phase, i + 1, ratio), n)
  }

  /** Output frame f is the first to ask for a frame beyond the buffer. */
  predicate FirstBeyond(frames: nat, phase: real, f: nat, ratio: real) {
    Exact(phase, f, ratio).Floor >= frames && (f > 0 ==> Exact(phase, f - 1, ratio).Floor < frames)
  }

  lemma {:induction false} TailFramesIs(frames: nat, phase: real, f: nat, i: nat, ratio: real)
    requires ratio > 0.0 && FirstBeyond(frames, phase, f, ratio)
    ensures TailFrames(frames, phase, i, ratio) == if i <= f then 0 else i - f
  {
    if i == 0 {
    } else {
      TailFramesIs(frames, phase, f, i - 1, ratio);
      if i <= f {
        ExactMonotone(phase, i - 1, f - 1, ratio);
      } else {
        ExactMonotone(phase, f, i - 1, ratio);
      }
    }
  }

  /** The tail plays the buffer, holds the last frame up to its end, and from the first frame beyond lets it fade
      by one more n-th with every output frame. */
  lemma TailIs(s: seq<real>, phase: real, f: nat, i: nat, n: nat, ratio: real)
    requires |s| > 0 && ratio > 0.0 && FirstBeyond(|s|, phase, f, ratio) && phase >= 0.0
    ensures
      var at, last := Exact(phase, i, ratio), s[|s| - 1];
      && (i < f && at < (|s| - 1) as real ==> TailSample(s, phase, i, n, ratio) == SampleAt(s, at))
      && (i < f && at >= (|s| - 1) as real ==> TailSample(s, phase, i, n, ratio) == last)
      && (i >= f ==> TailSample(s, phase, i, n, ratio) == last * TailFadeGain(i - f + 1, n))
  {
    TailFramesIs(|s|, phase, f, i + 1, ratio);
    if i < f {
      ExactMonotone(phase, i, f - 1, ratio);
    } else {
      ExactMonotone(phase, f, i, ratio);
    }
  }

  /** Output when the first `done` of n frames have been mixed by the tail mixer. */
  ghost predicate MixedTail(
      before: seq<real>, after: seq<real>, s: seq<real>, phase: real, done: nat, n: nat, ratio: real, gain: real)
    requires |s| > 0
  {
    && |after| == |before|
    && (forall i :: 0 <= i < |before| && i < done ==>
          after[i] == Added(before[i], TailSample(s, phase, i, n, ratio), gain))
    && (forall i :: done <= i < |before| ==> after[i] == before[i])
  }

  /** Output after the tail mixer, which leaves it alone if there is nothing to mix. */
  ghost predicate TailHeard(
      before: seq<real>, after: seq<real>, s: seq<real>, phase: real, n: nat, ratio: real, gain: real) {
    if n == 0 || s == [] then after == before else MixedTail(before, after, s, phase, n, n, ratio, gain)
  }

  function Dropped(s: seq<real>, n: nat): seq<real> {
    if |s| <= n then [] else s[n..]
  }

  /** What is left is the rest, frame by frame. */
  lemma DroppedIs(s: seq<real>, n: nat, i: nat)
    ensures |Dropped(s, n)| == if |s| <= n then 0 else |s| - n
    ensures i < |Dropped(s, n)| ==> Dropped(s, n)[i] == s[n + i]
  {
  }

  /** Nothing asked for, or nothing there for the tail: nothing moves. */
  lemma NothingMoves(p: Position, n: nat, ratio: real)
    requires p.phase >= 0.0 && ratio > 0.0
    ensures AfterMix(p, 0, ratio) == p && AfterTail(p, 0, ratio) == p
    ensures p.frames == 0 ==> AfterTail(p, n, ratio) == p
  {
  }

  class PcmBuffer {
    const pcm: array<real>
    var buffered: nat
    var phase: real

    ghost predicate Valid()
      reads this
    {
      pcm.Length == PCM_BUFFER_FRAMES && buffered <= pcm.Length && Fraction(phase)
    }

    ghost function Contents(): (s: seq<real>)
      requires Valid()
      reads this, pcm
      ensures |s| == buffered
    {
      pcm[..buffered]
    }

    ghost function At(): Position
      reads this
    {
      Position(buffered, phase)
    }

    constructor ()
      ensures Valid() && At() == Position(0, 0.0) && fresh(pcm)
    {
      pcm := new real[PCM_BUFFER_FRAMES](_ => 0.0);
      buffered, phase := 0, 0.0;
    }

    method Append(samples: seq<real>)
      requires Valid() && buffered + |samples| <= pcm.Length
      modifies this`buffered, pcm
      ensures Valid() && Contents() == old(Contents()) + samples
    {
      forall i | 0 <= i < |samples| {
        pcm[buffered + i] := samples[i];
      }
      buffered := buffered + |samples|;
    }

    method Empty(resetPhase: bool)
      requires Valid()
      modifies this
      ensures Valid() && buffered == 0 && phase == if resetPhase then 0.0 else old(phase)
    {
      buffered := 0;
      if resetPhase {
        phase := 0.0;
      }
    }

    /** Shift the rest of the buffer to the front; an emptied buffer forgets the phase. */
    method Consume(frameCount: nat) returns (consumed: nat)
      requires Valid()
      modifies this, pcm
      ensures Valid() && Contents() == Dropped(old(Contents()), frameCount)
      ensures consumed == old(buffered) - buffered
      ensures phase == if old(buffered) <= frameCount then 0.0 else old(phase)
    {
      consumed := if frameCount < buffered then frameCount else buffered;
      if buffered <= frameCount {
        buffered := 0;
        phase := 0.0;
        return;
      }
      var remaining := buffered - frameCount;
      var i := 0;
      while i < remaining
        invariant 0 <= i <= remaining && buffered == old(buffered) && phase == old(phase)
        invariant forall k :: 0 <= k < i ==> pcm[k] == old(pcm[frameCount + k])
        invariant forall k :: i <= k < pcm.Length ==> pcm[k] == old(pcm[k])
      {
        pcm[i] := pcm[frameCount + i];
        i := i + 1;
      }
      buffered := remaining;
      assert pcm[..remaining] == old(pcm[..buffered])[frameCount..];
    }

    /** The loop of the full mixer: every read is inside the buffered frames. */
    method Render(output: array<real>, n: nat, gain: real, ratio: real)
      requires Valid() && ratio > 0.0 && n <= output.Length && output != pcm
      requires RequiredInput(phase, n, ratio) <= buffered
      modifies output
      ensures Mixed(old(output[..]), output[..], Contents(), phase, n, ratio, gain)
    {
      RequiredInputIsExact(phase, n, ratio, buffered);
      var i: nat := 0;
      while i < n
        invariant i <= n && Mixed(old(output[..]), output[..], Contents(), phase, i, ratio, gain)
      {
        ExactMonotone(phase, 0, i, ratio);
        var sample := Interpolate(Exact(phase, i, ratio));
        output[i] := Added(output[i], sample, gain);
        i := i + 1;
      }
    }

    method Interpolate(sourcePos: real) returns (sample: real)
      requires Valid() && 0 <= sourcePos.Floor < buffered
      ensures sample == SampleAt(Contents(), sourcePos)
    {
      var index := sourcePos.Floor;
      var a := pcm[index];
      var b := if index + 1 < buffered then pcm[index + 1] else a;
      sample := a + (b - a) * (sourcePos - index as real);
    }

    method MixResampled(output: array<real>, n: nat, gain: real, ratio: real) returns (consumed: nat)
      requires Valid() && ratio > 0.0 && n <= output.Length && output != pcm
      requires RequiredInput(phase, n, ratio) <= buffered
      modifies this, pcm, output
      ensures Valid() && At() == AfterMix(old(At()), n, ratio)
      ensures consumed == old(buffered) - buffered && Contents() == old(Contents())[consumed..]
      ensures Mixed(old(output[..]), output[..], old(Contents()), old(phase), n, ratio, gain)
    {
      Render(output, n, gain, ratio);
      if n == 0 {
        return 0;
      }
      consumed := AdvancePhase(n, ratio);
    }

    method AdvancePhase(n: nat, ratio: real) returns (consumed: nat)
      requires Valid() && ratio > 0.0 && n > 0
      modifies this, pcm
      ensures Valid() && At() == AfterMix(old(At()), n, ratio)
      ensures consumed == old(buffered) - buffered && Contents() == old(Contents())[consumed..]
    {
      var consumedExact := Exact(phase, n, ratio);
      ExactMonotone(phase, 0, n, ratio);
      var consumedFrames := consumedExact.Floor;
      phase := consumedExact - consumedFrames as real;
      consumed := Consume(consumedFrames);
    }

    /** The loop of the tail mixer: past the last frame it holds that frame and fades it out. */
    method RenderTail(output: array<real>, n: nat, gain: real, ratio: real)
      requires Valid() && ratio > 0.0 && n <= output.Length && output != pcm && buffered > 0
      modifies output
      ensures MixedTail(old(output[..]), output[..], Contents(), phase, n, n, ratio, gain)
    {
      var framesIntoTail: nat := 0;
      var i: nat := 0;
      while i < n
        invariant i <= n && framesIntoTail == TailFrames(buffered, phase, i, ratio)
        invariant MixedTail(old(output[..]), output[..], Contents(), phase, i, n, ratio, gain)
      {
        ExactMonotone(phase, 0, i, ratio);
        var sample;
        sample, framesIntoTail := HeldSample(i, n, ratio, framesIntoTail);
        output[i] := Added(output[i], sample, gain);
        i := i + 1;
      }
    }

    method HeldSample(i: nat, n: nat, ratio: real, tail: nat) returns (sample: real, framesIntoTail: nat)
      requires Valid() && buffered > 0 && Exact(phase, i, ratio) >= 0.0 && tail == TailFrames(buffered, phase, i, ratio)
      ensures framesIntoTail == TailFrames(buffered, phase, i + 1, ratio)
      ensures sample == TailSample(Contents(), phase, i, n, ratio)
    {
      var lastIndex := buffered - 1;
      var sourcePos := Exact(phase, i, ratio);
      var requested := sourcePos.Floor;
      var index := if requested < lastIndex then requested else lastIndex;
      var frac := if requested < lastIndex then sourcePos - requested as real else 0.0;
      var a := pcm[index];
      var b := if index + 1 < buffered then pcm[index + 1] else a;
      sample := a + (b - a) * frac;
      framesIntoTail := tail;
      if requested > lastIndex {
        framesIntoTail := framesIntoTail + 1;
        sample := sample * TailFadeGain(framesIntoTail, n);
      }
    }

    method MixAvailableWithTail(output: array<real>, n: nat, gain: real, ratio: real) returns (consumed: nat)
      requires Valid() && ratio > 0.0 && n <= output.Length && output != pcm
      modifies this, pcm, output
      ensures Valid() && At() == AfterTail(old(At()), n, ratio)
      ensures consumed == old(buffered) - buffered && Contents() == old(Contents())[consumed..]
      ensures TailHeard(old(output[..]), output[..], old(Contents()), old(phase), n, ratio, gain)
    {
      if n == 0 || buffered == 0 {
        return 0;
      }
      RenderTail(output, n, gain, ratio);
      ExactMonotone(phase, 0, n, ratio);
      var consumedExact := Exact(phase, n, ratio);
      var consumedFrames := if consumedExact.Floor < buffered then consumedExact.Floor else buffered;
      consumed := Consume(consumedFrames);
    }
  }
}

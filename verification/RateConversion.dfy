/** Running the engine at its own sample rate behind a device at another: how many engine frames each
    device callback is worth, and the queues in front of the resamplers. */
module RateConversion {

  import opened Common

  const CHUNK_FRAMES := 960

  // ----- how many engine frames a callback is worth ------------------------------------------------

  /** Device and engine rate, and the largest device callback prepared for. */
  datatype Setup = Setup(deviceRate: real, engineRate: nat, deviceFrames: nat) {
    predicate Valid() { deviceRate > 0.0 && engineRate >= 1 }

    function Exact(frames: nat): (x: real)
      requires Valid()
      ensures x >= 0.0
    {
      frames as real * engineRate as real / deviceRate
    }

    /** Engine frames there is room for. */
    function Capacity(): nat
      requires Valid()
    {
      Ceil(Exact(deviceFrames)) + 8
    }
  }

  function Ceil(x: real): nat
    requires x >= 0.0
  {
    if x.Floor as real == x then x.Floor else x.Floor + 1
  }

  datatype Pace = Pace(remainder: real, frames: nat)

  /** The remainder carried on and the frames to run now, for one callback. */
  function Next(s: Setup, remainder: real, device: nat): Pace
    requires s.Valid() && remainder >= 0.0
  {
    var due := remainder + s.Exact(device);
    var frames := Min(due.Floor, s.Capacity());
    Pace(due - frames as real, frames)
  }

  function Total(callbacks: seq<nat>): nat {
    if callbacks == [] then 0 else Total(callbacks[..|callbacks| - 1]) + callbacks[|callbacks| - 1]
  }

  ghost predicate Prepared(s: Setup, callbacks: seq<nat>) {
    s.Valid() && forall i :: 0 <= i < |callbacks| ==> callbacks[i] <= s.deviceFrames
  }

  lemma ExactAdds(s: Setup, a: nat, b: nat)
    requires s.Valid()
    ensures s.Exact(a + b) == s.Exact(a) + s.Exact(b)
  {
    var e := s.engineRate as real;
    assert (a + b) as real * e == a as real * e + b as real * e;
  }

  lemma ExactGrows(s: Setup, a: nat, b: nat)
    requires s.Valid() && a <= b
    ensures s.Exact(a) <= s.Exact(b)
  {
    ExactAdds(s, a, b - a);
  }

  /** With a remainder below one and a callback no larger than prepared for, the room is enough. */
  lemma ClampNeverBites(s: Setup, remainder: real, device: nat)
    requires s.Valid() && 0.0 <= remainder < 1.0 && device <= s.deviceFrames
    ensures
      var p, due := Next(s, remainder, device), remainder + s.Exact(device);
      p.frames == due.Floor && 0.0 <= p.remainder < 1.0 && p.frames < s.Capacity()
  {
    ExactGrows(s, device, s.deviceFrames);
  }

  function RemainderAfter(s: Setup, callbacks: seq<nat>): (r: real)
    requires Prepared(s, callbacks)
    ensures r >= 0.0
  {
    if callbacks == [] then 0.0
    else
      var n := |callbacks| - 1;
      Next(s, RemainderAfter(s, callbacks[..n]), callbacks[n]).remainder
  }

  function FramesAfter(s: Setup, callbacks: seq<nat>): nat
    requires Prepared(s, callbacks)
  {
    if callbacks == [] then 0
    else
      var n := |callbacks| - 1;
      FramesAfter(s, callbacks[..n]) + Next(s, RemainderAfter(s, callbacks[..n]), callbacks[n]).frames
  }

  /** No drift: however the device cuts its stream, the engine has run exactly the whole frames the
      device's frames are worth, and the fraction left is carried. */
  lemma {:induction false} NoDrift(s: Setup, callbacks: seq<nat>)
    requires Prepared(s, callbacks)
    ensures FramesAfter(s, callbacks) == s.Exact(Total(callbacks)).Floor
    ensures RemainderAfter(s, callbacks) == s.Exact(Total(callbacks)) - FramesAfter(s, callbacks) as real
    ensures 0.0 <= RemainderAfter(s, callbacks) < 1.0
  {
    if callbacks == [] {
    } else {
      var n := |callbacks| - 1;
      NoDrift(s, callbacks[..n]);
      ClampNeverBites(s, RemainderAfter(s, callbacks[..n]), callbacks[n]);
      ExactAdds(s, Total(callbacks[..n]), callbacks[n]);
      Whole(s.Exact(Total(callbacks)), FramesAfter(s, callbacks), RemainderAfter(s, callbacks));
    }
  }

  lemma Whole(x: real, n: nat, fraction: real)
    requires x == n as real + fraction && 0.0 <= fraction < 1.0
    ensures x.Floor == n
  {
  }

  // ----- the queue in front of a resampler ---------------------------------------------------------

  /** What a push leaves in a queue with room for `size`: if it does not fit, what was there goes. */
  function Pushed(held: seq<real>, samples: seq<real>, size: nat): seq<real> {
    (if |held| + |samples| > size then [] else held) + samples
  }

  /** A resampler claims to have used so many; no more than there are, no fewer than none. */
  function Used(claimed: int, held: nat): nat { Min(Max(claimed, 0), held) }

  function Dropped(held: seq<real>, claimed: int): seq<real> { held[Used(claimed, |held|)..] }

  datatype QueueStep = Push(samples: seq<real>) | Drop(claimed: int)

  function Held(steps: seq<QueueStep>, size: nat): seq<real> {
    if steps == [] then []
    else
      var n := |steps| - 1;
      match steps[n]
      case Push(s) => Pushed(Held(steps[..n], size), s, size)
      case Drop(c) => Dropped(Held(steps[..n], size), c)
  }

  function Stream(steps: seq<QueueStep>): seq<real> {
    if steps == [] then []
    else
      var n := |steps| - 1;
      match steps[n]
      case Push(s) => Stream(steps[..n]) + s
      case Drop(_) => Stream(steps[..n])
  }

  /** a is how b ends. */
  predicate Ends(a: seq<real>, b: seq<real>) { |a| <= |b| && a == b[|b| - |a|..] }

  lemma EndsAfterPush(a: seq<real>, b: seq<real>, samples: seq<real>, size: nat)
    requires Ends(a, b)
    ensures Ends(Pushed(a, samples, size), b + samples)
  {
    var p, q := Pushed(a, samples, size), b + samples;
    assert q[|q| - |samples|..] == samples && q[|q| - |a + samples|..] == a + samples;
  }

  lemma EndsAfterDrop(a: seq<real>, b: seq<real>, claimed: int)
    requires Ends(a, b)
    ensures Ends(Dropped(a, claimed), b)
  {
  }

  /** Whatever the resampler claims, the queue fits its buffer and holds the latest samples pushed,
      in order and without a hole. */
  lemma {:induction false} QueueHoldsLatest(steps: seq<QueueStep>, size: nat)
    requires forall i :: 0 <= i < |steps| && steps[i].Push? ==> |steps[i].samples| <= size
    ensures |Held(steps, size)| <= size && Ends(Held(steps, size), Stream(steps))
  {
    if steps == [] {
    } else {
      var n := |steps| - 1;
      QueueHoldsLatest(steps[..n], size);
      match steps[n]
      case Push(s) => EndsAfterPush(Held(steps[..n], size), Stream(steps[..n]), s, size);
      case Drop(c) => EndsAfterDrop(Held(steps[..n], size), Stream(steps[..n]), c);
    }
  }

  /** Every push fits. */
  predicate AllFit(steps: seq<QueueStep>, size: nat) {
    steps == [] ||
    (var n := |steps| - 1;
     AllFit(steps[..n], size) && (steps[n].Push? ==> |Held(steps[..n], size)| + |steps[n].samples| <= size))
  }

  /** All the samples used so far. */
  function UsedBy(steps: seq<QueueStep>, size: nat): nat {
    if steps == [] then 0
    else
      var n := |steps| - 1;
      UsedBy(steps[..n], size) + if steps[n].Drop? then Used(steps[n].claimed, |Held(steps[..n], size)|) else 0
  }

  /** While every push fits, nothing is lost: the queue holds exactly what was pushed and not yet used. */
  lemma {:induction false} NothingLost(steps: seq<QueueStep>, size: nat)
    requires AllFit(steps, size)
    ensures UsedBy(steps, size) <= |Stream(steps)| && Held(steps, size) == Stream(steps)[UsedBy(steps, size)..]
  {
    if steps == [] {
    } else {
      var n := |steps| - 1;
      NothingLost(steps[..n], size);
      var used := UsedBy(steps[..n], size);
      match steps[n]
      case Push(more) => PushGoesOn(Stream(steps[..n]), used, more);
      case Drop(claimed) => DropGoesOn(Stream(steps[..n]), used, Used(claimed, |Held(steps[..n], size)|));
    }
  }

  lemma PushGoesOn(stream: seq<real>, used: nat, more: seq<real>)
    requires used <= |stream|
    ensures stream[used..] + more == (stream + more)[used..]
  {
  }

  lemma DropGoesOn(stream: seq<real>, used: nat, k: nat)
    requires used + k <= |stream|
    ensures stream[used..][k..] == stream[used + k..]
  {
  }

  /** The least whole number not below x. */
  lemma CeilIs(x: real)
    requires x >= 0.0
    ensures x <= Ceil(x) as real < x + 1.0
  {
  }

  class Queue {
    const buffer: array<real>
    var frames: nat

    ghost predicate Valid()
      reads this
    {
      frames <= buffer.Length
    }

    ghost function Contents(): seq<real>
      requires Valid()
      reads this, buffer
    {
      buffer[..frames]
    }

    constructor (size: nat)
      ensures Valid() && fresh(buffer) && buffer.Length == size && Contents() == []
    {
      buffer := new real[size];
      frames := 0;
    }

    method Add(samples: seq<real>)
      requires Valid() && |samples| <= buffer.Length
      modifies this, buffer
      ensures Valid() && Contents() == Pushed(old(Contents()), samples, buffer.Length)
    {
      if frames + |samples| > buffer.Length {
        frames := 0;
      }
      CopyIn(samples);
      frames := frames + |samples|;
    }

    method CopyIn(samples: seq<real>)
      requires Valid() && frames + |samples| <= buffer.Length
      modifies buffer
      ensures buffer[..frames] == old(buffer[..frames]) && buffer[frames..frames + |samples|] == samples
    {
      for i := 0 to |samples|
        invariant buffer[..frames] == old(buffer[..frames])
        invariant forall j :: 0 <= j < i ==> buffer[frames + j] == samples[j]
      {
        buffer[frames + i] := samples[i];
      }
    }

    /** What the resampler used leaves, and the rest moves to the front. */
    method Remove(claimed: int)
      requires Valid()
      modifies this, buffer
      ensures Valid() && Contents() == Dropped(old(Contents()), claimed)
    {
      var used := Min(Max(claimed, 0), frames);
      frames := frames - used;
      MoveDown(used);
    }

    method MoveDown(gap: nat)
      requires frames + gap <= buffer.Length
      modifies buffer
      ensures buffer[..frames] == old(buffer[gap..gap + frames])
    {
      for i := 0 to frames
        invariant forall j :: 0 <= j < i ==> buffer[j] == old(buffer[gap + j])
        invariant forall j :: gap + i <= j < gap + frames ==> buffer[j] == old(buffer[j])
      {
        buffer[i] := buffer[gap + i];
      }
    }
  }

  // ----- one device callback -----------------------------------------------------------------------

  /** What a call of the engine was given: consecutive pieces of the block. */
  datatype Chunk = Chunk(offset: nat, frames: nat)

  /** The pieces lie end to end, cover n frames from the start, and none is empty or larger than the
      engine's scratch space; only the last may be smaller. */
  ghost predicate Partition(chunks: seq<Chunk>, n: nat) {
    && (forall i :: 0 <= i < |chunks| ==> 0 < chunks[i].frames <= CHUNK_FRAMES)
    && (forall i :: 0 <= i < |chunks| - 1 ==> chunks[i].frames == CHUNK_FRAMES)
    && (forall i :: 0 <= i < |chunks| ==> chunks[i].offset == i * CHUNK_FRAMES)
    && (if chunks == [] then n == 0 else n == chunks[|chunks| - 1].offset + chunks[|chunks| - 1].frames)
  }

  method ForEachChunk(n: nat) returns (chunks: seq<Chunk>)
    ensures Partition(chunks, n)
  {
    chunks := [];
    var offset := 0;
    while offset < n
      invariant offset <= n && Partition(chunks, offset)
      invariant offset < n ==> offset == |chunks| * CHUNK_FRAMES
    {
      var remaining := n - offset;
      var frames := if remaining < CHUNK_FRAMES then remaining else CHUNK_FRAMES;
      chunks := chunks + [Chunk(offset, frames)];
      offset := offset + frames;
    }
  }

  class Backend {
    const setup: Setup
    const input: Queue
    const left: Queue
    const right: Queue
    var remainder: real

    ghost predicate Valid()
      reads this, input, left, right
    {
      && setup.Valid() && input.Valid() && left.Valid() && right.Valid()
      && input.buffer.Length == 2 * setup.deviceFrames + 16
      && left.buffer.Length == right.buffer.Length == 2 * setup.Capacity() + 16
      && 0.0 <= remainder < 1.0
      && input != left && input != right && left != right
      && input.buffer != left.buffer && input.buffer != right.buffer && left.buffer != right.buffer
    }

    constructor (s: Setup)
      requires s.Valid()
      ensures Valid() && setup == s && remainder == 0.0
      ensures input.Contents() == left.Contents() == right.Contents() == []
      ensures fresh(input) && fresh(input.buffer) && fresh(left) && fresh(left.buffer) && fresh(right)
      ensures fresh(right.buffer)
    {
      setup := s;
      remainder := 0.0;
      input := new Queue(2 * s.deviceFrames + 16);
      left := new Queue(2 * s.Capacity() + 16);
      right := new Queue(2 * s.Capacity() + 16);
    }

    /** The input half: queue the device's samples, work out the engine's frames, and let the input
        resampler take what it claims. */
    method TakeInput(samples: seq<real>, claimed: int) returns (frames: nat)
      requires Valid() && |samples| <= setup.deviceFrames
      modifies this, input, input.buffer
      ensures Valid()
      ensures
        var p := Next(setup, old(remainder), |samples|);
        remainder == p.remainder && frames == p.frames < setup.Capacity()
      ensures
        var queued := Pushed(old(input.Contents()), samples, input.buffer.Length);
        input.Contents() == if frames == 0 then queued else Dropped(queued, claimed)
    {
      input.Add(samples);
      ClampNeverBites(setup, remainder, |samples|);
      var due := remainder + setup.Exact(|samples|);
      frames := Min(due.Floor, setup.Capacity());
      remainder := due - frames as real;
      if frames != 0 {
        input.Remove(claimed);
      }
    }

    /** The output half for one channel; a channel the device does not offer is queued all the same. */
    method GiveOutput(queue: Queue, samples: seq<real>, offered: bool, claimed: int)
      requires Valid() && (queue == left || queue == right) && |samples| <= setup.Capacity()
      modifies queue, queue.buffer
      ensures Valid()
      ensures
        var queued := Pushed(old(queue.Contents()), samples, queue.buffer.Length);
        queue.Contents() == if offered then Dropped(queued, claimed) else queued
    {
      queue.Add(samples);
      if offered {
        queue.Remove(claimed);
      }
    }

    /** A whole device callback. The engine turns so many frames into an interleaved block; the
        resamplers claim what they used. Samples beyond the prepared size are not taken. */
    method DeviceCallback(samples: seq<real>, inputClaimed: int, engine: nat -> seq<real>, channels: nat,
            offered: (bool, bool), claimed: (int, int))
      returns (frames: nat, chunks: seq<Chunk>)
      requires Valid() && 1 <= channels <= 2 && forall n: nat :: |engine(n)| == n * channels
      modifies this, input, input.buffer, left, left.buffer, right, right.buffer
      ensures Valid() && Partition(chunks, frames)
      ensures var taken := Taken(samples, setup.deviceFrames);
        && remainder == Next(setup, old(remainder), |taken|).remainder
        && frames == Next(setup, old(remainder), |taken|).frames
        && input.Contents() == InputAfter(old(input.Contents()), taken, input.buffer.Length, frames, inputClaimed)
      ensures left.Contents() == OutputAfter(old(left.Contents()), engine(frames), channels, 0, frames,
                                             left.buffer.Length, offered.0, claimed.0)
      ensures right.Contents() == if channels == 1 then old(right.Contents())
              else OutputAfter(old(right.Contents()), engine(frames), channels, 1, frames, right.buffer.Length,
                               offered.1, claimed.1)
    {
      chunks := [];
      var taken := Taken(samples, setup.deviceFrames);
      frames := TakeInput(taken, inputClaimed);
      if frames == 0 {
        return;
      }
      chunks := ForEachChunk(frames);
      var block := engine(frames);
      var first := Channel(block, channels, 0, frames);
      GiveOutput(left, first, offered.0, claimed.0);
      if channels == 2 {
        var second := Channel(block, channels, 1, frames);
        GiveOutput(right, second, offered.1, claimed.1);
      }
    }

    /** The engine's answer for one channel, taken out of the interleaved block. */
    static method Channel(block: seq<real>, channels: nat, channel: nat, frames: nat) returns (samples: seq<real>)
      requires channel < channels && |block| == frames * channels
      ensures samples == OfChannel(block, channels, channel, frames)
    {
      samples := [];
      for i := 0 to frames
        invariant samples == OfChannel(block, channels, channel, i)
      {
        WithinBlock(i, channels, channel, frames);
        samples := samples + [block[i * channels + channel]];
      }
    }
  }

  function Taken(samples: seq<real>, most: nat): seq<real> { if |samples| <= most then samples else samples[..most] }

  function OfChannel(block: seq<real>, channels: nat, channel: nat, frames: nat): seq<real>
    requires channel < channels && |block| >= frames * channels
  {
    seq(frames, i requires 0 <= i < frames => WithinBlock(i, channels, channel, frames); block[i * channels + channel])
  }

  lemma WithinBlock(i: nat, channels: nat, channel: nat, frames: nat)
    requires i < frames && channel < channels
    ensures 0 <= i * channels + channel < frames * channels
    ensures (i + 1) * channels <= frames * channels
  {
    Ordered(i + 1, frames, channels);
    assert (i + 1) * channels == i * channels + channels;
  }

  lemma Ordered(a: nat, b: nat, c: nat)
    requires a <= b
    ensures a * c <= b * c
  {
  }

  function InputAfter(held: seq<real>, taken: seq<real>, size: nat, frames: nat, claimed: int): seq<real> {
    var queued := Pushed(held, taken, size);
    if frames == 0 then queued else Dropped(queued, claimed)
  }

  function OutputAfter(held: seq<real>, block: seq<real>, channels: nat, channel: nat, frames: nat, size: nat,
          offered: bool, claimed: int): seq<real>
    requires channel < channels && |block| == frames * channels
  {
    if frames == 0 then held
    else
      var queued := Pushed(held, OfChannel(block, channels, channel, frames), size);
      if offered then Dropped(queued, claimed) else queued
  }

  /** k samples brought into the range of what there is. */
  predicate Brought(k: nat, claimed: int, most: nat) {
    k <= most && (claimed < 0 ==> k == 0) && (claimed > most ==> k == most) && (0 <= claimed <= most ==> k == claimed)
  }

  /** Between callbacks that fit, the input queue gains the samples taken, at most as many as prepared for, and
      loses what the resampler claims, but nothing while no engine frame is due. */
  lemma InputQueueMoves(held: seq<real>, samples: seq<real>, most: nat, size: nat, frames: nat, claimed: int)
    requires |held| + |Taken(samples, most)| <= size
    ensures
      var all := held + samples[..Min(|samples|, most)];
      && (frames == 0 ==> InputAfter(held, Taken(samples, most), size, frames, claimed) == all)
      && (frames > 0 ==> exists k: nat ::
            Brought(k, claimed, |all|) && InputAfter(held, Taken(samples, most), size, frames, claimed) == all[k..])
  {
    assert Taken(samples, most) == samples[..Min(|samples|, most)];
    var all := held + samples[..Min(|samples|, most)];
    assert Brought(Used(claimed, |all|), claimed, |all|);
  }

  predicate FromBlock(all: seq<real>, i: int, block: seq<real>, j: int) {
    0 <= i < |all| && 0 <= j < |block| && all[i] == block[j]
  }

  /** An output queue gains its own channel of the block, and loses what the resampler claims if the device
      offers the channel. */
  lemma OutputQueueMoves(held: seq<real>, block: seq<real>, channels: nat, channel: nat, frames: nat, size: nat,
          offered: bool, claimed: int, all: seq<real>)
    requires channel < channels && |block| == frames * channels && |held| + frames <= size
    requires |all| == |held| + frames && all[..|held|] == held
    requires forall i :: 0 <= i < frames ==> FromBlock(all, |held| + i, block, i * channels + channel)
    ensures
      var after := OutputAfter(held, block, channels, channel, frames, size, offered, claimed);
      && (frames == 0 || !offered ==> after == all)
      && (frames > 0 && offered ==> exists k: nat :: Brought(k, claimed, |all|) && after == all[k..])
  {
    var own := OfChannel(block, channels, channel, frames);
    forall i | 0 <= i < frames ensures own[i] == all[|held| + i] {
      assert FromBlock(all, |held| + i, block, i * channels + channel);
    }
    assert held + own == all;
    assert Brought(Used(claimed, |all|), claimed, |all|);
  }
}

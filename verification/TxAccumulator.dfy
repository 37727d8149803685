/** Cutting the captured sound into network frames: device callbacks of any size go in, frames of the
    agreed length come out, each stamped with the time its first sample was captured. */
module TxAccumulator {

  import opened Common

  const CAPACITY := 960

  /** One captured sample and the capture time of the callback it came with. */
  datatype Sample = Sample(value: real, time: int)

  datatype Frame = Frame(samples: seq<real>, time: int)

  function Captured(values: seq<real>, time: int): seq<Sample> {
    seq(|values|, i requires 0 <= i < |values| => Sample(values[i], time))
  }

  function Values(s: seq<Sample>): seq<real> { seq(|s|, i requires 0 <= i < |s| => s[i].value) }

  // ----- what a stream is cut into -----------------------------------------------------------------

  function Chunks(s: seq<Sample>, target: nat): seq<seq<Sample>>
    requires target > 0
  {
    if |s| < target then [] else [s[..target]] + Chunks(s[target..], target)
  }

  function Rest(s: seq<Sample>, target: nat): seq<Sample>
    requires target > 0
  {
    if |s| < target then s else Rest(s[target..], target)
  }

  function Flatten(cs: seq<seq<Sample>>): seq<Sample> {
    if cs == [] then [] else cs[0] + Flatten(cs[1..])
  }

  predicate Nonempty(cs: seq<seq<Sample>>) { forall i :: 0 <= i < |cs| ==> cs[i] != [] }

  /** A chunk leaves as its values and the time of its first sample. */
  function AsFrames(cs: seq<seq<Sample>>): seq<Frame>
    requires Nonempty(cs)
  {
    seq(|cs|, i requires 0 <= i < |cs| => Frame(Values(cs[i]), cs[i][0].time))
  }

  lemma {:induction false} RestIsShort(s: seq<Sample>, target: nat)
    requires target > 0
    ensures |Rest(s, target)| < target
    decreases |s|
  {
    if |s| < target {
    } else {
      RestIsShort(s[target..], target);
    }
  }

  /** What waits is what is left over the whole frames. */
  lemma {:induction false} RestLength(s: seq<Sample>, target: nat)
    requires target > 0
    ensures |Rest(s, target)| == |s| % target
    decreases |s|
  {
    if |s| < target {
      QuotientIs(|s|, 0, |s|, target);
    } else {
      RestLength(s[target..], target);
      var q, r := (|s| - target) / target, (|s| - target) % target;
      assert |s| == (q + 1) * target + r;
      QuotientIs(|s|, q + 1, r, target);
    }
  }

  predicate ValidTarget(target: nat) { 0 < target <= CAPACITY }

  /** How much waits after a callback of n samples that found so much waiting. */
  function LeftWaiting(accumulated: nat, target: nat, n: nat): nat {
    if !ValidTarget(target) then 0
    else if accumulated <= target then (accumulated + n) % target
    else if accumulated + n <= CAPACITY then accumulated + n
    else accumulated
  }

  /** Every frame has the agreed length. */
  lemma {:induction false} ChunkLengths(s: seq<Sample>, target: nat)
    requires target > 0
    ensures forall i :: 0 <= i < |Chunks(s, target)| ==> |Chunks(s, target)[i]| == target
    decreases |s|
  {
    if |s| < target {
    } else {
      ChunkLengths(s[target..], target);
    }
  }

  /** Nothing is lost, repeated or reordered. */
  lemma {:induction false} Reassembles(s: seq<Sample>, target: nat)
    requires target > 0
    ensures Flatten(Chunks(s, target)) + Rest(s, target) == s
    decreases |s|
  {
    if |s| < target {
    } else {
      var head, tail := s[..target], s[target..];
      Reassembles(tail, target);
      FlattenFirst(head, Chunks(tail, target), Rest(tail, target));
      SplitAt(s, target);
    }
  }

  lemma SplitAt(s: seq<Sample>, k: nat)
    requires k <= |s|
    ensures s[..k] + s[k..] == s
  {
  }

  lemma FlattenFirst(head: seq<Sample>, cs: seq<seq<Sample>>, rest: seq<Sample>)
    ensures Flatten([head] + cs) + rest == head + (Flatten(cs) + rest)
  {
    assert ([head] + cs)[1..] == cs;
  }

  /** Cutting can stop and go on anywhere. */
  lemma {:induction false} CutsInPieces(a: seq<Sample>, b: seq<Sample>, target: nat)
    requires target > 0
    ensures Chunks(a + b, target) == Chunks(a, target) + Chunks(Rest(a, target) + b, target)
    ensures Rest(a + b, target) == Rest(Rest(a, target) + b, target)
    decreases |a|
  {
    if |a| < target {
    } else {
      CutsInPieces(a[target..], b, target);
      assert (a + b)[..target] == a[..target] && (a + b)[target..] == a[target..] + b;
    }
  }

  /** The frames a stream leaves as. */
  function FramesOf(s: seq<Sample>, target: nat): seq<Frame>
    requires target > 0
  {
    ChunkLengths(s, target);
    AsFrames(Chunks(s, target))
  }

  lemma FramesInPieces(a: seq<Sample>, b: seq<Sample>, target: nat)
    requires target > 0
    ensures FramesOf(a + b, target) == FramesOf(a, target) + FramesOf(Rest(a, target) + b, target)
  {
    CutsInPieces(a, b, target);
    ChunkLengths(a, target);
    ChunkLengths(Rest(a, target) + b, target);
    AsFramesAppend(Chunks(a, target), Chunks(Rest(a, target) + b, target));
  }

  lemma AsFramesAppend(a: seq<seq<Sample>>, b: seq<seq<Sample>>)
    requires Nonempty(a) && Nonempty(b)
    ensures Nonempty(a + b) && AsFrames(a + b) == AsFrames(a) + AsFrames(b)
  {
  }

  lemma ShortCut(s: seq<Sample>, target: nat)
    requires target > 0 && |s| <= target
    ensures Chunks(s, target) == if |s| == target then [s] else []
    ensures Rest(s, target) == if |s| == target then [] else s
  {
    if |s| == target {
      assert s[..target] == s && s[target..] == [];
    }
  }

  // ----- runs of callbacks -------------------------------------------------------------------------

  datatype Call = Call(values: seq<real>, time: int)

  function AllCaptured(calls: seq<Call>): seq<Sample> {
    if calls == [] then []
    else
      var n := |calls| - 1;
      AllCaptured(calls[..n]) + Captured(calls[n].values, calls[n].time)
  }

  /** What is waiting, and all that was emitted, after callbacks at one target with no reset between. */
  function WaitingAfter(calls: seq<Call>, target: nat): seq<Sample>
    requires target > 0
  {
    if calls == [] then []
    else
      var n := |calls| - 1;
      Rest(WaitingAfter(calls[..n], target) + Captured(calls[n].values, calls[n].time), target)
  }

  function EmittedBy(calls: seq<Call>, target: nat): seq<seq<Sample>>
    requires target > 0
  {
    if calls == [] then []
    else
      var n := |calls| - 1;
      EmittedBy(calls[..n], target) +
      Chunks(WaitingAfter(calls[..n], target) + Captured(calls[n].values, calls[n].time), target)
  }

  /** Callback sizes do not matter: frames are the captured stream cut at the target, the remainder
      waits, and together they are the stream. */
  lemma {:induction false} CallbackSizesIrrelevant(calls: seq<Call>, target: nat)
    requires target > 0
    ensures EmittedBy(calls, target) == Chunks(AllCaptured(calls), target)
    ensures WaitingAfter(calls, target) == Rest(AllCaptured(calls), target)
    ensures Flatten(EmittedBy(calls, target)) + WaitingAfter(calls, target) == AllCaptured(calls)
    ensures |WaitingAfter(calls, target)| < target
    ensures forall i :: 0 <= i < |EmittedBy(calls, target)| ==> |EmittedBy(calls, target)[i]| == target
  {
    if calls == [] {
    } else {
      var n := |calls| - 1;
      CallbackSizesIrrelevant(calls[..n], target);
      CutsInPieces(AllCaptured(calls[..n]), Captured(calls[n].values, calls[n].time), target);
    }
    Reassembles(AllCaptured(calls), target);
    ChunkLengths(AllCaptured(calls), target);
    RestIsShort(AllCaptured(calls), target);
  }

  // ----- the accumulator ---------------------------------------------------------------------------

  class OpusTransmitter {
    const buffer: array<real>
    var accumulated: nat
    var captureTime: int
    var resetRequested: bool
    var sent: seq<Frame>
    var drops: nat
    ghost var waiting: seq<Sample>

    /** The buffer holds the waiting samples, and the time of the first is known. */
    ghost predicate Valid()
      reads this`accumulated, this`captureTime, this`waiting, buffer
    {
      && buffer.Length == CAPACITY && accumulated == |waiting| <= CAPACITY
      && (forall i :: 0 <= i < accumulated ==> buffer[i] == waiting[i].value)
      && (waiting != [] ==> captureTime == waiting[0].time)
    }

    constructor ()
      ensures Valid() && waiting == [] && !resetRequested && sent == [] && drops == 0
    {
      buffer := new real[CAPACITY];
      accumulated, captureTime, resetRequested, sent, drops, waiting := 0, 0, false, [], 0, [];
    }

    method Discard()
      requires Valid()
      modifies this`accumulated, this`captureTime, this`waiting
      ensures Valid() && waiting == []
    {
      accumulated, captureTime, waiting := 0, 0, [];
    }

    method RequestReset()
      modifies this`resetRequested
      ensures resetRequested
    {
      resetRequested := true;
    }

    method TakeReset()
      requires Valid()
      modifies this`accumulated, this`captureTime, this`waiting, this`resetRequested
      ensures Valid() && !resetRequested && waiting == if old(resetRequested) then [] else old(waiting)
    {
      if resetRequested {
        resetRequested := false;
        Discard();
      }
    }

    method CopyInto(values: seq<real>)
      requires Valid() && accumulated + |values| <= CAPACITY
      modifies buffer
      ensures Valid() && forall j :: 0 <= j < |values| ==> buffer[accumulated + j] == values[j]
    {
      for i := 0 to |values|
        invariant Valid() && forall j :: 0 <= j < i ==> buffer[accumulated + j] == values[j]
      {
        buffer[accumulated + i] := values[i];
      }
    }

    method Copy(values: seq<real>, time: int)
      requires Valid() && accumulated + |values| <= CAPACITY
      modifies this`accumulated, this`captureTime, this`waiting, buffer
      ensures Valid() && waiting == old(waiting) + Captured(values, time)
    {
      if accumulated == 0 {
        captureTime := time;
      }
      CopyInto(values);
      waiting := waiting + Captured(values, time);
      forall i | accumulated <= i < |waiting| ensures buffer[i] == waiting[i].value {
        assert buffer[accumulated + (i - accumulated)] == values[i - accumulated];
      }
      accumulated := accumulated + |values|;
    }

    method Emit()
      requires Valid() && waiting != []
      modifies this`accumulated, this`captureTime, this`waiting, this`sent
      ensures Valid() && waiting == [] && sent == old(sent) + AsFrames([old(waiting)])
    {
      assert buffer[..accumulated] == Values(waiting);
      sent := sent + [Frame(buffer[..accumulated], captureTime)];
      Discard();
    }

    /** One turn of the copying loop: as much as fits, possibly nothing, and a frame if that completes
        one. */
    method Fill(values: seq<real>, time: int, target: nat)
      requires Valid() && accumulated + |values| <= target <= CAPACITY && target > 0
      modifies this`accumulated, this`captureTime, this`waiting, this`sent, buffer
      ensures Valid() && accumulated < target && waiting == Rest(old(waiting) + Captured(values, time), target)
      ensures sent == old(sent) + FramesOf(old(waiting) + Captured(values, time), target)
    {
      ShortCut(waiting + Captured(values, time), target);
      Copy(values, time);
      if accumulated == target {
        Emit();
      }
    }

    /** The copying loop. A target that was just lowered to what has accumulated completes a frame at
        once. */
    method FillAll(values: seq<real>, time: int, target: nat)
      requires Valid() && accumulated <= target <= CAPACITY && target > 0 && values != []
      modifies this`accumulated, this`captureTime, this`waiting, this`sent, buffer
      ensures Valid() && waiting == Rest(old(waiting) + Captured(values, time), target)
      ensures sent == old(sent) + FramesOf(old(waiting) + Captured(values, time), target)
    {
      ghost var start := waiting;
      var offset := 0;
      assert start + Captured(values[..0], time) == start;
      while offset < |values|
        invariant 0 <= offset <= |values| && Valid() && accumulated <= target && (accumulated == target ==> offset == 0)
        invariant Rest(waiting, target) == Rest(start + Captured(values[..offset], time), target)
        invariant sent + FramesOf(waiting, target) ==
                  old(sent) + FramesOf(start + Captured(values[..offset], time), target)
        decreases |values| - offset, accumulated
      {
        var room := target - accumulated;
        var count := if room < |values| - offset then room else |values| - offset;
        CutsOnward(start, waiting, values, offset, count, time, target, sent, old(sent));
        Fill(values[offset..offset + count], time, target);
        NothingWhole(waiting, target);
        offset := offset + count;
      }
      assert values[..offset] == values;
      NothingWhole(waiting, target);
    }

    static lemma NothingWhole(s: seq<Sample>, target: nat)
      requires |s| < target
      ensures FramesOf(s, target) == [] && Rest(s, target) == s
    {
      ShortCut(s, target);
    }

    /** If what waits stands for the start and the values taken so far, it does so with the next piece. */
    static lemma CutsOnward(
        start: seq<Sample>, waiting: seq<Sample>, values: seq<real>, offset: nat, count: nat, time: int,
        target: nat, sent: seq<Frame>, before: seq<Frame>)
      requires offset + count <= |values| && target > 0
      requires Rest(waiting, target) == Rest(start + Captured(values[..offset], time), target)
      requires sent + FramesOf(waiting, target) == before + FramesOf(start + Captured(values[..offset], time), target)
      ensures
        var piece := Captured(values[offset..offset + count], time);
        var further := start + Captured(values[..offset + count], time);
        && Rest(waiting + piece, target) == Rest(further, target)
        && sent + FramesOf(waiting + piece, target) == before + FramesOf(further, target)
    {
      var done, piece := start + Captured(values[..offset], time), Captured(values[offset..offset + count], time);
      assert start + Captured(values[..offset + count], time) == done + piece;
      CutsInPieces(done, piece, target);
      FramesInPieces(done, piece, target);
      CutsInPieces(waiting, piece, target);
      FramesInPieces(waiting, piece, target);
      Regroup(sent, FramesOf(waiting, target), FramesOf(Rest(done, target) + piece, target));
      Regroup(before, FramesOf(done, target), FramesOf(Rest(done, target) + piece, target));
    }

    static lemma Regroup(a: seq<Frame>, b: seq<Frame>, c: seq<Frame>)
      ensures a + (b + c) == a + b + c
    {
    }

    method SendDirect(values: seq<real>, time: int, target: nat)
      requires Valid() && waiting == [] && |values| == target > 0
      modifies this`sent
      ensures Valid() && waiting == Rest(waiting + Captured(values, time), target)
      ensures sent == old(sent) + FramesOf(waiting + Captured(values, time), target)
    {
      assert waiting + Captured(values, time) == Captured(values, time);
      ShortCut(Captured(values, time), target);
      assert Values(Captured(values, time)) == values;
      sent := sent + [Frame(values, time)];
    }

    /** One callback, which has read the reset flag and the target one after the other. If the target
        was lowered below what has accumulated and no reset was seen, the room left wraps around and the
        whole callback is copied behind what waits: nothing is emitted, and the copy stays inside the
        buffer exactly if it fits behind. Otherwise it would not, and the model stops before it. */
    method EnqueueSamples(values: seq<real>, time: int, target: nat) returns (inside: bool)
      requires Valid()
      modifies this, buffer
      ensures Valid() && (values == [] ==> unchanged(this) && unchanged(buffer))
      ensures values != [] ==> !resetRequested
      ensures
        var start := if old(resetRequested) then [] else old(waiting);
        inside <==> values == [] || !(0 < target < |start|) || |start| + |values| <= CAPACITY
      ensures values != [] && !(0 < target <= CAPACITY) ==>
          drops == old(drops) + 1 && waiting == [] && sent == old(sent)
      ensures values != [] && 0 < target <= CAPACITY ==>
          var start := if old(resetRequested) then [] else old(waiting);
          var all := start + Captured(values, time);
          && drops == old(drops)
          && (|start| <= target ==> waiting == Rest(all, target) && sent == old(sent) + FramesOf(all, target))
          && (|start| > target ==> sent == old(sent) && waiting == if inside then all else start)
      ensures values != [] ==>
          |waiting| == LeftWaiting(if old(resetRequested) then 0 else |old(waiting)|, target, |values|)
    {
      if values == [] {
        return true;
      }
      TakeReset();
      if target > 0 {
        RestLength(waiting + Captured(values, time), target);
      }
      if target == 0 || target > CAPACITY {
        drops := drops + 1;
        Discard();
        return true;
      }
      if |values| <= CAPACITY && accumulated == 0 && |values| == target {
        SendDirect(values, time, target);
        return true;
      }
      if accumulated <= target {
        FillAll(values, time, target);
        return true;
      }
      if accumulated + |values| > CAPACITY {
        return false;
      }
      Copy(values, time);
      return true;
    }
  }

  // ----- the setter and the callback, store by store ----------------------------------------------

  /** What the two threads share, and where each is. A setter that has stored a new frame count still
      owes the reset flag; a callback that has read the flag has still to read the count. `unseen` says
      that a change of the count was made whose reset this callback has not seen. */
  datatype Shared = Shared(count: nat, flag: bool, owed: nat, reading: bool, accumulated: nat, unseen: bool)

  datatype Move =
    | StoreCount(count: nat)     // setter: exchange the count, and owe a reset if it changed
    | StoreFlag                  // setter: request the reset it owes
    | RequestReset               // anyone: request a reset
    | ReadFlag                   // callback: take the flag, and discard what waits if it was set
    | ReadCount(samples: nat)    // callback: read the count and take in the samples

  predicate Can(s: Shared, m: Move) {
    match m
    case StoreCount(_) => true
    case StoreFlag => s.owed > 0
    case RequestReset => true
    case ReadFlag => !s.reading
    case ReadCount(n) => s.reading && n > 0
  }

  /** The callback finds less room than it has accumulated. */
  predicate OutOfFrame(s: Shared) { ValidTarget(s.count) && s.accumulated > s.count }

  function Moved(s: Shared, m: Move): Shared
    requires Can(s, m)
  {
    match m
    case StoreCount(c) =>
      if c == s.count then s else s.(count := c, owed := s.owed + 1, unseen := s.unseen || s.reading)
    case StoreFlag => s.(flag := true, owed := s.owed - 1)
    case RequestReset => s.(flag := true)
    case ReadFlag =>
      s.(flag := false, reading := true, accumulated := if s.flag then 0 else s.accumulated, unseen := s.owed > 0)
    case ReadCount(n) => s.(reading := false, accumulated := LeftWaiting(s.accumulated, s.count, n), unseen := false)
  }

  /** Storing the count that is already in force costs nothing that waits; any other count owes one reset. */
  lemma OnlyAChangeResets(s: Shared, c: nat)
    ensures Moved(s, StoreCount(c)).owed == s.owed <==> c == s.count
    ensures c == s.count ==> Moved(s, StoreCount(c)) == s
    ensures Moved(s, StoreCount(c)).count == c && Moved(s, StoreCount(c)).accumulated == s.accumulated
  {
  }

  function MovedBy(s: Shared, moves: seq<Move>): Shared {
    if moves == [] then s
    else
      var before, m := MovedBy(s, moves[..|moves| - 1]), moves[|moves| - 1];
      if Can(before, m) then Moved(before, m) else before
  }

  predicate InFrame(s: Shared) { s.accumulated == 0 || s.accumulated < s.count }

  ghost predicate SharedInv(s: Shared) {
    && s.accumulated <= CAPACITY
    && (s.unseen ==> s.reading && (s.owed > 0 || s.flag))
    && (s.reading && s.owed > 0 ==> s.unseen)
    && (if s.reading then s.unseen || InFrame(s) else InFrame(s) || s.owed > 0 || s.flag)
  }

  lemma MoveKeeps(s: Shared, m: Move)
    requires SharedInv(s) && Can(s, m)
    ensures SharedInv(Moved(s, m))
  {
  }

  /** In every interleaving of any number of setters with the callback, the callback finds its frame
      overfull only if a change of the count was made whose reset it has not seen; and that reset is
      still to come, so what then waits is discarded before long. */
  lemma {:induction false} OutOfFrameOnlyUnseen(count: nat, moves: seq<Move>)
    ensures
      var s := MovedBy(Shared(count, false, 0, false, 0, false), moves);
      && SharedInv(s)
      && (s.reading && OutOfFrame(s) ==> s.unseen && (s.owed > 0 || s.flag))
  {
    if moves == [] {
    } else {
      var n := |moves| - 1;
      OutOfFrameOnlyUnseen(count, moves[..n]);
      var s := MovedBy(Shared(count, false, 0, false, 0, false), moves[..n]);
      if Can(s, moves[n]) {
        MoveKeeps(s, moves[n]);
      }
    }
  }

  /** And whenever the count is lowered below what waits between the callback's two readings, or before
      them with the flag still owed, it happens: the samples are copied behind what waits, inside the
      buffer exactly if they fit. */
  lemma LoweredBetweenReadings(s: Shared, lower: nat, n: nat)
    requires SharedInv(s) && !s.reading && !s.flag && 0 < lower < s.accumulated && n > 0 && lower != s.count
    ensures
      var torn := MovedBy(s, [ReadFlag, StoreCount(lower)]);
      var late := MovedBy(s, [StoreCount(lower), ReadFlag]);
      && torn.reading && torn.unseen && OutOfFrame(torn) && torn.accumulated == s.accumulated
      && late.reading && late.unseen && OutOfFrame(late) && late.accumulated == s.accumulated
      && (LeftWaiting(torn.accumulated, torn.count, n) == s.accumulated + n <==> s.accumulated + n <= CAPACITY)
  {
    var a, b := [ReadFlag, StoreCount(lower)], [StoreCount(lower), ReadFlag];
    assert a[..1] == [ReadFlag] && b[..1] == [StoreCount(lower)] && a[..1][..0] == [] && b[..1][..0] == [];
    assert MovedBy(s, [ReadFlag]) == Moved(s, ReadFlag);
    assert MovedBy(s, [StoreCount(lower)]) == Moved(s, StoreCount(lower));
  }

  /** From the start: 300 samples wait for a frame of 480, the count drops to 120 between the readings,
      and a callback of 700 samples does not fit behind them. */
  lemma OverrunRun()
    ensures
      var s := MovedBy(Shared(480, false, 0, false, 0, false), [ReadFlag, ReadCount(300), ReadFlag, StoreCount(120)]);
      s.reading && OutOfFrame(s) && s.accumulated + 700 > CAPACITY
  {
    var start := Shared(480, false, 0, false, 0, false);
    var run := [ReadFlag, ReadCount(300), ReadFlag, StoreCount(120)];
    assert run[..1] == [ReadFlag] && run[..2] == [ReadFlag, ReadCount(300)];
    assert run[..3] == [ReadFlag, ReadCount(300), ReadFlag];
    assert run[..1][..0] == [] && run[..2][..1] == run[..1] && run[..3][..2] == run[..2];
    assert MovedBy(start, run[..1]) == Shared(480, false, 0, true, 0, false);
    assert MovedBy(start, run[..2]) == Shared(480, false, 0, false, 300, false);
    assert MovedBy(start, run[..3]) == Shared(480, false, 0, true, 300, false);
  }
}

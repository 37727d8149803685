/** The ledger beside the decoded-audio buffer: which frames of the buffer came from which packet,
    so that a packet counts as delivered exactly when its last frame has been played. */
module PcmLedger {

  const MAX_OPUS_QUEUE_SIZE := 128

  datatype Chunk = Chunk(frames: nat, captureServerTimeNs: int, captureTimestampValid: bool, receivedMedia: bool)

  ghost function FrameSum(s: seq<Chunk>): nat {
    if s == [] then 0 else s[0].frames + FrameSum(s[1..])
  }

  /** How many chunks stand for a packet that arrived (and not for concealment). */
  function Received(s: seq<Chunk>): nat {
    if s == [] then 0 else (if s[0].receivedMedia then 1 else 0) + Received(s[1..])
  }

  ghost predicate Positive(s: seq<Chunk>) {
    forall i :: 0 <= i < |s| ==> s[i].frames > 0
  }

  datatype Consumed = Consumed(rest: seq<Chunk>, delivered: nat)

  /** Take n frames off the front; a chunk is delivered when nothing of it is left. */
  ghost function Take(s: seq<Chunk>, n: nat): Consumed {
    if n == 0 || s == [] then Consumed(s, 0)
    else if n < s[0].frames then Consumed(s[0 := s[0].(frames := s[0].frames - n)], 0)
    else
      var r := Take(s[1..], n - s[0].frames);
      Consumed(r.rest, r.delivered + (if s[0].receivedMedia then 1 else 0))
  }

  lemma {:induction false} SumsOfAppend(s: seq<Chunk>, t: seq<Chunk>)
    ensures FrameSum(s + t) == FrameSum(s) + FrameSum(t)
    ensures Received(s + t) == Received(s) + Received(t)
  {
    if s == [] {
      assert s + t == t;
    } else {
      assert (s + t)[1..] == s[1..] + t;
      SumsOfAppend(s[1..], t);
    }
  }

  /** Nothing gets lost: a received packet is either counted delivered or still in the ledger,
      and exactly the frames asked for (or all there are) leave. */
  lemma {:induction false} TakeConserves(s: seq<Chunk>, n: nat)
    requires Positive(s)
    ensures Positive(Take(s, n).rest)
    ensures Received(Take(s, n).rest) + Take(s, n).delivered == Received(s)
    ensures FrameSum(Take(s, n).rest) == if n <= FrameSum(s) then FrameSum(s) - n else 0
  {
    if n == 0 || s == [] || n < s[0].frames {
    } else {
      TakeConserves(s[1..], n - s[0].frames);
    }
  }

  /** By position: the first k chunks are those whose last frame lies within the n frames taken. They leave,
      the received ones among them are delivered, and what is left of the next one stays at the front. */
  lemma {:induction false} TakeIs(s: seq<Chunk>, n: nat, k: nat)
    requires Positive(s) && k <= |s| && FrameSum(s[..k]) <= n && (k < |s| ==> n < FrameSum(s[..k + 1]))
    ensures Take(s, n).delivered == Received(s[..k])
    ensures k == |s| ==> Take(s, n).rest == []
    ensures k < |s| ==>
              var rest := Take(s, n).rest;
              && |rest| == |s| - k && rest[1..] == s[k + 1..]
              && rest[0].frames == FrameSum(s[..k + 1]) - n && rest[0] == s[k].(frames := rest[0].frames)
  {
    if s == [] {
    } else if k == 0 {
      assert s[..1] == [s[0]] && FrameSum(s[..1]) == s[0].frames + FrameSum([]);
      assert s == [s[0]] + s[1..];
    } else {
      assert s[..k][1..] == s[1..][..k - 1];
      if k < |s| {
        assert s[..k + 1][1..] == s[1..][..k];
        assert s[1..][k..] == s[k + 1..] && s[1..][k - 1] == s[k];
      }
      TakeIs(s[1..], n - s[0].frames, k - 1);
    }
  }

  /** Draining in pieces counts the same packets as draining at once. */
  lemma {:induction false} TakeInPieces(s: seq<Chunk>, m: nat, n: nat)
    requires Positive(s)
    ensures Take(Take(s, m).rest, n).rest == Take(s, m + n).rest
    ensures Take(s, m).delivered + Take(Take(s, m).rest, n).delivered == Take(s, m + n).delivered
  {
    if m == 0 || n == 0 || s == [] {
    } else {
      if m >= s[0].frames {
        TakeInPieces(s[1..], m - s[0].frames, n);
      } else {
        var cut := Take(s, m).rest;
        assert cut[1..] == s[1..];
        if m + n < s[0].frames {
          assert Take(cut, n).rest == Take(s, m + n).rest;
        }
      }
    }
  }

  class PcmDeliveryOutcomes {
    const chunks: array<Chunk>
    var head: nat
    var count: nat

    ghost predicate Valid()
      reads this, chunks
    {
      && chunks.Length == MAX_OPUS_QUEUE_SIZE && head < chunks.Length && count <= chunks.Length
      && Positive(Contents())
    }

    ghost function Contents(): (s: seq<Chunk>)
      requires chunks.Length == MAX_OPUS_QUEUE_SIZE
      reads this, chunks
      ensures |s| == count
    {
      seq(count, i requires 0 <= i < count reads this, chunks => chunks[(head + i) % MAX_OPUS_QUEUE_SIZE])
    }

    constructor ()
      ensures Valid() && Contents() == [] && fresh(chunks)
    {
      chunks := new Chunk[MAX_OPUS_QUEUE_SIZE](_ => Chunk(0, 0, false, false));
      head, count := 0, 0;
    }

    method Append(frames: nat, captureNs: int, captureValid: bool, received: bool) returns (stored: bool)
      requires Valid()
      modifies this, chunks
      ensures Valid()
      ensures stored <==> frames == 0 || |old(Contents())| < MAX_OPUS_QUEUE_SIZE
      ensures Contents() == if stored && frames > 0
                            then old(Contents()) + [Chunk(frames, captureNs, captureValid, received)]
                            else old(Contents())
    {
      if frames == 0 {
        return true;
      }
      if count == chunks.Length {
        return false;
      }
      ghost var before := Contents();
      var index := (head + count) % chunks.Length;
      chunks[index] := Chunk(frames, captureNs, captureValid, received);
      count := count + 1;
      assert Contents() == before + [Chunk(frames, captureNs, captureValid, received)];
      return true;
    }

    method ShrinkOldest(used: nat)
      requires Valid() && count > 0 && used < Contents()[0].frames
      modifies chunks
      ensures Valid()
      ensures Contents() == old(Contents())[0 := old(Contents())[0].(frames := old(Contents())[0].frames - used)]
    {
      ghost var before := Contents();
      chunks[head] := chunks[head].(frames := chunks[head].frames - used);
      assert Contents() == before[0 := before[0].(frames := before[0].frames - used)];
    }

    static lemma RoundTheRing(h: nat, i: nat)
      ensures ((h + 1) % MAX_OPUS_QUEUE_SIZE + i) % MAX_OPUS_QUEUE_SIZE == (h + (i + 1)) % MAX_OPUS_QUEUE_SIZE
    {
    }

    method PopOldest()
      requires Valid() && count > 0
      modifies this
      ensures Valid() && Contents() == old(Contents())[1..]
    {
      ghost var before, h := Contents(), head;
      head := (head + 1) % chunks.Length;
      count := count - 1;
      forall i | 0 <= i < count ensures Contents()[i] == before[1..][i] {
        RoundTheRing(h, i);
      }
    }

    /** One turn of the consume loop: use up to `remaining` frames of the oldest chunk. */
    method ConsumeOldest(remaining: nat) returns (consumed: nat, delivered: nat)
      requires Valid() && count > 0 && remaining > 0
      modifies this, chunks
      ensures Valid() && 0 < consumed <= remaining
      ensures var s := old(Contents());
              if remaining < s[0].frames
              then && consumed == remaining && delivered == 0
                   && Contents() == s[0 := s[0].(frames := s[0].frames - remaining)]
              else consumed == s[0].frames && delivered == (if s[0].receivedMedia then 1 else 0) && Contents() == s[1..]
    {
      var chunk := chunks[head];
      assert chunk == Contents()[0];
      consumed := if remaining < chunk.frames then remaining else chunk.frames;
      delivered := 0;
      if consumed == chunk.frames {
        delivered := if chunk.receivedMedia then 1 else 0;
        PopOldest();
      } else {
        ShrinkOldest(consumed);
      }
    }

    method Consume(frames: nat) returns (delivered: nat)
      requires Valid()
      modifies this, chunks
      ensures Valid()
      ensures Contents() == Take(old(Contents()), frames).rest
      ensures delivered == Take(old(Contents()), frames).delivered
    {
      delivered := 0;
      var remaining: nat := frames;
      while remaining > 0 && count > 0
        invariant Valid()
        invariant Take(old(Contents()), frames).rest == Take(Contents(), remaining).rest
        invariant Take(old(Contents()), frames).delivered == delivered + Take(Contents(), remaining).delivered
        decreases remaining
      {
        var consumed, ended := ConsumeOldest(remaining);
        remaining := remaining - consumed;
        delivered := delivered + ended;
      }
    }

    method PendingReceived() returns (pending: nat)
      requires Valid()
      ensures pending == Received(Contents())
    {
      pending := 0;
      var offset := 0;
      while offset < count
        invariant offset <= count
        invariant pending == Received(Contents()[..offset])
      {
        ghost var s := Contents();
        assert s[..offset + 1] == s[..offset] + [s[offset]];
        SumsOfAppend(s[..offset], [s[offset]]);
        pending := pending + if chunks[(head + offset) % chunks.Length].receivedMedia then 1 else 0;
        offset := offset + 1;
      }
      assert Contents()[..count] == Contents();
    }

    method Clear()
      requires Valid()
      modifies this
      ensures Valid() && Contents() == []
    {
      head := 0;
      count := 0;
    }

    method DiscardAllAsLost() returns (lost: nat)
      requires Valid()
      modifies this
      ensures Valid() && Contents() == [] && lost == Received(old(Contents()))
    {
      lost := PendingReceived();
      Clear();
    }
  }
}

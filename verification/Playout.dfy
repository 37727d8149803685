/** One participant's share of the audio callback, on its own buffer, ledger and counters: it does what
    `PlayerModel` says, and the output gains what the mixers make of the buffered audio. */
module Playout {

  import opened PcmLedger
  import opened PlayerModel
  import opened Resampler

  /** The player once what the queue dropped on its own and the trims due are counted. */
  ghost function WithQueueDrops(p: Player, c: Callback): Player {
    p.(drops := p.drops + c.internalDrops + TrimsCounted(c))
  }

  /** What the output gains, and where it leaves the player: the full mixer if there is enough for the
      callback's frames at the ratio, otherwise the tail mixer if there is anything. */
  ghost predicate Sounded(
      p: Player, p': Player, before: seq<real>, after: seq<real>, frames: nat, ratio: real, gain: real)
    requires Sound(p) && ratio > 0.0
  {
    if |p.pcm| >= RequiredInput(p.phase, frames, ratio) then
      p' == AfterFull(p, frames, ratio) && Mixed(before, after, p.pcm, p.phase, frames, ratio, gain)
    else if |p.pcm| > 0 then
      p' == AfterTailed(p, frames, ratio) && TailHeard(before, after, p.pcm, p.phase, frames, ratio, gain)
    else p' == p && after == before
  }

  lemma Moved(p: Player, to: Position, q: Player, k: nat)
    requires to.frames <= |p.pcm| && k == |p.pcm| - to.frames && q.pcm == p.pcm[k..] && q.phase == to.phase
    requires q.chunks == Take(p.chunks, k).rest && q.delivered == p.delivered + Take(p.chunks, k).delivered
    requires q.drops == p.drops && q.lost == p.lost
    ensures q == MovedTo(p, to)
  {
  }

  class ParticipantPlayout {
    const buffer: PcmBuffer
    const ledger: PcmDeliveryOutcomes
    var delivered: nat
    var drops: nat       // received packets dropped by this receiver
    var gapsLost: nat    // packets declared lost in the network

    ghost predicate Valid()
      reads this, buffer, buffer.pcm, ledger, ledger.chunks
    {
      && buffer.Valid() && ledger.Valid()
      && FrameSum(ledger.Contents()) == buffer.buffered
    }

    ghost function Value(): (p: Player)
      requires Valid()
      reads this, buffer, buffer.pcm, ledger, ledger.chunks
      ensures Sound(p)
    {
      Player(buffer.Contents(), buffer.phase, ledger.Contents(), delivered, drops, gapsLost)
    }

    /** Received packets with an outcome, or with frames still waiting to be played. */
    ghost function Accounted(): nat
      requires ledger.Valid()
      reads this, ledger, ledger.chunks
    {
      delivered + drops + Received(ledger.Contents())
    }

    constructor ()
      ensures Valid() && Value() == Player([], 0.0, [], 0, 0, 0)
      ensures fresh(buffer) && fresh(buffer.pcm) && fresh(ledger) && fresh(ledger.chunks)
    {
      buffer := new PcmBuffer();
      ledger := new PcmDeliveryOutcomes();
      delivered, drops, gapsLost := 0, 0, 0;
    }

    /** The chunks whose last frame is among those played leave the ledger, and count as delivered. */
    method Settle(consumed: nat)
      requires buffer.Valid() && ledger.Valid() && FrameSum(ledger.Contents()) == buffer.buffered + consumed
      modifies this`delivered, ledger, ledger.chunks
      ensures Valid() && Accounted() == old(Accounted())
      ensures var t := Take(old(ledger.Contents()), consumed);
              ledger.Contents() == t.rest && delivered == old(delivered) + t.delivered
    {
      TakeConserves(ledger.Contents(), consumed);
      var ended := ledger.Consume(consumed);
      delivered := delivered + ended;
    }

    /** Mix from the buffer and settle the chunks whose last frame has been played. */
    method PlayFull(output: array<real>, n: nat, gain: real, ratio: real)
      requires Valid() && ratio > 0.0 && n <= output.Length && output != buffer.pcm
      requires RequiredInput(buffer.phase, n, ratio) <= buffer.buffered
      modifies this`delivered, buffer, buffer.pcm, ledger, ledger.chunks, output
      ensures Valid() && Value() == AfterFull(old(Value()), n, ratio) && Accounted() == old(Accounted())
      ensures Mixed(old(output[..]), output[..], old(Value()).pcm, old(Value()).phase, n, ratio, gain)
    {
      ghost var p := Value();
      var consumed := buffer.MixResampled(output, n, gain, ratio);
      ghost var to, heard := buffer.At(), output[..];
      Settle(consumed);
      assert output[..] == heard;
      Moved(p, to, Value(), consumed);
    }

    method PlayTail(output: array<real>, n: nat, gain: real, ratio: real)
      requires Valid() && ratio > 0.0 && n <= output.Length && output != buffer.pcm
      modifies this`delivered, buffer, buffer.pcm, ledger, ledger.chunks, output
      ensures Valid() && Value() == AfterTailed(old(Value()), n, ratio) && Accounted() == old(Accounted())
      ensures TailHeard(old(output[..]), output[..], old(Value()).pcm, old(Value()).phase, n, ratio, gain)
    {
      ghost var p := Value();
      var consumed := buffer.MixAvailableWithTail(output, n, gain, ratio);
      ghost var to, heard := buffer.At(), output[..];
      Settle(consumed);
      assert output[..] == heard;
      Moved(p, to, Value(), consumed);
    }

    /** Everything buffered is dropped with its packets; they count as receiver drops. */
    method DropBuffered(resetPhase: bool)
      requires Valid()
      modifies this`drops, buffer, ledger
      ensures Valid() && Value() == Discarded(old(Value()), resetPhase) && Accounted() == old(Accounted())
    {
      var lost := ledger.DiscardAllAsLost();
      drops := drops + lost;
      buffer.Empty(resetPhase);
    }

    /** Decode one packet: a reset first drops what is buffered, a concealment settles the packet
        it stands for, a failed decode of a received packet is a drop. */
    method Decode(p: Packet) returns (ok: bool)
      requires Valid()
      modifies this`drops, this`gapsLost, buffer, ledger
      ensures Valid() && ok == (|p.pcm| > 0) && Value() == AfterDecode(old(Value()), p)
    {
      if p.resetDecoder {
        DropBuffered(true);
      }
      if p.concealment {
        if p.dropPending {
          drops := drops + 1;
        } else {
          gapsLost := gapsLost + 1;
        }
      }
      if |p.pcm| == 0 {
        if !p.concealment {
          drops := drops + 1;
        }
        return false;
      }
      return true;
    }

    /** Audio into the buffer and its chunk into the ledger, which may be full. */
    method PutBoth(p: Packet) returns (stored: bool)
      requires Valid() && 0 < |p.pcm| && !Overflows(Value(), p)
      modifies buffer, buffer.pcm, ledger, ledger.chunks
      ensures buffer.Valid() && ledger.Valid() && buffer.phase == old(buffer.phase)
      ensures stored == (|old(ledger.Contents())| < MAX_OPUS_QUEUE_SIZE)
      ensures buffer.Contents() == old(buffer.Contents()) + p.pcm
      ensures ledger.Contents() == if stored then old(ledger.Contents()) + [ChunkOf(p)] else old(ledger.Contents())
    {
      buffer.Append(p.pcm);
      stored := ledger.Append(|p.pcm|, p.captureNs, p.captureValid, !p.concealment);
    }

    /** Put decoded audio into the buffer and its chunk into the ledger; if either is full,
        everything buffered and the new packet are dropped. */
    method Store(p: Packet) returns (overflow: bool)
      requires Valid() && 0 < |p.pcm|
      modifies this`drops, buffer, buffer.pcm, ledger, ledger.chunks
      ensures Valid() && overflow == Overflows(old(Value()), p) && Value() == AfterStore(old(Value()), p)
    {
      StoreSound(Value(), p);
      if buffer.buffered + |p.pcm| > buffer.pcm.Length {
        DropAlong(p);
        return true;
      }
      var stored := PutBoth(p);
      if !stored {
        DropHalfStored(p);
      }
      return false;
    }

    method DropAlong(p: Packet)
      requires Valid()
      modifies this`drops, buffer, ledger
      ensures Valid()
      ensures var q := Discarded(old(Value()), false); Value() == q.(drops := q.drops + if p.concealment then 0 else 1)
    {
      DropBuffered(false);
      drops := drops + if p.concealment then 0 else 1;
    }

    /** The ledger was full: what is buffered goes, with the audio that has no chunk. */
    method DropHalfStored(p: Packet)
      requires buffer.Valid() && ledger.Valid()
      modifies this`drops, buffer, ledger
      ensures Valid() && buffer.buffered == 0 && ledger.Contents() == [] && buffer.phase == old(buffer.phase)
      ensures drops == old(drops) + Received(old(ledger.Contents())) + if p.concealment then 0 else 1
    {
      var lost := ledger.DiscardAllAsLost();
      drops := drops + lost + if p.concealment then 0 else 1;
      buffer.Empty(false);
    }

    method CountTrims(trims: seq<bool>)
      requires Valid()
      modifies this`drops
      ensures Valid() && Value() == old(Value()).(drops := old(drops) + CountTrue(trims))
    {
      var i := 0;
      while i < |trims|
        invariant 0 <= i <= |trims| && drops == old(drops) + CountTrue(trims[..i])
      {
        assert trims[..i + 1][..i] == trims[..i];
        if trims[i] {
          drops := drops + 1;
        }
        i := i + 1;
      }
      assert trims[..i] == trims;
    }

    /** Take packets until one is young enough; each over-age packet is a drop. Only the first
        packet's abandoned counts are looked at, and only the first has any. */
    method TakeYoungPacket(script: seq<Dequeued>) returns (found: bool, used: nat)
      requires Valid() && |script| > 0 && script[0].Got? && FromQueue(script)
      modifies this`drops, this`gapsLost
      ensures Valid()
      ensures var s := Scanned(old(Value()), script, 0); Value() == s.player && used == s.used && found == s.plays
    {
      var packet := script[0].packet;
      used := 1;
      drops := drops + packet.abandonedDrops;
      gapsLost := gapsLost + packet.abandonedGaps;
      ghost var before := old(Value());
      while packet.aged
        invariant Valid() && 0 < used <= |script| && script[used - 1] == Got(packet)
        invariant Value() == WithAbandoned(before, packet)
        invariant Scanned(old(Value()), script, 0) == Scanned(before, script, used - 1)
        decreases |script| - used
      {
        drops := drops + 1;
        if used == |script| || !script[used].Got? {
          if used < |script| {
            used := used + 1;
          }
          return false, used;
        }
        assert AgedIsReceived(script[used - 1]) && Follows(script[used - 1], script[used]);
        before := Value();
        packet := script[used].packet;
        used := used + 1;
      }
      return true, used;
    }

    /** A packet taken after the scan: its abandoned counts, then the packet itself. */
    method AddPacket(packet: Packet) returns (goOn: bool)
      requires Valid()
      modifies this`drops, this`gapsLost, buffer, buffer.pcm, ledger, ledger.chunks
      ensures Valid() && Value() == AfterPacket(old(Value()), packet) && goOn == GoesOn(old(Value()), packet)
    {
      CountAbandoned(packet);
      var ok := Decode(packet);
      if !ok {
        return false;
      }
      var overflow := Store(packet);
      return !overflow;
    }

    method CountAbandoned(packet: Packet)
      requires Valid()
      modifies this`drops, this`gapsLost
      ensures Valid() && Value() == WithAbandoned(old(Value()), packet)
    {
      drops := drops + packet.abandonedDrops;
      gapsLost := gapsLost + packet.abandonedGaps;
    }

    /** Decode further packets while the buffer is short of what this callback needs. */
    method FillBuffer(script: seq<Dequeued>, start: nat, n: nat, firstRatio: real, budgetIn: nat)
      returns (used: nat, budget: nat)
      requires Valid() && start <= |script|
      modifies this`drops, this`gapsLost, buffer, buffer.pcm, ledger, ledger.chunks
      ensures Valid()
      ensures var f := Filled(old(Value()), script, start, n, firstRatio, budgetIn);
              Value() == f.player && used == f.used && budget == f.budget
    {
      used, budget := start, budgetIn;
      var ratio := firstRatio;
      while buffer.buffered < RequiredInput(buffer.phase, n, ratio) && budget > 0
        invariant Valid() && start <= used <= |script|
        invariant Filled(old(Value()), script, start, n, firstRatio, budgetIn) ==
                  Filled(Value(), script, used, n, ratio, budget)
        decreases budget
      {
        if used == |script| {
          return;
        }
        used := used + 1;
        if !script[used - 1].Got? {
          return;
        }
        var packet := script[used - 1].packet;
        budget := budget - 1;
        var goOn := AddPacket(packet);
        if !goOn {
          return;
        }
        ratio := packet.ratioAfter;
      }
    }

    /** Play what there is. */
    method PlayBuffered(output: array<real>, n: nat, gain: real, ratio: real)
      requires Valid() && ratio > 0.0 && n <= output.Length && output != buffer.pcm
      modifies this`delivered, buffer, buffer.pcm, ledger, ledger.chunks, output
      ensures Valid() && Sounded(old(Value()), Value(), old(output[..]), output[..], n, ratio, gain)
    {
      if buffer.buffered >= RequiredInput(buffer.phase, n, ratio) {
        PlayFull(output, n, gain, ratio);
      } else if buffer.buffered > 0 {
        PlayTail(output, n, gain, ratio);
      }
    }

    /** Take a young packet off the queue, decode it, and decode more while the buffer is short. */
    method DecodePackets(script: seq<Dequeued>, n: nat, budgetIn: nat) returns (used: nat, budget: nat, plays: bool)
      requires Valid() && FromQueue(script) && budgetIn > 0 && |script| > 0 && script[0].Got?
      modifies this`drops, this`gapsLost, buffer, buffer.pcm, ledger, ledger.chunks
      ensures Valid() && Decoding(old(Value()), script, n, budgetIn) == Progress(Value(), used, budget, plays)
    {
      budget, plays := budgetIn, false;
      var found;
      found, used := TakeYoungPacket(script);
      if !found {
        return;
      }
      var packet := script[used - 1].packet;
      budget := budget - 1;
      var ok := Decode(packet);
      if !ok {
        return;
      }
      var _ := Store(packet);
      used, budget := FillBuffer(script, used, n, packet.ratioAfter, budget);
      plays := true;
    }

    /** Decode what the queue has, and play what there is then. */
    method DecodeAndPlay(c: Callback, script: seq<Dequeued>, output: array<real>, budgetIn: nat)
      returns (used: nat, budget: nat)
      requires Valid() && CallbackOk(c, script) && c.frames <= output.Length && output != buffer.pcm
      requires budgetIn > 0 && |script| > 0 && script[0].Got?
      modifies this, buffer, buffer.pcm, ledger, ledger.chunks, output
      ensures Valid()
      ensures var d := Decoding(old(Value()), script, c.frames, budgetIn);
              && used == d.used && budget == d.budget && Sound(d.player)
              && if d.plays then Sounded(d.player, Value(), old(output[..]), output[..], c.frames, c.ratioAtMix, c.gain)
                 else Value() == d.player && output[..] == old(output[..])
    {
      var plays;
      used, budget, plays := DecodePackets(script, c.frames, budgetIn);
      if plays {
        PlayBuffered(output, c.frames, c.gain, c.ratioAtMix);
      }
    }

    /** Play from the buffer if it holds enough; otherwise decode and play what there is. */
    method PlayOrDecode(c: Callback, script: seq<Dequeued>, output: array<real>, budgetIn: nat)
      returns (used: nat, budget: nat)
      requires Valid() && CallbackOk(c, script) && c.frames <= output.Length && output != buffer.pcm
      modifies this, buffer, buffer.pcm, ledger, ledger.chunks, output
      ensures Valid() && Outcome(old(Value()), Value(), c, script, budgetIn, old(output[..]), output[..], used, budget)
    {
      used, budget := 0, budgetIn;
      if buffer.buffered >= RequiredInput(buffer.phase, c.frames, c.ratioAtStart) {
        PlayFull(output, c.frames, c.gain, c.ratioAtStart);
        return;
      }
      if budget == 0 {
        return;
      }
      if |script| == 0 || !script[0].Got? {
        used := if |script| > 0 then 1 else 0;
        PlayTail(output, c.frames, c.gain, c.ratioAtTail);
        return;
      }
      used, budget := DecodeAndPlay(c, script, output, budget);
    }

    /** The participant's part of one audio callback. Without muting, the packets taken off the
        queue, the drops the queue reports and the trims all end up counted delivered, counted
        as a drop, or waiting in the ledger, each exactly once; packets lost in the network are
        counted once; and what is heard, and which packets count as delivered and which as
        dropped, is what the outcome says. */
    method RunCallback(c: Callback, script: seq<Dequeued>, output: array<real>, budgetIn: nat)
      returns (used: nat, budget: nat)
      requires Valid() && CallbackOk(c, script) && c.frames <= output.Length && output != buffer.pcm
      modifies this, buffer, buffer.pcm, ledger, ledger.chunks, output
      ensures Valid() && used <= |script| && budget <= budgetIn
      ensures c.muted ==> used == 0 && Value() == old(Value()).(pcm := [], phase := 0.0, chunks := [])
      ensures c.muted || !c.ready ==> output[..] == old(output[..])
      ensures !c.muted && !c.ready ==> used == 0 && Value() == WithQueueDrops(old(Value()), c)
      ensures !c.muted && c.ready ==>
                Outcome(WithQueueDrops(old(Value()), c), Value(), c, script, budgetIn, old(output[..]), output[..],
                        used, budget)
      ensures !c.muted ==> Accounted() == old(Accounted()) + c.internalDrops + TrimsCounted(c) + OwedBy(script[..used])
      ensures !c.muted ==> gapsLost == old(gapsLost) + LostBy(script[..used])
      ensures !c.muted ==> Accounted() + gapsLost == old(Accounted() + gapsLost) + Reported(c, script[..used])
    {
      used, budget := 0, budgetIn;
      if c.muted {
        ledger.Clear();
        buffer.Empty(true);
        return;
      }
      CountQueueDrops(c);
      if c.ready {
        ghost var p, before := Value(), output[..];
        used, budget := PlayOrDecode(c, script, output, budget);
        OutcomeAccounts(p, Value(), c, script, budgetIn, before, output[..], used, budget);
      }
    }

    /** What the queue dropped on its own, and the trims; those for latency are made only once ready. */
    method CountQueueDrops(c: Callback)
      requires Valid()
      modifies this`drops
      ensures Valid() && Value() == WithQueueDrops(old(Value()), c)
    {
      drops := drops + c.internalDrops;
      CountTrims(c.stallTrims);
      if c.ready {
        CountTrims(c.latencyTrims);
      }
    }
  }

  // ----- the outcome of a callback that plays -----------------------------------------------------------

  /** From p: with enough buffered, the full mixer plays and nothing is taken; with no decoding budget,
      nothing happens; with nothing to be had from the queue, the tail mixer plays what there is; otherwise
      packets are taken and decoded, and then what there is is played. */
  ghost predicate Outcome(
      p: Player, p': Player, c: Callback, script: seq<Dequeued>, budgetIn: nat, before: seq<real>, after: seq<real>,
      used: nat, budget: nat)
    requires Sound(p) && CallbackOk(c, script)
  {
    if |p.pcm| >= RequiredInput(p.phase, c.frames, c.ratioAtStart) then
      used == 0 && budget == budgetIn && Sounded(p, p', before, after, c.frames, c.ratioAtStart, c.gain)
    else if budgetIn == 0 then used == 0 && budget == 0 && p' == p && after == before
    else if script == [] || !script[0].Got? then
      && used == (if script == [] then 0 else 1) && budget == budgetIn
      && p' == AfterTailed(p, c.frames, c.ratioAtTail)
      && TailHeard(before, after, p.pcm, p.phase, c.frames, c.ratioAtTail, c.gain)
    else
      var d := Decoding(p, script, c.frames, budgetIn);
      && used == d.used && budget == d.budget && Sound(d.player)
      && if d.plays then Sounded(d.player, p', before, after, c.frames, c.ratioAtMix, c.gain)
         else p' == d.player && after == before
  }

  lemma MovedAccounts(p: Player, to: Position)
    requires Sound(p) && to.frames <= |p.pcm|
    ensures AccountedOf(MovedTo(p, to)) == AccountedOf(p) && MovedTo(p, to).lost == p.lost
  {
    TakeConserves(p.chunks, |p.pcm| - to.frames);
  }

  lemma SoundedAccounts(
      p: Player, p': Player, before: seq<real>, after: seq<real>, frames: nat, ratio: real, gain: real)
    requires Sound(p) && ratio > 0.0 && Sounded(p, p', before, after, frames, ratio, gain)
    ensures AccountedOf(p') == AccountedOf(p) && p'.lost == p.lost
  {
    NeverBack(Position(|p.pcm|, p.phase), frames, ratio);
    MovedAccounts(p, AfterMix(Position(|p.pcm|, p.phase), frames, ratio));
    MovedAccounts(p, AfterTail(Position(|p.pcm|, p.phase), frames, ratio));
  }

  lemma OutcomeAccounts(
      p: Player, p': Player, c: Callback, script: seq<Dequeued>, budgetIn: nat, before: seq<real>, after: seq<real>,
      used: nat, budget: nat)
    requires Sound(p) && CallbackOk(c, script)
    requires Outcome(p, p', c, script, budgetIn, before, after, used, budget)
    ensures used <= |script| && budget <= budgetIn
    ensures AccountedOf(p') == AccountedOf(p) + OwedBy(script[..used]) && p'.lost == p.lost + LostBy(script[..used])
  {
    if |p.pcm| >= RequiredInput(p.phase, c.frames, c.ratioAtStart) {
      SoundedAccounts(p, p', before, after, c.frames, c.ratioAtStart, c.gain);
    } else if budgetIn == 0 {
    } else if script == [] || !script[0].Got? {
      NeverBack(Position(|p.pcm|, p.phase), c.frames, c.ratioAtTail);
      MovedAccounts(p, AfterTail(Position(|p.pcm|, p.phase), c.frames, c.ratioAtTail));
      NoneCase(p, script, 0, used);
    } else {
      var d := Decoding(p, script, c.frames, budgetIn);
      DecodingAccounts(p, script, c.frames, budgetIn, d);
      if d.plays {
        SoundedAccounts(d.player, p', before, after, c.frames, c.ratioAtMix, c.gain);
      }
    }
  }

  /** On the path that decodes, with no reset and nothing overflowing: what is played is exactly what was
      buffered followed by what was decoded, and the drops are exactly the packets over age and those the
      packets taken carry with them. */
  lemma WhatIsHeard(
      p: Player, p': Player, c: Callback, script: seq<Dequeued>, budgetIn: nat, before: seq<real>, after: seq<real>,
      used: nat, budget: nat, f: nat) returns (q: Player)
    requires Sound(p) && CallbackOk(c, script)
    requires Outcome(p, p', c, script, budgetIn, before, after, used, budget)
    requires |p.pcm| < RequiredInput(p.phase, c.frames, c.ratioAtStart)
    requires budgetIn > 0 && script != [] && script[0].Got?
    requires f == FirstYoung(script, 0) && f < used <= |script| && Decodes(script[f])
    requires !AnyReset(script[f..used]) && Fits(p, script[f..used])
    ensures q.pcm == p.pcm + AudioOf(script[f..used]) && q.chunks == p.chunks + ChunksOf(script[f..used])
    ensures q.phase == p.phase && Sound(q)
    ensures Sounded(q, p', before, after, c.frames, c.ratioAtMix, c.gain)
    ensures p'.drops == p.drops + OwedBy(script[..f]) + DropsOf(script[f..used])
  {
    q := Decoding(p, script, c.frames, budgetIn).player;
    DecodingIs(p, script, c.frames, budgetIn, f);
    PlaysIffDecoded(p, script, c.frames, budgetIn, f);
    YoungWhole(PastAged(p, script[..f]), script, f, c.frames, budgetIn);
    SoundedDrops(q, p', before, after, c.frames, c.ratioAtMix, c.gain);
  }

  lemma SoundedDrops(
      p: Player, p': Player, before: seq<real>, after: seq<real>, frames: nat, ratio: real, gain: real)
    requires Sound(p) && ratio > 0.0 && Sounded(p, p', before, after, frames, ratio, gain)
    ensures p'.drops == p.drops
  {
  }

  lemma YoungWhole(p: Player, script: seq<Dequeued>, f: nat, n: nat, budget: nat)
    requires Sound(p) && f < |script| && script[f].Got? && budget > 0
    ensures
      var r := FromYoung(p, script, f, n, budget);
      var taken := script[f..r.used];
      !AnyReset(taken) && Fits(p, taken) ==>
        && r.player.pcm == p.pcm + AudioOf(taken) && r.player.chunks == p.chunks + ChunksOf(taken)
        && r.player.phase == p.phase && r.player.drops == p.drops + DropsOf(taken)
  {
    YoungLeads(p, script, f, n, budget);
  }
}

/** What one participant's share of the audio callback does, as functions of what is buffered: which packets
    are taken off the jitter queue, what is decoded, and how every packet's outcome is counted. The decoder
    is the environment, and so is the timing of arrivals: a script says what each dequeue returns and what
    each packet decodes to. Scripts are those the jitter queue can produce; QueueScripts shows it. */
module PlayerModel {

  import opened PcmLedger
  import opened Resampler

  /** A packet handed out by the jitter queue: a received one, or a concealment for a gap. It may
      carry the counts of packets the queue gave up on before it. */
  datatype Packet = Packet(
    concealment: bool,
    dropPending: bool,        // the concealed packet had arrived and was dropped by the receiver
    resetDecoder: bool,
    abandonedGaps: nat,
    abandonedDrops: nat,
    aged: bool,               // over the age limit when taken
    captureNs: int,
    captureValid: bool,
    pcm: seq<real>,           // empty when decoding fails
    ratioAfter: real)         // playout ratio read after this packet was decoded

  datatype Dequeued = Got(packet: Packet) | Empty | WaitingForGap

  datatype Callback = Callback(
    frames: nat,
    muted: bool,
    internalDrops: nat,       // drops the queue made on its own since the last callback
    stallTrims: seq<bool>,    // packets trimmed after a stall: is the drop to be counted now?
    ready: bool,
    latencyTrims: seq<bool>,
    gain: real,
    ratioAtStart: real, ratioAtMix: real, ratioAtTail: real)

  ghost predicate PacketOk(p: Packet) { |p.pcm| <= 960 && MIN_RATIO <= p.ratioAfter <= MAX_RATIO }

  ghost predicate CallbackOk(c: Callback, script: seq<Dequeued>) {
    && MIN_RATIO <= c.ratioAtStart <= MAX_RATIO && MIN_RATIO <= c.ratioAtMix <= MAX_RATIO
    && MIN_RATIO <= c.ratioAtTail <= MAX_RATIO
    && (forall i :: 0 <= i < |script| && script[i].Got? ==> PacketOk(script[i].packet))
    && FromQueue(script)
  }

  /** What the jitter queue can hand out one after the other: only received packets are over age, for a
      concealment is stamped when it is made; and the packet after a received one carries no abandoned
      counts, for the queue abandons only in a run of concealments. */
  ghost predicate FromQueue(script: seq<Dequeued>) {
    && (forall i :: 0 <= i < |script| ==> AgedIsReceived(script[i]))
    && forall i :: 0 < i < |script| ==> Follows(script[i - 1], script[i])
  }

  predicate AgedIsReceived(d: Dequeued) { d.Got? && d.packet.aged ==> !d.packet.concealment }

  predicate Follows(before: Dequeued, d: Dequeued) {
    before.Got? && !before.packet.concealment && d.Got? ==> d.packet.abandonedDrops == d.packet.abandonedGaps == 0
  }

  // ----- what the outcomes should add up to --------------------------------------------------------

  ghost function CountTrue(s: seq<bool>): nat {
    if s == [] then 0 else CountTrue(s[..|s| - 1]) + if s[|s| - 1] then 1 else 0
  }

  /** Outcomes of packets that arrived, owed once this item is off the queue: the packet itself,
      or the dropped packet it conceals, and the dropped packets abandoned before it. */
  ghost function Owed(d: Dequeued): nat {
    if !d.Got? then 0
    else (if d.packet.concealment && !d.packet.dropPending then 0 else 1) + d.packet.abandonedDrops
  }

  ghost function OwedBy(taken: seq<Dequeued>): nat {
    if taken == [] then 0 else OwedBy(taken[..|taken| - 1]) + Owed(taken[|taken| - 1])
  }

  /** Packets lost in the network that this item settles: those abandoned before it, and the one it
      conceals unless that had arrived. */
  ghost function Lost(d: Dequeued): nat {
    if !d.Got? then 0
    else d.packet.abandonedGaps + if d.packet.concealment && !d.packet.dropPending then 1 else 0
  }

  ghost function LostBy(taken: seq<Dequeued>): nat {
    if taken == [] then 0 else LostBy(taken[..|taken| - 1]) + Lost(taken[|taken| - 1])
  }

  /** Everything one callback reports: what the queue dropped on its own, the trims to be counted now, and
      the outcomes of what it took off the queue. */
  ghost function Reported(c: Callback, taken: seq<Dequeued>): nat {
    c.internalDrops + TrimsCounted(c) + OwedBy(taken) + LostBy(taken)
  }

  ghost function TrimsCounted(c: Callback): nat {
    CountTrue(c.stallTrims) + if c.ready then CountTrue(c.latencyTrims) else 0
  }

  lemma TakeOneMore(script: seq<Dequeued>, used: nat)
    requires used < |script|
    ensures OwedBy(script[..used + 1]) == OwedBy(script[..used]) + Owed(script[used])
    ensures LostBy(script[..used + 1]) == LostBy(script[..used]) + Lost(script[used])
  {
    assert script[..used + 1][..used] == script[..used];
  }

  // ----- the player ------------------------------------------------------------------------------------

  /** Decoded audio and how far into its first frame playback stands, which packets it came from, and the
      outcomes counted so far. */
  datatype Player = Player(
    pcm: seq<real>, phase: real, chunks: seq<Chunk>, delivered: nat, drops: nat, lost: nat)

  ghost predicate Sound(p: Player) {
    && |p.pcm| <= PCM_BUFFER_FRAMES && Fraction(p.phase) && Positive(p.chunks) && |p.chunks| <= MAX_OPUS_QUEUE_SIZE
    && FrameSum(p.chunks) == |p.pcm|
  }

  /** Received packets with an outcome, or with frames still waiting to be played. */
  ghost function AccountedOf(p: Player): nat { p.delivered + p.drops + Received(p.chunks) }

  function Discarded(p: Player, resetPhase: bool): Player {
    p.(pcm := [], phase := if resetPhase then 0.0 else p.phase, chunks := [], drops := p.drops + Received(p.chunks))
  }

  function WithAbandoned(p: Player, packet: Packet): Player {
    p.(drops := p.drops + packet.abandonedDrops, lost := p.lost + packet.abandonedGaps)
  }

  /** Received packets this one settles as dropped when it is decoded, and packets lost in the network. */
  function DecodeDrops(packet: Packet): nat {
    if packet.concealment then (if packet.dropPending then 1 else 0) else if |packet.pcm| == 0 then 1 else 0
  }

  function DecodeLost(packet: Packet): nat { if packet.concealment && !packet.dropPending then 1 else 0 }

  function AfterDecode(p: Player, packet: Packet): Player {
    var q := if packet.resetDecoder then Discarded(p, true) else p;
    q.(drops := q.drops + DecodeDrops(packet), lost := q.lost + DecodeLost(packet))
  }

  function ChunkOf(packet: Packet): Chunk {
    Chunk(|packet.pcm|, packet.captureNs, packet.captureValid, !packet.concealment)
  }

  predicate Overflows(p: Player, packet: Packet) { |p.pcm| + |packet.pcm| > PCM_BUFFER_FRAMES }

  function AfterStore(p: Player, packet: Packet): Player {
    if Overflows(p, packet) || |p.chunks| == MAX_OPUS_QUEUE_SIZE then
      var q := Discarded(p, false);
      q.(drops := q.drops + if packet.concealment then 0 else 1)
    else p.(pcm := p.pcm + packet.pcm, chunks := p.chunks + [ChunkOf(packet)])
  }

  /** A packet that is young enough: abandoned counts, decoding, and its audio if there is any. */
  function AfterPacket(p: Player, packet: Packet): Player {
    var d := AfterDecode(WithAbandoned(p, packet), packet);
    if |packet.pcm| == 0 then d else AfterStore(d, packet)
  }

  /** A packet that resets the decoder starts over: only its own audio is left, at the start of a frame, and
      every received packet still waiting is a drop. */
  lemma ResetStartsOver(p: Player, packet: Packet)
    requires packet.resetDecoder && |packet.pcm| <= PCM_BUFFER_FRAMES
    ensures
      var q := AfterPacket(p, packet);
      && q.pcm == packet.pcm && q.phase == 0.0 && q.chunks == (if packet.pcm == [] then [] else [ChunkOf(packet)])
      && q.drops == p.drops + Received(p.chunks) + packet.abandonedDrops + DecodeDrops(packet)
      && q.delivered == p.delivered
  {
  }

  /** Audio that does not fit takes everything buffered with it: the packet and every received packet still
      waiting are drops, and playback stays where it is within a frame. */
  lemma OverflowLosesAll(p: Player, packet: Packet)
    requires !packet.resetDecoder && packet.pcm != []
    requires |p.pcm| + |packet.pcm| > PCM_BUFFER_FRAMES || |p.chunks| == MAX_OPUS_QUEUE_SIZE
    ensures
      var q := AfterPacket(p, packet);
      && q.pcm == [] && q.chunks == [] && q.phase == p.phase && q.delivered == p.delivered
      && q.drops == p.drops + Received(p.chunks) + packet.abandonedDrops + DecodeDrops(packet) +
                    if packet.concealment then 0 else 1
  {
  }

  /** Decoding goes on to the next packet. */
  predicate GoesOn(p: Player, packet: Packet) {
    |packet.pcm| > 0 && !Overflows(AfterDecode(WithAbandoned(p, packet), packet), packet)
  }

  datatype Progress = Progress(player: Player, used: nat, budget: nat, plays: bool)

  /** Taking packets from script[k] on until one is young enough. */
  function Scanned(p: Player, script: seq<Dequeued>, k: nat): (r: Progress)
    requires k <= |script|
    ensures k <= r.used <= |script| && (r.plays ==> k < r.used && script[r.used - 1].Got?)
    decreases |script| - k
  {
    if k == |script| then Progress(p, k, 0, false)
    else if !script[k].Got? then Progress(p, k + 1, 0, false)
    else
      var q := WithAbandoned(p, script[k].packet);
      if !script[k].packet.aged then Progress(q, k + 1, 0, true)
      else Scanned(q.(drops := q.drops + 1), script, k + 1)
  }

  /** Decoding further packets from script[k] on while the audio is short of n frames at the ratio. */
  function Filled(p: Player, script: seq<Dequeued>, k: nat, n: nat, ratio: real, budget: nat): (r: Progress)
    requires k <= |script|
    ensures k <= r.used <= |script| && r.budget <= budget && r.plays
    decreases budget
  {
    if |p.pcm| >= RequiredInput(p.phase, n, ratio) || budget == 0 || k == |script| then Progress(p, k, budget, true)
    else if !script[k].Got? then Progress(p, k + 1, budget, true)
    else
      var packet := script[k].packet;
      var q := AfterPacket(p, packet);
      if GoesOn(p, packet) then Filled(q, script, k + 1, n, packet.ratioAfter, budget - 1)
      else Progress(q, k + 1, budget - 1, true)
  }

  /** Everything up to mixing, when the queue has a packet. */
  function Decoding(p: Player, script: seq<Dequeued>, n: nat, budget: nat): (r: Progress)
    requires budget > 0
    ensures r.used <= |script| && r.budget <= budget
  {
    var s := Scanned(p, script, 0);
    if !s.plays then s.(budget := budget)
    else
      var packet := script[s.used - 1].packet;
      var d := AfterDecode(s.player, packet);
      if |packet.pcm| == 0 then Progress(d, s.used, budget - 1, false)
      else Filled(AfterStore(d, packet), script, s.used, n, packet.ratioAfter, budget - 1)
  }

  ghost function MovedTo(p: Player, to: Position): Player
    requires to.frames <= |p.pcm|
  {
    var k := |p.pcm| - to.frames;
    var t := Take(p.chunks, k);
    p.(pcm := p.pcm[k..], phase := to.phase, chunks := t.rest, delivered := p.delivered + t.delivered)
  }

  /** Playing uses frames up. */
  lemma NeverBack(at: Position, n: nat, ratio: real)
    requires Fraction(at.phase) && ratio > 0.0
    ensures AfterMix(at, n, ratio).frames <= at.frames && AfterTail(at, n, ratio).frames <= at.frames
  {
    ExactMonotone(at.phase, 0, n, ratio);
  }

  ghost function AfterFull(p: Player, n: nat, ratio: real): Player
    requires Fraction(p.phase) && ratio > 0.0
  {
    NeverBack(Position(|p.pcm|, p.phase), n, ratio);
    MovedTo(p, AfterMix(Position(|p.pcm|, p.phase), n, ratio))
  }

  ghost function AfterTailed(p: Player, n: nat, ratio: real): Player
    requires Fraction(p.phase) && ratio > 0.0
  {
    NeverBack(Position(|p.pcm|, p.phase), n, ratio);
    MovedTo(p, AfterTail(Position(|p.pcm|, p.phase), n, ratio))
  }

  // ----- what decoding leaves --------------------------------------------------------------------------

  /** The decoder makes something of the packet. */
  predicate Decodes(d: Dequeued) { d.Got? && |d.packet.pcm| > 0 }

  /** The audio and the chunks of what was decoded, in order, and the drops it carries with it: abandoned
      ones, failed decodes, and dropped packets that are concealed. */
  function AudioOf(taken: seq<Dequeued>): seq<real> {
    if taken == [] then []
    else
      var n := |taken| - 1;
      AudioOf(taken[..n]) + if Decodes(taken[n]) then taken[n].packet.pcm else []
  }

  function ChunksOf(taken: seq<Dequeued>): seq<Chunk> {
    if taken == [] then []
    else
      var n := |taken| - 1;
      ChunksOf(taken[..n]) + if Decodes(taken[n]) then [ChunkOf(taken[n].packet)] else []
  }

  function DropsIn(d: Dequeued): nat {
    if !d.Got? then 0 else d.packet.abandonedDrops + DecodeDrops(d.packet)
  }

  function DropsOf(taken: seq<Dequeued>): nat {
    if taken == [] then 0 else DropsOf(taken[..|taken| - 1]) + DropsIn(taken[|taken| - 1])
  }

  predicate AsksForReset(d: Dequeued) { d.Got? && d.packet.resetDecoder }

  predicate AnyReset(taken: seq<Dequeued>) { exists i :: 0 <= i < |taken| && AsksForReset(taken[i]) }

  predicate Fits(p: Player, taken: seq<Dequeued>) {
    |p.pcm| + |AudioOf(taken)| <= PCM_BUFFER_FRAMES && |p.chunks| + |ChunksOf(taken)| <= MAX_OPUS_QUEUE_SIZE
  }

  predicate Suffix<T(==)>(a: seq<T>, b: seq<T>) { |a| <= |b| && b[|b| - |a|..] == a }

  /** From p, decoding these leads to q: what is buffered is the end of what was buffered and decoded, all of
      it unless a reset or an overflow came; and the drops are those carried along and the received
      packets no longer buffered. */
  ghost predicate LeadsTo(p: Player, taken: seq<Dequeued>, q: Player) {
    && Suffix(q.pcm, p.pcm + AudioOf(taken)) && Suffix(q.chunks, p.chunks + ChunksOf(taken))
    && q.delivered == p.delivered && q.lost == p.lost + LostBy(taken)
    && q.drops + Received(q.chunks) == p.drops + DropsOf(taken) + Received(p.chunks) + Received(ChunksOf(taken))
    && (!AnyReset(taken) && Fits(p, taken) ==>
          && q.pcm == p.pcm + AudioOf(taken) && q.chunks == p.chunks + ChunksOf(taken) && q.phase == p.phase
          && q.drops == p.drops + DropsOf(taken))
  }

  lemma TakenOneMore(taken: seq<Dequeued>, d: Dequeued, all: seq<Dequeued>)
    requires all == taken + [d]
    ensures AudioOf(all) == AudioOf(taken) + if Decodes(d) then d.packet.pcm else []
    ensures ChunksOf(all) == ChunksOf(taken) + if Decodes(d) then [ChunkOf(d.packet)] else []
    ensures DropsOf(all) == DropsOf(taken) + DropsIn(d) && LostBy(all) == LostBy(taken) + Lost(d)
    ensures AnyReset(all) <==> AnyReset(taken) || AsksForReset(d)
  {
    assert all[..|taken|] == taken && all[|taken|] == d;
    if AnyReset(taken) {
      var i :| 0 <= i < |taken| && AsksForReset(taken[i]);
      assert AsksForReset(all[i]);
    }
    if AsksForReset(d) {
      assert AsksForReset(all[|taken|]);
    }
  }

  lemma SuffixGrows<T>(a: seq<T>, b: seq<T>, x: seq<T>)
    requires Suffix(a, b)
    ensures Suffix(a + x, b + x)
  {
  }

  lemma SuffixOfEmpty<T>(b: seq<T>)
    ensures Suffix([], b)
  {
  }

  lemma StoreSound(p: Player, packet: Packet)
    requires Sound(p) && |packet.pcm| > 0
    ensures Sound(AfterStore(p, packet))
  {
    SumsOfAppend(p.chunks, [ChunkOf(packet)]);
  }

  lemma PacketSound(p: Player, packet: Packet)
    requires Sound(p)
    ensures Sound(AfterDecode(WithAbandoned(p, packet), packet)) && Sound(AfterPacket(p, packet))
  {
    if |packet.pcm| > 0 {
      StoreSound(AfterDecode(WithAbandoned(p, packet), packet), packet);
    }
  }

  lemma NothingLeads(p: Player, taken: seq<Dequeued>, q: Player, d: Dequeued, all: seq<Dequeued>)
    requires LeadsTo(p, taken, q) && !d.Got? && all == taken + [d]
    ensures LeadsTo(p, all, q)
  {
    TakenOneMore(taken, d, all);
    assert AudioOf(all) == AudioOf(taken) && ChunksOf(all) == ChunksOf(taken);
  }

  lemma ReceivedOne(s: seq<Chunk>, packet: Packet)
    ensures Received(s + [ChunkOf(packet)]) == Received(s) + if packet.concealment then 0 else 1
  {
    SumsOfAppend(s, [ChunkOf(packet)]);
    assert Received([ChunkOf(packet)]) == if packet.concealment then 0 else 1;
  }

  /** Whether audio is kept or discarded, its packet is one more buffered or one more dropped. */
  lemma StoreCounts(p: Player, packet: Packet)
    ensures
      var q := AfterStore(p, packet);
      q.drops + Received(q.chunks) == p.drops + Received(p.chunks) + if packet.concealment then 0 else 1
  {
    ReceivedOne(p.chunks, packet);
  }

  lemma DecodeCounts(p: Player, packet: Packet)
    ensures
      var q := AfterDecode(WithAbandoned(p, packet), packet);
      && q.drops + Received(q.chunks) == p.drops + packet.abandonedDrops + DecodeDrops(packet) + Received(p.chunks)
      && q.lost == p.lost + Lost(Got(packet)) && q.delivered == p.delivered
  {
  }

  /** The ends of what is buffered stay ends. */
  lemma PacketSuffixes(p: Player, taken: seq<Dequeued>, q: Player, packet: Packet)
    requires Suffix(q.pcm, p.pcm + AudioOf(taken)) && Suffix(q.chunks, p.chunks + ChunksOf(taken))
    ensures
      var q' := AfterPacket(q, packet);
      && Suffix(q'.pcm, p.pcm + (AudioOf(taken) + packet.pcm))
      && Suffix(q'.chunks, p.chunks + (ChunksOf(taken) + if |packet.pcm| > 0 then [ChunkOf(packet)] else []))
  {
    var pcm, chunks := p.pcm + AudioOf(taken), p.chunks + ChunksOf(taken);
    assert p.pcm + (AudioOf(taken) + packet.pcm) == pcm + packet.pcm;
    assert p.chunks + (ChunksOf(taken) + [ChunkOf(packet)]) == chunks + [ChunkOf(packet)];
    assert p.chunks + (ChunksOf(taken) + []) == chunks;
    SuffixGrows(q.pcm, pcm, packet.pcm);
    SuffixGrows(q.chunks, chunks, [ChunkOf(packet)]);
    SuffixGrows([], pcm, packet.pcm);
    SuffixGrows([], chunks, [ChunkOf(packet)]);
    SuffixOfEmpty(pcm + packet.pcm);
    SuffixOfEmpty(chunks + [ChunkOf(packet)]);
    SuffixOfEmpty(chunks);
    assert [] + packet.pcm == packet.pcm && [] + [ChunkOf(packet)] == [ChunkOf(packet)];
    if |packet.pcm| == 0 {
      assert pcm + packet.pcm == pcm;
    }
  }

  lemma PacketLeads(p: Player, taken: seq<Dequeued>, q: Player, packet: Packet, all: seq<Dequeued>)
    requires LeadsTo(p, taken, q) && all == taken + [Got(packet)]
    ensures LeadsTo(p, all, AfterPacket(q, packet))
  {
    TakenOneMore(taken, Got(packet), all);
    PacketSuffixes(p, taken, q, packet);
    DecodeCounts(q, packet);
    StoreCounts(AfterDecode(WithAbandoned(q, packet), packet), packet);
    ReceivedOne(ChunksOf(taken), packet);
    if |packet.pcm| == 0 {
      assert AudioOf(taken) + [] == AudioOf(taken) && AudioOf(taken) + packet.pcm == AudioOf(taken);
      assert ChunksOf(taken) + [] == ChunksOf(taken);
    }
    if !AnyReset(all) && Fits(p, all) {
      KeptWhole(p, taken, q, packet);
    }
  }

  lemma KeptWhole(p: Player, taken: seq<Dequeued>, q: Player, packet: Packet)
    requires q.pcm == p.pcm + AudioOf(taken) && q.chunks == p.chunks + ChunksOf(taken)
    requires !packet.resetDecoder && |p.pcm| + |AudioOf(taken)| + |packet.pcm| <= PCM_BUFFER_FRAMES
    requires |packet.pcm| > 0 ==> |p.chunks| + |ChunksOf(taken)| < MAX_OPUS_QUEUE_SIZE
    ensures
      var q' := AfterPacket(q, packet);
      && q'.pcm == p.pcm + (AudioOf(taken) + packet.pcm) && q'.phase == q.phase
      && q'.chunks == p.chunks + (ChunksOf(taken) + if |packet.pcm| > 0 then [ChunkOf(packet)] else [])
      && q'.drops == q.drops + packet.abandonedDrops + DecodeDrops(packet)
  {
  }

  lemma NothingYet(p: Player)
    ensures LeadsTo(p, [], p)
  {
    assert p.pcm + [] == p.pcm && p.chunks + [] == p.chunks;
  }

  lemma FillStep(p: Player, taken: seq<Dequeued>, now: Player, d: Dequeued, all: seq<Dequeued>)
    requires LeadsTo(p, taken, now) && Sound(now) && all == taken + [d]
    ensures !d.Got? ==> LeadsTo(p, all, now)
    ensures d.Got? ==> LeadsTo(p, all, AfterPacket(now, d.packet)) && Sound(AfterPacket(now, d.packet))
  {
    if d.Got? {
      PacketLeads(p, taken, now, d.packet, all);
      PacketSound(now, d.packet);
    } else {
      NothingLeads(p, taken, now, d, all);
    }
  }

  /** Whatever holds of what was taken and the player, one more dequeue and its packet keeps. */
  ghost predicate Kept(holds: (seq<Dequeued>, Player) -> bool) {
    && (forall taken, q, d: Dequeued :: holds(taken, q) && !d.Got? ==> holds(taken + [d], q))
    && (forall taken, q, packet :: holds(taken, q) ==> holds(taken + [Got(packet)], AfterPacket(q, packet)))
  }

  /** So does filling the buffer. */
  lemma {:induction false} FillKeeps(
      holds: (seq<Dequeued>, Player) -> bool, script: seq<Dequeued>, f: nat, k: nat, now: Player, n: nat, ratio: real,
      budget: nat)
    requires f <= k <= |script| && Kept(holds) && holds(script[f..k], now)
    ensures var r := Filled(now, script, k, n, ratio, budget); holds(script[f..r.used], r.player)
    decreases budget
  {
    if |now.pcm| >= RequiredInput(now.phase, n, ratio) || budget == 0 || k == |script| {
    } else {
      assert script[f..k + 1] == script[f..k] + [script[k]];
      if script[k].Got? {
        var packet := script[k].packet;
        assert script[k] == Got(packet);
        assert holds(script[f..k + 1], AfterPacket(now, packet));
        if GoesOn(now, packet) {
          FillKeeps(holds, script, f, k + 1, AfterPacket(now, packet), n, packet.ratioAfter, budget - 1);
        }
      }
    }
  }

  ghost predicate LeadsSoundly(p: Player, taken: seq<Dequeued>, q: Player) { LeadsTo(p, taken, q) && Sound(q) }

  lemma LeadsIsKept(p: Player)
    ensures Kept((taken, q) => LeadsSoundly(p, taken, q))
  {
    var holds: (seq<Dequeued>, Player) -> bool := (taken, q) => LeadsSoundly(p, taken, q);
    forall taken, q, d: Dequeued | holds(taken, q) && !d.Got? ensures holds(taken + [d], q) {
      FillStep(p, taken, q, d, taken + [d]);
    }
    forall taken, q, packet | holds(taken, q) ensures holds(taken + [Got(packet)], AfterPacket(q, packet)) {
      FillStep(p, taken, q, Got(packet), taken + [Got(packet)]);
    }
  }

  /** The first young packet, and what is decoded after it. */
  function FromYoung(p: Player, script: seq<Dequeued>, f: nat, n: nat, budget: nat): (r: Progress)
    requires f < |script| && script[f].Got? && budget > 0
    ensures f < r.used <= |script|
  {
    var packet := script[f].packet;
    var q := AfterPacket(p, packet);
    if |packet.pcm| == 0 then Progress(q, f + 1, budget - 1, false)
    else Filled(q, script, f + 1, n, packet.ratioAfter, budget - 1)
  }

  lemma YoungKeeps(
      holds: (seq<Dequeued>, Player) -> bool, p: Player, script: seq<Dequeued>, f: nat, n: nat, budget: nat)
    requires f < |script| && script[f].Got? && budget > 0 && Kept(holds) && holds([], p)
    ensures var r := FromYoung(p, script, f, n, budget); holds(script[f..r.used], r.player)
  {
    var packet := script[f].packet;
    assert script[f..f + 1] == [] + [Got(packet)];
    if |packet.pcm| > 0 {
      FillKeeps(holds, script, f, f + 1, AfterPacket(p, packet), n, packet.ratioAfter, budget - 1);
    }
  }

  lemma YoungLeads(p: Player, script: seq<Dequeued>, f: nat, n: nat, budget: nat)
    requires Sound(p) && f < |script| && script[f].Got? && budget > 0
    ensures var r := FromYoung(p, script, f, n, budget); LeadsSoundly(p, script[f..r.used], r.player)
  {
    NothingYet(p);
    LeadsIsKept(p);
    YoungKeeps((taken, q) => LeadsSoundly(p, taken, q), p, script, f, n, budget);
  }

  // ----- the scan for a young packet ---------------------------------------------------------------------

  /** The first packet that is not over age, or where there is none to be had. */
  function FirstYoung(script: seq<Dequeued>, k: nat): (f: nat)
    requires k <= |script|
    ensures k <= f <= |script|
    decreases |script| - k
  {
    if k < |script| && script[k].Got? && script[k].packet.aged then FirstYoung(script, k + 1) else k
  }

  /** The player once the packets over age, with what was abandoned before them, are counted as drops. */
  ghost function PastAged(p: Player, aged: seq<Dequeued>): Player {
    p.(drops := p.drops + OwedBy(aged), lost := p.lost + LostBy(aged))
  }

  lemma {:induction false} ScanIs(p: Player, script: seq<Dequeued>, k: nat)
    requires k <= |script| && forall i :: 0 <= i < |script| ==> AgedIsReceived(script[i])
    ensures
      var r, f := Scanned(PastAged(p, script[..k]), script, k), FirstYoung(script, k);
      if f < |script| && script[f].Got?
      then r == Progress(WithAbandoned(PastAged(p, script[..f]), script[f].packet), f + 1, 0, true)
      else r == Progress(PastAged(p, script[..f]), if f < |script| then f + 1 else f, 0, false)
    decreases |script| - k
  {
    if k < |script| && script[k].Got? && script[k].packet.aged {
      TakeOneMore(script, k);
      assert AgedIsReceived(script[k]);
      var now := PastAged(p, script[..k]);
      var q := WithAbandoned(now, script[k].packet);
      assert q.(drops := q.drops + 1) == PastAged(p, script[..k + 1]);
      ScanIs(p, script, k + 1);
    }
  }

  // ----- everything up to mixing -----------------------------------------------------------------------------

  /** The packets over age are drops. If a young packet comes, it and what follows it are decoded; nothing is
      mixed in a callback whose first young packet cannot be decoded. */
  lemma DecodingIs(p: Player, script: seq<Dequeued>, n: nat, budget: nat, f: nat)
    requires budget > 0 && f == FirstYoung(script, 0)
    requires forall i :: 0 <= i < |script| ==> AgedIsReceived(script[i])
    ensures
      var q := PastAged(p, script[..f]);
      Decoding(p, script, n, budget) ==
      if f < |script| && script[f].Got? then FromYoung(q, script, f, n, budget)
      else Progress(q, if f < |script| then f + 1 else f, budget, false)
  {
    assert script[..0] == [];
    assert PastAged(p, []) == p;
    ScanIs(p, script, 0);
  }

  lemma PlaysIffDecoded(p: Player, script: seq<Dequeued>, n: nat, budget: nat, f: nat)
    requires budget > 0 && f == FirstYoung(script, 0)
    requires forall i :: 0 <= i < |script| ==> AgedIsReceived(script[i])
    ensures Decoding(p, script, n, budget).plays <==> f < |script| && Decodes(script[f])
  {
    DecodingIs(p, script, n, budget, f);
  }

  /** What was decoded is dropped, or buffered: nothing that arrived is left uncounted. */
  lemma {:induction false} OwedSplits(taken: seq<Dequeued>)
    ensures DropsOf(taken) + Received(ChunksOf(taken)) == OwedBy(taken)
  {
    if taken == [] {
    } else {
      var n := |taken| - 1;
      OwedSplits(taken[..n]);
      if Decodes(taken[n]) {
        ReceivedOne(ChunksOf(taken[..n]), taken[n].packet);
      } else {
        assert ChunksOf(taken[..n]) + [] == ChunksOf(taken[..n]);
      }
    }
  }

  lemma {:induction false} OwedInParts(a: seq<Dequeued>, b: seq<Dequeued>)
    ensures OwedBy(a + b) == OwedBy(a) + OwedBy(b) && LostBy(a + b) == LostBy(a) + LostBy(b)
  {
    if b == [] {
      assert a + b == a;
    } else {
      var n := |b| - 1;
      assert (a + b)[..|a| + n] == a + b[..n] && (a + b)[|a| + n] == b[n];
      OwedInParts(a, b[..n]);
    }
  }

  lemma DecodingAccounts(p: Player, script: seq<Dequeued>, n: nat, budget: nat, r: Progress)
    requires Sound(p) && budget > 0 && r == Decoding(p, script, n, budget)
    requires forall i :: 0 <= i < |script| ==> AgedIsReceived(script[i])
    ensures Sound(r.player) && AccountedOf(r.player) == AccountedOf(p) + OwedBy(script[..r.used])
    ensures r.player.lost == p.lost + LostBy(script[..r.used]) && r.player.delivered == p.delivered
  {
    var f := FirstYoung(script, 0);
    DecodingIs(p, script, n, budget, f);
    if f < |script| && script[f].Got? {
      YoungCase(p, script, f, n, budget, r);
    } else {
      NoneCase(p, script, f, r.used);
    }
  }

  lemma NoneCase(p: Player, script: seq<Dequeued>, f: nat, used: nat)
    requires f <= |script| && !(f < |script| && script[f].Got?) && used == (if f < |script| then f + 1 else f)
    ensures OwedBy(script[..used]) == OwedBy(script[..f]) && LostBy(script[..used]) == LostBy(script[..f])
  {
    if f < |script| {
      TakeOneMore(script, f);
    }
  }

  lemma YoungCase(p: Player, script: seq<Dequeued>, f: nat, n: nat, budget: nat, r: Progress)
    requires Sound(p) && f < |script| && script[f].Got? && budget > 0
    requires r == FromYoung(PastAged(p, script[..f]), script, f, n, budget)
    ensures Sound(r.player) && AccountedOf(r.player) == AccountedOf(p) + OwedBy(script[..r.used])
    ensures r.player.lost == p.lost + LostBy(script[..r.used]) && r.player.delivered == p.delivered
  {
    YoungAccounts(PastAged(p, script[..f]), script, f, n, budget, r);
    OwedInParts(script[..f], script[f..r.used]);
    assert script[..f] + script[f..r.used] == script[..r.used];
  }

  lemma YoungAccounts(q: Player, script: seq<Dequeued>, f: nat, n: nat, budget: nat, r: Progress)
    requires Sound(q) && f < |script| && script[f].Got? && budget > 0 && r == FromYoung(q, script, f, n, budget)
    ensures Sound(r.player) && AccountedOf(r.player) == AccountedOf(q) + OwedBy(script[f..r.used])
    ensures r.player.lost == q.lost + LostBy(script[f..r.used]) && r.player.delivered == q.delivered
  {
    YoungLeads(q, script, f, n, budget);
    LeadsAccounts(q, script[f..r.used], r.player);
  }

  lemma LeadsAccounts(p: Player, taken: seq<Dequeued>, q: Player)
    requires LeadsSoundly(p, taken, q)
    ensures Sound(q) && AccountedOf(q) == AccountedOf(p) + OwedBy(taken)
    ensures q.lost == p.lost + LostBy(taken) && q.delivered == p.delivered
  {
    OwedSplits(taken);
  }

  // ----- decoding goes on until there is enough --------------------------------------------------------------

  /** Decoding stops for good reason: there is enough for n frames at the ratio read last, the budget is
      spent, the queue has nothing, or the last packet could not be used. */
  ghost predicate StoppedForReason(script: seq<Dequeued>, k: nat, n: nat, ratio: real, r: Progress)
    requires k <= r.used <= |script|
  {
    || (r.used == k && |r.player.pcm| >= RequiredInput(r.player.phase, n, ratio))
    || (r.used > k && script[r.used - 1].Got?
        && |r.player.pcm| >= RequiredInput(r.player.phase, n, script[r.used - 1].packet.ratioAfter))
    || r.budget == 0 || r.used == |script|
    || (r.used > k && !(script[r.used - 1].Got? && Decodes(script[r.used - 1])))
    || (r.used > k && r.player.pcm == [])
  }

  lemma {:induction false} FillsUp(p: Player, script: seq<Dequeued>, k: nat, n: nat, ratio: real, budget: nat)
    requires k <= |script|
    ensures StoppedForReason(script, k, n, ratio, Filled(p, script, k, n, ratio, budget))
    decreases budget
  {
    if |p.pcm| >= RequiredInput(p.phase, n, ratio) || budget == 0 || k == |script| {
    } else if !script[k].Got? {
    } else if GoesOn(p, script[k].packet) {
      FillsUp(AfterPacket(p, script[k].packet), script, k + 1, n, script[k].packet.ratioAfter, budget - 1);
    }
  }

  /** How many of the results are packets. */
  function PacketsIn(taken: seq<Dequeued>): nat {
    if taken == [] then 0 else PacketsIn(taken[..|taken| - 1]) + if taken[|taken| - 1].Got? then 1 else 0
  }

  lemma PacketsOneMore(script: seq<Dequeued>, j: nat, k: nat)
    requires j <= k < |script|
    ensures PacketsIn(script[j..k + 1]) == PacketsIn(script[j..k]) + if script[k].Got? then 1 else 0
  {
    assert script[j..k + 1][..k - j] == script[j..k];
  }

  /** Every packet the fill loop takes costs one of the budget, and nothing else does. */
  lemma {:induction false} BudgetSpent(
      p: Player, script: seq<Dequeued>, j: nat, k: nat, n: nat, ratio: real, budget: nat)
    requires j <= k <= |script|
    ensures
      var r := Filled(p, script, k, n, ratio, budget);
      PacketsIn(script[j..r.used]) + r.budget == PacketsIn(script[j..k]) + budget
    decreases budget
  {
    if k == |script| {
    } else {
      PacketsOneMore(script, j, k);
      if budget > 0 && script[k].Got? {
        BudgetSpent(AfterPacket(p, script[k].packet), script, j, k + 1, n, script[k].packet.ratioAfter, budget - 1);
      }
    }
  }
}

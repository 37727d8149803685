/** The playout queue as it is kept, on 32-bit words compared by distance: it does what the queue on
    counters does while what it holds and what arrives lie in one half of the number space, and exactly
    which packets it throws away beyond. */
module WordQueue {

  import opened Common
  import opened DropRanges
  import opened PlayoutQueue
  import opened SerialNumbers
  import opened WordDrops
  import T = WordTracker
  import S = SequenceTracker

  // ----- the operations on words ---------------------------------------------------------------------

  predicate WordPackets(ps: seq<Packet>) { forall i :: 0 <= i < |ps| ==> ps[i].number < UINT32 }

  predicate OnWords(q: Queue) { q.next < UINT32 && WordPackets(q.packets) && |q.drops| == SLOTS && T.Words(q.drops) }

  function WordEarliest(ps: seq<Packet>, k: nat): (e: nat)
    requires 0 < k <= |ps|
    ensures e < k
  {
    if k == 1 then 0
    else
      var e := WordEarliest(ps, k - 1);
      if SequenceBefore(ps[k - 1].number, ps[e].number) then k - 1 else e
  }

  function WordLatest(ps: seq<Packet>, k: nat): (l: nat)
    requires 0 < k <= |ps|
    ensures l < k
  {
    if k == 1 then 0
    else
      var l := WordLatest(ps, k - 1);
      if SequenceBefore(ps[l].number, ps[k - 1].number) then k - 1 else l
  }

  function WordFreshOnly(ps: seq<Packet>, next: nat, i: nat): (out: seq<Packet>)
    requires i <= |ps| && forall j :: 0 <= j < i ==> !SequenceBefore(ps[j].number, next)
    ensures WordPackets(ps) ==> WordPackets(out)
    decreases |ps| - i
  {
    if i == |ps| then ps
    else if SequenceBefore(ps[i].number, next) then WordFreshOnly(ErasePacket(ps, i), next, i)
    else WordFreshOnly(ps, next, i + 1)
  }

  function WordRecordDrop(q: Queue, n: Word): Queue
    requires OnWords(q)
  {
    if q.started && SequenceBefore(n, q.next) then q else q.(drops := WordWithDrop(q.drops, n))
  }

  function WordAdmit(q: Queue, p: Packet): Queue
    requires OnWords(q) && p.number < UINT32
  {
    if (q.started && SequenceBefore(p.number, q.next)) || Has(q.packets, p.number) then q
    else if |q.packets| < MAX_QUEUE then q.(packets := q.packets + [p])
    else
      var l := WordLatest(q.packets, |q.packets|);
      if SequenceBefore(p.number, q.packets[l].number)
      then WordRecordDrop(q, q.packets[l].number).(packets := q.packets[l := p])
      else WordRecordDrop(q, p.number)
  }

  lemma OneStepCloser(n: Word, next: Word)
    requires next != n
    ensures Offset(n, Wire(next + 1)) == Offset(n, next) - 1
  {
    if n > next {
      ModuloOf(n - next, 0, n - next);
    } else {
      ModuloOf(n - next, -1, n - next + UINT32);
    }
    if next + 1 < UINT32 {
      ModuloOf(next + 1, 0, next + 1);
      Closer(n - next);
    } else {
      ModuloOf(next + 1, 1, 0);
      ModuloOf(n, 0, n);
    }
  }

  lemma Closer(d: int)
    requires -UINT32 < d < UINT32 && d != 0
    ensures (d - 1) % UINT32 == (if d > 0 then d else d + UINT32) - 1
  {
    if d > 0 {
      ModuloOf(d - 1, 0, d - 1);
    } else {
      ModuloOf(d - 1, -1, d - 1 + UINT32);
    }
  }

  /** The loop stops at n, or at the first number not recorded as dropped. */
  function WordSkip(drops: seq<S.Range>, next: Word, n: Word): (s: Skip)
    requires T.Words(drops)
    ensures |s.drops| == |drops| && T.Words(s.drops) && s.next < UINT32
    decreases Offset(n, next)
  {
    if next == n || T.WordHolding(drops, next, 0).None? then Skip(drops, next)
    else
      TakenOutWords(drops, next);
      OneStepCloser(n, next);
      WordSkip(WordTakenOut(drops, next), Wire(next + 1), n)
  }

  function WordPlayAt(q: Queue, i: nat, reset: bool, abandonedGap: nat, abandonedDrop: nat): Result
    requires i < |q.packets|
  {
    var p := q.packets[i];
    Result(q.(packets := ErasePacket(q.packets, i), next := Wire(p.number + 1), wait := NotWaiting, lossRun := None),
           Play(p, reset, abandonedGap, abandonedDrop), q.next)
  }

  function WordGiveUp(q: Queue, i: nat): Result
    requires OnWords(q) && i < |q.packets|
  {
    var abandoned := Offset(q.packets[i].number, q.next);
    var drops := WordConsumed(q.drops, q.next, abandoned, |q.drops|);
    WordPlayAt(q.(drops := WordCutAll(q.drops, q.next, abandoned)), i, true, Wire(abandoned - drops), drops)
  }

  function WordConcealNext(q: Queue): Result
    requires OnWords(q)
  {
    Result(q.(drops := WordTakenOut(q.drops, q.next), next := Wire(q.next + 1), wait := NotWaiting,
              lossRun := Some(if q.lossRun.Some? then q.lossRun.value + 1 else 1)),
           Conceal(q.next, T.WordHolding(q.drops, q.next, 0).Some?), q.next)
  }

  function WordAtGap(q: Queue, i: nat, gapWait: nat): Result
    requires OnWords(q) && i < |q.packets|
  {
    var wait := WaitNow(q);
    if gapWait > 0 && q.lossRun.None? && wait.callbacks < gapWait then
      Result(q.(wait := wait.(callbacks := wait.callbacks + 1)), WaitingForGap, q.next)
    else if q.lossRun.Some? && q.lossRun.value >= MAX_CONCEALED_RUN then WordGiveUp(q, i)
    else WordConcealNext(q)
  }

  /** The queue with recorded drops passed over up to s. */
  function WordPassedOver(q: Queue, s: Skip): (r: Queue)
    requires OnWords(q) && s.next < UINT32 && |s.drops| == SLOTS && T.Words(s.drops)
    ensures OnWords(r)
  {
    if s.next == q.next then q
    else
      q.(drops := s.drops, next := s.next, wait := NotWaiting,
         internalDrops := q.internalDrops + Offset(s.next, q.next))
  }

  function WordMissing(q: Queue, i: nat, gapWait: nat, s: Skip): Result
    requires OnWords(q) && i < |q.packets| && s.next < UINT32 && |s.drops| == SLOTS && T.Words(s.drops)
  {
    var r := WordPassedOver(q, s);
    if s.next != q.next && s.next == q.packets[i].number then WordPlayAt(r, i, true, 0, 0) else WordAtGap(r, i, gapWait)
  }

  function WordDequeueFresh(q: Queue, gapWait: nat): Result
    requires OnWords(q) && q.packets != []
  {
    var i := WordEarliest(q.packets, |q.packets|);
    var n := q.packets[i].number;
    if n == q.next then WordPlayAt(q, i, false, 0, 0) else WordMissing(q, i, gapWait, WordSkip(q.drops, q.next, n))
  }

  function WordStarted(q: Queue): Queue
    requires q.packets != []
  {
    if q.started then q else q.(started := true, next := q.packets[WordEarliest(q.packets, |q.packets|)].number)
  }

  function WordDequeue(q: Queue, gapWait: nat, blocked: bool): Result
    requires OnWords(q)
  {
    if q.packets == [] then Result(q.(wait := NotWaiting), Empty, q.next)
    else if blocked then Result(q, WaitingForGap, q.next)
    else
      var s := WordStarted(q);
      var r := s.(packets := WordFreshOnly(s.packets, s.next, 0));
      if r.packets == [] then Result(r.(wait := NotWaiting), Empty, r.next) else WordDequeueFresh(r, gapWait)
  }

  function WordTrim(q: Queue, blocked: bool): Queue
    requires OnWords(q)
  {
    if q.packets == [] || blocked then q
    else
      var i := WordEarliest(q.packets, |q.packets|);
      var n := q.packets[i].number;
      var r := q.(packets := ErasePacket(q.packets, i));
      if !q.started then r
      else if n == q.next then r.(next := Wire(n + 1), wait := NotWaiting)
      else r.(drops := WordWithDrop(q.drops, n))
  }

  // ----- everything that happens to the queue ----------------------------------------------------------

  /** The queue on words, and what became of the numbers passed since playout started. */
  datatype Heard = Heard(queue: Queue, log: seq<Passed>)

  function WordNumbers(first: Word, count: nat, fate: Fate): (s: seq<Passed>)
    ensures |s| == count && forall i :: 0 <= i < count ==> s[i] == Passed(Wire(first + i), fate)
  {
    seq(count, i requires 0 <= i < count => Passed(Wire(first + i), fate))
  }

  function WordPassedAt(at: Word, output: Output): seq<Passed> {
    match output
    case Play(p, _, _, _) =>
      (if p.number < UINT32 then WordNumbers(at, Offset(p.number, at), Abandoned) else []) + [Passed(p.number, Played)]
    case Conceal(n, drop) => [Passed(n, if drop then ConcealedDrop else ConcealedGap)]
    case _ => []
  }

  function WordPassedBy(from: Word, r: Result): seq<Passed>
    requires r.at < UINT32
  {
    WordNumbers(from, Offset(r.at, from), SkippedDrop) + WordPassedAt(r.at, r.output)
  }

  function WordOrigin(q: Queue, blocked: bool): nat {
    if q.packets == [] || blocked then q.next else WordStarted(q).next
  }

  lemma DequeueOnWords(q: Queue, gapWait: nat, blocked: bool)
    requires OnWords(q)
    ensures WordDequeue(q, gapWait, blocked).at < UINT32 && OnWords(WordDequeue(q, gapWait, blocked).queue)
  {
    if q.packets != [] && !blocked {
      var s := WordStarted(q);
      var r := s.(packets := WordFreshOnly(s.packets, s.next, 0));
      if r.packets != [] {
        FreshOnWords(r, gapWait);
      }
    }
  }

  lemma FreshOnWords(q: Queue, gapWait: nat)
    requires OnWords(q) && q.packets != []
    ensures WordDequeueFresh(q, gapWait).at < UINT32 && OnWords(WordDequeueFresh(q, gapWait).queue)
  {
    var i := WordEarliest(q.packets, |q.packets|);
    var n := q.packets[i].number;
    if n != q.next {
      GapOnWords(WordPassedOver(q, WordSkip(q.drops, q.next, n)), i, gapWait);
    }
  }

  lemma GapOnWords(q: Queue, i: nat, gapWait: nat)
    requires OnWords(q) && i < |q.packets|
    ensures WordAtGap(q, i, gapWait).at < UINT32 && OnWords(WordAtGap(q, i, gapWait).queue)
  {
    TakenOutWords(q.drops, q.next);
    CutAllWords(q.drops, q.next, Offset(q.packets[i].number, q.next));
  }

  lemma AdmitOnWords(q: Queue, p: Packet)
    requires OnWords(q) && p.number < UINT32
    ensures OnWords(WordAdmit(q, p))
  {
    WithDropWords(q.drops, p.number);
    if q.packets != [] {
      WithDropWords(q.drops, q.packets[WordLatest(q.packets, |q.packets|)].number);
    }
  }

  lemma TrimOnWords(q: Queue, blocked: bool)
    requires OnWords(q)
    ensures OnWords(WordTrim(q, blocked))
  {
    if q.packets != [] {
      WithDropWords(q.drops, q.packets[WordEarliest(q.packets, |q.packets|)].number);
    }
  }

  function WordTaken(h: Heard, gapWait: nat, blocked: bool): Heard
    requires OnWords(h.queue)
  {
    var r := WordDequeue(h.queue, gapWait, blocked);
    DequeueOnWords(h.queue, gapWait, blocked);
    Heard(r.queue, h.log + WordPassedBy(WordOrigin(h.queue, blocked), r))
  }

  function WordTrimmed(h: Heard, blocked: bool): Heard
    requires OnWords(h.queue)
  {
    var r := WordTrim(h.queue, blocked);
    Heard(r, h.log + if h.queue.started && r.next != h.queue.next then [Passed(h.queue.next, Trimmed)] else [])
  }

  /** Packets arrive with their numbers cut to 32 bits. */
  function WordStep(h: Heard, a: Action): (h': Heard)
    requires OnWords(h.queue)
    ensures OnWords(h'.queue)
  {
    match a
    case Arrive(p) =>
      AdmitOnWords(h.queue, PacketImage(p));
      h.(queue := WordAdmit(h.queue, PacketImage(p)))
    case ArriveDropped(n) =>
      WithDropWords(h.queue.drops, Wire(n));
      h.(queue := WordRecordDrop(h.queue, Wire(n)))
    case Take(g, b) =>
      DequeueOnWords(h.queue, g, b);
      WordTaken(h, g, b)
    case TrimOldest(b) =>
      TrimOnWords(h.queue, b);
      WordTrimmed(h, b)
    case Forget => Heard(NEW_QUEUE, [])
  }

  function WordAfter(acts: seq<Action>): (h: Heard)
    ensures OnWords(h.queue)
  {
    if acts == [] then Heard(NEW_QUEUE, []) else WordStep(WordAfter(acts[..|acts| - 1]), acts[|acts| - 1])
  }

  // ----- the image of the queue on counters --------------------------------------------------------------

  function PacketImage(p: Packet): Packet { p.(number := Wire(p.number)) }

  function PacketImages(ps: seq<Packet>): (out: seq<Packet>)
    ensures |out| == |ps| && forall i :: 0 <= i < |ps| ==> out[i] == PacketImage(ps[i])
  {
    seq(|ps|, i requires 0 <= i < |ps| => PacketImage(ps[i]))
  }

  function QueueImage(q: Queue): Queue {
    q.(packets := PacketImages(q.packets), next := Wire(q.next), drops := T.Images(q.drops),
       wait := if q.wait.GapWait? then q.wait.(number := Wire(q.wait.number)) else q.wait)
  }

  function OutputImage(o: Output): Output {
    match o
    case Play(p, r, g, d) => Play(PacketImage(p), r, g, d)
    case Conceal(n, d) => Conceal(Wire(n), d)
    case _ => o
  }

  function ResultImage(r: Result): Result { Result(QueueImage(r.queue), OutputImage(r.output), Wire(r.at)) }

  function LogImage(log: seq<Passed>): (out: seq<Passed>)
    ensures |out| == |log| && forall i :: 0 <= i < |log| ==> out[i] == log[i].(number := Wire(log[i].number))
  {
    seq(|log|, i requires 0 <= i < |log| => log[i].(number := Wire(log[i].number)))
  }

  // ----- it does what the queue on counters does -------------------------------------------------------------

  predicate PacketNear(ps: seq<Packet>, i: int, base: nat) { 0 <= i < |ps| ==> Inside(ps[i].number, base) }

  ghost predicate PacketsNear(ps: seq<Packet>, base: nat) { forall i :: PacketNear(ps, i, base) }

  /** What is queued and where playout stands lie in one half of the number space. */
  ghost predicate QueueNear(q: Queue, base: nat) {
    PacketsNear(q.packets, base) && (q.started ==> Inside(q.next, base)) && SlotsNear(q.drops, base)
  }

  /** So does a number that arrives, or it is less than half the number space late. */
  predicate NumberNear(q: Queue, n: nat, base: nat) { Inside(n, base) || (q.started && q.next - HALF < n < q.next) }

  /** Gap waiting is for the number that playout stands at. */
  predicate WaitsForNext(q: Queue) { q.wait.GapWait? ==> q.started && q.wait.number == q.next }

  lemma PacketsNearAt(ps: seq<Packet>, base: nat, i: nat)
    requires PacketsNear(ps, base) && i < |ps|
    ensures Inside(ps[i].number, base)
  {
    assert PacketNear(ps, i, base);
  }

  lemma OrderAgrees(a: nat, b: nat, base: nat)
    requires Inside(a, base) && Inside(b, base)
    ensures SequenceBefore(Wire(a), Wire(b)) <==> a < b
    ensures Wire(a) == Wire(b) <==> a == b
  {
    BeforeAgrees(a, b);
    T.WireEqual(a, b);
  }

  lemma {:induction false} EarliestAgrees(ps: seq<Packet>, base: nat, k: nat)
    requires PacketsNear(ps, base) && 0 < k <= |ps|
    ensures WordEarliest(PacketImages(ps), k) == Earliest(ps, k)
  {
    if k == 1 {
    } else {
      EarliestAgrees(ps, base, k - 1);
      PacketsNearAt(ps, base, k - 1);
      PacketsNearAt(ps, base, Earliest(ps, k - 1));
      OrderAgrees(ps[k - 1].number, ps[Earliest(ps, k - 1)].number, base);
    }
  }

  lemma {:induction false} LatestAgrees(ps: seq<Packet>, base: nat, k: nat)
    requires PacketsNear(ps, base) && 0 < k <= |ps|
    ensures WordLatest(PacketImages(ps), k) == Latest(ps, k)
  {
    if k == 1 {
    } else {
      LatestAgrees(ps, base, k - 1);
      PacketsNearAt(ps, base, k - 1);
      PacketsNearAt(ps, base, Latest(ps, k - 1));
      OrderAgrees(ps[Latest(ps, k - 1)].number, ps[k - 1].number, base);
    }
  }

  lemma EraseAgrees(ps: seq<Packet>, base: nat, i: nat)
    requires i < |ps|
    ensures ErasePacket(PacketImages(ps), i) == PacketImages(ErasePacket(ps, i))
    ensures PacketsNear(ps, base) ==> PacketsNear(ErasePacket(ps, i), base)
  {
    if PacketsNear(ps, base) {
      var e := ErasePacket(ps, i);
      forall j ensures PacketNear(e, j, base) {
        assert PacketNear(ps, j, base) && PacketNear(ps, |ps| - 1, base);
      }
    }
  }

  lemma {:induction false} FreshAgrees(ps: seq<Packet>, next: nat, base: nat, i: nat)
    requires PacketsNear(ps, base) && Inside(next, base) && i <= |ps| && forall j :: 0 <= j < i ==> ps[j].number >= next
    ensures forall j :: 0 <= j < i ==> !SequenceBefore(PacketImages(ps)[j].number, Wire(next))
    ensures WordFreshOnly(PacketImages(ps), Wire(next), i) == PacketImages(FreshOnly(ps, next, i))
    ensures PacketsNear(FreshOnly(ps, next, i), base)
    decreases |ps| - i
  {
    forall j | 0 <= j < |ps| ensures SequenceBefore(PacketImages(ps)[j].number, Wire(next)) <==> ps[j].number < next {
      PacketsNearAt(ps, base, j);
      OrderAgrees(ps[j].number, next, base);
    }
    if i == |ps| {
    } else if ps[i].number < next {
      EraseAgrees(ps, base, i);
      FreshAgrees(ErasePacket(ps, i), next, base, i);
    } else {
      FreshAgrees(ps, next, base, i + 1);
    }
  }

  lemma HasAgrees(ps: seq<Packet>, n: nat, base: nat)
    requires PacketsNear(ps, base) && Inside(n, base)
    ensures Has(PacketImages(ps), Wire(n)) <==> Has(ps, n)
  {
    forall i | 0 <= i < |ps| ensures PacketImages(ps)[i].number == Wire(n) <==> ps[i].number == n {
      PacketsNearAt(ps, base, i);
      OrderAgrees(ps[i].number, n, base);
    }
    if Has(ps, n) {
      var i :| 0 <= i < |ps| && ps[i].number == n;
      assert PacketImages(ps)[i].number == Wire(n);
    }
  }

  lemma ImageOnWords(q: Queue, base: nat)
    requires QueueNear(q, base) && |q.drops| == SLOTS
    ensures OnWords(QueueImage(q))
  {
    SlotsAreWords(q.drops, base);
  }

  // -- arrivals

  lemma LateAgrees(q: Queue, n: nat, base: nat)
    requires QueueNear(q, base) && NumberNear(q, n, base) && q.started
    ensures SequenceBefore(Wire(n), Wire(q.next)) <==> n < q.next
  {
    if Inside(n, base) {
      OrderAgrees(n, q.next, base);
    } else {
      BeforeAgrees(n, q.next);
    }
  }

  lemma RecordDropAgrees(q: Queue, n: nat, base: nat)
    requires QueueNear(q, base) && NumberNear(q, n, base) && |q.drops| == SLOTS
    ensures OnWords(QueueImage(q)) && WordRecordDrop(QueueImage(q), Wire(n)) == QueueImage(RecordDrop(q, n))
  {
    ImageOnWords(q, base);
    if q.started {
      LateAgrees(q, n, base);
    }
    if !(q.started && n < q.next) {
      WithDropAgrees(q.drops, n, base);
    }
  }

  lemma AdmitAgrees(q: Queue, p: Packet, base: nat)
    requires QueueNear(q, base) && NumberNear(q, p.number, base) && |q.drops| == SLOTS
    ensures OnWords(QueueImage(q)) && WordAdmit(QueueImage(q), PacketImage(p)) == QueueImage(Admit(q, p))
  {
    ImageOnWords(q, base);
    if q.started {
      LateAgrees(q, p.number, base);
    }
    if !(q.started && p.number < q.next) {
      HasAgrees(q.packets, p.number, base);
      if !Has(q.packets, p.number) {
        if |q.packets| < MAX_QUEUE {
          assert PacketImages(q.packets) + [PacketImage(p)] == PacketImages(q.packets + [p]);
        } else {
          FullAgrees(q, p, base);
        }
      }
    }
  }

  lemma FullAgrees(q: Queue, p: Packet, base: nat)
    requires QueueNear(q, base) && Inside(p.number, base) && |q.drops| == SLOTS && |q.packets| >= MAX_QUEUE
    ensures OnWords(QueueImage(q))
    ensures
      var l := Latest(q.packets, |q.packets|);
      var latest := q.packets[l];
      && WordLatest(PacketImages(q.packets), |q.packets|) == l
      && (SequenceBefore(Wire(p.number), Wire(latest.number)) <==> p.number < latest.number)
      && WordRecordDrop(QueueImage(q), Wire(latest.number)) == QueueImage(RecordDrop(q, latest.number))
      && WordRecordDrop(QueueImage(q), Wire(p.number)) == QueueImage(RecordDrop(q, p.number))
      && PacketImages(q.packets)[l := PacketImage(p)] == PacketImages(q.packets[l := p])
  {
    var l := Latest(q.packets, |q.packets|);
    LatestAgrees(q.packets, base, |q.packets|);
    PacketsNearAt(q.packets, base, l);
    OrderAgrees(p.number, q.packets[l].number, base);
    RecordDropAgrees(q, q.packets[l].number, base);
    RecordDropAgrees(q, p.number, base);
  }

  // -- playing

  lemma {:induction false} SkipAgrees(drops: seq<S.Range>, next: nat, n: nat, base: nat)
    requires SlotsNear(drops, base) && base <= next <= n < base + HALF
    ensures T.Words(T.Images(drops))
    ensures
      var s := SkipDrops(drops, next, n);
      && WordSkip(T.Images(drops), Wire(next), Wire(n)) == Skip(T.Images(s.drops), Wire(s.next))
      && SlotsNear(s.drops, base)
    decreases n - next
  {
    SlotsAreWords(drops, base);
    OrderAgrees(next, n, base);
    TakenOutAgrees(drops, next, base);
    if next == n || !S.Covers(drops, next) {
    } else {
      T.WireOfWire(next, 1);
      OneStepCloser(Wire(n), Wire(next));
      SkipAgrees(TakenOut(drops, next), next + 1, n, base);
    }
  }

  lemma PlayAtAgrees(q: Queue, i: nat, reset: bool, gap: nat, drop: nat)
    requires i < |q.packets|
    ensures WordPlayAt(QueueImage(q), i, reset, gap, drop) == ResultImage(PlayAt(q, i, reset, gap, drop))
  {
    EraseAgrees(q.packets, 0, i);
    T.WireOfWire(q.packets[i].number, 1);
  }

  lemma AbandonAgrees(q: Queue, i: nat, base: nat)
    requires QueueNear(q, base) && Disjoint(q.drops) && q.started
    requires i < |q.packets| && q.next <= q.packets[i].number
    ensures OnWords(QueueImage(q))
    ensures
      var w, abandoned := QueueImage(q), q.packets[i].number - q.next;
      && Offset(w.packets[i].number, w.next) == abandoned
      && WordConsumed(w.drops, w.next, abandoned, |w.drops|) == Consumed(q.drops, q.next, abandoned, |q.drops|)
      && WordCutAll(w.drops, w.next, abandoned) == T.Images(CutAll(q.drops, q.next, abandoned))
  {
    ImageOnWords(q, base);
    PacketsNearAt(q.packets, base, i);
    var abandoned := q.packets[i].number - q.next;
    T.SmallOffset(q.packets[i].number, q.next);
    ConsumedAgrees(q.drops, q.next, abandoned, base, |q.drops|);
    CutAllAgrees(q.drops, q.next, abandoned, base);
  }

  lemma WaitAgrees(q: Queue)
    requires WaitsForNext(q)
    ensures
      var wait := WaitNow(q);
      WaitNow(QueueImage(q)) == wait.(number := Wire(wait.number)) && wait.number == q.next
  {
  }

  lemma GiveUpImage(q: Queue, i: nat, abandoned: Word, drops: Word, cut: seq<S.Range>)
    requires OnWords(QueueImage(q)) && |q.drops| == SLOTS && i < |q.packets|
    requires q.packets[i].number == q.next + abandoned
    requires Consumed(q.drops, q.next, abandoned, |q.drops|) == drops && CutAll(q.drops, q.next, abandoned) == cut
    requires
      var w := QueueImage(q);
      && Offset(w.packets[i].number, w.next) == abandoned
      && WordConsumed(w.drops, w.next, abandoned, |w.drops|) == drops
      && WordCutAll(w.drops, w.next, abandoned) == T.Images(cut)
    ensures WordGiveUp(QueueImage(q), i) == ResultImage(GiveUp(q, i))
  {
    PlayAtAgrees(q.(drops := cut), i, true, Wire(abandoned - drops), drops);
  }

  lemma GiveUpAgrees(q: Queue, i: nat, base: nat)
    requires QueueNear(q, base) && Disjoint(q.drops) && q.started
    requires i < |q.packets| && q.next <= q.packets[i].number
    ensures OnWords(QueueImage(q)) && WordGiveUp(QueueImage(q), i) == ResultImage(GiveUp(q, i))
  {
    AbandonAgrees(q, i, base);
    var abandoned := q.packets[i].number - q.next;
    var drops := Consumed(q.drops, q.next, abandoned, |q.drops|);
    GiveUpImage(q, i, abandoned, drops, CutAll(q.drops, q.next, abandoned));
  }

  lemma ConcealAgrees(q: Queue, base: nat)
    requires QueueNear(q, base) && q.started && |q.drops| == SLOTS
    ensures OnWords(QueueImage(q)) && WordConcealNext(QueueImage(q)) == ResultImage(ConcealNext(q))
  {
    ImageOnWords(q, base);
    TakenOutAgrees(q.drops, q.next, base);
    T.WireOfWire(q.next, 1);
  }

  lemma AtGapAgrees(q: Queue, i: nat, gapWait: nat, base: nat)
    requires QueueNear(q, base) && Disjoint(q.drops) && q.started && WaitsForNext(q)
    requires i < |q.packets| && q.next <= q.packets[i].number
    ensures OnWords(QueueImage(q)) && WordAtGap(QueueImage(q), i, gapWait) == ResultImage(AtGap(q, i, gapWait))
  {
    WaitAgrees(q);
    ConcealAgrees(q, base);
    GiveUpAgrees(q, i, base);
  }

  lemma PassedOverAgrees(q: Queue, s: Skip, n: nat, base: nat)
    requires QueueNear(q, base) && q.started && |q.drops| == |s.drops| == SLOTS
    requires q.next <= s.next <= n < base + HALF && SlotsNear(s.drops, base)
    ensures OnWords(QueueImage(q)) && T.Words(T.Images(s.drops))
    ensures
      var r := PassedOver(q, s);
      WordPassedOver(QueueImage(q), Skip(T.Images(s.drops), Wire(s.next))) ==
      QueueImage(if s.next == q.next then q else r)
  {
    ImageOnWords(q, base);
    SlotsAreWords(s.drops, base);
    OrderAgrees(s.next, q.next, base);
    T.SmallOffset(s.next, q.next);
  }

  lemma MissingAgrees(q: Queue, i: nat, gapWait: nat, s: Skip, base: nat)
    requires QueueNear(q, base) && Disjoint(q.drops) && q.started && WaitsForNext(q)
    requires i < |q.packets| && q.next <= s.next <= q.packets[i].number
    requires Disjoint(s.drops) && SlotsNear(s.drops, base)
    ensures OnWords(QueueImage(q)) && T.Words(T.Images(s.drops))
    ensures WordMissing(QueueImage(q), i, gapWait, Skip(T.Images(s.drops), Wire(s.next))) ==
            ResultImage(Missing(q, i, gapWait, s))
  {
    PacketsNearAt(q.packets, base, i);
    PassedOverAgrees(q, s, q.packets[i].number, base);
    OrderAgrees(s.next, q.next, base);
    OrderAgrees(s.next, q.packets[i].number, base);
    if s.next == q.next {
      AtGapAgrees(q, i, gapWait, base);
    } else {
      AfterSkipAgrees(q, i, gapWait, s, base);
    }
  }

  lemma AfterSkipAgrees(q: Queue, i: nat, gapWait: nat, s: Skip, base: nat)
    requires QueueNear(q, base) && q.started && i < |q.packets| && q.next < s.next <= q.packets[i].number
    requires Disjoint(s.drops) && SlotsNear(s.drops, base)
    ensures
      var r := PassedOver(q, s);
      && OnWords(QueueImage(r)) && WordPlayAt(QueueImage(r), i, true, 0, 0) == ResultImage(PlayAt(r, i, true, 0, 0))
      && WordAtGap(QueueImage(r), i, gapWait) == ResultImage(AtGap(r, i, gapWait))
  {
    var r := PassedOver(q, s);
    PacketsNearAt(q.packets, base, i);
    PlayAtAgrees(r, i, true, 0, 0);
    AtGapAgrees(r, i, gapWait, base);
  }

  lemma {:induction false} SkipDisjoint(drops: seq<S.Range>, next: nat, n: nat)
    requires Disjoint(drops) && next <= n
    ensures Disjoint(SkipDrops(drops, next, n).drops)
    decreases n - next
  {
    if next == n || !S.Covers(drops, next) {
    } else {
      TakenOutIs(drops, next, next);
      SkipDisjoint(TakenOut(drops, next), next + 1, n);
    }
  }

  lemma DequeueFreshAgrees(q: Queue, gapWait: nat, base: nat)
    requires QueueNear(q, base) && Disjoint(q.drops) && q.started && WaitsForNext(q)
    requires q.packets != [] && forall j :: 0 <= j < |q.packets| ==> q.packets[j].number >= q.next
    ensures OnWords(QueueImage(q)) && WordDequeueFresh(QueueImage(q), gapWait) == ResultImage(DequeueFresh(q, gapWait))
  {
    ImageOnWords(q, base);
    EarliestAgrees(q.packets, base, |q.packets|);
    var i := Earliest(q.packets, |q.packets|);
    var n := q.packets[i].number;
    PacketsNearAt(q.packets, base, i);
    OrderAgrees(n, q.next, base);
    if n == q.next {
      PlayAtAgrees(q, i, false, 0, 0);
    } else {
      SkipAgrees(q.drops, q.next, n, base);
      SkipDisjoint(q.drops, q.next, n);
      MissingAgrees(q, i, gapWait, SkipDrops(q.drops, q.next, n), base);
    }
  }

  lemma StartedAgrees(q: Queue, base: nat)
    requires QueueNear(q, base) && q.packets != [] && |q.drops| == SLOTS
    ensures WordStarted(QueueImage(q)) == QueueImage(Started(q)) && QueueNear(Started(q), base)
  {
    EarliestAgrees(q.packets, base, |q.packets|);
    PacketsNearAt(q.packets, base, Earliest(q.packets, |q.packets|));
  }

  /** What playout gets, and the queue it leaves. */
  lemma DequeueAgrees(q: Queue, gapWait: nat, blocked: bool, base: nat)
    requires QueueNear(q, base) && Disjoint(q.drops) && WaitsForNext(q)
    ensures OnWords(QueueImage(q))
    ensures WordDequeue(QueueImage(q), gapWait, blocked) == ResultImage(Dequeue(q, gapWait, blocked))
  {
    ImageOnWords(q, base);
    if q.packets != [] && !blocked {
      var s := Started(q);
      StartedAgrees(q, base);
      FreshAgrees(s.packets, s.next, base, 0);
      var r := s.(packets := FreshOnly(s.packets, s.next, 0));
      assert QueueImage(r) == QueueImage(s).(packets := WordFreshOnly(PacketImages(s.packets), Wire(s.next), 0));
      if r.packets != [] {
        DequeueFreshAgrees(r, gapWait, base);
      }
    }
  }

  lemma TrimAgrees(q: Queue, blocked: bool, base: nat)
    requires QueueNear(q, base) && |q.drops| == SLOTS
    ensures OnWords(QueueImage(q)) && WordTrim(QueueImage(q), blocked) == QueueImage(Trim(q, blocked))
  {
    ImageOnWords(q, base);
    if q.packets != [] && !blocked {
      var i := Earliest(q.packets, |q.packets|);
      var n := q.packets[i].number;
      EarliestAgrees(q.packets, base, |q.packets|);
      EraseAgrees(q.packets, base, i);
      PacketsNearAt(q.packets, base, i);
      WithDropAgrees(q.drops, n, base);
      T.WireOfWire(n, 1);
      if q.started {
        OrderAgrees(n, q.next, base);
      }
    }
  }

  // -- the history

  lemma NumbersAgree(first: nat, count: nat, fate: Fate)
    ensures WordNumbers(Wire(first), count, fate) == LogImage(Numbers(first, count, fate))
  {
    var image := LogImage(Numbers(first, count, fate));
    forall i | 0 <= i < count ensures WordNumbers(Wire(first), count, fate)[i] == image[i] {
      T.WireOfWire(first, i);
    }
  }

  lemma LogConcat(a: seq<Passed>, b: seq<Passed>)
    ensures LogImage(a) + LogImage(b) == LogImage(a + b)
  {
  }

  lemma PassedAtAgrees(at: nat, o: Output, base: nat)
    requires Inside(at, base) && (o.Play? ==> at <= o.packet.number && Inside(o.packet.number, base))
    ensures WordPassedAt(Wire(at), OutputImage(o)) == LogImage(PassedAt(at, o))
  {
    if o.Play? {
      var n := o.packet.number;
      T.SmallOffset(n, at);
      NumbersAgree(at, n - at, Abandoned);
      LogConcat(Numbers(at, n - at, Abandoned), [Passed(n, Played)]);
    }
  }

  lemma PassedByAgrees(from: nat, r: Result, base: nat)
    requires Inside(from, base) && Inside(r.at, base) && from <= r.at
    requires r.output.Play? ==> r.at <= r.output.packet.number && Inside(r.output.packet.number, base)
    ensures WordPassedBy(Wire(from), ResultImage(r)) == LogImage(PassedBy(from, r))
  {
    T.SmallOffset(r.at, from);
    NumbersAgree(from, r.at - from, SkippedDrop);
    PassedAtAgrees(r.at, r.output, base);
    LogConcat(Numbers(from, r.at - from, SkippedDrop), PassedAt(r.at, r.output));
  }

  /** Playout never stands past the packet it looks at. */
  lemma AtInside(q: Queue, gapWait: nat, base: nat)
    requires QueueNear(q, base) && q.started && |q.drops| == SLOTS && q.packets != []
    ensures Inside(Dequeue(q, gapWait, false).at, base)
  {
    FreshAgrees(q.packets, q.next, base, 0);
    var r := q.(packets := FreshOnly(q.packets, q.next, 0));
    if r.packets != [] {
      PacketsNearAt(r.packets, base, Earliest(r.packets, |r.packets|));
    }
  }

  /** The loop over drops comes back to where it started only if it did not move. */
  lemma NothingSkipped(drops: seq<S.Range>, next: Word, n: Word)
    requires T.Words(drops)
    ensures WordSkip(drops, next, n).next == next ==> WordSkip(drops, next, n).drops == drops
  {
    SkipGoesAhead(drops, next, n);
    if next != n && T.WordHolding(drops, next, 0).Some? {
      TakenOutWords(drops, next);
      OneStepCloser(n, next);
      SkipGoesAhead(WordTakenOut(drops, next), Wire(next + 1), n);
    }
  }

  lemma {:induction false} SkipGoesAhead(drops: seq<S.Range>, next: Word, n: Word)
    requires T.Words(drops)
    ensures Offset(n, WordSkip(drops, next, n).next) <= Offset(n, next)
    decreases Offset(n, next)
  {
    if next == n || T.WordHolding(drops, next, 0).None? {
    } else {
      TakenOutWords(drops, next);
      OneStepCloser(n, next);
      SkipGoesAhead(WordTakenOut(drops, next), Wire(next + 1), n);
    }
  }

  // ----- the queue's own fields --------------------------------------------------------------------------

  class OpusPacketQueue {
    var packets: seq<Packet>
    var started: bool
    var next: Word
    var wait: GapWait
    var lossRun: Option<nat>
    const drops: ReceiverDroppedRanges
    var internalDrops: nat

    ghost predicate Valid()
      reads this`packets, drops.slots
    {
      drops.Valid() && WordPackets(packets)
    }

    ghost function Value(): Queue
      requires Valid()
      reads this, drops.slots
    {
      Queue(packets, started, next, wait, lossRun, drops.slots[..], internalDrops)
    }

    constructor ()
      ensures Valid() && Value() == NEW_QUEUE && fresh(drops) && fresh(drops.slots)
    {
      packets, started, next, wait, lossRun, internalDrops := [], false, 0, NotWaiting, None, 0;
      drops := new ReceiverDroppedRanges();
    }

    method EarliestIndex() returns (earliest: nat)
      requires packets != []
      ensures earliest == WordEarliest(packets, |packets|)
    {
      earliest := 0;
      for i := 1 to |packets|
        invariant earliest == WordEarliest(packets, i)
      {
        if SequenceBefore(packets[i].number, packets[earliest].number) {
          earliest := i;
        }
      }
    }

    method LatestIndex() returns (latest: nat)
      requires packets != []
      ensures latest == WordLatest(packets, |packets|)
    {
      latest := 0;
      for i := 1 to |packets|
        invariant latest == WordLatest(packets, i)
      {
        if SequenceBefore(packets[latest].number, packets[i].number) {
          latest := i;
        }
      }
    }

    method HasSequence(n: nat) returns (found: bool)
      ensures found == Has(packets, n)
    {
      for i := 0 to |packets|
        invariant forall j :: 0 <= j < i ==> packets[j].number != n
      {
        if packets[i].number == n {
          return true;
        }
      }
      return false;
    }

    method EraseAt(i: nat)
      requires i < |packets|
      modifies this`packets
      ensures packets == ErasePacket(old(packets), i)
    {
      if i + 1 < |packets| {
        packets := packets[i := packets[|packets| - 1]];
      }
      packets := packets[..|packets| - 1];
    }

    method DiscardStale()
      modifies this`packets
      ensures packets == WordFreshOnly(old(packets), next, 0)
    {
      var i := 0;
      while i < |packets|
        invariant i <= |packets| && (forall j :: 0 <= j < i ==> !SequenceBefore(packets[j].number, next))
        invariant WordFreshOnly(packets, next, i) == WordFreshOnly(old(packets), next, 0)
        decreases |packets| - i
      {
        if SequenceBefore(packets[i].number, next) {
          EraseAt(i);
        } else {
          i := i + 1;
        }
      }
    }

    method RecordReceiverDrop(n: Word)
      requires Valid()
      modifies drops.slots
      ensures Valid() && Value() == WordRecordDrop(old(Value()), n)
    {
      if started && SequenceBefore(n, next) {
        return;
      }
      drops.Record(n);
    }

    /** One admitted packet is moved to the list. */
    method AdmitPacket(p: Packet)
      requires Valid() && p.number < UINT32
      modifies this`packets, drops.slots
      ensures Valid() && Value() == WordAdmit(old(Value()), p)
    {
      if started && SequenceBefore(p.number, next) {
        return;
      }
      var known := HasSequence(p.number);
      if known {
        return;
      }
      if |packets| >= MAX_QUEUE {
        var latest := LatestIndex();
        if SequenceBefore(p.number, packets[latest].number) {
          RecordReceiverDrop(packets[latest].number);
          packets := packets[latest := p];
        } else {
          RecordReceiverDrop(p.number);
        }
        return;
      }
      packets := packets + [p];
    }

    method SkipDropped(n: Word)
      requires Valid()
      modifies this`next, drops.slots
      ensures Valid()
      ensures var s := WordSkip(old(drops.slots[..]), old(next), n); next == s.next && drops.slots[..] == s.drops
    {
      while next != n
        invariant Valid() && WordSkip(drops.slots[..], next, n) == WordSkip(old(drops.slots[..]), old(next), n)
        decreases Offset(n, next)
      {
        var dropped := drops.Consume(next);
        if !dropped {
          break;
        }
        OneStepCloser(n, next);
        next := Wire(next + 1);
      }
    }

    method PlayPacket(i: nat, reset: bool, abandonedGap: nat, abandonedDrop: nat) returns (output: Output)
      requires Valid() && i < |packets|
      modifies this
      ensures Valid() && Value() == WordPlayAt(old(Value()), i, reset, abandonedGap, abandonedDrop).queue
      ensures output == WordPlayAt(old(Value()), i, reset, abandonedGap, abandonedDrop).output
    {
      output := Play(packets[i], reset, abandonedGap, abandonedDrop);
      next := Wire(packets[i].number + 1);
      wait, lossRun := NotWaiting, None;
      EraseAt(i);
    }

    method ShouldWait(gapWait: nat) returns (waits: bool)
      requires Valid()
      modifies this`wait
      ensures waits == (gapWait > 0 && lossRun.None? && WaitNow(old(Value())).callbacks < gapWait)
      ensures waits ==> wait == GapWait(next, WaitNow(old(Value())).callbacks + 1)
    {
      if gapWait == 0 || lossRun.Some? {
        return false;
      }
      if !(wait.GapWait? && wait.number == next) {
        wait := GapWait(next, 0);
      }
      if wait.callbacks >= gapWait {
        return false;
      }
      wait := wait.(callbacks := wait.callbacks + 1);
      return true;
    }

    method TakeAtGap(i: nat, gapWait: nat) returns (output: Output)
      requires Valid() && i < |packets|
      modifies this, drops.slots
      ensures Valid() && Value() == WordAtGap(old(Value()), i, gapWait).queue
      ensures output == WordAtGap(old(Value()), i, gapWait).output
    {
      var waits := ShouldWait(gapWait);
      if waits {
        return WaitingForGap;
      }
      if lossRun.Some? && lossRun.value >= MAX_CONCEALED_RUN {
        var abandoned: int := Offset(packets[i].number, next);
        var given := drops.ConsumeRange(next, abandoned);
        output := PlayPacket(i, true, Wire(abandoned - given), given);
        return;
      }
      var dropped := drops.Consume(next);
      output := Conceal(next, dropped);
      next := Wire(next + 1);
      lossRun := Some(if lossRun.Some? then lossRun.value + 1 else 1);
      wait := NotWaiting;
    }

    method TakeFresh(gapWait: nat) returns (output: Output)
      requires Valid() && packets != []
      modifies this, drops.slots
      ensures Valid() && Value() == WordDequeueFresh(old(Value()), gapWait).queue
      ensures output == WordDequeueFresh(old(Value()), gapWait).output
    {
      var i := EarliestIndex();
      var n := packets[i].number;
      if n == next {
        output := PlayPacket(i, false, 0, 0);
        return;
      }
      output := TakeMissing(i, gapWait);
    }

    method TakeMissing(i: nat, gapWait: nat) returns (output: Output)
      requires Valid() && i < |packets| && next != packets[i].number
      modifies this, drops.slots
      ensures
        var q := old(Value());
        var r := WordMissing(q, i, gapWait, WordSkip(q.drops, q.next, q.packets[i].number));
        Valid() && Value() == r.queue && output == r.output
    {
      var before := next;
      PassOverDrops(packets[i].number);
      if next != before && next == packets[i].number {
        output := PlayPacket(i, true, 0, 0);
        return;
      }
      output := TakeAtGap(i, gapWait);
    }

    /** The loop counts what it skips; fewer than 2^32 numbers lie ahead, so none were skipped exactly if
        playout has not moved. */
    method PassOverDrops(n: Word)
      requires Valid()
      modifies this, drops.slots
      ensures Valid() && Value() == WordPassedOver(old(Value()), WordSkip(old(drops.slots[..]), old(next), n))
    {
      var before := next;
      NothingSkipped(drops.slots[..], next, n);
      SkipDropped(n);
      if next != before {
        internalDrops := internalDrops + Offset(next, before);
        wait := NotWaiting;
      }
    }

    method DequeueForPlayout(gapWait: nat, blocked: bool) returns (output: Output)
      requires Valid()
      modifies this, drops.slots
      ensures Valid() && Value() == WordDequeue(old(Value()), gapWait, blocked).queue
      ensures output == WordDequeue(old(Value()), gapWait, blocked).output
    {
      if packets == [] {
        wait := NotWaiting;
        return Empty;
      }
      if blocked {
        return WaitingForGap;
      }
      if !started {
        var earliest := EarliestIndex();
        next := packets[earliest].number;
        started := true;
      }
      DiscardStale();
      if packets == [] {
        wait := NotWaiting;
        return Empty;
      }
      output := TakeFresh(gapWait);
    }

    method DiscardOldest(blocked: bool)
      requires Valid()
      modifies this, drops.slots
      ensures Valid() && Value() == WordTrim(old(Value()), blocked)
    {
      if packets == [] || blocked {
        return;
      }
      var i := EarliestIndex();
      var n := packets[i].number;
      if started && n != next {
        drops.Record(n);
      }
      EraseAt(i);
      if started && n == next {
        next := Wire(n + 1);
        wait := NotWaiting;
      }
    }
  }
}

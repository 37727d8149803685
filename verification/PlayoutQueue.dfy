/** The order in which one sender's packets are played: arrivals in any order go in, and every sequence
    number from the first played on comes out exactly once, as a packet, a concealment, or a number
    given up. Numbers are counters here; `WordQueue` has the queue as it is kept. */
module PlayoutQueue {

  import SerialNumbers
  import opened Common
  import opened DropRanges
  import opened SequenceTracker

  const MAX_QUEUE := 128
  const MAX_CONCEALED_RUN := 2

  datatype Packet = Packet(number: nat, payload: int)

  /** Waiting for number `number`, for so many callbacks. */
  datatype GapWait = NotWaiting | GapWait(number: nat, callbacks: nat)

  datatype Queue = Queue(
    packets: seq<Packet>, started: bool, next: nat, wait: GapWait, lossRun: Option<nat>,
    drops: seq<Range>, internalDrops: nat)

  /** What playout is handed. */
  datatype Output =
    | Empty
    | WaitingForGap
    | Play(packet: Packet, resetDecoder: bool, abandonedGap: nat, abandonedDrop: nat)
    | Conceal(number: nat, dropPending: bool)

  // ----- the unordered list --------------------------------------------------------------------------

  function ErasePacket(ps: seq<Packet>, i: nat): seq<Packet>
    requires i < |ps|
  {
    ps[i := ps[|ps| - 1]][..|ps| - 1]
  }

  /** The lowest, and the highest, of the first k numbers; the earlier in the list of equals. */
  function Earliest(ps: seq<Packet>, k: nat): (e: nat)
    requires 0 < k <= |ps|
    ensures e < k
  {
    if k == 1 then 0
    else
      var e := Earliest(ps, k - 1);
      if ps[k - 1].number < ps[e].number then k - 1 else e
  }

  function Latest(ps: seq<Packet>, k: nat): (l: nat)
    requires 0 < k <= |ps|
    ensures l < k
  {
    if k == 1 then 0
    else
      var l := Latest(ps, k - 1);
      if ps[l].number < ps[k - 1].number then k - 1 else l
  }

  lemma {:induction false} EarliestIs(ps: seq<Packet>, k: nat)
    requires 0 < k <= |ps|
    ensures forall i :: 0 <= i < k ==> ps[Earliest(ps, k)].number <= ps[i].number
  {
    if k == 1 {
    } else {
      EarliestIs(ps, k - 1);
    }
  }

  lemma {:induction false} LatestIs(ps: seq<Packet>, k: nat)
    requires 0 < k <= |ps|
    ensures forall i :: 0 <= i < k ==> ps[Latest(ps, k)].number >= ps[i].number
  {
    if k == 1 {
    } else {
      LatestIs(ps, k - 1);
    }
  }

  predicate Has(ps: seq<Packet>, n: nat) { exists i :: 0 <= i < |ps| && ps[i].number == n }

  /** Drops the packets from position i on that are already behind playout. */
  function FreshOnly(ps: seq<Packet>, next: nat, i: nat): (out: seq<Packet>)
    requires i <= |ps| && forall j :: 0 <= j < i ==> ps[j].number >= next
    ensures forall j :: 0 <= j < |out| ==> out[j].number >= next
    decreases |ps| - i
  {
    if i == |ps| then ps
    else if ps[i].number < next then FreshOnly(ErasePacket(ps, i), next, i)
    else FreshOnly(ps, next, i + 1)
  }

  // ----- the steps -----------------------------------------------------------------------------------

  function RecordDrop(q: Queue, n: nat): Queue
    requires |q.drops| == SLOTS
  {
    if q.started && n < q.next then q else q.(drops := WithDrop(q.drops, n))
  }

  /** An admitted packet reaches the list. */
  function Admit(q: Queue, p: Packet): Queue
    requires |q.drops| == SLOTS
  {
    if (q.started && p.number < q.next) || Has(q.packets, p.number) then q
    else if |q.packets| < MAX_QUEUE then q.(packets := q.packets + [p])
    else
      var l := Latest(q.packets, |q.packets|);
      if p.number < q.packets[l].number then RecordDrop(q, q.packets[l].number).(packets := q.packets[l := p])
      else RecordDrop(q, p.number)
  }

  datatype Skip = Skip(drops: seq<Range>, next: nat)

  /** Passes over numbers the receiver itself dropped, up to n. */
  function SkipDrops(drops: seq<Range>, next: nat, n: nat): (s: Skip)
    requires next <= n
    ensures |s.drops| == |drops| && next <= s.next <= n
    decreases n - next
  {
    if next == n || !Covers(drops, next) then Skip(drops, next) else SkipDrops(TakenOut(drops, next), next + 1, n)
  }

  /** The queue afterwards, what playout gets, and where it stood once it had passed over drops. */
  datatype Result = Result(queue: Queue, output: Output, at: nat)

  function Started(q: Queue): Queue
    requires q.packets != []
  {
    if q.started then q else q.(started := true, next := q.packets[Earliest(q.packets, |q.packets|)].number)
  }

  function PlayAt(q: Queue, i: nat, reset: bool, abandonedGap: nat, abandonedDrop: nat): Result
    requires i < |q.packets|
  {
    var p := q.packets[i];
    Result(q.(packets := ErasePacket(q.packets, i), next := p.number + 1, wait := NotWaiting, lossRun := None),
           Play(p, reset, abandonedGap, abandonedDrop), q.next)
  }

  function WaitNow(q: Queue): GapWait {
    if q.wait.GapWait? && q.wait.number == q.next then q.wait else GapWait(q.next, 0)
  }

  /** Concealment has gone on long enough: every number before packet i is given up. */
  function GiveUp(q: Queue, i: nat): Result
    requires i < |q.packets| && q.next <= q.packets[i].number && |q.drops| == SLOTS
  {
    var abandoned := q.packets[i].number - q.next;
    var drops := Consumed(q.drops, q.next, abandoned, |q.drops|);
    PlayAt(q.(drops := CutAll(q.drops, q.next, abandoned)), i, true, SerialNumbers.Wire(abandoned - drops), drops)
  }

  function ConcealNext(q: Queue): Result
    requires |q.drops| == SLOTS
  {
    Result(q.(drops := TakenOut(q.drops, q.next), next := q.next + 1, wait := NotWaiting,
              lossRun := Some(if q.lossRun.Some? then q.lossRun.value + 1 else 1)),
           Conceal(q.next, Covers(q.drops, q.next)), q.next)
  }

  /** The next number is missing, and not known to be dropped by the receiver. */
  function AtGap(q: Queue, i: nat, gapWait: nat): Result
    requires i < |q.packets| && q.next <= q.packets[i].number && |q.drops| == SLOTS
  {
    var wait := WaitNow(q);
    if gapWait > 0 && q.lossRun.None? && wait.callbacks < gapWait then
      Result(q.(wait := wait.(callbacks := wait.callbacks + 1)), WaitingForGap, q.next)
    else if q.lossRun.Some? && q.lossRun.value >= MAX_CONCEALED_RUN then GiveUp(q, i)
    else ConcealNext(q)
  }

  /** There is a packet, none of them behind playout. */
  function DequeueFresh(q: Queue, gapWait: nat): Result
    requires q.packets != [] && |q.drops| == SLOTS && forall j :: 0 <= j < |q.packets| ==> q.packets[j].number >= q.next
  {
    var i := Earliest(q.packets, |q.packets|);
    var n := q.packets[i].number;
    if n == q.next then PlayAt(q, i, false, 0, 0) else Missing(q, i, gapWait, SkipDrops(q.drops, q.next, n))
  }

  /** Playout stands past the drops that were skipped. */
  function PassedOver(q: Queue, s: Skip): Queue
    requires q.next <= s.next
  {
    q.(drops := s.drops, next := s.next, wait := NotWaiting,
       internalDrops := q.internalDrops + s.next - q.next)
  }

  /** The next number is missing; skipping the receiver's drops led to s. */
  function Missing(q: Queue, i: nat, gapWait: nat, s: Skip): Result
    requires i < |q.packets| && |q.drops| == |s.drops| == SLOTS && q.next <= s.next <= q.packets[i].number
  {
    var r := PassedOver(q, s);
    if s.next == q.next then AtGap(q, i, gapWait)
    else if s.next == q.packets[i].number then PlayAt(r, i, true, 0, 0)
    else AtGap(r, i, gapWait)
  }

  function Dequeue(q: Queue, gapWait: nat, blocked: bool): Result
    requires |q.drops| == SLOTS
  {
    if q.packets == [] then Result(q.(wait := NotWaiting), Empty, q.next)
    else if blocked then Result(q, WaitingForGap, q.next)
    else
      var s := Started(q);
      var r := s.(packets := FreshOnly(s.packets, s.next, 0));
      if r.packets == [] then Result(r.(wait := NotWaiting), Empty, r.next) else DequeueFresh(r, gapWait)
  }

  /** Gives up the earliest packet to cut latency. */
  function Trim(q: Queue, blocked: bool): Queue
    requires |q.drops| == SLOTS
  {
    if q.packets == [] || blocked then q
    else
      var i := Earliest(q.packets, |q.packets|);
      var n := q.packets[i].number;
      var r := q.(packets := ErasePacket(q.packets, i));
      if !q.started then r
      else if n == q.next then r.(next := n + 1, wait := NotWaiting)
      else r.(drops := WithDrop(q.drops, n))
  }

  // ----- everything that happens to the queue ----------------------------------------------------------

  datatype Action =
    | Arrive(packet: Packet)                     // admitted, and now moved to the list
    | ArriveDropped(number: nat)                 // refused: the receiver's own drop
    | Take(gapWait: nat, blocked: bool)          // playout asks for a packet
    | TrimOldest(blocked: bool)
    | Forget                                     // muted locally, or cleared

  /** What became of a number that playout passed. */
  datatype Fate = Played | ConcealedGap | ConcealedDrop | SkippedDrop | Abandoned | Trimmed

  datatype Passed = Passed(number: nat, fate: Fate)

  /** The queue, every number that ever arrived, those recorded as dropped, and what became of the
      numbers passed since playout started. */
  datatype World = World(queue: Queue, arrived: set<nat>, dropped: set<nat>, log: seq<Passed>)

  const NEW_QUEUE := Queue([], false, 0, NotWaiting, None, NoDrops(), 0)

  function Numbers(first: nat, count: nat, fate: Fate): (s: seq<Passed>)
    ensures |s| == count && forall i :: 0 <= i < count ==> s[i] == Passed(first + i, fate)
  {
    seq(count, i requires 0 <= i < count => Passed(first + i, fate))
  }

  /** The numbers passed by a take that found playout at `from`. */
  function PassedBy(from: nat, r: Result): seq<Passed> {
    if from > r.at then []
    else Numbers(from, r.at - from, SkippedDrop) + PassedAt(r.at, r.output)
  }

  function PassedAt(at: nat, output: Output): seq<Passed> {
    match output
    case Play(p, _, _, _) =>
      if at > p.number then [] else Numbers(at, p.number - at, Abandoned) + [Passed(p.number, Played)]
    case Conceal(n, drop) => [Passed(n, if drop then ConcealedDrop else ConcealedGap)]
    case _ => []
  }

  /** Where playout stands when asked. */
  function Origin(q: Queue, blocked: bool): nat { if q.packets == [] || blocked then q.next else Started(q).next }

  /** The number recorded as dropped when p reaches a full list. */
  function DroppedFor(q: Queue, p: Packet): set<nat> {
    if (q.started && p.number < q.next) || Has(q.packets, p.number) || |q.packets| < MAX_QUEUE then {}
    else DroppedOf(p, q.packets[Latest(q.packets, |q.packets|)])
  }

  function DroppedOf(p: Packet, latest: Packet): set<nat> {
    if p.number < latest.number then {latest.number} else {p.number}
  }

  /** The number recorded as dropped by a trim. */
  function DroppedByTrim(q: Queue, blocked: bool): set<nat> {
    if q.packets == [] || blocked || !q.started then {}
    else {q.packets[Earliest(q.packets, |q.packets|)].number} - {q.next}
  }

  function Arrived(w: World, p: Packet): World
    requires |w.queue.drops| == SLOTS
  {
    World(Admit(w.queue, p), w.arrived + {p.number}, w.dropped + DroppedFor(w.queue, p), w.log)
  }

  function Taken(w: World, gapWait: nat, blocked: bool): World
    requires |w.queue.drops| == SLOTS
  {
    var r := Dequeue(w.queue, gapWait, blocked);
    World(r.queue, w.arrived, w.dropped, w.log + PassedBy(Origin(w.queue, blocked), r))
  }

  function TrimmedOne(w: World, blocked: bool): World
    requires |w.queue.drops| == SLOTS
  {
    var r := Trim(w.queue, blocked);
    World(r, w.arrived, w.dropped + DroppedByTrim(w.queue, blocked),
          w.log + if w.queue.started && r.next != w.queue.next then [Passed(w.queue.next, Trimmed)] else [])
  }

  function Step(w: World, a: Action): (w': World)
    requires |w.queue.drops| == SLOTS
    ensures |w'.queue.drops| == SLOTS
  {
    match a
    case Arrive(p) => Arrived(w, p)
    case ArriveDropped(n) => World(RecordDrop(w.queue, n), w.arrived + {n}, w.dropped + {n}, w.log)
    case Take(g, b) => Taken(w, g, b)
    case TrimOldest(b) => TrimmedOne(w, b)
    case Forget => World(NEW_QUEUE, w.arrived, w.dropped, [])
  }

  // ----- what every step keeps -------------------------------------------------------------------------

  predicate DistinctAt(ps: seq<Packet>, i: int, j: int) { 0 <= i < j < |ps| ==> ps[i].number != ps[j].number }

  predicate QueuedAt(ps: seq<Packet>, i: int, arrived: set<nat>, drops: seq<Range>) {
    0 <= i < |ps| ==> ps[i].number in arrived && !Covers(drops, ps[i].number)
  }

  /** No number is queued twice, and none that is queued counts as dropped. */
  ghost predicate Good(ps: seq<Packet>, arrived: set<nat>, drops: seq<Range>) {
    (forall i, j :: DistinctAt(ps, i, j)) && forall i :: QueuedAt(ps, i, arrived, drops)
  }

  ghost predicate OnlyDropped(drops: seq<Range>, dropped: set<nat>) {
    Disjoint(drops) && forall m: nat :: Covers(drops, m) ==> m in dropped
  }

  predicate NumberAt(log: seq<Passed>, i: int, next: int) { 0 <= i < |log| ==> log[i].number == next - |log| + i }

  /** The log runs through consecutive numbers and ends just before `next`. */
  ghost predicate Consecutive(log: seq<Passed>, next: int) { forall i :: NumberAt(log, i, next) }

  /** A number played had arrived, and one counted as the receiver's drop had been recorded so. */
  predicate TruthAt(log: seq<Passed>, i: int, arrived: set<nat>, dropped: set<nat>) {
    0 <= i < |log| ==>
      && (log[i].fate.Played? || log[i].fate.Trimmed? ==> log[i].number in arrived)
      && (log[i].fate.ConcealedDrop? || log[i].fate.SkippedDrop? ==> log[i].number in dropped)
  }

  ghost predicate Truthful(log: seq<Passed>, arrived: set<nat>, dropped: set<nat>) {
    forall i :: TruthAt(log, i, arrived, dropped)
  }

  ghost predicate Inv(w: World) {
    && Good(w.queue.packets, w.arrived, w.queue.drops) && OnlyDropped(w.queue.drops, w.dropped)
    && w.dropped <= w.arrived && Truthful(w.log, w.arrived, w.dropped)
    && (if w.queue.started then Consecutive(w.log, w.queue.next) else w.log == [])
  }

  /** A sender's number arrives once, and what is queued lies within the number space of playout. */
  predicate Enabled(w: World, a: Action) {
    match a
    case Arrive(p) => p.number !in w.arrived
    case ArriveDropped(n) => n !in w.arrived
    case Take(_, b) =>
      var ps := w.queue.packets;
      b || forall i :: 0 <= i < |ps| ==> ps[i].number < Origin(w.queue, b) + SerialNumbers.UINT32
    case _ => true
  }

  lemma TruthGrows(
      log: seq<Passed>, arrived: set<nat>, dropped: set<nat>, more: seq<Passed>, arrived': set<nat>, dropped': set<nat>)
    requires Truthful(log, arrived, dropped) && Truthful(more, arrived', dropped') && arrived <= arrived'
    requires dropped <= dropped'
    ensures Truthful(log + more, arrived', dropped')
  {
    var all := log + more;
    forall i ensures TruthAt(all, i, arrived', dropped') {
      assert TruthAt(log, i, arrived, dropped) && TruthAt(more, i - |log|, arrived', dropped');
    }
  }

  /** Nothing passed: the log only has to stay true. */
  lemma TruthKept(w: World, w': World)
    requires Truthful(w.log, w.arrived, w.dropped) && w.arrived <= w'.arrived && w.dropped <= w'.dropped
    requires w'.log == w.log
    ensures Truthful(w'.log, w'.arrived, w'.dropped)
  {
    TruthGrows(w.log, w.arrived, w.dropped, [], w'.arrived, w'.dropped);
    assert w.log + [] == w.log;
  }

  // -- the list

  lemma GoodErased(ps: seq<Packet>, i: nat, arrived: set<nat>, drops: seq<Range>)
    requires Good(ps, arrived, drops) && i < |ps|
    ensures Good(ErasePacket(ps, i), arrived, drops)
    ensures forall k :: 0 <= k < |ErasePacket(ps, i)| ==> ErasePacket(ps, i)[k].number != ps[i].number
  {
    var q, last := ErasePacket(ps, i), |ps| - 1;
    forall j, k ensures DistinctAt(q, j, k) {
      assert DistinctAt(ps, j, k) && DistinctAt(ps, j, last) && DistinctAt(ps, k, last);
    }
    forall k ensures QueuedAt(q, k, arrived, drops) {
      assert QueuedAt(ps, k, arrived, drops) && QueuedAt(ps, last, arrived, drops);
    }
    forall k | 0 <= k < |q| ensures q[k].number != ps[i].number {
      assert DistinctAt(ps, k, i) && DistinctAt(ps, i, k) && DistinctAt(ps, i, last);
    }
  }

  lemma {:induction false} GoodFresh(ps: seq<Packet>, next: nat, i: nat, arrived: set<nat>, drops: seq<Range>)
    requires Good(ps, arrived, drops) && i <= |ps| && forall j :: 0 <= j < i ==> ps[j].number >= next
    ensures Good(FreshOnly(ps, next, i), arrived, drops)
    decreases |ps| - i
  {
    if i == |ps| {
    } else {
      if ps[i].number < next {
        GoodErased(ps, i, arrived, drops);
        GoodFresh(ErasePacket(ps, i), next, i, arrived, drops);
      } else {
        GoodFresh(ps, next, i + 1, arrived, drops);
      }
    }
  }

  /** Fewer drops, more arrivals: still good. */
  lemma GoodWeaker(ps: seq<Packet>, arrived: set<nat>, drops: seq<Range>, more: set<nat>, fewer: seq<Range>)
    requires Good(ps, arrived, drops) && arrived <= more && forall m: nat :: Covers(fewer, m) ==> Covers(drops, m)
    ensures Good(ps, more, fewer)
  {
    forall i ensures QueuedAt(ps, i, more, fewer) {
      assert QueuedAt(ps, i, arrived, drops);
    }
  }

  /** One number more is dropped, not among those queued. */
  lemma GoodWithDrop(ps: seq<Packet>, arrived: set<nat>, drops: seq<Range>, n: nat)
    requires Good(ps, arrived, drops) && |drops| == SLOTS && forall i :: 0 <= i < |ps| ==> ps[i].number != n
    ensures Good(ps, arrived, WithDrop(drops, n))
  {
    forall i ensures QueuedAt(ps, i, arrived, WithDrop(drops, n)) {
      assert QueuedAt(ps, i, arrived, drops);
      if 0 <= i < |ps| {
        WithDropCovers(drops, n, ps[i].number);
      }
    }
  }

  lemma DroppedWithDrop(drops: seq<Range>, dropped: set<nat>, n: nat)
    requires OnlyDropped(drops, dropped) && !Covers(drops, n)
    ensures OnlyDropped(WithDrop(drops, n), dropped + {n})
  {
    WithDropDisjoint(drops, n);
    forall m: nat | Covers(WithDrop(drops, n), m) ensures m in dropped + {n} {
      WithDropCovers(drops, n, m);
    }
  }

  // -- arrivals

  lemma RecordKeeps(w: World, n: nat)
    requires Inv(w) && n !in w.arrived
    ensures Inv(Step(w, ArriveDropped(n)))
  {
    var q := w.queue;
    NotCoveredUnlessDropped(w, n);
    forall i | 0 <= i < |q.packets| ensures q.packets[i].number != n {
      assert QueuedAt(q.packets, i, w.arrived, q.drops);
    }
    GoodWithDrop(q.packets, w.arrived, q.drops, n);
    DroppedWithDrop(q.drops, w.dropped, n);
    var r := RecordDrop(q, n);
    GoodWeaker(q.packets, w.arrived, r.drops, w.arrived + {n}, r.drops);
    TruthKept(w, Step(w, ArriveDropped(n)));
  }

  lemma NotCoveredUnlessDropped(w: World, n: nat)
    requires Inv(w) && n !in w.dropped
    ensures !Covers(w.queue.drops, n)
  {
  }

  lemma GoodAdded(ps: seq<Packet>, arrived: set<nat>, drops: seq<Range>, p: Packet)
    requires Good(ps, arrived, drops) && p.number !in arrived && !Covers(drops, p.number)
    ensures Good(ps + [p], arrived + {p.number}, drops)
  {
    var q := ps + [p];
    forall i, j ensures DistinctAt(q, i, j) {
      assert DistinctAt(ps, i, j) && QueuedAt(ps, i, arrived, drops);
    }
    forall i ensures QueuedAt(q, i, arrived + {p.number}, drops) {
      assert QueuedAt(ps, i, arrived, drops);
    }
  }

  lemma GoodReplaced(ps: seq<Packet>, arrived: set<nat>, drops: seq<Range>, l: nat, p: Packet)
    requires Good(ps, arrived, drops) && p.number !in arrived && !Covers(drops, p.number) && l < |ps|
    ensures Good(ps[l := p], arrived + {p.number}, drops)
    ensures var q := ps[l := p]; forall i :: 0 <= i < |q| ==> q[i].number != ps[l].number
  {
    var q := ps[l := p];
    forall i, j ensures DistinctAt(q, i, j) {
      assert DistinctAt(ps, i, j) && QueuedAt(ps, i, arrived, drops) && QueuedAt(ps, j, arrived, drops);
    }
    forall i ensures QueuedAt(q, i, arrived + {p.number}, drops) {
      assert QueuedAt(ps, i, arrived, drops);
    }
    forall i | 0 <= i < |ps| ensures q[i].number != ps[l].number {
      assert DistinctAt(ps, i, l) && DistinctAt(ps, l, i) && QueuedAt(ps, l, arrived, drops);
    }
  }

  lemma ArriveKeeps(w: World, p: Packet)
    requires Inv(w) && p.number !in w.arrived
    ensures Inv(Arrived(w, p))
  {
    var q := w.queue;
    NotCoveredUnlessDropped(w, p.number);
    TruthKept(w, Arrived(w, p));
    GoodWeaker(q.packets, w.arrived, q.drops, w.arrived + {p.number}, q.drops);
    if (q.started && p.number < q.next) || Has(q.packets, p.number) {
    } else if |q.packets| < MAX_QUEUE {
      GoodAdded(q.packets, w.arrived, q.drops, p);
    } else {
      FullKeeps(w, p);
    }
  }

  /** A full list keeps the lower of its latest number and the new one; the other is recorded. */
  lemma FullKeeps(w: World, p: Packet)
    requires Inv(w) && p.number !in w.arrived && |w.queue.packets| >= MAX_QUEUE
    requires !(w.queue.started && p.number < w.queue.next) && !Has(w.queue.packets, p.number)
    ensures Inv(Arrived(w, p))
  {
    var q := w.queue;
    var l := Latest(q.packets, |q.packets|);
    NotCoveredUnlessDropped(w, p.number);
    TruthKept(w, Arrived(w, p));
    if p.number < q.packets[l].number {
      GoodReplaced(q.packets, w.arrived, q.drops, l, p);
      assert QueuedAt(q.packets, l, w.arrived, q.drops);
      GoodWithDrop(q.packets[l := p], w.arrived + {p.number}, q.drops, q.packets[l].number);
      DroppedWithDrop(q.drops, w.dropped, q.packets[l].number);
    } else {
      forall i | 0 <= i < |q.packets| ensures q.packets[i].number != p.number {
        assert QueuedAt(q.packets, i, w.arrived, q.drops);
      }
      GoodWeaker(q.packets, w.arrived, q.drops, w.arrived + {p.number}, q.drops);
      GoodWithDrop(q.packets, w.arrived + {p.number}, q.drops, p.number);
      DroppedWithDrop(q.drops, w.dropped, p.number);
    }
  }

  // -- trimming

  lemma OneMorePassed(log: seq<Passed>, next: nat, x: Passed)
    requires Consecutive(log, next) && x.number == next
    ensures Consecutive(log + [x], next + 1)
  {
    var all, end := log + [x], next + 1;
    forall i ensures NumberAt(all, i, end) {
      assert NumberAt(log, i, next);
    }
  }

  lemma TrimKeeps(w: World, blocked: bool)
    requires Inv(w)
    ensures Inv(TrimmedOne(w, blocked))
  {
    var q := w.queue;
    assert w.log + [] == w.log;
    if TrimmedOne(w, blocked).log == w.log {
      TruthKept(w, TrimmedOne(w, blocked));
    }
    if q.packets != [] && !blocked {
      var i := Earliest(q.packets, |q.packets|);
      var n := q.packets[i].number;
      GoodErased(q.packets, i, w.arrived, q.drops);
      assert QueuedAt(q.packets, i, w.arrived, q.drops);
      if q.started && n == q.next {
        OneMorePassed(w.log, q.next, Passed(n, Trimmed));
        var d := TrimmedOne(w, blocked).dropped;
        assert Truthful([Passed(n, Trimmed)], w.arrived, d);
        TruthGrows(w.log, w.arrived, w.dropped, [Passed(n, Trimmed)], w.arrived, d);
      } else if q.started {
        GoodWithDrop(ErasePacket(q.packets, i), w.arrived, q.drops, n);
        DroppedWithDrop(q.drops, w.dropped, n);
      }
    }
  }

  // -- playing

  lemma {:induction false} SkipShrinks(drops: seq<Range>, next: nat, n: nat, dropped: set<nat>)
    requires OnlyDropped(drops, dropped) && next <= n
    ensures
      var s := SkipDrops(drops, next, n);
      && OnlyDropped(s.drops, dropped)
      && (forall m: nat :: Covers(s.drops, m) ==> Covers(drops, m))
      && (forall m: nat :: next <= m < s.next ==> m in dropped)
    decreases n - next
  {
    if next == n || !Covers(drops, next) {
    } else {
      var t := TakenOut(drops, next);
      TakenOutIs(drops, next, next);
      forall m: nat | Covers(t, m) ensures Covers(drops, m) {
        TakenOutIs(drops, next, m);
      }
      SkipShrinks(t, next + 1, n, dropped);
    }
  }

  lemma Concatenated(log: seq<Passed>, next: nat, more: seq<Passed>)
    requires Consecutive(log, next) && forall i :: 0 <= i < |more| ==> more[i].number == next + i
    ensures Consecutive(log + more, next + |more|)
  {
    var all, end := log + more, next + |more|;
    forall i ensures NumberAt(all, i, end) {
      assert NumberAt(log, i, next);
    }
  }

  /** The queue part of the invariant. */
  ghost predicate QueueInv(q: Queue, arrived: set<nat>, dropped: set<nat>) {
    Good(q.packets, arrived, q.drops) && OnlyDropped(q.drops, dropped)
  }

  /** What a take returns, seen from where playout stood: it advances past exactly the numbers it
      reports, its counts of given-up numbers add up, and the queue stays good. */
  ghost predicate TakeOk(q: Queue, r: Result, arrived: set<nat>, dropped: set<nat>) {
    && QueueInv(r.queue, arrived, dropped) && q.next <= r.at
    && (match r.output
        case Play(p, _, gap, drop) =>
          r.at <= p.number && r.queue.next == p.number + 1 && gap + drop == p.number - r.at && p in q.packets
        case Conceal(n, d) => n == r.at && r.queue.next == n + 1 && (d ==> n in dropped)
        case _ => r.queue.next == r.at)
    && (forall m: nat :: q.next <= m < r.at ==> m in dropped)
  }

  lemma PlayOk(q: Queue, i: nat, reset: bool, gap: nat, drop: nat, arrived: set<nat>, dropped: set<nat>)
    requires QueueInv(q, arrived, dropped) && i < |q.packets| && q.next + gap + drop == q.packets[i].number
    ensures TakeOk(q, PlayAt(q, i, reset, gap, drop), arrived, dropped)
  {
    GoodErased(q.packets, i, arrived, q.drops);
  }

  lemma GapOk(q: Queue, i: nat, gapWait: nat, arrived: set<nat>, dropped: set<nat>)
    requires QueueInv(q, arrived, dropped) && i < |q.packets|
    requires q.next <= q.packets[i].number < q.next + SerialNumbers.UINT32
    ensures TakeOk(q, AtGap(q, i, gapWait), arrived, dropped)
  {
    var wait := WaitNow(q);
    if gapWait > 0 && q.lossRun.None? && wait.callbacks < gapWait {
    } else if q.lossRun.Some? && q.lossRun.value >= MAX_CONCEALED_RUN {
      AbandonOk(q, i, arrived, dropped);
    } else {
      TakenOutIs(q.drops, q.next, q.next);
      forall m: nat | Covers(TakenOut(q.drops, q.next), m) ensures Covers(q.drops, m) {
        TakenOutIs(q.drops, q.next, m);
      }
      GoodWeaker(q.packets, arrived, q.drops, arrived, TakenOut(q.drops, q.next));
    }
  }

  /** The subtraction that splits the abandoned numbers does not wrap. */
  lemma AbandonOk(q: Queue, i: nat, arrived: set<nat>, dropped: set<nat>)
    requires QueueInv(q, arrived, dropped)
    requires i < |q.packets| && q.next <= q.packets[i].number < q.next + SerialNumbers.UINT32
    ensures TakeOk(q, GiveUp(q, i), arrived, dropped)
  {
    var abandoned := q.packets[i].number - q.next;
    var cut := CutAll(q.drops, q.next, abandoned);
    ConsumedWithin(q.drops, q.next, abandoned);
    CutAllDisjoint(q.drops, q.next, abandoned);
    forall m: nat | Covers(cut, m) ensures Covers(q.drops, m) {
      CutAllCovers(q.drops, q.next, abandoned, m);
    }
    GoodWeaker(q.packets, arrived, q.drops, arrived, cut);
    var drops := Consumed(q.drops, q.next, abandoned, |q.drops|);
    PlayOk(q.(drops := cut), i, true, abandoned - drops, drops, arrived, dropped);
  }

  lemma FreshOk(q: Queue, gapWait: nat, arrived: set<nat>, dropped: set<nat>)
    requires QueueInv(q, arrived, dropped) && q.packets != []
    requires forall i :: 0 <= i < |q.packets| ==> q.next <= q.packets[i].number < q.next + SerialNumbers.UINT32
    ensures TakeOk(q, DequeueFresh(q, gapWait), arrived, dropped)
  {
    var i := Earliest(q.packets, |q.packets|);
    if q.packets[i].number == q.next {
      PlayOk(q, i, false, 0, 0, arrived, dropped);
    } else {
      SkipShrinks(q.drops, q.next, q.packets[i].number, dropped);
      MissingOk(q, i, gapWait, arrived, dropped, SkipDrops(q.drops, q.next, q.packets[i].number));
    }
  }

  lemma MissingOk(q: Queue, i: nat, gapWait: nat, arrived: set<nat>, dropped: set<nat>, s: Skip)
    requires QueueInv(q, arrived, dropped) && i < |q.packets|
    requires q.next <= s.next <= q.packets[i].number < q.next + SerialNumbers.UINT32
    requires OnlyDropped(s.drops, dropped) && (forall m: nat :: Covers(s.drops, m) ==> Covers(q.drops, m))
    requires forall m: nat :: q.next <= m < s.next ==> m in dropped
    ensures TakeOk(q, Missing(q, i, gapWait, s), arrived, dropped)
  {
    if s.next == q.next {
      GapOk(q, i, gapWait, arrived, dropped);
    } else {
      AfterSkipOk(q, i, gapWait, arrived, dropped, s);
    }
  }

  lemma AfterSkipOk(q: Queue, i: nat, gapWait: nat, arrived: set<nat>, dropped: set<nat>, s: Skip)
    requires QueueInv(q, arrived, dropped) && i < |q.packets|
    requires q.next < s.next <= q.packets[i].number < q.next + SerialNumbers.UINT32
    requires OnlyDropped(s.drops, dropped) && (forall m: nat :: Covers(s.drops, m) ==> Covers(q.drops, m))
    requires forall m: nat :: q.next <= m < s.next ==> m in dropped
    ensures
      var r := PassedOver(q, s);
      var t := if s.next == q.packets[i].number then PlayAt(r, i, true, 0, 0) else AtGap(r, i, gapWait);
      TakeOk(q, t, arrived, dropped)
  {
    var r := PassedOver(q, s);
    GoodWeaker(q.packets, arrived, q.drops, arrived, s.drops);
    if s.next == q.packets[i].number {
      PlayOk(r, i, true, 0, 0, arrived, dropped);
    } else {
      GapOk(r, i, gapWait, arrived, dropped);
    }
  }

  lemma {:induction false} FreshFrom(ps: seq<Packet>, next: nat, i: nat, p: Packet)
    requires i <= |ps| && (forall j :: 0 <= j < i ==> ps[j].number >= next) && p in FreshOnly(ps, next, i)
    ensures p in ps
    decreases |ps| - i
  {
    if i == |ps| {
    } else {
      if ps[i].number < next {
        FreshFrom(ErasePacket(ps, i), next, i, p);
        var e := ErasePacket(ps, i);
        var k :| 0 <= k < |e| && e[k] == p;
        assert ps[if k == i then |ps| - 1 else k] == p;
      } else {
        FreshFrom(ps, next, i + 1, p);
      }
    }
  }

  /** A take from a started queue. */
  lemma DequeueOk(q: Queue, gapWait: nat, blocked: bool, arrived: set<nat>, dropped: set<nat>)
    requires QueueInv(q, arrived, dropped) && (q.packets == [] || q.started)
    requires forall i :: 0 <= i < |q.packets| ==> q.packets[i].number < q.next + SerialNumbers.UINT32
    ensures TakeOk(q, Dequeue(q, gapWait, blocked), arrived, dropped)
    ensures Dequeue(q, gapWait, blocked).queue.started == q.started
  {
    if q.packets != [] && !blocked {
      var r := q.(packets := FreshOnly(q.packets, q.next, 0));
      GoodFresh(q.packets, q.next, 0, arrived, q.drops);
      if r.packets != [] {
        forall i | 0 <= i < |r.packets|
          ensures r.packets[i].number < q.next + SerialNumbers.UINT32 && r.packets[i] in q.packets
        {
          FreshFrom(q.packets, q.next, 0, r.packets[i]);
        }
        FreshOk(r, gapWait, arrived, dropped);
      }
    }
  }

  lemma TakeKeeps(w: World, gapWait: nat, blocked: bool)
    requires Inv(w) && Enabled(w, Take(gapWait, blocked))
    ensures Inv(Taken(w, gapWait, blocked))
  {
    var q := w.queue;
    var s := if q.packets == [] || blocked then q else Started(q);
    assert Dequeue(s, gapWait, blocked) == Dequeue(q, gapWait, blocked);
    if q.packets == [] || blocked {
      assert w.log + [] == w.log;
    } else {
      assert Consecutive(w.log, s.next);
      DequeueOk(s, gapWait, blocked, w.arrived, w.dropped);
      LogOk(w.log, s, Dequeue(s, gapWait, blocked), w.arrived, w.dropped);
      TakeTruthful(s, Dequeue(s, gapWait, blocked), w.arrived, w.dropped);
      TruthGrows(w.log, w.arrived, w.dropped, PassedBy(s.next, Dequeue(s, gapWait, blocked)), w.arrived, w.dropped);
    }
  }

  lemma LogOk(log: seq<Passed>, q: Queue, r: Result, arrived: set<nat>, dropped: set<nat>)
    requires Consecutive(log, q.next) && TakeOk(q, r, arrived, dropped)
    ensures Consecutive(log + PassedBy(q.next, r), r.queue.next)
  {
    Concatenated(log, q.next, PassedBy(q.next, r));
  }

  lemma TakeTruthful(q: Queue, r: Result, arrived: set<nat>, dropped: set<nat>)
    requires TakeOk(q, r, arrived, dropped) && Good(q.packets, arrived, q.drops)
    ensures Truthful(PassedBy(q.next, r), arrived, dropped)
  {
    var more := PassedBy(q.next, r);
    if r.output.Play? {
      var k :| 0 <= k < |q.packets| && q.packets[k] == r.output.packet;
      assert QueuedAt(q.packets, k, arrived, q.drops);
    }
    forall i ensures TruthAt(more, i, arrived, dropped) {
    }
  }

  // ----- the result ------------------------------------------------------------------------------------

  function After(acts: seq<Action>): (w: World)
    ensures |w.queue.drops| == SLOTS
  {
    if acts == [] then World(NEW_QUEUE, {}, {}, []) else Step(After(acts[..|acts| - 1]), acts[|acts| - 1])
  }

  predicate EnabledAt(acts: seq<Action>, i: int) { 0 <= i < |acts| ==> Enabled(After(acts[..i]), acts[i]) }

  /** Numbers arrive once; everything else may happen at any time. */
  ghost predicate ValidRun(acts: seq<Action>) { forall i :: EnabledAt(acts, i) }

  lemma PrefixValid(acts: seq<Action>, k: nat)
    requires ValidRun(acts) && k <= |acts|
    ensures ValidRun(acts[..k])
  {
    var prefix := acts[..k];
    forall i ensures EnabledAt(prefix, i) {
      assert EnabledAt(acts, i);
      if 0 <= i < k {
        assert prefix[..i] == acts[..i] && prefix[i] == acts[i];
      }
    }
  }

  lemma OneMore(acts: seq<Action>, a: Action)
    requires ValidRun(acts) && Enabled(After(acts), a)
    ensures ValidRun(acts + [a]) && After(acts + [a]) == Step(After(acts), a)
  {
    var all := acts + [a];
    assert all[..|acts|] == acts;
    forall i ensures EnabledAt(all, i) {
      assert EnabledAt(acts, i);
      if 0 <= i < |acts| {
        assert all[..i] == acts[..i] && all[i] == acts[i];
      }
    }
  }

  lemma StepKeeps(w: World, a: Action)
    requires Inv(w) && Enabled(w, a)
    ensures Inv(Step(w, a))
  {
    match a
    case Arrive(p) => ArriveKeeps(w, p);
    case ArriveDropped(n) => RecordKeeps(w, n);
    case Take(g, b) => TakeKeeps(w, g, b);
    case TrimOldest(b) => TrimKeeps(w, b);
    case Forget => NewQueueKeeps(w);
  }

  lemma NewQueueKeeps(w: World)
    requires w.dropped <= w.arrived
    ensures Inv(World(NEW_QUEUE, w.arrived, w.dropped, []))
  {
    forall m: nat ensures !Covers(NoDrops(), m) {
    }
  }

  lemma {:induction false} AlwaysInv(acts: seq<Action>)
    requires ValidRun(acts)
    ensures Inv(After(acts))
  {
    if acts == [] {
      NewQueueKeeps(World(NEW_QUEUE, {}, {}, []));
    } else {
      var n := |acts| - 1;
      PrefixValid(acts, n);
      AlwaysInv(acts[..n]);
      assert EnabledAt(acts, n);
      StepKeeps(After(acts[..n]), acts[n]);
    }
  }

  /** Every number from the first played to the last passed has been played, concealed, skipped,
      abandoned or trimmed exactly once and in order; those played had arrived, and those counted as the
      receiver's drops had been dropped. */
  lemma EveryNumberOnce(acts: seq<Action>, i: nat)
    requires ValidRun(acts) && After(acts).queue.started && i < |After(acts).log|
    ensures
      var w := After(acts);
      var x := w.log[i];
      && x.number == w.queue.next - |w.log| + i
      && (x.fate.Played? || x.fate.Trimmed? ==> x.number in w.arrived)
      && (x.fate.ConcealedDrop? || x.fate.SkippedDrop? ==> x.number in w.dropped)
  {
    AlwaysInv(acts);
    var w := After(acts);
    assert NumberAt(w.log, i, w.queue.next) && TruthAt(w.log, i, w.arrived, w.dropped);
  }

  /** Whatever playout is handed accounts for every number it moves past: what is given up before a
      packet splits exactly into gaps and the receiver's drops. */
  lemma AbandonedAddUp(acts: seq<Action>, gapWait: nat)
    requires ValidRun(acts) && Enabled(After(acts), Take(gapWait, false)) && After(acts).queue.packets != []
    ensures
      var q := After(acts).queue;
      var r := Dequeue(q, gapWait, false);
      match r.output
      case Play(p, _, gap, drop) => r.at + gap + drop == p.number && r.queue.next == p.number + 1
      case Conceal(n, _) => r.at == n && r.queue.next == n + 1
      case _ => r.at == r.queue.next
  {
    AlwaysInv(acts);
    var w := After(acts);
    var s := Started(w.queue);
    assert Dequeue(s, gapWait, false) == Dequeue(w.queue, gapWait, false);
    DequeueOk(s, gapWait, false, w.arrived, w.dropped);
  }
}

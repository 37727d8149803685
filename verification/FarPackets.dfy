/** What the playout queue on 32-bit words does with packets more than half the number space apart: which
    it throws away as stale, exactly, and runs in which it throws away one that is in time. */
module FarPackets {

  import DropRanges
  import opened PlayoutQueue
  import opened SerialNumbers
  import opened TimelyPackets
  import opened WordQueue

  // ----- what is thrown away ----------------------------------------------------------------------------

  lemma EraseOnly(ps: seq<Packet>, i: nat, x: nat)
    requires i < |ps|
    ensures Has(ErasePacket(ps, i), x) ==> Has(ps, x)
    ensures Has(ps, x) && x != ps[i].number ==> Has(ErasePacket(ps, i), x)
  {
    if Has(ErasePacket(ps, i), x) {
      var k :| 0 <= k < |ErasePacket(ps, i)| && ErasePacket(ps, i)[k].number == x;
      assert ps[if k == i then |ps| - 1 else k].number == x;
    }
    if Has(ps, x) && x != ps[i].number {
      EraseKeeps(ps, i, x);
    }
  }

  /** Exactly the packets that compare as before playout go. */
  lemma {:induction false} KeptIff(ps: seq<Packet>, next: nat, i: nat, x: nat)
    requires i <= |ps| && forall j :: 0 <= j < i ==> !SequenceBefore(ps[j].number, next)
    ensures Has(WordFreshOnly(ps, next, i), x) <==> Has(ps, x) && !SequenceBefore(x, next)
    decreases |ps| - i
  {
    if i == |ps| {
    } else if SequenceBefore(ps[i].number, next) {
      EraseOnly(ps, i, x);
      KeptIff(ErasePacket(ps, i), next, i, x);
    } else {
      KeptIff(ps, next, i + 1, x);
    }
  }

  /** A packet that is not behind playout is thrown away as stale if and only if it is more than half the
      number space ahead, modulo 2^32. */
  lemma InTimeErasedIff(ps: seq<Packet>, next: nat, n: nat)
    requires Has(ps, n) && n >= next
    ensures !Has(WordFreshOnly(PacketImages(ps), Wire(next), 0), Wire(n)) <==> (n - next) % UINT32 > HALF
  {
    var k :| 0 <= k < |ps| && ps[k].number == n;
    assert PacketImages(ps)[k].number == Wire(n);
    KeptIff(PacketImages(ps), Wire(next), 0, Wire(n));
    WrapDistance(next, n);
  }

  // ----- where playout starts ---------------------------------------------------------------------------

  lemma {:induction false} UnchangedIff(ps: seq<Packet>, next: nat, i: nat)
    requires i <= |ps| && forall j :: 0 <= j < i ==> !SequenceBefore(ps[j].number, next)
    ensures |WordFreshOnly(ps, next, i)| <= |ps|
    ensures WordFreshOnly(ps, next, i) == ps <==> forall j :: i <= j < |ps| ==> !SequenceBefore(ps[j].number, next)
    decreases |ps| - i
  {
    if i == |ps| {
    } else if SequenceBefore(ps[i].number, next) {
      UnchangedIff(ErasePacket(ps, i), next, i);
    } else {
      UnchangedIff(ps, next, i + 1);
    }
  }

  /** Packet m compares as before every other. */
  predicate Leads(ps: seq<Packet>, m: nat) {
    m < |ps| && forall j :: 0 <= j < |ps| && j != m ==> SequenceBefore(ps[m].number, ps[j].number)
  }

  lemma {:induction false} ScanFindsLeader(ps: seq<Packet>, m: nat, k: nat)
    requires Leads(ps, m) && m < k <= |ps|
    ensures WordEarliest(ps, k) == m
  {
    if k == m + 1 {
    } else {
      ScanFindsLeader(ps, m, k - 1);
    }
  }

  /** No number twice, and no two exactly half the number space apart. */
  predicate Comparable(ps: seq<Packet>) {
    forall i, j :: 0 <= i < j < |ps| ==>
      ps[i].number != ps[j].number && ps[i].number - ps[j].number != HALF && ps[j].number - ps[i].number != HALF
  }

  /** Playout starts without throwing a packet away if and only if one packet compares as before all the
      others. */
  lemma StartKeepsAllIff(ps: seq<Packet>, e: nat)
    requires ps != [] && WordPackets(ps) && Comparable(ps) && e == WordEarliest(ps, |ps|)
    ensures WordFreshOnly(ps, ps[e].number, 0) == ps <==> exists m :: Leads(ps, m)
  {
    UnchangedIff(ps, ps[e].number, 0);
    if m :| Leads(ps, m) {
      ScanFindsLeader(ps, m, |ps|);
    }
    if WordFreshOnly(ps, ps[e].number, 0) == ps {
      forall j | 0 <= j < |ps| && j != e ensures SequenceBefore(ps[e].number, ps[j].number) {
        assert !SequenceBefore(ps[j].number, ps[e].number);
      }
      assert Leads(ps, e);
    }
  }

  // ----- a packet in time is lost ------------------------------------------------------------------------

  /** Three numbers, each less than half the number space after the one before, and the last more than half
      of it after the first. */
  predicate RoundTheSpace(a: nat, b: nat, c: nat) {
    a < b < c && b - a < HALF && c - b < HALF && HALF < c - a < UINT32
  }

  /** They compare in a circle. */
  lemma InACircle(a: nat, b: nat, c: nat)
    requires RoundTheSpace(a, b, c)
    ensures SequenceBefore(Wire(a), Wire(b)) && SequenceBefore(Wire(b), Wire(c)) && SequenceBefore(Wire(c), Wire(a))
    ensures !SequenceBefore(Wire(b), Wire(a)) && !SequenceBefore(Wire(c), Wire(b)) && !SequenceBefore(Wire(a), Wire(c))
  {
    BeforeAgrees(a, b);
    BeforeAgrees(b, a);
    BeforeAgrees(b, c);
    BeforeAgrees(c, b);
    WrapDistance(a, c);
    ModuloOf(c - a, 0, c - a);
  }

  /** The list [p, q, r] on words: playout starts with the last, and the middle one goes as stale. */
  lemma LastComesFirst(w: Queue, p: Packet, q: Packet, r: Packet, t: Result)
    requires OnWords(w) && !w.started && w.packets == [PacketImage(p), PacketImage(q), PacketImage(r)]
    requires RoundTheSpace(p.number, q.number, r.number) && t == WordDequeue(w, 0, false)
    ensures t.output == Play(PacketImage(r), false, 0, 0) && t.queue.packets == [PacketImage(p)]
    ensures t.at == WordOrigin(w, false) == Wire(r.number)
  {
    InACircle(p.number, q.number, r.number);
    var a, b, c := PacketImage(p), PacketImage(q), PacketImage(r);
    var ps := [a, b, c];
    assert WordEarliest(ps, 1) == 0 && WordEarliest(ps, 2) == 0 && WordEarliest(ps, 3) == 2;
    assert ErasePacket(ps, 1) == [a, c];
    assert WordFreshOnly([a, c], c.number, 2) == [a, c];
    assert WordFreshOnly([a, c], c.number, 1) == [a, c];
    assert WordFreshOnly(ps, c.number, 1) == [a, c];
    assert WordFreshOnly(ps, c.number, 0) == [a, c];
    assert WordEarliest([a, c], 1) == 0 && WordEarliest([a, c], 2) == 1;
    assert ErasePacket([a, c], 1) == [a];
  }

  /** The same list on counters: the first is played, and the other two stay in time. */
  lemma FirstComesFirst(w: Queue, p: Packet, q: Packet, r: Packet, t: Result)
    requires |w.drops| == DropRanges.SLOTS && !w.started && w.packets == [p, q, r]
    requires RoundTheSpace(p.number, q.number, r.number) && t == Dequeue(w, 0, false)
    ensures t.output == Play(p, false, 0, 0) && t.queue.packets == [r, q] && t.queue.next == p.number + 1
  {
    var ps := [p, q, r];
    assert Earliest(ps, 1) == 0 && Earliest(ps, 2) == 0 && Earliest(ps, 3) == 0;
    assert FreshOnly(ps, p.number, 3) == ps;
    assert FreshOnly(ps, p.number, 2) == ps;
    assert FreshOnly(ps, p.number, 1) == ps;
    assert FreshOnly(ps, p.number, 0) == ps;
    assert ErasePacket(ps, 0) == [r, q];
  }

  lemma AfterFour(a: Action, b: Action, c: Action, d: Action)
    ensures
      var w1 := Step(After([]), a);
      var w2 := Step(w1, b);
      var w3 := Step(w2, c);
      && After([a]) == w1 && After([a, b]) == w2 && After([a, b, c]) == w3 && After([a, b, c, d]) == Step(w3, d)
  {
    assert [a, b, c, d][..3] == [a, b, c] && [a, b, c][..2] == [a, b] && [a, b][..1] == [a] && [a][..0] == [];
  }

  lemma WordAfterFour(a: Action, b: Action, c: Action, d: Action)
    ensures WordAfter([a, b, c, d]) == WordStep(WordStep(WordStep(WordStep(WordAfter([]), a), b), c), d)
  {
    assert [a, b, c, d][..3] == [a, b, c] && [a, b, c][..2] == [a, b] && [a, b][..1] == [a] && [a][..0] == [];
    assert WordAfter([a]) == WordStep(WordAfter([]), a);
    assert WordAfter([a, b]) == WordStep(WordAfter([a]), b);
    assert WordAfter([a, b, c]) == WordStep(WordAfter([a, b]), c);
  }

  /** A packet with a new number joins a short list before playout has started. */
  lemma Joins(w: World, p: Packet, w': World)
    requires |w.queue.drops| == DropRanges.SLOTS && !w.queue.started && |w.queue.packets| < MAX_QUEUE
    requires !Has(w.queue.packets, p.number) && w' == Step(w, Arrive(p))
    ensures w' == w.(queue := w.queue.(packets := w.queue.packets + [p]), arrived := w.arrived + {p.number})
  {
  }

  lemma WordJoins(h: Heard, p: Packet, h': Heard)
    requires OnWords(h.queue) && !h.queue.started && |h.queue.packets| < MAX_QUEUE
    requires !Has(h.queue.packets, Wire(p.number)) && h' == WordStep(h, Arrive(p))
    ensures h' == h.(queue := h.queue.(packets := h.queue.packets + [PacketImage(p)]))
  {
  }

  lemma ThreeJoin(p: Packet, q: Packet, r: Packet, w: World)
    requires RoundTheSpace(p.number, q.number, r.number)
    requires w == Step(Step(Step(After([]), Arrive(p)), Arrive(q)), Arrive(r))
    ensures w.queue == NEW_QUEUE.(packets := [p, q, r]) && w.dropped == {} && w.log == []
    ensures w.arrived == {p.number, q.number, r.number}
  {
    var w0 := After([]);
    var w1 := Step(w0, Arrive(p));
    var w2 := Step(w1, Arrive(q));
    Joins(w0, p, w1);
    Joins(w1, q, w2);
    Joins(w2, r, w);
  }

  lemma WordThreeJoin(p: Packet, q: Packet, r: Packet, h: Heard)
    requires RoundTheSpace(p.number, q.number, r.number)
    requires h == WordStep(WordStep(WordStep(WordAfter([]), Arrive(p)), Arrive(q)), Arrive(r))
    ensures h.queue == NEW_QUEUE.(packets := [PacketImage(p), PacketImage(q), PacketImage(r)]) && h.log == []
  {
    InACircle(p.number, q.number, r.number);
    var h0 := WordAfter([]);
    var h1 := WordStep(h0, Arrive(p));
    var h2 := WordStep(h1, Arrive(q));
    WordJoins(h0, p, h1);
    WordJoins(h1, q, h2);
    WordJoins(h2, r, h);
  }

  lemma TakeEnabled(p: Packet, q: Packet, r: Packet, w: World)
    requires RoundTheSpace(p.number, q.number, r.number) && w.queue.packets == [p, q, r] && !w.queue.started
    ensures Enabled(w, Take(0, false))
  {
    assert Earliest([p, q, r], 1) == 0 && Earliest([p, q, r], 2) == 0 && Earliest([p, q, r], 3) == 0;
  }

  lemma RunOfFourValid(p: Packet, q: Packet, r: Packet, acts: seq<Action>)
    requires RoundTheSpace(p.number, q.number, r.number)
    requires acts == [Arrive(p), Arrive(q), Arrive(r), Take(0, false)]
    ensures ValidRun(acts)
  {
    var one, two, three := [Arrive(p)], [Arrive(p), Arrive(q)], [Arrive(p), Arrive(q), Arrive(r)];
    AfterFour(Arrive(p), Arrive(q), Arrive(r), Take(0, false));
    assert [] + [Arrive(p)] == one;
    OneMore([], Arrive(p));
    Joins(After([]), p, After(one));
    assert one + [Arrive(q)] == two;
    OneMore(one, Arrive(q));
    Joins(After(one), q, After(two));
    assert two + [Arrive(r)] == three;
    OneMore(two, Arrive(r));
    ThreeJoin(p, q, r, After(three));
    TakeEnabled(p, q, r, After(three));
    assert three + [Take(0, false)] == acts;
    OneMore(three, Take(0, false));
  }

  /** Three such packets arrive in order and playout starts: nothing is dropped or trimmed and the second
      is in time, yet the queue on words plays the third, and the second is gone. */
  lemma TimelyPacketLost(p: Packet, q: Packet, r: Packet, acts: seq<Action>, w: World, h: Heard)
    requires RoundTheSpace(p.number, q.number, r.number)
    requires acts == [Arrive(p), Arrive(q), Arrive(r), Take(0, false)] && w == After(acts) && h == WordAfter(acts)
    ensures ValidRun(acts) && w.dropped == {} && InTime(w.queue, q.number)
    ensures h.log == [Passed(Wire(r.number), Played)] && !Has(h.queue.packets, Wire(q.number))
  {
    RunOfFourValid(p, q, r, acts);
    AfterFour(Arrive(p), Arrive(q), Arrive(r), Take(0, false));
    WordAfterFour(Arrive(p), Arrive(q), Arrive(r), Take(0, false));
    LostOnCounters(p, q, r, w);
    LostOnWords(p, q, r, h);
  }

  lemma LostOnCounters(p: Packet, q: Packet, r: Packet, w: World)
    requires RoundTheSpace(p.number, q.number, r.number)
    requires w == Step(Step(Step(Step(After([]), Arrive(p)), Arrive(q)), Arrive(r)), Take(0, false))
    ensures w.dropped == {} && InTime(w.queue, q.number)
  {
    var before := Step(Step(Step(After([]), Arrive(p)), Arrive(q)), Arrive(r));
    ThreeJoin(p, q, r, before);
    FirstComesFirst(before.queue, p, q, r, Dequeue(before.queue, 0, false));
    assert w.queue.packets[1].number == q.number;
  }

  lemma LostOnWords(p: Packet, q: Packet, r: Packet, h: Heard)
    requires RoundTheSpace(p.number, q.number, r.number)
    requires h == WordStep(WordStep(WordStep(WordStep(WordAfter([]), Arrive(p)), Arrive(q)), Arrive(r)), Take(0, false))
    ensures h.log == [Passed(Wire(r.number), Played)] && !Has(h.queue.packets, Wire(q.number))
  {
    var before := WordStep(WordStep(WordStep(WordAfter([]), Arrive(p)), Arrive(q)), Arrive(r));
    WordThreeJoin(p, q, r, before);
    TakeOfThree(before, p, q, r, h);
  }

  lemma TakeOfThree(before: Heard, p: Packet, q: Packet, r: Packet, h: Heard)
    requires OnWords(before.queue) && !before.queue.started && before.log == []
    requires before.queue.packets == [PacketImage(p), PacketImage(q), PacketImage(r)]
    requires RoundTheSpace(p.number, q.number, r.number) && h == WordTaken(before, 0, false)
    ensures h.log == [Passed(Wire(r.number), Played)] && !Has(h.queue.packets, Wire(q.number))
  {
    InACircle(p.number, q.number, r.number);
    LastComesFirst(before.queue, p, q, r, WordDequeue(before.queue, 0, false));
    ModuloOf(0, 0, 0);
  }

  /** For instance these. */
  lemma SuchNumbers()
    ensures RoundTheSpace(0, HALF - 400, UINT32 - 410)
  {
  }
}

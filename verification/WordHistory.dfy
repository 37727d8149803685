/** Whole runs of the playout queue on 32-bit words: what is proved of the queue on counters holds of the
    words while everything lies in one half of the number space, and what goes wrong beyond. */
module WordHistory {

  import opened DropRanges
  import opened PlayoutQueue
  import opened SerialNumbers
  import opened TimelyPackets
  import opened WordDrops
  import opened WordQueue
  import S = SequenceTracker
  import T = WordTracker

  function WorldImage(w: World): Heard { Heard(QueueImage(w.queue), LogImage(w.log)) }

  predicate ArrivesNear(q: Queue, a: Action, base: nat) {
    (a.Arrive? ==> NumberNear(q, a.packet.number, base)) && (a.ArriveDropped? ==> NumberNear(q, a.number, base))
  }

  /** What the queue holds and what an action brings lie in one half of the number space. */
  ghost predicate ActionNear(q: Queue, a: Action) {
    a.Forget? || exists base: nat :: QueueNear(q, base) && ArrivesNear(q, a, base)
  }

  // ----- one action ------------------------------------------------------------------------------------

  lemma DequeueWaits(q: Queue, gapWait: nat, blocked: bool)
    requires WaitsForNext(q) && |q.drops| == SLOTS
    ensures WaitsForNext(Dequeue(q, gapWait, blocked).queue)
  {
  }

  lemma StepWaits(w: World, a: Action)
    requires WaitsForNext(w.queue) && |w.queue.drops| == SLOTS
    ensures WaitsForNext(Step(w, a).queue)
  {
    if a.Take? {
      DequeueWaits(w.queue, a.gapWait, a.blocked);
    }
  }

  lemma NewQueueImage()
    ensures QueueImage(NEW_QUEUE) == NEW_QUEUE && LogImage([]) == []
  {
    assert PacketImages([]) == [];
    assert T.Images(NoDrops()) == NoDrops();
  }

  lemma PlayedInside(s: Queue, r: Result, arrived: set<nat>, dropped: set<nat>, base: nat)
    requires QueueNear(s, base) && TakeOk(s, r, arrived, dropped)
    ensures s.next <= r.at
    ensures r.output.Play? ==> r.at <= r.output.packet.number && Inside(r.output.packet.number, base)
  {
    if r.output.Play? {
      var i :| 0 <= i < |s.packets| && s.packets[i] == r.output.packet;
      PacketsNearAt(s.packets, base, i);
    }
  }

  /** What a take that is not put off adds to the history. */
  lemma PassedAgrees(w: World, gapWait: nat, base: nat)
    requires Inv(w) && Enabled(w, Take(gapWait, false)) && w.queue.packets != [] && QueueNear(w.queue, base)
    ensures
      var q, r := w.queue, Dequeue(w.queue, gapWait, false);
      WordPassedBy(Wire(Started(q).next), ResultImage(r)) == LogImage(PassedBy(Started(q).next, r))
  {
    var q := w.queue;
    var s, r := Started(q), Dequeue(q, gapWait, false);
    assert Dequeue(s, gapWait, false) == r;
    StartedAgrees(q, base);
    DequeueOk(s, gapWait, false, w.arrived, w.dropped);
    PlayedInside(s, r, w.arrived, w.dropped, base);
    AtInside(s, gapWait, base);
    PassedByAgrees(s.next, r, base);
  }

  lemma TakeAgrees(w: World, gapWait: nat, blocked: bool, base: nat)
    requires Inv(w) && Enabled(w, Take(gapWait, blocked)) && WaitsForNext(w.queue) && QueueNear(w.queue, base)
    ensures OnWords(QueueImage(w.queue))
    ensures WordTaken(WorldImage(w), gapWait, blocked) == WorldImage(Taken(w, gapWait, blocked))
  {
    var q := w.queue;
    DequeueAgrees(q, gapWait, blocked, base);
    if q.packets == [] || blocked {
      assert w.log + [] == w.log && LogImage(w.log) + [] == LogImage(w.log);
    } else {
      StartedAgrees(q, base);
      PassedAgrees(w, gapWait, base);
      LogConcat(w.log, PassedBy(Started(q).next, Dequeue(q, gapWait, false)));
    }
  }

  lemma TrimmedAgrees(w: World, blocked: bool, base: nat)
    requires |w.queue.drops| == SLOTS && QueueNear(w.queue, base)
    ensures OnWords(QueueImage(w.queue)) && WordTrimmed(WorldImage(w), blocked) == WorldImage(TrimmedOne(w, blocked))
  {
    var q := w.queue;
    TrimAgrees(q, blocked, base);
    T.WireEqual(q.next + 1, q.next);
    assert LogImage([Passed(q.next, Trimmed)]) == [Passed(Wire(q.next), Trimmed)];
    LogConcat(w.log, [Passed(q.next, Trimmed)]);
    assert w.log + [] == w.log && LogImage(w.log) + [] == LogImage(w.log);
  }

  /** One action, near: the queue and the history on words are the images of those on counters. */
  lemma StepAgrees(w: World, a: Action)
    requires Inv(w) && Enabled(w, a) && WaitsForNext(w.queue) && ActionNear(w.queue, a) && OnWords(QueueImage(w.queue))
    ensures WordStep(WorldImage(w), a) == WorldImage(Step(w, a))
  {
    if a.Forget? {
      NewQueueImage();
    } else {
      var base: nat :| QueueNear(w.queue, base) && ArrivesNear(w.queue, a, base);
      match a
      case Arrive(p) => AdmitAgrees(w.queue, p, base);
      case ArriveDropped(n) => RecordDropAgrees(w.queue, n, base);
      case Take(g, b) => TakeAgrees(w, g, b, base);
      case TrimOldest(b) => TrimmedAgrees(w, b, base);
    }
  }

  // ----- whole runs --------------------------------------------------------------------------------------

  ghost predicate NearAt(acts: seq<Action>, k: int) {
    0 <= k < |acts| ==> ActionNear(After(acts[..k]).queue, acts[k])
  }

  /** At every action, what is queued, recorded and arriving lies in one half of the number space. */
  ghost predicate RunNear(acts: seq<Action>) { forall k :: NearAt(acts, k) }

  lemma NearPrefix(acts: seq<Action>, k: nat)
    requires RunNear(acts) && k <= |acts|
    ensures RunNear(acts[..k])
  {
    var prefix := acts[..k];
    forall i ensures NearAt(prefix, i) {
      assert NearAt(acts, i);
      if 0 <= i < k {
        assert prefix[..i] == acts[..i] && prefix[i] == acts[i];
      }
    }
  }

  lemma {:induction false} AlwaysWaits(acts: seq<Action>)
    ensures WaitsForNext(After(acts).queue)
  {
    if acts == [] {
    } else {
      AlwaysWaits(acts[..|acts| - 1]);
      StepWaits(After(acts[..|acts| - 1]), acts[|acts| - 1]);
    }
  }

  lemma {:induction false} RunsAgree(acts: seq<Action>)
    requires ValidRun(acts) && RunNear(acts)
    ensures WordAfter(acts) == WorldImage(After(acts))
  {
    if acts == [] {
      NewQueueImage();
    } else {
      var n := |acts| - 1;
      PrefixValid(acts, n);
      NearPrefix(acts, n);
      RunsAgree(acts[..n]);
      AlwaysInv(acts[..n]);
      AlwaysWaits(acts[..n]);
      assert EnabledAt(acts, n) && NearAt(acts, n);
      StepAgrees(After(acts[..n]), acts[n]);
    }
  }

  /** The history on words tells the truth about the numbers they stand for. */
  lemma EntryTells(w: World, h: Heard, i: nat)
    requires Inv(w) && h == WorldImage(w) && w.queue.started && i < |h.log|
    ensures
      var n := w.queue.next - |h.log| + i;
      && n >= 0 && h.queue.next == Wire(w.queue.next) && h.log[i].number == Wire(n)
      && (h.log[i].fate.Played? || h.log[i].fate.Trimmed? ==> n in w.arrived)
      && (h.log[i].fate.ConcealedDrop? || h.log[i].fate.SkippedDrop? ==> n in w.dropped)
  {
    assert NumberAt(w.log, i, w.queue.next) && TruthAt(w.log, i, w.arrived, w.dropped);
  }

  /** On words, in every such run, the numbers playout has passed since it started are consecutive modulo
      2^32: entry i of the history is the i-th number since the first, played only if that packet had
      arrived, and counted as the receiver's drop only if it had been dropped. */
  lemma EveryWordOnce(acts: seq<Action>, i: nat, w: World, h: Heard)
    requires ValidRun(acts) && RunNear(acts) && w == After(acts) && h == WordAfter(acts)
    requires h.queue.started && i < |h.log|
    ensures
      var n := w.queue.next - |h.log| + i;
      && n >= 0 && h.queue.next == Wire(w.queue.next) && h.log[i].number == Wire(n)
      && (h.log[i].fate.Played? || h.log[i].fate.Trimmed? ==> n in w.arrived)
      && (h.log[i].fate.ConcealedDrop? || h.log[i].fate.SkippedDrop? ==> n in w.dropped)
  {
    RunsAgree(acts);
    AlwaysInv(acts);
    EntryTells(w, h, i);
  }

  /** A packet was in the list in time after i actions, none of those since made it leave without a trace,
      and it has not been recorded as dropped. */
  ghost predicate HeldInTime(acts: seq<Action>, i: nat, n: nat) {
    i <= |acts| && InTime(After(acts[..i]).queue, n) && Traced(acts, i, |acts|, n) && n !in After(acts).dropped
  }

  lemma TimelyAtEnd(acts: seq<Action>, i: nat, n: nat, w: World, at: int)
    requires ValidRun(acts) && HeldInTime(acts, i, n)
    requires w == After(acts) && w.queue.started && n < w.queue.next && at == n - (w.queue.next - |w.log|)
    ensures PlayedAt(w.log, at, n)
  {
    assert acts[..|acts|] == acts;
    TimelyIsPlayed(acts, i, |acts|, n, w);
  }

  lemma PlayedOnWords(acts: seq<Action>, at: int, n: nat, w: World)
    requires ValidRun(acts) && RunNear(acts) && w == After(acts) && PlayedAt(w.log, at, n)
    ensures PlayedAt(WordAfter(acts).log, at, Wire(n))
  {
    RunsAgree(acts);
  }

  /** On words, a packet that was in the list in time, and was neither recorded as dropped nor removed
      without a trace, is played, or trimmed just there, once playout has passed it. */
  lemma TimelyWordIsPlayed(acts: seq<Action>, i: nat, n: nat, w: World, at: int)
    requires ValidRun(acts) && RunNear(acts) && HeldInTime(acts, i, n)
    requires w == After(acts) && w.queue.started && n < w.queue.next && at == n - (w.queue.next - |w.log|)
    ensures PlayedAt(WordAfter(acts).log, at, Wire(n))
  {
    TimelyAtEnd(acts, i, n, w, at);
    PlayedOnWords(acts, at, n, w);
  }
}

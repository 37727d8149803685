/** The playout queue and the audio callback together: every number playout passes is reported exactly once,
    as delivered, as the receiver's drop, as waiting to be played or as lost. */
module EndToEnd {

  import opened DropRanges
  import opened PlayoutQueue
  import opened QueueScripts
  import Callback = PlayerModel

  /** A stretch of a session: what happens to the queue, a callback, and what that callback took off the
      queue meanwhile. */
  datatype Turn = Turn(acts: seq<Action>, callback: Callback.Callback, taken: seq<Callback.Dequeued>)

  // ----- one action of the queue ---------------------------------------------------------------------------

  /** How many numbers an output settles. */
  function Settles(o: Output): nat {
    match o
    case Play(_, _, gap, drop) => 1 + gap + drop
    case Conceal(_, _) => 1
    case _ => 0
  }

  /** A trim whose drop is to be counted at once: playout stands at the packet, or has not started. */
  predicate TrimCounts(q: Queue, a: Action) {
    && a.TrimOldest? && !a.blocked && q.packets != []
    && (q.started ==> q.packets[Earliest(q.packets, |q.packets|)].number == q.next)
  }

  function SettledBy(w: World, a: Action): nat
    requires |w.queue.drops| == SLOTS
  {
    if a.Take? then Settles(Dequeue(w.queue, a.gapWait, a.blocked).output) else 0
  }

  function TrimOf(w: World, a: Action): nat { if TrimCounts(w.queue, a) then 1 else 0 }

  /** A packet trimmed before playout starts is counted but not passed. */
  function EarlyTrimOf(w: World, a: Action): nat { if TrimCounts(w.queue, a) && !w.queue.started then 1 else 0 }

  lemma GapSkipsNothing(q: Queue, i: nat, gapWait: nat)
    requires i < |q.packets| && q.next <= q.packets[i].number && |q.drops| == SLOTS
    ensures AtGap(q, i, gapWait).queue.internalDrops == q.internalDrops && AtGap(q, i, gapWait).at == q.next
  {
  }

  /** What a take skips, it counts. */
  lemma SkippedCounted(q: Queue, gapWait: nat, blocked: bool)
    requires |q.drops| == SLOTS && (q.packets == [] || q.started)
    ensures
      var r := Dequeue(q, gapWait, blocked);
      q.next <= r.at && r.queue.internalDrops == q.internalDrops + r.at - q.next
  {
    if q.packets != [] && !blocked {
      var r := q.(packets := FreshOnly(q.packets, q.next, 0));
      if r.packets != [] {
        var i := Earliest(r.packets, |r.packets|);
        var s := SkipDrops(r.drops, r.next, r.packets[i].number);
        GapSkipsNothing(r, i, gapWait);
        GapSkipsNothing(PassedOver(r, s), i, gapWait);
      }
    }
  }

  lemma TakeReports(w: World, gapWait: nat, blocked: bool)
    requires Inv(w) && Enabled(w, Take(gapWait, blocked))
    ensures
      var w', a := Taken(w, gapWait, blocked), Take(gapWait, blocked);
      |w'.log| + w.queue.internalDrops == |w.log| + SettledBy(w, a) + w'.queue.internalDrops
  {
    var q := w.queue;
    if q.packets != [] && !blocked {
      var s := Started(q);
      assert Dequeue(s, gapWait, false) == Dequeue(q, gapWait, false);
      SkippedCounted(s, gapWait, false);
      DequeueOk(s, gapWait, false, w.arrived, w.dropped);
    }
  }

  /** One action: the history grows by what is handed out, what is skipped as a drop and what is trimmed. */
  lemma StepReports(w: World, a: Action)
    requires Inv(w) && Enabled(w, a) && !a.Forget?
    ensures
      var w' := Step(w, a);
      |w'.log| + w.queue.internalDrops + EarlyTrimOf(w, a) ==
      |w.log| + SettledBy(w, a) + TrimOf(w, a) + w'.queue.internalDrops
  {
    match a
    case Take(g, b) => TakeReports(w, g, b);
    case _ =>
  }

  // ----- stretches of a session -----------------------------------------------------------------------------

  function RunFrom(w: World, acts: seq<Action>): (w': World)
    requires |w.queue.drops| == SLOTS
    ensures |w'.queue.drops| == SLOTS
    decreases |acts|
  {
    if acts == [] then w else RunFrom(Step(w, acts[0]), acts[1..])
  }

  /** Each action is one the queue can be asked for, and none forgets the queue. */
  predicate Runs(w: World, acts: seq<Action>)
    requires |w.queue.drops| == SLOTS
    decreases |acts|
  {
    acts == [] || (Enabled(w, acts[0]) && !acts[0].Forget? && Runs(Step(w, acts[0]), acts[1..]))
  }

  function Trims(w: World, acts: seq<Action>): nat
    requires |w.queue.drops| == SLOTS
    decreases |acts|
  {
    if acts == [] then 0 else TrimOf(w, acts[0]) + Trims(Step(w, acts[0]), acts[1..])
  }

  function EarlyTrims(w: World, acts: seq<Action>): nat
    requires |w.queue.drops| == SLOTS
    decreases |acts|
  {
    if acts == [] then 0 else EarlyTrimOf(w, acts[0]) + EarlyTrims(Step(w, acts[0]), acts[1..])
  }

  function SettledAll(os: seq<Output>): nat { if os == [] then 0 else Settles(os[0]) + SettledAll(os[1..]) }

  lemma {:induction false} RunReports(w: World, acts: seq<Action>)
    requires Inv(w) && Runs(w, acts)
    ensures Inv(RunFrom(w, acts))
    ensures
      var w' := RunFrom(w, acts);
      |w'.log| + w.queue.internalDrops + EarlyTrims(w, acts) ==
      |w.log| + SettledAll(Outputs(w, acts)) + Trims(w, acts) + w'.queue.internalDrops
    decreases |acts|
  {
    if acts == [] {
    } else {
      var next := Step(w, acts[0]);
      StepKeeps(w, acts[0]);
      StepReports(w, acts[0]);
      RunReports(next, acts[1..]);
      FirstSettles(w, acts[0], Outputs(next, acts[1..]));
    }
  }

  lemma FirstSettles(w: World, a: Action, rest: seq<Output>)
    requires |w.queue.drops| == SLOTS
    ensures SettledAll(OutputOf(w, a) + rest) == SettledBy(w, a) + SettledAll(rest)
  {
    if a.Take? {
      assert (OutputOf(w, a) + rest)[1..] == rest;
    } else {
      assert OutputOf(w, a) + rest == rest;
    }
  }

  // ----- the callback's side ----------------------------------------------------------------------------------

  lemma HandedSettles(d: Callback.Dequeued, o: Output)
    requires Shows(d, o)
    ensures Callback.Owed(d) + Callback.Lost(d) == Settles(o)
  {
  }

  lemma {:induction false} TakenSettle(taken: seq<Callback.Dequeued>, os: seq<Output>)
    requires ShowsAll(taken, os)
    ensures Callback.OwedBy(taken) + Callback.LostBy(taken) == SettledAll(os)
  {
    if os == [] {
    } else {
      var n := |os| - 1;
      TakenSettle(taken[..n], os[..n]);
      HandedSettles(taken[n], os[n]);
      LastSettles(os);
    }
  }

  lemma {:induction false} LastSettles(os: seq<Output>)
    requires os != []
    ensures SettledAll(os) == SettledAll(os[..|os| - 1]) + Settles(os[|os| - 1])
  {
    if |os| == 1 {
    } else {
      assert os[..|os| - 1][1..] == os[1..][..|os| - 2];
      LastSettles(os[1..]);
    }
  }

  // ----- a session -----------------------------------------------------------------------------------------

  /** The callback took off the queue what the queue handed out, and counted the trims that were due. */
  ghost predicate Fits(w: World, t: Turn)
    requires |w.queue.drops| == SLOTS
  {
    && Runs(w, t.acts) && ShowsAll(t.taken, Outputs(w, t.acts))
    && Callback.TrimsCounted(t.callback) == Trims(w, t.acts)
  }

  ghost predicate FitsAll(w: World, turns: seq<Turn>)
    requires |w.queue.drops| == SLOTS
    decreases |turns|
  {
    turns == [] || (Fits(w, turns[0]) && FitsAll(RunFrom(w, turns[0].acts), turns[1..]))
  }

  function Final(w: World, turns: seq<Turn>): (w': World)
    requires |w.queue.drops| == SLOTS
    ensures |w'.queue.drops| == SLOTS
    decreases |turns|
  {
    if turns == [] then w else Final(RunFrom(w, turns[0].acts), turns[1..])
  }

  function AllEarlyTrims(w: World, turns: seq<Turn>): nat
    requires |w.queue.drops| == SLOTS
    decreases |turns|
  {
    if turns == [] then 0 else EarlyTrims(w, turns[0].acts) + AllEarlyTrims(RunFrom(w, turns[0].acts), turns[1..])
  }

  /** The drops of the queue's own that callbacks have collected, and all they have reported. */
  function Collected(turns: seq<Turn>): nat {
    if turns == [] then 0 else turns[0].callback.internalDrops + Collected(turns[1..])
  }

  ghost function ReportedAll(turns: seq<Turn>): nat {
    if turns == [] then 0 else Callback.Reported(turns[0].callback, turns[0].taken) + ReportedAll(turns[1..])
  }

  lemma TurnReports(w: World, t: Turn)
    requires Inv(w) && Fits(w, t)
    ensures
      var w' := RunFrom(w, t.acts);
      && Inv(w')
      && |w'.log| + w.queue.internalDrops + EarlyTrims(w, t.acts) + t.callback.internalDrops ==
         |w.log| + Callback.Reported(t.callback, t.taken) + w'.queue.internalDrops
  {
    RunReports(w, t.acts);
    TakenSettle(t.taken, Outputs(w, t.acts));
  }

  /** Over a whole session, whatever arrives, is refused, trimmed, concealed or given up in between, what the
      callbacks report as delivered, dropped, waiting or lost, and the skipped drops still to be collected,
      are exactly the numbers playout has passed, and the packets trimmed before it started. */
  lemma {:induction false} EachNumberReportedOnce(w: World, turns: seq<Turn>)
    requires Inv(w) && FitsAll(w, turns)
    ensures
      var w' := Final(w, turns);
      && Inv(w')
      && |w'.log| + AllEarlyTrims(w, turns) + w.queue.internalDrops + Collected(turns) ==
         |w.log| + ReportedAll(turns) + w'.queue.internalDrops
    decreases |turns|
  {
    if turns == [] {
    } else {
      TurnReports(w, turns[0]);
      EachNumberReportedOnce(RunFrom(w, turns[0].acts), turns[1..]);
    }
  }
}

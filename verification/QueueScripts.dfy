/** What the audio callback is handed: the outputs of the jitter queue, whatever arrives, is trimmed or
    forgotten in between, are exactly such that the callback's accounting is exact. */
module QueueScripts {

  import opened DropRanges
  import Callback = PlayerModel
  import opened PlayoutQueue

  /** What successive takes return in a run of the queue. */
  function Outputs(w: World, acts: seq<Action>): seq<Output>
    requires |w.queue.drops| == SLOTS
    decreases |acts|
  {
    if acts == [] then []
    else OutputOf(w, acts[0]) + Outputs(Step(w, acts[0]), acts[1..])
  }

  function OutputOf(w: World, a: Action): seq<Output>
    requires |w.queue.drops| == SLOTS
  {
    if a.Take? then [Dequeue(w.queue, a.gapWait, a.blocked).output] else []
  }

  predicate NothingAbandoned(o: Output) { o.Play? ==> o.abandonedGap == o.abandonedDrop == 0 }

  /** A packet that is played ends the run of concealments. */
  lemma PlayEndsLossRun(q: Queue, gapWait: nat, blocked: bool)
    requires |q.drops| == SLOTS
    ensures Dequeue(q, gapWait, blocked).output.Play? ==> Dequeue(q, gapWait, blocked).queue.lossRun.None?
  {
  }

  /** Outside a run of concealments the queue abandons nothing. */
  lemma AbandonsOnlyInLossRun(q: Queue, gapWait: nat, blocked: bool)
    requires |q.drops| == SLOTS && q.lossRun.None?
    ensures NothingAbandoned(Dequeue(q, gapWait, blocked).output)
  {
  }

  /** Nothing but a take starts such a run. */
  lemma OnlyTakesStartLossRun(w: World, a: Action)
    requires |w.queue.drops| == SLOTS && w.queue.lossRun.None? && !a.Take?
    ensures Step(w, a).queue.lossRun.None?
  {
  }

  lemma {:induction false} FirstOutputClean(w: World, acts: seq<Action>)
    requires |w.queue.drops| == SLOTS && w.queue.lossRun.None? && Outputs(w, acts) != []
    ensures NothingAbandoned(Outputs(w, acts)[0])
    decreases |acts|
  {
    var a := acts[0];
    if a.Take? {
      AbandonsOnlyInLossRun(w.queue, a.gapWait, a.blocked);
    } else {
      OnlyTakesStartLossRun(w, a);
      FirstOutputClean(Step(w, a), acts[1..]);
    }
  }

  /** The packet after a packet that was played carries no abandoned counts. */
  lemma {:induction false} PlayThenClean(w: World, acts: seq<Action>, i: nat)
    requires |w.queue.drops| == SLOTS && i + 1 < |Outputs(w, acts)| && Outputs(w, acts)[i].Play?
    ensures NothingAbandoned(Outputs(w, acts)[i + 1])
    decreases |acts|
  {
    var a := acts[0];
    var rest := Outputs(Step(w, a), acts[1..]);
    if a.Take? && i == 0 {
      PlayEndsLossRun(w.queue, a.gapWait, a.blocked);
      FirstOutputClean(Step(w, a), acts[1..]);
    } else {
      var k := if a.Take? then i - 1 else i;
      assert Outputs(w, acts)[i] == rest[k] && Outputs(w, acts)[i + 1] == rest[k + 1];
      PlayThenClean(Step(w, a), acts[1..], k);
    }
  }

  /** A dequeue as the callback sees it: the queue's output, an age only a received packet can have, and
      whatever the decoder makes of it. */
  predicate Shows(d: Callback.Dequeued, o: Output) {
    match o
    case Empty => d.Empty?
    case WaitingForGap => d.WaitingForGap?
    case Play(_, reset, gap, drop) =>
      && d.Got? && !d.packet.concealment && d.packet.resetDecoder == reset
      && d.packet.abandonedGaps == gap && d.packet.abandonedDrops == drop
    case Conceal(_, pending) =>
      && d.Got? && d.packet.concealment && d.packet.dropPending == pending && !d.packet.aged && !d.packet.resetDecoder
      && d.packet.abandonedGaps == d.packet.abandonedDrops == 0
  }

  ghost predicate ShowsAll(script: seq<Callback.Dequeued>, outputs: seq<Output>) {
    |script| == |outputs| && forall i :: 0 <= i < |script| ==> Shows(script[i], outputs[i])
  }

  /** Every script a run of the queue can produce meets what the callback relies on. */
  lemma ScriptsFromQueue(w: World, acts: seq<Action>, script: seq<Callback.Dequeued>)
    requires |w.queue.drops| == SLOTS && ShowsAll(script, Outputs(w, acts))
    ensures Callback.FromQueue(script)
  {
    forall i | 0 < i < |script| ensures Callback.Follows(script[i - 1], script[i]) {
      assert Shows(script[i - 1], Outputs(w, acts)[i - 1]) && Shows(script[i], Outputs(w, acts)[i]);
      if Outputs(w, acts)[i - 1].Play? {
        PlayThenClean(w, acts, i - 1);
      }
    }
    forall i | 0 <= i < |script| ensures Callback.AgedIsReceived(script[i]) {
      assert Shows(script[i], Outputs(w, acts)[i]);
    }
  }
}

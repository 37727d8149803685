/** Cumulative delivery reports: how a receiver of audio counts outcomes over media lifetimes and
    reports running totals, and how the sender of the audio turns reports that may be lost,
    duplicated and reordered back into increments. */
module DeliveryReports {

  import opened Common
  import opened Serial = SerialNumbers
  import Replay = ReplayWindow

  const MAX_INTERVAL_PACKETS := 1024

  // ----- counting across media lifetimes ---------------------------------------------------------

  /** What happens to a participant's counter: it is read, or its media state is torn down. */
  datatype Reading = Saw(value: nat) | Ended

  datatype Counter = Counter(total: nat, observed: nat)

  function Count(c: Counter, r: Reading): Counter {
    match r
    case Saw(x) => Counter(c.total + (if x >= c.observed then x - c.observed else x), x)
    case Ended => c.(observed := 0)
  }

  function CountAll(rs: seq<Reading>): Counter {
    if rs == [] then Counter(0, 0) else Count(CountAll(rs[..|rs| - 1]), rs[|rs| - 1])
  }

  /** Reading i is the last of its lifetime: nothing follows, the state was torn down, or the
      counter started over. */
  predicate LastOfLifetime(rs: seq<Reading>, i: nat)
    requires i < |rs|
  {
    rs[i].Saw? && (i + 1 == |rs| || rs[i + 1].Ended? || rs[i + 1].value < rs[i].value)
  }

  function LifetimeSum(rs: seq<Reading>, n: nat): nat
    requires n <= |rs|
  {
    if n == 0 then 0 else LifetimeSum(rs, n - 1) + if LastOfLifetime(rs, n - 1) then rs[n - 1].value else 0
  }

  lemma {:induction false} LifetimeSumPrefix(rs: seq<Reading>, r: Reading, n: nat)
    requires n < |rs|
    ensures LifetimeSum(rs + [r], n) == LifetimeSum(rs, n)
  {
    if n == 0 {
    } else {
      LifetimeSumPrefix(rs, r, n - 1);
    }
  }

  /** The total is the sum of the final readings of all lifetimes, however often the underlying
      counter restarts. */
  lemma {:induction false} TotalIsLifetimeSum(rs: seq<Reading>)
    ensures CountAll(rs).total == LifetimeSum(rs, |rs|)
    ensures CountAll(rs).observed == if rs != [] && rs[|rs| - 1].Saw? then rs[|rs| - 1].value else 0
  {
    if rs == [] {
    } else {
      var n := |rs| - 1;
      var before, r := rs[..n], rs[n];
      assert rs == before + [r];
      TotalIsLifetimeSum(before);
      if n > 0 {
        LifetimeSumPrefix(before, r, n - 1);
      }
    }
  }

  class LifetimeCounter {
    var total: nat
    var currentObserved: nat

    ghost function Value(): Counter
      reads this
    {
      Counter(total, currentObserved)
    }

    constructor ()
      ensures Value() == CountAll([])
    {
      total, currentObserved := 0, 0;
    }

    method Observe(current: nat)
      modifies this
      ensures Value() == Count(old(Value()), Saw(current))
    {
      total := total + if current >= currentObserved then current - currentObserved else current;
      currentObserved := current;
    }

    method EndMediaLifetime()
      modifies this
      ensures Value() == Count(old(Value()), Ended)
    {
      currentObserved := 0;
    }
  }

  // ----- taking in a report -----------------------------------------------------------------------

  datatype Report = Report(epoch: nat, sequence: nat, delivered: nat, lost: nat)

  datatype State = State(epoch: nat, sequence: nat, delivered: nat, lost: nat, initialized: bool)

  datatype Status = Applied | Rebaseline | Stale | Implausible

  datatype Delta = Delta(status: Status, delivered: nat, lost: nat)

  datatype Observed = Observed(state: State, delta: Delta)

  function StateOf(r: Report): State { State(r.epoch, r.sequence, r.delivered, r.lost, true) }

  function Observe(s: State, r: Report): Observed {
    if r.epoch == 0 || r.sequence == 0 then Observed(s, Delta(Implausible, 0, 0))
    else if !s.initialized then Observed(StateOf(r), Delta(Rebaseline, 0, 0))
    else if !SequenceAfter(r.sequence, s.sequence) then Observed(s, Delta(Stale, 0, 0))
    else if s.epoch != r.epoch then
      if !SequenceAfter(r.epoch, s.epoch) then Observed(s, Delta(Stale, 0, 0))
      else Observed(StateOf(r), Delta(Rebaseline, 0, 0))
    else if r.delivered < s.delivered || r.lost < s.lost then Observed(s, Delta(Implausible, 0, 0))
    else
      var d, l := r.delivered - s.delivered, r.lost - s.lost;
      var tooLarge := d > MAX_INTERVAL_PACKETS || l > MAX_INTERVAL_PACKETS - d;
      Observed(StateOf(r), Delta(if tooLarge then Rebaseline else Applied, d, l))
  }

  class ReportState {
    var reportEpoch: nat
    var sequence: nat
    var totalDelivered: nat
    var totalLost: nat
    var initialized: bool

    ghost function Value(): State
      reads this
    {
      State(reportEpoch, sequence, totalDelivered, totalLost, initialized)
    }

    constructor ()
      ensures Value() == State(0, 0, 0, 0, false)
    {
      reportEpoch, sequence, totalDelivered, totalLost, initialized := 0, 0, 0, 0, false;
    }

    method Take(r: Report)
      modifies this
      ensures Value() == StateOf(r)
    {
      reportEpoch, sequence, totalDelivered, totalLost, initialized := r.epoch, r.sequence, r.delivered, r.lost, true;
    }

    method ObserveReport(r: Report) returns (delta: Delta)
      modifies this
      ensures Value() == Observe(old(Value()), r).state && delta == Observe(old(Value()), r).delta
    {
      if r.epoch == 0 || r.sequence == 0 {
        return Delta(Implausible, 0, 0);
      }
      if !initialized {
        Take(r);
        return Delta(Rebaseline, 0, 0);
      }
      if !SequenceAfter(r.sequence, sequence) {
        return Delta(Stale, 0, 0);
      }
      var newEpoch := reportEpoch != r.epoch;
      if newEpoch && !SequenceAfter(r.epoch, reportEpoch) {
        return Delta(Stale, 0, 0);
      }
      if !newEpoch && (r.delivered < totalDelivered || r.lost < totalLost) {
        return Delta(Implausible, 0, 0);
      }
      if initialized && newEpoch {
        Take(r);
        return Delta(Rebaseline, 0, 0);
      }
      delta := Delta(Applied, r.delivered - totalDelivered, r.lost - totalLost);
      Take(r);
      if delta.delivered > MAX_INTERVAL_PACKETS || delta.lost > MAX_INTERVAL_PACKETS - delta.delivered {
        delta := delta.(status := Rebaseline);
      }
    }
  }

  // ----- the reporter ------------------------------------------------------------------------------

  /** A report before its control sequence number is cut to 32 bits. */
  datatype Sent = Sent(epoch: nat, counter: nat, delivered: nat, lost: nat)

  function Wire(m: Sent): Report { Report(m.epoch, m.counter % UINT32, m.delivered, m.lost) }

  /** One audio sender's accumulator at the reporting client (epoch 0: none), and the counters it
      draws from. */
  datatype Reporter = Reporter(
    epoch: nat, delivered: seq<Reading>, lost: seq<Reading>, sentDelivered: nat, sentLost: nat,
    nextEpoch: nat, nextCounter: nat, log: seq<Sent>)

  datatype Action =
    | Snapshot(delivered: nat, lost: nat)
    | EndLifetime
    | Create              // first packet of the sender with no accumulator kept
    | Drop                // participant removed or retention over
    | OtherSender         // an accumulator for someone else takes an epoch
    | OtherControl        // any other secure control packet takes a sequence number
    | SendReport

  function Act(p: Reporter, a: Action): Reporter {
    match a
    case Create => if p.epoch != 0 then p else p.(epoch := p.nextEpoch, nextEpoch := p.nextEpoch + 1)
    case OtherSender => p.(nextEpoch := p.nextEpoch + 1)
    case OtherControl => p.(nextCounter := p.nextCounter + 1)
    case _ => if p.epoch == 0 then p else ActKept(p, a)
  }

  function ActKept(p: Reporter, a: Action): Reporter {
    match a
    case Snapshot(d, l) => p.(delivered := p.delivered + [Saw(d)], lost := p.lost + [Saw(l)])
    case EndLifetime => p.(delivered := p.delivered + [Ended], lost := p.lost + [Ended])
    case Drop => p.(epoch := 0, delivered := [], lost := [], sentDelivered := 0, sentLost := 0)
    case _ =>
      var d, l := CountAll(p.delivered).total, CountAll(p.lost).total;
      if d == p.sentDelivered && l == p.sentLost then p
      else p.(nextCounter := p.nextCounter + 1, sentDelivered := d, sentLost := l,
              log := p.log + [Sent(p.epoch, p.nextCounter, d, l)])
  }

  function Reporting(acts: seq<Action>): Reporter {
    if acts == [] then Reporter(0, [], [], 0, 0, 1, 1, [])
    else Act(Reporting(acts[..|acts| - 1]), acts[|acts| - 1])
  }

  /** a left before b: counters rise, epochs do not fall, and within an epoch neither total falls
      and at least one rises. */
  predicate Earlier(a: Sent, b: Sent) {
    && a.counter < b.counter && a.epoch <= b.epoch
    && (a.epoch == b.epoch ==>
          && a.delivered <= b.delivered && a.lost <= b.lost
          && (a.delivered < b.delivered || a.lost < b.lost))
  }

  ghost predicate Ordered(log: seq<Sent>) {
    && (forall i :: 0 <= i < |log| ==> log[i].epoch > 0)
    && forall i, j :: 0 <= i < j < |log| ==> Earlier(log[i], log[j])
  }

  /** Everything sent so far precedes whatever the accumulator can send next. */
  predicate Covered(p: Reporter, m: Sent) {
    && m.counter < p.nextCounter && m.epoch < p.nextEpoch
    && (m.epoch == p.epoch ==> m.delivered <= p.sentDelivered && m.lost <= p.sentLost)
    && (p.epoch != 0 ==> m.epoch <= p.epoch)
  }

  ghost predicate ReporterInv(p: Reporter) {
    && Ordered(p.log) && p.epoch < p.nextEpoch
    && p.sentDelivered <= CountAll(p.delivered).total && p.sentLost <= CountAll(p.lost).total
    && forall i :: 0 <= i < |p.log| ==> Covered(p, p.log[i])
  }

  lemma SentKept(p: Reporter, a: Action)
    requires ReporterInv(p)
    ensures p.log <= Act(p, a).log
    ensures forall i :: 0 <= i < |p.log| ==> Covered(Act(p, a), p.log[i])
    ensures Act(p, a).epoch < Act(p, a).nextEpoch
  {
    forall i | 0 <= i < |p.log| ensures Covered(Act(p, a), p.log[i]) {
      assert Covered(p, p.log[i]);
    }
  }

  lemma TotalsCoverSent(p: Reporter, a: Action)
    requires ReporterInv(p)
    ensures Act(p, a).sentDelivered <= CountAll(Act(p, a).delivered).total
    ensures Act(p, a).sentLost <= CountAll(Act(p, a).lost).total
  {
    if p.epoch != 0 && (a.Snapshot? || a.EndLifetime?) {
      var q := ActKept(p, a);
      assert q.delivered[..|p.delivered|] == p.delivered && q.lost[..|p.lost|] == p.lost;
    }
  }

  lemma LogStaysOrdered(p: Reporter, a: Action)
    requires ReporterInv(p)
    ensures Ordered(Act(p, a).log)
    ensures forall i :: |p.log| <= i < |Act(p, a).log| ==> Covered(Act(p, a), Act(p, a).log[i])
  {
    var q := Act(p, a);
    forall i, j | 0 <= i < j < |q.log| ensures Earlier(q.log[i], q.log[j]) {
      if j < |p.log| {
        assert Earlier(p.log[i], p.log[j]);
      } else {
        assert Covered(p, p.log[i]);
      }
    }
  }

  /** Whatever is observed, torn down, dropped and recreated in between, reports leave in order. */
  lemma {:induction false} ReportsOrdered(acts: seq<Action>)
    ensures ReporterInv(Reporting(acts))
  {
    if acts == [] {
    } else {
      var n := |acts| - 1;
      ReportsOrdered(acts[..n]);
      var p := Reporting(acts[..n]);
      SentKept(p, acts[n]);
      TotalsCoverSent(p, acts[n]);
      LogStaysOrdered(p, acts[n]);
      var q := Act(p, acts[n]);
      forall i | 0 <= i < |q.log| ensures Covered(q, q.log[i]) {
        assert i < |p.log| ==> q.log[i] == p.log[i];
      }
    }
  }

  // ----- the sender of the audio, over any delivery of the reports --------------------------------

  function StateAfter(rs: seq<Report>): State {
    if rs == [] then State(0, 0, 0, 0, false)
    else Observe(StateAfter(rs[..|rs| - 1]), rs[|rs| - 1]).state
  }

  function DeltaAt(rs: seq<Report>, i: nat): Delta
    requires i < |rs|
  {
    Observe(StateAfter(rs[..i]), rs[i]).delta
  }

  /** What the network brings from the reporter: one of its reports, or another secure control packet. */
  datatype Carried = OfLog(index: nat) | Other(counter: nat)

  /** What the audio sender keeps of one reporter: the replay window all its control packets go
      through, and the last report. */
  datatype Inbox = Inbox(window: Replay.Window, state: State)

  predicate Carries(log: seq<Sent>, c: Carried) { c.OfLog? ==> c.index < |log| }

  function NumberOf(log: seq<Sent>, c: Carried): nat
    requires Carries(log, c)
  {
    if c.OfLog? then log[c.index].counter else c.counter
  }

  function Admission(log: seq<Sent>, at: Inbox, c: Carried): Replay.Answer
    requires Carries(log, c) && |at.window.seen| == Replay.WINDOW_BITS
  {
    Replay.Accept(at.window, Serial.Wire(NumberOf(log, c)))
  }

  function Deliver(log: seq<Sent>, at: Inbox, c: Carried): (next: Inbox)
    requires Carries(log, c) && |at.window.seen| == Replay.WINDOW_BITS
    ensures |next.window.seen| == Replay.WINDOW_BITS
  {
    var a := Admission(log, at, c);
    Inbox(a.window, if a.ok && c.OfLog? then Observe(at.state, Wire(log[c.index])).state else at.state)
  }

  /** Any selection of what was sent, in any order, with repeats. */
  ghost predicate CarriesAll(log: seq<Sent>, cs: seq<Carried>) { forall k :: 0 <= k < |cs| ==> Carries(log, cs[k]) }

  function Delivered(log: seq<Sent>, cs: seq<Carried>): (at: Inbox)
    requires CarriesAll(log, cs)
    ensures |at.window.seen| == Replay.WINDOW_BITS
  {
    if cs == [] then Inbox(Replay.EMPTY, State(0, 0, 0, 0, false))
    else Deliver(log, Delivered(log, cs[..|cs| - 1]), cs[|cs| - 1])
  }

  /** A report of the log gets through the replay window and is taken for a corrupt one. */
  predicate TakenForCorrupt(log: seq<Sent>, at: Inbox, c: Carried)
    requires Carries(log, c) && |at.window.seen| == Replay.WINDOW_BITS
  {
    c.OfLog? && Admission(log, at, c).ok && Observe(at.state, Wire(log[c.index])).delta.status == Implausible
  }

  ghost predicate NeverImplausible(log: seq<Sent>) {
    forall cs: seq<Carried>, c: Carried ::
      CarriesAll(log, cs) && Carries(log, c) ==> !TakenForCorrupt(log, Delivered(log, cs), c)
  }

  /** What the reporter can see of its own numbering: no two reports of an epoch are more than half the
      number space apart, leaving out those numbered 0, which are never let through. */
  ghost predicate WithinWindow(log: seq<Sent>) {
    forall i, j :: 0 <= i < j < |log| && log[i].epoch == log[j].epoch && Numbered(log[i]) && Numbered(log[j]) ==>
      (log[j].counter - log[i].counter) % UINT32 <= HALF
  }

  predicate Numbered(m: Sent) { Serial.Wire(m.counter) != 0 }

  ghost predicate IsAReport(log: seq<Sent>, at: State) {
    exists i :: 0 <= i < |log| && Numbered(log[i]) && at == StateOf(Wire(log[i]))
  }

  lemma {:induction false} StateIsAReport(log: seq<Sent>, cs: seq<Carried>)
    requires CarriesAll(log, cs)
    ensures Delivered(log, cs).state.initialized ==> IsAReport(log, Delivered(log, cs).state)
  {
    if cs == [] {
    } else {
      var n := |cs| - 1;
      StateIsAReport(log, cs[..n]);
      var at := Delivered(log, cs[..n]);
      assert Delivered(log, cs) == Deliver(log, at, cs[n]);
      if cs[n].OfLog? && Admission(log, at, cs[n]).ok {
        assert Numbered(log[cs[n].index]);
      }
    }
  }

  lemma OrderedNeverImplausible(log: seq<Sent>, at: State, j: nat)
    requires Ordered(log) && WithinWindow(log) && j < |log| && Numbered(log[j])
    requires at.initialized ==> IsAReport(log, at)
    ensures Observe(at, Wire(log[j])).delta.status != Implausible
  {
    if at.initialized {
      var i :| 0 <= i < |log| && Numbered(log[i]) && at == StateOf(Wire(log[i]));
      if j < i {
        assert Earlier(log[j], log[i]);
        WrapDistance(log[j].counter, log[i].counter);
      } else if i < j {
        assert Earlier(log[i], log[j]);
      }
    }
  }

  /** Reordered, lost and repeated among other control packets, reports that pass the replay window are
      never taken for corrupt ones if and only if the reporter keeps every epoch inside half the
      sequence space. */
  lemma ImplausibleIff(acts: seq<Action>)
    ensures NeverImplausible(Reporting(acts).log) <==> WithinWindow(Reporting(acts).log)
  {
    ReportsOrdered(acts);
    var log := Reporting(acts).log;
    if WithinWindow(log) {
      forall cs: seq<Carried>, c: Carried | CarriesAll(log, cs) && Carries(log, c)
        ensures !TakenForCorrupt(log, Delivered(log, cs), c)
      {
        StateIsAReport(log, cs);
        if c.OfLog? && Numbered(log[c.index]) {
          OrderedNeverImplausible(log, Delivered(log, cs).state, c.index);
        }
      }
    } else {
      BeyondWindowImplausible(log);
    }
  }

  lemma BeyondWindowImplausible(log: seq<Sent>)
    requires Ordered(log) && !WithinWindow(log)
    ensures !NeverImplausible(log)
  {
    var i, j :|
      && 0 <= i < j < |log| && log[i].epoch == log[j].epoch && Numbered(log[i]) && Numbered(log[j])
      && (log[j].counter - log[i].counter) % UINT32 > HALF;
    LateReportImplausible(log, i, j);
    CorruptRefutes(log, [OfLog(j)], OfLog(i));
  }

  lemma CorruptRefutes(log: seq<Sent>, cs: seq<Carried>, c: Carried)
    requires CarriesAll(log, cs) && Carries(log, c) && TakenForCorrupt(log, Delivered(log, cs), c)
    ensures !NeverImplausible(log)
  {
  }

  /** The later of two such reports arrives first: the earlier one looks newer to the replay window and
      to the report check, and its totals have fallen. */
  lemma LateReportImplausible(log: seq<Sent>, i: nat, j: nat)
    requires Ordered(log) && i < j < |log| && log[i].epoch == log[j].epoch && Numbered(log[i]) && Numbered(log[j])
    requires (log[j].counter - log[i].counter) % UINT32 > HALF
    ensures TakenForCorrupt(log, Delivered(log, [OfLog(j)]), OfLog(i))
  {
    assert Earlier(log[i], log[j]);
    WrapDistance(log[i].counter, log[j].counter);
    OffsetIs(log[i].counter, log[j].counter);
    Replay.NegatedWire(log[j].counter - log[i].counter);
    var first := Delivered(log, [OfLog(j)]);
    assert [OfLog(j)][..0] == [];
    assert first == Deliver(log, Delivered(log, []), OfLog(j));
    assert first.window.highest == Serial.Wire(log[j].counter) && first.state == StateOf(Wire(log[j]));
  }

  // ----- reports are taken ---------------------------------------------------------------------------

  /** All reports lie within half the sequence space, and half the epoch space, of each other. */
  ghost predicate InReach(log: seq<Sent>) { forall i, j :: PairNear(log, i, j) }

  predicate PairNear(log: seq<Sent>, i: int, j: int) {
    0 <= i < j < |log| ==> log[j].counter - log[i].counter < HALF && log[j].epoch - log[i].epoch < HALF
  }

  /** With report t in hand, report j comes: an earlier one is stale. A later one is taken: as the new base if
      its epoch is later, and otherwise for what the totals have grown by, applied exactly if that is at most
      1024 packets together. */
  lemma LaterIsTaken(log: seq<Sent>, t: nat, j: nat, o: Observed)
    requires Ordered(log) && InReach(log) && t < |log| && j < |log| && Numbered(log[j])
    requires o == Observe(StateOf(Wire(log[t])), Wire(log[j]))
    ensures j <= t ==> o == Observed(StateOf(Wire(log[t])), Delta(Stale, 0, 0))
    ensures j > t && log[j].epoch > log[t].epoch ==> o == Observed(StateOf(Wire(log[j])), Delta(Rebaseline, 0, 0))
    ensures j > t && log[j].epoch == log[t].epoch ==>
              var d, l := log[j].delivered - log[t].delivered, log[j].lost - log[t].lost;
              && d >= 0 && l >= 0 && d + l > 0
              && o == Observed(StateOf(Wire(log[j])), Delta(if d + l <= 1024 then Applied else Rebaseline, d, l))
  {
    assert PairNear(log, t, j) && PairNear(log, j, t);
    if j < t {
      assert Earlier(log[j], log[t]);
      BeforeAgrees(log[t].counter, log[j].counter);
    } else if j > t {
      assert Earlier(log[t], log[j]);
      BeforeAgrees(log[t].counter, log[j].counter);
    }
  }

  /** Delivery k is a report that gets through the replay window. */
  predicate GotThrough(log: seq<Sent>, cs: seq<Carried>, k: nat)
    requires CarriesAll(log, cs) && k < |cs|
  {
    cs[k].OfLog? && Admission(log, Delivered(log, cs[..k]), cs[k]).ok
  }

  /** The report with the highest counter that got through, or -1. */
  function Top(log: seq<Sent>, cs: seq<Carried>): (t: int)
    requires CarriesAll(log, cs)
    ensures -1 <= t < |log|
  {
    if cs == [] then -1
    else
      var n := |cs| - 1;
      var t := Top(log, cs[..n]);
      if GotThrough(log, cs, n) && cs[n].index > t then cs[n].index else t
  }

  predicate Holds(log: seq<Sent>, at: State, t: int)
    requires -1 <= t < |log|
  {
    if t == -1 then at == State(0, 0, 0, 0, false) else at == StateOf(Wire(log[t]))
  }

  lemma FirstIsTaken(m: Sent)
    requires m.epoch > 0 && Numbered(m)
    ensures Observe(State(0, 0, 0, 0, false), Wire(m)) == Observed(StateOf(Wire(m)), Delta(Rebaseline, 0, 0))
  {
  }

  /** However reports are lost, repeated and reordered, the one held is the one with the highest counter that
      got through. */
  lemma {:induction false} HeldIsHighest(log: seq<Sent>, cs: seq<Carried>)
    requires Ordered(log) && InReach(log) && CarriesAll(log, cs)
    ensures Holds(log, Delivered(log, cs).state, Top(log, cs))
  {
    if cs == [] {
    } else {
      var n := |cs| - 1;
      HeldIsHighest(log, cs[..n]);
      var at, t := Delivered(log, cs[..n]), Top(log, cs[..n]);
      assert Delivered(log, cs) == Deliver(log, at, cs[n]);
      if GotThrough(log, cs, n) {
        var j := cs[n].index;
        if t == -1 {
          FirstIsTaken(log[j]);
        } else {
          LaterIsTaken(log, t, j, Observe(at.state, Wire(log[j])));
        }
      }
    }
  }

  /** What delivery k adds. */
  function Added(log: seq<Sent>, cs: seq<Carried>, k: nat): (nat, nat)
    requires CarriesAll(log, cs) && k < |cs|
  {
    if !GotThrough(log, cs, k) then (0, 0)
    else
      var d := Observe(Delivered(log, cs[..k]).state, Wire(log[cs[k].index])).delta;
      (d.delivered, d.lost)
  }

  function AddedFrom(log: seq<Sent>, cs: seq<Carried>, f: nat, k: nat): (nat, nat)
    requires CarriesAll(log, cs) && f <= k <= |cs|
    decreases k
  {
    if k == f then (0, 0)
    else
      var s, a := AddedFrom(log, cs, f, k - 1), Added(log, cs, k - 1);
      (s.0 + a.0, s.1 + a.1)
  }

  lemma {:induction false} TopGrows(log: seq<Sent>, cs: seq<Carried>, j: nat, k: nat)
    requires CarriesAll(log, cs) && j <= k <= |cs|
    ensures Top(log, cs[..j]) <= Top(log, cs[..k])
    decreases k
  {
    if j == k {
    } else {
      assert cs[..k][..k - 1] == cs[..k - 1];
      TopGrows(log, cs, j, k - 1);
    }
  }

  lemma TopStep(log: seq<Sent>, cs: seq<Carried>, k: nat)
    requires CarriesAll(log, cs) && k < |cs|
    ensures
      var t := Top(log, cs[..k]);
      Top(log, cs[..k + 1]) == if GotThrough(log, cs, k) && cs[k].index > t then cs[k].index else t
  {
    assert cs[..k + 1][..k] == cs[..k];
  }

  lemma EpochsGrow(log: seq<Sent>, i: nat, j: nat)
    requires Ordered(log) && i <= j < |log|
    ensures log[i].epoch <= log[j].epoch
  {
    if i < j {
      assert Earlier(log[i], log[j]);
    }
  }

  /** From report b to report t the totals have grown by exactly these many. */
  predicate GrownBy(log: seq<Sent>, b: nat, t: nat, sum: (nat, nat))
    requires b < |log| && t < |log|
  {
    log[b].delivered + sum.0 == log[t].delivered && log[b].lost + sum.1 == log[t].lost
  }

  lemma AddedIs(log: seq<Sent>, cs: seq<Carried>, k: nat, t: nat, t': nat)
    requires Ordered(log) && InReach(log) && CarriesAll(log, cs) && k < |cs|
    requires t == Top(log, cs[..k]) && t' == Top(log, cs[..k + 1]) && log[t].epoch == log[t'].epoch
    ensures GrownBy(log, t, t', Added(log, cs, k))
  {
    HeldIsHighest(log, cs[..k]);
    TopStep(log, cs, k);
    if GotThrough(log, cs, k) {
      LaterIsTaken(log, t, cs[k].index, Observe(Delivered(log, cs[..k]).state, Wire(log[cs[k].index])));
    }
  }

  lemma TopBetween(log: seq<Sent>, cs: seq<Carried>, f: nat, m: nat, k: nat, b: nat, t: nat) returns (i: nat)
    requires Ordered(log) && CarriesAll(log, cs) && f <= m <= k <= |cs|
    requires b == Top(log, cs[..f]) && t == Top(log, cs[..k]) && log[b].epoch == log[t].epoch
    ensures i == Top(log, cs[..m]) && log[i].epoch == log[b].epoch
  {
    TopGrows(log, cs, f, m);
    TopGrows(log, cs, m, k);
    i := Top(log, cs[..m]);
    EpochsGrow(log, b, i);
    EpochsGrow(log, i, t);
  }

  lemma AddedNext(log: seq<Sent>, cs: seq<Carried>, f: nat, k: nat, b: nat, m: nat, t: nat)
    requires CarriesAll(log, cs) && f <= k < |cs| && b < |log| && m < |log| && t < |log|
    requires GrownBy(log, b, m, AddedFrom(log, cs, f, k)) && GrownBy(log, m, t, Added(log, cs, k))
    ensures GrownBy(log, b, t, AddedFrom(log, cs, f, k + 1))
  {
  }

  lemma {:induction false} AddedSince(log: seq<Sent>, cs: seq<Carried>, f: nat, k: nat, b: nat, t: nat)
    requires Ordered(log) && InReach(log) && CarriesAll(log, cs) && f <= k <= |cs|
    requires b == Top(log, cs[..f]) && t == Top(log, cs[..k]) && log[b].epoch == log[t].epoch
    ensures GrownBy(log, b, t, AddedFrom(log, cs, f, k))
    decreases k
  {
    if f == k {
    } else {
      var m := TopBetween(log, cs, f, k - 1, k, b, t);
      AddedSince(log, cs, f, k - 1, b, m);
      AddedIs(log, cs, k - 1, m, t);
      AddedNext(log, cs, f, k - 1, b, m, t);
    }
  }

  lemma {:induction false} TopGotThrough(log: seq<Sent>, cs: seq<Carried>, k: nat) returns (i: nat)
    requires CarriesAll(log, cs) && k <= |cs| && Top(log, cs[..k]) != -1
    ensures i < k && GotThrough(log, cs, i) && cs[i].index == Top(log, cs[..k])
    decreases k
  {
    TopStep(log, cs, k - 1);
    if GotThrough(log, cs, k - 1) && cs[k - 1].index > Top(log, cs[..k - 1]) {
      i := k - 1;
    } else {
      i := TopGotThrough(log, cs, k - 1);
    }
  }

  /** Nothing of the epoch got through before, nor anything later: the report becomes the highest. */
  lemma BaseIsTop(log: seq<Sent>, cs: seq<Carried>, f: nat, t: nat)
    requires Ordered(log) && CarriesAll(log, cs) && f < |cs| && GotThrough(log, cs, f)
    requires t == Top(log, cs[..|cs|]) && log[t].epoch == log[cs[f].index].epoch
    requires forall k :: 0 <= k < f && GotThrough(log, cs, k) ==> log[cs[k].index].epoch != log[t].epoch
    ensures Top(log, cs[..f + 1]) == cs[f].index
  {
    var b, u := cs[f].index, Top(log, cs[..f]);
    TopStep(log, cs, f);
    if u >= b {
      var i := TopGotThrough(log, cs, f);
      TopGrows(log, cs, f, |cs|);
      EpochsGrow(log, u, t);
      EpochsGrow(log, b, u);
      assert false;
    }
  }

  /** The first report of an epoch that gets through is the base: from then on, while no later epoch gets
      through, the increments add up to exactly what the totals of the highest report have grown by since. */
  lemma EpochAddsUp(log: seq<Sent>, cs: seq<Carried>, f: nat, t: nat)
    requires Ordered(log) && InReach(log) && CarriesAll(log, cs) && f < |cs| && GotThrough(log, cs, f)
    requires t == Top(log, cs) && log[t].epoch == log[cs[f].index].epoch
    requires forall k :: 0 <= k < f && GotThrough(log, cs, k) ==> log[cs[k].index].epoch != log[t].epoch
    ensures GrownBy(log, cs[f].index, t, AddedFrom(log, cs, f + 1, |cs|))
  {
    assert cs[..|cs|] == cs;
    BaseIsTop(log, cs, f, t);
    AddedSince(log, cs, f + 1, |cs|, cs[f].index, t);
  }

  /** A report without an epoch or a number changes nothing; and whatever arrives, neither the epoch nor the
      number held ever goes back. */
  lemma NeverBack(s: State, r: Report)
    ensures r.epoch == 0 || r.sequence == 0 ==> Observe(s, r) == Observed(s, Delta(Implausible, 0, 0))
    ensures
      var e := Observe(s, r).state;
      s.initialized && e != s ==>
        && SequenceAfter(e.sequence, s.sequence)
        && (e.epoch != s.epoch ==> SequenceAfter(e.epoch, s.epoch))
  {
  }

  // ----- reports are sent ----------------------------------------------------------------------------

  /** A report leaves exactly if the sender has an accumulator and a total has changed since the last one; it
      carries the sums over the lifetimes so far, and the next number. */
  lemma SentIff(acts: seq<Action>)
    ensures
      var p, p' := Reporting(acts), Reporting(acts + [SendReport]);
      var d, l := LifetimeSum(p.delivered, |p.delivered|), LifetimeSum(p.lost, |p.lost|);
      if p.epoch == 0 || (d == p.sentDelivered && l == p.sentLost) then p' == p
      else
        && p'.log == p.log + [Sent(p.epoch, p.nextCounter, d, l)] && p'.nextCounter == p.nextCounter + 1
        && p'.sentDelivered == d && p'.sentLost == l && p'.epoch == p.epoch
  {
    assert (acts + [SendReport])[..|acts|] == acts;
    TotalIsLifetimeSum(Reporting(acts).delivered);
    TotalIsLifetimeSum(Reporting(acts).lost);
  }

  /** Without an accumulator nothing is held, and nothing counts as sent. */
  predicate IdleIsEmpty(p: Reporter) {
    p.epoch == 0 ==> p.delivered == p.lost == [] && p.sentDelivered == p.sentLost == 0
  }

  lemma {:induction false} AlwaysIdleIsEmpty(acts: seq<Action>)
    ensures IdleIsEmpty(Reporting(acts)) && Reporting(acts).epoch < Reporting(acts).nextEpoch
  {
    if acts == [] {
    } else {
      AlwaysIdleIsEmpty(acts[..|acts| - 1]);
    }
  }

  /** What is read from the sender's ledger, as actions and as the readings of either count; none where the media
      state is torn down. */
  type Reads = seq<Option<(nat, nat)>>

  function ReadAction(r: Option<(nat, nat)>): Action {
    if r.Some? then Snapshot(r.value.0, r.value.1) else EndLifetime
  }

  function Readings(rs: Reads): seq<Action> {
    if rs == [] then [] else Readings(rs[..|rs| - 1]) + [ReadAction(rs[|rs| - 1])]
  }

  function SawDelivered(rs: Reads): seq<Reading> {
    if rs == [] then []
    else
      var r := rs[|rs| - 1];
      SawDelivered(rs[..|rs| - 1]) + [if r.Some? then Saw(r.value.0) else Ended]
  }

  function SawLost(rs: Reads): seq<Reading> {
    if rs == [] then []
    else
      var r := rs[|rs| - 1];
      SawLost(rs[..|rs| - 1]) + [if r.Some? then Saw(r.value.1) else Ended]
  }

  lemma ReportingOneMore(acts: seq<Action>, a: Action)
    ensures Reporting(acts + [a]) == Act(Reporting(acts), a)
  {
    assert (acts + [a])[..|acts|] == acts;
  }

  lemma {:induction false} ReadingsKept(acts: seq<Action>, rs: Reads)
    requires Reporting(acts).epoch != 0
    ensures
      var p := Reporting(acts);
      Reporting(acts + Readings(rs)) ==
        p.(delivered := p.delivered + SawDelivered(rs), lost := p.lost + SawLost(rs))
  {
    if rs == [] {
      assert acts + Readings(rs) == acts;
      assert Reporting(acts).delivered + [] == Reporting(acts).delivered;
      assert Reporting(acts).lost + [] == Reporting(acts).lost;
    } else {
      var n := |rs| - 1;
      ReadingsKept(acts, rs[..n]);
      ReportingOneMore(acts + Readings(rs[..n]), ReadAction(rs[n]));
      assert acts + Readings(rs) == acts + Readings(rs[..n]) + [ReadAction(rs[n])];
    }
  }

  /** A new accumulator reports what it has seen, under an epoch and a number not used before, as soon as there
      is anything to report. */
  lemma NewAccumulatorReports(acts: seq<Action>, rs: Reads, seen: seq<Action>)
    requires Reporting(acts).epoch == 0 && seen == acts + [Create] + Readings(rs)
    ensures
      var p, ds, ls := Reporting(acts), SawDelivered(rs), SawLost(rs);
      var d, l := LifetimeSum(ds, |ds|), LifetimeSum(ls, |ls|);
      Reporting(seen + [SendReport]).log ==
        if d + l == 0 then p.log else p.log + [Sent(p.nextEpoch, p.nextCounter, d, l)]
  {
    AlwaysIdleIsEmpty(acts);
    ReportingOneMore(acts, Create);
    ReadingsKept(acts + [Create], rs);
    SentIff(seen);
    var p := Reporting(acts);
    assert p.delivered + SawDelivered(rs) == SawDelivered(rs) && p.lost + SawLost(rs) == SawLost(rs);
  }

  // ----- increments add up -------------------------------------------------------------------------

  function Sum(rs: seq<Report>, i: nat, j: nat, appliedOnly: bool): (nat, nat)
    requires i <= j <= |rs|
    decreases j
  {
    if i == j then (0, 0)
    else
      var s, d := Sum(rs, i, j - 1, appliedOnly), DeltaAt(rs, j - 1);
      if appliedOnly && !d.status.Applied? then s else (s.0 + d.delivered, s.1 + d.lost)
  }

  lemma StepAddsUp(s: State, r: Report)
    requires s.initialized && Observe(s, r).state.epoch == s.epoch
    ensures
      var o := Observe(s, r);
      && o.state.initialized
      && o.state.delivered == s.delivered + o.delta.delivered && o.state.lost == s.lost + o.delta.lost
      && (o.delta.status.Rebaseline? ==> o.delta.delivered + o.delta.lost > MAX_INTERVAL_PACKETS)
      && (o.delta.status.Stale? || o.delta.status.Implausible? ==> o.delta.delivered == o.delta.lost == 0)
  {
  }

  /** Stretch [i, j) of the arrivals starts with a report in hand and stays in one epoch. */
  ghost predicate OneEpoch(rs: seq<Report>, i: nat, j: nat) {
    && i <= j <= |rs| && StateAfter(rs[..i]).initialized
    && forall k :: i <= k <= j ==> StateAfter(rs[..k]).epoch == StateAfter(rs[..i]).epoch
  }

  lemma StepOfStretch(rs: seq<Report>, i: nat, j: nat)
    requires OneEpoch(rs, i, j) && i < j && StateAfter(rs[..j - 1]).initialized
    ensures StateAfter(rs[..j]) == Observe(StateAfter(rs[..j - 1]), rs[j - 1]).state
    ensures StateAfter(rs[..j]).epoch == StateAfter(rs[..j - 1]).epoch
  {
    assert rs[..j][..j - 1] == rs[..j - 1];
  }

  /** Between two points of one epoch, whatever arrives, the increments handed out add up to the
      difference of the reporter's totals. */
  lemma {:induction false} IncrementsTelescope(rs: seq<Report>, i: nat, j: nat)
    requires OneEpoch(rs, i, j)
    ensures
      var from, to, all := StateAfter(rs[..i]), StateAfter(rs[..j]), Sum(rs, i, j, false);
      to.initialized && to.delivered == from.delivered + all.0 && to.lost == from.lost + all.1
  {
    if i == j {
    } else {
      IncrementsTelescope(rs, i, j - 1);
      StepOfStretch(rs, i, j);
      StepAddsUp(StateAfter(rs[..j - 1]), rs[j - 1]);
    }
  }

  /** What is applied adds up to the same, unless some interval was too large to apply; then it
      falls short. */
  lemma {:induction false} AppliedFallsShort(rs: seq<Report>, i: nat, j: nat)
    requires OneEpoch(rs, i, j)
    ensures
      var all, applied := Sum(rs, i, j, false), Sum(rs, i, j, true);
      && applied.0 <= all.0 && applied.1 <= all.1
      && (applied == all <==> forall k :: i <= k < j ==> DeltaAt(rs, k).status != Rebaseline)
  {
    if i == j {
    } else {
      AppliedFallsShort(rs, i, j - 1);
      IncrementsTelescope(rs, i, j - 1);
      StepOfStretch(rs, i, j);
      StepAddsUp(StateAfter(rs[..j - 1]), rs[j - 1]);
    }
  }

  // ----- claims against what was generated --------------------------------------------------------

  datatype Entry = Entry(report: State, claimed: nat)

  datatype Verdict = Verdict(entry: Entry, delta: Delta, malformed: bool)

  const UINT64_MAX := 0xFFFF_FFFF_FFFF_FFFF

  const NO_ENTRY := Entry(State(0, 0, 0, 0, false), 0)

  predicate ClaimsPlausible(claimed: nat, newly: nat, generated: nat) {
    claimed <= generated && newly <= generated - claimed
  }

  /** What the audio sender makes of a report from one reporter, when it has itself generated
      `generated` packets; a verdict that stores nothing keeps the entry. */
  function Judge(e: Entry, r: Report, generated: nat): Verdict {
    if r.delivered > UINT64_MAX - r.lost then Verdict(e, Delta(Implausible, 0, 0), true)
    else
      var first := !e.report.initialized;
      var claimed := if first && generated > MAX_INTERVAL_PACKETS then generated - MAX_INTERVAL_PACKETS else e.claimed;
      var o := Observe(e.report, r);
      if o.delta.status.Stale? || o.delta.status.Implausible? then Verdict(e, o.delta, o.delta.status.Implausible?)
      else
        var newly :=
          if first || e.report.epoch != r.epoch then r.delivered + r.lost else o.delta.delivered + o.delta.lost;
        if ClaimsPlausible(claimed, newly, generated) then Verdict(Entry(o.state, claimed + newly), o.delta, false)
        else if o.delta.status.Rebaseline? then Verdict(Entry(o.state, generated), o.delta, false)
        else Verdict(e, Delta(Implausible, 0, 0), true)
  }

  datatype Arrival = Arrival(report: Report, generated: nat)

  /** The generated count only grows. */
  ghost predicate Growing(arrivals: seq<Arrival>) {
    forall i, j :: 0 <= i <= j < |arrivals| ==> arrivals[i].generated <= arrivals[j].generated
  }

  function EntryAfter(arrivals: seq<Arrival>): Entry {
    if arrivals == [] then NO_ENTRY
    else
      var n := |arrivals| - 1;
      Judge(EntryAfter(arrivals[..n]), arrivals[n].report, arrivals[n].generated).entry
  }

  function VerdictAt(arrivals: seq<Arrival>, i: nat): Verdict
    requires i < |arrivals|
  {
    Judge(EntryAfter(arrivals[..i]), arrivals[i].report, arrivals[i].generated)
  }

  /** All outcomes ever handed to congestion control on this reporter's word. */
  function AppliedOutcomes(arrivals: seq<Arrival>, n: nat): nat
    requires n <= |arrivals|
  {
    if n == 0 then 0
    else
      var d := VerdictAt(arrivals, n - 1).delta;
      AppliedOutcomes(arrivals, n - 1) + if d.status.Applied? then d.delivered + d.lost else 0
  }

  lemma ClaimsCoverApplied(e: Entry, r: Report, generated: nat)
    requires e.claimed <= generated && (!e.report.initialized ==> e == NO_ENTRY)
    ensures
      var v := Judge(e, r, generated);
      var applied := if v.delta.status.Applied? then v.delta.delivered + v.delta.lost else 0;
      && e.claimed + applied <= v.entry.claimed <= generated
      && (e.report.initialized ==> v.entry.report.initialized)
      && (!v.entry.report.initialized ==> v.entry == NO_ENTRY)
  {
  }

  /** What the judge adds to `Observe`: a reporter's first report is taken, its claims reckoned from 1024 packets
      back; increments are applied exactly if the claims then still fit the packets generated, and refused
      otherwise; a new base is taken with as many claims as fit. */
  lemma JudgedIff(e: Entry, r: Report, generated: nat)
    requires r.delivered + r.lost <= UINT64_MAX && r.epoch > 0 && r.sequence > 0 && e.claimed <= generated
    requires !e.report.initialized ==> e == NO_ENTRY
    ensures
      var v, o, total := Judge(e, r, generated), Observe(e.report, r), r.delivered + r.lost;
      var more := if e.report.epoch == r.epoch then o.delta.delivered + o.delta.lost else total;
      if !e.report.initialized then
        v == Verdict(
               Entry(StateOf(r), Min(generated, Max(0, generated - 1024) + total)), Delta(Rebaseline, 0, 0), false)
      else if o.state == e.report then v.entry == e && !v.delta.status.Applied?
      else if o.delta.status.Applied? && e.claimed + more > generated then
        v == Verdict(e, Delta(Implausible, 0, 0), true)
      else v == Verdict(Entry(StateOf(r), Min(generated, e.claimed + more)), o.delta, false)
  {
  }

  /** Whatever a reporter sends, true or made up, the outcomes it gets applied never exceed the
      packets actually generated. */
  lemma {:induction false} AppliedWithinGenerated(arrivals: seq<Arrival>, n: nat)
    requires 0 < n <= |arrivals| && Growing(arrivals)
    ensures AppliedOutcomes(arrivals, n) <= EntryAfter(arrivals[..n]).claimed <= arrivals[n - 1].generated
    ensures EntryAfter(arrivals[..n - 1]).claimed <= EntryAfter(arrivals[..n]).claimed
    ensures EntryAfter(arrivals[..n - 1]).report.initialized ==> EntryAfter(arrivals[..n]).report.initialized
    ensures !EntryAfter(arrivals[..n]).report.initialized ==> EntryAfter(arrivals[..n]) == NO_ENTRY
  {
    assert arrivals[..n][..n - 1] == arrivals[..n - 1];
    if n > 1 {
      AppliedWithinGenerated(arrivals, n - 1);
      assert arrivals[n - 2].generated <= arrivals[n - 1].generated;
    } else {
      assert arrivals[..0] == [];
    }
    ClaimsCoverApplied(EntryAfter(arrivals[..n - 1]), arrivals[n - 1].report, arrivals[n - 1].generated);
  }

  class Outcomes {
    var byReporter: map<nat, Entry>
    var feedback: map<nat, Delta>
    var feedbackPending: bool
    var malformedDrops: nat

    ghost function EntryOf(reporter: nat): Entry
      reads this
    {
      if reporter in byReporter then byReporter[reporter] else NO_ENTRY
    }

    constructor ()
      ensures byReporter == map[] && feedback == map[] && !feedbackPending && malformedDrops == 0
    {
      byReporter, feedback, feedbackPending, malformedDrops := map[], map[], false, 0;
    }

    method Reject()
      modifies this`malformedDrops
      ensures malformedDrops == old(malformedDrops) + 1
    {
      malformedDrops := malformedDrops + 1;
    }

    method Store(reporter: nat, e: Entry, delta: Delta)
      modifies this`byReporter, this`feedback, this`feedbackPending
      ensures byReporter == old(byReporter)[reporter := e]
      ensures feedback == if delta.status.Rebaseline? then old(feedback) else old(feedback)[reporter := delta]
      ensures feedbackPending == (old(feedbackPending) || !delta.status.Rebaseline?)
    {
      byReporter := byReporter[reporter := e];
      if !delta.status.Rebaseline? {
        feedback := feedback[reporter := delta];
        feedbackPending := true;
      }
    }

    method HandleReport(reporter: nat, r: Report, generated: nat)
      modifies this
      ensures EntryOf(reporter) == Judge(old(EntryOf(reporter)), r, generated).entry
      ensures forall other :: other != reporter ==> EntryOf(other) == old(EntryOf(other))
      ensures var v := Judge(old(EntryOf(reporter)), r, generated);
        && malformedDrops == old(malformedDrops) + (if v.malformed then 1 else 0)
        && feedback == (if v.delta.status.Applied? then old(feedback)[reporter := v.delta] else old(feedback))
        && feedbackPending == (old(feedbackPending) || v.delta.status.Applied?)
    {
      if r.delivered > UINT64_MAX - r.lost {
        Reject();
        return;
      }
      var candidate := if reporter in byReporter then byReporter[reporter] else NO_ENTRY;
      var first := !candidate.report.initialized;
      var newEpoch := candidate.report.initialized && candidate.report.epoch != r.epoch;
      if first && generated > MAX_INTERVAL_PACKETS {
        candidate := candidate.(claimed := generated - MAX_INTERVAL_PACKETS);
      }
      var observed := Observe(candidate.report, r);
      candidate := candidate.(report := observed.state);
      var delta := observed.delta;
      if delta.status.Stale? {
        return;
      }
      if delta.status.Implausible? {
        Reject();
        return;
      }
      var newly := if first || newEpoch then r.delivered + r.lost else delta.delivered + delta.lost;
      if !ClaimsPlausible(candidate.claimed, newly, generated) {
        if !delta.status.Rebaseline? {
          Reject();
          return;
        }
        candidate := candidate.(claimed := generated);
      } else {
        candidate := candidate.(claimed := candidate.claimed + newly);
      }
      Store(reporter, candidate, delta);
    }
  }
}

/** When to send larger packets: three feedback paths vote with hysteresis, and any of them can hold
    the larger size. */
module PacketDuration {

  import opened Common

  const UINT32_MAX := 0xFFFF_FFFF
  const IMPAIRED_INTERVALS := 2
  const HEALTHY_INTERVALS := 3

  datatype Path = Downstream | SenderIngress | Ping

  function Index(p: Path): (i: nat)
    ensures i < 3
  {
    match p case Downstream => 0 case SenderIngress => 1 case Ping => 2
  }

  /** One verdict of one path about the last interval. */
  datatype Vote = Vote(path: Path, impaired: bool)

  // ----- what a path asks for, from its own verdicts ------------------------------------------------

  /** The verdicts of one path, oldest first. */
  function Heard(votes: seq<Vote>, p: Path): seq<bool> {
    if votes == [] then []
    else
      var n := |votes| - 1;
      Heard(votes[..n], p) + if votes[n].path == p then [votes[n].impaired] else []
  }

  /** Two impaired verdicts in a row end at position i. */
  predicate TwoImpaired(h: seq<bool>, i: int) { 0 < i < |h| && h[i - 1] && h[i] }

  /** Three healthy verdicts in a row end at position i. */
  predicate ThreeHealthy(h: seq<bool>, i: int) { 1 < i < |h| && !h[i - 2] && !h[i - 1] && !h[i] }

  /** Larger packets are asked for from two impaired verdicts in a row until three healthy ones. */
  ghost predicate Wants(h: seq<bool>) {
    exists i :: TwoImpaired(h, i) && forall j :: i < j < |h| ==> !ThreeHealthy(h, j)
  }

  // ----- the counters ------------------------------------------------------------------------------

  datatype Counters = Counters(impaired: nat, healthy: nat, requests: bool)

  function Bump(n: nat): nat { if n < UINT32_MAX then n + 1 else n }

  function Count(c: Counters, impaired: bool): Counters {
    if impaired then
      var i := Bump(c.impaired);
      Counters(i, 0, c.requests || i >= IMPAIRED_INTERVALS)
    else if c.requests then
      var h := Bump(c.healthy);
      if h >= HEALTHY_INTERVALS then Counters(0, 0, false) else Counters(0, h, true)
    else Counters(0, 0, false)
  }

  function CountAll(h: seq<bool>): Counters {
    if h == [] then Counters(0, 0, false) else Count(CountAll(h[..|h| - 1]), h[|h| - 1])
  }

  /** How many equal verdicts the history ends in. */
  function Trailing(h: seq<bool>, verdict: bool): nat {
    if h == [] || h[|h| - 1] != verdict then 0 else Trailing(h[..|h| - 1], verdict) + 1
  }

  lemma {:induction false} TrailingMeans(h: seq<bool>, verdict: bool, k: nat)
    ensures Trailing(h, verdict) <= |h|
    ensures Trailing(h, verdict) >= k <==> k <= |h| && forall i :: |h| - k <= i < |h| ==> h[i] == verdict
  {
    if h == [] || h[|h| - 1] != verdict {
    } else {
      var n := |h| - 1;
      TrailingMeans(h[..n], verdict, if k > 0 then k - 1 else 0);
      assert forall i :: 0 <= i < n ==> h[..n][i] == h[i];
    }
  }

  lemma TwoImpairedMeans(h: seq<bool>)
    requires h != []
    ensures TwoImpaired(h, |h| - 1) <==> Trailing(h, true) >= 2
    ensures ThreeHealthy(h, |h| - 1) <==> Trailing(h, false) >= 3
  {
    TrailingMeans(h, true, 2);
    TrailingMeans(h, false, 3);
  }

  /** Asking carries over unless the last verdict says otherwise. */
  lemma WantsStep(h: seq<bool>)
    requires h != []
    ensures Wants(h) <==> TwoImpaired(h, |h| - 1) || (Wants(h[..|h| - 1]) && !ThreeHealthy(h, |h| - 1))
  {
    var n := |h| - 1;
    var before := h[..n];
    assert forall j :: j < n ==>
      ThreeHealthy(before, j) == ThreeHealthy(h, j) && TwoImpaired(before, j) == TwoImpaired(h, j);
    if Wants(before) && !ThreeHealthy(h, n) {
      var i :| TwoImpaired(before, i) && forall j :: i < j < |before| ==> !ThreeHealthy(before, j);
      assert TwoImpaired(h, i);
    }
    if Wants(h) && !TwoImpaired(h, n) {
      var i :| TwoImpaired(h, i) && forall j :: i < j < |h| ==> !ThreeHealthy(h, j);
      assert TwoImpaired(before, i);
    }
  }

  /** The counters decide exactly that, for histories of any length. */
  lemma {:induction false} RequestIff(h: seq<bool>)
    ensures CountAll(h).requests <==> Wants(h)
    ensures CountAll(h).impaired == Min(Trailing(h, true), UINT32_MAX)
    ensures CountAll(h).requests ==> CountAll(h).healthy == Trailing(h, false) < HEALTHY_INTERVALS
    ensures !CountAll(h).requests ==> CountAll(h).healthy == 0
  {
    if h == [] {
    } else {
      RequestIff(h[..|h| - 1]);
      WantsStep(h);
      TwoImpairedMeans(h);
      NotBoth(h);
    }
  }

  lemma NotBoth(h: seq<bool>)
    requires h != []
    ensures if h[|h| - 1] then Trailing(h, false) == 0 else Trailing(h, true) == 0
  {
  }

  // ----- the three paths together ------------------------------------------------------------------

  /** The counters of all paths after some votes. */
  function Panel(votes: seq<Vote>): (c: seq<Counters>)
    ensures |c| == 3
  {
    if votes == [] then [CountAll([]), CountAll([]), CountAll([])]
    else
      var n := |votes| - 1;
      var before, k := Panel(votes[..n]), Index(votes[n].path);
      before[k := Count(before[k], votes[n].impaired)]
  }

  predicate AnyRequest(c: seq<Counters>) { exists i :: 0 <= i < |c| && c[i].requests }

  function Size(c: seq<Counters>, configured: int, impairedFrames: int): int {
    if AnyRequest(c) && impairedFrames > configured then impairedFrames else configured
  }

  /** Each path counts as if it were alone. */
  lemma {:induction false} PathsIndependent(votes: seq<Vote>, p: Path)
    ensures Panel(votes)[Index(p)] == CountAll(Heard(votes, p))
  {
    if votes == [] {
    } else {
      var n := |votes| - 1;
      PathsIndependent(votes[..n], p);
      CountOneMore(Heard(votes[..n], p), votes[n].impaired);
      assert Heard(votes[..n], p) + [] == Heard(votes[..n], p);
    }
  }

  lemma CountOneMore(h: seq<bool>, verdict: bool)
    ensures CountAll(h + [verdict]) == Count(CountAll(h), verdict)
  {
    assert (h + [verdict])[..|h|] == h;
  }

  /** The configured size is kept exactly while no path has lately been impaired twice running, not
      three times healthy since, or while it is large enough anyway. */
  lemma SizeIff(votes: seq<Vote>, configured: int, impairedFrames: int)
    ensures Size(Panel(votes), configured, impairedFrames) == configured <==>
            configured >= impairedFrames || forall p :: !Wants(Heard(votes, p))
    ensures Size(Panel(votes), configured, impairedFrames) >= configured
  {
    AnyRequestIff(votes);
  }

  lemma AnyRequestIff(votes: seq<Vote>)
    ensures AnyRequest(Panel(votes)) <==> exists p :: Wants(Heard(votes, p))
  {
    if AnyRequest(Panel(votes)) {
      var i :| 0 <= i < 3 && Panel(votes)[i].requests;
      var p := if i == 0 then Downstream else if i == 1 then SenderIngress else Ping;
      PathsIndependent(votes, p);
      RequestIff(Heard(votes, p));
    }
    if p :| Wants(Heard(votes, p)) {
      PathsIndependent(votes, p);
      RequestIff(Heard(votes, p));
    }
  }

  // ----- the controller's state ----------------------------------------------------------------------

  class State {
    var configuredFrames: int
    var currentFrames: int
    const impairedIntervals: array<nat>
    const healthyIntervals: array<nat>
    const requestsLargerPackets: array<bool>

    ghost predicate Valid() {
      && impairedIntervals.Length == healthyIntervals.Length == requestsLargerPackets.Length == 3
      && impairedIntervals != healthyIntervals
    }

    ghost function CountersAt(i: nat): Counters
      requires Valid() && i < 3
      reads impairedIntervals, healthyIntervals, requestsLargerPackets
    {
      Counters(impairedIntervals[i], healthyIntervals[i], requestsLargerPackets[i])
    }

    ghost function Value(): seq<Counters>
      requires Valid()
      reads impairedIntervals, healthyIntervals, requestsLargerPackets
    {
      [CountersAt(0), CountersAt(1), CountersAt(2)]
    }

    constructor (frames: int)
      ensures Valid() && Value() == Panel([]) && configuredFrames == currentFrames == frames
      ensures fresh(impairedIntervals) && fresh(healthyIntervals) && fresh(requestsLargerPackets)
    {
      configuredFrames, currentFrames := frames, frames;
      impairedIntervals := new nat[3](_ => 0);
      healthyIntervals := new nat[3](_ => 0);
      requestsLargerPackets := new bool[3](_ => false);
    }

    method Configure(frames: int)
      requires Valid()
      modifies this, impairedIntervals, healthyIntervals, requestsLargerPackets
      ensures Value() == Panel([]) && configuredFrames == currentFrames == frames
    {
      for i := 0 to 3
        invariant forall j :: 0 <= j < i ==>
          impairedIntervals[j] == healthyIntervals[j] == 0 && !requestsLargerPackets[j]
      {
        impairedIntervals[i], healthyIntervals[i], requestsLargerPackets[i] := 0, 0, false;
      }
      configuredFrames, currentFrames := frames, frames;
    }

    method CountImpaired(i: nat)
      requires Valid() && i < 3
      modifies impairedIntervals, healthyIntervals, requestsLargerPackets
      ensures Value() == old(Value())[i := Count(old(CountersAt(i)), true)]
    {
      healthyIntervals[i] := 0;
      if impairedIntervals[i] < UINT32_MAX {
        impairedIntervals[i] := impairedIntervals[i] + 1;
      }
      if impairedIntervals[i] >= IMPAIRED_INTERVALS {
        requestsLargerPackets[i] := true;
      }
    }

    method CountHealthy(i: nat)
      requires Valid() && i < 3
      modifies impairedIntervals, healthyIntervals, requestsLargerPackets
      ensures Value() == old(Value())[i := Count(old(CountersAt(i)), false)]
    {
      impairedIntervals[i] := 0;
      if requestsLargerPackets[i] {
        if healthyIntervals[i] < UINT32_MAX {
          healthyIntervals[i] := healthyIntervals[i] + 1;
        }
        if healthyIntervals[i] >= HEALTHY_INTERVALS {
          requestsLargerPackets[i] := false;
          healthyIntervals[i] := 0;
        }
      } else {
        healthyIntervals[i] := 0;
      }
    }

    method AnyRequested() returns (any: bool)
      requires Valid()
      ensures any == AnyRequest(Value())
    {
      any := false;
      for i := 0 to 3
        invariant any == exists j :: 0 <= j < i && Value()[j].requests
      {
        if requestsLargerPackets[i] {
          assert Value()[i].requests;
          any := true;
        }
      }
    }

    method Update(path: Path, impaired: bool, impairedFrames: int) returns (frames: int)
      requires Valid()
      modifies this`currentFrames, impairedIntervals, healthyIntervals, requestsLargerPackets
      ensures Value() == old(Value())[Index(path) := Count(old(Value())[Index(path)], impaired)]
      ensures frames == currentFrames == Size(Value(), configuredFrames, impairedFrames)
    {
      if impaired {
        CountImpaired(Index(path));
      } else {
        CountHealthy(Index(path));
      }
      var any := AnyRequested();
      currentFrames := if any && impairedFrames > configuredFrames then impairedFrames else configuredFrames;
      frames := currentFrames;
    }
  }
}

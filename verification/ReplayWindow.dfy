/** The replay window of secure packets: each number is let through at most once, and a late one only
    while it is among the last 64. */
module ReplayWindow {

  import opened SerialNumbers

  const WINDOW_BITS := 64

  /** Bit k of a 64-bit word that is shifted up by so many places, with bit 0 set. */
  function ShiftedWithOne(b: seq<bool>, distance: nat): (r: seq<bool>)
    requires |b| == WINDOW_BITS
    ensures |r| == WINDOW_BITS
    ensures forall k: nat :: k < WINDOW_BITS ==> (r[k] <==> k == 0 || (k >= distance && b[k - distance]))
  {
    seq(WINDOW_BITS, k requires 0 <= k < WINDOW_BITS => k == 0 || (k >= distance && b[k - distance]))
  }

  function Zeros(): (r: seq<bool>)
    ensures |r| == WINDOW_BITS && forall k: nat :: k < WINDOW_BITS ==> !r[k]
  {
    seq(WINDOW_BITS, _ => false)
  }

  /** The word of bits seen has its lowest bit first. */
  datatype Window = Window(initialized: bool, highest: Word, seen: seq<bool>)

  datatype Answer = Answer(window: Window, ok: bool)

  /** The signed difference is positive. */
  predicate After(a: Word, b: Word) { a != b && Offset(a, b) < HALF }

  function Accept(w: Window, s: Word): (a: Answer)
    requires |w.seen| == WINDOW_BITS
    ensures |a.window.seen| == WINDOW_BITS
  {
    if s == 0 then Answer(w, false)
    else if !w.initialized then Answer(Window(true, s, ShiftedWithOne(Zeros(), 0)), true)
    else if After(s, w.highest) then
      var distance := Offset(s, w.highest);
      var seen := if distance >= WINDOW_BITS then ShiftedWithOne(Zeros(), 0) else ShiftedWithOne(w.seen, distance);
      Answer(Window(true, s, seen), true)
    else
      var distance := Offset(w.highest, s);
      if distance >= WINDOW_BITS || w.seen[distance] then Answer(w, false)
      else Answer(w.(seen := w.seen[distance := true]), true)
  }

  // ----- runs ----------------------------------------------------------------------------------------

  const EMPTY := Window(false, 0, Zeros())

  /** The window after packets whose senders counted them so. */
  function WindowAfter(run: seq<nat>): (w: Window)
    ensures |w.seen| == WINDOW_BITS
  {
    if run == [] then EMPTY else Accept(WindowAfter(run[..|run| - 1]), Wire(run[|run| - 1])).window
  }

  predicate AcceptedAt(run: seq<nat>, i: nat)
    requires i < |run|
  {
    Accept(WindowAfter(run[..i]), Wire(run[i])).ok
  }

  /** The numbers let through so far, and the highest of them. */
  function Passed(run: seq<nat>): set<nat> {
    if run == [] then {}
    else
      var n := |run| - 1;
      Passed(run[..n]) + if AcceptedAt(run, n) then {run[n]} else {}
  }

  function Highest(run: seq<nat>): nat {
    if run == [] then 0
    else
      var n := |run| - 1;
      if AcceptedAt(run, n) && run[n] > Highest(run[..n]) then run[n] else Highest(run[..n])
  }

  /** Every number arrives within half the number space of the highest let through. */
  ghost predicate InReach(run: seq<nat>) {
    forall i {:trigger run[i]} :: 0 <= i < |run| && Passed(run[..i]) != {} ==>
      -HALF <= run[i] - Highest(run[..i]) < HALF
  }

  /** The bits say which of the last 64 numbers went through. */
  ghost predicate Describes(w: Window, passed: set<nat>, highest: nat) {
    && |w.seen| == WINDOW_BITS
    && (w.initialized <==> passed != {})
    && (w.initialized ==>
          && w.highest == Wire(highest) && highest in passed && (forall n :: n in passed ==> n <= highest)
          && forall k: nat :: k < WINDOW_BITS ==> (w.seen[k] <==> k <= highest && highest - k in passed))
    && (!w.initialized ==> highest == 0)
  }

  /** What letting n through next means, without words or bits. */
  ghost predicate Fresh(n: nat, passed: set<nat>, highest: nat) {
    Wire(n) != 0 && (passed == {} || n > highest || (highest - n < WINDOW_BITS && n !in passed))
  }

  lemma Newer(n: nat, highest: nat)
    requires -HALF <= n - highest < HALF
    ensures After(Wire(n), Wire(highest)) <==> n > highest
    ensures n > highest ==> Offset(Wire(n), Wire(highest)) == n - highest
    ensures n <= highest ==> Offset(Wire(highest), Wire(n)) == highest - n
  {
    OffsetIs(n, highest);
    OffsetIs(highest, n);
    if n < highest {
      ModuloOf(n - highest, -1, n - highest + UINT32);
    }
  }

  /** One packet: let through exactly if fresh, and the bits stay right. */
  lemma StepDescribes(w: Window, passed: set<nat>, highest: nat, n: nat)
    requires Describes(w, passed, highest)
    requires passed != {} ==> -HALF <= n - highest < HALF
    ensures
      var a := Accept(w, Wire(n));
      && (a.ok <==> Fresh(n, passed, highest))
      && Describes(a.window, passed + (if a.ok then {n} else {}), if a.ok && n > highest then n else highest)
  {
    if Wire(n) != 0 && w.initialized {
      Newer(n, highest);
      if n <= highest && highest - n < WINDOW_BITS {
        var d := highest - n;
        assert w.seen[d] <==> n in passed;
      }
    } else if Wire(n) != 0 {
      assert n > 0;
    }
  }

  lemma {:induction false} AlwaysDescribes(run: seq<nat>)
    requires InReach(run)
    ensures Describes(WindowAfter(run), Passed(run), Highest(run))
  {
    if run == [] {
    } else {
      var n := |run| - 1;
      ReachOfPrefix(run, n);
      AlwaysDescribes(run[..n]);
      StepDescribes(WindowAfter(run[..n]), Passed(run[..n]), Highest(run[..n]), run[n]);
    }
  }

  lemma ReachOfPrefix(run: seq<nat>, n: nat)
    requires InReach(run) && n <= |run|
    ensures InReach(run[..n])
  {
    forall i | 0 <= i < n && Passed(run[..n][..i]) != {}
      ensures -HALF <= run[..n][i] - Highest(run[..n][..i]) < HALF
    {
      assert run[..n][..i] == run[..i] && run[..n][i] == run[i];
    }
  }

  /** A packet gets through exactly if its number is not 0 on the wire, is not 64 or more behind, and
      has not got through before. */
  lemma AcceptedIff(run: seq<nat>, i: nat)
    requires InReach(run) && i < |run|
    ensures AcceptedAt(run, i) <==> Fresh(run[i], Passed(run[..i]), Highest(run[..i]))
  {
    ReachOfPrefix(run, i);
    AlwaysDescribes(run[..i]);
    StepDescribes(WindowAfter(run[..i]), Passed(run[..i]), Highest(run[..i]), run[i]);
  }

  lemma {:induction false} PassedMeans(run: seq<nat>, i: nat, j: nat)
    requires i < j <= |run| && AcceptedAt(run, i)
    ensures run[i] in Passed(run[..j])
  {
    assert run[..j][..j - 1] == run[..j - 1];
    if i < j - 1 {
      PassedMeans(run, i, j - 1);
    } else {
      assert run[..j][..i] == run[..i];
    }
  }

  /** How far behind the highest number n lies, as 32 bits show it. */
  function Behind(n: nat, highest: nat): nat { (highest - n) % UINT32 }

  /** An old number passes for a new one if it is more than half the number space behind; or if it is
      whole turns of the number space old and stands where one of the last 64 has not arrived. */
  predicate Aliased(n: nat, passed: set<nat>, highest: nat) {
    var d := Behind(n, highest);
    d > HALF || (d < WINDOW_BITS && d <= highest && highest - d !in passed)
  }

  lemma AgainIff(w: Window, passed: set<nat>, highest: nat, n: nat)
    requires Describes(w, passed, highest) && n in passed && Wire(n) != 0
    ensures Accept(w, Wire(n)).ok <==> Aliased(n, passed, highest)
  {
    OffsetIs(highest, n);
    OffsetIs(n, highest);
    var d := Behind(n, highest);
    NegatedWire(highest - n);
    AtMostTheDifference(highest - n);
    assert d <= highest;
    if d < WINDOW_BITS {
      assert w.seen[d] <==> highest - d in passed;
    }
  }

  lemma NegatedWire(x: int)
    ensures Wire(-x) == if Wire(x) == 0 then 0 else UINT32 - Wire(x)
  {
    var q, r := x / UINT32, x % UINT32;
    if r == 0 {
      ModuloOf(-x, -q, 0);
    } else {
      ModuloOf(-x, -q - 1, UINT32 - r);
    }
  }

  lemma AtMostTheDifference(x: nat)
    ensures x % UINT32 <= x
  {
  }

  /** After any run in reach, a number that got through gets through again if and only if it is
      aliased. */
  lemma PassesAgainIff(run: seq<nat>, i: nat)
    requires i < |run| && InReach(run[..i]) && run[i] in Passed(run[..i]) && Wire(run[i]) != 0
    ensures AcceptedAt(run, i) <==> Aliased(run[i], Passed(run[..i]), Highest(run[..i]))
  {
    AlwaysDescribes(run[..i]);
    AgainIff(WindowAfter(run[..i]), Passed(run[..i]), Highest(run[..i]), run[i]);
  }

  /** However packets are repeated and reordered in reach, no number gets through twice. */
  lemma AtMostOnce(run: seq<nat>, i: nat, j: nat)
    requires InReach(run) && i < j < |run| && run[i] == run[j] && AcceptedAt(run, i)
    ensures !AcceptedAt(run, j)
  {
    PassedMeans(run, i, j);
    ReachOfPrefix(run, j);
    AlwaysDescribes(run[..j]);
    InReachAt(run, j);
    NotAliasedInReach(run[j], Passed(run[..j]), Highest(run[..j]));
    if Wire(run[j]) != 0 {
      PassesAgainIff(run, j);
    }
  }

  lemma InReachAt(run: seq<nat>, i: nat)
    requires InReach(run) && i < |run| && Passed(run[..i]) != {}
    ensures -HALF <= run[i] - Highest(run[..i]) < HALF
  {
  }

  lemma NotAliasedInReach(n: nat, passed: set<nat>, highest: nat)
    requires n in passed && n <= highest <= n + HALF
    ensures !Aliased(n, passed, highest)
  {
    assert Behind(n, highest) == highest - n;
  }

  /** Out of reach it happens: a number that got through gets through again once more than half the
      number space, modulo 2^32, lies between it and the highest. */
  lemma PassesAgainBeyondReach(run: seq<nat>, n: nat)
    requires InReach(run) && n in Passed(run) && Wire(n) != 0 && Behind(n, Highest(run)) > HALF
    ensures AcceptedAt(run + [n], |run|)
  {
    assert (run + [n])[..|run|] == run;
    PassesAgainIff(run + [n], |run|);
  }

  /** Such a run: one long jump in reach, and one step more. */
  lemma ReplayedBeyondReach()
    ensures var run: seq<nat> := [1, HALF, HALF + 65]; InReach(run) && AcceptedAt(run, 0) && AcceptedAt(run + [1], 3)
  {
    var run: seq<nat> := [1, HALF, HALF + 65];
    assert run[..0] == [] && run[..1] == [1] && run[..2] == [1, HALF] && run[..3] == run;
    assert run[..2][..1] == run[..1] && run[..3][..2] == run[..2] && run[..1][..0] == [];
    assert WindowAfter([1]) == Accept(EMPTY, 1).window;
    assert Passed([1]) == {1} && Highest([1]) == 1;
    assert AcceptedAt(run[..2], 1);
    assert Passed(run[..2]) == {1, HALF} && Highest(run[..2]) == HALF;
    assert InReach(run[..2]);
    AcceptedIff(run[..2], 1);
    assert InReach(run) by {
      forall i | 0 <= i < |run| && Passed(run[..i]) != {} ensures -HALF <= run[i] - Highest(run[..i]) < HALF {
      }
    }
    AcceptedIff(run, 2);
    assert Passed(run) == {1, HALF, HALF + 65} && Highest(run) == HALF + 65;
    PassesAgainBeyondReach(run, 1);
  }

  class Guard {
    var initialized: bool
    var highest: Word
    var seen: seq<bool>

    ghost predicate Valid()
      reads this
    {
      |seen| == WINDOW_BITS
    }

    ghost function Value(): Window
      reads this
    {
      Window(initialized, highest, seen)
    }

    constructor ()
      ensures Valid() && Value() == EMPTY
    {
      initialized, highest, seen := false, 0, Zeros();
    }

    method AcceptNumber(s: Word) returns (ok: bool)
      requires Valid()
      modifies this
      ensures Valid() && Value() == Accept(old(Value()), s).window && ok == Accept(old(Value()), s).ok
    {
      if s == 0 {
        return false;
      }
      if !initialized {
        initialized, highest, seen := true, s, ShiftedWithOne(Zeros(), 0);
        return true;
      }
      if After(s, highest) {
        var distance := Offset(s, highest);
        seen := if distance >= WINDOW_BITS then ShiftedWithOne(Zeros(), 0) else ShiftedWithOne(seen, distance);
        highest := s;
        return true;
      }
      var distance := Offset(highest, s);
      if distance >= WINDOW_BITS || seen[distance] {
        return false;
      }
      seen := seen[distance := true];
      return true;
    }
  }
}

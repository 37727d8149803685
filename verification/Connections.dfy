/** Where datagrams go and that they go at all: a connect leads to the endpoint it was asked for, senders
    that start once it is through deliver, and threads never block each other for good. */
module Connections {

  import opened Common
  import opened OutboundGuard

  // ----- the endpoint asked for last -------------------------------------------------------------------

  /** A connect has its endpoint to store next; a disconnect has it to clear next. */
  predicate AboutToConnect(th: Thread) { th.program.Start? && th.pc == 6 }

  predicate AboutToClear(th: Thread) { th.program.Disconnect? && th.pc == 9 }

  /** What the schedule says: the target of the last connect that got as far as storing it, nothing if a
      disconnect cleared it since, and the endpoint of the beginning before any of these. */
  function AskedFor(s: System, sch: Schedule): Endpoint {
    match sch
    case Begin => s.endpoint
    case After(earlier, t, _) =>
      var mid := Play(s, earlier);
      if !CanStep(mid, t) then AskedFor(s, earlier)
      else if AboutToConnect(mid.threads[t]) then mid.threads[t].program.target
      else if AboutToClear(mid.threads[t]) then 0
      else AskedFor(s, earlier)
  }

  /** Only these two steps change the endpoint, in any interleaving. */
  lemma {:induction false} EndpointIsAskedFor(s: System, sch: Schedule)
    ensures Play(s, sch).endpoint == AskedFor(s, sch)
  {
    if sch == Begin {
    } else {
      EndpointIsAskedFor(s, sch.earlier);
      var mid := Play(s, sch.earlier);
      if CanStep(mid, sch.t) {
        ExecShape(mid, sch.t, sch.ok);
        if !AboutToConnect(mid.threads[sch.t]) && !AboutToClear(mid.threads[sch.t]) {
          OnlyStoresChange(mid, sch.t, sch.ok);
        }
      }
    }
  }

  lemma OnlyStoresChange(s: System, t: Tid, ok: bool)
    requires CanStep(s, t) && !AboutToConnect(s.threads[t]) && !AboutToClear(s.threads[t])
    ensures Exec(s, t, ok).endpoint == s.endpoint
  {
    ExecShape(s, t, ok);
  }

  /** With no disconnect overlapping another change, whatever a step hands to the socket goes to the
      endpoint asked for last. */
  lemma EachGoesWhereAsked(s: System, sch: Schedule, t: Tid, ok: bool)
    requires Initial(s) && DisconnectsApartThroughout(s, After(sch, t, ok))
    ensures
      var before, now := Play(s, sch).sent, Play(s, After(sch, t, ok)).sent;
      now == before || (|now| == |before| + 1 && now[..|before|] == before && now[|before|].to == AskedFor(s, sch))
  {
    var mid := Play(s, sch);
    EndpointIsAskedFor(s, sch);
    if CanStep(mid, t) {
      ExecShape(mid, t, ok);
      PlayKeepsInv(s, sch);
      PlayKeepsInv(s, After(sch, t, ok));
      var now := Play(s, After(sch, t, ok)).sent;
      if now != mid.sent {
        assert now[|mid.sent|] == Datagram(mid.threads[t].endpoint, mid.endpoint);
      }
    }
  }

  // ----- a connect that gets through ----------------------------------------------------------------------

  /** A connect past its store finds its endpoint still in place, and a disconnect none. */
  ghost predicate TargetsInPlace(s: System) { forall t :: TargetInPlace(s, t) }

  predicate TargetInPlace(s: System, t: Tid) {
    t in s.threads ==>
      var th := s.threads[t];
      && (th.program.Start? && 7 <= th.pc <= 12 ==> s.endpoint == th.program.target)
      && (th.program.Disconnect? && 10 <= th.pc <= 11 ==> s.endpoint == 0)
  }

  lemma TargetsStay(s: System, t: Tid, ok: bool)
    requires CanStep(s, t) && Serialised(s) && TargetsInPlace(s)
    ensures TargetsInPlace(Exec(s, t, ok))
  {
    var s' := Exec(s, t, ok);
    ExecShape(s, t, ok);
    forall u ensures TargetInPlace(s', u) {
      assert TargetInPlace(s, u);
      assert u in s'.threads && u != t ==> s'.threads[u] == s.threads[u];
      assert BothChanging(s, t, u) ==> t == u;
    }
  }

  lemma {:induction false} TargetsAlwaysInPlace(s: System, sch: Schedule)
    requires Initial(s) && DisconnectsApartThroughout(s, sch)
    ensures TargetsInPlace(Play(s, sch))
  {
    if sch == Begin {
      forall t ensures TargetInPlace(s, t) {
      }
    } else {
      TargetsAlwaysInPlace(s, sch.earlier);
      PlayKeepsInv(s, sch.earlier);
      var mid := Play(s, sch.earlier);
      OneChangeAtATime(mid);
      if CanStep(mid, sch.t) {
        TargetsStay(mid, sch.t, sch.ok);
      }
    }
  }

  /** A connect that comes to its last step without failing leaves sending enabled, to its own target. */
  lemma ConnectEnables(s: System, sch: Schedule, t: Tid, ok: bool)
    requires Initial(s) && DisconnectsApartThroughout(s, sch) && CanStep(Play(s, sch), t)
    requires Play(s, sch).threads[t].program.Start? && Play(s, sch).threads[t].pc == 12
    ensures
      var after := Play(s, After(sch, t, ok));
      && after.enabled && after.endpoint == after.threads[t].program.target
      && after.threads[t] == Play(s, sch).threads[t].(pc := 13)
  {
    TargetsAlwaysInPlace(s, sch);
    assert TargetInPlace(Play(s, sch), t);
  }

  /** A disconnect that comes to its last step leaves sending disabled and no endpoint. */
  lemma DisconnectDisconnects(s: System, sch: Schedule, t: Tid, ok: bool)
    requires Initial(s) && DisconnectsApartThroughout(s, sch) && CanStep(Play(s, sch), t)
    requires Play(s, sch).threads[t].program.Disconnect? && Play(s, sch).threads[t].pc == 11
    ensures var after := Play(s, After(sch, t, ok)); !after.enabled && after.endpoint == 0
  {
    TargetsAlwaysInPlace(s, sch);
    PlayKeepsInv(s, sch);
    assert TargetInPlace(Play(s, sch), t) && Quiet(Play(s, sch).threads[t]);
  }

  /** A rebind that comes to its last step leaves sending enabled, to the endpoint asked for last. */
  lemma RebindEnables(s: System, sch: Schedule, t: Tid, ok: bool)
    requires CanStep(Play(s, sch), t) && Play(s, sch).threads[t].program.Rebind? && Play(s, sch).threads[t].pc == 11
    ensures var after := Play(s, After(sch, t, ok)); after.enabled && after.endpoint == AskedFor(s, sch)
  {
    EndpointIsAskedFor(s, sch);
  }

  // ----- senders deliver --------------------------------------------------------------------------------

  /** Sending is enabled, and this sender, if it has started, read the endpoint and generation in force. */
  predicate OnCourse(s: System, th: Thread) {
    && s.enabled && th.program.Send? && th.pc <= 12
    && (3 <= th.pc <= 10 ==> th.endpoint == s.endpoint) && (4 <= th.pc <= 10 ==> th.generation == s.generation)
  }

  /** This sender looked before the last change, and will find out, or is done. */
  predicate OffCourse(s: System, th: Thread) {
    s.enabled && th.program.Send? && th.pc <= 12 && (th.pc >= 11 || (4 <= th.pc <= 9 && th.generation != s.generation))
  }

  ghost predicate Settled(s: System) {
    forall t :: t in s.threads && s.threads[t].program.Send? ==> OnCourse(s, s.threads[t]) || OffCourse(s, s.threads[t])
  }

  /** Sender t has taken a step: on course, to its next instruction, handing its datagram over if it was its
      eleventh; off course, without handing anything over. */
  ghost predicate SenderMoved(s: System, s': System, t: Tid) {
    && t in s.threads && s'.threads.Keys == s.threads.Keys
    && s'.enabled == s.enabled && s'.generation == s.generation && s'.endpoint == s.endpoint
    && (forall u :: u in s.threads && u != t ==> s'.threads[u] == s.threads[u])
    && var th, th' := s.threads[t], s'.threads[t];
    && th'.program == th.program && th.pc <= th'.pc
    && (OnCourse(s, th) ==>
          && OnCourse(s', th') && th'.pc == th.pc + 1
          && s'.sent == s.sent + if th.pc == 10 then [Datagram(s.endpoint, s.endpoint)] else [])
    && (OffCourse(s, th) ==> OffCourse(s', th') && s'.sent == s.sent)
  }

  lemma SenderStep(s: System, t: Tid, ok: bool)
    requires CanStep(s, t) && (OnCourse(s, s.threads[t]) || OffCourse(s, s.threads[t]))
    ensures SenderMoved(s, Exec(s, t, ok), t)
  {
    assert s.sent + [] == s.sent;
  }

  /** Only senders move. */
  ghost predicate OnlySenders(s: System, sch: Schedule) {
    sch.After? ==> OnlySenders(s, sch.earlier) && (sch.t in s.threads ==> s.threads[sch.t].program.Send?)
  }

  /** Sender t was on course in s, and has handed its datagram over since. */
  predicate HandedOver(s: System, s': System, t: Tid) {
    && t in s.threads && t in s'.threads && OnCourse(s, s.threads[t])
    && s.threads[t].pc <= 10 && s'.threads[t].pc > 10
  }

  function Delivered(s: System, s': System): set<Tid> { set t | t in s.threads && HandedOver(s, s', t) }

  function Copies(d: Datagram, n: nat): (ds: seq<Datagram>)
    ensures |ds| == n && forall i :: 0 <= i < n ==> ds[i] == d
  {
    seq(n, _ => d)
  }

  /** A sender stays on the course it is on, and goes forward. */
  predicate Further(s: System, s': System, t: Tid) {
    && t in s.threads && t in s'.threads
    && s'.threads[t].program == s.threads[t].program && s.threads[t].pc <= s'.threads[t].pc
    && (OnCourse(s, s.threads[t]) ==> OnCourse(s', s'.threads[t]))
    && (OffCourse(s, s.threads[t]) ==> OffCourse(s', s'.threads[t]))
  }

  /** From s to s' senders moved, and each that was on course and has come to its end has had exactly one
      datagram handed over; nobody else has sent anything. */
  ghost predicate SentOnceEach(s: System, s': System) {
    && s'.enabled == s.enabled && s'.generation == s.generation && s'.endpoint == s.endpoint
    && s'.threads.Keys == s.threads.Keys && (forall t :: t in s.threads ==> Further(s, s', t))
    && s'.sent == s.sent + Copies(Datagram(s.endpoint, s.endpoint), |Delivered(s, s')|)
  }

  /** While no change gets in between, in any interleaving of any number of senders, exactly one datagram
      per sender on course goes out, to the endpoint in force, as the sender gets to its end. */
  lemma {:induction false} SendersDeliver(s: System, sch: Schedule)
    requires Settled(s) && OnlySenders(s, sch)
    ensures SentOnceEach(s, Play(s, sch))
  {
    if sch == Begin {
      assert Delivered(s, s) == {};
      assert s.sent + [] == s.sent;
    } else {
      SendersDeliver(s, sch.earlier);
      var mid := Play(s, sch.earlier);
      if CanStep(mid, sch.t) {
        assert Further(s, mid, sch.t);
        SenderStep(mid, sch.t, sch.ok);
        OneMoreSender(s, mid, Exec(mid, sch.t, sch.ok), sch.t);
      }
    }
  }

  lemma OneMoreSender(s: System, mid: System, s': System, t: Tid)
    requires SentOnceEach(s, mid) && SenderMoved(mid, s', t)
    requires OnCourse(s, s.threads[t]) || OffCourse(s, s.threads[t])
    ensures SentOnceEach(s, s')
  {
    assert Further(s, mid, t);
    forall u | u in s.threads ensures Further(s, s', u) {
      assert Further(s, mid, u);
    }
    var here := OnCourse(s, s.threads[t]) && mid.threads[t].pc == 10;
    DeliveredBy(s, mid, s', t, here);
    if here {
      OneMoreCopy(s.sent, Datagram(s.endpoint, s.endpoint), |Delivered(s, mid)|);
    } else {
      assert mid.sent + [] == mid.sent;
    }
  }

  lemma OneMoreCopy(sent: seq<Datagram>, d: Datagram, n: nat)
    ensures sent + Copies(d, n) + [d] == sent + Copies(d, n + 1)
  {
  }

  lemma DeliveredBy(s: System, mid: System, s': System, t: Tid, here: bool)
    requires t in s.threads && s.threads.Keys == mid.threads.Keys == s'.threads.Keys
    requires forall u :: u in s.threads && u != t ==> (HandedOver(s, s', u) <==> HandedOver(s, mid, u))
    requires HandedOver(s, s', t) <==> HandedOver(s, mid, t) || here
    requires here ==> !HandedOver(s, mid, t)
    ensures |Delivered(s, s')| == |Delivered(s, mid)| + if here then 1 else 0
  {
    if here {
      assert Delivered(s, s') == Delivered(s, mid) + {t} && t !in Delivered(s, mid);
    } else {
      assert Delivered(s, s') == Delivered(s, mid);
    }
  }

  // ----- a connect, and then senders ---------------------------------------------------------------------

  /** When a connect gets through, senders that looked before it are off course, and all others on course. */
  lemma ConnectSettles(s: System, t: Tid, ok: bool)
    requires Inv(s) && Serialised(s) && CanStep(s, t) && s.threads[t].program.Start? && s.threads[t].pc == 12
    ensures Settled(Exec(s, t, ok))
  {
    var s' := Exec(s, t, ok);
    forall u | u in s'.threads && s'.threads[u].program.Send?
      ensures OnCourse(s', s'.threads[u]) || OffCourse(s', s'.threads[u])
    {
      assert s'.threads[u] == s.threads[u] && SnapshotOk(s, s.threads[u]);
      assert AnyPastSocket(s);
      forall w | w in s.threads ensures !MidSwap(s.threads[w]) {
        assert BothChanging(s, t, w) ==> t == w;
      }
    }
  }

  /** A connect that gets through delivers: from then on, until the next change, exactly the senders that
      come to their end on course have had one datagram each handed over, to the connect's own target. */
  lemma ConnectedSendersDeliver(s: System, sch: Schedule, t: Tid, ok: bool, more: Schedule, target: Endpoint)
    requires Initial(s) && DisconnectsApartThroughout(s, sch) && CanStep(Play(s, sch), t)
    requires Play(s, sch).threads[t].program == Start(target) && Play(s, sch).threads[t].pc == 12
    requires OnlySenders(Play(s, After(sch, t, ok)), more)
    ensures
      var connected := Play(s, After(sch, t, ok));
      var later := Play(connected, more);
      later.sent == connected.sent + Copies(Datagram(target, target), |Delivered(connected, later)|)
  {
    ConnectEnables(s, sch, t, ok);
    PlayKeepsInv(s, sch);
    OneChangeAtATime(Play(s, sch));
    ConnectSettles(Play(s, sch), t, ok);
    SendersDeliver(Play(s, After(sch, t, ok)), more);
  }

  // ----- nobody blocks for good --------------------------------------------------------------------------

  predicate Unfinished(s: System, t: Tid) { t in s.threads && s.threads[t].pc < End(s.threads[t].program) }

  /** Whoever holds a lock needs no other. */
  lemma HolderCanStep(s: System, t: Tid)
    requires t in s.threads && (HoldsSocket(s.threads[t]) || HoldsEndpoint(s.threads[t]))
    ensures CanStep(s, t)
  {
  }

  lemma SomeoneCan(s: System, t: Tid) returns (u: Tid)
    requires LocksHeld(s) && Unfinished(s, t) && (s.threads[t].pc > 0 || !OnIo(s.threads[t].program))
    ensures CanStep(s, u)
  {
    u := t;
    if !CanStep(s, t) {
      u := if s.socketLock.Some? && Code(s.threads[t].program, s.threads[t].pc).LockSocket?
           then s.socketLock.value else s.endpointLock.value;
      HolderCanStep(s, u);
    }
  }

  /** In every reachable state in which some thread has not finished, some thread can move. */
  lemma NoDeadlock(s: System, sch: Schedule, t: Tid) returns (u: Tid)
    requires Initial(s) && DisconnectsApartThroughout(s, sch) && Unfinished(Play(s, sch), t)
    ensures CanStep(Play(s, sch), u)
  {
    PlayKeepsInv(s, sch);
    var now := Play(s, sch);
    if now.threads[t].pc > 0 || !OnIo(now.threads[t].program) {
      u := SomeoneCan(now, t);
    } else if IoFree(now) {
      u := t;
      if !CanStep(now, t) {
        u := now.endpointLock.value;
        HolderCanStep(now, u);
      }
    } else {
      var busy :| busy in now.threads && OnIo(now.threads[busy].program) && Changing(now.threads[busy]);
      u := SomeoneCan(now, busy);
    }
  }
}

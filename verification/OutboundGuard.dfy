/** Sending datagrams while the connection changes under the senders' feet. Every load, store,
    lock and unlock is one step; any number of sender threads and connection changes interleave.
    Atomic operations are taken as sequentially consistent and the generation as unbounded. */
module OutboundGuard {

  import opened Common

  type Tid = nat
  type Endpoint = nat   // 0 is the empty endpoint

  datatype Program =
    | Send(posted: bool)          // synchronous audio send, or a send posted to the io thread
    | Start(target: Endpoint)     // connect to a resolved endpoint
    | Disconnect(notify: bool)
    | Rebind

  datatype Instr =
    | LockEndpoint | UnlockEndpoint | LockSocket | UnlockSocket
    | LoadEndpoint | LoadGeneration
    | QuitUnlessEnabled | QuitUnlessCurrent          // checks made before taking the socket
    | ReleaseUnlessEnabled | ReleaseUnlessCurrent    // checks made while holding the socket
    | SendDatagram
    | Disable | Enable | BumpGeneration | StoreEndpoint
    | QuitUnlessConnected | MayFail | MayFailLocked | SendLeave
    | Nop

  function Code(p: Program, pc: nat): Instr {
    match p
    case Send(posted) => (
      match pc
      case 0 => QuitUnlessEnabled
      case 1 => LockEndpoint case 2 => LoadEndpoint case 3 => LoadGeneration case 4 => UnlockEndpoint
      case 5 => if posted then QuitUnlessEnabled else Nop
      case 6 => if posted then QuitUnlessCurrent else Nop
      case 7 => LockSocket case 8 => ReleaseUnlessEnabled case 9 => ReleaseUnlessCurrent
      case 10 => SendDatagram case 11 => UnlockSocket
      case _ => Nop)
    case Start(_) => (
      match pc
      case 0 => Disable case 1 => BumpGeneration
      case 2 => LockSocket case 3 => UnlockSocket
      case 4 => MayFail
      case 5 => LockEndpoint case 6 => StoreEndpoint case 7 => BumpGeneration case 8 => UnlockEndpoint
      case 9 => LockSocket case 10 => MayFailLocked case 11 => UnlockSocket
      case 12 => Enable
      case _ => Nop)
    case Disconnect(_) => (
      match pc
      case 0 => LockEndpoint case 1 => LoadEndpoint case 2 => UnlockEndpoint
      case 3 => Disable case 4 => BumpGeneration
      case 5 => LockSocket case 6 => SendLeave case 7 => UnlockSocket
      case 8 => LockEndpoint case 9 => StoreEndpoint case 10 => BumpGeneration case 11 => UnlockEndpoint
      case _ => Nop)
    case Rebind => (
      match pc
      case 0 => LockEndpoint case 1 => LoadEndpoint case 2 => UnlockEndpoint
      case 3 => QuitUnlessConnected case 4 => MayFail
      case 5 => Disable case 6 => BumpGeneration
      case 7 => LockSocket case 8 => SendLeave case 9 => UnlockSocket
      case 10 => BumpGeneration case 11 => Enable
      case _ => Nop)
  }

  function End(p: Program): nat { if p.Start? then 13 else 12 }

  /** A thread: where it is in its program, and the endpoint and generation it has read. */
  datatype Thread = Thread(program: Program, pc: nat, endpoint: Endpoint, generation: nat)

  /** A datagram handed to the socket, with the endpoint that was current at that moment. */
  datatype Datagram = Datagram(to: Endpoint, current: Endpoint)

  datatype System = System(
    enabled: bool,
    generation: nat,
    endpoint: Endpoint,
    endpointLock: Option<Tid>,
    socketLock: Option<Tid>,
    threads: map<Tid, Thread>,
    sent: seq<Datagram>)

  predicate CanStep(s: System, t: Tid) {
    && t in s.threads && s.threads[t].pc < End(s.threads[t].program)
    && var i := Code(s.threads[t].program, s.threads[t].pc);
       && (i.LockEndpoint? ==> s.endpointLock.None?)
       && (i.LockSocket? ==> s.socketLock.None?)
       && (s.threads[t].pc == 0 && OnIo(s.threads[t].program) ==> IoFree(s))
  }

  /** Connects and rebinds run on the one io thread, which starts one only when the last is done. A
      disconnect may come from any thread. */
  predicate OnIo(p: Program) { p.Start? || p.Rebind? }

  predicate Changing(th: Thread) { !th.program.Send? && 0 < th.pc < End(th.program) }

  predicate IoFree(s: System) { forall t :: t in s.threads && OnIo(s.threads[t].program) ==> !Changing(s.threads[t]) }

  function Goto(s: System, t: Tid, pc: nat): System
    requires t in s.threads
  {
    s.(threads := s.threads[t := s.threads[t].(pc := pc)])
  }

  function Exec(s: System, t: Tid, ok: bool): System
    requires CanStep(s, t)
  {
    var th := s.threads[t];
    var next := Goto(s, t, th.pc + 1);
    var quit := Goto(s, t, End(th.program));
    match Code(th.program, th.pc)
    case LockEndpoint => next.(endpointLock := Some(t))
    case UnlockEndpoint => next.(endpointLock := None)
    case LockSocket => next.(socketLock := Some(t))
    case UnlockSocket => next.(socketLock := None)
    case LoadEndpoint => s.(threads := s.threads[t := th.(pc := th.pc + 1, endpoint := s.endpoint)])
    case LoadGeneration => s.(threads := s.threads[t := th.(pc := th.pc + 1, generation := s.generation)])
    case QuitUnlessEnabled => if s.enabled then next else quit
    case QuitUnlessCurrent => if s.generation == th.generation then next else quit
    case ReleaseUnlessEnabled => if s.enabled then next else Goto(s, t, 11)
    case ReleaseUnlessCurrent => if s.generation == th.generation then next else Goto(s, t, 11)
    case SendDatagram => next.(sent := s.sent + [Datagram(th.endpoint, s.endpoint)])
    case Disable => next.(enabled := false)
    case Enable => next.(enabled := true)
    case BumpGeneration => next.(generation := s.generation + 1)
    case StoreEndpoint => next.(endpoint := if th.program.Start? then th.program.target else 0)
    case QuitUnlessConnected => if th.endpoint != 0 && s.enabled then next else quit
    case MayFail => if ok then next else quit
    case MayFailLocked => if ok then next else quit.(socketLock := None)
    case SendLeave =>
      if (th.program.Disconnect? && !th.program.notify) || th.endpoint == 0 then next
      else next.(sent := s.sent + [Datagram(th.endpoint, s.endpoint)])
    case Nop => next
  }

  /** An interleaving: which thread moved, step by step, and how its fallible step came out. */
  datatype Schedule = Begin | After(earlier: Schedule, t: Tid, ok: bool)

  /** Picking a thread that is blocked or finished leaves the system as it is. */
  function Play(s: System, sch: Schedule): System {
    match sch
    case Begin => s
    case After(earlier, t, ok) => Try(Play(s, earlier), t, ok)
  }

  function Try(s: System, t: Tid, ok: bool): System {
    if CanStep(s, t) then Exec(s, t, ok) else s
  }

  predicate BothChanging(s: System, t: Tid, u: Tid) {
    t in s.threads && u in s.threads && Changing(s.threads[t]) && Changing(s.threads[u])
  }

  /** No two connection changes are under way at once. */
  ghost predicate Serialised(s: System) { forall t, u :: BothChanging(s, t, u) ==> t == u }

  /** No disconnect is under way together with another change. */
  ghost predicate DisconnectsApart(s: System) {
    forall t, u :: BothChanging(s, t, u) && s.threads[t].program.Disconnect? ==> t == u
  }

  ghost predicate DisconnectsApartThroughout(s: System, sch: Schedule) {
    DisconnectsApart(Play(s, sch)) && (sch.After? ==> DisconnectsApartThroughout(s, sch.earlier))
  }

  /** The io thread runs one change at a time. */
  ghost predicate IoSerialised(s: System) {
    forall t, u :: BothChanging(s, t, u) && OnIo(s.threads[t].program) && OnIo(s.threads[u].program) ==> t == u
  }

  ghost predicate AllCurrent(s: System) {
    forall i :: 0 <= i < |s.sent| ==> s.sent[i].to == s.sent[i].current
  }

  /** Nothing has run yet: no locks held, every thread at its first instruction. */
  ghost predicate Initial(s: System) {
    && s.endpointLock.None? && s.socketLock.None? && s.sent == []
    && forall t :: t in s.threads ==> s.threads[t].pc == 0
  }

  // ----- where in a change things hold -----------------------------------------------------------

  predicate HoldsEndpoint(th: Thread) {
    match th.program
    case Send(_) => 2 <= th.pc <= 4
    case Start(_) => 6 <= th.pc <= 8
    case Disconnect(_) => 1 <= th.pc <= 2 || 9 <= th.pc <= 11
    case Rebind => 1 <= th.pc <= 2
  }

  predicate HoldsSocket(th: Thread) {
    match th.program
    case Send(_) => 8 <= th.pc <= 11
    case Start(_) => th.pc == 3 || 10 <= th.pc <= 11
    case Disconnect(_) => 6 <= th.pc <= 7
    case Rebind => 8 <= th.pc <= 9
  }

  /** The change has disabled sending and not yet enabled it again. */
  predicate Quiet(th: Thread) {
    match th.program
    case Send(_) => false
    case Start(_) => 1 <= th.pc <= 12
    case Disconnect(_) => 4 <= th.pc <= 11
    case Rebind => 6 <= th.pc <= 11
  }

  /** The change is past the point where it had to wait for the socket. */
  predicate PastSocket(th: Thread) {
    match th.program
    case Send(_) => false
    case Start(_) => 3 <= th.pc <= 12
    case Disconnect(_) => 6 <= th.pc <= 11
    case Rebind => 8 <= th.pc <= 11
  }

  /** Between storing the new endpoint and announcing it with a new generation. */
  predicate MidSwap(th: Thread) {
    (th.program.Start? && th.pc == 7) || (th.program.Disconnect? && th.pc == 10)
  }

  ghost predicate LocksHeld(s: System) {
    && (forall t :: t in s.threads ==> (HoldsEndpoint(s.threads[t]) <==> s.endpointLock == Some(t)))
    && (forall t :: t in s.threads ==> (HoldsSocket(s.threads[t]) <==> s.socketLock == Some(t)))
    && (s.endpointLock.Some? ==> s.endpointLock.value in s.threads)
    && (s.socketLock.Some? ==> s.socketLock.value in s.threads)
  }

  ghost predicate QuietMeansDisabled(s: System) {
    forall t :: t in s.threads && Quiet(s.threads[t]) ==> !s.enabled
  }

  ghost predicate AnyMidSwap(s: System) { exists t :: t in s.threads && MidSwap(s.threads[t]) }
  ghost predicate AnyPastSocket(s: System) { exists t :: t in s.threads && PastSocket(s.threads[t]) }

  /** What a sender's snapshot is worth at each point of its program. */
  ghost predicate SnapshotOk(s: System, th: Thread)
    requires th.program.Send?
  {
    && (th.pc == 3 ==> th.endpoint == s.endpoint)
    && (4 <= th.pc <= 10 ==>
          th.generation <= s.generation &&
          (th.generation == s.generation ==> th.endpoint == s.endpoint || AnyMidSwap(s)))
    && (9 <= th.pc <= 10 ==> !AnyPastSocket(s))
    && (th.pc == 10 ==> th.endpoint == s.endpoint)
  }

  /** A change still knows the endpoint it will say goodbye to. */
  ghost predicate TargetOk(s: System, th: Thread) {
    && (th.program.Disconnect? && 2 <= th.pc <= 6 ==> th.endpoint == s.endpoint)
    && (th.program.Rebind? && 2 <= th.pc <= 8 ==> th.endpoint == s.endpoint)
  }

  ghost predicate Inv(s: System) {
    && LocksHeld(s)
    && QuietMeansDisabled(s)
    && (forall t :: t in s.threads ==> s.threads[t].pc <= End(s.threads[t].program))
    && (forall t :: t in s.threads && s.threads[t].program.Send? ==> SnapshotOk(s, s.threads[t]))
    && (forall t :: t in s.threads ==> TargetOk(s, s.threads[t]))
    && AllCurrent(s)
  }

  /** Everything the proof needs to know about one step, without the program text. */
  ghost predicate Shape(s: System, s': System, t: Tid) {
    && t in s.threads && t in s'.threads
    && var th, th' := s.threads[t], s'.threads[t];
    && s'.threads == s.threads[t := th']
    && th'.program == th.program && th'.pc <= End(th.program) && (th'.pc == th.pc + 1 || th.pc < 11 <= th'.pc)
    && LockShape(s.endpointLock, s'.endpointLock, t, HoldsEndpoint(th), HoldsEndpoint(th'))
    && LockShape(s.socketLock, s'.socketLock, t, HoldsSocket(th), HoldsSocket(th'))
    && ChangeShape(s, s', th, th')
    && SenderShape(s, s', th, th')
    && (s'.sent == s.sent || s'.sent == s.sent + [Datagram(th.endpoint, s.endpoint)])
    && (s'.sent != s.sent ==>
          || (th.program.Send? && th.pc == 10) || (th.program.Disconnect? && th.pc == 6)
          || (th.program.Rebind? && th.pc == 8))
  }

  ghost predicate LockShape(lock: Option<Tid>, lock': Option<Tid>, t: Tid, held: bool, held': bool) {
    if held == held' then lock' == lock
    else if held' then lock.None? && lock' == Some(t)
    else lock'.None?
  }

  ghost predicate ChangeShape(s: System, s': System, th: Thread, th': Thread) {
    && (s'.enabled && !s.enabled ==> Changing(th) && !Quiet(th'))
    && (Quiet(th') ==> Quiet(th) || !s'.enabled)
    && (s'.endpoint != s.endpoint ==> Changing(th) && HoldsEndpoint(th) && PastSocket(th))
    && (MidSwap(th') ==> HoldsEndpoint(th))
    && (s'.endpoint != s.endpoint ==> MidSwap(th'))
    && (th.program.Start? && th.pc == 6 ==> s'.endpoint == th.program.target)
    && (th.program.Disconnect? && th.pc == 9 ==> s'.endpoint == 0)
    && s.generation <= s'.generation
    && (MidSwap(th) ==> s'.generation == s.generation + 1)
    && (PastSocket(th') && !PastSocket(th) ==> s.socketLock.None?)
    && (!th.program.Send? && th'.endpoint != th.endpoint ==> th'.endpoint == s.endpoint)
    && ((th.program.Disconnect? || th.program.Rebind?) && th.pc == 1 ==> th'.endpoint == s'.endpoint)
    && ((th.program.Disconnect? || th.program.Rebind?) && th.pc != 1 ==> th'.endpoint == th.endpoint)
  }

  ghost predicate SenderShape(s: System, s': System, th: Thread, th': Thread) {
    th.program.Send? ==>
      && s'.endpoint == s.endpoint && s'.generation == s.generation && s'.enabled == s.enabled
      && (if th.pc == 2 then th'.endpoint == s.endpoint else th'.endpoint == th.endpoint)
      && (if th.pc == 3 then th'.generation == s.generation else th'.generation == th.generation)
      && (th.pc == 8 && th'.pc == 9 ==> s.enabled)
      && (th.pc == 9 && th'.pc == 10 ==> th.generation == s.generation)
  }

  lemma ExecShape(s: System, t: Tid, ok: bool)
    requires CanStep(s, t)
    ensures Shape(s, Exec(s, t, ok), t)
  {
    match s.threads[t].program
    case Send(_) => SendShape(s, t, ok);
    case Start(_) => StartShape(s, t, ok);
    case Disconnect(_) => DisconnectShape(s, t, ok);
    case Rebind => RebindShape(s, t, ok);
  }

  lemma SendShape(s: System, t: Tid, ok: bool)
    requires CanStep(s, t) && s.threads[t].program.Send?
    ensures Shape(s, Exec(s, t, ok), t)
  {
  }

  lemma StartShape(s: System, t: Tid, ok: bool)
    requires CanStep(s, t) && s.threads[t].program.Start?
    ensures Shape(s, Exec(s, t, ok), t)
  {
    if s.threads[t].pc < 6 {
      StartShapeEarly(s, t, ok);
    } else {
      StartShapeLate(s, t, ok);
    }
  }

  lemma StartShapeEarly(s: System, t: Tid, ok: bool)
    requires CanStep(s, t) && s.threads[t].program.Start? && s.threads[t].pc < 6
    ensures Shape(s, Exec(s, t, ok), t)
  {
  }

  lemma StartShapeLate(s: System, t: Tid, ok: bool)
    requires CanStep(s, t) && s.threads[t].program.Start? && s.threads[t].pc >= 6
    ensures Shape(s, Exec(s, t, ok), t)
  {
  }

  lemma DisconnectShape(s: System, t: Tid, ok: bool)
    requires CanStep(s, t) && s.threads[t].program.Disconnect?
    ensures Shape(s, Exec(s, t, ok), t)
  {
  }

  lemma RebindShape(s: System, t: Tid, ok: bool)
    requires CanStep(s, t) && s.threads[t].program.Rebind?
    ensures Shape(s, Exec(s, t, ok), t)
  {
  }

  lemma LocksKept(s: System, s': System, t: Tid)
    requires Shape(s, s', t) && LocksHeld(s)
    ensures LocksHeld(s')
  {
  }

  lemma QuietKept(s: System, s': System, t: Tid)
    requires Shape(s, s', t) && QuietMeansDisabled(s) && Serialised(s)
    ensures QuietMeansDisabled(s')
  {
    forall u | u in s'.threads && Quiet(s'.threads[u]) ensures !s'.enabled {
      assert Changing(s'.threads[u]);
      assert u != t ==> s'.threads[u] == s.threads[u];
      assert BothChanging(s, t, u) ==> t == u;
    }
  }

  lemma TargetsKept(s: System, s': System, t: Tid)
    requires Shape(s, s', t) && Serialised(s)
    requires forall u :: u in s.threads ==> TargetOk(s, s.threads[u])
    ensures forall u :: u in s'.threads ==> TargetOk(s', s'.threads[u])
  {
    forall u | u in s'.threads ensures TargetOk(s', s'.threads[u]) {
      assert TargetOk(s, s.threads[u]);
      assert u != t ==> s'.threads[u] == s.threads[u];
      assert BothChanging(s, t, u) ==> t == u;
      assert u != t && Changing(s.threads[u]) ==> s'.endpoint == s.endpoint;
    }
  }

  lemma PastSocketIsQuiet(th: Thread)
    ensures PastSocket(th) ==> Quiet(th)
  {
  }

  /** A sender that passed the enable check while holding the socket keeps every change waiting. */
  lemma SocketKeepsChangesOut(s: System, s': System, t: Tid, u: Tid)
    requires Shape(s, s', t) && Inv(s)
    requires u in s'.threads && s'.threads[u].program.Send? && 9 <= s'.threads[u].pc <= 10
    ensures !AnyPastSocket(s')
  {
    var th := s.threads[u];
    assert SnapshotOk(s, th) && HoldsSocket(th);
    forall w | w in s'.threads ensures !PastSocket(s'.threads[w]) {
      assert w != t ==> s'.threads[w] == s.threads[w];
      PastSocketIsQuiet(s.threads[w]);
    }
  }

  lemma SnapshotKept(s: System, s': System, t: Tid, u: Tid)
    requires Shape(s, s', t) && Inv(s)
    requires u in s'.threads && s'.threads[u].program.Send?
    ensures SnapshotOk(s', s'.threads[u])
  {
    var th, th' := s.threads[u], s'.threads[u];
    assert SnapshotOk(s, th);
    if 9 <= th'.pc <= 10 {
      SocketKeepsChangesOut(s, s', t, u);
    }
    assert s'.endpoint != s.endpoint ==> AnyMidSwap(s');
    forall w | w in s.threads && w != t && MidSwap(s.threads[w]) ensures AnyMidSwap(s') {
      assert s'.threads[w] == s.threads[w];
    }
    assert forall w :: w in s.threads && MidSwap(s.threads[w]) ==> PastSocket(s.threads[w]);
  }

  lemma SentKept(s: System, s': System, t: Tid)
    requires Shape(s, s', t) && Inv(s)
    ensures AllCurrent(s')
  {
    var th := s.threads[t];
    assert TargetOk(s, th);
    assert th.program.Send? ==> SnapshotOk(s, th);
  }

  lemma StepKeepsInv(s: System, t: Tid, ok: bool)
    requires CanStep(s, t) && Inv(s) && Serialised(s)
    ensures Inv(Exec(s, t, ok))
  {
    var s' := Exec(s, t, ok);
    ExecShape(s, t, ok);
    StepInv(s, s', t);
  }

  lemma StepInv(s: System, s': System, t: Tid)
    requires Shape(s, s', t) && Inv(s) && Serialised(s)
    ensures Inv(s')
  {
    LocksKept(s, s', t);
    QuietKept(s, s', t);
    TargetsKept(s, s', t);
    SentKept(s, s', t);
    forall u | u in s'.threads && s'.threads[u].program.Send? ensures SnapshotOk(s', s'.threads[u]) {
      SnapshotKept(s, s', t, u);
    }
  }

  lemma IoStaysSerialised(s: System, t: Tid, ok: bool)
    requires CanStep(s, t) && IoSerialised(s)
    ensures IoSerialised(Exec(s, t, ok))
  {
    var s' := Exec(s, t, ok);
    ExecShape(s, t, ok);
    forall u, v | BothChanging(s', u, v) && OnIo(s'.threads[u].program) && OnIo(s'.threads[v].program)
      ensures u == v
    {
      assert u != t ==> s'.threads[u] == s.threads[u];
      assert v != t ==> s'.threads[v] == s.threads[v];
      assert BothChanging(s, u, v) ==> u == v;
    }
  }

  lemma {:induction false} PlayKeepsInv(s: System, sch: Schedule)
    requires Initial(s) && DisconnectsApartThroughout(s, sch)
    ensures Inv(Play(s, sch)) && IoSerialised(Play(s, sch))
  {
    if sch == Begin {
    } else {
      PlayKeepsInv(s, sch.earlier);
      var mid := Play(s, sch.earlier);
      OneChangeAtATime(mid);
      if CanStep(mid, sch.t) {
        StepKeepsInv(mid, sch.t, sch.ok);
        IoStaysSerialised(mid, sch.t, sch.ok);
      }
    }
  }

  lemma OneChangeAtATime(s: System)
    requires DisconnectsApart(s) && IoSerialised(s)
    ensures Serialised(s)
  {
    forall t, u | BothChanging(s, t, u) ensures t == u {
      assert BothChanging(s, u, t);
    }
  }

  /** With no disconnect overlapping another change, whatever the senders do, every datagram handed to
      the socket is addressed to the server endpoint current at that moment. */
  lemma SendsReachCurrentEndpoint(s: System, sch: Schedule)
    requires Initial(s) && DisconnectsApartThroughout(s, sch)
    ensures AllCurrent(Play(s, sch))
  {
    PlayKeepsInv(s, sch);
  }

  // ----- why disconnects have to be kept apart -----------------------------------------------------

  /** Thread t alone for n steps. */
  function Solo(s: System, t: Tid, n: nat): System {
    if n == 0 then s else Try(Solo(s, t, n - 1), t, true)
  }

  lemma {:induction false} PlayOn(s: System, sch: Schedule, t: Tid, n: nat) returns (longer: Schedule)
    ensures Play(s, longer) == Solo(Play(s, sch), t, n)
  {
    longer := sch;
    if n == 0 {
    } else {
      var shorter := PlayOn(s, sch, t, n - 1);
      longer := After(shorter, t, true);
    }
  }

  /** A system of one sender, one disconnect and one rebind, field by field. */
  ghost predicate Is(s: System, enabled: bool, generation: nat, endpoint: Endpoint, locks: (Option<Tid>, Option<Tid>),
                     sender: (nat, Endpoint, nat), disconnect: (nat, Endpoint), rebind: (nat, Endpoint),
                     sent: seq<Datagram>) {
    && s.enabled == enabled && s.generation == generation && s.endpoint == endpoint
    && s.endpointLock == locks.0 && s.socketLock == locks.1
    && s.threads.Keys == {0, 1, 2}
    && s.threads[0] == Thread(Send(false), sender.0, sender.1, sender.2)
    && s.threads[1] == Thread(Disconnect(true), disconnect.0, disconnect.1, 0)
    && s.threads[2] == Thread(Rebind, rebind.0, rebind.1, 0)
    && s.sent == sent
  }

  /** The rebind, on the io thread, finds the connection up. */
  lemma RebindLooks(s: System)
    requires Is(s, true, 0, 1, (None, None), (0, 0, 0), (0, 0), (0, 0), [])
    ensures Is(Solo(s, 2, 5), true, 0, 1, (None, None), (0, 0, 0), (0, 0), (5, 1), [])
  {
    assert IoFree(s);
    assert Is(Solo(s, 2, 1), true, 0, 1, (Some(2), None), (0, 0, 0), (0, 0), (1, 0), []);
    assert Is(Solo(s, 2, 2), true, 0, 1, (Some(2), None), (0, 0, 0), (0, 0), (2, 1), []);
    assert Is(Solo(s, 2, 3), true, 0, 1, (None, None), (0, 0, 0), (0, 0), (3, 1), []);
    assert Is(Solo(s, 2, 4), true, 0, 1, (None, None), (0, 0, 0), (0, 0), (4, 1), []);
  }

  const LEAVE := [Datagram(1, 1)]

  /** The disconnect, on the user's thread, disables sending. */
  lemma DisconnectDisables(s: System)
    requires Is(s, true, 0, 1, (None, None), (0, 0, 0), (0, 0), (5, 1), [])
    ensures Is(Solo(s, 1, 4), false, 0, 1, (None, None), (0, 0, 0), (4, 1), (5, 1), [])
  {
    assert Is(Solo(s, 1, 1), true, 0, 1, (Some(1), None), (0, 0, 0), (1, 0), (5, 1), []);
    assert Is(Solo(s, 1, 2), true, 0, 1, (Some(1), None), (0, 0, 0), (2, 1), (5, 1), []);
    assert Is(Solo(s, 1, 3), true, 0, 1, (None, None), (0, 0, 0), (3, 1), (5, 1), []);
  }

  /** It says goodbye and lets go of the socket. */
  lemma DisconnectLeaves(s: System)
    requires Is(s, false, 0, 1, (None, None), (0, 0, 0), (4, 1), (5, 1), [])
    ensures Is(Solo(s, 1, 4), false, 1, 1, (None, None), (0, 0, 0), (8, 1), (5, 1), LEAVE)
  {
    assert Is(Solo(s, 1, 1), false, 1, 1, (None, None), (0, 0, 0), (5, 1), (5, 1), []);
    assert Is(Solo(s, 1, 2), false, 1, 1, (None, Some(1)), (0, 0, 0), (6, 1), (5, 1), []);
    assert Is(Solo(s, 1, 3), false, 1, 1, (None, Some(1)), (0, 0, 0), (7, 1), (5, 1), LEAVE);
  }

  /** The rebind runs to its end and enables sending again. */
  lemma RebindEnablesAgain(s: System)
    requires Is(s, false, 1, 1, (None, None), (0, 0, 0), (8, 1), (5, 1), LEAVE)
    ensures Is(Solo(s, 2, 7), true, 3, 1, (None, None), (0, 0, 0), (8, 1), (12, 1), LEAVE + LEAVE)
  {
    assert Is(Solo(s, 2, 1), false, 1, 1, (None, None), (0, 0, 0), (8, 1), (6, 1), LEAVE);
    assert Is(Solo(s, 2, 2), false, 2, 1, (None, None), (0, 0, 0), (8, 1), (7, 1), LEAVE);
    assert Is(Solo(s, 2, 3), false, 2, 1, (None, Some(2)), (0, 0, 0), (8, 1), (8, 1), LEAVE);
    assert Is(Solo(s, 2, 4), false, 2, 1, (None, Some(2)), (0, 0, 0), (8, 1), (9, 1), LEAVE + LEAVE);
    assert Is(Solo(s, 2, 5), false, 2, 1, (None, None), (0, 0, 0), (8, 1), (10, 1), LEAVE + LEAVE);
    assert Is(Solo(s, 2, 6), false, 3, 1, (None, None), (0, 0, 0), (8, 1), (11, 1), LEAVE + LEAVE);
  }

  /** The sender takes its snapshot. */
  lemma SenderLooks(s: System)
    requires Is(s, true, 3, 1, (None, None), (0, 0, 0), (8, 1), (12, 1), LEAVE + LEAVE)
    ensures Is(Solo(s, 0, 5), true, 3, 1, (None, None), (5, 1, 3), (8, 1), (12, 1), LEAVE + LEAVE)
  {
    assert Is(Solo(s, 0, 1), true, 3, 1, (None, None), (1, 0, 0), (8, 1), (12, 1), LEAVE + LEAVE);
    assert Is(Solo(s, 0, 2), true, 3, 1, (Some(0), None), (2, 0, 0), (8, 1), (12, 1), LEAVE + LEAVE);
    assert Is(Solo(s, 0, 3), true, 3, 1, (Some(0), None), (3, 1, 0), (8, 1), (12, 1), LEAVE + LEAVE);
    assert Is(Solo(s, 0, 4), true, 3, 1, (Some(0), None), (4, 1, 3), (8, 1), (12, 1), LEAVE + LEAVE);
  }

  /** It passes every check. */
  lemma SenderPassesChecks(s: System)
    requires Is(s, true, 3, 1, (None, None), (5, 1, 3), (8, 1), (12, 1), LEAVE + LEAVE)
    ensures Is(Solo(s, 0, 5), true, 3, 1, (None, Some(0)), (10, 1, 3), (8, 1), (12, 1), LEAVE + LEAVE)
  {
    assert Is(Solo(s, 0, 1), true, 3, 1, (None, None), (6, 1, 3), (8, 1), (12, 1), LEAVE + LEAVE);
    assert Is(Solo(s, 0, 2), true, 3, 1, (None, None), (7, 1, 3), (8, 1), (12, 1), LEAVE + LEAVE);
    assert Is(Solo(s, 0, 3), true, 3, 1, (None, Some(0)), (8, 1, 3), (8, 1), (12, 1), LEAVE + LEAVE);
    assert Is(Solo(s, 0, 4), true, 3, 1, (None, Some(0)), (9, 1, 3), (8, 1), (12, 1), LEAVE + LEAVE);
  }

  /** The disconnect clears the endpoint while the sender still holds the socket. */
  lemma DisconnectClears(s: System)
    requires Is(s, true, 3, 1, (None, Some(0)), (10, 1, 3), (8, 1), (12, 1), LEAVE + LEAVE)
    ensures Is(Solo(s, 1, 2), true, 3, 0, (Some(1), Some(0)), (10, 1, 3), (10, 1), (12, 1), LEAVE + LEAVE)
  {
    assert Is(Solo(s, 1, 1), true, 3, 1, (Some(1), Some(0)), (10, 1, 3), (9, 1), (12, 1), LEAVE + LEAVE);
  }

  lemma SenderSends(s: System)
    requires Is(s, true, 3, 0, (Some(1), Some(0)), (10, 1, 3), (10, 1), (12, 1), LEAVE + LEAVE)
    ensures Solo(s, 0, 1).sent == LEAVE + LEAVE + [Datagram(1, 0)]
  {
  }

  lemma Misdirected(s: System) returns (sch: Schedule)
    requires Is(s, true, 0, 1, (None, None), (0, 0, 0), (0, 0), (0, 0), [])
    ensures !AllCurrent(Play(s, sch))
  {
    RebindLooks(s);
    var a := PlayOn(s, Begin, 2, 5);
    DisconnectDisables(Play(s, a));
    var a' := PlayOn(s, a, 1, 4);
    DisconnectLeaves(Play(s, a'));
    var b := PlayOn(s, a', 1, 4);
    RebindEnablesAgain(Play(s, b));
    var c := PlayOn(s, b, 2, 7);
    SenderLooks(Play(s, c));
    var c' := PlayOn(s, c, 0, 5);
    SenderPassesChecks(Play(s, c'));
    var d := PlayOn(s, c', 0, 5);
    DisconnectClears(Play(s, d));
    var e := PlayOn(s, d, 1, 2);
    SenderSends(Play(s, e));
    sch := PlayOn(s, e, 0, 1);
    assert Play(s, sch).sent[2] == Datagram(1, 0);
  }

  /** A rebind on the io thread enables sending again in the middle of a disconnect on the user's
      thread: the sender's checks pass, the disconnect clears the endpoint, and the datagram leaves
      for the old one. */
  lemma OverlappingDisconnectMisdirects() returns (s: System, sch: Schedule)
    ensures Initial(s) && !AllCurrent(Play(s, sch))
  {
    var threads :=
      map[0 := Thread(Send(false), 0, 0, 0), 1 := Thread(Disconnect(true), 0, 0, 0), 2 := Thread(Rebind, 0, 0, 0)];
    s := System(true, 0, 1, None, None, threads, []);
    sch := Misdirected(s);
  }
}

/** Room-key handoff and rotation between the clients of one room: the functions one client
    runs on its own session state, the messages they put on the wire, and the system in which
    any number of clients exchange those messages over a network that may lose, duplicate and
    reorder them. */
module KeyHandoff {

  import opened Common

  type Id = nat            // participant id; 0 means "not assigned by the server"
  type PublicKey = nat
  type NodeName = nat      // a client process; the server never hands one id to two of them

  const MEDIA_SECRET_MAX_BYTES := 128

  /** The digest is a parameter: nothing below depends on which function it is. */
  datatype Crypto = Crypto(sha256Hex: string -> string)

  function Commitment(crypto: Crypto, secret: string): Option<string> {
    if |secret| == 0 || |secret| > MEDIA_SECRET_MAX_BYTES then None else Some(crypto.sha256Hex(secret))
  }

  predicate SecretMatches(crypto: Crypto, secret: string, commitment: string) {
    Commitment(crypto, secret) == Some(commitment)
  }

  predicate ValidSha256Hex(s: string) {
    |s| == 64 && forall i :: 0 <= i < |s| ==> '0' <= s[i] <= '9' || 'a' <= s[i] <= 'f'
  }

  datatype KeyPayload = KeyPayload(epoch: nat, secret: string)

  datatype Message =
    | Envelope(sender: Id, target: Id, epoch: nat, commitment: string,
               sealedFor: PublicKey, payload: KeyPayload)
    | Ack(participant: Id, target: Id, epoch: nat, commitment: string)
    | Rotation(sender: Id, epoch: nat, commitment: string, sealedUnder: string, secret: string)

  /** One client's session: the media secret is empty while it has none. */
  datatype Node = Node(
    id: Id,
    epoch: nat,
    secret: string,
    commitment: string,
    sessionKey: Option<string>,
    pending: set<Id>,
    keys: map<Id, PublicKey>,
    publicKey: PublicKey,
    keypairReady: bool,
    tokenUsable: bool,
    secureAudio: bool,
    outbound: bool)

  datatype Effect = Effect(node: Node, sent: set<Message>, ok: bool)

  // ----- one client's operations ------------------------------------------------------------

  function PublishKey(crypto: Crypto, n: Node): Node {
    n.(sessionKey := if n.tokenUsable && SecretMatches(crypto, n.secret, n.commitment)
                     then Some(n.secret) else None)
  }

  predicate MayInstall(crypto: Crypto, n: Node, secret: string, epoch: nat, commitment: string) {
    && epoch != 0
    && SecretMatches(crypto, secret, commitment)
    && epoch >= n.epoch
    && (epoch == n.epoch ==> n.secret == "" && commitment == n.commitment)
  }

  function ApplyRotation(crypto: Crypto, n: Node, secret: string, epoch: nat, commitment: string): Effect {
    if MayInstall(crypto, n, secret, epoch, commitment)
    then Effect(PublishKey(crypto, n.(secret := secret, epoch := epoch, commitment := commitment)), {}, true)
    else Effect(n, {}, false)
  }

  predicate CanSeal(n: Node, p: Id) {
    && n.keypairReady && p != 0 && p != n.id && n.secret != "" && n.id != 0 && n.outbound
    && p in n.keys && |n.secret| <= MEDIA_SECRET_MAX_BYTES && n.epoch != 0
  }

  function EnvelopeFor(n: Node, p: Id): Message
    requires CanSeal(n, p)
  {
    Envelope(n.id, p, n.epoch, n.commitment, n.keys[p], KeyPayload(n.epoch, n.secret))
  }

  function EnvelopesFor(n: Node, ps: set<Id>): set<Message> {
    set p | p in ps && CanSeal(n, p) :: EnvelopeFor(n, p)
  }

  /** Queueing inserts, tries to send, and takes the entry back out when the send is refused. */
  function QueueHandoffs(n: Node, ps: set<Id>): Effect {
    var sealed := set p | p in ps && CanSeal(n, p);
    Effect(n.(pending := n.pending - ps + sealed), EnvelopesFor(n, ps), sealed == ps)
  }

  function AckFor(n: Node, target: Id, epoch: nat, commitment: string): set<Message> {
    if target == 0 || target == n.id || epoch == 0 || !ValidSha256Hex(commitment) || n.id == 0 || !n.outbound
    then {} else {Ack(n.id, target, epoch, commitment)}
  }

  predicate EnvelopeOpens(n: Node, m: Message)
    requires m.Envelope?
  {
    && n.keypairReady && m.target == n.id && m.sender != 0 && m.epoch != 0
    && ValidSha256Hex(m.commitment)
    && m.sealedFor == n.publicKey
    && 0 < |m.payload.secret| <= MEDIA_SECRET_MAX_BYTES
    && m.payload.epoch == m.epoch
  }

  function HandleEnvelope(crypto: Crypto, n: Node, m: Message): Effect
    requires m.Envelope?
  {
    if !EnvelopeOpens(n, m) then Effect(n, {}, false) else
      var applied := ApplyRotation(crypto, n, m.payload.secret, m.payload.epoch, m.commitment);
      var n' := applied.node;
      var already := m.payload.epoch == n'.epoch && m.commitment == n'.commitment && m.payload.secret == n'.secret;
      if applied.ok || already
      then Effect(n', AckFor(n', m.sender, m.payload.epoch, m.commitment), true)
      else Effect(n', {}, false)
  }

  predicate AckMatches(n: Node, m: Message)
    requires m.Ack?
  {
    m.target == n.id && m.participant != 0 && m.epoch == n.epoch && m.commitment == n.commitment
  }

  function HandleAck(n: Node, m: Message): Node
    requires m.Ack?
  {
    if AckMatches(n, m) then n.(pending := n.pending - {m.participant}) else n
  }

  /** A rotation packet opens only under the session key it was sealed with. */
  function HandleRotation(crypto: Crypto, n: Node, m: Message): Node
    requires m.Rotation?
  {
    if n.sessionKey != Some(m.sealedUnder) || m.epoch == 0 || |m.secret| == 0 || |m.secret| > MEDIA_SECRET_MAX_BYTES
    then n
    else ApplyRotation(crypto, n, m.secret, m.epoch, m.commitment).node
  }

  function Rotate(crypto: Crypto, n: Node, secret: string, epoch: nat): Effect {
    if secret == "" || n.sessionKey.None? || !n.secureAudio || n.id == 0 || epoch == 0 || !n.outbound
       || Commitment(crypto, secret).None?
    then Effect(n, {}, false)
    else
      var commitment := Commitment(crypto, secret).value;
      var packet := Rotation(n.id, epoch, commitment, n.sessionKey.value, secret);
      var n' := ApplyRotation(crypto, n, secret, epoch, commitment).node;
      var queued := QueueHandoffs(n', n'.keys.Keys - {n'.id});
      Effect(queued.node, {packet} + queued.sent, true)
  }

  // ----- the system: clients plus every message ever sent ----------------------------------

  datatype System = System(nodes: map<NodeName, Node>, owner: map<Id, NodeName>, net: set<Message>)

  datatype Step =
    | Join(name: NodeName, newcomer: Node)
    | AssignId(name: NodeName, id: Id)
    | DropId(name: NodeName)
    | SetOutbound(name: NodeName, enabled: bool)
    | LearnKey(name: NodeName, p: Id, key: Option<PublicKey>)
    | RemoveParticipant(name: NodeName, p: Id)
    | Share(name: NodeName, p: Id)
    | Retry(name: NodeName)
    | RotateKey(name: NodeName, secret: string, epoch: nat)
    | Deliver(name: NodeName, m: Message)

  function React(crypto: Crypto, n: Node, step: Step): Effect {
    match step
    case Join(_, _) => Effect(n, {}, true)
    case AssignId(_, id) => Effect(n.(id := id), {}, true)
    case DropId(_) => Effect(n.(id := 0), {}, true)
    case SetOutbound(_, enabled) => Effect(n.(outbound := enabled), {}, true)
    case LearnKey(_, p, key) =>
      if p == 0 then Effect(n, {}, false)
      else Effect(n.(keys := if key.Some? then n.keys[p := key.value] else n.keys - {p}), {}, true)
    case RemoveParticipant(_, p) => Effect(n.(keys := n.keys - {p}, pending := n.pending - {p}), {}, true)
    case Share(_, p) => QueueHandoffs(n, {p})
    case Retry(_) => Effect(n, EnvelopesFor(n, n.pending), true)
    case RotateKey(_, secret, epoch) => Rotate(crypto, n, secret, epoch)
    case Deliver(_, m) =>
      match m
      case Envelope(_, _, _, _, _, _) => HandleEnvelope(crypto, n, m)
      case Ack(_, _, _, _) => Effect(HandleAck(n, m), {}, true)
      case Rotation(_, _, _, _, _) => Effect(HandleRotation(crypto, n, m), {}, true)
  }

  predicate Enabled(s: System, step: Step) {
    match step
    case Join(name, newcomer) => name !in s.nodes && newcomer.id == 0 && newcomer.pending == {}
    case AssignId(name, id) => name in s.nodes && id != 0 && (id in s.owner ==> s.owner[id] == name)
    case Deliver(name, m) => name in s.nodes && m in s.net
    case _ => step.name in s.nodes
  }

  function Next(crypto: Crypto, s: System, step: Step): System
    requires Enabled(s, step)
  {
    if step.Join? then s.(nodes := s.nodes[step.name := step.newcomer])
    else
      var e := React(crypto, s.nodes[step.name], step);
      System(s.nodes[step.name := e.node],
             if step.AssignId? then s.owner[step.id := step.name] else s.owner,
             s.net + e.sent)
  }

  /** A run: state i takes step i to state i + 1, from a room nobody has entered yet. */
  datatype Run = Run(states: seq<System>, steps: seq<Step>) {
    ghost predicate Valid(crypto: Crypto) {
      && |states| == |steps| + 1
      && states[0] == System(map[], map[], {})
      && forall i {:trigger steps[i]} :: 0 <= i < |steps| ==>
          Enabled(states[i], steps[i]) && states[i + 1] == Next(crypto, states[i], steps[i])
    }
  }

  // ----- what every step keeps ----------------------------------------------------------------

  /** The client never goes back an epoch, and within an epoch never changes a secret it has. */
  ghost predicate Advances(n: Node, n': Node) {
    && n.epoch <= n'.epoch
    && (n.epoch == n'.epoch && n.secret != "" ==> n'.secret == n.secret && n'.commitment == n.commitment)
  }

  lemma ReactAdvances(crypto: Crypto, n: Node, step: Step)
    ensures Advances(n, React(crypto, n, step).node)
  {
  }

  ghost predicate Idented(s: System) {
    && 0 !in s.owner
    && forall name :: name in s.nodes && s.nodes[name].id != 0 ==>
        s.nodes[name].id in s.owner && s.owner[s.nodes[name].id] == name
  }

  ghost predicate Holds(s: System, name: NodeName, epoch: nat, secret: string, commitment: string) {
    && name in s.nodes && secret != ""
    && s.nodes[name].epoch == epoch && s.nodes[name].secret == secret && s.nodes[name].commitment == commitment
  }

  ghost predicate HeldBy(run: Run, k: nat, name: NodeName, epoch: nat, secret: string, commitment: string) {
    exists i :: 0 <= i <= k < |run.states| && Holds(run.states[i], name, epoch, secret, commitment)
  }

  ghost predicate Proposed(run: Run, k: nat, name: NodeName, epoch: nat, secret: string) {
    exists i :: 0 <= i < k <= |run.steps| && run.steps[i] == RotateKey(name, secret, epoch)
  }

  /** Why a message may be on the wire: whoever it names held the secret it speaks about, or rotated to
      it. */
  ghost predicate Justified(run: Run, k: nat, m: Message)
    requires k < |run.states|
  {
    var owner := run.states[k].owner;
    match m
    case Envelope(sender, _, epoch, commitment, _, payload) =>
      sender in owner && HeldBy(run, k, owner[sender], epoch, payload.secret, commitment)
    case Ack(participant, target, epoch, commitment) =>
      participant in owner && target in owner &&
      exists secret :: HeldBy(run, k, owner[participant], epoch, secret, commitment)
                    && HeldBy(run, k, owner[target], epoch, secret, commitment)
    case Rotation(sender, epoch, _, _, secret) => sender in owner && Proposed(run, k, owner[sender], epoch, secret)
  }

  lemma JustifiedLater(run: Run, crypto: Crypto, k: nat, m: Message)
    requires run.Valid(crypto) && k + 1 < |run.states|
    requires Justified(run, k, m)
    ensures Justified(run, k + 1, m)
  {
    var s, s' := run.states[k], run.states[k + 1];
    assert s' == Next(crypto, s, run.steps[k]);
    forall id | id in s.owner ensures id in s'.owner && s'.owner[id] == s.owner[id] {}
    forall name, e, secret, c | HeldBy(run, k, name, e, secret, c)
      ensures HeldBy(run, k + 1, name, e, secret, c) {
      var i :| 0 <= i <= k && Holds(run.states[i], name, e, secret, c);
      assert Holds(run.states[i], name, e, secret, c);
    }
  }

  lemma IdentedStep(crypto: Crypto, s: System, step: Step)
    requires Idented(s) && Enabled(s, step)
    ensures Idented(Next(crypto, s, step))
  {
    if !step.Join? && !step.AssignId? && !step.DropId? {
      assert React(crypto, s.nodes[step.name], step).node.id == s.nodes[step.name].id;
    }
  }

  /** Every message a step adds is justified in the state that step reaches. */
  lemma NewMessageJustified(run: Run, crypto: Crypto, k: nat, m: Message)
    requires run.Valid(crypto) && k + 1 < |run.states|
    requires Idented(run.states[k])
    requires forall x :: x in run.states[k].net ==> Justified(run, k, x)
    requires m in run.states[k + 1].net && m !in run.states[k].net
    ensures Justified(run, k + 1, m)
  {
    var s, s', step := run.states[k], run.states[k + 1], run.steps[k];
    assert s' == Next(crypto, s, step);
    IdentedStep(crypto, s, step);
    var name := step.name;
    var n' := s'.nodes[name];
    match m {
      case Envelope(sender, _, epoch, commitment, _, payload) =>
        assert Holds(s', name, epoch, payload.secret, commitment);
      case Ack(participant, target, epoch, commitment) =>
        var env := step.m;
        JustifiedLater(run, crypto, k, env);
        assert Holds(s', name, epoch, env.payload.secret, commitment);
        assert HeldBy(run, k + 1, s'.owner[participant], epoch, env.payload.secret, commitment);
      case Rotation(sender, epoch, _, _, secret) =>
        assert step == RotateKey(name, secret, epoch) && s'.owner[sender] == name;
    }
  }

  lemma {:induction false} RunInvariant(run: Run, crypto: Crypto, k: nat)
    requires run.Valid(crypto) && k < |run.states|
    ensures Idented(run.states[k])
    ensures forall m :: m in run.states[k].net ==> Justified(run, k, m)
  {
    if k == 0 {
    } else {
      RunInvariant(run, crypto, k - 1);
      IdentedStep(crypto, run.states[k - 1], run.steps[k - 1]);
      forall m | m in run.states[k].net ensures Justified(run, k, m) {
        if m in run.states[k - 1].net {
          JustifiedLater(run, crypto, k - 1, m);
        } else {
          NewMessageJustified(run, crypto, k - 1, m);
        }
      }
    }
  }

  // ----- main results ---------------------------------------------------------------------------

  lemma StepAdvances(crypto: Crypto, s: System, step: Step, name: NodeName)
    requires Enabled(s, step) && name in s.nodes
    ensures name in Next(crypto, s, step).nodes
    ensures Advances(s.nodes[name], Next(crypto, s, step).nodes[name])
  {
    ReactAdvances(crypto, s.nodes[name], step);
  }

  /** Epochs never decrease, and at most one secret is ever in force per epoch. */
  lemma {:induction false} EpochsWriteOnce(run: Run, crypto: Crypto, i: nat, j: nat, name: NodeName)
    requires run.Valid(crypto) && i <= j < |run.states| && name in run.states[i].nodes
    ensures name in run.states[j].nodes
    ensures Advances(run.states[i].nodes[name], run.states[j].nodes[name])
    decreases j
  {
    if i == j {
    } else {
      EpochsWriteOnce(run, crypto, i, j - 1, name);
      var s, step, s' := run.states[j - 1], run.steps[j - 1], run.states[j];
      assert Enabled(s, step) && s' == Next(crypto, s, step);
      StepAdvances(crypto, s, step, name);
    }
  }

  /** Whoever held a secret once is at that epoch with that secret still, or at a later epoch. */
  lemma HeldThenAdvances(
      run: Run, crypto: Crypto, k: nat, name: NodeName, epoch: nat, secret: string, commitment: string)
    requires run.Valid(crypto) && k < |run.states|
    requires HeldBy(run, k, name, epoch, secret, commitment)
    ensures secret != "" && name in run.states[k].nodes
    ensures var n := run.states[k].nodes[name];
            epoch <= n.epoch && (epoch == n.epoch ==> n.secret == secret && n.commitment == commitment)
  {
    var i :| 0 <= i <= k && Holds(run.states[i], name, epoch, secret, commitment);
    EpochsWriteOnce(run, crypto, i, k, name);
  }

  /** An acknowledgement that takes a participant off the pending set proves that this very
      participant had installed exactly the secret the sender holds now, at the sender's epoch. */
  lemma AckProvesInstall(run: Run, crypto: Crypto, k: nat, p: Id)
    requires run.Valid(crypto) && k < |run.steps|
    requires run.steps[k].Deliver? && run.steps[k].m.Ack?
    requires p in run.states[k].nodes[run.steps[k].name].pending
    requires p !in run.states[k + 1].nodes[run.steps[k].name].pending
    ensures p in run.states[k].owner
    ensures var n := run.states[k].nodes[run.steps[k].name];
            n.secret != "" && HeldBy(run, k, run.states[k].owner[p], n.epoch, n.secret, n.commitment)
  {
    var s, name, a := run.states[k], run.steps[k].name, run.steps[k].m;
    assert run.states[k + 1] == Next(crypto, s, run.steps[k]);
    RunInvariant(run, crypto, k);
    assert Justified(run, k, a);
    assert s.owner[a.target] == name;
    var secret :| HeldBy(run, k, s.owner[p], a.epoch, secret, a.commitment)
               && HeldBy(run, k, name, a.epoch, secret, a.commitment);
    HeldThenAdvances(run, crypto, k, name, a.epoch, secret, a.commitment);
  }

  /** An acknowledgement already on the wire when its addressee was at an older epoch changes
      nothing once the addressee has moved on. */
  lemma StaleAckNeverCancels(run: Run, crypto: Crypto, i: nat, j: nat, a: Message)
    requires run.Valid(crypto) && i <= j < |run.states|
    requires a.Ack? && a in run.states[i].net
    ensures a.target in run.states[i].owner
    ensures var name := run.states[i].owner[a.target];
            name in run.states[i].nodes && name in run.states[j].nodes &&
            (run.states[i].nodes[name].epoch < run.states[j].nodes[name].epoch ==>
             HandleAck(run.states[j].nodes[name], a) == run.states[j].nodes[name])
  {
    RunInvariant(run, crypto, i);
    assert Justified(run, i, a);
    var name := run.states[i].owner[a.target];
    var secret :| HeldBy(run, i, run.states[i].owner[a.participant], a.epoch, secret, a.commitment)
               && HeldBy(run, i, name, a.epoch, secret, a.commitment);
    HeldThenAdvances(run, crypto, i, name, a.epoch, secret, a.commitment);
    EpochsWriteOnce(run, crypto, i, j, name);
  }

  /** What makes p leave the pending set: its own matching acknowledgement, its removal from the
      room, or a repeated handoff to it that the client refuses to send. */
  ghost predicate Leaves(crypto: Crypto, n: Node, step: Step, p: Id) {
    || (step.Deliver? && step.m.Ack? && step.m.participant == p && AckMatches(n, step.m))
    || (step.RemoveParticipant? && step.p == p)
    || (step.Share? && step.p == p && !CanSeal(n, p))
    || (step.RotateKey? && Rotate(crypto, n, step.secret, step.epoch).ok && p in n.keys && p != n.id
        && !CanSeal(ApplyRotation(crypto, n, step.secret, step.epoch, Commitment(crypto, step.secret).value).node, p))
  }

  lemma PendingUntil(crypto: Crypto, s: System, step: Step, name: NodeName, p: Id)
    requires Enabled(s, step) && name in s.nodes && p in s.nodes[name].pending && step.name == name
    ensures p !in Next(crypto, s, step).nodes[name].pending <==> Leaves(crypto, s.nodes[name], step, p)
  {
    if step.RotateKey? {
      var n := s.nodes[name];
      var e := Rotate(crypto, n, step.secret, step.epoch);
      if e.ok {
        var n' := ApplyRotation(crypto, n, step.secret, step.epoch, Commitment(crypto, step.secret).value).node;
        assert n'.keys == n.keys && n'.id == n.id && n'.pending == n.pending;
        assert e.node == QueueHandoffs(n', n'.keys.Keys - {n'.id}).node;
      }
    }
  }

  /** What a client needs to seal its secret for p: keys of both, ids, a way out, and a secret that fits. */
  predicate Equipped(n: Node, p: Id) {
    && n.keypairReady && n.outbound && n.id != 0 && p != 0 && p != n.id && p in n.keys
    && n.epoch != 0 && 0 < |n.secret| <= MEDIA_SECRET_MAX_BYTES
  }

  /** The client after it has installed a secret it rotated to; a secret it may not install leaves it as it
      is. */
  function Installed(crypto: Crypto, n: Node, secret: string, epoch: nat): Node
    requires Commitment(crypto, secret).Some?
  {
    if epoch > n.epoch || (epoch == n.epoch && n.secret == "" && n.commitment == Commitment(crypto, secret).value)
    then n.(secret := secret, epoch := epoch, commitment := Commitment(crypto, secret).value)
    else n
  }

  /** The client can rotate to this secret. */
  predicate MayRotate(n: Node, secret: string, epoch: nat) {
    && n.sessionKey.Some? && n.secureAudio && n.id != 0 && n.outbound && epoch != 0
    && 0 < |secret| <= MEDIA_SECRET_MAX_BYTES
  }

  /** What makes p enter the pending set: the client shares its secret with it, or rotates while it knows
      p's key, and is equipped to seal for it. */
  ghost predicate Enters(crypto: Crypto, n: Node, step: Step, p: Id) {
    || (step.Share? && step.p == p && Equipped(n, p))
    || (step.RotateKey? && MayRotate(n, step.secret, step.epoch)
        && Equipped(Installed(crypto, n, step.secret, step.epoch), p))
  }

  lemma RotateInstalls(crypto: Crypto, n: Node, secret: string, epoch: nat)
    ensures Rotate(crypto, n, secret, epoch).ok <==> MayRotate(n, secret, epoch)
    ensures MayRotate(n, secret, epoch) ==>
              var m, i := Rotate(crypto, n, secret, epoch).node, Installed(crypto, n, secret, epoch);
              && m.secret == i.secret && m.epoch == i.epoch && m.commitment == i.commitment
              && forall p: Id :: p in m.pending <==> Equipped(i, p) || (p in n.pending && (p == n.id || p !in n.keys))
  {
    if MayRotate(n, secret, epoch) {
      var n' := ApplyRotation(crypto, n, secret, epoch, Commitment(crypto, secret).value).node;
      var i := Installed(crypto, n, secret, epoch);
      assert n'.secret == i.secret && n'.epoch == i.epoch;
      assert n'.keys == n.keys && n'.id == n.id && n'.pending == n.pending;
      assert Rotate(crypto, n, secret, epoch).node == QueueHandoffs(n', n'.keys.Keys - {n'.id}).node;
      forall p: Id ensures CanSeal(n', p) <==> Equipped(i, p) {
      }
    }
  }

  lemma PendingFrom(crypto: Crypto, s: System, step: Step, name: NodeName, p: Id)
    requires Enabled(s, step) && name in s.nodes && p !in s.nodes[name].pending && step.name == name
    ensures p in Next(crypto, s, step).nodes[name].pending <==> Enters(crypto, s.nodes[name], step, p)
  {
    if step.RotateKey? {
      RotateInstalls(crypto, s.nodes[name], step.secret, step.epoch);
    }
  }

  /** Nothing another client does changes a client. */
  lemma OthersLeaveAlone(crypto: Crypto, s: System, step: Step, name: NodeName)
    requires Enabled(s, step) && name in s.nodes && step.name != name
    ensures name in Next(crypto, s, step).nodes && Next(crypto, s, step).nodes[name] == s.nodes[name]
  {
  }

  /** None of the steps i up to j - 1 is one of the ways out of the pending set. */
  ghost predicate StaysIn(run: Run, crypto: Crypto, i: nat, j: nat, name: NodeName, p: Id)
    requires j <= |run.steps| && |run.states| == |run.steps| + 1
  {
    forall k :: i <= k < j ==> NoWayOut(run, crypto, k, name, p)
  }

  ghost predicate NoWayOut(run: Run, crypto: Crypto, k: nat, name: NodeName, p: Id)
    requires k < |run.steps| && |run.states| == |run.steps| + 1
  {
    name in run.states[k].nodes && run.steps[k].name == name ==>
      !Leaves(crypto, run.states[k].nodes[name], run.steps[k], p)
  }

  lemma {:induction false} PendingMeanwhile(run: Run, crypto: Crypto, i: nat, j: nat, name: NodeName, p: Id)
    requires run.Valid(crypto) && i <= j < |run.states| && name in run.states[i].nodes
    requires p in run.states[i].nodes[name].pending && StaysIn(run, crypto, i, j, name, p)
    ensures name in run.states[j].nodes && p in run.states[j].nodes[name].pending
    decreases j
  {
    if i == j {
    } else {
      PendingMeanwhile(run, crypto, i, j - 1, name, p);
      var s, step := run.states[j - 1], run.steps[j - 1];
      assert Enabled(s, step) && run.states[j] == Next(crypto, s, step) && NoWayOut(run, crypto, j - 1, name, p);
      if step.name == name {
        PendingUntil(crypto, s, step, name, p);
      } else {
        OthersLeaveAlone(crypto, s, step, name);
      }
    }
  }

  /** From the step that put p into the pending set until one of the ways out, every retry at which the
      client is equipped to seal for p puts the client's current secret, at its current epoch, on the wire
      for p: a lost envelope is made good. */
  lemma RetryResends(run: Run, crypto: Crypto, i: nat, j: nat, name: NodeName, p: Id)
    requires run.Valid(crypto) && i < j < |run.steps| && run.steps[i].name == name && name in run.states[i].nodes
    requires Enters(crypto, run.states[i].nodes[name], run.steps[i], p) && p !in run.states[i].nodes[name].pending
    requires StaysIn(run, crypto, i + 1, j, name, p) && run.steps[j] == Retry(name)
    requires name in run.states[j].nodes && Equipped(run.states[j].nodes[name], p)
    ensures
      var n := run.states[j].nodes[name];
      Envelope(n.id, p, n.epoch, n.commitment, n.keys[p], KeyPayload(n.epoch, n.secret)) in run.states[j + 1].net
  {
    var s, step := run.states[i], run.steps[i];
    assert Enabled(s, step) && run.states[i + 1] == Next(crypto, s, step);
    PendingFrom(crypto, s, step, name, p);
    PendingMeanwhile(run, crypto, i + 1, j, name, p);
    assert run.states[j + 1] == Next(crypto, run.states[j], run.steps[j]);
    EnvelopeOnRetry(crypto, run.states[j].nodes[name], p);
  }

  lemma EnvelopeOnRetry(crypto: Crypto, n: Node, p: Id)
    requires p in n.pending && Equipped(n, p)
    ensures Envelope(n.id, p, n.epoch, n.commitment, n.keys[p], KeyPayload(n.epoch, n.secret))
            in React(crypto, n, Retry(0)).sent
    ensures forall name :: React(crypto, n, Retry(name)).sent == React(crypto, n, Retry(0)).sent
  {
    assert EnvelopeFor(n, p) in EnvelopesFor(n, n.pending);
  }

  /** The server announces a participant's key, or that it has none; number 0 is nobody's. */
  lemma KeyLearned(crypto: Crypto, n: Node, name: NodeName, p: Id, key: Option<PublicKey>)
    ensures
      var e := React(crypto, n, LearnKey(name, p, key));
      && e.sent == {} && e.node == n.(keys := e.node.keys) && (e.ok <==> p != 0) && (p == 0 ==> e.node == n)
      && (p != 0 ==> (p in e.node.keys <==> key.Some?) && (key.Some? ==> e.node.keys[p] == key.value))
      && forall q: Id :: q != p ==>
           (q in e.node.keys <==> q in n.keys) && (q in n.keys ==> e.node.keys[q] == n.keys[q])
  {
  }

  /** What the session does to a client: its number comes and goes, and so does its way out. */
  lemma SessionSteps(crypto: Crypto, n: Node, name: NodeName, id: Id, enabled: bool)
    ensures React(crypto, n, AssignId(name, id)).node == n.(id := id)
    ensures React(crypto, n, DropId(name)).node == n.(id := 0)
    ensures React(crypto, n, SetOutbound(name, enabled)).node == n.(outbound := enabled)
  {
  }

  /** The first envelope leaves with the step that queues it, and a queued participant is one whose key
      was learned. */
  lemma ShareSends(crypto: Crypto, n: Node, name: NodeName, p: Id, key: PublicKey)
    requires n.keypairReady && n.outbound && n.id != 0 && p != 0 && p != n.id
    requires n.epoch != 0 && 0 < |n.secret| <= MEDIA_SECRET_MAX_BYTES
    ensures
      var known := React(crypto, n, LearnKey(name, p, Some(key))).node;
      var shared := React(crypto, known, Share(name, p));
      && shared.sent == {Envelope(n.id, p, n.epoch, n.commitment, key, KeyPayload(n.epoch, n.secret))}
      && shared.node.pending == n.pending + {p} && shared.ok
  {
    var known := React(crypto, n, LearnKey(name, p, Some(key))).node;
    assert CanSeal(known, p);
    assert (set x | x in {p} && CanSeal(known, x)) == {p};
    assert EnvelopesFor(known, {p}) == {EnvelopeFor(known, p)};
  }

  // ----- what a rotation packet does ------------------------------------------------------------------

  /** A rotation packet that opens installs its secret exactly if it is for a later epoch, or for this one
      while the client waits for that very secret; a client with a usable token then has it as its session
      key. Anything else changes nothing. */
  lemma RotationTaken(crypto: Crypto, n: Node, m: Message)
    requires m.Rotation?
    ensures
      var opens := n.sessionKey == Some(m.sealedUnder) && m.epoch != 0 && SecretMatches(crypto, m.secret, m.commitment);
      var due := m.epoch > n.epoch || (m.epoch == n.epoch && n.secret == "" && n.commitment == m.commitment);
      HandleRotation(crypto, n, m) ==
      if opens && due
      then n.(secret := m.secret, epoch := m.epoch, commitment := m.commitment,
              sessionKey := if n.tokenUsable then Some(m.secret) else None)
      else n
  {
  }

  const HEX_DIGITS := "0123456789abcdef"

  lemma HexDigit(c: char)
    ensures '0' <= c <= '9' || 'a' <= c <= 'f' <==> c in HEX_DIGITS
  {
    if '0' <= c <= '9' {
      assert HEX_DIGITS[c as int - '0' as int] == c;
    } else if 'a' <= c <= 'f' {
      assert HEX_DIGITS[c as int - 'a' as int + 10] == c;
    }
  }

  lemma HexIs(s: string)
    ensures ValidSha256Hex(s) <==> |s| == 64 && forall i :: 0 <= i < |s| ==> s[i] in HEX_DIGITS
  {
    forall i | 0 <= i < |s| ensures '0' <= s[i] <= '9' || 'a' <= s[i] <= 'f' <==> s[i] in HEX_DIGITS {
      HexDigit(s[i]);
    }
  }

  /** An envelope not meant for this client, sealed for another key, of two epochs, without a secret of at most 128
      bytes or with a commitment that is not 64 hexadecimal digits changes nothing and is not answered. */
  lemma EnvelopeRefused(crypto: Crypto, n: Node, m: Message)
    requires m.Envelope?
    requires
      || !n.keypairReady || m.target != n.id || m.sealedFor != n.publicKey || m.sender == 0
      || m.epoch == 0 || m.payload.epoch != m.epoch || m.payload.secret == "" || |m.payload.secret| > 128
      || |m.commitment| != 64 || exists i :: 0 <= i < |m.commitment| && m.commitment[i] !in HEX_DIGITS
    ensures HandleEnvelope(crypto, n, m) == Effect(n, {}, false)
  {
    if i :| 0 <= i < |m.commitment| && m.commitment[i] !in HEX_DIGITS {
      HexDigit(m.commitment[i]);
    }
  }

  /** Whom a handoff can reach: a client at an older epoch, or one that waits for, or already
      has, exactly this secret. */
  ghost predicate Receptive(q: Node, n: Node) {
    || q.epoch < n.epoch
    || (q.epoch == n.epoch && q.commitment == n.commitment && (q.secret == "" || q.secret == n.secret))
  }

  /** Retry, delivery and acknowledgement carry the secret across and clear the pending entry,
      exactly for a receptive client; any other client keeps what it has and stays silent. */
  lemma HandoffCompletes(crypto: Crypto, n: Node, q: Node)
    requires q.id in n.pending && CanSeal(n, q.id) && n.keys[q.id] == q.publicKey
    requires q.keypairReady && q.outbound
    requires SecretMatches(crypto, n.secret, n.commitment) && ValidSha256Hex(n.commitment)
    ensures var e := EnvelopeFor(n, q.id);
            var r := HandleEnvelope(crypto, q, e);
            && e in React(crypto, n, Retry(0)).sent
            && (Receptive(q, n) ==>
                  && r.node.epoch == n.epoch && r.node.secret == n.secret && r.node.commitment == n.commitment
                  && r.sent == {Ack(q.id, n.id, n.epoch, n.commitment)}
                  && HandleAck(n, Ack(q.id, n.id, n.epoch, n.commitment)).pending == n.pending - {q.id})
            && (!Receptive(q, n) ==> r.node == q && r.sent == {})
  {
  }
}

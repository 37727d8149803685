/** Whether all clients of a room that are at one epoch hold the same secret: exactly while newcomers and
    rotations bring in one secret per epoch. */
module RoomAgreement {

  import opened Common
  import opened KeyHandoff

  // ----- one secret per epoch across the room -----------------------------------------------------

  /** A step by which a secret comes into the room: a newcomer brings it, the client that rotates to it
      installs it, or a client installs it from a rotation packet. */
  predicate Introduces(crypto: Crypto, s: System, step: Step, epoch: nat, secret: string) {
    && secret != ""
    && match step {
         case Join(_, newcomer) => newcomer.epoch == epoch && newcomer.secret == secret
         case RotateKey(name, x, e) =>
           && name in s.nodes && x == secret && e == epoch && Rotate(crypto, s.nodes[name], x, e).ok
           && MayInstall(crypto, s.nodes[name], x, e, Commitment(crypto, x).value)
         case Deliver(name, m) =>
           && name in s.nodes && m.Rotation? && m.secret == secret && m.epoch == epoch
           && s.nodes[name].sessionKey == Some(m.sealedUnder)
           && MayInstall(crypto, s.nodes[name], m.secret, m.epoch, m.commitment)
         case _ => false
       }
  }

  ghost predicate IntroducedBy(run: Run, crypto: Crypto, k: nat, epoch: nat, secret: string)
    requires run.Valid(crypto)
  {
    exists i :: 0 <= i < k <= |run.steps| && Introduces(crypto, run.states[i], run.steps[i], epoch, secret)
  }

  /** One client's step: it had the secret at that epoch, introduces it, or opens an envelope with it. */
  lemma WhereFrom(crypto: Crypto, s: System, step: Step, epoch: nat, secret: string)
    requires Enabled(s, step) && !step.Join? && secret != ""
    requires var n := React(crypto, s.nodes[step.name], step).node; n.epoch == epoch && n.secret == secret
    ensures
      || (s.nodes[step.name].epoch == epoch && s.nodes[step.name].secret == secret)
      || Introduces(crypto, s, step, epoch, secret)
      || (step.Deliver? && step.m.Envelope? && step.m.epoch == epoch && step.m.payload.secret == secret)
  {
  }

  lemma {:induction false} HeldWasIntroduced(
      run: Run, crypto: Crypto, k: nat, name: NodeName, epoch: nat, secret: string)
    requires run.Valid(crypto) && k < |run.states| && name in run.states[k].nodes && secret != ""
    requires run.states[k].nodes[name].epoch == epoch && run.states[k].nodes[name].secret == secret
    ensures IntroducedBy(run, crypto, k, epoch, secret)
    decreases k
  {
    if k == 0 {
      assert false;
    } else {
      var s, step := run.states[k - 1], run.steps[k - 1];
      assert Enabled(s, step) && run.states[k] == Next(crypto, s, step);
      if name != step.name {
        HeldWasIntroduced(run, crypto, k - 1, name, epoch, secret);
      } else if step.Join? {
        assert Introduces(crypto, s, step, epoch, secret);
      } else {
        WhereFrom(crypto, s, step, epoch, secret);
        if s.nodes[name].epoch == epoch && s.nodes[name].secret == secret {
          HeldWasIntroduced(run, crypto, k - 1, name, epoch, secret);
        } else if !Introduces(crypto, s, step, epoch, secret) {
          RunInvariant(run, crypto, k - 1);
          assert Justified(run, k - 1, step.m);
          var sender := s.owner[step.m.sender];
          var i :| 0 <= i <= k - 1 && Holds(run.states[i], sender, epoch, secret, step.m.commitment);
          HeldWasIntroduced(run, crypto, i, sender, epoch, secret);
        }
      }
    }
  }

  /** Somebody joined with the secret at that epoch, or rotated to it. */
  ghost predicate BroughtBy(run: Run, k: nat, epoch: nat, secret: string) {
    exists i :: 0 <= i < k <= |run.steps| && Brings(run.steps[i], epoch, secret)
  }

  predicate Brings(step: Step, epoch: nat, secret: string) {
    || (step.Join? && step.newcomer.epoch == epoch && step.newcomer.secret == secret)
    || (step.RotateKey? && step.epoch == epoch && step.secret == secret)
  }

  /** Every secret a client holds goes back to a client that joined with it, or that rotated to it at that
      epoch. */
  lemma HeldWasBrought(run: Run, crypto: Crypto, k: nat, name: NodeName, epoch: nat, secret: string)
    requires run.Valid(crypto) && k < |run.states| && name in run.states[k].nodes && secret != ""
    requires run.states[k].nodes[name].epoch == epoch && run.states[k].nodes[name].secret == secret
    ensures BroughtBy(run, k, epoch, secret)
  {
    HeldWasIntroduced(run, crypto, k, name, epoch, secret);
    var i :| 0 <= i < k <= |run.steps| && Introduces(crypto, run.states[i], run.steps[i], epoch, secret);
    var step := run.steps[i];
    if step.Deliver? {
      assert Enabled(run.states[i], step);
      RunInvariant(run, crypto, i);
      assert Justified(run, i, step.m);
      var j :| 0 <= j < i && run.steps[j] == RotateKey(run.states[i].owner[step.m.sender], secret, epoch);
      assert Brings(run.steps[j], epoch, secret);
    } else {
      assert Brings(step, epoch, secret);
    }
  }

  lemma IntroducedIsHeld(run: Run, crypto: Crypto, i: nat, epoch: nat, secret: string)
    requires run.Valid(crypto) && i < |run.steps| && Introduces(crypto, run.states[i], run.steps[i], epoch, secret)
    ensures run.steps[i].name in run.states[i + 1].nodes
    ensures var n := run.states[i + 1].nodes[run.steps[i].name]; n.epoch == epoch && n.secret == secret
  {
    assert run.states[i + 1] == Next(crypto, run.states[i], run.steps[i]);
  }

  /** Client `name` has been at that epoch with that secret, at state k or before. */
  ghost predicate Had(run: Run, k: nat, name: NodeName, epoch: nat, secret: string) {
    exists i :: 0 <= i <= k < |run.states| && name in run.states[i].nodes && secret != ""
                && run.states[i].nodes[name].epoch == epoch && run.states[i].nodes[name].secret == secret
  }

  ghost predicate RoomAgrees(run: Run, k: nat, epoch: nat) {
    forall a: NodeName, b: NodeName, x: string, y: string ::
      Had(run, k, a, epoch, x) && Had(run, k, b, epoch, y) ==> x == y
  }

  ghost predicate OneSecretIntroduced(run: Run, crypto: Crypto, k: nat, epoch: nat)
    requires run.Valid(crypto)
  {
    forall x: string, y: string ::
      IntroducedBy(run, crypto, k, epoch, x) && IntroducedBy(run, crypto, k, epoch, y) ==> x == y
  }

  lemma HadIsIntroduced(run: Run, crypto: Crypto, k: nat, name: NodeName, epoch: nat, secret: string)
    requires run.Valid(crypto) && k < |run.states| && Had(run, k, name, epoch, secret)
    ensures IntroducedBy(run, crypto, k, epoch, secret)
  {
    var i :| 0 <= i <= k && name in run.states[i].nodes && secret != ""
             && run.states[i].nodes[name].epoch == epoch && run.states[i].nodes[name].secret == secret;
    HeldWasIntroduced(run, crypto, i, name, epoch, secret);
  }

  lemma IntroducedIsHad(run: Run, crypto: Crypto, k: nat, epoch: nat, secret: string) returns (name: NodeName)
    requires run.Valid(crypto) && k < |run.states| && IntroducedBy(run, crypto, k, epoch, secret)
    ensures Had(run, k, name, epoch, secret)
  {
    var i :| 0 <= i < k <= |run.steps| && Introduces(crypto, run.states[i], run.steps[i], epoch, secret);
    IntroducedIsHeld(run, crypto, i, epoch, secret);
    name := run.steps[i].name;
  }

  /** All clients that are ever at an epoch with a secret hold the same one, if and only if all
      newcomers and rotations that brought one in for that epoch brought the same; no envelope, lost,
      repeated or late, can make a difference. */
  lemma RoomAgreesIff(run: Run, crypto: Crypto, k: nat, epoch: nat)
    requires run.Valid(crypto) && k < |run.states|
    ensures RoomAgrees(run, k, epoch) <==> OneSecretIntroduced(run, crypto, k, epoch)
  {
    if OneSecretIntroduced(run, crypto, k, epoch) {
      forall a: NodeName, b: NodeName, x: string, y: string | Had(run, k, a, epoch, x) && Had(run, k, b, epoch, y)
        ensures x == y
      {
        HadIsIntroduced(run, crypto, k, a, epoch, x);
        HadIsIntroduced(run, crypto, k, b, epoch, y);
      }
    }
    if RoomAgrees(run, k, epoch) {
      forall x: string, y: string | IntroducedBy(run, crypto, k, epoch, x) && IntroducedBy(run, crypto, k, epoch, y)
        ensures x == y
      {
        var a := IntroducedIsHad(run, crypto, k, epoch, x);
        var b := IntroducedIsHad(run, crypto, k, epoch, y);
      }
    }
  }

  // ----- two clients rotate to one epoch ------------------------------------------------------------

  function Extended(run: Run, crypto: Crypto, step: Step): Run
    requires |run.states| > 0 && Enabled(run.states[|run.states| - 1], step)
  {
    Run(run.states + [Next(crypto, run.states[|run.states| - 1], step)], run.steps + [step])
  }

  lemma ExtendedValid(run: Run, crypto: Crypto, step: Step)
    requires run.Valid(crypto) && Enabled(run.states[|run.states| - 1], step)
    ensures Extended(run, crypto, step).Valid(crypto)
  {
    var r := Extended(run, crypto, step);
    forall i | 0 <= i < |r.steps|
      ensures Enabled(r.states[i], r.steps[i]) && r.states[i + 1] == Next(crypto, r.states[i], r.steps[i])
    {
      if i < |run.steps| {
        assert run.steps[i] == r.steps[i];
      }
    }
  }

  predicate ReadyToRotate(s: System, name: NodeName, epoch: nat) {
    && name in s.nodes
    && var n := s.nodes[name];
       n.sessionKey.Some? && n.secureAudio && n.id != 0 && n.outbound && n.epoch < epoch
  }

  predicate UsableSecret(x: string) { 0 < |x| <= MEDIA_SECRET_MAX_BYTES }

  lemma RotationInstalls(crypto: Crypto, s: System, name: NodeName, epoch: nat, x: string)
    requires ReadyToRotate(s, name, epoch) && UsableSecret(x)
    ensures Introduces(crypto, s, RotateKey(name, x, epoch), epoch, x)
    ensures forall b :: b != name && ReadyToRotate(s, b, epoch) ==>
              ReadyToRotate(Next(crypto, s, RotateKey(name, x, epoch)), b, epoch)
  {
  }

  predicate Begins(run: Run, longer: Run) { run.states <= longer.states && run.steps <= longer.steps }

  lemma RotateOn(run: Run, crypto: Crypto, name: NodeName, epoch: nat, x: string) returns (longer: Run)
    requires run.Valid(crypto) && ReadyToRotate(run.states[|run.steps|], name, epoch) && UsableSecret(x)
    ensures longer.Valid(crypto) && Begins(run, longer) && longer.steps == run.steps + [RotateKey(name, x, epoch)]
    ensures IntroducedBy(longer, crypto, |longer.steps|, epoch, x)
    ensures forall b :: b != name && ReadyToRotate(run.states[|run.steps|], b, epoch) ==>
              ReadyToRotate(longer.states[|longer.steps|], b, epoch)
  {
    var step, k := RotateKey(name, x, epoch), |run.steps|;
    RotationInstalls(crypto, run.states[k], name, epoch, x);
    ExtendedValid(run, crypto, step);
    longer := Extended(run, crypto, step);
    assert longer.states[k] == run.states[k] && longer.steps[k] == step;
    assert longer.states[k + 1] == Next(crypto, run.states[k], step);
    assert Introduces(crypto, longer.states[k], longer.steps[k], epoch, x);
  }

  lemma StaysIntroduced(run: Run, longer: Run, crypto: Crypto, epoch: nat, x: string)
    requires run.Valid(crypto) && longer.Valid(crypto) && Begins(run, longer)
    requires IntroducedBy(run, crypto, |run.steps|, epoch, x)
    ensures IntroducedBy(longer, crypto, |longer.steps|, epoch, x)
  {
    var i :| 0 <= i < |run.steps| && Introduces(crypto, run.states[i], run.steps[i], epoch, x);
    assert longer.states[i] == run.states[i] && longer.steps[i] == run.steps[i];
  }

  /** Wherever two clients are ready to rotate to an epoch, nothing keeps them from doing so to two
      different secrets, and then they disagree. */
  lemma TwoRotationsSplitRoom(
      run: Run, crypto: Crypto, a: NodeName, b: NodeName, epoch: nat, x: string, y: string) returns (split: Run)
    requires run.Valid(crypto) && a != b && x != y && UsableSecret(x) && UsableSecret(y)
    requires ReadyToRotate(run.states[|run.steps|], a, epoch) && ReadyToRotate(run.states[|run.steps|], b, epoch)
    ensures split.Valid(crypto) && split.steps == run.steps + [RotateKey(a, x, epoch), RotateKey(b, y, epoch)]
    ensures !RoomAgrees(split, |split.steps|, epoch)
  {
    var one := RotateOn(run, crypto, a, epoch, x);
    split := RotateOn(one, crypto, b, epoch, y);
    StaysIntroduced(one, split, crypto, epoch, x);
    TwoIntroducedDisagree(split, crypto, epoch, x, y);
  }

  lemma TwoIntroducedDisagree(run: Run, crypto: Crypto, epoch: nat, x: string, y: string)
    requires run.Valid(crypto) && x != y
    requires IntroducedBy(run, crypto, |run.steps|, epoch, x) && IntroducedBy(run, crypto, |run.steps|, epoch, y)
    ensures !RoomAgrees(run, |run.steps|, epoch)
  {
    RoomAgreesIff(run, crypto, |run.steps|, epoch);
  }

  /** A client that joined with the room's key, before the server has given it an id. */
  predicate KeyedNewcomer(n: Node, epoch: nat) {
    n.id == 0 && n.pending == {} && n.sessionKey.Some? && n.secureAudio && n.outbound && n.epoch < epoch
  }

  lemma EntersReady(run: Run, crypto: Crypto, name: NodeName, n: Node, id: Id, epoch: nat) returns (longer: Run)
    requires run.Valid(crypto) && KeyedNewcomer(n, epoch) && id != 0
    requires var s := run.states[|run.steps|]; name !in s.nodes && id !in s.owner
    ensures longer.Valid(crypto) && longer.steps == run.steps + [Join(name, n), AssignId(name, id)]
    ensures var s := run.states[|run.steps|];
            longer.states[|longer.steps|] == System(s.nodes[name := n.(id := id)], s.owner[id := name], s.net)
  {
    var k, s := |run.steps|, run.states[|run.steps|];
    ExtendedValid(run, crypto, Join(name, n));
    var joined := Extended(run, crypto, Join(name, n));
    assert joined.states[k + 1] == s.(nodes := s.nodes[name := n]);
    ExtendedValid(joined, crypto, AssignId(name, id));
    longer := Extended(joined, crypto, AssignId(name, id));
    var t := longer.states[k + 2];
    assert t.nodes == s.nodes[name := n.(id := id)];
  }

  /** Such a run from the empty room: two keyed clients enter and rotate to the same epoch. */
  lemma SplitRoomRun(crypto: Crypto, n: Node, epoch: nat, x: string, y: string) returns (split: Run)
    requires KeyedNewcomer(n, epoch) && x != y && UsableSecret(x) && UsableSecret(y)
    ensures split.Valid(crypto) && !RoomAgrees(split, |split.steps|, epoch)
    ensures split.steps ==
            [Join(0, n), AssignId(0, 1), Join(1, n), AssignId(1, 2)] + [RotateKey(0, x, epoch), RotateKey(1, y, epoch)]
  {
    var empty := Run([System(map[], map[], {})], []);
    var one := EntersReady(empty, crypto, 0, n, 1, epoch);
    var two := EntersReady(one, crypto, 1, n, 2, epoch);
    split := TwoRotationsSplitRoom(two, crypto, 0, 1, epoch, x, y);
  }
}

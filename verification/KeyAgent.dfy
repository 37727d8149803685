/** The client's key-handoff code in the form it has at run time: an object whose methods update
    the session in place and hand packets to the sender. Every method is tied to the function of
    the same operation in KeyHandoff, so what is proved there about runs is about this code. */
module KeyAgent {

  import opened Common
  import opened KeyHandoff

  class RoomKeyAgent {
    const crypto: Crypto
    var id: Id
    var epoch: nat
    var secret: string
    var commitment: string
    var sessionKey: Option<string>
    var pending: set<Id>
    var keys: map<Id, PublicKey>
    var publicKey: PublicKey
    var keypairReady: bool
    var tokenUsable: bool
    var secureAudio: bool
    var outbound: bool
    var outbox: set<Message>   // every packet handed to the sender

    constructor (crypto: Crypto, n: Node)
      ensures this.crypto == crypto && Session() == n && outbox == {}
    {
      this.crypto := crypto;
      id, epoch, secret, commitment, sessionKey := n.id, n.epoch, n.secret, n.commitment, n.sessionKey;
      pending, keys, publicKey, keypairReady := n.pending, n.keys, n.publicKey, n.keypairReady;
      tokenUsable, secureAudio, outbound, outbox := n.tokenUsable, n.secureAudio, n.outbound, {};
    }

    ghost function Session(): Node
      reads this
    {
      Node(id, epoch, secret, commitment, sessionKey, pending, keys, publicKey,
           keypairReady, tokenUsable, secureAudio, outbound)
    }

    method UpdateMediaKeyFromSecret()
      modifies this`sessionKey
      ensures Session() == PublishKey(crypto, old(Session()))
    {
      if secret == "" || !tokenUsable {
        sessionKey := None;
        return;
      }
      if !SecretMatches(crypto, secret, commitment) {
        sessionKey := None;
        return;
      }
      sessionKey := Some(secret);
    }

    method ApplyMediaSecretRotation(mediaSecret: string, accessEpoch: nat, mediaCommitment: string)
      returns (applied: bool)
      modifies this`secret, this`epoch, this`commitment, this`sessionKey
      ensures var e := ApplyRotation(crypto, old(Session()), mediaSecret, accessEpoch, mediaCommitment);
              Session() == e.node && applied == e.ok
    {
      if accessEpoch == 0 || !SecretMatches(crypto, mediaSecret, mediaCommitment) || accessEpoch < epoch
         || (accessEpoch == epoch && secret != "")
         || (accessEpoch == epoch && mediaCommitment != commitment) {
        return false;
      }
      secret := mediaSecret;
      epoch := accessEpoch;
      commitment := mediaCommitment;
      UpdateMediaKeyFromSecret();
      return true;
    }

    method SendMediaKeyEnvelope(p: Id) returns (sent: bool)
      modifies this`outbox
      ensures sent == CanSeal(Session(), p)
      ensures outbox == old(outbox) + EnvelopesFor(Session(), {p})
    {
      if !keypairReady || p == 0 || p == id || secret == "" || id == 0 || !outbound {
        return false;
      }
      if p !in keys {
        return false;
      }
      if |secret| > MEDIA_SECRET_MAX_BYTES || epoch == 0 {
        return false;
      }
      outbox := outbox + {Envelope(id, p, epoch, commitment, keys[p], KeyPayload(epoch, secret))};
      return true;
    }

    method QueueMediaKeyHandoff(p: Id) returns (queued: bool)
      modifies this`outbox, this`pending
      ensures var e := QueueHandoffs(old(Session()), {p});
              Session() == e.node && outbox == old(outbox) + e.sent && queued == e.ok
    {
      pending := pending + {p};
      var sent := SendMediaKeyEnvelope(p);
      assert CanSeal(Session(), p) == old(CanSeal(Session(), p));
      assert EnvelopesFor(Session(), {p}) == old(EnvelopesFor(Session(), {p}));
      ghost var sealed := set q | q in {p} && CanSeal(old(Session()), q);
      if sent {
        assert sealed == {p};
        return true;
      }
      assert sealed == {};
      assert p in {p} && p !in sealed;
      pending := pending - {p};
      return false;
    }

    method RetryPendingKeyHandoffs()
      modifies this`outbox
      ensures outbox == old(outbox) + EnvelopesFor(Session(), pending)
    {
      var left := pending;
      while left != {}
        invariant left <= pending
        invariant outbox == old(outbox) + EnvelopesFor(Session(), pending - left)
        decreases left
      {
        var p :| p in left;
        var _ := SendMediaKeyEnvelope(p);
        assert pending - (left - {p}) == (pending - left) + {p};
        left := left - {p};
      }
      assert pending - left == pending;
    }

    method SendKeyHandoffAck(target: Id, accessEpoch: nat, mediaCommitment: string)
      modifies this`outbox
      ensures outbox == old(outbox) + AckFor(Session(), target, accessEpoch, mediaCommitment)
    {
      if target == 0 || target == id || accessEpoch == 0 || !ValidSha256Hex(mediaCommitment) || id == 0 || !outbound {
        return;
      }
      outbox := outbox + {Ack(id, target, accessEpoch, mediaCommitment)};
    }

    method HandleE2EKeyEnvelope(m: Message)
      requires m.Envelope?
      modifies this`secret, this`epoch, this`commitment, this`sessionKey, this`outbox
      ensures var e := HandleEnvelope(crypto, old(Session()), m);
              Session() == e.node && outbox == old(outbox) + e.sent
    {
      if !keypairReady || m.target != id || m.sender == 0 || m.epoch == 0 || !ValidSha256Hex(m.commitment) {
        return;
      }
      if m.sealedFor != publicKey {
        return;
      }
      if |m.payload.secret| == 0 || m.payload.epoch == 0 || m.payload.epoch != m.epoch
         || |m.payload.secret| > MEDIA_SECRET_MAX_BYTES {
        return;
      }
      var applied := ApplyMediaSecretRotation(m.payload.secret, m.payload.epoch, m.commitment);
      var alreadyApplied := m.payload.epoch == epoch && m.commitment == commitment && m.payload.secret == secret;
      if applied || alreadyApplied {
        SendKeyHandoffAck(m.sender, m.payload.epoch, m.commitment);
      }
    }

    method HandleKeyHandoffAck(m: Message)
      requires m.Ack?
      modifies this`pending
      ensures Session() == HandleAck(old(Session()), m)
    {
      if m.target == id && m.participant != 0 && m.epoch == epoch && m.commitment == commitment {
        pending := pending - {m.participant};
      }
    }

    /** `admitted` is what the sender's replay window says of the packet once it has opened. */
    method HandleRotationPacket(m: Message, admitted: bool)
      requires m.Rotation?
      modifies this`secret, this`epoch, this`commitment, this`sessionKey
      ensures Session() == if admitted then HandleRotation(crypto, old(Session()), m) else old(Session())
    {
      if sessionKey != Some(m.sealedUnder) || !admitted {
        return;
      }
      if m.epoch == 0 || |m.secret| == 0 || |m.secret| > MEDIA_SECRET_MAX_BYTES {
        return;
      }
      var _ := ApplyMediaSecretRotation(m.secret, m.epoch, m.commitment);
    }

    method RotateMediaKey(mediaSecret: string, accessEpoch: nat) returns (rotated: bool)
      modifies this`secret, this`epoch, this`commitment, this`sessionKey, this`outbox, this`pending
      ensures var e := Rotate(crypto, old(Session()), mediaSecret, accessEpoch);
              Session() == e.node && outbox == old(outbox) + e.sent && rotated == e.ok
    {
      if mediaSecret == "" || sessionKey.None? || !secureAudio || id == 0 || accessEpoch == 0 || !outbound {
        return false;
      }
      var mediaCommitment := Commitment(crypto, mediaSecret);
      if mediaCommitment.None? {
        return false;
      }
      outbox := outbox + {Rotation(id, accessEpoch, mediaCommitment.value, sessionKey.value, mediaSecret)};
      var _ := ApplyMediaSecretRotation(mediaSecret, accessEpoch, mediaCommitment.value);
      label installed:
      ghost var n, targets := Session(), keys.Keys - {id};
      var left := keys.Keys - {id};
      while left != {}
        invariant left <= targets
        invariant Session() == n.(pending := QueueHandoffs(n, targets - left).node.pending)
        invariant outbox == old@installed(outbox) + EnvelopesFor(n, targets - left)
        decreases left
      {
        var p :| p in left;
        QueueOneMore(n, targets - left, p);
        var _ := QueueMediaKeyHandoff(p);
        assert targets - (left - {p}) == (targets - left) + {p};
        left := left - {p};
      }
      assert targets - left == targets;
      return true;
    }

    /** Queueing for a set of participants one at a time, in any order, is queueing for the set. */
    static lemma QueueOneMore(n: Node, done: set<Id>, p: Id)
      ensures var mid := n.(pending := QueueHandoffs(n, done).node.pending);
              && QueueHandoffs(mid, {p}).node.pending == QueueHandoffs(n, done + {p}).node.pending
              && EnvelopesFor(mid, {p}) + EnvelopesFor(n, done) == EnvelopesFor(n, done + {p})
    {
      var mid := n.(pending := QueueHandoffs(n, done).node.pending);
      assert forall q :: CanSeal(mid, q) == CanSeal(n, q);
      assert forall q :: CanSeal(n, q) ==> EnvelopeFor(mid, q) == EnvelopeFor(n, q);
    }
  }
}

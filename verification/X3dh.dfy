/** The anonymous X3DH handshake of noknowledge/crypto/x3dh.py, and the session it starts. */
module X3dh {
  import opened Wrappers
  import opened SymbolicCrypto
  import opened RatchetModel
  import opened RatchetSession

  /** Who may sign is a name; a signature verifies under its signer's name only. */
  datatype Signature = Signed(signer: nat, bundleId: nat, spkId: int, spk: PublicKey) | BadSignature

  datatype PrekeyBundle = PrekeyBundle(
    bundleId: nat,
    isign: nat,
    idh: PublicKey,
    spkId: int,
    spk: PublicKey,
    signature: Signature,
    opks: seq<(int, PublicKey)>)

  datatype Initiation = Initiation(ek: nat, spkId: int, opkId: Option<int>, sessionKey: Term)

  datatype HandshakeError = BundleRejected | IdentityMismatch | MalformedKey

  predicate BundleVerifies(bundle: PrekeyBundle, expectedIsign: nat) {
    && bundle.isign == expectedIsign
    && 0 <= bundle.spkId < 0x1_0000_0000
    && bundle.signature == Signed(bundle.isign, bundle.bundleId, bundle.spkId, bundle.spk)
  }

  /** The three agreements, hashed; a missing one-time prekey contributes nothing. */
  function DeriveSessionKey(dh1: Term, dh2: Term, dh3: Option<Term>): Term {
    SessionKey(dh1, dh2, dh3.GetOr(NoTerm))
  }

  /** `initiate`, with the ephemeral key pair as the parameter `ek`. */
  function Initiate(bundle: PrekeyBundle, expectedIsign: nat, expectedIdh: PublicKey, ek: nat)
    : Result<Initiation, HandshakeError>
  {
    if !BundleVerifies(bundle, expectedIsign) then
      Failure(BundleRejected)
    else if bundle.idh != expectedIdh then
      Failure(IdentityMismatch)
    else
      var dh1, dh2 := Dh(ek, bundle.idh), Dh(ek, bundle.spk);
      if dh1.None? || dh2.None? then
        Failure(MalformedKey)
      else if bundle.opks == [] then
        Success(Initiation(ek, bundle.spkId, None, DeriveSessionKey(dh1.value, dh2.value, None)))
      else
        var dh3 := Dh(ek, bundle.opks[0].1);
        if dh3.None? then
          Failure(MalformedKey)
        else
          Success(Initiation(ek, bundle.spkId, Some(bundle.opks[0].0),
                             DeriveSessionKey(dh1.value, dh2.value, dh3)))
  }

  /**
   A handshake starts exactly when both identity keys are those of the contact card, the prekey id fits its four
   bytes, the signature is the contact's over this bundle id, prekey id and prekey, and every key used is a point.
   It then takes the bundle's first one-time key, if there is one.
   */
  lemma InitiateSucceedsExactlyWhen(bundle: PrekeyBundle, isign: nat, idh: PublicKey, ek: nat)
    ensures Initiate(bundle, isign, idh, ek).Success? <==>
              && bundle.isign == isign && bundle.idh == idh && 0 <= bundle.spkId < 4294967296
              && bundle.signature == Signed(isign, bundle.bundleId, bundle.spkId, bundle.spk)
              && bundle.idh.Point? && bundle.spk.Point? && (|bundle.opks| > 0 ==> bundle.opks[0].1.Point?)
    ensures Initiate(bundle, isign, idh, ek) == Failure(IdentityMismatch) ==> bundle.idh != idh
    ensures Initiate(bundle, isign, idh, ek) == Failure(MalformedKey) ==> bundle.idh == idh && bundle.isign == isign
    ensures Initiate(bundle, isign, idh, ek).Success? ==>
              var started := Initiate(bundle, isign, idh, ek).value;
              && started.ek == ek && started.spkId == bundle.spkId
              && started.opkId == (if |bundle.opks| > 0 then Some(bundle.opks[0].0) else None)
  {
  }

  /** Of an honest bundle a relay can alter nothing but the one-time keys: any other change is refused. */
  lemma AlteredBundleIsRefused(honest: PrekeyBundle, altered: PrekeyBundle, isign: nat, idh: PublicKey, ek: nat)
    requires Initiate(honest, isign, idh, ek).Success?
    requires altered.signature == honest.signature || altered.signature.BadSignature?
    requires || altered.bundleId != honest.bundleId || altered.isign != honest.isign || altered.idh != honest.idh
             || altered.spkId != honest.spkId || altered.spk != honest.spk || altered.signature != honest.signature
    ensures Initiate(altered, isign, idh, ek).Failure?
  {
    InitiateSucceedsExactlyWhen(honest, isign, idh, ek);
    InitiateSucceedsExactlyWhen(altered, isign, idh, ek);
    hide Initiate;
  }

  /** `respond`. */
  function Respond(identity: nat, signedPrekey: nat, oneTime: Option<nat>, ek: PublicKey)
    : Result<Term, HandshakeError>
  {
    if ek.BadPoint? then
      Failure(MalformedKey)
    else
      var dh3 := if oneTime.Some? then Dh(oneTime.value, ek) else None;
      Success(DeriveSessionKey(Dh(identity, ek).value, Dh(signedPrekey, ek).value, dh3))
  }

  /** The responder holds the private keys of exactly the public keys the initiator used. */
  predicate Matches(bundle: PrekeyBundle, identity: nat, signedPrekey: nat, oneTime: Option<nat>) {
    && bundle.idh == Point(identity)
    && bundle.spk == Point(signedPrekey)
    && (if bundle.opks == [] then oneTime == None
        else oneTime.Some? && bundle.opks[0].1 == Point(oneTime.value))
  }

  /** Both ends derive one session key exactly when their keys match, with or without a one-time prekey. */
  lemma BothEndsAgree(bundle: PrekeyBundle, expectedIsign: nat, expectedIdh: PublicKey, ek: nat,
                      identity: nat, signedPrekey: nat, oneTime: Option<nat>)
    requires Initiate(bundle, expectedIsign, expectedIdh, ek).Success?
    ensures Respond(identity, signedPrekey, oneTime, Point(ek))
              == Success(Initiate(bundle, expectedIsign, expectedIdh, ek).value.sessionKey)
       <==> Matches(bundle, identity, signedPrekey, oneTime)
  {
    DhAgreement(identity, ek, bundle.idh.name);
    DhAgreement(ek, identity, bundle.idh.name);
    DhAgreement(signedPrekey, ek, bundle.spk.name);
    DhAgreement(ek, signedPrekey, bundle.spk.name);
    if bundle.opks != [] && oneTime.Some? {
      DhAgreement(oneTime.value, ek, bundle.opks[0].1.name);
      DhAgreement(ek, oneTime.value, bundle.opks[0].1.name);
    }
  }

  /** Two matching ends start a conversation that is aligned. */
  lemma HandshakeStartsAligned<P>(bundle: PrekeyBundle, expectedIsign: nat, expectedIdh: PublicKey, ek: nat,
                                  identity: nat, signedPrekey: nat, oneTime: Option<nat>, firstKey: nat)
    requires Initiate(bundle, expectedIsign, expectedIdh, ek).Success?
    requires Matches(bundle, identity, signedPrekey, oneTime) && firstKey != signedPrekey
    ensures var offered := Initiate(bundle, expectedIsign, expectedIdh, ek).value.sessionKey;
            var derived := Respond(identity, signedPrekey, oneTime, Point(ek));
            var sys := Start<P>(offered, signedPrekey, firstKey);
            && derived.Success?
            && Initiator(offered, bundle.spk, firstKey) == Success(sys.initiator)
            && Responder(derived.value, signedPrekey) == sys.responder
            && Aligned(sys)
  {
    BothEndsAgree(bundle, expectedIsign, expectedIdh, ek, identity, signedPrekey, oneTime);
    StartAligned<P>(Initiate(bundle, expectedIsign, expectedIdh, ek).value.sessionKey, signedPrekey, firstKey);
  }

  /** Two ends that do not match cannot exchange a first message. */
  lemma MismatchedHandshakeFails<P>(sessionKey: Term, other: Term, spk: PublicKey, signedPrekey: nat, firstKey: nat,
                                    packet: Packet<P>, n: nat, newKey: nat)
    requires sessionKey != other
    requires Initiator(sessionKey, spk, firstKey).Success?
    requires packet.header.Header? && packet.header.dh == Point(firstKey)
    requires packet.box.Sealed?
    requires packet.box.key == KeyAt(Initiator(sessionKey, spk, firstKey).value.sendingChain.value, n)
    ensures Attempt(Responder(other, signedPrekey), packet, newKey).Failure?
  {
    var s := Responder(other, signedPrekey);
    var dh, pn, number := packet.header.dh, packet.header.pn, packet.header.n;
    var entered := EnterEpoch(s, dh, pn, newKey).value;
    var chain := entered.receivingChain.value;
    var sent := Initiator(sessionKey, spk, firstKey).value.sendingChain.value;
    assert chain.ChainKey? && sent.ChainKey? && chain.root == other && sent.root == sessionKey;
    var taken := TakeKey(entered, dh, number);
    if taken.Success? {
      assert number >= 0 && taken.value.1 == KeyAt(chain, number);
      BaseOfAdvance(chain, number);
      BaseOfAdvance(sent, n);
    }
  }
}

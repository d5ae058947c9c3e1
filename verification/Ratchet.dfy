/**
 The Double Ratchet of noknowledge/crypto/ratchet.py: its state transitions as functions on
 values, and the class whose methods update the fields in place and are proved against them.
 */
module RatchetModel {
  import opened Wrappers
  import opened SymbolicCrypto

  const MAX_SKIP: nat := 1000

  datatype RatchetError =
    | MalformedHeaderError
    | DuplicateMessage
    | SkippedTooFar
    | NoSendingChain
    | NoLocalKey
    | KeyAgreementFailed
    | AuthenticationFailed

  /** A slot of the skipped-key cache: the remote ratchet key and the message number. */
  datatype Slot = Slot(dh: Option<PublicKey>, number: int)

  datatype RatchetState = RatchetState(
    rootKey: Term,
    sendingChain: Option<Term>,
    receivingChain: Option<Term>,
    selfKey: Option<nat>,
    remote: Option<PublicKey>,
    sendCount: nat,
    recvCount: nat,
    prevSendCount: nat,
    skipped: map<Slot, Term>)

  /** What a successful decryption leaves behind: the new state, the key that opened it, the text. */
  datatype Opening<P> = Opening(state: RatchetState, key: Term, plaintext: P)

  // -- chains ------------------------------------------------------------

  /** The chain key `steps` positions further along. */
  function Advance(chain: Term, steps: nat): Term {
    if steps == 0 then chain else NextChain(Advance(chain, steps - 1))
  }

  /** The message key at position `n` of a chain. */
  function KeyAt(chain: Term, n: nat): Term {
    MessageKey(Advance(chain, n))
  }

  lemma {:induction false} AdvanceAdds(chain: Term, m: nat, n: nat)
    ensures Advance(Advance(chain, m), n) == Advance(chain, m + n)
  {
    if n > 0 {
      AdvanceAdds(chain, m, n - 1);
    }
  }

  // -- construction ------------------------------------------------------

  /** `Ratchet.initiator`: fails when the remote key is unusable. */
  function Initiator(sessionKey: Term, remote: PublicKey, newKey: nat): Result<RatchetState, RatchetError> {
    match Dh(newKey, remote)
    case None => Failure(KeyAgreementFailed)
    case Some(dh) =>
      var (root, chain) := KdfRk(sessionKey, dh);
      Success(RatchetState(root, Some(chain), None, Some(newKey), Some(remote), 0, 0, 0, map[]))
  }

  /** `Ratchet.responder`: rooted at the signed prekey, with no chain yet. */
  function Responder(sessionKey: Term, signedPrekey: nat): RatchetState {
    RatchetState(sessionKey, None, None, Some(signedPrekey), None, 0, 0, 0, map[])
  }

  // -- sending -----------------------------------------------------------

  datatype Packet<P> = Packet(header: Header, nonce: nat, box: Ciphertext<P>, context: Option<InitHeader>)

  function Encrypt<P>(s: RatchetState, plaintext: P, nonce: nat, context: Option<InitHeader>)
    : Result<(RatchetState, Packet<P>), RatchetError>
  {
    if s.sendingChain.None? || s.selfKey.None? then
      Failure(NoSendingChain)
    else
      var (key, next) := KdfCk(s.sendingChain.value);
      var header := Header(Point(s.selfKey.value), s.prevSendCount, s.sendCount);
      Success((s.(sendingChain := Some(next), sendCount := s.sendCount + 1),
               Packet(header, nonce, Seal(key, nonce, AssociatedData(context, header), plaintext), context)))
  }

  // -- receiving ---------------------------------------------------------

  /** The slots of one remote key for the numbers `from .. until`. */
  function Slots(remote: Option<PublicKey>, from: nat, until: int): set<Slot> {
    set n: int | from <= n < until :: Slot(remote, n)
  }

  /** The keys of the numbers `from .. until` of a chain that stands at `from`. */
  function SkippedRange(remote: Option<PublicKey>, chain: Term, from: nat, until: int): map<Slot, Term> {
    map slot: Slot | slot in Slots(remote, from, until) :: KeyAt(chain, slot.number - from)
  }

  /** The state once the chain has been run forward to `until`, every key on the way cached. */
  function SkippedTo(s: RatchetState, until: nat): RatchetState
    requires s.receivingChain.Some? && s.recvCount <= until
  {
    s.(receivingChain := Some(Advance(s.receivingChain.value, until - s.recvCount)),
       skipped := s.skipped + SkippedRange(s.remote, s.receivingChain.value, s.recvCount, until),
       recvCount := until)
  }

  /** `_skip_keys` in closed form. */
  function SkipKeys(s: RatchetState, until: int): Result<RatchetState, RatchetError> {
    if s.receivingChain.None? then
      Success(s)
    else if s.recvCount + MAX_SKIP < until then
      Failure(SkippedTooFar)
    else if until <= s.recvCount then
      Success(s)
    else
      Success(SkippedTo(s, until))
  }

  /** `_dh_ratchet`: `newKey` is the new key pair. */
  function DhRatchet(s: RatchetState, remote: PublicKey, newKey: nat): Result<RatchetState, RatchetError> {
    if s.selfKey.None? then
      Failure(NoLocalKey)
    else if Dh(s.selfKey.value, remote).None? then
      Failure(KeyAgreementFailed)
    else
      var (root1, receiving) := KdfRk(s.rootKey, Dh(s.selfKey.value, remote).value);
      var (root2, sending) := KdfRk(root1, Dh(newKey, remote).value);
      Success(s.(
        rootKey := root2,
        receivingChain := Some(receiving),
        sendingChain := Some(sending),
        selfKey := Some(newKey),
        remote := Some(remote),
        prevSendCount := s.sendCount,
        sendCount := 0,
        recvCount := 0))
  }

  /** The code steps the DH ratchet unless the header carries the current remote key. */
  predicate OnCurrentChain(s: RatchetState, dh: PublicKey) {
    s.remote == Some(dh) && s.receivingChain.Some?
  }

  /** The first half of `_decrypt`: bring the receiving chain to the header's ratchet key. */
  function EnterEpoch(s: RatchetState, dh: PublicKey, pn: int, newKey: nat): (r: Result<RatchetState, RatchetError>)
    ensures r.Success? ==> r.value.receivingChain.Some? && r.value.remote == Some(dh)
  {
    if OnCurrentChain(s, dh) then
      Success(s)
    else
      var skipped :- SkipKeys(s, pn);
      DhRatchet(skipped, dh, newKey)
  }

  /** The second half of `_decrypt`: the key for number `n`, from the cache or from the chain. */
  function TakeKey(s: RatchetState, dh: PublicKey, n: int): Result<(RatchetState, Term), RatchetError>
    requires s.receivingChain.Some?
  {
    var slot := Slot(Some(dh), n);
    if slot in s.skipped then
      Success((s.(skipped := s.skipped - {slot}), s.skipped[slot]))
    else if n < s.recvCount then
      Failure(DuplicateMessage)
    else if n > s.recvCount + MAX_SKIP then
      Failure(SkippedTooFar)
    else
      var ready :- SkipKeys(s, n);
      var (key, next) := KdfCk(ready.receivingChain.value);
      Success((ready.(receivingChain := Some(next), recvCount := ready.recvCount + 1), key))
  }

  /** `_decrypt`: everything a delivery may do before it is committed. */
  function Attempt<P>(s: RatchetState, packet: Packet<P>, newKey: nat): Result<Opening<P>, RatchetError> {
    match packet.header
    case MalformedHeader => Failure(MalformedHeaderError)
    case Header(dh, pn, n) =>
      var entered :- EnterEpoch(s, dh, pn, newKey);
      var taken :- TakeKey(entered, dh, n);
      match Open(taken.1, packet.nonce, packet.box, AssociatedData(packet.context, packet.header))
      case None => Failure(AuthenticationFailed)
      case Some(plaintext) => Success(Opening(taken.0, taken.1, plaintext))
  }

  /** `decrypt`: the state a call leaves behind. */
  function AfterDecrypt<P>(s: RatchetState, packet: Packet<P>, newKey: nat): RatchetState {
    match Attempt(s, packet, newKey)
    case Success(opening) => opening.state
    case Failure(_) => s
  }

  // -- the class ---------------------------------------------------------

  lemma SkippedRangeExtends(remote: Option<PublicKey>, chain: Term, from: nat, until: nat)
    requires from <= until
    ensures SkippedRange(remote, chain, from, until + 1)
         == SkippedRange(remote, chain, from, until)[Slot(remote, until) := KeyAt(chain, until - from)]
  {
    assert Slots(remote, from, until + 1) == Slots(remote, from, until) + {Slot(remote, until)};
  }

  /** One turn of the loop in `_skip_keys`. */
  function SkipOne(s: RatchetState): RatchetState
    requires s.receivingChain.Some?
  {
    var (key, next) := KdfCk(s.receivingChain.value);
    s.(receivingChain := Some(next),
       skipped := s.skipped[Slot(s.remote, s.recvCount) := key],
       recvCount := s.recvCount + 1)
  }

  lemma SkippedToStarts(s: RatchetState)
    requires s.receivingChain.Some?
    ensures SkippedTo(s, s.recvCount) == s
  {
    assert SkippedRange(s.remote, s.receivingChain.value, s.recvCount, s.recvCount) == map[];
  }

  lemma SkippedToSteps(s: RatchetState, until: nat)
    requires s.receivingChain.Some? && s.recvCount <= until
    ensures SkippedTo(s, until + 1) == SkipOne(SkippedTo(s, until))
  {
    SkippedRangeExtends(s.remote, s.receivingChain.value, s.recvCount, until);
  }

  class Ratchet {
    var rootKey: Term
    var sendingChain: Option<Term>
    var receivingChain: Option<Term>
    var selfKey: Option<nat>
    var remote: Option<PublicKey>
    var sendCount: nat
    var recvCount: nat
    var prevSendCount: nat
    var skipped: map<Slot, Term>
    /** Chain-key derivations so far, to bound the work of one call. */
    ghost var derived: nat

    function State(): RatchetState
      reads this
    {
      RatchetState(rootKey, sendingChain, receivingChain, selfKey, remote,
                   sendCount, recvCount, prevSendCount, skipped)
    }

    constructor (state: RatchetState)
      ensures State() == state && derived == 0
    {
      rootKey, sendingChain, receivingChain := state.rootKey, state.sendingChain, state.receivingChain;
      selfKey, remote := state.selfKey, state.remote;
      sendCount, recvCount, prevSendCount := state.sendCount, state.recvCount, state.prevSendCount;
      skipped := state.skipped;
      derived := 0;
    }

    method Restore(snapshot: RatchetState)
      modifies this
      ensures State() == snapshot && derived == old(derived)
    {
      rootKey, sendingChain, receivingChain := snapshot.rootKey, snapshot.sendingChain, snapshot.receivingChain;
      selfKey, remote := snapshot.selfKey, snapshot.remote;
      sendCount, recvCount, prevSendCount := snapshot.sendCount, snapshot.recvCount, snapshot.prevSendCount;
      skipped := snapshot.skipped;
    }

    method Send<P>(plaintext: P, nonce: nat, context: Option<InitHeader>)
      returns (r: Result<Packet<P>, RatchetError>)
      modifies this
      ensures match Encrypt(old(State()), plaintext, nonce, context)
              case Success(sent) => r == Success(sent.1) && State() == sent.0
              case Failure(e) => r == Failure(e) && State() == old(State())
    {
      if sendingChain.None? || selfKey.None? {
        return Failure(NoSendingChain);
      }
      var (key, next) := KdfCk(sendingChain.value);
      sendingChain := Some(next);
      var header := Header(Point(selfKey.value), prevSendCount, sendCount);
      var box := Seal(key, nonce, AssociatedData(context, header), plaintext);
      sendCount := sendCount + 1;
      return Success(Packet(header, nonce, box, context));
    }

    /** The loop of `_skip_keys`: caches one key a turn. */
    method CacheUntil(until: nat)
      requires receivingChain.Some? && recvCount <= until
      modifies this
      ensures State() == SkippedTo(old(State()), until)
      ensures derived == old(derived) + (until - old(recvCount))
    {
      hide SkippedTo;
      ghost var was := State();
      ghost var made := derived;
      SkippedToStarts(was);
      while recvCount < until
        invariant was.receivingChain.Some? && was.recvCount <= recvCount <= until
        invariant receivingChain.Some?
        invariant State() == SkippedTo(was, recvCount)
        invariant derived == made + (recvCount - was.recvCount)
      {
        SkippedToSteps(was, recvCount);
        ghost var before := State();
        var (key, next) := KdfCk(receivingChain.value);
        var cached := skipped[Slot(remote, recvCount) := key];
        derived, receivingChain, skipped, recvCount := derived + 1, Some(next), cached, recvCount + 1;
        assert State() == SkipOne(before);
      }
    }

    /** `_skip_keys`. */
    method SkipTo(until: int) returns (r: Result<(), RatchetError>)
      modifies this
      ensures match SkipKeys(old(State()), until)
              case Success(after) => r.Success? && State() == after
              case Failure(e) => r == Failure(e) && State() == old(State())
      ensures derived <= old(derived) + 1000
    {
      if receivingChain.None? {
        return Success(());
      }
      if recvCount + MAX_SKIP < until {
        return Failure(SkippedTooFar);
      }
      if recvCount < until {
        CacheUntil(until);
      }
      return Success(());
    }

    method StepDh(remoteKey: PublicKey, newKey: nat) returns (r: Result<(), RatchetError>)
      modifies this
      ensures match DhRatchet(old(State()), remoteKey, newKey)
              case Success(after) => r.Success? && State() == after
              case Failure(e) =>
                && r == Failure(e)
                && State() == old(State()).(prevSendCount := old(sendCount), sendCount := 0, recvCount := 0,
                                            remote := Some(remoteKey))
      ensures derived == old(derived)
    {
      prevSendCount := sendCount;
      sendCount := 0;
      recvCount := 0;
      remote := Some(remoteKey);
      if selfKey.None? {
        return Failure(NoLocalKey);
      }
      var shared := Dh(selfKey.value, remoteKey);
      if shared.None? {
        return Failure(KeyAgreementFailed);
      }
      var (root1, receiving) := KdfRk(rootKey, shared.value);
      rootKey, receivingChain := root1, Some(receiving);
      selfKey := Some(newKey);
      var (root2, sending) := KdfRk(rootKey, Dh(newKey, remoteKey).value);
      rootKey, sendingChain := root2, Some(sending);
      return Success(());
    }

    /** The uncommitted decryption: a failure may leave the fields half changed. */
    method TryDecrypt<P>(packet: Packet<P>, newKey: nat) returns (r: Result<P, RatchetError>)
      modifies this
      ensures match Attempt(old(State()), packet, newKey)
              case Success(opening) => r == Success(opening.plaintext) && State() == opening.state
              case Failure(e) => r == Failure(e)
      ensures derived <= old(derived) + 2001
    {
      if packet.header.MalformedHeader? {
        return Failure(MalformedHeaderError);
      }
      var dh, pn, n := packet.header.dh, packet.header.pn, packet.header.n;
      if remote != Some(dh) || receivingChain.None? {
        if receivingChain.Some? {
          var skip := SkipTo(pn);
          if skip.Failure? {
            return Failure(skip.error);
          }
        }
        var step := StepDh(dh, newKey);
        if step.Failure? {
          return Failure(step.error);
        }
      }
      assert EnterEpoch(old(State()), dh, pn, newKey) == Success(State());
      assert derived <= old(derived) + MAX_SKIP;
      var slot := Slot(Some(dh), n);
      var key: Term;
      if slot in skipped {
        key := skipped[slot];
        skipped := skipped - {slot};
      } else {
        if n < recvCount {
          return Failure(DuplicateMessage);
        }
        if n > recvCount + MAX_SKIP {
          return Failure(SkippedTooFar);
        }
        var skip := SkipTo(n);
        if skip.Failure? {
          return Failure(skip.error);
        }
        var (messageKey, next) := KdfCk(receivingChain.value);
        derived := derived + 1;
        key, receivingChain := messageKey, Some(next);
        recvCount := recvCount + 1;
      }
      match Open(key, packet.nonce, packet.box, AssociatedData(packet.context, packet.header))
      case None => return Failure(AuthenticationFailed);
      case Some(plaintext) => return Success(plaintext);
    }

    /** Transactional: the fields advance on success and are restored exactly on any failure. */
    method Decrypt<P>(packet: Packet<P>, newKey: nat) returns (r: Result<P, RatchetError>)
      modifies this
      ensures State() == AfterDecrypt(old(State()), packet, newKey)
      ensures match Attempt(old(State()), packet, newKey)
              case Success(opening) => r == Success(opening.plaintext)
              case Failure(e) => r == Failure(e) && State() == old(State())
      ensures derived <= old(derived) + 2001
    {
      var snapshot := State();
      r := TryDecrypt(packet, newKey);
      if r.Failure? {
        Restore(snapshot);
      }
    }
  }

  // -- one call is bounded ----------------------------------------------

  lemma SlotsSize(remote: Option<PublicKey>, from: nat, until: nat)
    requires from <= until
    ensures |Slots(remote, from, until)| == until - from
    decreases until - from
  {
    if from == until {
      assert Slots(remote, from, until) == {};
    } else {
      SlotsSize(remote, from, until - 1);
      assert Slots(remote, from, until) == Slots(remote, from, until - 1) + {Slot(remote, until - 1)};
    }
  }

  lemma MapSumSize<K, V>(a: map<K, V>, b: map<K, V>)
    ensures |a + b| <= |a| + |b|
  {
    assert |a.Keys| == |a| && |b.Keys| == |b| && |(a + b).Keys| == |a + b|;
    assert (a + b).Keys == a.Keys + b.Keys;
  }

  lemma SkipGrowth(s: RatchetState, until: int)
    ensures match SkipKeys(s, until)
            case Success(after) => |after.skipped| <= |s.skipped| + MAX_SKIP
            case Failure(_) => true
  {
    if s.receivingChain.Some? && s.recvCount < until <= s.recvCount + MAX_SKIP {
      var range := SkippedRange(s.remote, s.receivingChain.value, s.recvCount, until);
      SlotsSize(s.remote, s.recvCount, until);
      assert range.Keys == Slots(s.remote, s.recvCount, until);
      assert |range| == |range.Keys|;
      MapSumSize(s.skipped, range);
    }
  }

  lemma RemovalShrinks<K, V>(m: map<K, V>, k: K)
    ensures |m - {k}| <= |m|
  {
    assert (m - {k}).Keys <= m.Keys;
    SubsetSize((m - {k}).Keys, m.Keys);
    assert |(m - {k}).Keys| == |m - {k}| && |m.Keys| == |m|;
  }

  lemma SubsetSize<T>(a: set<T>, b: set<T>)
    requires a <= b
    ensures |a| <= |b|
  {
    if a != {} {
      var x :| x in a;
      SubsetSize(a - {x}, b - {x});
    }
  }

  lemma EnterGrowth(s: RatchetState, dh: PublicKey, pn: int, newKey: nat)
    ensures match EnterEpoch(s, dh, pn, newKey)
            case Success(after) => |after.skipped| <= |s.skipped| + MAX_SKIP
            case Failure(_) => true
  {
    SkipGrowth(s, pn);
  }

  lemma TakeGrowth(s: RatchetState, dh: PublicKey, n: int)
    requires s.receivingChain.Some?
    ensures match TakeKey(s, dh, n)
            case Success(taken) => |taken.0.skipped| <= |s.skipped| + MAX_SKIP
            case Failure(_) => true
  {
    SkipGrowth(s, n);
    RemovalShrinks(s.skipped, Slot(Some(dh), n));
  }

  /** Whatever the header says, one call adds at most two gaps' worth of cached keys. */
  lemma DecryptGrowth<P>(s: RatchetState, packet: Packet<P>, newKey: nat)
    ensures |AfterDecrypt(s, packet, newKey).skipped| <= |s.skipped| + 2000
  {
    if Attempt(s, packet, newKey).Success? {
      var dh, pn, n := packet.header.dh, packet.header.pn, packet.header.n;
      var entered := EnterEpoch(s, dh, pn, newKey).value;
      EnterGrowth(s, dh, pn, newKey);
      TakeGrowth(entered, dh, n);
    }
  }
}

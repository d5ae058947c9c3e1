/**
 No message key is ever used twice: over any run of encryptions and of deliveries with
 arbitrary headers, nonces and ciphertexts, the keys that sealed or opened something are
 pairwise distinct.

 Every root-key step makes the root term one level deeper, so a chain is identified by the
 depth of the root it hangs from (its generation) and a message key by its generation and
 its distance along the chain.
 */
module RatchetKeys {
  import opened Wrappers
  import opened SymbolicCrypto
  import opened RatchetModel

  function Depth(root: Term): nat {
    match root
    case RootKey(inner, _) => 1 + Depth(inner)
    case _ => 0
  }

  predicate IsChain(t: Term) {
    match t
    case ChainKey(_, _) => true
    case NextChain(c) => IsChain(c)
    case _ => false
  }

  /** The depth of the root a chain hangs from. */
  function Generation(t: Term): nat {
    match t
    case ChainKey(root, _) => Depth(root)
    case NextChain(c) => Generation(c)
    case _ => 0
  }

  /** How far along its chain a chain key is. */
  function Distance(t: Term): nat {
    match t
    case NextChain(c) => 1 + Distance(c)
    case _ => 0
  }

  lemma {:induction false} AdvancePosition(chain: Term, steps: nat)
    ensures IsChain(Advance(chain, steps)) == IsChain(chain)
    ensures Generation(Advance(chain, steps)) == Generation(chain)
    ensures Distance(Advance(chain, steps)) == Distance(chain) + steps
  {
    if steps > 0 {
      AdvancePosition(chain, steps - 1);
    }
  }

  /** `key` cannot be derived any more from `chain`: another generation, or already passed. */
  predicate Passed(key: Term, chain: Option<Term>) {
    key.MessageKey? && (chain.Some? && Generation(key.chain) == Generation(chain.value) ==>
      Distance(key.chain) < Distance(chain.value))
  }

  predicate ChainBelow(chain: Option<Term>, depth: nat) {
    chain.Some? ==> IsChain(chain.value) && Generation(chain.value) < depth
  }

  /** `key` belongs to an earlier part of the session than anything still derivable. */
  predicate Spent(s: RatchetState, key: Term) {
    && key.MessageKey? && IsChain(key.chain) && Generation(key.chain) < Depth(s.rootKey)
    && Passed(key, s.receivingChain) && Passed(key, s.sendingChain)
  }

  ghost predicate ChainsApart(s: RatchetState) {
    && ChainBelow(s.receivingChain, Depth(s.rootKey))
    && ChainBelow(s.sendingChain, Depth(s.rootKey))
    && (s.receivingChain.Some? && s.sendingChain.Some? ==>
          Generation(s.receivingChain.value) != Generation(s.sendingChain.value))
  }

  /** What every committed state keeps, `used` being the keys used so far. */
  ghost predicate KeysInOrder(s: RatchetState, used: set<Term>) {
    && ChainsApart(s)
    && (forall key :: key in used ==> Spent(s, key))
    && (forall slot :: slot in s.skipped ==> Spent(s, s.skipped[slot]) && s.skipped[slot] !in used)
    && (forall slot, other :: slot in s.skipped && other in s.skipped && slot != other ==>
          s.skipped[slot] != s.skipped[other])
  }

  // -- what each internal step keeps --------------------------------------

  lemma RangeValues(remote: Option<PublicKey>, chain: Term, from: nat, until: int, slot: Slot)
    requires IsChain(chain)
    requires slot in SkippedRange(remote, chain, from, until)
    ensures var key := SkippedRange(remote, chain, from, until)[slot];
            && key.MessageKey? && IsChain(key.chain)
            && Generation(key.chain) == Generation(chain)
            && Distance(key.chain) == Distance(chain) + (slot.number - from)
            && slot == Slot(remote, slot.number) && from <= slot.number < until
  {
    AdvancePosition(chain, slot.number - from);
  }

  lemma SkipKeepsOrder(s: RatchetState, until: int, used: set<Term>, after: RatchetState)
    requires KeysInOrder(s, used)
    requires SkipKeys(s, until) == Success(after)
    ensures KeysInOrder(after, used)
  {
    if s.receivingChain.Some? && s.recvCount < until {
      SkippedToKeepsOrder(s, until, used);
    }
  }

  lemma SkippedToKeepsOrder(s: RatchetState, until: nat, used: set<Term>)
    requires KeysInOrder(s, used) && s.receivingChain.Some? && s.recvCount < until
    ensures KeysInOrder(SkippedTo(s, until), used)
  {
    var chain := s.receivingChain.value;
    var after := SkippedTo(s, until);
    var range := SkippedRange(s.remote, chain, s.recvCount, until);
    AdvancePosition(chain, until - s.recvCount);
    forall slot | slot in range
      ensures Spent(after, range[slot]) && range[slot] !in used
      ensures forall old_ :: old_ in s.skipped ==> s.skipped[old_] != range[slot]
    {
      RangeValues(s.remote, chain, s.recvCount, until, slot);
    }
    forall key | Spent(s, key)
      ensures Spent(after, key)
    {
    }
    forall slot, other | slot in after.skipped && other in after.skipped && slot != other
      ensures after.skipped[slot] != after.skipped[other]
    {
      if slot in range && other in range {
        RangeValues(s.remote, chain, s.recvCount, until, slot);
        RangeValues(s.remote, chain, s.recvCount, until, other);
      }
    }
  }

  lemma DhKeepsOrder(s: RatchetState, remote: PublicKey, newKey: nat, used: set<Term>, after: RatchetState)
    requires KeysInOrder(s, used)
    requires DhRatchet(s, remote, newKey) == Success(after)
    ensures KeysInOrder(after, used)
  {
    assert Generation(after.receivingChain.value) == Depth(s.rootKey);
    assert Generation(after.sendingChain.value) == Depth(s.rootKey) + 1;
    assert Depth(after.rootKey) == Depth(s.rootKey) + 2;
  }

  lemma EnterKeepsOrder(s: RatchetState, dh: PublicKey, pn: int, newKey: nat, used: set<Term>, after: RatchetState)
    requires KeysInOrder(s, used)
    requires EnterEpoch(s, dh, pn, newKey) == Success(after)
    ensures KeysInOrder(after, used)
  {
    if !OnCurrentChain(s, dh) {
      var skipped := SkipKeys(s, pn).value;
      SkipKeepsOrder(s, pn, used, skipped);
      DhKeepsOrder(skipped, dh, newKey, used, after);
    }
  }

  /** Deriving the next key of the receiving chain. */
  lemma DeriveKeepsOrder(s: RatchetState, used: set<Term>)
    requires KeysInOrder(s, used) && s.receivingChain.Some?
    ensures MessageKey(s.receivingChain.value) !in used
    ensures KeysInOrder(s.(receivingChain := Some(NextChain(s.receivingChain.value)), recvCount := s.recvCount + 1),
                        used + {MessageKey(s.receivingChain.value)})
  {
  }

  lemma TakeKeepsOrder(s: RatchetState, dh: PublicKey, n: int, used: set<Term>, after: RatchetState, key: Term)
    requires KeysInOrder(s, used) && s.receivingChain.Some?
    requires TakeKey(s, dh, n) == Success((after, key))
    ensures key !in used && KeysInOrder(after, used + {key})
  {
    if Slot(Some(dh), n) !in s.skipped {
      var ready := SkipKeys(s, n).value;
      SkipKeepsOrder(s, n, used, ready);
      DeriveKeepsOrder(ready, used);
    }
  }

  lemma AttemptKeepsOrder<P>(s: RatchetState, packet: Packet<P>, newKey: nat, used: set<Term>, opening: Opening<P>)
    requires KeysInOrder(s, used)
    requires Attempt(s, packet, newKey) == Success(opening)
    ensures opening.key !in used && KeysInOrder(opening.state, used + {opening.key})
  {
    var dh, pn, n := packet.header.dh, packet.header.pn, packet.header.n;
    var entered := EnterEpoch(s, dh, pn, newKey).value;
    EnterKeepsOrder(s, dh, pn, newKey, used, entered);
    TakeKeepsOrder(entered, dh, n, used, opening.state, opening.key);
  }

  lemma EncryptKeepsOrder<P>(s: RatchetState, plaintext: P, nonce: nat, context: Option<InitHeader>,
                             used: set<Term>, after: RatchetState, packet: Packet<P>)
    requires KeysInOrder(s, used)
    requires Encrypt(s, plaintext, nonce, context) == Success((after, packet))
    ensures packet.box.Sealed? && packet.box.key !in used && KeysInOrder(after, used + {packet.box.key})
  {
  }

  // -- runs -----------------------------------------------------------------

  /** One call on a ratchet, with every argument left to the caller or to an attacker. */
  datatype Call<P> =
    | EncryptCall(plaintext: P, nonce: nat, context: Option<InitHeader>)
    | DecryptCall(packet: Packet<P>, newKey: nat)

  function Next<P>(s: RatchetState, call: Call<P>): RatchetState {
    match call
    case EncryptCall(plaintext, nonce, context) =>
      (match Encrypt(s, plaintext, nonce, context) case Success(sent) => sent.0 case Failure(_) => s)
    case DecryptCall(packet, newKey) => AfterDecrypt(s, packet, newKey)
  }

  /** The key a call seals or opens with, if it succeeds. */
  function KeyUsed<P>(s: RatchetState, call: Call<P>): seq<Term> {
    match call
    case EncryptCall(plaintext, nonce, context) =>
      (match Encrypt(s, plaintext, nonce, context)
       case Success(sent) => [sent.1.box.key]
       case Failure(_) => [])
    case DecryptCall(packet, newKey) =>
      (match Attempt(s, packet, newKey) case Success(opening) => [opening.key] case Failure(_) => [])
  }

  /** Every key a run of calls uses, in order. */
  function KeyLog<P>(s: RatchetState, calls: seq<Call<P>>): seq<Term>
    decreases |calls|
  {
    if calls == [] then [] else KeyUsed(s, calls[0]) + KeyLog(Next(s, calls[0]), calls[1..])
  }

  predicate Distinct<T(==)>(xs: seq<T>) {
    forall i, j :: 0 <= i < j < |xs| ==> xs[i] != xs[j]
  }

  lemma CallKeepsOrder<P>(s: RatchetState, call: Call<P>, used: set<Term>)
    requires KeysInOrder(s, used)
    ensures KeyUsed(s, call) == [] ==> Next(s, call) == s
    ensures KeyUsed(s, call) != [] ==> KeyUsed(s, call)[0] !in used
                                       && KeysInOrder(Next(s, call), used + {KeyUsed(s, call)[0]})
  {
    if call.EncryptCall? {
      var sent := Encrypt(s, call.plaintext, call.nonce, call.context);
      if sent.Success? {
        EncryptKeepsOrder(s, call.plaintext, call.nonce, call.context, used, sent.value.0, sent.value.1);
      }
    } else {
      var opening := Attempt(s, call.packet, call.newKey);
      if opening.Success? {
        AttemptKeepsOrder(s, call.packet, call.newKey, used, opening.value);
      }
    }
  }

  lemma {:induction false} RunKeepsOrder<P>(s: RatchetState, calls: seq<Call<P>>, used: set<Term>)
    requires KeysInOrder(s, used)
    ensures Distinct(KeyLog(s, calls))
    ensures forall key :: key in KeyLog(s, calls) ==> key !in used
    decreases |calls|
  {
    if calls != [] {
      var call := calls[0];
      CallKeepsOrder(s, call, used);
      var now := set key | key in KeyUsed(s, call);
      assert KeysInOrder(Next(s, call), used + now) by {
        if KeyUsed(s, call) == [] {
          assert used + now == used;
        } else {
          assert now == {KeyUsed(s, call)[0]};
        }
      }
      RunKeepsOrder(Next(s, call), calls[1..], used + now);
      var rest := KeyLog(Next(s, call), calls[1..]);
      assert forall key :: key in rest ==> key !in now;
      assert forall i :: 0 <= i < |rest| ==> rest[i] in rest;
    }
  }

  /** Starting from either constructor, no key is used twice in any run of calls. */
  lemma NoKeyUsedTwice<P>(sessionKey: Term, remote: PublicKey, ownKey: nat, calls: seq<Call<P>>)
    ensures Distinct(KeyLog(Responder(sessionKey, ownKey), calls))
    ensures Initiator(sessionKey, remote, ownKey).Success? ==>
              Distinct(KeyLog(Initiator(sessionKey, remote, ownKey).value, calls))
  {
    RunKeepsOrder(Responder(sessionKey, ownKey), calls, {});
    var initiator := Initiator(sessionKey, remote, ownKey);
    if initiator.Success? {
      RunKeepsOrder(initiator.value, calls, {});
    }
  }

  /** In particular a packet that opened once never opens again, whatever happened in between. */
  lemma {:induction false} OpenedStaysShut<P>(s: RatchetState, packet: Packet<P>, newKey: nat, between: seq<Call<P>>,
                           again: Packet<P>, laterKey: nat, used: set<Term>)
    requires KeysInOrder(s, used)
    requires Attempt(s, packet, newKey).Success?
    requires again.box == packet.box
    ensures Attempt(RunCalls(AfterDecrypt(s, packet, newKey), between), again, laterKey).Failure?
  {
    var opening := Attempt(s, packet, newKey).value;
    AttemptKeepsOrder(s, packet, newKey, used, opening);
    var last := RunCalls(opening.state, between);
    var again' := DecryptCall(again, laterKey);
    RunKeepsOrder(opening.state, between + [again'], used + {opening.key});
    LogSplits(opening.state, between, [again']);
    assert KeyLog(last, [again']) == KeyUsed(last, again') by {
      assert [again'][1..] == [];
    }
    assert forall key :: key in KeyUsed(last, again') ==> key in KeyLog(opening.state, between + [again']);
  }

  function RunCalls<P>(s: RatchetState, calls: seq<Call<P>>): RatchetState
    decreases |calls|
  {
    if calls == [] then s else RunCalls(Next(s, calls[0]), calls[1..])
  }

  lemma {:induction false} LogSplits<P>(s: RatchetState, left: seq<Call<P>>, right: seq<Call<P>>)
    ensures KeyLog(s, left + right) == KeyLog(s, left) + KeyLog(RunCalls(s, left), right)
    decreases |left|
  {
    if left == [] {
      assert left + right == right;
    } else {
      assert (left + right)[1..] == left[1..] + right;
      LogSplits(Next(s, left[0]), left[1..], right);
    }
  }
}

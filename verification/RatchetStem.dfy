/** Every key of a session grows from its session key, so no session opens what another one sealed. */
module RatchetStem {
  import opened Wrappers
  import opened SymbolicCrypto
  import opened RatchetModel

  /** The session key at the bottom of a key. */
  function Stem(t: Term): Term {
    match t
    case RootKey(root, _) => Stem(root)
    case ChainKey(root, _) => Stem(root)
    case NextChain(chain) => Stem(chain)
    case MessageKey(chain) => Stem(chain)
    case _ => t
  }

  lemma {:induction false} AdvanceKeepsStem(chain: Term, steps: nat)
    ensures Stem(Advance(chain, steps)) == Stem(chain)
  {
    if steps > 0 {
      AdvanceKeepsStem(chain, steps - 1);
    }
  }

  /** All that the receiving side of a ratchet holds grows from `stem`. */
  ghost predicate GrownFrom(s: RatchetState, stem: Term) {
    && Stem(s.rootKey) == stem
    && (s.receivingChain.Some? ==> Stem(s.receivingChain.value) == stem)
    && forall slot :: slot in s.skipped ==> Stem(s.skipped[slot]) == stem
  }

  lemma SkippingKeepsStem(s: RatchetState, until: int, stem: Term)
    requires GrownFrom(s, stem)
    ensures SkipKeys(s, until).Success? ==> GrownFrom(SkipKeys(s, until).value, stem)
  {
    if s.receivingChain.Some? && s.recvCount < until <= s.recvCount + MAX_SKIP {
      var chain := s.receivingChain.value;
      AdvanceKeepsStem(chain, until - s.recvCount);
      var range := SkippedRange(s.remote, chain, s.recvCount, until);
      forall slot | slot in range
        ensures Stem(range[slot]) == stem
      {
        AdvanceKeepsStem(chain, slot.number - s.recvCount);
      }
      assert SkipKeys(s, until) == Success(SkippedTo(s, until));
    }
  }

  lemma EnteringKeepsStem(s: RatchetState, dh: PublicKey, pn: int, newKey: nat, stem: Term)
    requires GrownFrom(s, stem)
    ensures EnterEpoch(s, dh, pn, newKey).Success? ==> GrownFrom(EnterEpoch(s, dh, pn, newKey).value, stem)
  {
    SkippingKeepsStem(s, pn, stem);
    if SkipKeys(s, pn).Success? {
      SteppingKeepsStem(SkipKeys(s, pn).value, dh, newKey, stem);
    }
    hide SkipKeys, DhRatchet, GrownFrom;
  }

  lemma SteppingKeepsStem(s: RatchetState, dh: PublicKey, newKey: nat, stem: Term)
    requires GrownFrom(s, stem)
    ensures DhRatchet(s, dh, newKey).Success? ==> GrownFrom(DhRatchet(s, dh, newKey).value, stem)
  {
    if DhRatchet(s, dh, newKey).Success? {
      var root := RootKey(s.rootKey, Dh(s.selfKey.value, dh).value);
      assert Stem(root) == stem && Stem(RootKey(root, Dh(newKey, dh).value)) == stem;
    }
  }

  lemma TakingKeepsStem(s: RatchetState, dh: PublicKey, n: int, stem: Term)
    requires GrownFrom(s, stem) && s.receivingChain.Some?
    ensures TakeKey(s, dh, n).Success? ==>
              GrownFrom(TakeKey(s, dh, n).value.0, stem) && Stem(TakeKey(s, dh, n).value.1) == stem
  {
    SkippingKeepsStem(s, n, stem);
  }

  /** A packet opens only under a key of the session's own stem, and opening stays on it. */
  lemma OpeningKeepsStem<P>(s: RatchetState, packet: Packet<P>, newKey: nat, stem: Term)
    requires GrownFrom(s, stem)
    ensures Attempt(s, packet, newKey).Success? ==>
              && GrownFrom(Attempt(s, packet, newKey).value.state, stem)
              && packet.box.Sealed? && Stem(packet.box.key) == stem
              && packet.box.ad == AssociatedData(packet.context, packet.header) && packet.box.nonce == packet.nonce
              && Attempt(s, packet, newKey).value.plaintext == packet.box.plaintext
  {
    if packet.header.Header? {
      EnteringKeepsStem(s, packet.header.dh, packet.header.pn, newKey, stem);
      var entered := EnterEpoch(s, packet.header.dh, packet.header.pn, newKey);
      if entered.Success? {
        TakingKeepsStem(entered.value, packet.header.dh, packet.header.n, stem);
      }
    }
    hide EnterEpoch, TakeKey, GrownFrom;
  }
}

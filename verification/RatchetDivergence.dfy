/**
 What the late delivery of a cached packet costs. The code steps the Diffie-Hellman ratchet
 before it looks into the skipped-key cache, where the protocol description and section 3.5 of
 the Double Ratchet specification look there first. The packet opens, and from then on neither
 side understands the other: here right after the late delivery and on a schedule that reaches it,
 in RatchetStray over every run that follows.
 */
module RatchetDivergence {
  import opened Wrappers
  import opened SymbolicCrypto
  import opened RatchetModel
  import opened RatchetChain
  import opened RatchetSession
  import RatchetKeys

  /** The conversation as the party that did not diverge may continue it. */
  ghost predicate Continues<P>(h: History<P>, g: History<P>, e: nat) {
    && HistoryOk(h) && HistoryOk(g) && g.sessionKey == h.sessionKey && h.keys <= g.keys
    && e < |h.keys| && |g.keys| <= e + 2
  }

  lemma DivergedRootDepth<P>(h: History<P>, e: nat, i: nat, newKey: nat)
    requires HistoryOk(h) && i < e < |h.keys|
    ensures RatchetKeys.Depth(RootKey(RootKey(Root(h.sessionKey, h.keys, e), Agreed(h.keys[e], h.keys[i])),
                                      Agreed(newKey, h.keys[i])))
         == RatchetKeys.Depth(h.sessionKey) + e + 2
  {
    RootDepth(h.sessionKey, h.keys, e);
  }

  /** The diverged party opens no packet any more, but those whose keys it has cached already. */
  lemma DivergedPartyIsDeaf<P>(h: History<P>, e: nat, i: nat, newKey: nat, t: RatchetState,
                               g: History<P>, packet: Packet<P>, j: nat, m: nat, laterKey: nat)
    requires Continues(h, g, e) && 1 <= i < e
    requires Astray(t, Root(h.sessionKey, h.keys, e), h.keys[e], h.keys[i], newKey)
    requires 1 <= j && IsSent(g, packet, j, m)
    requires Slot(Some(Point(g.keys[j])), m) !in t.skipped
    ensures Attempt(t, packet, laterKey).Failure?
  {
    assert SentAt(g, j, m);
    var origin := Origin(g.sessionKey, g.keys, j);
    RootDepth(g.sessionKey, g.keys, j - 1);
    DivergedRootDepth(h, e, i, newKey);
    if j == i {
      RootDepth(h.sessionKey, h.keys, e);
      var chain := t.receivingChain.value;
      BaseOfAdvance(chain, m);
      BaseOfAdvance(origin, m);
      assert chain != origin;
      WrongChainFails(t, origin, packet, laterKey, m);
    } else {
      assert g.keys[j] != g.keys[i];
      WrongEpochFails(t, origin, packet, laterKey, m);
    }
  }

  /** On the current ratchet key, but with a chain that is not the packet's. */
  lemma WrongChainFails<P>(t: RatchetState, origin: Term, packet: Packet<P>, laterKey: nat, m: nat)
    requires packet.header.Header? && packet.header.n == m && packet.box.Sealed?
    requires Genuine(packet, packet.header.dh, origin, m, packet.box.plaintext)
    requires OnCurrentChain(t, packet.header.dh) && t.recvCount == 0
    requires Slot(Some(packet.header.dh), m) !in t.skipped
    requires Advance(t.receivingChain.value, m) != Advance(origin, m)
    ensures Attempt(t, packet, laterKey).Failure?
  {
    var taken := TakeKey(t, packet.header.dh, m);
    if taken.Success? {
      assert taken.value.1 == KeyAt(t.receivingChain.value, m);
    }
  }

  /** Nothing the diverged party seals under its new ratchet key opens at its peer. */
  lemma DivergedPartyIsUnheard<P>(h: History<P>, e: nat, i: nat, newKey: nat, t: RatchetState,
                                  g: History<P>, peer: RatchetState, f: nat,
                                  packet: Packet<P>, n: nat, laterKey: nat)
    requires Continues(h, g, e) && 1 <= i < e && newKey !in g.keys
    requires Astray(t, Root(h.sessionKey, h.keys, e), h.keys[e], h.keys[i], newKey)
    requires PartyAt(peer, f, g) && (f + 1 == e || f == e + 1)
    requires packet.header.Header? && packet.header.dh == Point(newKey)
    requires packet.box.Sealed? && packet.box.key == KeyAt(t.sendingChain.value, n)
    ensures Attempt(peer, packet, laterKey).Failure?
  {
    hide Root, HistoryOk;
    var dh, pn, number := packet.header.dh, packet.header.pn, packet.header.n;
    SlotsAreKnown(peer, f, g);
    assert !KnownSlot(g, f, Slot(Some(dh), number));
    assert f >= 1 ==> peer.remote == Some(Point(g.keys[f - 1]));
    var entered := EnterEpoch(peer, dh, pn, laterKey);
    if entered.Success? {
      var skipped := SkipKeys(peer, pn).value;
      assert Slot(Some(dh), number) !in skipped.skipped;
      var chain := entered.value.receivingChain.value;
      assert chain == ChainKey(Root(g.sessionKey, g.keys, f), Agreed(g.keys[f], newKey));
      DivergedChainDiffers(h, g, e, f, i, newKey);
      assert chain != t.sendingChain.value;
      var taken := TakeKey(entered.value, dh, number);
      if taken.Success? {
        assert number >= 0 && taken.value.1 == KeyAt(chain, number);
        BaseOfAdvance(chain, number);
        BaseOfAdvance(t.sendingChain.value, n);
      }
    }
  }

  lemma SlotsAreKnown<P>(s: RatchetState, e: nat, h: History<P>)
    requires PartyAt(s, e, h)
    ensures |h.sent| == |h.keys|
    ensures forall slot :: slot in s.skipped ==> KnownSlot(h, e, slot)
  {
  }

  lemma DivergedChainDiffers<P>(h: History<P>, g: History<P>, e: nat, f: nat, i: nat, newKey: nat)
    requires Continues(h, g, e) && 1 <= i < e && f < |g.keys| && (f + 1 == e || f == e + 1)
    ensures Root(g.sessionKey, g.keys, f) != RootKey(Root(h.sessionKey, h.keys, e), Agreed(h.keys[e], h.keys[i]))
  {
    RootPrefix(h.sessionKey, h.keys, g.keys, e);
    RootDepth(g.sessionKey, g.keys, f);
    RootDepth(h.sessionKey, h.keys, e);
    if f == e + 1 {
      assert Root(g.sessionKey, g.keys, f) == RootKey(Root(g.sessionKey, g.keys, e), Agreed(g.keys[e], g.keys[f]));
      DhAgreement(g.keys[e], g.keys[f], g.keys[i]);
      assert g.keys[i] != g.keys[f];
    }
  }

  // -- a schedule that reaches it -----------------------------------------------

  const R0 := Secret(0)
  const R1 := RootKey(R0, SharedPoint(0, 1))
  const C1 := ChainKey(R0, SharedPoint(0, 1))
  const R2 := RootKey(R1, SharedPoint(1, 2))
  const C2 := ChainKey(R1, SharedPoint(1, 2))
  const R3 := RootKey(R2, SharedPoint(2, 3))
  const C3 := ChainKey(R2, SharedPoint(2, 3))
  const R4 := RootKey(R3, SharedPoint(3, 4))
  const C4 := ChainKey(R3, SharedPoint(3, 4))

  /** What `Encrypt` sends in state `s` whose sending chain stands at `chain`. */
  function Message(s: RatchetState, chain: Term, text: string): Packet<string> {
    var header := Header(Point(s.selfKey.GetOr(0)), s.prevSendCount, s.sendCount);
    Packet(header, 0, Sealed(MessageKey(chain), 0, AssociatedData(None, header), text), None)
  }

  const Alice0 := RatchetState(R1, Some(C1), None, Some(1), Some(Point(0)), 0, 0, 0, map[])
  const Alice1 := Alice0.(sendingChain := Some(NextChain(C1)), sendCount := 1)
  const Alice2 := Alice0.(sendingChain := Some(NextChain(NextChain(C1))), sendCount := 2)
  const Alice3 := RatchetState(R3, Some(C3), Some(NextChain(C2)), Some(3), Some(Point(2)), 0, 1, 2, map[])
  const Alice4 := Alice3.(sendingChain := Some(NextChain(C3)), sendCount := 1)
  const Bob0 := Responder(R0, 0)
  const Cache := map[Slot(Some(Point(1)), 0) := MessageKey(C1)]
  const Bob1 := RatchetState(R2, Some(C2), Some(NextChain(NextChain(C1))), Some(2), Some(Point(1)), 0, 2, 0, Cache)
  const Bob2 := Bob1.(sendingChain := Some(NextChain(C2)), sendCount := 1)
  const Bob3 := RatchetState(R4, Some(C4), Some(NextChain(C3)), Some(4), Some(Point(3)), 0, 1, 1, Cache)

  const One := Message(Alice0, C1, "one")
  const Two := Message(Alice1, NextChain(C1), "two")
  const Reply := Message(Bob1, C2, "reply")
  const Three := Message(Alice3, C3, "three")
  const Four := Message(Alice4, NextChain(C3), "four")

  /** The schedule is a run of the code, from the two constructors on. */
  lemma ScheduleRuns()
    ensures Initiator(R0, Point(0), 1) == Success(Alice0)
    ensures Encrypt(Alice0, "one", 0, None) == Success((Alice1, One))
    ensures Encrypt(Alice1, "two", 0, None) == Success((Alice2, Two))
    ensures AfterDecrypt(Bob0, Two, 2) == Bob1
    ensures Encrypt(Bob1, "reply", 0, None) == Success((Bob2, Reply))
    ensures AfterDecrypt(Alice2, Reply, 3) == Alice3
    ensures Encrypt(Alice3, "three", 0, None) == Success((Alice4, Three))
    ensures AfterDecrypt(Bob2, Three, 4) == Bob3
  {
    hide AfterDecrypt, Bob1, Bob2, Bob3, Alice3;
    BobSkipsOne();
    AliceAnswers();
    BobFollows();
    SendsMatch();
  }

  lemma SendsMatch()
    ensures Encrypt(Alice0, "one", 0, None) == Success((Alice1, One))
    ensures Encrypt(Alice1, "two", 0, None) == Success((Alice2, Two))
    ensures Encrypt(Bob1, "reply", 0, None) == Success((Bob2, Reply))
    ensures Encrypt(Alice3, "three", 0, None) == Success((Alice4, Three))
  {
  }

  lemma BobSkipsOne()
    ensures AfterDecrypt(Bob0, Two, 2) == Bob1
  {
    var entered := EnterEpoch(Bob0, Point(1), 0, 2).value;
    assert entered == RatchetState(R2, Some(C2), Some(C1), Some(2), Some(Point(1)), 0, 0, 0, map[]);
    assert Slots(Some(Point(1)), 0, 1) == {Slot(Some(Point(1)), 0)};
    assert Advance(C1, 0) == C1;
    assert SkippedRange(Some(Point(1)), C1, 0, 1) == Cache;
    assert Advance(C1, 1) == NextChain(C1);
  }

  lemma AliceAnswers()
    ensures AfterDecrypt(Alice2, Reply, 3) == Alice3
  {
    assert EnterEpoch(Alice2, Point(2), 0, 3)
        == Success(RatchetState(R3, Some(C3), Some(C2), Some(3), Some(Point(2)), 0, 0, 2, map[]));
  }

  lemma BobFollows()
    ensures AfterDecrypt(Bob2, Three, 4) == Bob3
  {
    assert SkipKeys(Bob2, 2) == Success(Bob2);
    assert EnterEpoch(Bob2, Point(3), 2, 4)
        == Success(RatchetState(R4, Some(C4), Some(C3), Some(4), Some(Point(3)), 0, 0, 1, Cache));
  }

  /**
   Alice sends two messages, Bob receives only the second and answers, Alice answers again and
   Bob follows; then the first message arrives late. It opens, and Alice's next message, which
   would have opened a moment earlier, is refused.
   */
  lemma LateMessageBreaksTheSession()
    ensures Initiator(R0, Point(0), 1) == Success(Alice0) && Bob0 == Responder(R0, 0)
    ensures Encrypt(Alice0, "one", 0, None) == Success((Alice1, One))
    ensures Encrypt(Alice1, "two", 0, None) == Success((Alice2, Two)) && AfterDecrypt(Bob0, Two, 2) == Bob1
    ensures Encrypt(Bob1, "reply", 0, None) == Success((Bob2, Reply)) && AfterDecrypt(Alice2, Reply, 3) == Alice3
    ensures Encrypt(Alice3, "three", 0, None) == Success((Alice4, Three)) && AfterDecrypt(Bob2, Three, 4) == Bob3
    ensures Encrypt(Alice4, "four", 0, None).Success? && Encrypt(Alice4, "four", 0, None).value.1 == Four
    ensures Attempt(Bob3, Four, 5).Success?
    ensures LateCached(Bob3, One.header)
    ensures Attempt(Bob3, One, 5).Success? && Attempt(Bob3, One, 5).value.plaintext == "one"
    ensures Attempt(AfterDecrypt(Bob3, One, 5), Four, 6) == Failure(AuthenticationFailed)
  {
    ScheduleRuns();
    FourOpensInTime();
    OneOpensLate();
    FourIsRefused();
  }

  lemma FourOpensInTime()
    ensures Attempt(Bob3, Four, 5).Success?
  {
    assert Advance(NextChain(C3), 0) == NextChain(C3);
  }

  /** Bob's state after the late delivery: a root of his own, on Alice's oldest ratchet key. */
  const Lost := RatchetState(RootKey(RootKey(R4, SharedPoint(1, 4)), SharedPoint(1, 5)),
                             Some(ChainKey(RootKey(R4, SharedPoint(1, 4)), SharedPoint(1, 5))),
                             Some(ChainKey(R4, SharedPoint(1, 4))), Some(5), Some(Point(1)), 0, 0, 0, map[])

  lemma OneOpensLate()
    ensures LateCached(Bob3, One.header)
    ensures Attempt(Bob3, One, 5) == Success(Opening(Lost, MessageKey(C1), "one"))
  {
    assert SkipKeys(Bob3, 0) == Success(Bob3);
    var entered := EnterEpoch(Bob3, Point(1), 0, 5).value;
    assert entered == Lost.(skipped := Cache);
    assert Cache - {Slot(Some(Point(1)), 0)} == map[];
    assert TakeKey(entered, Point(1), 0) == Success((Lost, MessageKey(C1)));
  }

  lemma FourIsRefused()
    ensures Attempt(Lost, Four, 6) == Failure(AuthenticationFailed)
  {
    var skipped := SkippedTo(Lost, 2);
    assert SkipKeys(Lost, 2) == Success(skipped);
    var entered := EnterEpoch(Lost, Point(3), 2, 6).value;
    var chain := ChainKey(Lost.rootKey, SharedPoint(3, 5));
    assert entered.receivingChain == Some(chain) && entered.recvCount == 0;
    assert Slot(Some(Point(3)), 1) !in entered.skipped;
    assert SkipKeys(entered, 1) == Success(SkippedTo(entered, 1));
    assert TakeKey(entered, Point(3), 1).value.1 == KeyAt(chain, 1);
    assert KeyAt(chain, 1) == MessageKey(NextChain(Advance(chain, 0)));
  }
}

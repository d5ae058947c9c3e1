/**
 After a late delivery the receiver's root key lies off the key schedule, and no later step brings it back.
 So the parties of an authentic run are aligned at its end exactly when it contains no late delivery.
 */
module RatchetStray {
  import opened Wrappers
  import opened SymbolicCrypto
  import opened RatchetModel
  import opened RatchetSession
  import RatchetKeys

  /** No continuation of the conversation ever reaches this root key. */
  ghost predicate OffSchedule<P>(root: Term, h: History<P>) {
    && RatchetKeys.Depth(root) > RatchetKeys.Depth(h.sessionKey)
    && forall future: seq<nat>, j: nat :: h.keys <= future && Distinct(future) && j < |future| ==>
         root != Root(h.sessionKey, future, j)
  }

  ghost predicate Distinct(keys: seq<nat>) {
    forall a, b :: 0 <= a < b < |keys| ==> keys[a] != keys[b]
  }

  ghost predicate Stray<P>(sys: System<P>, who: bool) {
    OffSchedule(sys.Party(who).rootKey, sys.history)
  }

  /** Whatever is derived from a root off the schedule is off it too. */
  lemma DerivedStaysOff<P>(root: Term, dh: Term, h: History<P>)
    requires OffSchedule(root, h)
    ensures OffSchedule(RootKey(root, dh), h)
  {
    forall future: seq<nat>, j: nat | h.keys <= future && Distinct(future) && j < |future|
      ensures RootKey(root, dh) != Root(h.sessionKey, future, j)
    {
      if j > 0 {
        RootUnfolds(h.sessionKey, future, j);
        assert root != Root(h.sessionKey, future, j - 1);
      }
    }
  }

  lemma LongerHistoryStaysOff<P>(root: Term, h: History<P>, g: History<P>)
    requires OffSchedule(root, h) && g.sessionKey == h.sessionKey && h.keys <= g.keys
    ensures OffSchedule(root, g)
  {
    forall future: seq<nat>, j: nat | g.keys <= future && Distinct(future) && j < |future|
      ensures root != Root(g.sessionKey, future, j)
    {
      assert h.keys <= future;
    }
  }

  /** An opening leaves the root as it was or derives two roots from it. */
  lemma OpeningDerives<P>(s: RatchetState, packet: Packet<P>, newKey: nat)
    requires Attempt(s, packet, newKey).Success?
    ensures var root := Attempt(s, packet, newKey).value.state.rootKey;
            root == s.rootKey || exists dh, dh' :: root == RootKey(RootKey(s.rootKey, dh), dh')
  {
    var dh, pn, n := packet.header.dh, packet.header.pn, packet.header.n;
    var entered := EnterEpoch(s, dh, pn, newKey).value;
    assert TakeKey(entered, dh, n).value.0.rootKey == entered.rootKey;
    if !OnCurrentChain(s, dh) {
      var skipped := SkipKeys(s, pn).value;
      assert skipped.rootKey == s.rootKey;
      assert entered.rootKey == RootKey(RootKey(s.rootKey, Dh(skipped.selfKey.value, dh).value), Dh(newKey, dh).value);
    }
  }

  lemma DeliveryGrowsHistory<P>(sys: System<P>, to: bool, packet: Packet<P>, newKey: nat, who: bool)
    ensures var after := AfterDeliver(sys, to, packet, newKey);
            && after.history.sessionKey == sys.history.sessionKey && sys.history.keys <= after.history.keys
            && after.Party(who) ==
               if who == to && Attempt(sys.Party(to), packet, newKey).Success?
               then Attempt(sys.Party(to), packet, newKey).value.state else sys.Party(who)
  {
    hide Attempt;
  }

  lemma SendingGrowsHistory<P>(sys: System<P>, byInitiator: bool, plaintext: P, context: Option<InitHeader>, nonce: nat, who: bool)
    ensures var after := AfterSend(sys, byInitiator, plaintext, context, nonce);
            && after.history.sessionKey == sys.history.sessionKey && after.history.keys == sys.history.keys
            && after.Party(who).rootKey == sys.Party(who).rootKey
  {
  }

  /** Every step keeps a stray party stray. */
  lemma StrayStays<P>(sys: System<P>, event: Event<P>, who: bool)
    requires Stray(sys, who)
    ensures Stray(Step(sys, event), who)
  {
    hide OffSchedule, Attempt;
    var after := Step(sys, event);
    var root := sys.Party(who).rootKey;
    match event
    case Send(byInitiator, plaintext, context, nonce) =>
      SendingGrowsHistory(sys, byInitiator, plaintext, context, nonce, who);
      LongerHistoryStaysOff(root, sys.history, after.history);
    case Deliver(to, packet, newKey) =>
      DeliveryGrowsHistory(sys, to, packet, newKey, who);
      LongerHistoryStaysOff(root, sys.history, after.history);
      if who == to && Attempt(sys.Party(to), packet, newKey).Success? {
        OpeningDerives(sys.Party(to), packet, newKey);
        if after.Party(who).rootKey != root {
          var dh, dh' :| after.Party(who).rootKey == RootKey(RootKey(root, dh), dh');
          DerivedStaysOff(root, dh, after.history);
          DerivedStaysOff(RootKey(root, dh), dh', after.history);
        }
      }
  }

  lemma StrayIsNotAligned<P>(sys: System<P>, who: bool)
    requires Stray(sys, who)
    ensures !Aligned(sys)
  {
    if Aligned(sys) {
      AlignedParty(sys, who);
      PartyRoot(sys.Party(who), sys.Epoch(who), sys.history);
      KeysDistinct(sys.history);
      assert Distinct(sys.history.keys);
      assert false;
    }
  }

  lemma {:induction false} StrayRun<P>(sys: System<P>, events: seq<Event<P>>, who: bool)
    requires Stray(sys, who)
    ensures Stray(Run(sys, events), who) && !Aligned(Run(sys, events))
    decreases |events|
  {
    if events == [] {
      StrayIsNotAligned(sys, who);
    } else {
      StrayStays(sys, events[0], who);
      hide Stray, Aligned, Step;
      StrayRun(Step(sys, events[0]), events[1..], who);
    }
  }

  /** A late delivery makes its receiver stray. */
  lemma LateGoesAstray<P>(sys: System<P>, to: bool, packet: Packet<P>, newKey: nat)
    requires Aligned(sys) && newKey !in sys.history.keys && LateDelivery(sys, to, packet)
    ensures Stray(AfterDeliver(sys, to, packet, newKey), to)
  {
    var s, e, h := sys.Party(to), sys.Epoch(to), sys.history;
    var i: nat, n: nat :| IsSent(h, packet, i, n);
    AlignedParty(sys, to);
    PartyRoot(s, e, h);
    SentEpochIsPositive(h, packet, i, n);
    hide Aligned, PartyAt, HistoryOk, Attempt, AfterDeliver;
    LateIsElsewhere(s, e, h, packet, i, n);
    DeliverElsewhere(s, e, h, packet, i, n, newKey);
    DeliveryGrowsHistory(sys, to, packet, newKey, to);
    var after := AfterDeliver(sys, to, packet, newKey);
    var root := after.Party(to).rootKey;
    StrayDepth(Root(h.sessionKey, h.keys, e), Agreed(h.keys[e], h.keys[i]), Agreed(newKey, h.keys[i]));
    RootDepth(h.sessionKey, h.keys, e);
    hide Root, RatchetKeys.Depth;
    forall future: seq<nat>, j: nat | after.history.keys <= future && Distinct(future) && j < |future|
      ensures root != Root(h.sessionKey, future, j)
    {
      RootNeverRejoins(h.sessionKey, h.keys, e, i, newKey, future, j);
    }
  }

  lemma SentEpochIsPositive<P>(h: History<P>, packet: Packet<P>, i: nat, n: nat)
    requires HistoryOk(h) && IsSent(h, packet, i, n)
    ensures 1 <= i
  {
  }

  /**
   In every run a network can make (sends, drops, duplicates, reorderings and forgeries in any order), the
   parties are aligned at the end exactly when no cached packet was delivered late on the way.
   */
  lemma {:induction false} AlignedExactlyWhenPermitted<P>(sys: System<P>, events: seq<Event<P>>)
    requires Aligned(sys) && AuthenticRun(sys, events)
    ensures Aligned(Run(sys, events)) <==> PermittedRun(sys, events)
    decreases |events|
  {
    if events != [] {
      var event := events[0];
      if Permitted(sys, event) {
        RunStaysAligned(sys, [event]);
        OneStepRun(sys, event);
        hide Aligned, Permitted, Step, AuthenticRun;
        AuthenticRunUnfolds(sys, events);
        AlignedExactlyWhenPermitted(Step(sys, event), events[1..]);
      } else {
        LateGoesAstray(sys, event.toInitiator, event.packet, event.newKey);
        hide Aligned, Stray, AfterDeliver;
        StrayRun(Step(sys, event), events[1..], event.toInitiator);
      }
    }
  }

  lemma AuthenticRunUnfolds<P>(sys: System<P>, events: seq<Event<P>>)
    requires events != [] && AuthenticRun(sys, events)
    ensures AuthenticRun(Step(sys, events[0]), events[1..])
  {
  }

  lemma OneStepRun<P>(sys: System<P>, event: Event<P>)
    ensures Run(sys, [event]) == Step(sys, event)
  {
    assert [event][1..] == [];
  }

  // ---------------------------------------------------------------- a stray party is never heard again

  /** The root that a chain or message key hangs from is one of the conversation's schedule. */
  ghost predicate OnSchedule<P>(root: Term, h: History<P>) {
    exists j: nat :: j < |h.keys| && root == Root(h.sessionKey, h.keys, j)
  }

  ghost predicate HangsFrom<P>(chain: Term, h: History<P>) {
    BaseOf(chain).ChainKey? && OnSchedule(BaseOf(chain).root, h)
  }

  ghost predicate Hears<P>(key: Term, h: History<P>) {
    key.MessageKey? && HangsFrom(key.chain, h)
  }

  /** Everything the receiving side of a party holds belongs to the schedule. */
  ghost predicate ReceivesOnSchedule<P>(s: RatchetState, h: History<P>) {
    && OnSchedule(s.rootKey, h)
    && (s.receivingChain.Some? ==> HangsFrom(s.receivingChain.value, h))
    && forall slot :: slot in s.skipped ==> Hears(s.skipped[slot], h)
  }

  lemma OriginHangs<P>(h: History<P>, i: nat, n: nat)
    requires 1 <= i < |h.keys|
    ensures HangsFrom(Advance(Origin(h.sessionKey, h.keys, i), n), h)
    ensures Hears(KeyAt(Origin(h.sessionKey, h.keys, i), n), h)
  {
    BaseOfAdvance(Origin(h.sessionKey, h.keys, i), n);
  }

  /** A party that the history describes receives on the schedule. */
  lemma PartyReceivesOnSchedule<P>(s: RatchetState, e: nat, h: History<P>)
    requires PartyAt(s, e, h)
    ensures ReceivesOnSchedule(s, h)
  {
    assert OnSchedule(s.rootKey, h);
    if e >= 2 {
      OriginHangs(h, e - 1, s.recvCount);
    }
    forall slot | slot in s.skipped
      ensures Hears(s.skipped[slot], h)
    {
      var i := IndexOf(h.keys, slot.dh.value.name);
      assert KnownSlot(h, e, slot) && slot == SlotAt(h, i, slot.number);
      OriginHangs(h, i, slot.number);
    }
  }

  lemma SkippingStaysOnSchedule<P>(s: RatchetState, until: int, h: History<P>)
    requires ReceivesOnSchedule(s, h)
    ensures SkipKeys(s, until).Success? ==> ReceivesOnSchedule(SkipKeys(s, until).value, h)
  {
    if s.receivingChain.Some? && s.recvCount < until <= s.recvCount + MAX_SKIP {
      var chain := s.receivingChain.value;
      BaseOfAdvance(chain, until - s.recvCount);
      var range := SkippedRange(s.remote, chain, s.recvCount, until);
      forall slot | slot in range
        ensures Hears(range[slot], h)
      {
        BaseOfAdvance(chain, slot.number - s.recvCount);
      }
      assert SkipKeys(s, until) == Success(SkippedTo(s, until));
    }
  }

  /** Entering an epoch leaves the cache and the new receiving chain on the schedule; only the root may leave it. */
  lemma EnteringStaysOnSchedule<P>(s: RatchetState, dh: PublicKey, pn: int, newKey: nat, h: History<P>)
    requires ReceivesOnSchedule(s, h)
    ensures var entered := EnterEpoch(s, dh, pn, newKey);
            entered.Success? ==>
              && HangsFrom(entered.value.receivingChain.value, h)
              && forall slot :: slot in entered.value.skipped ==> Hears(entered.value.skipped[slot], h)
  {
    SkippingStaysOnSchedule(s, pn, h);
    hide OnSchedule;
  }

  lemma TakingIsOnSchedule<P>(s: RatchetState, dh: PublicKey, n: int, h: History<P>)
    requires s.receivingChain.Some? && HangsFrom(s.receivingChain.value, h)
    requires forall slot :: slot in s.skipped ==> Hears(s.skipped[slot], h)
    ensures TakeKey(s, dh, n).Success? ==> Hears(TakeKey(s, dh, n).value.1, h)
  {
    if s.recvCount < n <= s.recvCount + MAX_SKIP {
      BaseOfAdvance(s.receivingChain.value, n - s.recvCount);
    }
    hide OnSchedule;
  }

  /** A party that receives on the schedule opens only what was sealed on it. */
  lemma OpensOnlyOnSchedule<P>(s: RatchetState, packet: Packet<P>, newKey: nat, h: History<P>)
    requires ReceivesOnSchedule(s, h) && Attempt(s, packet, newKey).Success?
    ensures packet.box.Sealed? && Hears(packet.box.key, h)
  {
    EnteringStaysOnSchedule(s, packet.header.dh, packet.header.pn, newKey, h);
    var entered := EnterEpoch(s, packet.header.dh, packet.header.pn, newKey).value;
    TakingIsOnSchedule(entered, packet.header.dh, packet.header.n, h);
    hide EnterEpoch, TakeKey, Hears, HangsFrom;
  }

  /** A stray party seals off the schedule as well. */
  ghost predicate StraySender<P>(sys: System<P>, who: bool) {
    && Stray(sys, who)
    && sys.Party(who).selfKey.Some? && sys.Party(who).sendingChain.Some?
    && BaseOf(sys.Party(who).sendingChain.value).ChainKey?
    && OffSchedule(BaseOf(sys.Party(who).sendingChain.value).root, sys.history)
  }

  /** An opening leaves the sending chain as it was or starts one off a root derived from the old one. */
  lemma OpeningChains<P>(s: RatchetState, packet: Packet<P>, newKey: nat)
    requires Attempt(s, packet, newKey).Success?
    ensures var chain := Attempt(s, packet, newKey).value.state.sendingChain;
            chain == s.sendingChain || exists dh, dh' :: chain == Some(ChainKey(RootKey(s.rootKey, dh), dh'))
  {
    var dh, pn, n := packet.header.dh, packet.header.pn, packet.header.n;
    var entered := EnterEpoch(s, dh, pn, newKey).value;
    assert TakeKey(entered, dh, n).value.0.sendingChain == entered.sendingChain;
    if !OnCurrentChain(s, dh) {
      var skipped := SkipKeys(s, pn).value;
      assert skipped.rootKey == s.rootKey;
      assert entered.sendingChain
          == Some(ChainKey(RootKey(s.rootKey, Dh(skipped.selfKey.value, dh).value), Dh(newKey, dh).value));
    }
  }

  lemma StraySenderStays<P>(sys: System<P>, event: Event<P>, who: bool)
    requires StraySender(sys, who)
    ensures StraySender(Step(sys, event), who)
  {
    StrayStays(sys, event, who);
    hide OffSchedule, Attempt, Encrypt;
    var s, after := sys.Party(who), Step(sys, event);
    var base := BaseOf(s.sendingChain.value).root;
    match event
    case Send(byInitiator, plaintext, context, nonce) =>
      SendingGrowsHistory(sys, byInitiator, plaintext, context, nonce, who);
      LongerHistoryStaysOff(base, sys.history, after.history);
      SendingKeepsBase(sys, byInitiator, plaintext, context, nonce, who);
    case Deliver(to, packet, newKey) =>
      DeliveryGrowsHistory(sys, to, packet, newKey, who);
      LongerHistoryStaysOff(base, sys.history, after.history);
      if who == to && Attempt(s, packet, newKey).Success? {
        OpenedChainIsOff(s, packet, newKey, sys.history, after.history);
      }
      hide Step;
  }

  /** Opening leaves the sending chain as it was, or starts one from a root derived from the old one. */
  lemma OpenedChainIsOff<P>(s: RatchetState, packet: Packet<P>, newKey: nat, h: History<P>, g: History<P>)
    requires Attempt(s, packet, newKey).Success? && OffSchedule(s.rootKey, h)
    requires g.sessionKey == h.sessionKey && h.keys <= g.keys
    ensures var chain := Attempt(s, packet, newKey).value.state.sendingChain;
            chain == s.sendingChain
            || (chain.Some? && chain.value.ChainKey? && OffSchedule(chain.value.root, g))
  {
    OpeningChains(s, packet, newKey);
    LongerHistoryStaysOff(s.rootKey, h, g);
    var chain := Attempt(s, packet, newKey).value.state.sendingChain;
    hide OffSchedule, Attempt;
    if chain != s.sendingChain {
      var dh, dh' :| chain == Some(ChainKey(RootKey(s.rootKey, dh), dh'));
      DerivedStaysOff(s.rootKey, dh, g);
    }
  }

  /** Sending goes along one chain. */
  lemma SendingKeepsBase<P>(sys: System<P>, byInitiator: bool, plaintext: P, context: Option<InitHeader>, nonce: nat, who: bool)
    requires sys.Party(who).sendingChain.Some?
    ensures var s, after := sys.Party(who), AfterSend(sys, byInitiator, plaintext, context, nonce).Party(who);
            && after.selfKey == s.selfKey && after.sendingChain.Some?
            && BaseOf(after.sendingChain.value) == BaseOf(s.sendingChain.value)
  {
  }

  lemma {:induction false} StraySenderRun<P>(sys: System<P>, events: seq<Event<P>>, who: bool)
    requires StraySender(sys, who)
    ensures StraySender(Run(sys, events), who)
    decreases |events|
  {
    if events != [] {
      StraySenderStays(sys, events[0], who);
      hide StraySender, Step;
      StraySenderRun(Step(sys, events[0]), events[1..], who);
    }
  }

  /** A stray sender is never stopped: it can always seal, its chain moves on, and its packets reach the network. */
  lemma StraySenderKeepsSending<P>(sys: System<P>, events: seq<Event<P>>, who: bool, plaintext: P,
                                   context: Option<InitHeader>, nonce: nat)
    requires StraySender(sys, who)
    ensures var end := Run(sys, events);
            var after := Run(sys, events + [Send(who, plaintext, context, nonce)]);
            var sealing := Encrypt(end.Party(who), plaintext, nonce, context);
            && sealing.Success?
            && after.Party(who) == sealing.value.0 && after.Party(who).sendCount == end.Party(who).sendCount + 1
            && OnNetwork(after.history, sealing.value.1)
  {
    StraySenderRun(sys, events, who);
    RunThenStep(sys, events, Send(who, plaintext, context, nonce));
    SealedIsOnNetwork(Run(sys, events), who, plaintext, context, nonce);
  }

  lemma {:induction false} RunThenStep<P>(sys: System<P>, events: seq<Event<P>>, last: Event<P>)
    ensures Run(sys, events + [last]) == Step(Run(sys, events), last)
    decreases |events|
  {
    hide Step;
    if events == [] {
      assert events + [last] == [last];
    } else {
      assert (events + [last])[1..] == events[1..] + [last];
      RunThenStep(Step(sys, events[0]), events[1..], last);
    }
  }

  /** A late delivery makes its receiver a stray sender. */
  lemma LateSendsAstray<P>(sys: System<P>, to: bool, packet: Packet<P>, newKey: nat)
    requires Aligned(sys) && newKey !in sys.history.keys && LateDelivery(sys, to, packet)
    ensures StraySender(AfterDeliver(sys, to, packet, newKey), to)
  {
    LateGoesAstray(sys, to, packet, newKey);
    var s, e, h := sys.Party(to), sys.Epoch(to), sys.history;
    var i := LateChain(sys, to, packet, newKey);
    var after := AfterDeliver(sys, to, packet, newKey);
    DeliveryGrowsHistory(sys, to, packet, newKey, to);
    FirstStrayRoot(h, e, i, after.history);
    hide OffSchedule, Attempt, AfterDeliver, Aligned, LateDelivery, Root;
    assert BaseOf(after.Party(to).sendingChain.value) == after.Party(to).sendingChain.value;
  }

  /** The sending chain that a late delivery of epoch `i` leaves. */
  lemma LateChain<P>(sys: System<P>, to: bool, packet: Packet<P>, newKey: nat) returns (i: nat)
    requires Aligned(sys) && newKey !in sys.history.keys && LateDelivery(sys, to, packet)
    ensures var e, h := sys.Epoch(to), sys.history;
            && i + 1 < e < |h.keys|
            && AfterDeliver(sys, to, packet, newKey).Party(to).selfKey == Some(newKey)
            && AfterDeliver(sys, to, packet, newKey).Party(to).sendingChain
               == Some(ChainKey(RootKey(Root(h.sessionKey, h.keys, e), Agreed(h.keys[e], h.keys[i])),
                                Agreed(newKey, h.keys[i])))
  {
    var s, e, h := sys.Party(to), sys.Epoch(to), sys.history;
    var n: nat;
    i, n :| IsSent(h, packet, i, n);
    AlignedParty(sys, to);
    PartyRoot(s, e, h);
    SentEpochIsPositive(h, packet, i, n);
    hide Aligned, PartyAt, HistoryOk, Attempt, AfterDeliver, Root;
    LateIsElsewhere(s, e, h, packet, i, n);
    DeliverElsewhere(s, e, h, packet, i, n, newKey);
    DeliveryGrowsHistory(sys, to, packet, newKey, to);
  }

  /** Already the root in between, which the stray sending chain hangs from, is off the schedule. */
  lemma FirstStrayRoot<P>(h: History<P>, e: nat, i: nat, g: History<P>)
    requires i + 1 < e < |h.keys| && h.keys <= g.keys && g.sessionKey == h.sessionKey
    ensures OffSchedule(RootKey(Root(h.sessionKey, h.keys, e), Agreed(h.keys[e], h.keys[i])), g)
  {
    var root := RootKey(Root(h.sessionKey, h.keys, e), Agreed(h.keys[e], h.keys[i]));
    RootDepth(h.sessionKey, h.keys, e);
    forall future: seq<nat>, j: nat | g.keys <= future && Distinct(future) && j < |future|
      ensures root != Root(g.sessionKey, future, j)
    {
      RootDepth(g.sessionKey, future, j);
      if j == e + 1 {
        RootUnfolds(g.sessionKey, future, j);
        assert future[e] == h.keys[e] && future[i] == h.keys[i];
        DhAgreement(h.keys[e], future[e + 1], h.keys[i]);
      }
    }
  }

  /**
   Whatever a stray party seals, after any further steps, its own sends among them, opens at no party that
   the schedule describes, now or later, in whatever packet it is carried.
   */
  lemma StraySenderIsUnheard<P>(sys: System<P>, events: seq<Event<P>>, who: bool, plaintext: P, nonce: nat,
                                context: Option<InitHeader>, carried: Packet<P>,
                                peer: RatchetState, f: nat, g: History<P>, laterKey: nat)
    requires StraySender(sys, who)
    requires var end := Run(sys, events);
             && Encrypt(end.Party(who), plaintext, nonce, context).Success?
             && carried.box == Encrypt(end.Party(who), plaintext, nonce, context).value.1.box
             && PartyAt(peer, f, g) && Distinct(g.keys)
             && end.history.keys <= g.keys && g.sessionKey == end.history.sessionKey
    ensures Attempt(peer, carried, laterKey).Failure?
  {
    StraySenderRun(sys, events, who);
    var end := Run(sys, events);
    PartyReceivesOnSchedule(peer, f, g);
    if Attempt(peer, carried, laterKey).Success? {
      OpensOnlyOnSchedule(peer, carried, laterKey, g);
      assert false;
    }
  }

  // ---------------------------------------------------------------- nor does it hear anything new

  /** The chain is not, and does not start from, the chain of any epoch the conversation can ever have. */
  ghost predicate OffOrigin<P>(chain: Term, h: History<P>) {
    && BaseOf(chain).ChainKey?
    && forall future: seq<nat>, j: nat :: h.keys <= future && Distinct(future) && 1 <= j < |future| ==>
         BaseOf(chain) != Origin(h.sessionKey, future, j)
  }

  lemma OffRootOffOrigin<P>(root: Term, dh: Term, h: History<P>)
    requires OffSchedule(root, h)
    ensures OffOrigin(ChainKey(root, dh), h)
  {
    forall future: seq<nat>, j: nat | h.keys <= future && Distinct(future) && 1 <= j < |future|
      ensures ChainKey(root, dh) != Origin(h.sessionKey, future, j)
    {
      assert root != Root(h.sessionKey, future, j - 1);
    }
  }

  /** A key it may still open with: one of `kept`, or one that nobody seals with. */
  ghost predicate Leftover<P>(key: Term, kept: set<Term>, h: History<P>) {
    key in kept || (key.MessageKey? && OffOrigin(key.chain, h))
  }

  /** Apart from the keys `kept`, everything the receiving side holds is off the schedule. */
  ghost predicate ReceivesOff<P>(s: RatchetState, kept: set<Term>, h: History<P>) {
    && (s.receivingChain.Some? ==> OffOrigin(s.receivingChain.value, h))
    && forall slot :: slot in s.skipped ==> Leftover(s.skipped[slot], kept, h)
  }

  lemma LongerHistoryReceivesOff<P>(s: RatchetState, kept: set<Term>, h: History<P>, g: History<P>)
    requires ReceivesOff(s, kept, h) && g.sessionKey == h.sessionKey && h.keys <= g.keys
    ensures ReceivesOff(s, kept, g)
  {
    if s.receivingChain.Some? {
      LongerHistoryOffOrigin(s.receivingChain.value, h, g);
    }
    forall slot | slot in s.skipped && s.skipped[slot] !in kept
      ensures Leftover(s.skipped[slot], kept, g)
    {
      LongerHistoryOffOrigin(s.skipped[slot].chain, h, g);
    }
  }

  lemma LongerHistoryOffOrigin<P>(chain: Term, h: History<P>, g: History<P>)
    requires OffOrigin(chain, h) && g.sessionKey == h.sessionKey && h.keys <= g.keys
    ensures OffOrigin(chain, g)
  {
    forall future: seq<nat>, j: nat | g.keys <= future && Distinct(future) && 1 <= j < |future|
      ensures BaseOf(chain) != Origin(g.sessionKey, future, j)
    {
      assert h.keys <= future;
    }
  }

  lemma AdvancedIsOff<P>(chain: Term, n: nat, h: History<P>)
    requires OffOrigin(chain, h)
    ensures OffOrigin(Advance(chain, n), h) && OffOrigin(KeyAt(chain, n).chain, h)
  {
    BaseOfAdvance(chain, n);
  }

  lemma SkippingReceivesOff<P>(s: RatchetState, until: int, kept: set<Term>, h: History<P>)
    requires ReceivesOff(s, kept, h)
    ensures SkipKeys(s, until).Success? ==> ReceivesOff(SkipKeys(s, until).value, kept, h)
  {
    if s.receivingChain.Some? && s.recvCount < until <= s.recvCount + MAX_SKIP {
      var chain := s.receivingChain.value;
      AdvancedIsOff(chain, until - s.recvCount, h);
      var range := SkippedRange(s.remote, chain, s.recvCount, until);
      forall slot | slot in range
        ensures Leftover(range[slot], kept, h)
      {
        AdvancedIsOff(chain, slot.number - s.recvCount, h);
      }
      hide OffOrigin;
      assert SkipKeys(s, until) == Success(SkippedTo(s, until));
    }
  }

  lemma TakingReceivesOff<P>(s: RatchetState, dh: PublicKey, n: int, kept: set<Term>, h: History<P>)
    requires s.receivingChain.Some? && ReceivesOff(s, kept, h)
    ensures TakeKey(s, dh, n).Success? ==>
              Leftover(TakeKey(s, dh, n).value.1, kept, h) && ReceivesOff(TakeKey(s, dh, n).value.0, kept, h)
  {
    SkippingReceivesOff(s, n, kept, h);
    if n >= s.recvCount && SkipKeys(s, n).Success? {
      var ready := SkipKeys(s, n).value;
      AdvancedIsOff(ready.receivingChain.value, 0, h);
      AdvancedIsOff(ready.receivingChain.value, 1, h);
      assert Advance(ready.receivingChain.value, 1) == NextChain(Advance(ready.receivingChain.value, 0));
    }
    hide OffOrigin, SkipKeys;
  }

  lemma EnteringReceivesOff<P>(s: RatchetState, dh: PublicKey, pn: int, newKey: nat, kept: set<Term>, h: History<P>)
    requires ReceivesOff(s, kept, h) && OffSchedule(s.rootKey, h)
    ensures EnterEpoch(s, dh, pn, newKey).Success? ==> ReceivesOff(EnterEpoch(s, dh, pn, newKey).value, kept, h)
  {
    SkippingReceivesOff(s, pn, kept, h);
    if !OnCurrentChain(s, dh) && SkipKeys(s, pn).Success? && s.selfKey.Some? && Dh(s.selfKey.value, dh).Some? {
      OffRootOffOrigin(s.rootKey, Dh(s.selfKey.value, dh).value, h);
    }
    hide OffOrigin, OffSchedule;
  }

  lemma OpeningReceivesOff<P>(s: RatchetState, packet: Packet<P>, newKey: nat, kept: set<Term>, h: History<P>)
    requires ReceivesOff(s, kept, h) && OffSchedule(s.rootKey, h) && Attempt(s, packet, newKey).Success?
    ensures packet.box.Sealed? && Leftover(packet.box.key, kept, h)
    ensures ReceivesOff(Attempt(s, packet, newKey).value.state, kept, h)
  {
    EnteringReceivesOff(s, packet.header.dh, packet.header.pn, newKey, kept, h);
    var entered := EnterEpoch(s, packet.header.dh, packet.header.pn, newKey).value;
    TakingReceivesOff(entered, packet.header.dh, packet.header.n, kept, h);
    hide EnterEpoch, TakeKey, ReceivesOff, Leftover, OffSchedule;
  }

  ghost predicate StrayReceiver<P>(sys: System<P>, who: bool, kept: set<Term>) {
    Stray(sys, who) && ReceivesOff(sys.Party(who), kept, sys.history)
  }

  lemma StrayReceiverStays<P>(sys: System<P>, event: Event<P>, who: bool, kept: set<Term>)
    requires StrayReceiver(sys, who, kept)
    ensures StrayReceiver(Step(sys, event), who, kept)
  {
    StrayStays(sys, event, who);
    var s, after := sys.Party(who), Step(sys, event);
    match event
    case Send(byInitiator, plaintext, context, nonce) =>
      hide OffOrigin, OffSchedule, Leftover;
      SendingGrowsHistory(sys, byInitiator, plaintext, context, nonce, who);
      LongerHistoryReceivesOff(s, kept, sys.history, after.history);
    case Deliver(to, packet, newKey) =>
      hide Attempt, ReceivesOff, OffSchedule;
      DeliveryGrowsHistory(sys, to, packet, newKey, who);
      if who == to && Attempt(s, packet, newKey).Success? {
        OpeningReceivesOff(s, packet, newKey, kept, sys.history);
      }
      LongerHistoryReceivesOff(after.Party(who), kept, sys.history, after.history);
  }

  lemma {:induction false} StrayReceiverRun<P>(sys: System<P>, events: seq<Event<P>>, who: bool, kept: set<Term>)
    requires StrayReceiver(sys, who, kept)
    ensures StrayReceiver(Run(sys, events), who, kept)
    decreases |events|
  {
    if events != [] {
      StrayReceiverStays(sys, events[0], who, kept);
      hide StrayReceiver, Step;
      StrayReceiverRun(Step(sys, events[0]), events[1..], who, kept);
    }
  }

  /** Right after the late delivery, all it may still open with is what its cache holds. */
  lemma LateReceivesOff<P>(sys: System<P>, to: bool, packet: Packet<P>, newKey: nat)
    requires Aligned(sys) && newKey !in sys.history.keys && LateDelivery(sys, to, packet)
    ensures var after := AfterDeliver(sys, to, packet, newKey);
            StrayReceiver(after, to, after.Party(to).skipped.Values)
  {
    LateGoesAstray(sys, to, packet, newKey);
    var after := AfterDeliver(sys, to, packet, newKey);
    var e, h := sys.Epoch(to), sys.history;
    var i := LateReceivingChain(sys, to, packet, newKey);
    DeliveryGrowsHistory(sys, to, packet, newKey, to);
    FirstStrayChain(h, e, i, after.history);
    hide OffSchedule, OffOrigin, Attempt, AfterDeliver, Aligned, LateDelivery, Root;
    assert forall slot :: slot in after.Party(to).skipped ==> after.Party(to).skipped[slot] in after.Party(to).skipped.Values;
  }

  lemma LateReceivingChain<P>(sys: System<P>, to: bool, packet: Packet<P>, newKey: nat) returns (i: nat)
    requires Aligned(sys) && newKey !in sys.history.keys && LateDelivery(sys, to, packet)
    ensures var e, h := sys.Epoch(to), sys.history;
            && i + 1 < e < |h.keys|
            && AfterDeliver(sys, to, packet, newKey).Party(to).receivingChain
               == Some(ChainKey(Root(h.sessionKey, h.keys, e), Agreed(h.keys[e], h.keys[i])))
  {
    var s, e, h := sys.Party(to), sys.Epoch(to), sys.history;
    var n: nat;
    i, n :| IsSent(h, packet, i, n);
    AlignedParty(sys, to);
    PartyRoot(s, e, h);
    SentEpochIsPositive(h, packet, i, n);
    hide Aligned, PartyAt, HistoryOk, Attempt, AfterDeliver, Root;
    LateIsElsewhere(s, e, h, packet, i, n);
    DeliverElsewhere(s, e, h, packet, i, n, newKey);
    DeliveryGrowsHistory(sys, to, packet, newKey, to);
  }

  lemma FirstStrayChain<P>(h: History<P>, e: nat, i: nat, g: History<P>)
    requires i + 1 < e < |h.keys| && h.keys <= g.keys && g.sessionKey == h.sessionKey
    ensures OffOrigin(ChainKey(Root(h.sessionKey, h.keys, e), Agreed(h.keys[e], h.keys[i])), g)
  {
    var chain := ChainKey(Root(h.sessionKey, h.keys, e), Agreed(h.keys[e], h.keys[i]));
    RootDepth(h.sessionKey, h.keys, e);
    forall future: seq<nat>, j: nat | g.keys <= future && Distinct(future) && 1 <= j < |future|
      ensures chain != Origin(g.sessionKey, future, j)
    {
      RootDepth(g.sessionKey, future, j - 1);
      if j == e + 1 {
        assert future[e] == h.keys[e] && future[i] == h.keys[i];
        DhAgreement(h.keys[e], future[e + 1], h.keys[i]);
      }
    }
  }

  /**
   After a late delivery and any further steps, a packet sealed on the schedule of any continuation opens at
   the stray party only if its key was already in the cache that the late delivery left.
   */
  lemma StrayReceiverIsDeaf<P>(sys: System<P>, events: seq<Event<P>>, who: bool, kept: set<Term>,
                               packet: Packet<P>, future: seq<nat>, j: nat, n: nat, laterKey: nat)
    requires StrayReceiver(sys, who, kept)
    requires var h := Run(sys, events).history;
             && h.keys <= future && Distinct(future) && 1 <= j < |future|
             && packet.box.Sealed? && packet.box.key == KeyAt(Origin(h.sessionKey, future, j), n)
    requires packet.box.key !in kept
    ensures Attempt(Run(sys, events).Party(who), packet, laterKey).Failure?
  {
    StrayReceiverRun(sys, events, who, kept);
    var end := Run(sys, events);
    if Attempt(end.Party(who), packet, laterKey).Success? {
      OpeningReceivesOff(end.Party(who), packet, laterKey, kept, end.history);
      BaseOfAdvance(Origin(end.history.sessionKey, future, j), n);
      assert false;
    }
  }
}

/**
 Two ratchets built from one session key, and a network that may drop, repeat, reorder,
 reflect and alter packets.

 Epoch `i` is the period in which one party sends under the `i`-th ratchet key: epoch 0 is
 the responder's signed prekey (nothing is sent under it), odd epochs belong to the
 initiator, even ones to the responder. `Aligned` says that both states are what the history
 of epochs prescribes.
 */
module RatchetSession {
  import opened Wrappers
  import opened SymbolicCrypto
  import opened RatchetModel
  import opened RatchetChain
  import RatchetKeys

  /**
   What has happened so far: the ratchet key and the packets of each epoch, the packets delivered, and
   the packets of a party that seals under a ratchet key which is not that of its epoch.
   */
  datatype History<P> = History(
    sessionKey: Term,
    keys: seq<nat>,
    sent: seq<seq<Packet<P>>>,
    delivered: set<(nat, nat)>,
    astray: seq<Packet<P>>)

  datatype System<P> = System(
    initiator: RatchetState,
    responder: RatchetState,
    initiatorEpoch: nat,
    responderEpoch: nat,
    history: History<P>)
  {
    function Party(isInitiator: bool): RatchetState {
      if isInitiator then initiator else responder
    }

    function Epoch(isInitiator: bool): nat {
      if isInitiator then initiatorEpoch else responderEpoch
    }
  }

  // -- the key schedule ---------------------------------------------------

  function Agreed(a: nat, b: nat): Term {
    Dh(a, Point(b)).value
  }

  function Root(sessionKey: Term, keys: seq<nat>, i: nat): Term
    requires i < |keys|
  {
    if i == 0 then sessionKey else RootKey(Root(sessionKey, keys, i - 1), Agreed(keys[i - 1], keys[i]))
  }

  /** The chain key that epoch `i` starts from. */
  function Origin(sessionKey: Term, keys: seq<nat>, i: nat): Term
    requires 1 <= i < |keys|
  {
    ChainKey(Root(sessionKey, keys, i - 1), Agreed(keys[i - 1], keys[i]))
  }

  lemma {:induction false} RootPrefix(sessionKey: Term, keys: seq<nat>, more: seq<nat>, i: nat)
    requires i < |keys| && keys <= more
    ensures Root(sessionKey, more, i) == Root(sessionKey, keys, i)
    ensures i >= 1 ==> Origin(sessionKey, more, i) == Origin(sessionKey, keys, i)
  {
    if i > 0 {
      RootPrefix(sessionKey, keys, more, i - 1);
    }
  }

  lemma {:induction false} RootDepth(sessionKey: Term, keys: seq<nat>, i: nat)
    requires i < |keys|
    ensures RatchetKeys.Depth(Root(sessionKey, keys, i)) == RatchetKeys.Depth(sessionKey) + i
  {
    if i > 0 {
      RootDepth(sessionKey, keys, i - 1);
    }
  }

  function IndexOf(keys: seq<nat>, name: nat): (i: nat)
    ensures i <= |keys|
    ensures i < |keys| ==> keys[i] == name
    ensures i == |keys| ==> name !in keys
  {
    if keys == [] then 0 else if keys[0] == name then 0 else 1 + IndexOf(keys[1..], name)
  }

  // -- alignment -------------------------------------------------------------

  /** Epoch `i` is one the party at epoch `e` has received, or receives, packets of. */
  predicate RemoteEpoch(e: nat, i: nat) {
    1 <= i < e && (e - i) % 2 == 1
  }

  /** The length of the sending chain before epoch `i` by the same sender. */
  function PreviousLength<P>(h: History<P>, i: nat): nat
    requires i < |h.sent|
  {
    if i < 2 then 0 else |h.sent[i - 2]|
  }

  function Got<P>(h: History<P>, i: nat): set<nat> {
    set p | p in h.delivered && p.0 == i :: p.1
  }

  function SlotAt<P>(h: History<P>, i: nat, n: nat): Slot
    requires i < |h.keys|
  {
    Slot(Some(Point(h.keys[i])), n)
  }

  /** The slot names a packet of an epoch the party at `e` receives. */
  predicate KnownSlot<P>(h: History<P>, e: nat, slot: Slot)
    requires |h.sent| == |h.keys|
  {
    && slot.dh.Some? && slot.dh.value.Point?
    && var i := IndexOf(h.keys, slot.dh.value.name);
    && i < |h.keys| && RemoteEpoch(e, i) && 0 <= slot.number < |h.sent[i]|
  }

  /** Every unopened packet of an earlier remote epoch is cached under its sender's key. */
  ghost predicate CacheMatches<P>(s: RatchetState, e: nat, h: History<P>)
    requires |h.sent| == |h.keys|
  {
    && (forall slot :: slot in s.skipped ==> KnownSlot(h, e, slot))
    && (forall i: nat, n: nat :: i < |h.keys| && RemoteEpoch(e, i) && i + 1 < e && n < |h.sent[i]| ==>
          && (SlotAt(h, i, n) in s.skipped <==> (i, n) !in h.delivered)
          && (SlotAt(h, i, n) in s.skipped ==>
                s.skipped[SlotAt(h, i, n)] == KeyAt(Origin(h.sessionKey, h.keys, i), n)))
  }

  /** The sending half of the state of a party at epoch `e >= 1`. */
  ghost predicate SendingAt<P>(s: RatchetState, e: nat, h: History<P>)
    requires 1 <= e < |h.keys| == |h.sent|
  {
    && s.sendingChain == Some(Advance(Origin(h.sessionKey, h.keys, e), |h.sent[e]|))
    && s.sendCount == |h.sent[e]|
    && s.prevSendCount == PreviousLength(h, e)
  }

  /** The receiving half. */
  ghost predicate ReceivingAt<P>(s: RatchetState, e: nat, h: History<P>)
    requires 1 <= e < |h.keys| == |h.sent|
  {
    && s.remote == Some(Point(h.keys[e - 1]))
    && (e == 1 ==> s.receivingChain.None? && s.recvCount == 0)
    && (e >= 2 ==> OnChain(s, Point(h.keys[e - 1]), Origin(h.sessionKey, h.keys, e - 1), Got(h, e - 1))
                   && s.recvCount <= |h.sent[e - 1]|)
    && CacheMatches(s, e, h)
  }

  /** The state is the one the history prescribes for a party at epoch `e`. */
  ghost predicate PartyAt<P>(s: RatchetState, e: nat, h: History<P>) {
    && e < |h.keys| == |h.sent|
    && s.selfKey == Some(h.keys[e])
    && s.rootKey == Root(h.sessionKey, h.keys, e)
    && (e == 0 ==> s == Responder(h.sessionKey, h.keys[0]))
    && (e >= 1 ==> SendingAt(s, e, h) && ReceivingAt(s, e, h))
  }

  /** Packet `n` of epoch `i` was sealed with key `n` of that epoch's chain. */
  ghost predicate SentAt<P>(h: History<P>, i: nat, n: nat)
    requires 1 <= i < |h.keys| == |h.sent| && n < |h.sent[i]|
  {
    var packet := h.sent[i][n];
    && packet.header == Header(Point(h.keys[i]), PreviousLength(h, i), n)
    && packet.box.Sealed?
    && Genuine(packet, Point(h.keys[i]), Origin(h.sessionKey, h.keys, i), n, packet.box.plaintext)
  }

  ghost predicate HistoryOk<P>(h: History<P>) {
    && |h.keys| == |h.sent| >= 2
    && (forall i, j :: 0 <= i < j < |h.keys| ==> h.keys[i] != h.keys[j])
    && h.sent[0] == [] && h.astray == []
    && (forall i: nat, n: nat :: 1 <= i < |h.sent| && n < |h.sent[i]| ==> SentAt(h, i, n))
  }

  /** Only packets of epochs their receiver has entered were delivered. */
  ghost predicate OpenedOk<P>(sys: System<P>) {
    forall i: nat, n: nat :: (i, n) in sys.history.delivered ==>
      i < |sys.history.sent| && n < |sys.history.sent[i]| && RemoteEpoch(sys.Epoch(i % 2 == 0), i)
  }

  ghost predicate Aligned<P>(sys: System<P>) {
    && HistoryOk(sys.history)
    && sys.initiatorEpoch % 2 == 1 && sys.responderEpoch % 2 == 0
    && |sys.history.keys| == Max(sys.initiatorEpoch, sys.responderEpoch) + 1
    && (sys.initiatorEpoch == sys.responderEpoch + 1 || sys.responderEpoch == sys.initiatorEpoch + 1)
    && PartyAt(sys.initiator, sys.initiatorEpoch, sys.history)
    && PartyAt(sys.responder, sys.responderEpoch, sys.history)
    && OpenedOk(sys)
  }

  // -- steps -------------------------------------------------------------------

  datatype Event<P> =
    | Send(byInitiator: bool, plaintext: P, context: Option<InitHeader>, nonce: nat)
    | Deliver(toInitiator: bool, packet: Packet<P>, newKey: nat)

  function WithParty<P>(sys: System<P>, isInitiator: bool, s: RatchetState, e: nat, h: History<P>): System<P> {
    if isInitiator then
      sys.(initiator := s, initiatorEpoch := e, history := h)
    else
      sys.(responder := s, responderEpoch := e, history := h)
  }

  function AfterSend<P>(sys: System<P>, byInitiator: bool, plaintext: P, context: Option<InitHeader>, nonce: nat)
    : System<P>
  {
    var e, h := sys.Epoch(byInitiator), sys.history;
    match Encrypt(sys.Party(byInitiator), plaintext, nonce, context)
    case Failure(_) => sys
    case Success((s, packet)) =>
      if e < |h.keys| && e < |h.sent| && s.selfKey == Some(h.keys[e]) then
        WithParty(sys, byInitiator, s, e, h.(sent := h.sent[e := h.sent[e] + [packet]]))
      else
        WithParty(sys, byInitiator, s, e, h.(astray := h.astray + [packet]))
  }

  /** A success is recorded in the history; a Diffie-Hellman step opens a new epoch. */
  function AfterDeliver<P>(sys: System<P>, toInitiator: bool, packet: Packet<P>, newKey: nat): System<P> {
    var s, e, h := sys.Party(toInitiator), sys.Epoch(toInitiator), sys.history;
    match Attempt(s, packet, newKey)
    case Failure(_) => sys
    case Success(opening) =>
      var dh, n := packet.header.dh, packet.header.n;
      var delivered := if dh.Point? && n >= 0 then h.delivered + {(IndexOf(h.keys, dh.name), n)} else h.delivered;
      if OnCurrentChain(s, dh) then
        WithParty(sys, toInitiator, opening.state, e, h.(delivered := delivered))
      else
        WithParty(sys, toInitiator, opening.state, e + 2,
                  h.(delivered := delivered, keys := h.keys + [newKey], sent := h.sent + [[]]))
  }

  function Step<P>(sys: System<P>, event: Event<P>): System<P> {
    match event
    case Send(byInitiator, plaintext, context, nonce) => AfterSend(sys, byInitiator, plaintext, context, nonce)
    case Deliver(toInitiator, packet, newKey) => AfterDeliver(sys, toInitiator, packet, newKey)
  }

  /** Packet `n` of epoch `i`, exactly as it was sent. */
  ghost predicate IsSent<P>(h: History<P>, packet: Packet<P>, i: nat, n: nat) {
    i < |h.sent| && n < |h.sent[i]| && h.sent[i][n] == packet
  }

  /** Boxes cannot be made up: they are junk, or copied from a sent packet. */
  ghost predicate OnNetwork<P>(h: History<P>, packet: Packet<P>) {
    || packet.box.Forged?
    || (exists i: nat, n: nat :: i < |h.sent| && n < |h.sent[i]| && h.sent[i][n].box == packet.box)
    || (exists n: nat :: n < |h.astray| && h.astray[n].box == packet.box)
  }

  /**
   The one dangerous delivery, which the receiver can recognise beforehand: the key is in the
   cache, but the header does not carry the current remote key, and nothing stops the DH step.
   */
  predicate LateCached(s: RatchetState, header: Header) {
    && header.Header?
    && Slot(Some(header.dh), header.n) in s.skipped
    && !OnCurrentChain(s, header.dh)
    && (s.receivingChain.Some? ==> header.pn <= s.recvCount + MAX_SKIP)
  }

  /** It is dangerous only when the packet was really sent; a forgery with such a header is refused. */
  ghost predicate LateDelivery<P>(sys: System<P>, toInitiator: bool, packet: Packet<P>) {
    && LateCached(sys.Party(toInitiator), packet.header)
    && exists i: nat, n: nat :: IsSent(sys.history, packet, i, n)
  }

  // -- the beginning --------------------------------------------------------

  function Start<P>(sessionKey: Term, signedPrekey: nat, firstKey: nat): System<P> {
    System(RatchetState(RootKey(sessionKey, Agreed(firstKey, signedPrekey)),
                        Some(ChainKey(sessionKey, Agreed(firstKey, signedPrekey))), None,
                        Some(firstKey), Some(Point(signedPrekey)), 0, 0, 0, map[]),
           Responder(sessionKey, signedPrekey), 1, 0,
           History(sessionKey, [signedPrekey, firstKey], [[], []], {}, []))
  }

  lemma StartAligned<P>(sessionKey: Term, signedPrekey: nat, firstKey: nat)
    requires signedPrekey != firstKey
    ensures Aligned(Start<P>(sessionKey, signedPrekey, firstKey))
    ensures Initiator(sessionKey, Point(signedPrekey), firstKey)
         == Success(Start<P>(sessionKey, signedPrekey, firstKey).initiator)
  {
    var h := Start<P>(sessionKey, signedPrekey, firstKey).history;
    assert Root(sessionKey, h.keys, 0) == sessionKey;
    assert Advance(Origin(sessionKey, h.keys, 1), 0) == Origin(sessionKey, h.keys, 1);
  }

  // -- what the history may do while a party stands still -----------------------

  lemma {:induction false} IndexPrefix(keys: seq<nat>, more: seq<nat>, name: nat)
    requires keys <= more && name in keys
    ensures IndexOf(more, name) == IndexOf(keys, name)
  {
    if keys[0] != name {
      assert keys[1..] <= more[1..];
      IndexPrefix(keys[1..], more[1..], name);
    }
  }

  lemma IndexOfKey(keys: seq<nat>, i: nat)
    requires i < |keys|
    requires forall i, j :: 0 <= i < j < |keys| ==> keys[i] != keys[j]
    ensures IndexOf(keys, keys[i]) == i
  {
  }

  /** The history changes only where a party at epoch `e` does not look. */
  ghost predicate GrowsAround<P>(h: History<P>, g: History<P>, e: nat) {
    && |h.keys| == |h.sent| && |g.keys| == |g.sent| && e < |h.keys|
    && g.sessionKey == h.sessionKey && h.keys <= g.keys
    && (forall j: nat :: j <= e && j + 1 != e ==> g.sent[j] == h.sent[j])
    && (e >= 1 ==> h.sent[e - 1] <= g.sent[e - 1])
    && (forall i: nat, n: nat :: RemoteEpoch(e, i) ==> ((i, n) in g.delivered <==> (i, n) in h.delivered))
  }

  lemma GotFrame<P>(h: History<P>, g: History<P>, e: nat)
    requires GrowsAround(h, g, e) && e >= 2
    ensures Got(g, e - 1) == Got(h, e - 1)
  {
    assert RemoteEpoch(e, e - 1);
    forall p: (nat, nat) | p.0 == e - 1
      ensures p in g.delivered <==> p in h.delivered
    {
      assert p == (e - 1, p.1);
    }
  }

  lemma CacheFrame<P>(s: RatchetState, e: nat, h: History<P>, g: History<P>)
    requires GrowsAround(h, g, e)
    requires CacheMatches(s, e, h)
    ensures CacheMatches(s, e, g)
  {
    forall slot | slot in s.skipped
      ensures KnownSlot(g, e, slot)
    {
      assert KnownSlot(h, e, slot);
      IndexPrefix(h.keys, g.keys, slot.dh.value.name);
    }
    forall i: nat, n: nat | i < |g.keys| && RemoteEpoch(e, i) && i + 1 < e && n < |g.sent[i]|
      ensures SlotAt(g, i, n) in s.skipped <==> (i, n) !in g.delivered
      ensures SlotAt(g, i, n) in s.skipped ==> s.skipped[SlotAt(g, i, n)] == KeyAt(Origin(g.sessionKey, g.keys, i), n)
    {
      RootPrefix(h.sessionKey, h.keys, g.keys, i);
      assert SlotAt(g, i, n) == SlotAt(h, i, n);
      assert n < |h.sent[i]|;
    }
  }

  lemma PartyFrame<P>(s: RatchetState, e: nat, h: History<P>, g: History<P>)
    requires PartyAt(s, e, h)
    requires GrowsAround(h, g, e)
    ensures PartyAt(s, e, g)
  {
    RootPrefix(h.sessionKey, h.keys, g.keys, e);
    if e >= 1 {
      RootPrefix(h.sessionKey, h.keys, g.keys, e - 1);
      CacheFrame(s, e, h, g);
    }
    if e >= 2 {
      GotFrame(h, g, e);
    }
  }

  // -- sending ---------------------------------------------------------------------

  /** The packet the party at epoch `e` sends next. */
  lemma NextPacket<P>(s: RatchetState, e: nat, h: History<P>, plaintext: P, context: Option<InitHeader>, nonce: nat)
    returns (after: RatchetState, packet: Packet<P>)
    requires PartyAt(s, e, h) && HistoryOk(h) && 1 <= e && |h.keys| <= e + 2
    ensures Encrypt(s, plaintext, nonce, context) == Success((after, packet))
    ensures var g := h.(sent := h.sent[e := h.sent[e] + [packet]]);
            HistoryOk(g) && PartyAt(after, e, g)
  {
    var sent := Encrypt(s, plaintext, nonce, context).value;
    after, packet := sent.0, sent.1;
    var g := h.(sent := h.sent[e := h.sent[e] + [packet]]);
    assert forall i: nat, n: nat :: 1 <= i < |h.sent| && n < |h.sent[i]| ==> SentAt(h, i, n);
    forall i: nat, n: nat | 1 <= i < |g.sent| && n < |g.sent[i]|
      ensures SentAt(g, i, n)
    {
      if i == e && n == |h.sent[e]| {
        assert g.sent[i][n] == packet;
      } else {
        assert SentAt(h, i, n);
        assert g.sent[i][n] == h.sent[i][n];
      }
    }
  }

  lemma SendKeepsAligned<P>(sys: System<P>, byInitiator: bool, plaintext: P, context: Option<InitHeader>, nonce: nat)
    requires Aligned(sys)
    ensures Aligned(AfterSend(sys, byInitiator, plaintext, context, nonce))
    ensures sys.Epoch(byInitiator) >= 1 <==> Encrypt(sys.Party(byInitiator), plaintext, nonce, context).Success?
  {
    hide PartyAt, HistoryOk, OpenedOk, GrowsAround, Encrypt;
    var s, e, h := sys.Party(byInitiator), sys.Epoch(byInitiator), sys.history;
    var f := sys.Epoch(!byInitiator);
    SendingNeedsAnEpoch(s, e, h, plaintext, context, nonce);
    if e >= 1 {
      var after, packet := NextPacket(s, e, h, plaintext, context, nonce);
      var g := h.(sent := h.sent[e := h.sent[e] + [packet]]);
      SentGrowsAround(h, e, f, packet);
      PartyFrame(sys.Party(!byInitiator), f, h, g);
      SentKeepsOpened(sys, byInitiator, after, packet);
    }
  }

  /** A party can send exactly when it has entered an epoch. */
  lemma SendingNeedsAnEpoch<P>(s: RatchetState, e: nat, h: History<P>, plaintext: P, context: Option<InitHeader>, nonce: nat)
    requires PartyAt(s, e, h)
    ensures |h.keys| == |h.sent| && e < |h.keys|
    ensures e >= 1 <==> Encrypt(s, plaintext, nonce, context).Success?
  {
  }

  lemma SentGrowsAround<P>(h: History<P>, e: nat, f: nat, packet: Packet<P>)
    requires |h.keys| == |h.sent| && e < |h.keys| && f < |h.keys| && (e == f + 1 || f == e + 1)
    ensures GrowsAround(h, h.(sent := h.sent[e := h.sent[e] + [packet]]), f)
  {
  }

  lemma SentKeepsOpened<P>(sys: System<P>, byInitiator: bool, after: RatchetState, packet: Packet<P>)
    requires OpenedOk(sys) && sys.Epoch(byInitiator) < |sys.history.sent|
    ensures var e, h := sys.Epoch(byInitiator), sys.history;
            OpenedOk(WithParty(sys, byInitiator, after, e, h.(sent := h.sent[e := h.sent[e] + [packet]])))
  {
  }

  /** Whoever can seal moves on, and what was sealed is on the network, whatever state the parties are in. */
  lemma SealedIsOnNetwork<P>(sys: System<P>, byInitiator: bool, plaintext: P, context: Option<InitHeader>, nonce: nat)
    requires Encrypt(sys.Party(byInitiator), plaintext, nonce, context).Success?
    ensures var (s, packet) := Encrypt(sys.Party(byInitiator), plaintext, nonce, context).value;
            var after := AfterSend(sys, byInitiator, plaintext, context, nonce);
            && after.Party(byInitiator) == s && after.Party(!byInitiator) == sys.Party(!byInitiator)
            && forall carried: Packet<P> :: carried.box == packet.box ==> OnNetwork(after.history, carried)
  {
    var e, h := sys.Epoch(byInitiator), sys.history;
    var packet := Encrypt(sys.Party(byInitiator), plaintext, nonce, context).value.1;
    var g := AfterSend(sys, byInitiator, plaintext, context, nonce).history;
    if e < |h.keys| && e < |h.sent| && sys.Party(byInitiator).selfKey == Some(h.keys[e]) {
      assert g.sent[e][|h.sent[e]|] == packet;
    } else {
      assert g.astray[|h.astray|] == packet;
    }
  }

  // -- delivering --------------------------------------------------------------

  /** Whatever opens was sent by one of the two parties, unaltered. */
  lemma OpensOnlyIfSent<P>(s: RatchetState, h: History<P>, packet: Packet<P>, newKey: nat) returns (i: nat, n: nat)
    requires HistoryOk(h) && OnNetwork(h, packet)
    requires Attempt(s, packet, newKey).Success?
    ensures 1 <= i && IsSent(h, packet, i, n)
  {
    i, n :| i < |h.sent| && n < |h.sent[i]| && h.sent[i][n].box == packet.box;
    assert SentAt(h, i, n);
  }

  /** A chain key does not say where on its chain it is, but it says which chain. */
  function BaseOf(t: Term): Term {
    match t
    case NextChain(c) => BaseOf(c)
    case _ => t
  }

  lemma {:induction false} BaseOfAdvance(chain: Term, steps: nat)
    ensures BaseOf(Advance(chain, steps)) == BaseOf(chain)
  {
    if steps > 0 {
      BaseOfAdvance(chain, steps - 1);
    }
  }

  /**
   What a Diffie-Hellman step to the ratchet key of packet `(i, n)` does when that key is not
   the next one: the new chain is not the packet's, so only a cached key can open it.
   */
  lemma WrongEpochFails<P>(s: RatchetState, origin: Term, packet: Packet<P>, newKey: nat, n: nat)
    requires packet.header.Header? && packet.header.n == n && packet.box.Sealed?
    requires Genuine(packet, packet.header.dh, origin, n, packet.box.plaintext)
    requires origin.ChainKey? && RatchetKeys.Depth(origin.root) < RatchetKeys.Depth(s.rootKey)
    requires !OnCurrentChain(s, packet.header.dh)
    requires Slot(Some(packet.header.dh), n) !in s.skipped
    requires s.remote != Some(packet.header.dh)
    ensures Attempt(s, packet, newKey).Failure?
  {
    var dh, pn := packet.header.dh, packet.header.pn;
    var entered := EnterEpoch(s, dh, pn, newKey);
    if entered.Success? {
      var skipped := SkipKeys(s, pn).value;
      assert skipped.rootKey == s.rootKey;
      assert Slot(Some(dh), n) !in skipped.skipped;
      var chain := entered.value.receivingChain.value;
      assert chain.ChainKey? && chain.root == s.rootKey;
      var taken := TakeKey(entered.value, dh, n);
      if taken.Success? {
        assert taken.value.1 == KeyAt(chain, n);
        BaseOfAdvance(chain, n);
        BaseOfAdvance(origin, n);
      }
    }
  }

  // -- a packet of the current remote epoch ------------------------------------

  function MarkDelivered<P>(h: History<P>, i: nat, n: nat): History<P> {
    h.(delivered := h.delivered + {(i, n)})
  }

  lemma GotAfter<P>(h: History<P>, i: nat, n: nat)
    ensures Got(MarkDelivered(h, i, n), i) == Got(h, i) + {n}
  {
    assert (i, n) in MarkDelivered(h, i, n).delivered;
    forall m | m in Got(h, i)
      ensures m in Got(MarkDelivered(h, i, n), i)
    {
      assert (i, m) in MarkDelivered(h, i, n).delivered;
    }
  }

  /** Moving along the chain of epoch `e - 1` caches only slots of that epoch. */
  lemma SlotsStayKnown<P>(s: RatchetState, t: RatchetState, e: nat, h: History<P>, got: set<nat>)
    requires e >= 2 && HistoryOk(h) && e < |h.keys|
    requires forall slot :: slot in s.skipped ==> KnownSlot(h, e, slot)
    requires OnChain(t, Point(h.keys[e - 1]), Origin(h.sessionKey, h.keys, e - 1), got)
    requires SameOtherSlots(s, t, Point(h.keys[e - 1])) && t.recvCount <= |h.sent[e - 1]|
    ensures forall slot :: slot in t.skipped ==> KnownSlot(h, e, slot)
  {
    var dh := Point(h.keys[e - 1]);
    forall slot | slot in t.skipped
      ensures KnownSlot(h, e, slot)
    {
      if slot.dh == Some(dh) {
        IndexOfKey(h.keys, e - 1);
        assert slot == Slot(Some(dh), slot.number);
      } else {
        assert KnownSlot(h, e, slot);
      }
    }
  }

  lemma OldCacheStays<P>(s: RatchetState, t: RatchetState, e: nat, h: History<P>, n: nat)
    requires e >= 2 && HistoryOk(h) && e < |h.keys|
    requires CacheMatches(s, e, h)
    requires SameOtherSlots(s, t, Point(h.keys[e - 1]))
    requires forall slot :: slot in t.skipped ==> KnownSlot(h, e, slot)
    ensures CacheMatches(t, e, MarkDelivered(h, e - 1, n))
  {
    var g := MarkDelivered(h, e - 1, n);
    forall i: nat, m: nat | i < |g.keys| && RemoteEpoch(e, i) && i + 1 < e && m < |g.sent[i]|
      ensures SlotAt(g, i, m) in t.skipped <==> (i, m) !in g.delivered
      ensures SlotAt(g, i, m) in t.skipped ==> t.skipped[SlotAt(g, i, m)] == KeyAt(Origin(g.sessionKey, g.keys, i), m)
    {
      assert SlotAt(g, i, m) == SlotAt(h, i, m);
      assert h.keys[i] != h.keys[e - 1];
    }
    forall slot | slot in t.skipped
      ensures KnownSlot(g, e, slot)
    {
      assert KnownSlot(h, e, slot);
    }
  }

  /** A packet of the epoch the receiver stands in: no Diffie-Hellman step. */
  lemma DeliverCurrent<P>(s: RatchetState, e: nat, h: History<P>, packet: Packet<P>, n: nat, newKey: nat)
    requires PartyAt(s, e, h) && HistoryOk(h) && e >= 2
    requires IsSent(h, packet, e - 1, n)
    ensures Attempt(s, packet, newKey).Success? <==> (e - 1, n) !in h.delivered && n <= s.recvCount + 1000
    ensures Attempt(s, packet, newKey).Success? ==>
              PartyAt(Attempt(s, packet, newKey).value.state, e, MarkDelivered(h, e - 1, n))
  {
    assert SentAt(h, e - 1, n);
    var dh, origin := Point(h.keys[e - 1]), Origin(h.sessionKey, h.keys, e - 1);
    DeliverOnChain(s, dh, origin, Got(h, e - 1), packet, n, packet.box.plaintext, newKey);
    assert n in Got(h, e - 1) <==> (e - 1, n) in h.delivered;
    var attempt := Attempt(s, packet, newKey);
    if attempt.Success? {
      GotAfter(h, e - 1, n);
      SlotsStayKnown(s, attempt.value.state, e, h, Got(h, e - 1) + {n});
      OldCacheStays(s, attempt.value.state, e, h, n);
    }
  }

  // -- a packet of the next remote epoch -----------------------------------------

  /** The history once the receiver has answered a new ratchet key with one of its own. */
  function OpenEpoch<P>(h: History<P>, newKey: nat): History<P> {
    h.(keys := h.keys + [newKey], sent := h.sent + [[]])
  }

  lemma OpenEpochOk<P>(h: History<P>, newKey: nat)
    requires HistoryOk(h) && newKey !in h.keys
    ensures HistoryOk(OpenEpoch(h, newKey))
  {
    var g := OpenEpoch(h, newKey);
    forall i: nat, n: nat | 1 <= i < |g.sent| && n < |g.sent[i]|
      ensures SentAt(g, i, n)
    {
      assert SentAt(h, i, n);
      RootPrefix(h.sessionKey, h.keys, g.keys, i);
    }
  }

  /** Every unopened packet of every remote epoch so far is cached under its sender's key. */
  ghost predicate FullCache<P>(s: RatchetState, e: nat, h: History<P>)
    requires e < |h.keys| == |h.sent|
  {
    forall i: nat, n: nat :: RemoteEpoch(e, i) && n < |h.sent[i]| ==>
      && (SlotAt(h, i, n) in s.skipped <==> (i, n) !in h.delivered)
      && (SlotAt(h, i, n) in s.skipped ==> s.skipped[SlotAt(h, i, n)] == KeyAt(Origin(h.sessionKey, h.keys, i), n))
  }

  /** Running the old chain to its end completes the cache for all earlier remote epochs. */
  lemma EndOfChainCached<P>(s: RatchetState, e: nat, h: History<P>, after: RatchetState)
    requires PartyAt(s, e, h) && HistoryOk(h) && |h.keys| == e + 2
    requires SkipKeys(s, PreviousLength(h, e + 1)) == Success(after)
    ensures after == s.(receivingChain := after.receivingChain, recvCount := after.recvCount, skipped := after.skipped)
    ensures forall slot :: slot in after.skipped ==> KnownSlot(h, e, slot)
    ensures FullCache(after, e, h)
  {
    if e >= 2 {
      var pn := |h.sent[e - 1]|;
      var dh, origin := Point(h.keys[e - 1]), Origin(h.sessionKey, h.keys, e - 1);
      if s.recvCount < pn {
        SkipOnChain(s, dh, origin, Got(h, e - 1), pn);
      }
      assert OnChain(after, dh, origin, Got(h, e - 1)) && after.recvCount == pn;
      assert SameOtherSlots(s, after, dh);
      SlotsStayKnown(s, after, e, h, Got(h, e - 1));
      forall i: nat, n: nat | RemoteEpoch(e, i) && n < |h.sent[i]|
        ensures SlotAt(h, i, n) in after.skipped <==> (i, n) !in h.delivered
        ensures SlotAt(h, i, n) in after.skipped ==>
                  after.skipped[SlotAt(h, i, n)] == KeyAt(Origin(h.sessionKey, h.keys, i), n)
      {
        if i == e - 1 {
          assert SlotAt(h, i, n) == Slot(Some(dh), n);
          assert n in Got(h, e - 1) <==> (e - 1, n) in h.delivered;
        } else {
          assert h.keys[i] != h.keys[e - 1];
        }
      }
    }
  }

  /** The Diffie-Hellman step to the next remote key: the party is now two epochs further. */
  lemma StepToNextEpoch<P>(s: RatchetState, e: nat, h: History<P>, newKey: nat, ended: RatchetState, after: RatchetState)
    requires PartyAt(s, e, h) && HistoryOk(h) && |h.keys| == e + 2 && newKey !in h.keys
    requires Got(h, e + 1) == {}
    requires SkipKeys(s, PreviousLength(h, e + 1)) == Success(ended)
    requires DhRatchet(ended, Point(h.keys[e + 1]), newKey) == Success(after)
    ensures PartyAt(after, e + 2, OpenEpoch(h, newKey))
    ensures after.recvCount == 0
  {
    var root := Root(h.sessionKey, h.keys, e);
    assert s.rootKey == root && s.selfKey == Some(h.keys[e]);
    assert s.sendCount == |h.sent[e]| by {
      assert e == 0 ==> h.sent[0] == [];
    }
    EndOfChainCached(s, e, h, ended);
    hide PartyAt, SkipKeys;
    NoSlotOfTheNewKey(e, h, after, Point(h.keys[e + 1]));
    NextCacheMatches(e, h, newKey, after);
    DhAgreement(newKey, h.keys[e + 1], 0);
    hide HistoryOk, CacheMatches, FullCache, KnownSlot;
    NextEpochStarts(e, h, newKey, after, Point(h.keys[e + 1]));
  }

  lemma NoSlotOfTheNewKey<P>(e: nat, h: History<P>, after: RatchetState, dh: PublicKey)
    requires HistoryOk(h) && |h.keys| == e + 2 && dh == Point(h.keys[e + 1])
    requires forall slot :: slot in after.skipped ==> KnownSlot(h, e, slot)
    ensures forall n: int :: Slot(Some(dh), n) !in after.skipped
  {
    IndexOfKey(h.keys, e + 1);
    forall n: int
      ensures Slot(Some(dh), n) !in after.skipped
    {
      assert !KnownSlot(h, e, Slot(Some(dh), n));
    }
  }

  /** A state stepped to the next remote ratchet key, field by field, is a party's state at the epoch after it. */
  lemma NextEpochStarts<P>(e: nat, h: History<P>, newKey: nat, after: RatchetState, dh: PublicKey)
    requires |h.keys| == |h.sent| == e + 2 && Got(h, e + 1) == {} && dh == Point(h.keys[e + 1])
    requires CacheMatches(after, e + 2, OpenEpoch(h, newKey))
    requires forall n: int :: Slot(Some(dh), n) !in after.skipped
    requires after.selfKey == Some(newKey) && after.remote == Some(dh)
    requires after.sendCount == 0 && after.recvCount == 0 && after.prevSendCount == |h.sent[e]|
    requires var root := RootKey(Root(h.sessionKey, h.keys, e), Agreed(h.keys[e], h.keys[e + 1]));
             && after.rootKey == RootKey(root, Agreed(h.keys[e + 1], newKey))
             && after.receivingChain == Some(ChainKey(Root(h.sessionKey, h.keys, e), Agreed(h.keys[e], h.keys[e + 1])))
             && after.sendingChain == Some(ChainKey(root, Agreed(h.keys[e + 1], newKey)))
    ensures PartyAt(after, e + 2, OpenEpoch(h, newKey))
  {
    var g := OpenEpoch(h, newKey);
    RootPrefix(h.sessionKey, h.keys, g.keys, e);
    RootPrefix(h.sessionKey, h.keys, g.keys, e + 1);
    assert Got(g, e + 1) == {};
    hide CacheMatches;
  }

  lemma NextCacheMatches<P>(e: nat, h: History<P>, newKey: nat, after: RatchetState)
    requires HistoryOk(h) && |h.keys| == |h.sent| == e + 2
    requires forall slot :: slot in after.skipped ==> KnownSlot(h, e, slot)
    requires FullCache(after, e, h)
    ensures CacheMatches(after, e + 2, OpenEpoch(h, newKey))
  {
    hide HistoryOk, KnownSlot, FullCache, OpenEpoch;
    NextSlotsKnown(e, h, newKey, after);
    NextCacheOld(e, h, newKey, after);
  }

  lemma NextSlotsKnown<P>(e: nat, h: History<P>, newKey: nat, after: RatchetState)
    requires |h.keys| == |h.sent| == e + 2
    requires forall slot :: slot in after.skipped ==> KnownSlot(h, e, slot)
    ensures var g := OpenEpoch(h, newKey);
            |g.keys| == |g.sent| && forall slot :: slot in after.skipped ==> KnownSlot(g, e + 2, slot)
  {
    var g := OpenEpoch(h, newKey);
    forall slot | slot in after.skipped
      ensures KnownSlot(g, e + 2, slot)
    {
      assert KnownSlot(h, e, slot);
      IndexPrefix(h.keys, g.keys, slot.dh.value.name);
    }
  }

  lemma NextCacheOld<P>(e: nat, h: History<P>, newKey: nat, after: RatchetState)
    requires HistoryOk(h) && |h.keys| == e + 2
    requires FullCache(after, e, h)
    ensures var g := OpenEpoch(h, newKey);
            forall i: nat, n: nat :: i < |g.keys| && RemoteEpoch(e + 2, i) && i + 1 < e + 2 && n < |g.sent[i]| ==>
              && (SlotAt(g, i, n) in after.skipped <==> (i, n) !in g.delivered)
              && (SlotAt(g, i, n) in after.skipped ==>
                    after.skipped[SlotAt(g, i, n)] == KeyAt(Origin(g.sessionKey, g.keys, i), n))
  {
    var g := OpenEpoch(h, newKey);
    forall i: nat, n: nat | i < |g.keys| && RemoteEpoch(e + 2, i) && i + 1 < e + 2 && n < |g.sent[i]|
      ensures SlotAt(g, i, n) in after.skipped <==> (i, n) !in g.delivered
      ensures SlotAt(g, i, n) in after.skipped ==>
                after.skipped[SlotAt(g, i, n)] == KeyAt(Origin(g.sessionKey, g.keys, i), n)
    {
      assert RemoteEpoch(e, i);
      assert SlotAt(g, i, n) == SlotAt(h, i, n);
      RootPrefix(h.sessionKey, h.keys, g.keys, i);
    }
  }

  lemma OpenedEpochKeeps<P>(h: History<P>, newKey: nat, packet: Packet<P>, i: nat, n: nat)
    requires IsSent(h, packet, i, n) && |h.keys| == |h.sent|
    ensures IsSent(OpenEpoch(h, newKey), packet, i, n)
    ensures Got(h, i) == {} ==> (i, n) !in OpenEpoch(h, newKey).delivered
  {
    assert Got(h, i) == {} ==> n !in Got(h, i);
  }

  /** Off the current chain, a delivery first steps the ratchet; what follows is a delivery to the stepped state. */
  lemma SteppingThenTaking<P>(s: RatchetState, packet: Packet<P>, newKey: nat)
    requires packet.header.Header? && !OnCurrentChain(s, packet.header.dh)
    ensures var entered := EnterEpoch(s, packet.header.dh, packet.header.pn, newKey);
            if entered.Success? then Attempt(s, packet, newKey) == Attempt(entered.value, packet, newKey)
            else Attempt(s, packet, newKey).Failure?
  {
    hide SkipKeys, DhRatchet, TakeKey;
  }

  /** A packet of the epoch after the receiver's: the receiver answers with a new epoch of its own. */
  lemma DeliverNext<P>(s: RatchetState, e: nat, h: History<P>, packet: Packet<P>, n: nat, newKey: nat)
    requires PartyAt(s, e, h) && HistoryOk(h) && |h.keys| == e + 2 && newKey !in h.keys
    requires Got(h, e + 1) == {}
    requires IsSent(h, packet, e + 1, n)
    ensures packet.header.Header? && !OnCurrentChain(s, packet.header.dh)
    ensures Attempt(s, packet, newKey).Success? <==>
              (s.receivingChain.Some? ==> packet.header.pn <= s.recvCount + MAX_SKIP) && n <= MAX_SKIP
    ensures Attempt(s, packet, newKey).Success? ==>
              PartyAt(Attempt(s, packet, newKey).value.state, e + 2, MarkDelivered(OpenEpoch(h, newKey), e + 1, n))
  {
    assert SentAt(h, e + 1, n);
    var dh, pn := Point(h.keys[e + 1]), PreviousLength(h, e + 1);
    assert packet.header == Header(dh, pn, n);
    assert e >= 1 ==> h.keys[e - 1] != h.keys[e + 1];
    assert s.selfKey.Some? && (e >= 1 ==> s.remote == Some(Point(h.keys[e - 1]))) && (e == 0 ==> s.remote == None);
    OpenedEpochKeeps(h, newKey, packet, e + 1, n);
    hide PartyAt, HistoryOk, SentAt, Attempt, IsSent, OpenEpoch, Got, MarkDelivered;
    var ended := SkipKeys(s, pn);
    SteppingThenTaking(s, packet, newKey);
    if ended.Success? {
      var g := OpenEpoch(h, newKey);
      var after := DhRatchet(ended.value, dh, newKey).value;
      StepToNextEpoch(s, e, h, newKey, ended.value, after);
      OpenEpochOk(h, newKey);
      DeliverCurrent(after, e + 2, g, packet, n, newKey);
    }
  }

  /** The state a Diffie-Hellman step from root `root` to the old ratchet key `late` commits. */
  predicate Astray(t: RatchetState, root: Term, own: nat, late: nat, newKey: nat) {
    && t.rootKey == RootKey(RootKey(root, Agreed(own, late)), Agreed(newKey, late))
    && t.sendingChain == Some(ChainKey(RootKey(root, Agreed(own, late)), Agreed(newKey, late)))
    && t.receivingChain == Some(ChainKey(root, Agreed(own, late)))
    && t.selfKey == Some(newKey) && t.remote == Some(Point(late))
    && t.sendCount == 0 && t.recvCount == 0
  }

  // -- every other packet ----------------------------------------------------------

  /**
   A packet of an epoch that is neither the receiver's current nor next remote epoch (an old
   one, or one of the receiver's own) opens exactly when its key is cached and nothing stops
   the Diffie-Hellman step, which then leads away from the common key schedule.
   */
  lemma DeliverElsewhere<P>(s: RatchetState, e: nat, h: History<P>, packet: Packet<P>, i: nat, n: nat, newKey: nat)
    requires PartyAt(s, e, h) && HistoryOk(h)
    requires IsSent(h, packet, i, n) && 1 <= i <= e && i != e - 1
    ensures Attempt(s, packet, newKey).Success? <==> LateCached(s, packet.header)
    ensures LateCached(s, packet.header) ==>
              && RemoteEpoch(e, i) && i + 3 <= e
              && Attempt(s, packet, newKey).value.plaintext == packet.box.plaintext
              && Astray(Attempt(s, packet, newKey).value.state, s.rootKey, h.keys[e], h.keys[i], newKey)
  {
    var origin := ElsewhereFacts(s, e, h, packet, i, n);
    hide PartyAt, HistoryOk, IsSent, Attempt;
    if Slot(Some(packet.header.dh), n) in s.skipped {
      CachedOpens(s, packet, newKey, KeyAt(origin, n));
    } else {
      WrongEpochFails(s, origin, packet, newKey, n);
    }
  }

  /** What a party knows of a packet that is of neither its current nor its next remote epoch. */
  lemma ElsewhereFacts<P>(s: RatchetState, e: nat, h: History<P>, packet: Packet<P>, i: nat, n: nat) returns (origin: Term)
    requires PartyAt(s, e, h) && HistoryOk(h)
    requires IsSent(h, packet, i, n) && 1 <= i <= e && i != e - 1
    ensures e < |h.keys| && s.selfKey == Some(h.keys[e])
    ensures packet.header.Header? && packet.header.dh == Point(h.keys[i]) && packet.header.n == n && packet.box.Sealed?
    ensures Genuine(packet, packet.header.dh, origin, n, packet.box.plaintext)
    ensures origin.ChainKey? && RatchetKeys.Depth(origin.root) < RatchetKeys.Depth(s.rootKey)
    ensures s.remote != Some(packet.header.dh) && !OnCurrentChain(s, packet.header.dh)
    ensures Slot(Some(packet.header.dh), n) in s.skipped ==>
              && s.skipped[Slot(Some(packet.header.dh), n)] == KeyAt(origin, n)
              && RemoteEpoch(e, i) && i + 3 <= e
  {
    assert SentAt(h, i, n);
    origin := Origin(h.sessionKey, h.keys, i);
    RootDepth(h.sessionKey, h.keys, i - 1);
    RootDepth(h.sessionKey, h.keys, e);
    assert h.keys[e - 1] != h.keys[i];
    hide HistoryOk, Root, SentAt;
    var slot := SlotAt(h, i, n);
    if slot in s.skipped {
      assert KnownSlot(h, e, slot);
      IndexOfKey(h.keys, i);
    }
  }

  /** A cached key opens its packet after a Diffie-Hellman step to the packet's ratchet key. */
  lemma CachedOpens<P>(s: RatchetState, packet: Packet<P>, newKey: nat, key: Term)
    requires packet.header.Header? && packet.header.dh.Point? && s.selfKey.Some?
    requires !OnCurrentChain(s, packet.header.dh) && s.remote != Some(packet.header.dh)
    requires var slot := Slot(Some(packet.header.dh), packet.header.n);
             slot in s.skipped && s.skipped[slot] == key
    requires packet.box.Sealed? && packet.box.key == key && packet.box.nonce == packet.nonce
    requires packet.box.ad == AssociatedData(packet.context, packet.header)
    ensures Attempt(s, packet, newKey).Success? <==> LateCached(s, packet.header)
    ensures LateCached(s, packet.header) ==>
              && Attempt(s, packet, newKey).value.plaintext == packet.box.plaintext
              && Astray(Attempt(s, packet, newKey).value.state, s.rootKey, s.selfKey.value, packet.header.dh.name, newKey)
  {
    var dh, pn, n := packet.header.dh, packet.header.pn, packet.header.n;
    var slot := Slot(Some(dh), n);
    var skipped := SkipKeys(s, pn);
    if skipped.Success? {
      assert slot in skipped.value.skipped && skipped.value.skipped[slot] == key;
      assert DhRatchet(skipped.value, dh, newKey).Success?;
    }
  }

  // -- main results -----------------------------------------------------------------

  /** One party has moved, the history has grown around the other. */
  lemma Reassemble<P>(sys: System<P>, who: bool, t: RatchetState, e: nat, g: History<P>)
    requires Aligned(sys)
    requires HistoryOk(g) && PartyAt(t, e, g) && GrowsAround(sys.history, g, sys.Epoch(!who))
    requires |g.keys| == Max(e, sys.Epoch(!who)) + 1
    requires e == sys.Epoch(!who) + 1 || sys.Epoch(!who) == e + 1
    requires OpenedOk(WithParty(sys, who, t, e, g))
    ensures Aligned(WithParty(sys, who, t, e, g))
  {
    hide PartyAt, HistoryOk, GrowsAround, OpenedOk;
    PartyFrame(sys.Party(!who), sys.Epoch(!who), sys.history, g);
  }

  lemma MarkDeliveredOk<P>(h: History<P>, i: nat, n: nat)
    requires HistoryOk(h)
    ensures HistoryOk(MarkDelivered(h, i, n))
  {
    var g := MarkDelivered(h, i, n);
    forall j: nat, m: nat | 1 <= j < |g.sent| && m < |g.sent[j]|
      ensures SentAt(g, j, m)
    {
      assert SentAt(h, j, m);
    }
  }

  /** What alignment says about one party. */
  lemma AlignedParty<P>(sys: System<P>, who: bool)
    requires Aligned(sys)
    ensures HistoryOk(sys.history) && PartyAt(sys.Party(who), sys.Epoch(who), sys.history)
    ensures |sys.history.keys| == |sys.history.sent| == Max(sys.Epoch(who), sys.Epoch(!who)) + 1
    ensures sys.Epoch(who) == sys.Epoch(!who) + 1 || sys.Epoch(!who) == sys.Epoch(who) + 1
    ensures sys.Epoch(who) % 2 == if who then 1 else 0
  {
    hide PartyAt;
  }

  /** What a successful delivery of packet `(i, n)` makes of the system. */
  lemma DeliveredShape<P>(sys: System<P>, toInitiator: bool, packet: Packet<P>, newKey: nat, i: nat, n: nat)
    requires HistoryOk(sys.history) && 1 <= i && IsSent(sys.history, packet, i, n)
    requires Attempt(sys.Party(toInitiator), packet, newKey).Success?
    ensures packet.header.Header?
    ensures var s, e, h := sys.Party(toInitiator), sys.Epoch(toInitiator), sys.history;
            AfterDeliver(sys, toInitiator, packet, newKey)
            == if OnCurrentChain(s, packet.header.dh) then
                 WithParty(sys, toInitiator, Attempt(s, packet, newKey).value.state, e, MarkDelivered(h, i, n))
               else
                 WithParty(sys, toInitiator, Attempt(s, packet, newKey).value.state, e + 2,
                           MarkDelivered(OpenEpoch(h, newKey), i, n))
  {
    assert SentAt(sys.history, i, n);
    IndexOfKey(sys.history.keys, i);
    hide Attempt, HistoryOk;
  }

  lemma CurrentKeepsAligned<P>(sys: System<P>, toInitiator: bool, packet: Packet<P>, newKey: nat, n: nat)
    requires Aligned(sys) && sys.Epoch(toInitiator) >= 2
    requires IsSent(sys.history, packet, sys.Epoch(toInitiator) - 1, n)
    requires Attempt(sys.Party(toInitiator), packet, newKey).Success?
    ensures Aligned(AfterDeliver(sys, toInitiator, packet, newKey))
  {
    hide Aligned, PartyAt, HistoryOk, Attempt, OpenedOk, AfterDeliver;
    var s, e, h := sys.Party(toInitiator), sys.Epoch(toInitiator), sys.history;
    AlignedParty(sys, toInitiator);
    CurrentIsOnChain(s, e, h, packet, n);
    DeliverCurrent(s, e, h, packet, n, newKey);
    var g, t := MarkDelivered(h, e - 1, n), Attempt(s, packet, newKey).value.state;
    DeliveredShape(sys, toInitiator, packet, newKey, e - 1, n);
    MarkDeliveredOk(h, e - 1, n);
    assert GrowsAround(h, g, sys.Epoch(!toInitiator));
    CurrentOpenedOk(sys, toInitiator, t, n);
    Reassemble(sys, toInitiator, t, e, g);
  }

  lemma CurrentIsOnChain<P>(s: RatchetState, e: nat, h: History<P>, packet: Packet<P>, n: nat)
    requires PartyAt(s, e, h) && HistoryOk(h) && e >= 2 && IsSent(h, packet, e - 1, n)
    ensures packet.header.Header? && OnCurrentChain(s, packet.header.dh)
  {
    assert SentAt(h, e - 1, n);
  }

  lemma CurrentOpenedOk<P>(sys: System<P>, who: bool, t: RatchetState, n: nat)
    requires Aligned(sys) && sys.Epoch(who) >= 2
    requires n < |sys.history.sent[sys.Epoch(who) - 1]|
    ensures OpenedOk(WithParty(sys, who, t, sys.Epoch(who), MarkDelivered(sys.history, sys.Epoch(who) - 1, n)))
  {
    var e := sys.Epoch(who);
    var after := WithParty(sys, who, t, e, MarkDelivered(sys.history, e - 1, n));
    forall i: nat, m: nat | (i, m) in after.history.delivered
      ensures i < |after.history.sent| && m < |after.history.sent[i]| && RemoteEpoch(after.Epoch(i % 2 == 0), i)
    {
      if (i, m) != (e - 1, n) {
        assert (i, m) in sys.history.delivered;
      }
    }
  }

  lemma NextKeepsAligned<P>(sys: System<P>, toInitiator: bool, packet: Packet<P>, newKey: nat, n: nat)
    requires Aligned(sys) && newKey !in sys.history.keys
    requires IsSent(sys.history, packet, sys.Epoch(toInitiator) + 1, n)
    requires Attempt(sys.Party(toInitiator), packet, newKey).Success?
    ensures Aligned(AfterDeliver(sys, toInitiator, packet, newKey))
  {
    hide Aligned, PartyAt, HistoryOk, Attempt, OpenedOk, AfterDeliver;
    var s, e, h := sys.Party(toInitiator), sys.Epoch(toInitiator), sys.history;
    AlignedParty(sys, toInitiator);
    NothingOpenedYet(sys, toInitiator);
    DeliverNext(s, e, h, packet, n, newKey);
    var g, t := MarkDelivered(OpenEpoch(h, newKey), e + 1, n), Attempt(s, packet, newKey).value.state;
    DeliveredShape(sys, toInitiator, packet, newKey, e + 1, n);
    OpenEpochOk(h, newKey);
    MarkDeliveredOk(OpenEpoch(h, newKey), e + 1, n);
    assert GrowsAround(h, g, sys.Epoch(!toInitiator));
    AlignedOpened(sys);
    NextOpenedOk(sys, toInitiator, t, newKey, n);
    Reassemble(sys, toInitiator, t, e + 2, g);
  }

  lemma NothingOpenedYet<P>(sys: System<P>, who: bool)
    requires Aligned(sys)
    ensures Got(sys.history, sys.Epoch(who) + 1) == {}
  {
    var e := sys.Epoch(who);
    forall p | p in sys.history.delivered
      ensures p.0 != e + 1
    {
      assert (p.0, p.1) in sys.history.delivered;
    }
  }

  lemma NextUnopened<P>(sys: System<P>, who: bool, n: nat)
    requires Aligned(sys)
    ensures (sys.Epoch(who) + 1, n) !in sys.history.delivered
  {
  }

  lemma AlignedOpened<P>(sys: System<P>)
    requires Aligned(sys)
    ensures OpenedOk(sys) && sys.initiatorEpoch % 2 == 1 && sys.responderEpoch % 2 == 0
  {
    hide PartyAt, HistoryOk, OpenedOk;
  }

  lemma NextOpenedOk<P>(sys: System<P>, who: bool, t: RatchetState, newKey: nat, n: nat)
    requires OpenedOk(sys) && sys.initiatorEpoch % 2 == 1 && sys.responderEpoch % 2 == 0
    requires sys.Epoch(who) + 1 < |sys.history.sent| && n < |sys.history.sent[sys.Epoch(who) + 1]|
    ensures OpenedOk(WithParty(sys, who, t, sys.Epoch(who) + 2,
                               MarkDelivered(OpenEpoch(sys.history, newKey), sys.Epoch(who) + 1, n)))
  {
    var e := sys.Epoch(who);
    var after := WithParty(sys, who, t, e + 2, MarkDelivered(OpenEpoch(sys.history, newKey), e + 1, n));
    forall i: nat, m: nat | (i, m) in after.history.delivered
      ensures i < |after.history.sent| && m < |after.history.sent[i]| && RemoteEpoch(after.Epoch(i % 2 == 0), i)
    {
      if (i, m) != (e + 1, n) {
        assert (i, m) in sys.history.delivered;
      }
    }
  }

  /**
   Every delivery a network can make keeps the two parties aligned, unless it is a late packet
   whose key the receiver still has in its cache.
   */
  lemma DeliverKeepsAligned<P>(sys: System<P>, toInitiator: bool, packet: Packet<P>, newKey: nat)
    requires Aligned(sys) && newKey !in sys.history.keys && OnNetwork(sys.history, packet)
    requires !LateDelivery(sys, toInitiator, packet)
    ensures Aligned(AfterDeliver(sys, toInitiator, packet, newKey))
  {
    var s, e, h := sys.Party(toInitiator), sys.Epoch(toInitiator), sys.history;
    AlignedParty(sys, toInitiator);
    hide Aligned, PartyAt, HistoryOk, Attempt;
    if Attempt(s, packet, newKey).Success? {
      var i, n := OpensOnlyIfSent(s, h, packet, newKey);
      if i == e + 1 {
        NextKeepsAligned(sys, toInitiator, packet, newKey, n);
      } else if i + 1 == e {
        CurrentKeepsAligned(sys, toInitiator, packet, newKey, n);
      } else {
        DeliverElsewhere(s, e, h, packet, i, n, newKey);
        assert false;
      }
    }
  }

  /** The root key after a late delivery is not the root key of any epoch in any future. */
  lemma RootNeverRejoins(sessionKey: Term, keys: seq<nat>, e: nat, i: nat, newKey: nat, future: seq<nat>, j: nat)
    requires i < e < |keys| && keys <= future && j < |future|
    requires forall a, b :: 0 <= a < b < |future| ==> future[a] != future[b]
    ensures Root(sessionKey, future, j)
         != RootKey(RootKey(Root(sessionKey, keys, e), Agreed(keys[e], keys[i])), Agreed(newKey, keys[i]))
  {
    RootDepth(sessionKey, future, j);
    RootDepth(sessionKey, keys, e);
    StrayDepth(Root(sessionKey, keys, e), Agreed(keys[e], keys[i]), Agreed(newKey, keys[i]));
    hide Root, RatchetKeys.Depth;
    if j == e + 2 {
      RootUnfolds(sessionKey, future, e + 1);
      RootUnfolds(sessionKey, future, j);
      assert future[e] == keys[e] && future[i] == keys[i];
      DhAgreement(keys[e], future[e + 1], keys[i]);
    }
  }

  lemma StrayDepth(root: Term, dh: Term, dh': Term)
    ensures RatchetKeys.Depth(RootKey(RootKey(root, dh), dh')) == RatchetKeys.Depth(root) + 2
  {
  }

  lemma RootUnfolds(sessionKey: Term, keys: seq<nat>, j: nat)
    requires 1 <= j < |keys|
    ensures Root(sessionKey, keys, j) == RootKey(Root(sessionKey, keys, j - 1), Agreed(keys[j - 1], keys[j]))
  {
  }

  /**
   The exact limit of the code: an authentic packet keeps the parties aligned if and only if
   it is not late with its key in the cache. In that case it still opens, but the receiver
   commits a root key that no future of the conversation ever reaches.
   */
  lemma AlignedUnlessLate<P>(sys: System<P>, toInitiator: bool, packet: Packet<P>, i: nat, n: nat, newKey: nat,
                             future: seq<nat>, j: nat)
    requires Aligned(sys) && newKey !in sys.history.keys
    requires 1 <= i && IsSent(sys.history, packet, i, n)
    requires sys.history.keys <= future && j < |future|
    requires forall a, b :: 0 <= a < b < |future| ==> future[a] != future[b]
    ensures Aligned(AfterDeliver(sys, toInitiator, packet, newKey))
       <==> !LateCached(sys.Party(toInitiator), packet.header)
    ensures LateCached(sys.Party(toInitiator), packet.header) ==>
              && Attempt(sys.Party(toInitiator), packet, newKey).Success? && packet.box.Sealed?
              && Attempt(sys.Party(toInitiator), packet, newKey).value.plaintext == packet.box.plaintext
              && Attempt(sys.Party(toInitiator), packet, newKey).value.state.rootKey
                   != Root(sys.history.sessionKey, future, j)
  {
    var s, h := sys.Party(toInitiator), sys.history;
    assert |h.sent| == |h.keys| && SentAt(h, i, n);
    if LateCached(s, packet.header) {
      LateBreaks(sys, toInitiator, packet, i, n, newKey, future, j);
    } else {
      hide Aligned, Attempt;
      assert OnNetwork(h, packet);
      DeliverKeepsAligned(sys, toInitiator, packet, newKey);
    }
  }

  lemma LateBreaks<P>(sys: System<P>, toInitiator: bool, packet: Packet<P>, i: nat, n: nat, newKey: nat,
                      future: seq<nat>, j: nat)
    requires Aligned(sys) && newKey !in sys.history.keys
    requires 1 <= i && IsSent(sys.history, packet, i, n)
    requires sys.history.keys <= future && j < |future|
    requires forall a, b :: 0 <= a < b < |future| ==> future[a] != future[b]
    requires LateCached(sys.Party(toInitiator), packet.header)
    ensures Attempt(sys.Party(toInitiator), packet, newKey).Success? && packet.box.Sealed?
    ensures Attempt(sys.Party(toInitiator), packet, newKey).value.plaintext == packet.box.plaintext
    ensures Attempt(sys.Party(toInitiator), packet, newKey).value.state.rootKey
            != Root(sys.history.sessionKey, future, j)
    ensures !Aligned(AfterDeliver(sys, toInitiator, packet, newKey))
  {
    var s, e, h := sys.Party(toInitiator), sys.Epoch(toInitiator), sys.history;
    AlignedParty(sys, toInitiator);
    PartyRoot(s, e, h);
    assert SentAt(h, i, n);
    hide Aligned, PartyAt, HistoryOk, Attempt, AfterDeliver;
    LateIsElsewhere(s, e, h, packet, i, n);
    DeliverElsewhere(s, e, h, packet, i, n, newKey);
    RootNeverRejoins(h.sessionKey, h.keys, e, i, newKey, future, j);
    DeliveredShape(sys, toInitiator, packet, newKey, i, n);
    NotAlignedWithRoot(AfterDeliver(sys, toInitiator, packet, newKey), toInitiator, h, e, i, newKey);
  }

  lemma NotAlignedWithRoot<P>(after: System<P>, who: bool, h: History<P>, e: nat, i: nat, newKey: nat)
    requires i < e < |h.keys| && newKey !in h.keys && after.Epoch(who) == e + 2
    requires after.history.sessionKey == h.sessionKey && after.history.keys == h.keys + [newKey]
    requires after.Party(who).rootKey
          == RootKey(RootKey(Root(h.sessionKey, h.keys, e), Agreed(h.keys[e], h.keys[i])), Agreed(newKey, h.keys[i]))
    ensures !Aligned(after)
  {
    hide Aligned, PartyAt, HistoryOk;
    var f: nat := e + 2;
    if Aligned(after) {
      AlignedParty(after, who);
      PartyRoot(after.Party(who), f, after.history);
      KeysDistinct(after.history);
      RootNeverRejoins(h.sessionKey, h.keys, e, i, newKey, after.history.keys, f);
      assert false;
    }
  }

  lemma PartyRoot<P>(s: RatchetState, e: nat, h: History<P>)
    requires PartyAt(s, e, h)
    ensures e < |h.keys| == |h.sent| && s.rootKey == Root(h.sessionKey, h.keys, e)
  {
  }

  lemma KeysDistinct<P>(h: History<P>)
    requires HistoryOk(h)
    ensures forall i, j :: 0 <= i < j < |h.keys| ==> h.keys[i] != h.keys[j]
  {
  }

  lemma LateIsElsewhere<P>(s: RatchetState, e: nat, h: History<P>, packet: Packet<P>, i: nat, n: nat)
    requires PartyAt(s, e, h) && HistoryOk(h)
    requires 1 <= i && IsSent(h, packet, i, n) && LateCached(s, packet.header)
    ensures i <= e && i != e - 1
  {
    assert SentAt(h, i, n);
    assert KnownSlot(h, e, SlotAt(h, i, n));
    IndexOfKey(h.keys, i);
  }

  // -- which deliveries open -----------------------------------------------------

  /**
   An authentic packet opens at its addressee exactly when it was not opened before, the gap
   limits allow it, and its epoch is the receiver's current or next remote one (or it is the
   late delivery excluded above). It then yields the text that was sealed.
   */
  lemma OpensExactlyOnce<P>(sys: System<P>, toInitiator: bool, packet: Packet<P>, i: nat, n: nat, newKey: nat)
    requires Aligned(sys) && newKey !in sys.history.keys
    requires 1 <= i && IsSent(sys.history, packet, i, n)
    ensures var s, e := sys.Party(toInitiator), sys.Epoch(toInitiator);
            Attempt(s, packet, newKey).Success? <==>
              || LateCached(s, packet.header)
              || (i + 1 == e && (i, n) !in sys.history.delivered && n <= s.recvCount + MAX_SKIP)
              || (i == e + 1 && (s.receivingChain.Some? ==> PreviousLength(sys.history, i) <= s.recvCount + MAX_SKIP)
                  && n <= MAX_SKIP)
    ensures Attempt(sys.Party(toInitiator), packet, newKey).Success? ==>
              packet.box.Sealed?
              && Attempt(sys.Party(toInitiator), packet, newKey).value.plaintext == packet.box.plaintext
    ensures i == sys.Epoch(toInitiator) + 1 ==> (i, n) !in sys.history.delivered
  {
    var s, e, h := sys.Party(toInitiator), sys.Epoch(toInitiator), sys.history;
    AlignedParty(sys, toInitiator);
    NextUnopened(sys, toInitiator, n);
    SentFacts(h, packet, i, n);
    hide Aligned, PartyAt, HistoryOk, Attempt;
    if LateCached(s, packet.header) {
      LateIsElsewhere(s, e, h, packet, i, n);
    }
    if i == e + 1 {
      DeliverNext(s, e, h, packet, n, newKey);
    } else if i + 1 == e {
      DeliverCurrent(s, e, h, packet, n, newKey);
    } else {
      DeliverElsewhere(s, e, h, packet, i, n, newKey);
    }
    OpensToItsText(s, packet, newKey);
  }

  /**
   How far ahead a message may be, in numbers: at most 1000 past the receiver's count on the current chain; for a
   new ratchet key at most 1000 messages missing at the end of the old chain and at most 1000 at the start of
   the new one.
   */
  lemma ReachIsAThousand<P>(sys: System<P>, toInitiator: bool, packet: Packet<P>, i: nat, n: nat, newKey: nat)
    requires Aligned(sys) && newKey !in sys.history.keys
    requires 1 <= i && IsSent(sys.history, packet, i, n)
    ensures var s, e := sys.Party(toInitiator), sys.Epoch(toInitiator);
            && (i + 1 == e ==>
                  (Attempt(s, packet, newKey).Success? <==> (i, n) !in sys.history.delivered && n <= s.recvCount + 1000))
            && (i == e + 1 ==>
                  (Attempt(s, packet, newKey).Success? <==>
                     (s.receivingChain.Some? ==> PreviousLength(sys.history, i) <= s.recvCount + 1000) && n <= 1000))
    ensures sys.Epoch(toInitiator) == 0 && i == 1 ==> (Attempt(sys.Party(toInitiator), packet, newKey).Success? <==> n <= 1000)
  {
    OpensExactlyOnce(sys, toInitiator, packet, i, n, newKey);
    AlignedParty(sys, toInitiator);
    hide Aligned, Attempt;
    if LateCached(sys.Party(toInitiator), packet.header) {
      LateIsElsewhere(sys.Party(toInitiator), sys.Epoch(toInitiator), sys.history, packet, i, n);
    }
    hide HistoryOk;
  }

  /** The first message to arrive at a fresh responder opens exactly when at most 1000 are missing before it. */
  lemma FirstArrivalReach<P>(sessionKey: Term, signedPrekey: nat, firstKey: nat, packet: Packet<P>, n: nat, newKey: nat)
    requires signedPrekey != firstKey
    requires packet.header == Header(Point(firstKey), 0, n) && packet.box.Sealed?
    requires Genuine(packet, Point(firstKey), ChainKey(sessionKey, Agreed(firstKey, signedPrekey)), n, packet.box.plaintext)
    ensures var attempt := Attempt(Responder(sessionKey, signedPrekey), packet, newKey);
            && (n <= 1000 ==> attempt.Success? && |attempt.value.state.skipped| == n)
            && (n > 1000 ==> attempt == Failure(SkippedTooFar))
  {
    var s := Responder(sessionKey, signedPrekey);
    DhAgreement(firstKey, signedPrekey, signedPrekey);
    assert SkipKeys(s, 0) == Success(s);
    var entered := EnterEpoch(s, Point(firstKey), 0, newKey).value;
    var origin := ChainKey(sessionKey, Agreed(firstKey, signedPrekey));
    assert entered.receivingChain == Some(origin) && entered.recvCount == 0 && entered.skipped == map[];
    if n <= 1000 {
      var ready := SkippedTo(entered, n);
      if n == 0 {
        SkippedToStarts(entered);
      }
      assert SkipKeys(entered, n) == Success(ready);
      assert ready.skipped == SkippedRange(entered.remote, origin, 0, n);
      SkippedRangeSize(entered.remote, origin, n);
      assert TakeKey(entered, Point(firstKey), n).value.1 == KeyAt(origin, n);
    }
  }

  lemma {:induction false} SkippedRangeSize(remote: Option<PublicKey>, chain: Term, n: nat)
    ensures |SkippedRange(remote, chain, 0, n)| == n
  {
    if n == 0 {
      assert SkippedRange(remote, chain, 0, 0) == map[];
    } else {
      SkippedRangeSize(remote, chain, n - 1);
      SkippedRangeExtends(remote, chain, 0, n - 1);
    }
  }

  lemma SentFacts<P>(h: History<P>, packet: Packet<P>, i: nat, n: nat)
    requires HistoryOk(h) && 1 <= i && IsSent(h, packet, i, n)
    ensures packet.header == Header(Point(h.keys[i]), PreviousLength(h, i), n) && packet.box.Sealed?
  {
    assert SentAt(h, i, n);
  }

  lemma OpensToItsText<P>(s: RatchetState, packet: Packet<P>, newKey: nat)
    ensures Attempt(s, packet, newKey).Success? ==>
              packet.box.Sealed? && Attempt(s, packet, newKey).value.plaintext == packet.box.plaintext
  {
  }

  /** A packet that differs from every sent one in any respect does not open, and changes nothing. */
  lemma TamperedIsRefused<P>(sys: System<P>, toInitiator: bool, packet: Packet<P>, newKey: nat)
    requires Aligned(sys) && OnNetwork(sys.history, packet)
    requires forall i: nat, n: nat :: i < |sys.history.sent| && n < |sys.history.sent[i]| ==>
               sys.history.sent[i][n] != packet
    ensures Attempt(sys.Party(toInitiator), packet, newKey).Failure?
    ensures AfterDeliver(sys, toInitiator, packet, newKey) == sys
  {
    var s, h := sys.Party(toInitiator), sys.history;
    if Attempt(s, packet, newKey).Success? {
      var i, n := OpensOnlyIfSent(s, h, packet, newKey);
      assert false;
    }
  }

  // -- whole runs -----------------------------------------------------------------

  function Run<P>(sys: System<P>, events: seq<Event<P>>): System<P>
    decreases |events|
  {
    if events == [] then sys else Run(Step(sys, events[0]), events[1..])
  }

  /** What a network can do in one step: boxes are copied or junk, and new key pairs are new. */
  ghost predicate Authentic<P>(sys: System<P>, event: Event<P>) {
    event.Deliver? ==> event.newKey !in sys.history.keys && OnNetwork(sys.history, event.packet)
  }

  ghost predicate AuthenticRun<P>(sys: System<P>, events: seq<Event<P>>)
    decreases |events|
  {
    events == [] || (Authentic(sys, events[0]) && AuthenticRun(Step(sys, events[0]), events[1..]))
  }

  /** The same without the one dangerous delivery. */
  ghost predicate Permitted<P>(sys: System<P>, event: Event<P>) {
    Authentic(sys, event) && (event.Deliver? ==> !LateDelivery(sys, event.toInitiator, event.packet))
  }

  ghost predicate PermittedRun<P>(sys: System<P>, events: seq<Event<P>>)
    decreases |events|
  {
    events == [] || (Permitted(sys, events[0]) && PermittedRun(Step(sys, events[0]), events[1..]))
  }

  /** Both parties stay aligned over every run. */
  lemma {:induction false} RunStaysAligned<P>(sys: System<P>, events: seq<Event<P>>)
    requires Aligned(sys) && PermittedRun(sys, events)
    ensures Aligned(Run(sys, events))
    decreases |events|
  {
    hide Aligned;
    if events != [] {
      match events[0] {
        case Send(byInitiator, plaintext, context, nonce) =>
          SendKeepsAligned(sys, byInitiator, plaintext, context, nonce);
        case Deliver(toInitiator, packet, newKey) =>
          DeliverKeepsAligned(sys, toInitiator, packet, newKey);
      }
      RunStaysAligned(Step(sys, events[0]), events[1..]);
    }
  }

  /**
   In every run from a fresh session: the epochs of the two parties differ by one, their roots
   lie on one key schedule, and what a receiver holds of its current remote chain is that
   chain, advanced `recvCount` steps.
   */
  lemma RunAgreement<P>(sessionKey: Term, signedPrekey: nat, firstKey: nat, events: seq<Event<P>>)
    requires signedPrekey != firstKey
    requires PermittedRun(Start(sessionKey, signedPrekey, firstKey), events)
    ensures var sys := Run(Start(sessionKey, signedPrekey, firstKey), events);
            var (a, b, h) := (sys.initiatorEpoch, sys.responderEpoch, sys.history);
            && Aligned(sys) && h.sessionKey == sessionKey
            && (a == b + 1 || b == a + 1) && a < |h.keys| && b < |h.keys|
            && sys.initiator.rootKey == Root(sessionKey, h.keys, a)
            && sys.responder.rootKey == Root(sessionKey, h.keys, b)
            && (a >= 2 ==> sys.initiator.receivingChain
                           == Some(Advance(Origin(sessionKey, h.keys, a - 1), sys.initiator.recvCount)))
            && (b >= 2 ==> sys.responder.receivingChain
                           == Some(Advance(Origin(sessionKey, h.keys, b - 1), sys.responder.recvCount)))
            && (b >= 1 ==> sys.responder.sendingChain
                           == Some(Advance(Origin(sessionKey, h.keys, b), sys.responder.sendCount)))
            && sys.initiator.sendingChain == Some(Advance(Origin(sessionKey, h.keys, a), sys.initiator.sendCount))
  {
    StartAligned<P>(sessionKey, signedPrekey, firstKey);
    RunStaysAligned(Start(sessionKey, signedPrekey, firstKey), events);
    RunKeepsSessionKey(Start(sessionKey, signedPrekey, firstKey), events);
  }

  lemma {:induction false} RunKeepsSessionKey<P>(sys: System<P>, events: seq<Event<P>>)
    ensures Run(sys, events).history.sessionKey == sys.history.sessionKey
    decreases |events|
  {
    if events != [] {
      hide Attempt;
      RunKeepsSessionKey(Step(sys, events[0]), events[1..]);
    }
  }
}

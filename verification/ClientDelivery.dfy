/**
 End-to-end delivery of one peer device's session: copies of what was sealed in it arrive in any order, any
 number of times, among blobs of others, and the first text to arrive of each message number becomes exactly
 one received row. What a failed fan-out lets the sender do to the numbers is in ClientSending.
 */
module ClientDelivery {
  import opened Wrappers
  import opened SymbolicCrypto
  import opened RatchetModel
  import opened RatchetChain
  import opened RatchetStem
  import opened ClientModel
  import opened ClientRuns
  import H = History
  import X = X3dh

  /**
   A peer device's outbound session to us. `letters` is everything ever sealed in it, each with its message
   number; one number may carry several letters.
   */
  datatype Peer = Peer(
    contact: ContactId, sid: Sid, init: InitHeader, sessionKey: Term, dh: PublicKey, origin: Term,
    letters: set<(nat, Envelope)>)

  /** Every message of a session nobody answers carries the handshake, the proof and the card. */
  ghost predicate WellSent(peer: Peer) {
    && peer.sessionKey.SessionKey? && Stem(peer.origin) == peer.sessionKey
    && forall n, letter :: (n, letter) in peer.letters ==>
         && letter.Envelope?
         && letter.auth == Some(Signed(peer.contact, peer.sid, peer.init, peer.sessionKey))
         && letter.card == Some(Card(peer.contact))
  }

  /** A blob carrying `letter` as message `n` of the session, whichever relay it came from. */
  ghost predicate CopyOf(peer: Peer, n: nat, letter: Envelope, blob: Blob) {
    && (n, letter) in peer.letters
    && blob.Wire? && blob.sid == peer.sid
    && blob.packet.context == Some(peer.init)
    && Genuine(blob.packet, peer.dh, peer.origin, n, letter)
  }

  /**
   A blob that is no copy of the session's messages. One that was sealed in the session was altered on the way,
   in its nonce, its header or its handshake, or moved under another session id. One that was not may claim
   anything, this session's id included, but what it carries is not signed for this session id.
   */
  ghost predicate Misplaced(peer: Peer, blob: Blob) {
    blob.Wire? && blob.packet.box.Sealed? ==>
      var box := blob.packet.box;
      if Stem(box.key) == peer.sessionKey then
        && (exists n :: (n, box.plaintext) in peer.letters)
        && (blob.sid == peer.sid ==>
              box.ad != AssociatedData(blob.packet.context, blob.packet.header) || box.nonce != blob.packet.nonce)
      else
        box.plaintext.Envelope? && box.plaintext.auth.Some? && box.plaintext.auth.value.Signed? ==>
          box.plaintext.auth.value.sid != peer.sid
  }

  /**
   Any other blob that is not of a second session of the same peer: it is not signed by the peer for its own
   session id, does not repeat the id of one of the peer's messages, and does not name the peer's one-time prekey.
   */
  ghost predicate Alien(peer: Peer, blob: Blob) {
    && Misplaced(peer, blob)
    && (blob.Wire? && blob.packet.box.Sealed? && Stem(blob.packet.box.key) != peer.sessionKey ==>
          var box := blob.packet.box;
          box.plaintext.Envelope? ==>
            && (box.plaintext.auth.Some? && box.plaintext.auth.value.Signed? ==>
                  !(box.plaintext.auth.value.signer == peer.contact && box.plaintext.auth.value.sid == blob.sid))
            && (blob.packet.context.Some? && peer.init.opkId.Some? ==> blob.packet.context.value.opkId != peer.init.opkId)
            && (IsMessage(box.plaintext) ==>
                  forall n, letter :: (n, letter) in peer.letters && IsMessage(letter) ==> box.plaintext.id != letter.id))
  }

  /** Whatever a relay does to the blob of a message, the outcome is a copy of it or misplaced. */
  lemma SealedIsCopyOrMisplaced(peer: Peer, n: nat, letter: Envelope, pn: int, nonce: nat, blob: Blob)
    requires WellSent(peer) && (n, letter) in peer.letters && blob.Wire?
    requires blob.packet.box == SymbolicCrypto.Sealed(KeyAt(peer.origin, n), nonce,
                                                      AssociatedData(Some(peer.init), Header(peer.dh, pn, n)), letter)
    ensures CopyOf(peer, n, letter, blob) <==>
              blob.sid == peer.sid && blob.packet.nonce == nonce
              && blob.packet.context == Some(peer.init) && blob.packet.header == Header(peer.dh, pn, n)
    ensures CopyOf(peer, n, letter, blob) || Alien(peer, blob)
  {
    AdvanceKeepsStem(peer.origin, n);
    assert Stem(KeyAt(peer.origin, n)) == peer.sessionKey;
  }

  /** What a session grows from: the peer's session from its key, every other session from another one. */
  ghost predicate Proper(session: Session, peer: Peer) {
    if session.sid == peer.sid then GrownFrom(session.ratchet, peer.sessionKey)
    else GrownFrom(session.ratchet, Stem(session.ratchet.rootKey)) && Stem(session.ratchet.rootKey) != peer.sessionKey
  }

  /** New sessions of our own have ids and keys of their own. */
  ghost predicate StartsOthers(delivery: Delivery, peer: Peer) {
    delivery.Prepared? ==>
      forall d :: d in delivery.started ==> delivery.started[d].sid != peer.sid && Proper(delivery.started[d], peer)
  }

  /** One step of a run around this session; row ids are drawn fresh. */
  ghost predicate Fits(c: State, peer: Peer, e: Event) {
    match e
    case Arrives(blob, place, draw, source) =>
      && (blob.Wire? ==> Finds(c, blob.sid, place))
      && draw.rowId !in c.rows && StartsOthers(draw.delivery, peer)
      && (match source case Some((n, letter)) => CopyOf(peer, n, letter, blob) case None => Alien(peer, blob))
    case Sends(_, rowId, _, _, delivery) => rowId !in c.rows && StartsOthers(delivery, peer)
    case Adds(_) => true
  }

  ghost predicate Legal(c: State, peer: Peer, events: seq<Event>)
    decreases |events|
  {
    events == [] || (Fits(c, peer, events[0]) && Legal(Next(c, events[0]), peer, events[1..]))
  }

  // ---------------------------------------------------------------- where the session stands

  /** The handshake can still be completed: the keys it names are in the store. */
  ghost predicate Ready(c: State, peer: Peer) {
    && c.prekeys.Some?
    && peer.init.spkId == c.prekeys.value.spkId
    && (peer.init.opkId.Some? ==> peer.init.opkId.value in c.prekeys.value.opks)
    && peer.dh.Point?
    && peer.origin == ChainKey(peer.sessionKey, Dh(c.prekeys.value.spk, peer.dh).value)
    && X.Respond(c.identity, c.prekeys.value.spk,
                 if peer.init.opkId.Some? then Some(c.prekeys.value.opks[peer.init.opkId.value]) else None,
                 peer.init.ek) == Success(peer.sessionKey)
  }

  function Home(c: State, peer: Peer): Place {
    Place(peer.contact, Inbound, c.device)
  }

  /** Every session with this wire id is at `home`. */
  ghost predicate OnlyAt(c: State, sid: Sid, home: Place) {
    forall p :: SessionAt(c, p).Some? && SessionAt(c, p).value.sid == sid ==> p == home
  }

  ghost predicate Unknown(c: State, sid: Sid) {
    forall p :: SessionAt(c, p).Some? ==> SessionAt(c, p).value.sid != sid
  }

  /** The letter opened for each message number so far. */
  type Won = map<nat, Envelope>

  ghost predicate Live(c: State, peer: Peer, won: Won, recv: nat) {
    && SessionAt(c, Home(c, peer)).Some?
    && SessionAt(c, Home(c, peer)).value.sid == peer.sid
    && OnChain(SessionAt(c, Home(c, peer)).value.ratchet, peer.dh, peer.origin, won.Keys)
    && SessionAt(c, Home(c, peer)).value.ratchet.recvCount == recv
    && OnlyAt(c, peer.sid, Home(c, peer))
  }

  ghost predicate AllProper(c: State, peer: Peer) {
    forall p :: SessionAt(c, p).Some? ==> Proper(SessionAt(c, p).value, peer)
  }

  /** The session before its first message, or on its chain with the messages `won` opened. */
  ghost predicate Stands(c: State, peer: Peer, won: Won, recv: nat) {
    && AllProper(c, peer)
    && if won == map[] && recv == 0 then Unknown(c, peer.sid) && Ready(c, peer) else Live(c, peer, won, recv)
  }

  // ---------------------------------------------------------------- sessions through the store

  /** Nothing of this session appears, disappears or changes, and the others stay proper. */
  ghost predicate Untouched(c: State, d: State, peer: Peer) {
    && d.device == c.device && d.identity == c.identity
    && (forall p :: SessionAt(c, p).Some? && SessionAt(c, p).value.sid == peer.sid ==> SessionAt(d, p) == SessionAt(c, p))
    && (forall p :: SessionAt(d, p).Some? && SessionAt(d, p).value.sid == peer.sid ==> SessionAt(c, p) == SessionAt(d, p))
    && AllProper(d, peer)
  }

  /** No outbound slot holds this session. */
  ghost predicate NoOutbound(c: State, sid: Sid) {
    forall p :: SessionAt(c, p).Some? && p.bucket == Outbound ==> SessionAt(c, p).value.sid != sid
  }

  lemma SendingKeepsProper(before: Session, after: Session, peer: Peer)
    requires Proper(before, peer) && OnlySent(before, after)
    ensures Proper(after, peer) && after.sid == before.sid
  {
  }

  /** Our own fan-outs leave a session alone that no outbound slot holds. */
  lemma DeliverLeaves(c: State, contact: ContactId, letter: DeviceId -> Envelope, delivery: Delivery, peer: Peer)
    requires StartsOthers(delivery, peer) && NoOutbound(c, peer.sid) && AllProper(c, peer)
    ensures Untouched(c, Deliver(c, contact, letter, delivery).state, peer)
  {
    var after := Deliver(c, contact, letter, delivery).state;
    DeliverKeepsTheRest(c, contact, letter, delivery);
    if delivery.Prepared? && contact in c.contacts {
      var outbound := Ensured(c.contacts[contact].outbound, delivery);
      FanOutOnlySends(c.account, outbound, delivery.copies, letter);
      forall d | d in outbound ensures outbound[d].sid != peer.sid && Proper(outbound[d], peer) {
        if d in c.contacts[contact].outbound {
          assert SessionAt(c, Place(contact, Outbound, d)).Some?;
        }
      }
    }
    hide FannedOut, Proper;
    forall p: Place | SessionAt(after, p).Some? && SessionAt(after, p) != SessionAt(c, p)
      ensures SessionAt(after, p).value.sid != peer.sid && Proper(SessionAt(after, p).value, peer)
    {
      var outbound := Ensured(c.contacts[contact].outbound, delivery);
      assert p.contact == contact && p.bucket == Outbound && p.key in outbound;
      SendingKeepsProper(outbound[p.key], SessionAt(after, p).value, peer);
    }
    forall p: Place | SessionAt(c, p).Some? && SessionAt(c, p).value.sid == peer.sid
      ensures SessionAt(after, p) == SessionAt(c, p)
    {
      assert p.bucket == Inbound;
    }
  }

  lemma ProcessLeaves(c: State, contact: ContactId, envelope: Envelope, draw: Draw, peer: Peer)
    requires envelope.Envelope? && StartsOthers(draw.delivery, peer) && NoOutbound(c, peer.sid) && AllProper(c, peer)
    ensures Untouched(c, Process(c, contact, envelope, draw).state, peer)
  {
    hide Proper, Deliver;
    if IsMessage(envelope) && Received(c.rows, envelope.id) == {} {
      var added := c.(rows := H.AddMessage(c.rows, draw.rowId, ReceivedRow(contact, envelope, draw.now)));
      assert forall p :: SessionAt(added, p) == SessionAt(c, p);
      DeliverLeaves(added, contact, Same(ReceiptFor(envelope.id)), draw.delivery, peer);
    } else {
      var after := Process(c, contact, envelope, draw).state;
      assert forall p :: SessionAt(after, p) == SessionAt(c, p);
    }
  }

  lemma StandsHasNoOutbound(c: State, peer: Peer, won: Won, recv: nat)
    requires Stands(c, peer, won, recv)
    ensures NoOutbound(c, peer.sid) && AllProper(c, peer)
  {
    hide Proper, OnChain;
  }

  /** Where the session stands depends on its own slots and, before the first message, on the prekeys. */
  lemma UntouchedStands(c: State, d: State, peer: Peer, won: Won, recv: nat)
    requires Stands(c, peer, won, recv) && Untouched(c, d, peer)
    requires won == map[] && recv == 0 ==> Ready(d, peer)
    ensures Stands(d, peer, won, recv)
  {
    hide OnChain, Proper, Ready;
    if won == map[] && recv == 0 {
      assert Unknown(d, peer.sid);
    } else {
      assert SessionAt(d, Home(c, peer)) == SessionAt(c, Home(c, peer));
    }
  }

  // ---------------------------------------------------------------- copies of the session's messages

  /** How far the session is after a copy of message `n`: it counts when the number is new and within reach. */
  function Counted(won: Won, recv: nat, n: nat, letter: Envelope): (Won, nat) {
    if n !in won && n <= recv + MAX_SKIP then (won[n := letter], Max(recv, n + 1)) else (won, recv)
  }

  /** The first message to arrive, whichever it is, starts the session and opens when it is within reach. */
  lemma FirstCopy(c: State, peer: Peer, n: nat, letter: Envelope, blob: Blob, newKey: nat)
    requires Unknown(c, peer.sid) && Ready(c, peer) && WellSent(peer) && CopyOf(peer, n, letter, blob)
    ensures var h := Inspect(c, None, blob, newKey);
            if n <= MAX_SKIP then
              && h.Accepted? && h.contact == peer.contact && h.envelope == letter && h.opkId == peer.init.opkId
              && h.session.sid == peer.sid
              && OnChain(h.session.ratchet, peer.dh, peer.origin, {n}) && h.session.ratchet.recvCount == n + 1
              && GrownFrom(h.session.ratchet, peer.sessionKey)
            else h.Ignored?
  {
    var start := Responder(peer.sessionKey, c.prekeys.value.spk);
    assert BeginInbound(c, peer.sid, peer.init) ==
           Some(Session(peer.sid, start, Some(peer.sessionKey), Some(peer.init), false));
    FirstAttempt(peer, c.prekeys.value.spk, n, letter, blob.packet, newKey);
    OpeningKeepsStem(start, blob.packet, newKey, peer.sessionKey);
    hide OnChain, Attempt, GrownFrom;
  }

  lemma FirstAttempt(peer: Peer, spk: nat, n: nat, letter: Envelope, packet: Packet<Envelope>, newKey: nat)
    requires peer.dh.Point? && peer.origin == ChainKey(peer.sessionKey, Dh(spk, peer.dh).value)
    requires Genuine(packet, peer.dh, peer.origin, n, letter)
    ensures var attempt := Attempt(Responder(peer.sessionKey, spk), packet, newKey);
            if n <= MAX_SKIP then
              && attempt.Success? && attempt.value.plaintext == letter
              && OnChain(attempt.value.state, peer.dh, peer.origin, {n}) && attempt.value.state.recvCount == n + 1
            else attempt.Failure?
  {
    var start := Responder(peer.sessionKey, spk);
    FirstEpoch(peer.sessionKey, spk, peer.dh, packet.header.pn, newKey);
    var entered := EnterEpoch(start, peer.dh, packet.header.pn, newKey).value;
    hide OnChain, EnterEpoch, TakeKey;
    TakeOnChain(entered, peer.dh, peer.origin, {}, n);
    assert {} + {n} == {n};
  }

  lemma LaterCopy(c: State, peer: Peer, won: Won, recv: nat, n: nat, letter: Envelope, blob: Blob, newKey: nat)
    requires Live(c, peer, won, recv) && AllProper(c, peer) && WellSent(peer) && CopyOf(peer, n, letter, blob)
    ensures var h := Inspect(c, Some(Home(c, peer)), blob, newKey);
            if n !in won && n <= recv + MAX_SKIP then
              && h.Resumed? && h.place == Home(c, peer) && h.envelope == letter
              && h.session.sid == peer.sid
              && OnChain(h.session.ratchet, peer.dh, peer.origin, won.Keys + {n})
              && h.session.ratchet.recvCount == Max(recv, n + 1)
              && GrownFrom(h.session.ratchet, peer.sessionKey)
            else h.Ignored?
  {
    var session := SessionAt(c, Home(c, peer)).value;
    assert GrownFrom(session.ratchet, peer.sessionKey);
    DeliverOnChain(session.ratchet, peer.dh, peer.origin, won.Keys, blob.packet, n, letter, newKey);
    OpeningKeepsStem(session.ratchet, blob.packet, newKey, peer.sessionKey);
    hide OnChain, Attempt, GrownFrom;
  }

  /** Saving the advanced session puts it where it belongs, and nowhere else. */
  lemma SavedIsLive(c: State, peer: Peer, session: Session, d: State, won: Won, recv: nat)
    requires OnlyAt(c, peer.sid, Home(c, peer)) && session.sid == peer.sid && AllProper(c, peer)
    requires OnChain(session.ratchet, peer.dh, peer.origin, won.Keys) && session.ratchet.recvCount == recv
    requires GrownFrom(session.ratchet, peer.sessionKey)
    requires peer.contact in c.contacts && d == SaveSession(c, Home(c, peer), session)
    ensures Live(d, peer, won, recv) && AllProper(d, peer)
  {
    hide OnChain, GrownFrom;
    assert Proper(session, peer);
    hide Proper;
    assert forall p :: p != Home(c, peer) ==> SessionAt(d, p) == SessionAt(c, p);
  }

  lemma CopyStands(c: State, peer: Peer, won: Won, recv: nat, e: Event, n: nat, letter: Envelope)
    requires Stands(c, peer, won, recv) && WellSent(peer) && Fits(c, peer, e)
    requires e.Arrives? && e.source == Some((n, letter))
    ensures var (won', recv') := Counted(won, recv, n, letter);
            Stands(Next(c, e), peer, won', recv')
    ensures var h := Inspect(c, e.place, e.blob, e.draw.newKey);
            if n !in won && n <= recv + MAX_SKIP then
              !h.Ignored? && h.envelope == letter && Sender(h) == peer.contact && Saved(c, h).rows == c.rows
            else h.Ignored?
  {
    hide OnChain, Attempt, BeginInbound, Process, Ready, Genuine, Proper, GrownFrom;
    var h := Inspect(c, e.place, e.blob, e.draw.newKey);
    var (won', recv') := Counted(won, recv, n, letter);
    if won == map[] && recv == 0 {
      assert e.place == None;
      FirstCopy(c, peer, n, letter, e.blob, e.draw.newKey);
      if n <= MAX_SKIP {
        var base := ConsumeOpk(StoreCard(c, peer.contact), h.opkId);
        StoringKeepsSessions(c, peer.contact, h.opkId);
        assert won'.Keys == {n};
        SavedIsLive(base, peer, h.session, Saved(c, h), won', recv');
      }
    } else {
      assert SessionAt(c, Home(c, peer)).Some?;
      assert e.place == Some(Home(c, peer));
      LaterCopy(c, peer, won, recv, n, letter, e.blob, e.draw.newKey);
      if n !in won && n <= recv + MAX_SKIP {
        assert won'.Keys == won.Keys + {n};
        SavedIsLive(c, peer, h.session, Saved(c, h), won', recv');
      }
    }
    if !h.Ignored? {
      assert n in won';
      StandsHasNoOutbound(Saved(c, h), peer, won', recv');
      ProcessLeaves(Saved(c, h), Sender(h), h.envelope, e.draw, peer);
      UntouchedStands(Saved(c, h), Next(c, e), peer, won', recv');
    }
  }

  lemma StoringKeepsSessions(c: State, contact: ContactId, opkId: Option<int>)
    ensures var d := ConsumeOpk(StoreCard(c, contact), opkId);
            && contact in d.contacts && d.device == c.device && d.identity == c.identity && d.rows == c.rows
            && forall p :: SessionAt(d, p) == SessionAt(c, p)
  {
  }

  // ---------------------------------------------------------------- everything else

  /** A blob of the session that was altered or moved under another id, and a foreign one under its id, is ignored. */
  lemma MisplacedIsIgnored(c: State, peer: Peer, place: Option<Place>, blob: Blob, newKey: nat)
    requires AllProper(c, peer) && WellSent(peer) && Misplaced(peer, blob)
    requires blob.Wire? && Finds(c, blob.sid, place)
    requires blob.sid == peer.sid || (blob.packet.box.Sealed? && Stem(blob.packet.box.key) == peer.sessionKey)
    ensures Inspect(c, place, blob, newKey).Ignored?
  {
    hide OnChain, Attempt, GrownFrom;
    var h := Inspect(c, place, blob, newKey);
    if h.Resumed? {
      var session := SessionAt(c, h.place).value;
      assert session.sid == blob.sid && Proper(session, peer);
      ProperStem(session, peer);
      OpeningKeepsStem(session.ratchet, blob.packet, newKey, Stem(session.ratchet.rootKey));
      assert false;
    } else if h.Accepted? {
      var init := blob.packet.context.value;
      var session := BeginInbound(c, blob.sid, init).value;
      BegunIsGrown(c, blob.sid, init);
      OpeningKeepsStem(session.ratchet, blob.packet, newKey, Stem(session.ratchet.rootKey));
      hide BeginInbound, AllProper;
      assert false;
    }
  }

  lemma ProperStem(session: Session, peer: Peer)
    requires Proper(session, peer)
    ensures GrownFrom(session.ratchet, Stem(session.ratchet.rootKey))
    ensures session.sid == peer.sid <==> Stem(session.ratchet.rootKey) == peer.sessionKey
  {
  }

  lemma BegunIsGrown(c: State, sid: Sid, init: InitHeader)
    ensures var begun := BeginInbound(c, sid, init);
            begun.Some? ==>
              && begun.value.sid == sid && begun.value.init == Some(init)
              && begun.value.sessionKey == Some(begun.value.ratchet.rootKey)
              && GrownFrom(begun.value.ratchet, Stem(begun.value.ratchet.rootKey))
  {
  }

  lemma AlienStands(c: State, peer: Peer, won: Won, recv: nat, e: Event)
    requires Stands(c, peer, won, recv) && WellSent(peer) && Fits(c, peer, e)
    requires e.Arrives? && e.source == None
    ensures Stands(Next(c, e), peer, won, recv)
  {
    hide OnChain, Attempt, BeginInbound, Process, Proper, GrownFrom;
    var h := Inspect(c, e.place, e.blob, e.draw.newKey);
    if !h.Ignored? {
      AlienSaveLeaves(c, peer, won, recv, e);
      var d := Saved(c, h);
      UntouchedStands(c, d, peer, won, recv);
      StandsHasNoOutbound(d, peer, won, recv);
      ProcessLeaves(d, Sender(h), h.envelope, e.draw, peer);
      ProcessKeepsSessions(d, Sender(h), h.envelope, e.draw);
      hide Ready, Inspect, Saved;
      ReadyDependsOnKeys(d, Next(c, e), peer);
      UntouchedStands(d, Next(c, e), peer, won, recv);
    }
  }

  lemma ReadyDependsOnKeys(c: State, d: State, peer: Peer)
    requires d.prekeys == c.prekeys && d.identity == c.identity
    ensures Ready(d, peer) == Ready(c, peer)
  {
  }

  /** Saving somebody else's session leaves this one, and the one-time prekey it waits for, alone. */
  lemma AlienSaveLeaves(c: State, peer: Peer, won: Won, recv: nat, e: Event)
    requires Stands(c, peer, won, recv) && WellSent(peer) && Fits(c, peer, e)
    requires e.Arrives? && e.source == None
    requires !Inspect(c, e.place, e.blob, e.draw.newKey).Ignored?
    ensures var d := Saved(c, Inspect(c, e.place, e.blob, e.draw.newKey));
            && Untouched(c, d, peer)
            && (won == map[] && recv == 0 ==> Ready(d, peer))
            && d.rows == c.rows
    ensures e.blob.Wire? && e.blob.sid != peer.sid && e.blob.packet.box.Sealed?
    ensures Stem(e.blob.packet.box.key) != peer.sessionKey
    ensures Inspect(c, e.place, e.blob, e.draw.newKey).envelope == e.blob.packet.box.plaintext
  {
    MisplacedOrElsewhere(c, peer, won, recv, e);
    hide OnChain, Attempt, BeginInbound, Stands, Ready, Alien, Proper;
    if Inspect(c, e.place, e.blob, e.draw.newKey).Resumed? {
      AlienResumedLeaves(c, peer, won, recv, e);
    } else {
      AlienAcceptedLeaves(c, peer, won, recv, e);
    }
  }

  lemma MisplacedOrElsewhere(c: State, peer: Peer, won: Won, recv: nat, e: Event)
    requires Stands(c, peer, won, recv) && WellSent(peer) && Fits(c, peer, e)
    requires e.Arrives? && e.source == None
    requires !Inspect(c, e.place, e.blob, e.draw.newKey).Ignored?
    ensures e.blob.Wire? && e.blob.sid != peer.sid
    ensures e.blob.packet.box.Sealed? ==> Stem(e.blob.packet.box.key) != peer.sessionKey
  {
    hide Attempt, BeginInbound, WellSent, AllProper, Misplaced, Ready, Live, Unknown;
    assert e.blob.Wire?;
    if e.blob.sid == peer.sid || (e.blob.packet.box.Sealed? && Stem(e.blob.packet.box.key) == peer.sessionKey) {
      MisplacedIsIgnored(c, peer, e.place, e.blob, e.draw.newKey);
    }
  }

  lemma AlienResumedLeaves(c: State, peer: Peer, won: Won, recv: nat, e: Event)
    requires Stands(c, peer, won, recv) && Fits(c, peer, e)
    requires e.Arrives? && e.source == None && e.blob.Wire? && e.blob.sid != peer.sid
    requires Inspect(c, e.place, e.blob, e.draw.newKey).Resumed?
    ensures var d := Saved(c, Inspect(c, e.place, e.blob, e.draw.newKey));
            && Untouched(c, d, peer)
            && (won == map[] && recv == 0 ==> Ready(d, peer))
            && d.rows == c.rows
    ensures e.blob.packet.box.Sealed?
    ensures Inspect(c, e.place, e.blob, e.draw.newKey).envelope == e.blob.packet.box.plaintext
  {
    hide OnChain, Attempt, GrownFrom;
    var h := Inspect(c, e.place, e.blob, e.draw.newKey);
    var d := Saved(c, h);
    var session := SessionAt(c, h.place).value;
    assert Proper(session, peer) && session.sid == e.blob.sid && h.session.sid == e.blob.sid;
    OpeningKeepsStem(session.ratchet, e.blob.packet, e.draw.newKey, Stem(session.ratchet.rootKey));
    GrownStem(h.session.ratchet, Stem(session.ratchet.rootKey));
    assert Proper(h.session, peer);
    assert SessionAt(d, h.place) == Some(h.session);
    assert forall p :: p != h.place ==> SessionAt(d, p) == SessionAt(c, p);
    hide Inspect, Alien, Live, Proper;
    ReadyDependsOnKeys(c, d, peer);
  }

  lemma GrownStem(s: RatchetState, stem: Term)
    requires GrownFrom(s, stem)
    ensures Stem(s.rootKey) == stem
  {
  }

  lemma AlienAcceptedLeaves(c: State, peer: Peer, won: Won, recv: nat, e: Event)
    requires Stands(c, peer, won, recv) && Fits(c, peer, e)
    requires e.Arrives? && e.source == None && e.blob.Wire? && e.blob.sid != peer.sid
    requires e.blob.packet.box.Sealed? ==> Stem(e.blob.packet.box.key) != peer.sessionKey
    requires Inspect(c, e.place, e.blob, e.draw.newKey).Accepted?
    ensures var d := Saved(c, Inspect(c, e.place, e.blob, e.draw.newKey));
            && Untouched(c, d, peer)
            && (won == map[] && recv == 0 ==> Ready(d, peer))
            && d.rows == c.rows
    ensures e.blob.packet.box.Sealed?
    ensures Inspect(c, e.place, e.blob, e.draw.newKey).envelope == e.blob.packet.box.plaintext
  {
    hide OnChain, Attempt, BeginInbound, GrownFrom;
    var blob, newKey := e.blob, e.draw.newKey;
    var h := Inspect(c, e.place, blob, newKey);
    var d := Saved(c, h);
    var session := BeginInbound(c, blob.sid, blob.packet.context.value).value;
    BegunIsGrown(c, blob.sid, blob.packet.context.value);
    OpeningKeepsStem(session.ratchet, blob.packet, newKey, Stem(session.ratchet.rootKey));
    GrownStem(h.session.ratchet, Stem(session.ratchet.rootKey));
    assert Proper(h.session, peer);
    assert h.contact != peer.contact;
    StoringKeepsSessions(c, h.contact, h.opkId);
    var home := Place(h.contact, Inbound, c.device);
    assert forall p :: p != home ==> SessionAt(d, p) == SessionAt(c, p);
    assert SessionAt(d, home) == Some(h.session);
    hide Proper, Inspect, Live;
    if SessionAt(c, home).Some? {
      assert SessionAt(c, home).value.sid != peer.sid by {
        NotHome(c, peer, won, recv, home);
      }
    }
  }

  lemma NotHome(c: State, peer: Peer, won: Won, recv: nat, p: Place)
    requires Stands(c, peer, won, recv) && p != Home(c, peer) && SessionAt(c, p).Some?
    ensures SessionAt(c, p).value.sid != peer.sid
  {
  }

  lemma OwnStepStands(c: State, peer: Peer, won: Won, recv: nat, e: Event)
    requires Stands(c, peer, won, recv) && Fits(c, peer, e) && !e.Arrives?
    ensures Stands(Next(c, e), peer, won, recv)
  {
    hide OnChain, Proper;
    var next := Next(c, e);
    StandsHasNoOutbound(c, peer, won, recv);
    match e
    case Sends(contact, rowId, now, letter, delivery) =>
      var d := Deliver(c, contact, letter, delivery).state;
      DeliverLeaves(c, contact, letter, delivery, peer);
      DeliverKeepsTheRest(c, contact, letter, delivery);
      hide Deliver;
      assert forall p :: SessionAt(next, p) == SessionAt(d, p) || next == c;
      UntouchedStands(c, next, peer, won, recv);
    case Adds(contact) =>
      assert forall p :: SessionAt(next, p) == SessionAt(c, p);
      UntouchedStands(c, next, peer, won, recv);
  }

  // ---------------------------------------------------------------- rows

  /** One of the opened letters is a message with this id. */
  ghost predicate Opened(won: Won, id: string) {
    exists m :: m in won && IsMessage(won[m]) && won[m].id == id
  }

  /** The peer's messages have a received row exactly when they were opened. */
  ghost predicate RowsMatch(rows: H.Table, peer: Peer, won: Won) {
    forall n, letter :: (n, letter) in peer.letters && IsMessage(letter) ==>
      (Received(rows, letter.id) != {} <==> Opened(won, letter.id))
  }

  lemma InsertedRow(rows: H.Table, rowId: string, row: H.Row, id: string)
    requires rowId !in rows
    ensures Received(H.AddMessage(rows, rowId, row), id) ==
            Received(rows, id) + if row.direction == "received" && row.remoteId == Some(id) then {rowId} else {}
  {
  }

  lemma ProcessRows(c: State, contact: ContactId, envelope: Envelope, draw: Draw, id: string)
    requires envelope.Envelope? && draw.rowId !in c.rows
    ensures Received(Process(c, contact, envelope, draw).state.rows, id) != {} <==>
            Received(c.rows, id) != {} || (IsMessage(envelope) && envelope.id == id)
  {
    if IsMessage(envelope) {
      if Received(c.rows, envelope.id) == {} {
        InsertedRow(c.rows, draw.rowId, ReceivedRow(contact, envelope, draw.now), id);
        var added := c.(rows := H.AddMessage(c.rows, draw.rowId, ReceivedRow(contact, envelope, draw.now)));
        DeliverKeepsTheRest(added, contact, Same(ReceiptFor(envelope.id)), draw.delivery);
      }
    } else {
      assert Received(Process(c, contact, envelope, draw).state.rows, id) == Received(c.rows, id);
    }
  }

  lemma OpenedGrows(won: Won, n: nat, letter: Envelope, id: string)
    requires n !in won
    ensures Opened(won[n := letter], id) <==> Opened(won, id) || (IsMessage(letter) && letter.id == id)
  {
    var more := won[n := letter];
    assert more[n] == letter;
    forall m | m in won ensures more[m] == won[m] {
    }
  }

  lemma StepRows(c: State, peer: Peer, won: Won, recv: nat, e: Event)
    requires Stands(c, peer, won, recv) && WellSent(peer) && Fits(c, peer, e) && RowsMatch(c.rows, peer, won)
    ensures RowsMatch(Next(c, e).rows, peer, FollowOne(won, recv, e).0)
  {
    forall k, letter | (k, letter) in peer.letters && IsMessage(letter)
      ensures Received(Next(c, e).rows, letter.id) != {} <==> Opened(FollowOne(won, recv, e).0, letter.id)
    {
      StepRow(c, peer, won, recv, e, k, letter);
    }
  }

  lemma StepRow(c: State, peer: Peer, won: Won, recv: nat, e: Event, k: nat, mine: Envelope)
    requires Stands(c, peer, won, recv) && WellSent(peer) && Fits(c, peer, e)
    requires (k, mine) in peer.letters && IsMessage(mine)
    requires Received(c.rows, mine.id) != {} <==> Opened(won, mine.id)
    ensures Received(Next(c, e).rows, mine.id) != {} <==> Opened(FollowOne(won, recv, e).0, mine.id)
  {
    match e
    case Arrives(blob, place, draw, source) =>
      var h := Inspect(c, place, blob, draw.newKey);
      if source.Some? {
        CopyStands(c, peer, won, recv, e, source.value.0, source.value.1);
        if source.value.0 !in won {
          OpenedGrows(won, source.value.0, source.value.1, mine.id);
        }
      } else if !h.Ignored? {
        AlienSaveLeaves(c, peer, won, recv, e);
        AlienRepeatsNoId(peer, blob, k, mine);
      }
      hide Inspect, Saved, Process, Opened, Received, CopyOf, Stands, Alien;
      if !h.Ignored? {
        ProcessRows(Saved(c, h), Sender(h), h.envelope, draw, mine.id);
      }
    case Sends(contact, rowId, now, letter, delivery) =>
      DeliverKeepsTheRest(c, contact, letter, delivery);
      InsertedRow(c.rows, rowId, SentRow(contact, Said(letter, delivery), now), mine.id);
    case Adds(contact) =>
  }

  lemma AlienRepeatsNoId(peer: Peer, blob: Blob, k: nat, mine: Envelope)
    requires Alien(peer, blob) && (k, mine) in peer.letters && IsMessage(mine)
    requires blob.Wire? && blob.packet.box.Sealed? && Stem(blob.packet.box.key) != peer.sessionKey
    ensures !(IsMessage(blob.packet.box.plaintext) && blob.packet.box.plaintext.id == mine.id)
  {
  }

  // ---------------------------------------------------------------- whole runs

  function FollowOne(won: Won, recv: nat, e: Event): (Won, nat) {
    if e.Arrives? && e.source.Some? then Counted(won, recv, e.source.value.0, e.source.value.1) else (won, recv)
  }

  /** Which messages of the session have been opened, and with which letter, once the run is over. */
  function Followed(won: Won, recv: nat, events: seq<Event>): (Won, nat)
    decreases |events|
  {
    if events == [] then (won, recv)
    else
      var (won', recv') := FollowOne(won, recv, events[0]);
      Followed(won', recv', events[1..])
  }

  lemma StepStands(c: State, peer: Peer, won: Won, recv: nat, e: Event)
    requires Stands(c, peer, won, recv) && WellSent(peer) && Fits(c, peer, e)
    ensures var (won', recv') := FollowOne(won, recv, e); Stands(Next(c, e), peer, won', recv')
  {
    if e.Arrives? && e.source.Some? {
      CopyStands(c, peer, won, recv, e, e.source.value.0, e.source.value.1);
    } else if e.Arrives? {
      AlienStands(c, peer, won, recv, e);
    } else {
      OwnStepStands(c, peer, won, recv, e);
    }
  }

  /** Through any run the session stays on its chain, and rows exist for exactly the letters opened. */
  lemma {:induction false} RunStands(c: State, peer: Peer, won: Won, recv: nat, events: seq<Event>)
    requires Stands(c, peer, won, recv) && WellSent(peer) && RowsMatch(c.rows, peer, won)
    requires Legal(c, peer, events)
    ensures var (won', recv') := Followed(won, recv, events);
            Stands(Run(c, events), peer, won', recv') && RowsMatch(Run(c, events).rows, peer, won')
    decreases |events|
  {
    if events != [] {
      var e := events[0];
      var (won', recv') := FollowOne(won, recv, e);
      StepRows(c, peer, won, recv, e);
      StepStands(c, peer, won, recv, e);
      hide Stands, RowsMatch, Fits, Next, WellSent;
      RunStands(Next(c, e), peer, won', recv', events[1..]);
    }
  }

  /** The copies presented, in order of arrival. */
  function Presented(events: seq<Event>): seq<(nat, Envelope)>
    decreases |events|
  {
    if events == [] then []
    else if events[0].Arrives? && events[0].source.Some? then [events[0].source.value] + Presented(events[1..])
    else Presented(events[1..])
  }

  /** Their message numbers. */
  function NumbersOf(copies: seq<(nat, Envelope)>): (numbers: seq<nat>)
    ensures |numbers| == |copies|
    ensures forall i :: 0 <= i < |copies| ==> numbers[i] == copies[i].0
    decreases |copies|
  {
    if copies == [] then [] else [copies[0].0] + NumbersOf(copies[1..])
  }

  /** `letter` is what the first copy of message `n` carried. */
  ghost predicate FirstOf(copies: seq<(nat, Envelope)>, n: nat, letter: Envelope) {
    exists i :: 0 <= i < |copies| && FirstAt(copies, i, n, letter)
  }

  ghost predicate FirstAt(copies: seq<(nat, Envelope)>, i: nat, n: nat, letter: Envelope) {
    i < |copies| && copies[i] == (n, letter) && forall j :: 0 <= j < i ==> copies[j].0 != n
  }

  lemma FirstAtPrepend(first: (nat, Envelope), rest: seq<(nat, Envelope)>, i: nat, n: nat, letter: Envelope)
    ensures FirstAt([first] + rest, i + 1, n, letter) <==> first.0 != n && FirstAt(rest, i, n, letter)
  {
    var all := [first] + rest;
    assert all[0] == first && all[1..] == rest;
    if FirstAt(all, i + 1, n, letter) {
      forall j | 0 <= j < i ensures rest[j].0 != n {
        assert all[j + 1] == rest[j];
      }
    }
    if first.0 != n && FirstAt(rest, i, n, letter) {
      forall j | 0 <= j < i + 1 ensures all[j].0 != n {
        assert j > 0 ==> all[j] == rest[j - 1];
      }
    }
  }

  lemma FirstPrepend(first: (nat, Envelope), rest: seq<(nat, Envelope)>, n: nat, letter: Envelope)
    ensures FirstOf([first] + rest, n, letter) <==> first == (n, letter) || (first.0 != n && FirstOf(rest, n, letter))
  {
    var all := [first] + rest;
    if first == (n, letter) {
      assert FirstAt(all, 0, n, letter);
    }
    hide FirstAt;
    if first.0 != n && FirstOf(rest, n, letter) {
      var i :| 0 <= i < |rest| && FirstAt(rest, i, n, letter);
      FirstAtPrepend(first, rest, i, n, letter);
    }
    if FirstOf(all, n, letter) && first != (n, letter) {
      var i :| 0 <= i < |all| && FirstAt(all, i, n, letter);
      FirstAtIs(all, i, n, letter);
      FirstAtPrepend(first, rest, i - 1, n, letter);
    }
  }

  lemma FirstAtIs(copies: seq<(nat, Envelope)>, i: nat, n: nat, letter: Envelope)
    requires FirstAt(copies, i, n, letter)
    ensures i < |copies| && copies[i] == (n, letter)
  {
  }

  /** When no copy arrives too far ahead, what is opened of each number is the first letter presented of it. */
  lemma {:induction false} FirstPresentedIsOpened(won: Won, recv: nat, events: seq<Event>, n: nat, letter: Envelope)
    requires WithinReach(recv, NumbersOf(Presented(events))) && forall m :: m in won ==> m < recv
    ensures var after := Followed(won, recv, events).0;
            n in after && after[n] == letter <==>
            (n in won && won[n] == letter) || (n !in won && FirstOf(Presented(events), n, letter))
    decreases |events|
  {
    if events != [] {
      var (won', recv') := FollowOne(won, recv, events[0]);
      var rest := Presented(events[1..]);
      if events[0].Arrives? && events[0].source.Some? {
        var first := events[0].source.value;
        var all := [first] + rest;
        assert Presented(events) == all && all[0] == first && all[1..] == rest;
        assert NumbersOf(all) == [first.0] + NumbersOf(rest) && NumbersOf(all)[1..] == NumbersOf(rest);
        FirstPrepend(first, rest, n, letter);
      }
      hide FirstOf;
      FirstPresentedIsOpened(won', recv', events[1..], n, letter);
    }
  }

  /** Each message id belongs to one letter: ids are drawn at random for every message. */
  ghost predicate OwnIds(peer: Peer) {
    forall n, a, m, b :: (n, a) in peer.letters && (m, b) in peer.letters && IsMessage(a) && IsMessage(b) && a.id == b.id ==>
      n == m && a == b
  }

  // ---------------------------------------------------------------- what the rows say

  /** The row shows the letter: under the sender's contact, with its body, type and time; an undated one has our own time. */
  predicate Shows(row: H.Row, contact: ContactId, letter: Envelope)
    requires letter.Envelope?
  {
    && row.contact == contact && row.direction == "received" && row.remoteId == Some(letter.id)
    && row.body == Some(letter.body)
    && row.kind == (if letter.kind.File? then "file" else "text")
    && (letter.ts != 0 ==> row.ts == letter.ts)
  }

  /** Every received row of one of the peer's messages shows that message. */
  ghost predicate AllShown(rows: H.Table, peer: Peer) {
    forall n, letter, r :: (n, letter) in peer.letters && IsMessage(letter) && r in Received(rows, letter.id) ==>
      Shows(rows[r], peer.contact, letter)
  }

  /** Processing an envelope adds at most a row that shows it; of the rows there were it changes at most the state. */
  lemma ProcessShows(c: State, contact: ContactId, envelope: Envelope, draw: Draw, id: string, r: string)
    requires envelope.Envelope? && draw.rowId !in c.rows
    requires r in Received(Process(c, contact, envelope, draw).state.rows, id)
    ensures var after := Process(c, contact, envelope, draw).state.rows;
            || (r in Received(c.rows, id) && after[r] == c.rows[r].(state := after[r].state))
            || (r == draw.rowId && IsMessage(envelope) && envelope.id == id && Shows(after[r], contact, envelope)
                && (envelope.ts == 0 ==> after[r].ts == draw.now) && after[r].state == Some("received"))
  {
    if IsMessage(envelope) && Received(c.rows, envelope.id) == {} {
      var added := c.(rows := H.AddMessage(c.rows, draw.rowId, ReceivedRow(contact, envelope, draw.now)));
      DeliverKeepsTheRest(added, contact, Same(ReceiptFor(envelope.id)), draw.delivery);
      hide Deliver;
    }
  }

  lemma StepShows(c: State, peer: Peer, won: Won, recv: nat, e: Event)
    requires Stands(c, peer, won, recv) && WellSent(peer) && OwnIds(peer) && Fits(c, peer, e) && AllShown(c.rows, peer)
    ensures AllShown(Next(c, e).rows, peer)
  {
    forall n, letter, r | (n, letter) in peer.letters && IsMessage(letter) && r in Received(Next(c, e).rows, letter.id)
      ensures Shows(Next(c, e).rows[r], peer.contact, letter)
    {
      StepShowsOne(c, peer, won, recv, e, n, letter, r);
    }
  }

  lemma StepShowsOne(c: State, peer: Peer, won: Won, recv: nat, e: Event, n: nat, mine: Envelope, r: string)
    requires Stands(c, peer, won, recv) && WellSent(peer) && OwnIds(peer) && Fits(c, peer, e) && AllShown(c.rows, peer)
    requires (n, mine) in peer.letters && IsMessage(mine) && r in Received(Next(c, e).rows, mine.id)
    ensures Shows(Next(c, e).rows[r], peer.contact, mine)
  {
    match e
    case Arrives(blob, place, draw, source) =>
      var h := Inspect(c, place, blob, draw.newKey);
      if source.Some? {
        CopyStands(c, peer, won, recv, e, source.value.0, source.value.1);
        assert (source.value.0, source.value.1) in peer.letters;
      } else if !h.Ignored? {
        AlienSaveLeaves(c, peer, won, recv, e);
        AlienRepeatsNoId(peer, blob, n, mine);
      }
      hide Inspect, Saved, Process, Received, CopyOf, Stands, Alien;
      if !h.Ignored? {
        ProcessShows(Saved(c, h), Sender(h), h.envelope, draw, mine.id, r);
        hide Shows;
      }
    case Sends(contact, rowId, now, letter, delivery) =>
      DeliverKeepsTheRest(c, contact, letter, delivery);
      hide Deliver;
      if r != rowId {
        assert r in Received(c.rows, mine.id);
      }
    case Adds(contact) =>
  }

  lemma {:induction false} RunShows(c: State, peer: Peer, won: Won, recv: nat, events: seq<Event>)
    requires Stands(c, peer, won, recv) && WellSent(peer) && OwnIds(peer) && AllShown(c.rows, peer) && Legal(c, peer, events)
    ensures AllShown(Run(c, events).rows, peer)
    decreases |events|
  {
    if events != [] {
      var e := events[0];
      StepShows(c, peer, won, recv, e);
      StepStands(c, peer, won, recv, e);
      hide Stands, AllShown, Fits, Next, WellSent, OwnIds;
      RunShows(Next(c, e), peer, FollowOne(won, recv, e).0, FollowOne(won, recv, e).1, events[1..]);
    }
  }

  /** Only one letter was ever sealed under this number. */
  ghost predicate SealedOnce(peer: Peer, n: nat) {
    forall a, b :: (n, a) in peer.letters && (n, b) in peer.letters ==> a == b
  }

  /**
   Exactly once, end to end: from before the first contact, with copies replicated, repeated and reordered
   within the gap limit, among foreign blobs and our own sends, a text or file message has exactly one received
   row if it was the first letter presented of its number, and none otherwise; and that row shows the message. In
   particular every message whose number was sealed once has exactly one row once any copy of it was presented.
   */
  lemma ExactlyOnce(c: State, peer: Peer, events: seq<Event>, n: nat, letter: Envelope)
    requires Unknown(c, peer.sid) && Ready(c, peer) && AllProper(c, peer) && WellSent(peer) && OwnIds(peer)
    requires AtMostOneEach(c.rows)
    requires forall k, other :: (k, other) in peer.letters && IsMessage(other) ==> Received(c.rows, other.id) == {}
    requires Legal(c, peer, events) && WithinReach(0, NumbersOf(Presented(events)))
    requires (n, letter) in peer.letters && IsMessage(letter)
    ensures |Received(Run(c, events).rows, letter.id)| == if FirstOf(Presented(events), n, letter) then 1 else 0
    ensures SealedOnce(peer, n) && (n, letter) in Presented(events) ==> |Received(Run(c, events).rows, letter.id)| == 1
    ensures forall r :: r in Received(Run(c, events).rows, letter.id) ==> Shows(Run(c, events).rows[r], peer.contact, letter)
  {
    assert RowsMatch(c.rows, peer, map[]);
    assert Stands(c, peer, map[], 0);
    assert AllShown(c.rows, peer);
    hide WithinReach, Run, Ready, Unknown, AtMostOneEach, AllProper, WellSent, Stands, OwnIds, Legal, FirstOf;
    RunStands(c, peer, map[], 0, events);
    RunShows(c, peer, map[], 0, events);
    OpenedExactlyWhenFirst(c, peer, events, n, letter);
    AtMostOneRowPerEnvelope(c, events, letter.id);
    OpenedIsPeers(c, peer, events);
    assert Received(Run(c, events).rows, letter.id) != {} <==> Opened(Followed(map[], 0, events).0, letter.id);
    if SealedOnce(peer, n) && (n, letter) in Presented(events) {
      PresentedHasFirst(Presented(events), n, letter, peer);
    }
  }

  lemma OpenedExactlyWhenFirst(c: State, peer: Peer, events: seq<Event>, n: nat, letter: Envelope)
    requires OwnIds(peer) && Legal(c, peer, events) && WithinReach(0, NumbersOf(Presented(events)))
    requires (n, letter) in peer.letters && IsMessage(letter)
    ensures Opened(Followed(map[], 0, events).0, letter.id) <==> FirstOf(Presented(events), n, letter)
  {
    hide Legal, Followed, WithinReach;
    var won := Followed(map[], 0, events).0;
    FirstPresentedIsOpened(map[], 0, events, n, letter);
    OpenedIsPeers(c, peer, events);
    if Opened(won, letter.id) {
      var m :| m in won && IsMessage(won[m]) && won[m].id == letter.id;
      FirstPresentedIsOpened(map[], 0, events, m, won[m]);
      assert (m, won[m]) in peer.letters;
    }
  }

  /** Everything presented was sealed by the peer. */
  lemma {:induction false} OpenedIsPeers(c: State, peer: Peer, events: seq<Event>)
    requires Legal(c, peer, events)
    ensures forall i :: 0 <= i < |Presented(events)| ==> Presented(events)[i] in peer.letters
    decreases |events|
  {
    if events != [] {
      OpenedIsPeers(Next(c, events[0]), peer, events[1..]);
    }
  }

  /** Of a number sealed once, the first copy presented carries its only letter. */
  lemma {:induction false} PresentedHasFirst(copies: seq<(nat, Envelope)>, n: nat, letter: Envelope, peer: Peer)
    requires SealedOnce(peer, n) && (n, letter) in peer.letters && (n, letter) in copies
    requires forall i :: 0 <= i < |copies| ==> copies[i] in peer.letters
    ensures FirstOf(copies, n, letter)
    decreases |copies|
  {
    assert copies == [copies[0]] + copies[1..];
    FirstPrepend(copies[0], copies[1..], n, letter);
    if copies[0].0 == n {
      assert copies[0] == (n, copies[0].1);
    } else {
      PresentedHasFirst(copies[1..], n, letter, peer);
    }
  }

  /** A handshake made against the bundle of our own keys leaves us ready for the session it starts. */
  lemma HandshakeMakesReady(c: State, peer: Peer, bundle: X.PrekeyBundle, isign: nat, idh: PublicKey, ek: nat, firstKey: nat)
    requires X.Initiate(bundle, isign, idh, ek).Success? && c.prekeys.Some?
    requires var i := X.Initiate(bundle, isign, idh, ek).value;
             && peer.init == InitHeader(Point(ek), i.spkId, i.opkId) && peer.sessionKey == i.sessionKey
             && peer.dh == Point(firstKey)
             && peer.origin == ChainKey(i.sessionKey, Dh(c.prekeys.value.spk, Point(firstKey)).value)
    requires bundle.spkId == c.prekeys.value.spkId
    requires bundle.opks != [] ==> bundle.opks[0].0 in c.prekeys.value.opks
    requires X.Matches(bundle, c.identity, c.prekeys.value.spk,
                       if bundle.opks == [] then None else Some(c.prekeys.value.opks[bundle.opks[0].0]))
    ensures Ready(c, peer) && peer.sessionKey.SessionKey? && Stem(peer.origin) == peer.sessionKey
  {
    X.BothEndsAgree(bundle, isign, idh, ek, c.identity, c.prekeys.value.spk,
                    if bundle.opks == [] then None else Some(c.prekeys.value.opks[bundle.opks[0].0]));
  }

  // ---------------------------------------------------------------- a second session of the same peer

  /**
   There is one inbound slot per peer: accepting another session of the same peer, such as the one a failed
   first fan-out left behind, removes this session from the store.
   */
  lemma SecondSessionTakesTheSlot(c: State, peer: Peer, won: Won, recv: nat, blob: Blob, draw: Draw)
    requires Live(c, peer, won, recv) && AllProper(c, peer) && peer.contact in c.contacts
    requires blob.Wire? && blob.sid != peer.sid && blob.packet.box.Sealed?
    requires Stem(blob.packet.box.key) != peer.sessionKey && StartsOthers(draw.delivery, peer)
    requires var h := Inspect(c, None, blob, draw.newKey); h.Accepted? && h.contact == peer.contact
    ensures Unknown(Handle(c, None, blob, draw).state, peer.sid)
  {
    hide OnChain, Attempt, BeginInbound, GrownFrom;
    var h := Inspect(c, None, blob, draw.newKey);
    var d := Saved(c, h);
    var session := BeginInbound(c, blob.sid, blob.packet.context.value).value;
    BegunIsGrown(c, blob.sid, blob.packet.context.value);
    OpeningKeepsStem(session.ratchet, blob.packet, draw.newKey, Stem(session.ratchet.rootKey));
    GrownStem(h.session.ratchet, Stem(session.ratchet.rootKey));
    assert Proper(h.session, peer);
    StoringKeepsSessions(c, h.contact, h.opkId);
    assert SessionAt(d, Home(c, peer)) == Some(h.session);
    assert forall p :: p != Home(c, peer) ==> SessionAt(d, p) == SessionAt(c, p);
    hide Inspect, Proper, Saved, Process;
    assert Unknown(d, peer.sid) && AllProper(d, peer) && NoOutbound(d, peer.sid);
    ProcessLeaves(d, Sender(h), h.envelope, draw, peer);
  }

  /** A session no longer in the store, whose one-time prekey is spent, opens nothing any more. */
  lemma SupersededSessionIsDead(c: State, peer: Peer, n: nat, letter: Envelope, blob: Blob, place: Option<Place>, draw: Draw)
    requires Unknown(c, peer.sid) && CopyOf(peer, n, letter, blob) && Finds(c, blob.sid, place)
    requires peer.init.opkId.Some? && peer.init.opkId.value !in Opks(c)
    ensures Handle(c, place, blob, draw) == Handled(c, None, [])
  {
  }

  /** And it stays so over any run in which nobody else's letter is signed for its id, whatever else arrives. */
  lemma {:induction false} DeadStaysDead(c: State, peer: Peer, events: seq<Event>)
    requires Unknown(c, peer.sid) && AllProper(c, peer) && WellSent(peer)
    requires peer.init.opkId.Some? && peer.init.opkId.value !in Opks(c)
    requires LegalUnderOtherIds(c, peer, events)
    ensures Unknown(Run(c, events), peer.sid) && peer.init.opkId.value !in Opks(Run(c, events))
    decreases |events|
  {
    if events != [] {
      hide WellSent, Next, Unknown, AllProper;
      DeadStep(c, peer, events[0]);
      DeadStaysDead(Next(c, events[0]), peer, events[1..]);
    }
  }

  /** Steps as before, where the peer may also start further sessions under ids and keys of their own. */
  ghost predicate LegalUnderOtherIds(c: State, peer: Peer, events: seq<Event>)
    decreases |events|
  {
    events == [] || (FitsOtherIds(c, peer, events[0]) && LegalUnderOtherIds(Next(c, events[0]), peer, events[1..]))
  }

  ghost predicate FitsOtherIds(c: State, peer: Peer, e: Event) {
    match e
    case Arrives(blob, place, draw, source) =>
      && (blob.Wire? ==> Finds(c, blob.sid, place)) && StartsOthers(draw.delivery, peer)
      && (match source
          case Some((n, letter)) => CopyOf(peer, n, letter, blob)
          case None => Misplaced(peer, blob))
    case Sends(_, _, _, _, delivery) => StartsOthers(delivery, peer)
    case Adds(_) => true
  }

  lemma DeadStep(c: State, peer: Peer, e: Event)
    requires Unknown(c, peer.sid) && AllProper(c, peer) && WellSent(peer) && FitsOtherIds(c, peer, e)
    requires peer.init.opkId.Some? && peer.init.opkId.value !in Opks(c)
    ensures Unknown(Next(c, e), peer.sid) && AllProper(Next(c, e), peer)
    ensures peer.init.opkId.value !in Opks(Next(c, e))
  {
    hide WellSent;
    OnlyAcceptanceSpends(c, e);
    assert NoOutbound(c, peer.sid);
    match e
    case Arrives(blob, place, draw, source) =>
      if source.Some? {
        SupersededSessionIsDead(c, peer, source.value.0, source.value.1, blob, place, draw);
      } else {
        OtherArrivalStep(c, peer, e);
      }
    case Sends(contact, rowId, now, letter, delivery) =>
      DeliverLeaves(c, contact, letter, delivery, peer);
      var d := Deliver(c, contact, letter, delivery).state;
      hide Deliver, Proper;
      assert forall p :: SessionAt(Next(c, e), p) == SessionAt(d, p) || Next(c, e) == c;
    case Adds(contact) =>
      hide Proper;
      assert forall p :: SessionAt(Next(c, e), p) == SessionAt(c, p);
  }

  lemma OtherArrivalStep(c: State, peer: Peer, e: Event)
    requires Unknown(c, peer.sid) && AllProper(c, peer) && WellSent(peer) && FitsOtherIds(c, peer, e)
    requires e.Arrives? && e.source == None
    ensures Unknown(Next(c, e), peer.sid) && AllProper(Next(c, e), peer)
  {
    hide OnChain, Attempt, BeginInbound, GrownFrom, WellSent;
    var blob, newKey := e.blob, e.draw.newKey;
    var h := Inspect(c, e.place, blob, newKey);
    if !h.Ignored? {
      var d := Saved(c, h);
      var home := if h.Resumed? then h.place else Place(h.contact, Inbound, c.device);
      SavedIsProper(c, peer, e);
      if h.Accepted? {
        StoringKeepsSessions(c, h.contact, h.opkId);
      }
      assert SessionAt(d, home) == Some(h.session);
      assert forall p :: p != home ==> SessionAt(d, p) == SessionAt(c, p);
      hide Inspect, Proper, Saved, Process;
      assert Unknown(d, peer.sid) && AllProper(d, peer) && NoOutbound(d, peer.sid);
      ProcessLeaves(d, Sender(h), h.envelope, e.draw, peer);
    }
  }

  lemma SavedIsProper(c: State, peer: Peer, e: Event)
    requires Unknown(c, peer.sid) && AllProper(c, peer) && WellSent(peer) && FitsOtherIds(c, peer, e)
    requires e.Arrives? && e.source == None && !Inspect(c, e.place, e.blob, e.draw.newKey).Ignored?
    ensures var h := Inspect(c, e.place, e.blob, e.draw.newKey);
            h.session.sid != peer.sid && Proper(h.session, peer)
  {
    hide OnChain, Attempt, BeginInbound, GrownFrom;
    var blob, newKey := e.blob, e.draw.newKey;
    var h := Inspect(c, e.place, blob, newKey);
    if blob.sid == peer.sid || (blob.packet.box.Sealed? && Stem(blob.packet.box.key) == peer.sessionKey) {
      MisplacedIsIgnored(c, peer, e.place, blob, newKey);
    }
    hide WellSent, Misplaced;
    if h.Resumed? {
      var session := SessionAt(c, h.place).value;
      assert Proper(session, peer) && session.sid != peer.sid;
      OpeningKeepsStem(session.ratchet, blob.packet, newKey, Stem(session.ratchet.rootKey));
      GrownStem(h.session.ratchet, Stem(session.ratchet.rootKey));
    } else {
      var session := BeginInbound(c, blob.sid, blob.packet.context.value).value;
      BegunIsGrown(c, blob.sid, blob.packet.context.value);
      OpeningKeepsStem(session.ratchet, blob.packet, newKey, Stem(session.ratchet.rootKey));
      GrownStem(h.session.ratchet, Stem(session.ratchet.rootKey));
    }
  }
}

/**
 The receiving side of the client (noknowledge/core/client.py): sessions looked up by wire id,
 first messages that start an inbound session, message rows and the receipts sent for them.
 */
module ClientModel {
  import opened Wrappers
  import opened SymbolicCrypto
  import opened RatchetModel
  import H = History
  import MultiRelay
  import X = X3dh

  type ContactId = string
  type DeviceId = string
  type Sid = nat

  /** The in-ciphertext proof of the sender: a signature over the session id, the handshake and its key. */
  datatype Auth = Signed(signer: ContactId, sid: Sid, init: InitHeader, sessionKey: Term) | BadAuth

  datatype Card = Card(owner: ContactId) | BadCard

  datatype Kind = Text | File | Receipt | OtherKind

  /** A decrypted envelope; `Garbled` is a plaintext that does not unpad. An absent id is the empty text. */
  datatype Envelope =
    | Envelope(kind: Kind, id: string, body: H.Json, ts: int, of: string, receiptKind: string,
               auth: Option<Auth>, card: Option<Card>)
    | Garbled

  /** A relay blob; the handshake header travels as the packet's context. */
  datatype Blob = Wire(sid: Sid, packet: Packet<Envelope>) | MalformedWire

  datatype Session = Session(
    sid: Sid, ratchet: RatchetState, sessionKey: Option<Term>, init: Option<InitHeader>, established: bool)

  /** A contact's sessions: outbound by the peer's device, inbound by ours. */
  datatype Sessions = Sessions(outbound: map<DeviceId, Session>, inbound: map<DeviceId, Session>)

  const NoSessions := Sessions(map[], map[])

  datatype Prekeys = Prekeys(spkId: int, spk: nat, opks: map<int, nat>)

  datatype State = State(
    account: ContactId, identity: nat, device: DeviceId,
    contacts: map<ContactId, Sessions>, rows: H.Table, prekeys: Option<Prekeys>)

  datatype Bucket = Outbound | Inbound

  datatype Place = Place(contact: ContactId, bucket: Bucket, key: DeviceId)

  function BucketOf(sessions: Sessions, bucket: Bucket): map<DeviceId, Session> {
    match bucket
    case Outbound => sessions.outbound
    case Inbound => sessions.inbound
  }

  function SessionAt(c: State, p: Place): Option<Session> {
    if p.contact in c.contacts && p.key in BucketOf(c.contacts[p.contact], p.bucket)
    then Some(BucketOf(c.contacts[p.contact], p.bucket)[p.key])
    else None
  }

  /** What a lookup by wire id may answer. */
  ghost predicate Finds(c: State, sid: Sid, place: Option<Place>) {
    match place
    case Some(p) => SessionAt(c, p).Some? && SessionAt(c, p).value.sid == sid
    case None => forall p :: SessionAt(c, p).Some? ==> SessionAt(c, p).value.sid != sid
  }

  /** What the outside world decides during one step: random values, the time, and how sending the receipt went. */
  datatype Draw = Draw(newKey: nat, rowId: string, now: int, delivery: Delivery)

  /** One copy of a fan-out: for which device, and how the put to that device's relays ends. */
  datatype Copy = Copy(device: DeviceId, nonce: nat, link: MultiRelay.Link)

  /** A delivery to a peer's devices, with the sessions started for devices that had none. */
  datatype Delivery = Unprepared | Prepared(copies: seq<Copy>, started: map<DeviceId, Session>)

  /** A blob that a relay stored for one of the peer's devices. */
  datatype Posted = Posted(device: DeviceId, blob: Blob)

  // -- storing -----------------------------------------------------------------

  function StoreCard(c: State, contact: ContactId): State {
    if contact in c.contacts then c else c.(contacts := c.contacts[contact := NoSessions])
  }

  function ConsumeOpk(c: State, opkId: Option<int>): State {
    if opkId.Some? && c.prekeys.Some?
    then c.(prekeys := Some(c.prekeys.value.(opks := c.prekeys.value.opks - {opkId.value})))
    else c
  }

  function Put(sessions: Sessions, bucket: Bucket, key: DeviceId, session: Session): Sessions {
    match bucket
    case Outbound => sessions.(outbound := sessions.outbound[key := session])
    case Inbound => sessions.(inbound := sessions.inbound[key := session])
  }

  function SaveSession(c: State, p: Place, session: Session): State {
    if p.contact in c.contacts
    then c.(contacts := c.contacts[p.contact := Put(c.contacts[p.contact], p.bucket, p.key, session)])
    else c
  }

  // -- sending -----------------------------------------------------------------

  /** `_start_session`, given what the handshake and the new ratchet key came to: pending until somebody answers. */
  function StartSession(sid: Sid, initiation: X.Initiation, spk: PublicKey, firstKey: nat): Option<Session> {
    match Initiator(initiation.sessionKey, spk, firstKey)
    case Failure(_) => None
    case Success(ratchet) =>
      Some(Session(sid, ratchet, Some(initiation.sessionKey),
                   Some(InitHeader(Point(initiation.ek), initiation.spkId, initiation.opkId)), false))
  }

  /** A pending session's envelopes carry the sender's proof and card. */
  function Dressed(account: ContactId, session: Session, envelope: Envelope): Envelope {
    if session.established || session.sessionKey.None? || session.init.None? || envelope.Garbled? then envelope
    else envelope.(auth := Some(Signed(account, session.sid, session.init.value, session.sessionKey.value)),
                   card := Some(Card(account)))
  }

  /** Sealing one envelope in an outbound session; a pending session needs its handshake material. */
  function SealIn(account: ContactId, session: Session, envelope: Envelope, nonce: nat): Option<(Session, Blob)> {
    if !session.established && (session.sessionKey.None? || session.init.None?) then None
    else
      var context := if session.established then None else session.init;
      match Encrypt(session.ratchet, Dressed(account, session, envelope), nonce, context)
      case Success((ratchet, packet)) => Some((session.(ratchet := ratchet), Wire(session.sid, packet)))
      case Failure(_) => None
  }

  /** What a fan-out leaves: the sessions to save, if every put was answered, and the blobs stored on the way. */
  datatype FanOutcome = FanOutcome(outbound: Option<map<DeviceId, Session>>, posted: seq<Posted>)

  /** One copy more, when all puts so far were answered. */
  function AddCopy(account: ContactId, outbound: map<DeviceId, Session>, posted: seq<Posted>, copy: Copy,
                   letter: DeviceId -> Envelope): FanOutcome
  {
    if copy.device !in outbound then FanOutcome(None, posted)
    else
      match SealIn(account, outbound[copy.device], letter(copy.device), copy.nonce)
      case None => FanOutcome(None, posted)
      case Some((session, blob)) =>
        match copy.link
        case RequestLost => FanOutcome(None, posted)
        case ReplyLost => FanOutcome(None, posted + [Posted(copy.device, blob)])
        case Answered => FanOutcome(Some(outbound[copy.device := session]), posted + [Posted(copy.device, blob)])
  }

  /** The copies are sealed and put one after the other; the first failure ends the fan-out. */
  function FannedOut(account: ContactId, outbound: map<DeviceId, Session>, copies: seq<Copy>,
                     letter: DeviceId -> Envelope): FanOutcome
    decreases |copies|
  {
    if copies == [] then FanOutcome(Some(outbound), [])
    else
      var before := FannedOut(account, outbound, copies[..|copies| - 1], letter);
      if before.outbound.None? then before
      else AddCopy(account, before.outbound.value, before.posted, copies[|copies| - 1], letter)
  }

  predicate Addressed(copies: seq<Copy>, d: DeviceId) {
    exists i :: 0 <= i < |copies| && copies[i].device == d
  }

  /** The outbound sessions, with one started for every device addressed that had none. */
  function Ensured(outbound: map<DeviceId, Session>, delivery: Delivery): map<DeviceId, Session>
    requires delivery.Prepared?
  {
    (map d | d in delivery.started && Addressed(delivery.copies, d) :: delivery.started[d]) + outbound
  }

  datatype Delivered = Delivered(state: State, ok: bool, posted: seq<Posted>)

  /**
   The contact's sessions are read again from the store. Every copy is sealed and put before anything is
   saved, so a failure anywhere forgets all the session advances of this fan-out, but not the blobs stored.
   */
  function Deliver(c: State, contact: ContactId, letter: DeviceId -> Envelope, delivery: Delivery): Delivered {
    if delivery.Unprepared? || contact !in c.contacts then Delivered(c, false, [])
    else
      var outbound := Ensured(c.contacts[contact].outbound, delivery);
      if exists i :: 0 <= i < |delivery.copies| && delivery.copies[i].device !in outbound then Delivered(c, false, [])
      else
        var fan := FannedOut(c.account, outbound, delivery.copies, letter);
        match fan.outbound
        case None => Delivered(c, false, fan.posted)
        case Some(sessions) =>
          Delivered(c.(contacts := c.contacts[contact := c.contacts[contact].(outbound := sessions)]), true, fan.posted)
  }

  /** Every device gets the same envelope. */
  function Same(envelope: Envelope): DeviceId -> Envelope {
    (d: DeviceId) => envelope
  }

  function ReceiptFor(id: string): Envelope {
    Envelope(Receipt, "", "", 0, id, "delivered", None, None)
  }

  // -- receiving ---------------------------------------------------------------

  /** The received rows that carry this envelope id. */
  function Received(rows: H.Table, id: string): set<string> {
    set r | r in rows && rows[r].direction == "received" && rows[r].remoteId == Some(id)
  }

  function KindText(kind: Kind): string {
    if kind == File then "file" else "text"
  }

  /** An envelope without a time is dated by our own clock. */
  function ReceivedRow(contact: ContactId, envelope: Envelope, now: int): H.Row
    requires envelope.Envelope?
  {
    H.Row(contact, "received", KindText(envelope.kind), Some(envelope.body), Some(envelope.id),
          if envelope.ts == 0 then now else envelope.ts, Some("received"))
  }

  predicate IsMessage(envelope: Envelope) {
    envelope.Envelope? && (envelope.kind == Text || envelope.kind == File) && envelope.id != ""
  }

  /** What handling an envelope leaves: the state, the id of the row reported as new, the blobs stored for the peer. */
  datatype Handled = Handled(state: State, message: Option<string>, posted: seq<Posted>)

  /** `_process_envelope`. */
  function Process(c: State, contact: ContactId, envelope: Envelope, draw: Draw): Handled
    requires envelope.Envelope?
  {
    if IsMessage(envelope) then
      if Received(c.rows, envelope.id) != {} then Handled(c, None, [])
      else
        var added := c.(rows := H.AddMessage(c.rows, draw.rowId, ReceivedRow(contact, envelope, draw.now)));
        var sent := Deliver(added, contact, Same(ReceiptFor(envelope.id)), draw.delivery);
        Handled(sent.state, Some(draw.rowId), sent.posted)
    else if envelope.kind == Receipt && envelope.of != "" then
      var state := if envelope.receiptKind == "" then "read" else envelope.receiptKind;
      Handled(c.(rows := H.UpdateState(c.rows, envelope.of, Some(state))), None, [])
    else Handled(c, None, [])
  }

  /** `_begin_inbound`: a responder session for a handshake whose keys we still hold. */
  function BeginInbound(c: State, sid: Sid, init: InitHeader): Option<Session> {
    if c.prekeys.None? || init.spkId != c.prekeys.value.spkId then None
    else
      var prekeys := c.prekeys.value;
      if init.opkId.Some? && init.opkId.value !in prekeys.opks then None
      else
        var oneTime := if init.opkId.Some? then Some(prekeys.opks[init.opkId.value]) else None;
        match X.Respond(c.identity, prekeys.spk, oneTime, init.ek)
        case Failure(_) => None
        case Success(sk) => Some(Session(sid, Responder(sk, prekeys.spk), Some(sk), Some(init), false))
  }

  /** The checks of `_finish_inbound`: who, if anyone, proved to have started this session. */
  function Proven(session: Session, envelope: Envelope): Option<ContactId> {
    if !envelope.Envelope? || envelope.auth.None? || envelope.card.None? then None
    else if session.sessionKey.None? || session.init.None? then None
    else if envelope.auth.value.BadAuth? || envelope.card.value.BadCard? then None
    else
      var auth := envelope.auth.value;
      if auth.sid != session.sid || auth.init != session.init.value || auth.sessionKey != session.sessionKey.value then None
      else if envelope.card.value.owner != auth.signer then None
      else Some(auth.signer)
  }

  /** What handling a blob found out before anything is stored. */
  datatype Handling =
    | Ignored
    | Resumed(place: Place, session: Session, envelope: Envelope)
    | Accepted(contact: ContactId, session: Session, envelope: Envelope, opkId: Option<int>)

  function Inspect(c: State, place: Option<Place>, blob: Blob, newKey: nat): (h: Handling)
    ensures !h.Ignored? ==> h.envelope.Envelope?
  {
    if blob.MalformedWire? then Ignored
    else
      match place
      case Some(p) =>
        if SessionAt(c, p).None? then Ignored
        else
          var session := SessionAt(c, p).value;
          (match Attempt(session.ratchet, blob.packet, newKey)
           case Failure(_) => Ignored
           case Success(opening) =>
             if opening.plaintext.Garbled? then Ignored
             else
               var kept := if session.established then session.sessionKey else None;
               Resumed(p, session.(ratchet := opening.state, established := true, sessionKey := kept), opening.plaintext))
      case None =>
        if blob.packet.context.None? then Ignored
        else
          match BeginInbound(c, blob.sid, blob.packet.context.value)
          case None => Ignored
          case Some(session) =>
            match Attempt(session.ratchet, blob.packet, newKey)
            case Failure(_) => Ignored
            case Success(opening) =>
              match Proven(session, opening.plaintext)
              case None => Ignored
              case Some(contact) =>
                Accepted(contact, session.(ratchet := opening.state, established := true, sessionKey := None),
                         opening.plaintext, blob.packet.context.value.opkId)
  }

  /** The store once the session's advance is saved. */
  function Saved(c: State, h: Handling): State {
    match h
    case Ignored => c
    case Resumed(p, session, _) => SaveSession(c, p, session)
    case Accepted(contact, session, _, opkId) =>
      SaveSession(ConsumeOpk(StoreCard(c, contact), opkId), Place(contact, Inbound, c.device), session)
  }

  function Sender(h: Handling): ContactId
    requires !h.Ignored?
  {
    if h.Resumed? then h.place.contact else h.contact
  }

  /** `_handle_blob`, given where the lookup found the session. */
  function Handle(c: State, place: Option<Place>, blob: Blob, draw: Draw): Handled {
    var h := Inspect(c, place, blob, draw.newKey);
    if h.Ignored? then Handled(c, None, []) else Process(Saved(c, h), Sender(h), h.envelope, draw)
  }

  /** One round of `sync`: every fetched blob is handled, whatever became of the ones before. */
  function HandleAll(c: State, places: seq<Option<Place>>, blobs: seq<Blob>, draws: seq<Draw>): (State, seq<string>)
    requires |places| == |blobs| == |draws|
    decreases |blobs|
  {
    if blobs == [] then (c, [])
    else
      var k := |blobs| - 1;
      var (before, messages) := HandleAll(c, places[..k], blobs[..k], draws[..k]);
      var after := Handle(before, places[k], blobs[k], draws[k]);
      (after.state, if after.message.Some? then messages + [after.message.value] else messages)
  }

  /** Each lookup answered for the state it was made in. */
  ghost predicate AllFound(c: State, places: seq<Option<Place>>, blobs: seq<Blob>, draws: seq<Draw>)
    requires |places| == |blobs| == |draws|
  {
    forall i :: 0 <= i < |blobs| && blobs[i].Wire? ==>
      Finds(HandleAll(c, places[..i], blobs[..i], draws[..i]).0, blobs[i].sid, places[i])
  }

  class Client {
    const account: ContactId
    const identity: nat
    const device: DeviceId
    var contacts: map<ContactId, Sessions>
    var rows: H.Table
    var prekeys: Option<Prekeys>

    ghost function Now(): State
      reads this
    {
      State(account, identity, device, contacts, rows, prekeys)
    }

    constructor (account: ContactId, identity: nat, device: DeviceId, prekeys: Option<Prekeys>)
      ensures Now() == State(account, identity, device, map[], map[], prekeys)
    {
      this.account := account;
      this.identity := identity;
      this.device := device;
      this.contacts, this.rows, this.prekeys := map[], map[], prekeys;
    }

    method FindSession(sid: Sid) returns (place: Option<Place>)
      ensures Finds(Now(), sid, place)
    {
      var todo := contacts.Keys;
      while todo != {}
        invariant todo <= contacts.Keys
        invariant forall p: Place :: p.contact !in todo && SessionAt(Now(), p).Some? ==> SessionAt(Now(), p).value.sid != sid
        decreases |todo|
      {
        var contact :| contact in todo;
        var key := FindIn(contacts[contact].outbound, sid);
        if key.Some? {
          return Some(Place(contact, Outbound, key.value));
        }
        var key' := FindIn(contacts[contact].inbound, sid);
        if key'.Some? {
          return Some(Place(contact, Inbound, key'.value));
        }
        todo := todo - {contact};
      }
      return None;
    }

    static method FindIn(sessions: map<DeviceId, Session>, sid: Sid) returns (key: Option<DeviceId>)
      ensures key.Some? ==> key.value in sessions && sessions[key.value].sid == sid
      ensures key.None? ==> forall k :: k in sessions ==> sessions[k].sid != sid
    {
      var todo := sessions.Keys;
      while todo != {}
        invariant todo <= sessions.Keys
        invariant forall k :: k in sessions && k !in todo ==> sessions[k].sid != sid
        decreases |todo|
      {
        var k :| k in todo;
        if sessions[k].sid == sid {
          return Some(k);
        }
        todo := todo - {k};
      }
      return None;
    }

    /** Seals and puts copy after copy; the sessions are saved only once every put was answered. */
    method FanOut(contact: ContactId, letter: DeviceId -> Envelope, delivery: Delivery)
      returns (ok: bool, posted: seq<Posted>)
      modifies this`contacts
      ensures Delivered(Now(), ok, posted) == Deliver(old(Now()), contact, letter, delivery)
    {
      posted := [];
      if delivery.Unprepared? || contact !in contacts {
        return false, [];
      }
      var copies := delivery.copies;
      var outbound := Ensured(contacts[contact].outbound, delivery);
      if exists i :: 0 <= i < |copies| && copies[i].device !in outbound {
        return false, [];
      }
      ghost var sessions := outbound;
      hide FannedOut, SealIn;
      NoCopyYet(account, sessions, copies, letter);
      for i := 0 to |copies|
        invariant FannedOut(account, sessions, copies[..i], letter) == FanOutcome(Some(outbound), posted)
        invariant sessions.Keys <= outbound.Keys
        invariant contacts == old(contacts)
      {
        OneMoreCopy(account, sessions, copies, i, letter);
        var copy := copies[i];
        var sealed := SealIn(account, outbound[copy.device], letter(copy.device), copy.nonce);
        if sealed.None? || copy.link.RequestLost? {
          FanOutEnds(account, sessions, copies, i + 1, letter);
          return false, posted;
        }
        posted := posted + [Posted(copy.device, sealed.value.1)];
        if copy.link.ReplyLost? {
          FanOutEnds(account, sessions, copies, i + 1, letter);
          return false, posted;
        }
        outbound := outbound[copy.device := sealed.value.0];
      }
      assert copies[..|copies|] == copies;
      contacts := contacts[contact := contacts[contact].(outbound := outbound)];
      return true, posted;
    }

    method ProcessEnvelope(contact: ContactId, envelope: Envelope, draw: Draw)
      returns (message: Option<string>, posted: seq<Posted>)
      requires envelope.Envelope?
      modifies this`contacts, this`rows
      ensures Handled(Now(), message, posted) == Process(old(Now()), contact, envelope, draw)
    {
      if IsMessage(envelope) {
        if Received(rows, envelope.id) != {} {
          return None, [];
        }
        rows := H.AddMessage(rows, draw.rowId, ReceivedRow(contact, envelope, draw.now));
        var _, sent := FanOut(contact, Same(ReceiptFor(envelope.id)), draw.delivery);
        return Some(draw.rowId), sent;
      }
      if envelope.kind == Receipt && envelope.of != "" {
        var state := if envelope.receiptKind == "" then "read" else envelope.receiptKind;
        rows := H.UpdateState(rows, envelope.of, Some(state));
      }
      return None, [];
    }

    /** Accepting a first message: card stored, one-time prekey spent, session saved under our device. */
    method AcceptInbound(contact: ContactId, session: Session, opkId: Option<int>)
      modifies this`contacts, this`prekeys
      ensures Now() == SaveSession(ConsumeOpk(StoreCard(old(Now()), contact), opkId), Place(contact, Inbound, device), session)
    {
      if contact !in contacts {
        contacts := contacts[contact := NoSessions];
      }
      if opkId.Some? && prekeys.Some? {
        prekeys := Some(prekeys.value.(opks := prekeys.value.opks - {opkId.value}));
      }
      contacts := contacts[contact := contacts[contact].(inbound := contacts[contact].inbound[device := session])];
    }

    method HandleBlob(blob: Blob, draw: Draw)
      returns (message: Option<string>, posted: seq<Posted>, ghost place: Option<Place>)
      modifies this
      ensures blob.Wire? ==> Finds(old(Now()), blob.sid, place)
      ensures Handled(Now(), message, posted) == Handle(old(Now()), place, blob, draw)
    {
      if blob.MalformedWire? {
        return None, [], None;
      }
      var found := FindSession(blob.sid);
      place := found;
      if found.Some? {
        var p := found.value;
        var session := BucketOf(contacts[p.contact], p.bucket)[p.key];
        var attempt := Attempt(session.ratchet, blob.packet, draw.newKey);
        if attempt.Failure? || attempt.value.plaintext.Garbled? {
          return None, [], place;
        }
        if !session.established {
          session := session.(established := true, sessionKey := None);
        }
        session := session.(ratchet := attempt.value.state);
        contacts := contacts[p.contact := Put(contacts[p.contact], p.bucket, p.key, session)];
        message, posted := ProcessEnvelope(p.contact, attempt.value.plaintext, draw);
      } else {
        if blob.packet.context.None? {
          return None, [], place;
        }
        var init := blob.packet.context.value;
        var started := BeginInbound(State(account, identity, device, contacts, rows, prekeys), blob.sid, init);
        if started.None? {
          return None, [], place;
        }
        var attempt := Attempt(started.value.ratchet, blob.packet, draw.newKey);
        if attempt.Failure? {
          return None, [], place;
        }
        var contact := Proven(started.value, attempt.value.plaintext);
        if contact.None? {
          return None, [], place;
        }
        var session := started.value.(ratchet := attempt.value.state, established := true, sessionKey := None);
        AcceptInbound(contact.value, session, init.opkId);
        message, posted := ProcessEnvelope(contact.value, attempt.value.plaintext, draw);
      }
    }

    method Sync(blobs: seq<Blob>, draws: seq<Draw>) returns (messages: seq<string>, ghost places: seq<Option<Place>>)
      requires |blobs| == |draws|
      modifies this
      ensures |places| == |blobs| && AllFound(old(Now()), places, blobs, draws)
      ensures (Now(), messages) == HandleAll(old(Now()), places, blobs, draws)
    {
      messages, places := [], [];
      hide Handle, HandleAll, AllFound, Finds;
      NothingHandled(Now());
      for i := 0 to |blobs|
        invariant |places| == i && AllFound(old(Now()), places, blobs[..i], draws[..i])
        invariant (Now(), messages) == HandleAll(old(Now()), places, blobs[..i], draws[..i])
      {
        var message, _, place := HandleBlob(blobs[i], draws[i]);
        OneMoreHandled(old(Now()), places, blobs[..i], draws[..i], place, blobs[i], draws[i]);
        assert blobs[..i + 1] == blobs[..i] + [blobs[i]] && draws[..i + 1] == draws[..i] + [draws[i]];
        places := places + [place];
        if message.Some? {
          messages := messages + [message.value];
        }
      }
      assert blobs[..|blobs|] == blobs && draws[..|draws|] == draws;
    }
  }

  lemma NothingHandled(c: State)
    ensures HandleAll(c, [], [], []) == (c, []) && AllFound(c, [], [], [])
  {
  }

  lemma OneMoreHandled(c: State, places: seq<Option<Place>>, blobs: seq<Blob>, draws: seq<Draw>,
                       place: Option<Place>, blob: Blob, draw: Draw)
    requires |places| == |blobs| == |draws| && AllFound(c, places, blobs, draws)
    requires blob.Wire? ==> Finds(HandleAll(c, places, blobs, draws).0, blob.sid, place)
    ensures AllFound(c, places + [place], blobs + [blob], draws + [draw])
    ensures HandleAll(c, places + [place], blobs + [blob], draws + [draw]) ==
            var (before, messages) := HandleAll(c, places, blobs, draws);
            var after := Handle(before, place, blob, draw);
            (after.state, if after.message.Some? then messages + [after.message.value] else messages)
  {
    hide Handle, Finds;
    var places', blobs', draws' := places + [place], blobs + [blob], draws + [draw];
    assert forall i :: 0 <= i <= |blobs| ==> places'[..i] == places[..i] && blobs'[..i] == blobs[..i] && draws'[..i] == draws[..i];
    assert places[..|blobs|] == places && blobs[..|blobs|] == blobs && draws[..|blobs|] == draws;
  }

  lemma NoCopyYet(account: ContactId, outbound: map<DeviceId, Session>, copies: seq<Copy>, letter: DeviceId -> Envelope)
    ensures FannedOut(account, outbound, copies[..0], letter) == FanOutcome(Some(outbound), [])
  {
  }

  lemma OneMoreCopy(account: ContactId, outbound: map<DeviceId, Session>, copies: seq<Copy>, i: nat,
                    letter: DeviceId -> Envelope)
    requires i < |copies|
    ensures FannedOut(account, outbound, copies[..i + 1], letter) ==
            var before := FannedOut(account, outbound, copies[..i], letter);
            if before.outbound.None? then before
            else AddCopy(account, before.outbound.value, before.posted, copies[i], letter)
  {
    assert copies[..i + 1][..i] == copies[..i];
  }

  /** A fan-out that has failed stays as it is. */
  lemma {:induction false} FanOutEnds(account: ContactId, outbound: map<DeviceId, Session>, copies: seq<Copy>, n: nat,
                                      letter: DeviceId -> Envelope)
    requires n <= |copies| && FannedOut(account, outbound, copies[..n], letter).outbound == None
    ensures FannedOut(account, outbound, copies, letter) == FannedOut(account, outbound, copies[..n], letter)
    decreases |copies|
  {
    if n < |copies| {
      var before := copies[..|copies| - 1];
      assert before[..n] == copies[..n];
      FanOutEnds(account, outbound, before, n, letter);
    } else {
      assert copies[..n] == copies;
    }
  }
}

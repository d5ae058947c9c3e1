/** The message list of the client: what a send and a round of handling add to it, and what receipts say and change. */
module ClientRows {
  import opened Wrappers
  import opened SymbolicCrypto
  import opened RatchetModel
  import opened ClientModel
  import opened ClientRuns
  import H = History

  // ---------------------------------------------------------------- pending and established

  /** A pending session needs its handshake material and sends it along with proof and card; an established one sends the bare text. */
  lemma SealingDependsOnPending(account: ContactId, session: Session, envelope: Envelope, nonce: nat)
    requires envelope.Envelope?
    ensures var sealed := SealIn(account, session, envelope, nonce);
            && (!session.established && (session.sessionKey.None? || session.init.None?) ==> sealed.None?)
            && (sealed.Some? ==>
                  var (after, blob) := sealed.value;
                  && after.sid == session.sid && after.established == session.established
                  && after.sessionKey == session.sessionKey && after.init == session.init
                  && blob.Wire? && blob.sid == session.sid && blob.packet.box.Sealed?
                  && blob.packet.context == (if session.established then None else session.init)
                  && blob.packet.box.plaintext ==
                     if session.established then envelope
                     else envelope.(auth := Some(Signed(account, session.sid, session.init.value, session.sessionKey.value)),
                                    card := Some(Card(account))))
  {
  }

  /** Whoever hears from the peer is established, and forgets the key that the handshake was proved with. */
  lemma HearingEstablishes(c: State, place: Option<Place>, blob: Blob, newKey: nat)
    ensures var h := Inspect(c, place, blob, newKey);
            && (h.Accepted? ==>
                  && h.session.established && h.session.sessionKey == None && blob.Wire?
                  && h.session.sid == blob.sid && h.session.init == blob.packet.context)
            && (h.Resumed? ==>
                  place == Some(h.place) && SessionAt(c, h.place).Some?
                  && var was := SessionAt(c, h.place).value;
                     && h.session.established && h.session.sid == was.sid && h.session.init == was.init
                     && (!was.established ==> h.session.sessionKey == None))
  {
    hide Attempt, Proven;
  }

  // ---------------------------------------------------------------- sending

  /**
   A send that reaches every device adds one row under its id: sent, to this contact, with the type and body of what
   was said, dated by our clock. One that fails changes nothing at all.
   */
  lemma SentIsListed(c: State, contact: ContactId, rowId: string, now: int, letter: DeviceId -> Envelope, delivery: Delivery)
    requires rowId !in c.rows
    ensures var after := Next(c, Sends(contact, rowId, now, letter, delivery));
            if !Deliver(c, contact, letter, delivery).ok then after == c
            else
              && after.rows.Keys == c.rows.Keys + {rowId} && (forall r :: r in c.rows ==> after.rows[r] == c.rows[r])
              && var row := after.rows[rowId];
                 && row.contact == contact && row.direction == "sent" && row.remoteId == None
                 && row.ts == now && row.state == Some("sent")
                 && (delivery.copies != [] && letter(delivery.copies[0].device).Envelope? ==>
                       var said := letter(delivery.copies[0].device);
                       row.body == Some(said.body) && row.kind == (if said.kind.File? then "file" else "text"))
  {
    DeliverKeepsTheRest(c, contact, letter, delivery);
    hide FannedOut, Ensured;
  }

  // ---------------------------------------------------------------- a round of handling

  /** Handling a blob reports the row it adds, and adds no other. */
  lemma HandlingReportsItsRow(c: State, place: Option<Place>, blob: Blob, draw: Draw)
    requires draw.rowId !in c.rows
    ensures var h := Handle(c, place, blob, draw);
            && h.state.rows.Keys == c.rows.Keys + (if h.message.Some? then {h.message.value} else {})
            && (h.message.Some? ==> h.message.value == draw.rowId)
  {
    var h := Inspect(c, place, blob, draw.newKey);
    if !h.Ignored? {
      assert Saved(c, h).rows == c.rows;
      hide Inspect, Saved, Process;
      ProcessReportsItsRow(Saved(c, h), Sender(h), h.envelope, draw);
    }
  }

  lemma ProcessReportsItsRow(c: State, contact: ContactId, envelope: Envelope, draw: Draw)
    requires envelope.Envelope? && draw.rowId !in c.rows
    ensures var p := Process(c, contact, envelope, draw);
            && p.state.rows.Keys == c.rows.Keys + (if p.message.Some? then {p.message.value} else {})
            && (p.message.Some? ==> p.message.value == draw.rowId)
  {
    hide Deliver, Received;
    if IsMessage(envelope) && Received(c.rows, envelope.id) == {} {
      var added := c.(rows := H.AddMessage(c.rows, draw.rowId, ReceivedRow(contact, envelope, draw.now)));
      DeliverKeepsTheRest(added, contact, Same(ReceiptFor(envelope.id)), draw.delivery);
    }
  }

  /** What a round returns as new is exactly what it added to the list, each row once. */
  lemma {:induction false} RoundReportsNewRows(c: State, places: seq<Option<Place>>, blobs: seq<Blob>, draws: seq<Draw>)
    requires |places| == |blobs| == |draws|
    requires forall i :: 0 <= i < |draws| ==> draws[i].rowId !in c.rows
    requires forall i, j :: 0 <= i < j < |draws| ==> draws[i].rowId != draws[j].rowId
    ensures var (after, messages) := HandleAll(c, places, blobs, draws);
            && after.rows.Keys == c.rows.Keys + (set m | m in messages)
            && (forall m :: m in messages ==> m !in c.rows && exists i :: 0 <= i < |draws| && draws[i].rowId == m)
            && (forall i, j :: 0 <= i < j < |messages| ==> messages[i] != messages[j])
    decreases |blobs|
  {
    if blobs != [] {
      var k := |blobs| - 1;
      RoundReportsNewRows(c, places[..k], blobs[..k], draws[..k]);
      var (before, messages) := HandleAll(c, places[..k], blobs[..k], draws[..k]);
      assert draws[k].rowId !in messages;
      HandlingReportsItsRow(before, places[k], blobs[k], draws[k]);
      hide Handle;
    }
  }

  // ---------------------------------------------------------------- receipts

  /** A receipt for a message: it names the message's id and says it was delivered. */
  predicate Acknowledges(envelope: Envelope, id: string) {
    envelope.Envelope? && envelope.kind == Receipt && envelope.of == id && envelope.receiptKind == "delivered"
  }

  lemma {:induction false} PostedSays(account: ContactId, outbound: map<DeviceId, Session>, copies: seq<Copy>,
                                      letter: DeviceId -> Envelope, id: string, i: nat)
    requires i < |FannedOut(account, outbound, copies, letter).posted|
    requires forall d :: Acknowledges(letter(d), id)
    ensures var blob := FannedOut(account, outbound, copies, letter).posted[i].blob;
            blob.Wire? && blob.packet.box.Sealed? && Acknowledges(blob.packet.box.plaintext, id)
    decreases |copies|
  {
    var earlier, copy := copies[..|copies| - 1], copies[|copies| - 1];
    var before := FannedOut(account, outbound, earlier, letter);
    if i < |before.posted| {
      PostedSays(account, outbound, earlier, letter, id, i);
    }
  }

  /**
   Whatever handling a blob sends back are receipts for the message the blob carried, and it sends some only
   when the message is new.
   */
  lemma ReceiptsAnswerTheMessage(c: State, place: Option<Place>, blob: Blob, draw: Draw, i: nat)
    requires i < |Handle(c, place, blob, draw).posted|
    ensures blob.Wire? && blob.packet.box.Sealed? && IsMessage(blob.packet.box.plaintext)
    ensures var back := Handle(c, place, blob, draw).posted[i].blob;
            back.Wire? && back.packet.box.Sealed? && Acknowledges(back.packet.box.plaintext, blob.packet.box.plaintext.id)
    ensures Handle(c, place, blob, draw).message.Some?
  {
    var h := Inspect(c, place, blob, draw.newKey);
    OpenedIsPlaintext(c, place, blob, draw.newKey);
    var saved := Saved(c, h);
    hide Inspect, Saved;
    var id := h.envelope.id;
    var added := saved.(rows := H.AddMessage(saved.rows, draw.rowId, ReceivedRow(Sender(h), h.envelope, draw.now)));
    var letter := Same(ReceiptFor(id));
    assert forall d :: Acknowledges(letter(d), id);
    var outbound := Ensured(added.contacts[Sender(h)].outbound, draw.delivery);
    PostedSays(added.account, outbound, draw.delivery.copies, letter, id, i);
    hide FannedOut, Ensured;
  }

  lemma OpenedIsPlaintext(c: State, place: Option<Place>, blob: Blob, newKey: nat)
    ensures var h := Inspect(c, place, blob, newKey);
            !h.Ignored? ==> blob.Wire? && blob.packet.box.Sealed? && blob.packet.box.plaintext == h.envelope
  {
    hide EnterEpoch, TakeKey;
  }

  /** A receipt sets the state of the row it names, to what it says or to read, and touches no other row. */
  lemma ReceiptSetsTheState(c: State, place: Option<Place>, blob: Blob, draw: Draw)
    requires var h := Inspect(c, place, blob, draw.newKey); !h.Ignored? && h.envelope.kind == Receipt
    ensures var envelope := blob.packet.box.plaintext;
            var after := Handle(c, place, blob, draw).state.rows;
            && after.Keys == c.rows.Keys
            && (forall r :: r in c.rows && r != envelope.of ==> after[r] == c.rows[r])
            && (envelope.of == "" ==> after == c.rows)
            && (envelope.of in c.rows && envelope.of != "" ==>
                  after[envelope.of] ==
                  c.rows[envelope.of].(state := Some(if envelope.receiptKind == "" then "read" else envelope.receiptKind)))
    ensures blob.Wire? && blob.packet.box.Sealed? && blob.packet.box.plaintext.Envelope?
    ensures Handle(c, place, blob, draw).message == None && Handle(c, place, blob, draw).posted == []
  {
    OpenedIsPlaintext(c, place, blob, draw.newKey);
    var h := Inspect(c, place, blob, draw.newKey);
    assert Saved(c, h).rows == c.rows;
    hide Inspect, Saved, Deliver;
  }

  /**
   From end to end: a receipt that the receiver sent back for a message marks exactly that message as delivered at
   the sender, whose row of it has the same id.
   */
  lemma ReceiptMarksTheMessage(receiver: State, place: Option<Place>, blob: Blob, draw: Draw, i: nat,
                               sender: State, back: Option<Place>, drawn: Draw)
    requires i < |Handle(receiver, place, blob, draw).posted|
    requires var receipt := Handle(receiver, place, blob, draw).posted[i].blob;
             !Inspect(sender, back, receipt, drawn.newKey).Ignored?
    ensures blob.Wire? && blob.packet.box.Sealed? && blob.packet.box.plaintext.Envelope?
    ensures var id := blob.packet.box.plaintext.id;
            var receipt := Handle(receiver, place, blob, draw).posted[i].blob;
            var after := Handle(sender, back, receipt, drawn).state.rows;
            after == if id in sender.rows then sender.rows[id := sender.rows[id].(state := Some("delivered"))] else sender.rows
  {
    ReceiptsAnswerTheMessage(receiver, place, blob, draw, i);
    var receipt := Handle(receiver, place, blob, draw).posted[i].blob;
    hide Handle;
    OpenedIsPlaintext(sender, back, receipt, drawn.newKey);
    hide Inspect;
    ReceiptSetsTheState(sender, back, receipt, drawn);
  }
}

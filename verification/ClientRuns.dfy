/** Runs of the client: what every step keeps, whatever blobs arrive. */
module ClientRuns {
  import opened Wrappers
  import opened SymbolicCrypto
  import opened RatchetModel
  import opened ClientModel
  import H = History
  import X = X3dh

  /**
   One step: a blob handled during a sync, a message of our own, or a card added. `source` labels a blob
   for the reader, as message number and text of a session, and changes nothing.
   */
  datatype Event =
    | Arrives(blob: Blob, place: Option<Place>, draw: Draw, source: Option<(nat, Envelope)>)
    | Sends(contact: ContactId, rowId: string, now: int, letter: DeviceId -> Envelope, delivery: Delivery)
    | Adds(contact: ContactId)

  /** What our own row keeps of a message: the copy made for the first device. */
  function Said(letter: DeviceId -> Envelope, delivery: Delivery): Envelope {
    if delivery.Prepared? && delivery.copies != [] then letter(delivery.copies[0].device) else Garbled
  }

  /** The row kept of a message we sent: it has no remote id. */
  function SentRow(contact: ContactId, said: Envelope, now: int): H.Row {
    if said.Envelope? then H.Row(contact, "sent", KindText(said.kind), Some(said.body), None, now, Some("sent"))
    else H.Row(contact, "sent", "text", None, None, now, Some("sent"))
  }

  function Next(c: State, e: Event): State {
    match e
    case Arrives(blob, place, draw, _) => Handle(c, place, blob, draw).state
    case Sends(contact, rowId, now, letter, delivery) =>
      var sent := Deliver(c, contact, letter, delivery);
      if sent.ok then sent.state.(rows := H.AddMessage(sent.state.rows, rowId, SentRow(contact, Said(letter, delivery), now))) else c
    case Adds(contact) => StoreCard(c, contact)
  }

  function Run(c: State, events: seq<Event>): State
    decreases |events|
  {
    if events == [] then c else Run(Next(c, events[0]), events[1..])
  }

  // ---------------------------------------------------------------- sessions survive receipts

  /** Sending, with whatever outcome, touches nothing but the contact's outbound sessions. */
  lemma DeliverKeepsTheRest(c: State, contact: ContactId, letter: DeviceId -> Envelope, delivery: Delivery)
    ensures var after := Deliver(c, contact, letter, delivery).state;
            && after == c.(contacts := after.contacts)
            && after.contacts.Keys == c.contacts.Keys
            && forall k :: k in c.contacts ==>
                 && after.contacts[k].inbound == c.contacts[k].inbound
                 && (k != contact ==> after.contacts[k] == c.contacts[k])
  {
    hide FannedOut;
  }

  /** Processing an envelope keeps every inbound session and the prekeys. */
  lemma ProcessKeepsSessions(c: State, contact: ContactId, envelope: Envelope, draw: Draw)
    requires envelope.Envelope?
    ensures var after := Process(c, contact, envelope, draw).state;
            && after == c.(contacts := after.contacts, rows := after.rows)
            && after.contacts.Keys == c.contacts.Keys
            && forall k :: k in c.contacts ==>
                 && after.contacts[k].inbound == c.contacts[k].inbound
                 && (k != contact ==> after.contacts[k] == c.contacts[k])
  {
    if IsMessage(envelope) && Received(c.rows, envelope.id) == {} {
      var added := c.(rows := H.AddMessage(c.rows, draw.rowId, ReceivedRow(contact, envelope, draw.now)));
      DeliverKeepsTheRest(added, contact, Same(ReceiptFor(envelope.id)), draw.delivery);
    }
  }

  /** Only the sending side of a session moves when something is sealed in it. */
  ghost predicate OnlySent(before: Session, after: Session) {
    after == before.(ratchet := before.ratchet.(sendingChain := after.ratchet.sendingChain,
                                                sendCount := after.ratchet.sendCount))
  }

  lemma SealingOnlySends(account: ContactId, session: Session, envelope: Envelope, nonce: nat)
    ensures SealIn(account, session, envelope, nonce).Some? ==>
              OnlySent(session, SealIn(account, session, envelope, nonce).value.0)
  {
  }

  lemma {:induction false} FanOutOnlySends(account: ContactId, outbound: map<DeviceId, Session>, copies: seq<Copy>,
                                           letter: DeviceId -> Envelope)
    ensures var after := FannedOut(account, outbound, copies, letter).outbound;
            after.Some? ==>
              after.value.Keys == outbound.Keys && forall d :: d in outbound ==> OnlySent(outbound[d], after.value[d])
    decreases |copies|
  {
    if copies != [] {
      var before := FannedOut(account, outbound, copies[..|copies| - 1], letter).outbound;
      var copy := copies[|copies| - 1];
      FanOutOnlySends(account, outbound, copies[..|copies| - 1], letter);
      if before.Some? && copy.device in before.value {
        SealingOnlySends(account, before.value[copy.device], letter(copy.device), copy.nonce);
      }
    }
  }

  /** A delivery moves nothing but the sending side of sessions that were there before it. */
  lemma DeliverOnlySends(c: State, contact: ContactId, letter: DeviceId -> Envelope, delivery: Delivery, p: Place)
    requires SessionAt(c, p).Some?
    ensures SessionAt(Deliver(c, contact, letter, delivery).state, p).Some?
    ensures OnlySent(SessionAt(c, p).value, SessionAt(Deliver(c, contact, letter, delivery).state, p).value)
  {
    if delivery.Prepared? && contact in c.contacts {
      FanOutOnlySends(c.account, Ensured(c.contacts[contact].outbound, delivery), delivery.copies, letter);
    }
    hide FannedOut;
  }

  lemma ProcessOnlySends(c: State, contact: ContactId, envelope: Envelope, draw: Draw, p: Place)
    requires envelope.Envelope? && SessionAt(c, p).Some?
    ensures SessionAt(Process(c, contact, envelope, draw).state, p).Some?
    ensures OnlySent(SessionAt(c, p).value, SessionAt(Process(c, contact, envelope, draw).state, p).value)
    ensures p.bucket == Inbound ==> SessionAt(Process(c, contact, envelope, draw).state, p) == SessionAt(c, p)
  {
    ProcessKeepsSessions(c, contact, envelope, draw);
    if IsMessage(envelope) && Received(c.rows, envelope.id) == {} {
      var added := c.(rows := H.AddMessage(c.rows, draw.rowId, ReceivedRow(contact, envelope, draw.now)));
      assert SessionAt(added, p) == SessionAt(c, p);
      DeliverOnlySends(added, contact, Same(ReceiptFor(envelope.id)), draw.delivery, p);
    }
  }

  /**
   A blob that opens leaves its session in the store exactly as the ratchet advanced it, however the
   receipt sent during handling turns out; the receipt may only move the sending side of an outbound one.
   */
  lemma AdvanceSurvivesTheReceipt(c: State, place: Option<Place>, blob: Blob, draw: Draw)
    requires blob.Wire? ==> Finds(c, blob.sid, place)
    ensures var h := Inspect(c, place, blob, draw.newKey);
            var after := Handle(c, place, blob, draw).state;
            if h.Ignored? then after == c
            else
              var home := if h.Resumed? then h.place else Place(h.contact, Inbound, c.device);
              && SessionAt(after, home).Some?
              && OnlySent(h.session, SessionAt(after, home).value)
              && (home.bucket == Inbound ==> SessionAt(after, home) == Some(h.session))
  {
    var h := Inspect(c, place, blob, draw.newKey);
    if !h.Ignored? {
      var home := if h.Resumed? then h.place else Place(h.contact, Inbound, c.device);
      assert SessionAt(Saved(c, h), home) == Some(h.session);
      hide Inspect, Saved, Process;
      ProcessOnlySends(Saved(c, h), Sender(h), h.envelope, draw, home);
    }
  }

  // ---------------------------------------------------------------- at most one row

  ghost predicate AtMostOneEach(rows: H.Table) {
    forall a, b ::
      (a in rows && b in rows && rows[a].direction == "received" && rows[b].direction == "received"
       && rows[a].remoteId.Some? && rows[a].remoteId == rows[b].remoteId) ==> a == b
  }

  /** A received row may be stored under an id that no received row has. */
  lemma NewRowKeepsAtMostOne(rows: H.Table, rowId: string, row: H.Row, id: string)
    requires AtMostOneEach(rows) && row.direction == "received" && row.remoteId == Some(id)
    requires Received(rows, id) == {}
    ensures AtMostOneEach(H.AddMessage(rows, rowId, row))
  {
    ReceivedMeans(rows, id);
    hide Received;
  }

  lemma ReceivedMeans(rows: H.Table, id: string)
    ensures forall r :: r in rows && rows[r].direction == "received" && rows[r].remoteId == Some(id) ==> r in Received(rows, id)
  {
  }

  lemma ProcessKeepsAtMostOne(c: State, contact: ContactId, envelope: Envelope, draw: Draw)
    requires envelope.Envelope? && AtMostOneEach(c.rows)
    ensures AtMostOneEach(Process(c, contact, envelope, draw).state.rows)
  {
    if IsMessage(envelope) && Received(c.rows, envelope.id) == {} {
      NewRowKeepsAtMostOne(c.rows, draw.rowId, ReceivedRow(contact, envelope, draw.now), envelope.id);
      var added := c.(rows := H.AddMessage(c.rows, draw.rowId, ReceivedRow(contact, envelope, draw.now)));
      DeliverKeepsTheRest(added, contact, Same(ReceiptFor(envelope.id)), draw.delivery);
    }
  }

  lemma NextKeepsAtMostOne(c: State, e: Event)
    requires AtMostOneEach(c.rows)
    ensures AtMostOneEach(Next(c, e).rows)
  {
    match e
    case Arrives(blob, place, draw, _) =>
      var h := Inspect(c, place, blob, draw.newKey);
      if !h.Ignored? {
        assert Saved(c, h).rows == c.rows;
        ProcessKeepsAtMostOne(Saved(c, h), Sender(h), h.envelope, draw);
      }
    case Sends(contact, rowId, now, letter, delivery) =>
      DeliverKeepsTheRest(c, contact, letter, delivery);
    case Adds(contact) =>
  }

  /** Over any run, with any blobs from anyone, no envelope id ever has two received rows. */
  lemma {:induction false} AtMostOneRowPerEnvelope(c: State, events: seq<Event>, id: string)
    requires AtMostOneEach(c.rows)
    ensures AtMostOneEach(Run(c, events).rows)
    ensures |Received(Run(c, events).rows, id)| <= 1
    decreases |events|
  {
    if events != [] {
      NextKeepsAtMostOne(c, events[0]);
      AtMostOneRowPerEnvelope(Next(c, events[0]), events[1..], id);
    } else {
      AtMostOneReceived(c.rows, id);
    }
  }

  lemma AtMostOneReceived(rows: H.Table, id: string)
    requires AtMostOneEach(rows)
    ensures |Received(rows, id)| <= 1
  {
    var found := Received(rows, id);
    if found != {} {
      var r :| r in found;
      assert found == {r};
    }
  }

  // ---------------------------------------------------------------- one-time prekeys

  function Opks(c: State): map<int, nat> {
    if c.prekeys.Some? then c.prekeys.value.opks else map[]
  }

  /** The one-time prekey a step spends: the one its accepted first message names. */
  function Spends(c: State, e: Event): Option<int> {
    if e.Arrives? && Inspect(c, e.place, e.blob, e.draw.newKey).Accepted?
    then Inspect(c, e.place, e.blob, e.draw.newKey).opkId
    else None
  }

  lemma SavingSpends(c: State, place: Option<Place>, blob: Blob, newKey: nat)
    ensures var h := Inspect(c, place, blob, newKey);
            var spent := if h.Accepted? then h.opkId else None;
            && Opks(Saved(c, h)) == (if spent.Some? then Opks(c) - {spent.value} else Opks(c))
            && (spent.Some? ==> spent.value in Opks(c))
  {
    hide Attempt;
    var h := Inspect(c, place, blob, newKey);
    if h.Accepted? {
      assert c.prekeys.Some? && (h.opkId.Some? ==> h.opkId.value in c.prekeys.value.opks);
    }
    hide Inspect;
  }

  /** A step removes exactly the key it spends; anything but an accepted first message spends nothing. */
  lemma OnlyAcceptanceSpends(c: State, e: Event)
    ensures Opks(Next(c, e)) == match Spends(c, e) case None => Opks(c) case Some(id) => Opks(c) - {id}
    ensures Spends(c, e).Some? ==> Spends(c, e).value in Opks(c)
  {
    match e
    case Arrives(blob, place, draw, _) =>
      var h := Inspect(c, place, blob, draw.newKey);
      if !h.Ignored? {
        ProcessKeepsSessions(Saved(c, h), Sender(h), h.envelope, draw);
        assert Next(c, e).prekeys == Saved(c, h).prekeys;
        SavingSpends(c, place, blob, draw.newKey);
      }
      hide Inspect, Saved, Process;
    case Sends(contact, rowId, now, letter, delivery) =>
      DeliverKeepsTheRest(c, contact, letter, delivery);
    case Adds(contact) =>
  }

  /**
   A blob of an unknown session changes the client only when it was sealed for exactly its header and
   handshake, names our signed prekey and an unspent one-time prekey if any, and carries a proof signed
   for this session id, this handshake and the key we derive from it, by the owner of the enclosed card.
   In every other case nothing is stored and nothing is consumed.
   */
  lemma FailedFirstMessageChangesNothing(c: State, blob: Blob, draw: Draw)
    requires Handle(c, None, blob, draw) != Handled(c, None, [])
    ensures blob.Wire? && blob.packet.context.Some? && c.prekeys.Some?
    ensures var init, box := blob.packet.context.value, blob.packet.box;
            && init.spkId == c.prekeys.value.spkId
            && (init.opkId.Some? ==> init.opkId.value in c.prekeys.value.opks)
            && box.Sealed? && box.ad == AssociatedData(Some(init), blob.packet.header)
            && box.plaintext.Envelope? && box.plaintext.auth.Some? && box.plaintext.auth.value.Signed?
            && var auth := box.plaintext.auth.value;
               && auth.sid == blob.sid && auth.init == init && box.plaintext.card == Some(Card(auth.signer))
               && X.Respond(c.identity, c.prekeys.value.spk,
                            if init.opkId.Some? then Some(c.prekeys.value.opks[init.opkId.value]) else None,
                            init.ek) == Success(auth.sessionKey)
  {
    hide EnterEpoch, TakeKey, Process;
    var h := Inspect(c, None, blob, draw.newKey);
    assert h.Accepted?;
  }

  lemma {:induction false} OpksOnlyShrink(c: State, events: seq<Event>, id: int)
    requires id in Opks(Run(c, events))
    ensures id in Opks(c) && Opks(Run(c, events))[id] == Opks(c)[id]
    decreases |events|
  {
    if events != [] {
      OpksOnlyShrink(Next(c, events[0]), events[1..], id);
      OnlyAcceptanceSpends(c, events[0]);
    }
  }

  lemma {:induction false} RunSplits(c: State, events: seq<Event>, n: nat)
    requires n <= |events|
    ensures Run(c, events) == Run(Run(c, events[..n]), events[n..])
    decreases n
  {
    if n > 0 {
      RunSplits(Next(c, events[0]), events[1..], n - 1);
      assert events[..n][0] == events[0] && events[..n][1..] == events[1..][..n - 1];
      assert events[1..][n - 1..] == events[n..];
    }
  }

  lemma OneStep(c: State, events: seq<Event>, n: nat)
    requires n < |events|
    ensures Run(c, events[..n + 1]) == Next(Run(c, events[..n]), events[n])
  {
    RunSplits(c, events[..n + 1], n);
    assert events[..n + 1][..n] == events[..n] && events[..n + 1][n..] == [events[n]];
    assert Run(Next(Run(c, events[..n]), events[n]), []) == Next(Run(c, events[..n]), events[n]);
    assert [events[n]][1..] == [];
  }

  /** A round's blobs as steps of a run; `sources` labels them for the reader and changes nothing. */
  function Arrivals(places: seq<Option<Place>>, blobs: seq<Blob>, draws: seq<Draw>, sources: seq<Option<(nat, Envelope)>>): (events: seq<Event>)
    requires |places| == |blobs| == |draws| == |sources|
    ensures |events| == |blobs|
    ensures forall i :: 0 <= i < |blobs| ==> events[i] == Arrives(blobs[i], places[i], draws[i], sources[i])
  {
    seq(|blobs|, (i: nat) requires i < |blobs| => Arrives(blobs[i], places[i], draws[i], sources[i]))
  }

  /** A round of `sync` is a run of arrivals, so what holds of runs holds across rounds. */
  lemma {:induction false} SyncIsARun(c: State, places: seq<Option<Place>>, blobs: seq<Blob>, draws: seq<Draw>, sources: seq<Option<(nat, Envelope)>>)
    requires |places| == |blobs| == |draws| == |sources|
    ensures HandleAll(c, places, blobs, draws).0 == Run(c, Arrivals(places, blobs, draws, sources))
    decreases |blobs|
  {
    if blobs != [] {
      hide Handle;
      var k := |blobs| - 1;
      var events := Arrivals(places, blobs, draws, sources);
      SyncIsARun(c, places[..k], blobs[..k], draws[..k], sources[..k]);
      assert events[..k] == Arrivals(places[..k], blobs[..k], draws[..k], sources[..k]);
      OneStep(c, events, k);
      assert events[..k + 1] == events;
    }
  }

  /**
   Over any run, two accepted first messages never share a one-time prekey: their ids differ, and with
   distinct private keys in the store so do the private keys behind the two sessions.
   */
  lemma OneTimeKeyBacksOneSession(c: State, events: seq<Event>, i: nat, j: nat)
    requires i < j < |events|
    requires Spends(Run(c, events[..i]), events[i]).Some? && Spends(Run(c, events[..j]), events[j]).Some?
    requires forall a, b :: a in Opks(c) && b in Opks(c) && Opks(c)[a] == Opks(c)[b] ==> a == b
    ensures var first := Spends(Run(c, events[..i]), events[i]).value;
            var second := Spends(Run(c, events[..j]), events[j]).value;
            && first != second
            && first in Opks(c) && second in Opks(c) && Opks(c)[first] != Opks(c)[second]
  {
    hide Next, Spends, Opks, Run;
    var before, after := Run(c, events[..i]), Run(c, events[..i + 1]);
    var first := Spends(before, events[i]).value;
    var second := Spends(Run(c, events[..j]), events[j]).value;
    OneStep(c, events, i);
    OnlyAcceptanceSpends(before, events[i]);
    OnlyAcceptanceSpends(Run(c, events[..j]), events[j]);
    RunSplits(c, events[..j], i + 1);
    assert events[..j][..i + 1] == events[..i + 1];
    OpksOnlyShrink(after, events[..j][i + 1..], second);
    OpksOnlyShrink(c, events[..i], first);
    OpksOnlyShrink(c, events[..j], second);
  }
}

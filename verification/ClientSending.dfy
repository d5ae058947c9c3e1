/**
 The sender's side of a session nobody answers. A fan-out seals and puts one copy per device and saves the
 sessions only at its end, so a failure rolls back the message numbers of copies that a relay already stored.
 */
module ClientSending {
  import opened Wrappers
  import opened SymbolicCrypto
  import opened RatchetModel
  import opened RatchetChain
  import opened RatchetStem
  import opened ClientModel
  import opened ClientRuns
  import opened ClientDelivery
  import H = History
  import X = X3dh

  // ---------------------------------------------------------------- one fan-out

  /** The blobs a fan-out stored for one device. */
  function For(posted: seq<Posted>, device: DeviceId): seq<Blob>
    decreases |posted|
  {
    if posted == [] then []
    else
      var before, last := For(posted[..|posted| - 1], device), posted[|posted| - 1];
      if last.device == device then before + [last.blob] else before
  }

  /** A session as `_start_session` makes it: pending, and at the start of its sending chain. */
  ghost predicate New(session: Session) {
    && !session.established && session.sessionKey.Some? && session.init.Some?
    && session.ratchet.sendingChain.Some? && session.ratchet.selfKey.Some? && session.ratchet.sendCount == 0
  }

  /** The session once `k` messages were sealed in it. */
  function After(session: Session, k: nat): Session
    requires session.ratchet.sendingChain.Some?
  {
    session.(ratchet := session.ratchet.(
      sendingChain := Some(Advance(session.ratchet.sendingChain.value, k)), sendCount := k))
  }

  /** The blob is `letter` with proof and card, sealed as message `k` of the session. */
  ghost predicate SealedAs(account: ContactId, session: Session, k: nat, letter: Envelope, blob: Blob)
    requires New(session)
  {
    && blob.Wire? && blob.sid == session.sid && blob.packet.context == session.init
    && Genuine(blob.packet, Point(session.ratchet.selfKey.value), session.ratchet.sendingChain.value, k,
               Dressed(account, session, letter))
  }

  /** The blobs are `letter`, sealed as consecutive messages from `k` on. */
  ghost predicate AllSealed(account: ContactId, session: Session, k: nat, letter: Envelope, blobs: seq<Blob>)
    requires New(session)
  {
    forall i :: 0 <= i < |blobs| ==> SealedAs(account, session, k + i, letter, blobs[i])
  }

  /** Sealing takes the key at the session's count and moves it one on. */
  lemma SealingIsGenuine(account: ContactId, session: Session, k: nat, letter: Envelope, nonce: nat)
    requires New(session)
    ensures After(session, 0) == session
    ensures var sealed := SealIn(account, After(session, k), letter, nonce);
            && sealed.Some? && sealed.value.0 == After(session, k + 1)
            && SealedAs(account, session, k, letter, sealed.value.1)
  {
  }

  /** What a fan-out does to one device's session: its copies are numbered on from where the session stood. */
  lemma {:induction false} FanOutNumbers(account: ContactId, outbound: map<DeviceId, Session>, copies: seq<Copy>,
                                         letter: DeviceId -> Envelope, d: DeviceId, session: Session, k: nat)
    requires New(session) && d in outbound && outbound[d] == After(session, k)
    ensures var fan := FannedOut(account, outbound, copies, letter);
            var blobs := For(fan.posted, d);
            && AllSealed(account, session, k, letter(d), blobs)
            && (fan.outbound.Some? ==> d in fan.outbound.value && fan.outbound.value[d] == After(session, k + |blobs|))
    decreases |copies|
  {
    hide SealedAs, SealIn, AddCopy, After, New;
    if copies != [] {
      var earlier, copy := copies[..|copies| - 1], copies[|copies| - 1];
      FanOutNumbers(account, outbound, earlier, letter, d, session, k);
      var before := FannedOut(account, outbound, earlier, letter);
      if before.outbound.Some? {
        AddedCopyNumber(account, before.outbound.value, before.posted, copy, letter, d, session, k);
      }
    }
  }

  lemma AddedCopyNumber(account: ContactId, outbound: map<DeviceId, Session>, posted: seq<Posted>, copy: Copy,
                        letter: DeviceId -> Envelope, d: DeviceId, session: Session, k: nat)
    requires New(session) && d in outbound && outbound[d] == After(session, k + |For(posted, d)|)
    requires AllSealed(account, session, k, letter(d), For(posted, d))
    ensures var fan := AddCopy(account, outbound, posted, copy, letter);
            var blobs := For(fan.posted, d);
            && AllSealed(account, session, k, letter(d), blobs)
            && (fan.outbound.Some? ==> d in fan.outbound.value && fan.outbound.value[d] == After(session, k + |blobs|))
  {
    hide SealIn, SealedAs, After, For, AllSealed;
    if copy.device in outbound {
      var sealed := SealIn(account, outbound[copy.device], letter(copy.device), copy.nonce);
      if sealed.Some? {
        ForAppend(posted, Posted(copy.device, sealed.value.1), d);
        if copy.device == d {
          SealingIsGenuine(account, session, k + |For(posted, d)|, letter(d), copy.nonce);
          AllSealedAppend(account, session, k, letter(d), For(posted, d), sealed.value.1);
        }
      }
    }
  }

  lemma ForAppend(posted: seq<Posted>, one: Posted, d: DeviceId)
    ensures For(posted + [one], d) == if one.device == d then For(posted, d) + [one.blob] else For(posted, d)
  {
    assert (posted + [one])[..|posted|] == posted;
  }

  lemma AllSealedAppend(account: ContactId, session: Session, k: nat, letter: Envelope, blobs: seq<Blob>, blob: Blob)
    requires New(session) && AllSealed(account, session, k, letter, blobs)
    requires SealedAs(account, session, k + |blobs|, letter, blob)
    ensures AllSealed(account, session, k, letter, blobs + [blob])
  {
    hide SealedAs;
  }

  // ---------------------------------------------------------------- runs of the sender

  /** A fan-out that a step makes: the state it runs in, to whom, and what. */
  datatype Sending = Sending(state: State, contact: ContactId, letter: DeviceId -> Envelope, delivery: Delivery)

  function SendingOf(c: State, e: Event): Option<Sending> {
    match e
    case Sends(contact, _, _, letter, delivery) => Some(Sending(c, contact, letter, delivery))
    case Adds(_) => None
    case Arrives(blob, place, draw, _) =>
      var h := Inspect(c, place, blob, draw.newKey);
      if h.Ignored? || !IsMessage(h.envelope) || Received(c.rows, h.envelope.id) != {} then None
      else
        var saved := Saved(c, h);
        Some(Sending(saved.(rows := H.AddMessage(saved.rows, draw.rowId, ReceivedRow(Sender(h), h.envelope, draw.now))),
                     Sender(h), Same(ReceiptFor(h.envelope.id)), draw.delivery))
  }

  /** The copies one step stored for the device at `p`, what they say, and whether the session was saved after them. */
  datatype Batch = Batch(blobs: seq<Blob>, letter: Envelope, saved: bool)

  function BatchOf(c: State, e: Event, p: Place): Batch {
    match SendingOf(c, e)
    case None => Batch([], Garbled, true)
    case Some(s) =>
      if s.contact != p.contact then Batch([], Garbled, true)
      else
        var sent := Deliver(s.state, s.contact, s.letter, s.delivery);
        Batch(For(sent.posted, p.key), s.letter(p.key), sent.ok)
  }

  function Log(c: State, events: seq<Event>, p: Place): (log: seq<Batch>)
    ensures |log| == |events|
    decreases |events|
  {
    if events == [] then [] else [BatchOf(c, events[0], p)] + Log(Next(c, events[0]), events[1..], p)
  }

  /** Nobody answers in the session at `p`: our inbound sessions never send, and neither do the peer's. */
  ghost predicate Unanswered(c: State, e: Event, p: Place) {
    e.Arrives? ==> var h := Inspect(c, e.place, e.blob, e.draw.newKey); !(h.Resumed? && h.place == p)
  }

  ghost predicate Quiet(c: State, events: seq<Event>, p: Place)
    decreases |events|
  {
    events == [] || (Unanswered(c, events[0], p) && Quiet(Next(c, events[0]), events[1..], p))
  }

  /** How many message numbers the saved batches have used up. */
  function Used(log: seq<Batch>): nat
    decreases |log|
  {
    if log == [] then 0
    else Used(log[..|log| - 1]) + Moved(log[|log| - 1])
  }

  /** The message number of copy `i` of batch `b`. */
  function Number(log: seq<Batch>, b: nat, i: nat): nat
    requires b < |log|
  {
    Used(log[..b]) + i
  }

  /** The session a delivery uses for the device at `p`, stored before or just started, is `session` after `k` messages. */
  ghost predicate Uses(c: State, delivery: Delivery, p: Place, session: Session, k: nat)
    requires New(session)
  {
    delivery.Prepared? && p.contact in c.contacts ==>
      var outbound := Ensured(c.contacts[p.contact].outbound, delivery);
      p.key in outbound && outbound[p.key] == After(session, k)
  }

  lemma DeliveryNumbers(c: State, letter: DeviceId -> Envelope, delivery: Delivery, p: Place, session: Session, k: nat)
    requires New(session) && p.bucket == Outbound && Uses(c, delivery, p, session, k)
    ensures var sent := Deliver(c, p.contact, letter, delivery);
            var blobs := For(sent.posted, p.key);
            && AllSealed(c.account, session, k, letter(p.key), blobs)
            && (if sent.ok then SessionAt(sent.state, p) == Some(After(session, k + |blobs|)) else sent.state == c)
  {
    hide FannedOut, After, SealedAs, AllSealed, For, New, Ensured;
    NothingSealed(c.account, session, k, letter(p.key), p.key);
    if delivery.Prepared? && p.contact in c.contacts {
      var outbound := Ensured(c.contacts[p.contact].outbound, delivery);
      FanOutNumbers(c.account, outbound, delivery.copies, letter, p.key, session, k);
    }
  }

  lemma NothingSealed(account: ContactId, session: Session, k: nat, letter: Envelope, d: DeviceId)
    requires New(session)
    ensures For([], d) == [] && AllSealed(account, session, k, letter, [])
  {
  }

  /** Sending happens after everything else a step does to the session. */
  lemma SendingKeepsSlot(c: State, e: Event, p: Place)
    requires p.bucket == Outbound && Unanswered(c, e, p) && SessionAt(c, p).Some?
    ensures SendingOf(c, e).Some? ==>
              && SessionAt(SendingOf(c, e).value.state, p) == SessionAt(c, p)
              && SendingOf(c, e).value.state.account == c.account
  {
    hide Inspect;
  }

  /** The session at `p` is `session` with `k` messages sealed. */
  ghost predicate At(c: State, p: Place, session: Session, k: nat) {
    New(session) && p.bucket == Outbound && SessionAt(c, p) == Some(After(session, k))
  }

  /** How many message numbers a batch uses up. */
  function Moved(batch: Batch): nat {
    if batch.saved then |batch.blobs| else 0
  }

  /** What one step does to the session at `p`. */
  lemma StepNumbers(c: State, e: Event, p: Place, session: Session, k: nat)
    requires At(c, p, session, k) && Unanswered(c, e, p)
    ensures var batch := BatchOf(c, e, p);
            && AllSealed(c.account, session, k, batch.letter, batch.blobs)
            && At(Next(c, e), p, session, k + Moved(batch))
            && Next(c, e).account == c.account
  {
    hide After, AllSealed, SendingOf, Deliver, Next, SessionAt, Unanswered, For, New;
    SendingKeepsSlot(c, e, p);
    StepFollowsSending(c, e, p);
    NothingSealed(c.account, session, k, Garbled, p.key);
    var sending := SendingOf(c, e);
    if sending.Some? && sending.value.contact == p.contact {
      StoredIsUsed(sending.value.state, sending.value.delivery, p, session, k);
      DeliveryNumbers(sending.value.state, sending.value.letter, sending.value.delivery, p, session, k);
    }
  }

  lemma StoredIsUsed(c: State, delivery: Delivery, p: Place, session: Session, k: nat)
    requires New(session) && p.bucket == Outbound && SessionAt(c, p) == Some(After(session, k))
    ensures Uses(c, delivery, p, session, k)
  {
    hide After, New, Addressed;
  }

  /** A step leaves the session at `p` as its fan-out to that contact does, if it makes one. */
  lemma StepFollowsSending(c: State, e: Event, p: Place)
    requires p.bucket == Outbound && Unanswered(c, e, p) && SessionAt(c, p).Some?
    ensures Next(c, e).account == c.account
    ensures var sending := SendingOf(c, e);
            if sending.Some? && sending.value.contact == p.contact then
              var s := sending.value;
              SessionAt(Next(c, e), p) == SessionAt(Deliver(s.state, s.contact, s.letter, s.delivery).state, p)
            else SessionAt(Next(c, e), p) == SessionAt(c, p)
  {
    match e
    case Arrives(_, _, _, _) =>
      ArrivalSends(c, e);
      SendingKeepsSlot(c, e, p);
      OtherContactsUntouched(c, e, p);
    case Sends(contact, rowId, now, letter, delivery) =>
      FailedDeliveryKeepsAll(Sending(c, contact, letter, delivery));
      DeliverKeepsTheRest(c, contact, letter, delivery);
      hide Deliver;
    case Adds(contact) =>
  }

  /** An arrival ends in the state its receipt leaves, or, without one, changes rows only after the save. */
  lemma ArrivalSends(c: State, e: Event)
    requires e.Arrives?
    ensures var sending := SendingOf(c, e);
            if sending.Some? then
              var s := sending.value;
              Next(c, e) == Deliver(s.state, s.contact, s.letter, s.delivery).state
            else
              var h := Inspect(c, e.place, e.blob, e.draw.newKey);
              Next(c, e) == Saved(c, h).(rows := Next(c, e).rows)
  {
    assert Saved(c, Inspect(c, e.place, e.blob, e.draw.newKey)).rows == c.rows;
    hide Inspect, Saved, Deliver;
  }

  lemma OtherContactsUntouched(c: State, e: Event, p: Place)
    requires e.Arrives? && p.bucket == Outbound && Unanswered(c, e, p) && SessionAt(c, p).Some?
    ensures Next(c, e).account == c.account
    ensures var sending := SendingOf(c, e);
            sending.None? || sending.value.contact != p.contact ==> SessionAt(Next(c, e), p) == SessionAt(c, p)
  {
    ArrivalSends(c, e);
    SendingKeepsSlot(c, e, p);
    var sending := SendingOf(c, e);
    if sending.Some? {
      var s := sending.value;
      DeliverKeepsTheRest(s.state, s.contact, s.letter, s.delivery);
      hide Inspect, Deliver, SendingOf, Next;
    } else {
      var h := Inspect(c, e.place, e.blob, e.draw.newKey);
      SavingKeepsSlot(c, e, p);
      hide Inspect, Saved, Next;
    }
  }

  lemma SavingKeepsSlot(c: State, e: Event, p: Place)
    requires e.Arrives? && p.bucket == Outbound && Unanswered(c, e, p) && SessionAt(c, p).Some?
    ensures var saved := Saved(c, Inspect(c, e.place, e.blob, e.draw.newKey));
            SessionAt(saved, p) == SessionAt(c, p) && saved.account == c.account
  {
    hide Inspect;
  }

  lemma FailedDeliveryKeepsAll(s: Sending)
    ensures var sent := Deliver(s.state, s.contact, s.letter, s.delivery); !sent.ok ==> sent.state == s.state
  {
  }

  lemma UsedPrepend(first: Batch, rest: seq<Batch>)
    ensures Used([first] + rest) == Moved(first) + Used(rest)
    decreases |rest|
  {
    var all := [first] + rest;
    if rest == [] {
      assert all[..0] == [];
    } else {
      var k := |rest| - 1;
      assert all[..|all| - 1] == [first] + rest[..k];
      UsedPrepend(first, rest[..k]);
    }
  }

  ghost predicate IsCopy(log: seq<Batch>, b: nat, i: nat) {
    b < |log| && i < |log[b].blobs|
  }

  /** Every copy in the log is the message that its place in the log numbers, counted from `k`. */
  ghost predicate Numbered(account: ContactId, session: Session, k: nat, log: seq<Batch>)
    requires New(session)
  {
    forall b: nat, i: nat :: IsCopy(log, b, i) ==>
      SealedAs(account, session, k + Number(log, b, i), log[b].letter, log[b].blobs[i])
  }

  lemma NumberedPrepend(account: ContactId, session: Session, k: nat, batch: Batch, rest: seq<Batch>)
    requires New(session)
    requires AllSealed(account, session, k, batch.letter, batch.blobs)
    requires Numbered(account, session, k + Moved(batch), rest)
    ensures Numbered(account, session, k, [batch] + rest)
  {
    var log := [batch] + rest;
    var moved := Moved(batch);
    NothingUsed();
    hide SealedAs, Used, New, Moved;
    forall b: nat, i: nat | IsCopy(log, b, i)
      ensures SealedAs(account, session, k + Number(log, b, i), log[b].letter, log[b].blobs[i])
    {
      if b == 0 {
        assert log[..0] == [];
      } else {
        assert log[..b] == [batch] + rest[..b - 1] && log[b] == rest[b - 1];
        UsedPrepend(batch, rest[..b - 1]);
        assert IsCopy(rest, b - 1, i) && Number(log, b, i) == moved + Number(rest, b - 1, i);
      }
    }
  }

  lemma NothingUsed()
    ensures Used([]) == 0
  {
  }

  /** A run numbers the copies it stores one after the other from `k`, and leaves the session past the saved ones. */
  ghost predicate RunNumbers(c: State, events: seq<Event>, p: Place, session: Session, k: nat)
    requires New(session)
  {
    && Numbered(c.account, session, k, Log(c, events, p))
    && At(Run(c, events), p, session, k + Used(Log(c, events, p)))
  }

  lemma FirstStepNumbers(c: State, events: seq<Event>, p: Place, session: Session, k: nat)
    requires New(session) && events != [] && At(c, p, session, k) && Unanswered(c, events[0], p)
    requires RunNumbers(Next(c, events[0]), events[1..], p, session, k + Moved(BatchOf(c, events[0], p)))
    ensures RunNumbers(c, events, p, session, k)
  {
    hide At, AllSealed, BatchOf, Next, Used, Numbered, Quiet, Log, Run, Unanswered, Moved, New;
    var next, batch := Next(c, events[0]), BatchOf(c, events[0], p);
    var rest := Log(next, events[1..], p);
    RunUnfolds(c, events, p);
    StepNumbers(c, events[0], p, session, k);
    NumberedPrepend(c.account, session, k, batch, rest);
    UsedPrepend(batch, rest);
    assert k + Moved(batch) + Used(rest) == k + Used([batch] + rest);
  }

  /** Over any run in which nobody answers, every copy stored is the message its place in the log numbers. */
  lemma {:induction false} CopiesAreNumbered(c: State, events: seq<Event>, p: Place, session: Session, k: nat)
    requires At(c, p, session, k) && Quiet(c, events, p)
    ensures New(session) && RunNumbers(c, events, p, session, k)
    decreases |events|
  {
    assert New(session);
    hide At, AllSealed, BatchOf, Next, RunNumbers, Unanswered, Quiet, New;
    if events == [] {
      NothingRun(c, p, session, k);
    } else {
      RunUnfolds(c, events, p);
      StepNumbers(c, events[0], p, session, k);
      CopiesAreNumbered(Next(c, events[0]), events[1..], p, session, k + Moved(BatchOf(c, events[0], p)));
      FirstStepNumbers(c, events, p, session, k);
    }
  }

  lemma NothingRun(c: State, p: Place, session: Session, k: nat)
    requires New(session) && At(c, p, session, k)
    ensures RunNumbers(c, [], p, session, k)
  {
    hide At;
  }

  lemma RunUnfolds(c: State, events: seq<Event>, p: Place)
    requires events != []
    ensures var next := Next(c, events[0]);
            && Run(c, events) == Run(next, events[1..])
            && Log(c, events, p) == [BatchOf(c, events[0], p)] + Log(next, events[1..], p)
            && (Quiet(c, events, p) ==> Unanswered(c, events[0], p) && Quiet(next, events[1..], p))
  {
    hide BatchOf, Next, Unanswered;
  }

  // ---------------------------------------------------------------- from the step that starts the session

  /** The step starts `session` for the device at `p`, which had none. */
  ghost predicate Starts(c: State, e: Event, p: Place, session: Session) {
    && New(session) && p.bucket == Outbound && SendingOf(c, e).Some?
    && var s := SendingOf(c, e).value;
       && s.contact == p.contact && s.contact in s.state.contacts && SessionAt(s.state, p) == None
       && s.delivery.Prepared? && Addressed(s.delivery.copies, p.key)
       && p.key in s.delivery.started && s.delivery.started[p.key] == session
  }

  /** The run starts with that step; nobody answers in the session once it is saved. */
  ghost predicate Opens(c: State, events: seq<Event>, p: Place, session: Session) {
    && events != [] && Starts(c, events[0], p, session)
    && (BatchOf(c, events[0], p).saved ==> Quiet(Next(c, events[0]), events[1..], p))
  }

  /** What is sealed in the session: if the fan-out that starts it fails, the session is forgotten with it. */
  function LogOf(c: State, events: seq<Event>, p: Place): (log: seq<Batch>)
    requires events != []
    ensures log != []
  {
    var first := BatchOf(c, events[0], p);
    if first.saved then [first] + Log(Next(c, events[0]), events[1..], p) else [first]
  }

  lemma StartedIsUsed(c: State, e: Event, p: Place, session: Session)
    requires Starts(c, e, p, session)
    ensures Uses(SendingOf(c, e).value.state, SendingOf(c, e).value.delivery, p, session, 0)
  {
    hide SendingOf, New, Addressed;
    assert After(session, 0) == session by {
      SealingIsGenuine("", session, 0, Garbled, 0);
    }
    hide After;
  }

  /** A step that sends to a contact leaves the contact's sessions as the fan-out does. */
  lemma SendingStepEnds(c: State, e: Event, p: Place)
    requires SendingOf(c, e).Some?
    ensures var s := SendingOf(c, e).value;
            && s.state.account == c.account
            && SessionAt(Next(c, e), p) == SessionAt(Deliver(s.state, s.contact, s.letter, s.delivery).state, p)
  {
    match e
    case Arrives(_, _, _, _) =>
      ArrivalSends(c, e);
      hide Inspect, Deliver;
    case Sends(contact, rowId, now, letter, delivery) =>
      FailedDeliveryKeepsAll(Sending(c, contact, letter, delivery));
      DeliverKeepsTheRest(c, contact, letter, delivery);
      hide Deliver;
    case Adds(contact) =>
  }

  lemma StartNumbers(c: State, e: Event, p: Place, session: Session)
    requires Starts(c, e, p, session)
    ensures var batch := BatchOf(c, e, p);
            && AllSealed(c.account, session, 0, batch.letter, batch.blobs)
            && (if batch.saved then |batch.blobs| >= 1 && At(Next(c, e), p, session, |batch.blobs|)
                else SessionAt(Next(c, e), p) == None)
    ensures Next(c, e).account == c.account
  {
    hide After, AllSealed, SendingOf, Deliver, Next, SessionAt, For, New, Uses, Addressed, Inspect;
    StartedIsUsed(c, e, p, session);
    SendingStepEnds(c, e, p);
    NextKeepsAccount(c, e);
    BatchOfSending(c, e, p);
    var s := SendingOf(c, e).value;
    hide BatchOf;
    DeliveryNumbers(s.state, s.letter, s.delivery, p, session, 0);
    if Deliver(s.state, s.contact, s.letter, s.delivery).ok {
      SavedDeliveryReachesAll(s.state, s.contact, s.letter, s.delivery, p.key);
    }
  }

  lemma SavedDeliveryReachesAll(c: State, contact: ContactId, letter: DeviceId -> Envelope, delivery: Delivery, d: DeviceId)
    requires delivery.Prepared? && Addressed(delivery.copies, d) && Deliver(c, contact, letter, delivery).ok
    ensures For(Deliver(c, contact, letter, delivery).posted, d) != []
  {
    hide FannedOut, For, Addressed;
    CompletedReachesAll(c.account, Ensured(c.contacts[contact].outbound, delivery), delivery.copies, letter, d);
  }

  lemma BatchOfSending(c: State, e: Event, p: Place)
    requires SendingOf(c, e).Some? && SendingOf(c, e).value.contact == p.contact
    ensures var s := SendingOf(c, e).value;
            var sent := Deliver(s.state, s.contact, s.letter, s.delivery);
            BatchOf(c, e, p) == Batch(For(sent.posted, p.key), s.letter(p.key), sent.ok)
  {
    hide SendingOf, Deliver, For;
  }

  /** A fan-out that completes has stored a copy for every device addressed. */
  lemma {:induction false} CompletedReachesAll(account: ContactId, outbound: map<DeviceId, Session>, copies: seq<Copy>,
                                               letter: DeviceId -> Envelope, d: DeviceId)
    requires Addressed(copies, d) && FannedOut(account, outbound, copies, letter).outbound.Some?
    ensures For(FannedOut(account, outbound, copies, letter).posted, d) != []
    decreases |copies|
  {
    var earlier, copy := copies[..|copies| - 1], copies[|copies| - 1];
    var before := FannedOut(account, outbound, earlier, letter);
    if copy.device != d {
      var i :| 0 <= i < |copies| && copies[i].device == d;
      assert earlier[i].device == d;
      CompletedReachesAll(account, outbound, earlier, letter, d);
    }
    var sealed := SealIn(account, before.outbound.value[copy.device], letter(copy.device), copy.nonce);
    ForAppend(before.posted, Posted(copy.device, sealed.value.1), d);
    hide SealIn, For;
  }

  lemma NextKeepsAccount(c: State, e: Event)
    ensures Next(c, e).account == c.account
  {
    match e
    case Arrives(blob, place, draw, _) =>
      var h := Inspect(c, place, blob, draw.newKey);
      if !h.Ignored? {
        ProcessKeepsSessions(Saved(c, h), Sender(h), h.envelope, draw);
      }
      hide Inspect, Process;
    case Sends(contact, rowId, now, letter, delivery) =>
      DeliverKeepsTheRest(c, contact, letter, delivery);
      hide Deliver;
    case Adds(contact) =>
  }

  /**
   From the step that starts a session on, every copy sealed in it is the message that its place in the log
   numbers, counted from zero. If its first fan-out completed, the session is in the store, with a message sealed
   and past the saved copies; otherwise it is forgotten, and the copies of that fan-out are all there is of it.
   */
  lemma SessionIsNumbered(c: State, events: seq<Event>, p: Place, session: Session)
    requires Opens(c, events, p, session)
    ensures var log := LogOf(c, events, p);
            && Numbered(c.account, session, 0, log)
            && (if log[0].saved then Used(log) >= 1 && At(Run(c, events), p, session, Used(log))
                else |log| == 1 && SessionAt(Next(c, events[0]), p) == None)
  {
    assert New(session);
    hide At, AllSealed, BatchOf, Next, Used, Numbered, Quiet, Log, Run, Starts, New, SessionAt;
    StartNumbers(c, events[0], p, session);
    var batch := BatchOf(c, events[0], p);
    if batch.saved {
      SavedStartIsNumbered(c, events, p, session);
    } else {
      OneBatchNumbered(c.account, session, batch);
    }
  }

  lemma SavedStartIsNumbered(c: State, events: seq<Event>, p: Place, session: Session)
    requires events != [] && New(session) && Quiet(Next(c, events[0]), events[1..], p)
    requires var batch, next := BatchOf(c, events[0], p), Next(c, events[0]);
             && batch.saved && |batch.blobs| >= 1 && next.account == c.account
             && AllSealed(c.account, session, 0, batch.letter, batch.blobs) && At(next, p, session, |batch.blobs|)
    ensures var log := [BatchOf(c, events[0], p)] + Log(Next(c, events[0]), events[1..], p);
            Numbered(c.account, session, 0, log) && Used(log) >= 1 && At(Run(c, events), p, session, Used(log))
  {
    hide At, AllSealed, BatchOf, Next, Used, Numbered, Quiet, Log, Run, New;
    var next, batch := Next(c, events[0]), BatchOf(c, events[0], p);
    var rest := Log(next, events[1..], p);
    RunUnfolds(c, events, p);
    CopiesAreNumbered(next, events[1..], p, session, |batch.blobs|);
    assert 0 + Moved(batch) == |batch.blobs|;
    NumberedPrepend(c.account, session, 0, batch, rest);
    UsedPrepend(batch, rest);
    assert |batch.blobs| + Used(rest) == Used([batch] + rest);
  }

  lemma OneBatchNumbered(account: ContactId, session: Session, batch: Batch)
    requires New(session) && AllSealed(account, session, 0, batch.letter, batch.blobs)
    ensures Numbered(account, session, 0, [batch])
  {
    var log := [batch];
    assert log[..0] == [];
    forall b: nat, i: nat | IsCopy(log, b, i)
      ensures SealedAs(account, session, 0 + Number(log, b, i), log[b].letter, log[b].blobs[i])
    {
    }
  }

  /** No step starts another session under this id: ids are drawn at random. */
  ghost predicate StartsUnderOtherIds(e: Event, sid: Sid) {
    var delivery := if e.Arrives? then e.draw.delivery else if e.Sends? then e.delivery else Unprepared;
    delivery.Prepared? ==> Without(delivery.started, sid)
  }

  ghost predicate NoneOf(blobs: seq<Blob>, sid: Sid) {
    forall i :: 0 <= i < |blobs| ==> blobs[i].Wire? && blobs[i].sid != sid
  }

  ghost predicate Without(outbound: map<DeviceId, Session>, sid: Sid) {
    forall d :: d in outbound ==> outbound[d].sid != sid
  }

  lemma AddedCopySid(account: ContactId, outbound: map<DeviceId, Session>, posted: seq<Posted>, copy: Copy,
                     letter: DeviceId -> Envelope, sid: Sid, d: DeviceId)
    requires Without(outbound, sid) && NoneOf(For(posted, d), sid)
    ensures var fan := AddCopy(account, outbound, posted, copy, letter);
            NoneOf(For(fan.posted, d), sid) && (fan.outbound.Some? ==> Without(fan.outbound.value, sid))
  {
    if copy.device in outbound {
      var sealed := SealIn(account, outbound[copy.device], letter(copy.device), copy.nonce);
      if sealed.Some? {
        ForAppend(posted, Posted(copy.device, sealed.value.1), d);
      }
    }
    hide For;
  }

  /** What a fan-out stores was sealed in one of the sessions it was given. */
  lemma {:induction false} FanOutSids(account: ContactId, outbound: map<DeviceId, Session>, copies: seq<Copy>,
                                      letter: DeviceId -> Envelope, sid: Sid, d: DeviceId)
    requires Without(outbound, sid)
    ensures var fan := FannedOut(account, outbound, copies, letter);
            NoneOf(For(fan.posted, d), sid) && (fan.outbound.Some? ==> Without(fan.outbound.value, sid))
    decreases |copies|
  {
    if copies != [] {
      var earlier, copy := copies[..|copies| - 1], copies[|copies| - 1];
      FanOutSids(account, outbound, earlier, letter, sid, d);
      var before := FannedOut(account, outbound, earlier, letter);
      if before.outbound.Some? {
        AddedCopySid(account, before.outbound.value, before.posted, copy, letter, sid, d);
      }
      hide For, AddCopy, Without, NoneOf;
    }
  }

  lemma DeliverySids(c: State, contact: ContactId, letter: DeviceId -> Envelope, delivery: Delivery, sid: Sid, d: DeviceId)
    requires NoOutbound(c, sid) && (delivery.Prepared? ==> Without(delivery.started, sid))
    ensures var sent := Deliver(c, contact, letter, delivery);
            NoneOf(For(sent.posted, d), sid) && NoOutbound(sent.state, sid)
  {
    DeliverKeepsTheRest(c, contact, letter, delivery);
    var after := Deliver(c, contact, letter, delivery).state;
    if delivery.Prepared? && contact in c.contacts {
      var outbound := Ensured(c.contacts[contact].outbound, delivery);
      forall k | k in outbound ensures outbound[k].sid != sid {
        if k in c.contacts[contact].outbound {
          assert SessionAt(c, Place(contact, Outbound, k)).Some?;
        }
      }
      FanOutSids(c.account, outbound, delivery.copies, letter, sid, d);
      hide FannedOut, Ensured, For, NoneOf;
      if Deliver(c, contact, letter, delivery).ok {
        assert after.contacts[contact].outbound == FannedOut(c.account, outbound, delivery.copies, letter).outbound.value;
      }
      forall p: Place | SessionAt(after, p).Some? && p.bucket == Outbound ensures SessionAt(after, p).value.sid != sid {
        if p.contact != contact || after == c {
          assert SessionAt(after, p) == SessionAt(c, p);
        }
      }
    }
  }

  lemma SavingKeepsNoOutbound(c: State, place: Option<Place>, blob: Blob, draw: Draw, sid: Sid)
    requires NoOutbound(c, sid)
    ensures NoOutbound(Saved(c, Inspect(c, place, blob, draw.newKey)), sid)
  {
    var h := Inspect(c, place, blob, draw.newKey);
    var d := Saved(c, h);
    if h.Resumed? {
      assert h.session.sid == SessionAt(c, h.place).value.sid;
      assert SessionAt(d, h.place) == Some(h.session);
      assert forall p :: p != h.place ==> SessionAt(d, p) == SessionAt(c, p);
    } else if h.Accepted? {
      StoringKeepsSessions(c, h.contact, h.opkId);
      assert forall p: Place :: p.bucket == Outbound ==> SessionAt(d, p) == SessionAt(c, p);
    }
    hide Inspect, Saved;
  }

  /** A step without the session in an outbound slot stores none of its copies and leaves it so. */
  lemma ForgottenStep(c: State, e: Event, sid: Sid, p: Place)
    requires NoOutbound(c, sid) && StartsUnderOtherIds(e, sid)
    ensures NoneOf(BatchOf(c, e, p).blobs, sid) && NoOutbound(Next(c, e), sid)
    ensures SendingOf(c, e).Some? ==> NoOutbound(SendingOf(c, e).value.state, sid)
  {
    var sending := SendingOf(c, e);
    if e.Arrives? {
      SavingKeepsNoOutbound(c, e.place, e.blob, e.draw, sid);
      ArrivalSends(c, e);
    }
    hide Inspect, Saved;
    if sending.Some? {
      var s := sending.value;
      assert s.state.contacts == if e.Arrives? then Saved(c, Inspect(c, e.place, e.blob, e.draw.newKey)).contacts else c.contacts;
      assert NoOutbound(s.state, sid) by {
        SameSessions(s.state, if e.Arrives? then Saved(c, Inspect(c, e.place, e.blob, e.draw.newKey)) else c, sid);
      }
      DeliverySids(s.state, s.contact, s.letter, s.delivery, sid, p.key);
      var after := Deliver(s.state, s.contact, s.letter, s.delivery).state;
      forall q: Place ensures SessionAt(Next(c, e), q) == SessionAt(after, q) {
        SendingStepEnds(c, e, q);
      }
      hide Deliver, SendingOf, Next, For;
    } else {
      hide For, Deliver;
      if e.Arrives? {
        SameSessions(Next(c, e), Saved(c, Inspect(c, e.place, e.blob, e.draw.newKey)), sid);
      }
    }
  }

  lemma SameSessions(c: State, d: State, sid: Sid)
    requires c.contacts == d.contacts
    ensures NoOutbound(c, sid) == NoOutbound(d, sid)
  {
    assert forall p :: SessionAt(c, p) == SessionAt(d, p);
  }

  /** A forgotten session stays forgotten: no later copy is sealed in it. */
  lemma {:induction false} ForgottenSealsNothing(c: State, events: seq<Event>, sid: Sid, p: Place)
    requires NoOutbound(c, sid) && forall j :: 0 <= j < |events| ==> StartsUnderOtherIds(events[j], sid)
    ensures forall b :: 0 <= b < |events| ==> NoneOf(Log(c, events, p)[b].blobs, sid)
    decreases |events|
  {
    if events != [] {
      ForgottenStep(c, events[0], sid, p);
      hide NoOutbound, NoneOf, BatchOf, Next, StartsUnderOtherIds;
      ForgottenSealsNothing(Next(c, events[0]), events[1..], sid, p);
    }
  }

  lemma SendingStateKeepsNoOutbound(c: State, e: Event, sid: Sid)
    requires NoOutbound(c, sid) && SendingOf(c, e).Some?
    ensures NoOutbound(SendingOf(c, e).value.state, sid)
  {
    if e.Arrives? {
      SavingKeepsNoOutbound(c, e.place, e.blob, e.draw, sid);
      hide Inspect, Saved;
      SameSessions(SendingOf(c, e).value.state, Saved(c, Inspect(c, e.place, e.blob, e.draw.newKey)), sid);
    }
  }

  /** The log of a session is complete: whatever else the run stores for the device carries another session id. */
  lemma LogIsComplete(c: State, events: seq<Event>, p: Place, session: Session)
    requires Opens(c, events, p, session) && NoOutbound(c, session.sid)
    requires forall j :: 1 <= j < |events| ==> StartsUnderOtherIds(events[j], session.sid)
    ensures var all, log := Log(c, events, p), LogOf(c, events, p);
            if log[0].saved then log == all
            else log == all[..1] && forall b :: 1 <= b < |events| ==> NoneOf(all[b].blobs, session.sid)
  {
    var first, next, rest := BatchOf(c, events[0], p), Next(c, events[0]), events[1..];
    assert Log(c, events, p) == [first] + Log(next, rest, p);
    if !first.saved {
      FailedStartForgets(c, events[0], p, session);
      hide NoOutbound, NoneOf, BatchOf, Next, StartsUnderOtherIds;
      forall j | 0 <= j < |rest| ensures StartsUnderOtherIds(rest[j], session.sid) {
        assert rest[j] == events[j + 1];
      }
      ForgottenSealsNothing(next, rest, session.sid, p);
      forall b | 1 <= b < |events| ensures NoneOf(Log(c, events, p)[b].blobs, session.sid) {
        assert Log(c, events, p)[b] == Log(next, rest, p)[b - 1];
      }
    }
  }

  /** A first fan-out that fails leaves the session nowhere. */
  lemma FailedStartForgets(c: State, e: Event, p: Place, session: Session)
    requires Starts(c, e, p, session) && NoOutbound(c, session.sid) && !BatchOf(c, e, p).saved
    ensures NoOutbound(Next(c, e), session.sid)
  {
    SendingStateKeepsNoOutbound(c, e, session.sid);
    BatchOfSending(c, e, p);
    var s := SendingOf(c, e).value;
    FailedDeliveryKeepsAll(s);
    forall q: Place ensures SessionAt(Next(c, e), q) == SessionAt(s.state, q) {
      SendingStepEnds(c, e, q);
    }
    hide Next, Deliver, SendingOf, BatchOf, Addressed;
  }

  // ---------------------------------------------------------------- when a number is used twice

  lemma {:induction false} UsedGrows(log: seq<Batch>, a: nat, b: nat)
    requires a <= b <= |log|
    ensures Used(log[..a]) <= Used(log[..b])
    decreases b
  {
    if a < b {
      UsedGrows(log, a, b - 1);
      assert log[..b][..b - 1] == log[..b - 1];
    }
  }

  lemma UsedAfter(log: seq<Batch>, b: nat)
    requires b < |log|
    ensures Used(log[..b + 1]) == Used(log[..b]) + Moved(log[b])
  {
    assert log[..b + 1][..b] == log[..b];
  }

  /** A later copy has the number of copy `(b, i)` too. */
  ghost predicate NumberedAgain(log: seq<Batch>, b: nat, i: nat)
    requires IsCopy(log, b, i)
  {
    exists b': nat, i': nat :: b < b' && IsCopy(log, b', i') && Number(log, b', i') == Number(log, b, i)
  }

  /** A later fan-out got as far as this copy's number. */
  ghost predicate ReachedAgain(log: seq<Batch>, b: nat, i: nat)
    requires IsCopy(log, b, i)
  {
    exists b': nat, i': nat :: b < b' && IsCopy(log, b', i') && Number(log, b', i') >= Number(log, b, i)
  }

  /** Below the first later copy at or past a number there is no gap: some later copy has that number. */
  lemma {:induction false} NoGaps(log: seq<Batch>, b: nat, i: nat, b': nat, i': nat) returns (at: nat, index: nat)
    requires IsCopy(log, b, i) && !log[b].saved && b < b' && IsCopy(log, b', i')
    requires Number(log, b', i') >= Number(log, b, i)
    ensures b < at && IsCopy(log, at, index) && Number(log, at, index) == Number(log, b, i)
    decreases b'
  {
    var n := Number(log, b, i);
    if Used(log[..b']) <= n {
      at, index := b', n - Used(log[..b']);
    } else {
      UsedAfter(log, b);
      assert b + 1 < b';
      UsedAfter(log, b' - 1);
      var last := log[b' - 1];
      if last.saved && last.blobs != [] {
        at, index := NoGaps(log, b, i, b' - 1, |last.blobs| - 1);
      } else {
        at, index := DownTo(log, b, i, b' - 1);
      }
    }
  }

  lemma {:induction false} DownTo(log: seq<Batch>, b: nat, i: nat, top: nat) returns (at: nat, index: nat)
    requires IsCopy(log, b, i) && !log[b].saved && b < top < |log|
    requires Used(log[..top]) > Number(log, b, i)
    ensures b < at && IsCopy(log, at, index) && Number(log, at, index) == Number(log, b, i)
    decreases top
  {
    UsedAfter(log, b);
    assert b + 1 < top;
    UsedAfter(log, top - 1);
    var last, n := log[top - 1], Number(log, b, i);
    if Used(log[..top - 1]) > n {
      at, index := DownTo(log, b, i, top - 1);
    } else {
      at, index := top - 1, n - Used(log[..top - 1]);
    }
  }

  /**
   A message number is sealed a second time exactly when the fan-out that used it failed after this device's
   copy was stored, and a later fan-out got as far again. With one copy per device, as device lists have it,
   the next copy stored for the device is the second of that number.
   */
  lemma NumberedAgainExactlyWhenRolledBack(log: seq<Batch>, b: nat, i: nat)
    requires IsCopy(log, b, i)
    ensures NumberedAgain(log, b, i) <==> !log[b].saved && ReachedAgain(log, b, i)
    ensures NumberedAgain(log, b, 0) <==> !log[b].saved && exists b': nat :: b < b' && IsCopy(log, b', 0)
  {
    Again(log, b, i);
    Again(log, b, 0);
    forall b': nat, i': nat | b < b' && IsCopy(log, b', i')
      ensures IsCopy(log, b', 0) && Number(log, b', 0) >= Number(log, b, 0)
    {
      UsedGrows(log, b, b');
    }
  }

  lemma Again(log: seq<Batch>, b: nat, i: nat)
    requires IsCopy(log, b, i)
    ensures NumberedAgain(log, b, i) <==> !log[b].saved && ReachedAgain(log, b, i)
  {
    if NumberedAgain(log, b, i) {
      var b': nat, i': nat :| b < b' && IsCopy(log, b', i') && Number(log, b', i') == Number(log, b, i);
      UsedAfter(log, b);
      UsedGrows(log, b + 1, b');
    }
    if !log[b].saved && ReachedAgain(log, b, i) {
      var b': nat, i': nat :| b < b' && IsCopy(log, b', i') && Number(log, b', i') >= Number(log, b, i);
      var at, index := NoGaps(log, b, i, b', i');
    }
  }

  /**
   Over the life of a session: a number is sealed in it a second time exactly when an earlier fan-out had saved
   the session, the fan-out that used the number failed after this device's copy was stored, and a later one got
   as far again. The fan-out that starts the session never leads to it: if it fails, the session is forgotten.
   */
  lemma ReusedExactlyWhenSavedBefore(c: State, events: seq<Event>, p: Place, session: Session, b: nat, i: nat)
    requires Opens(c, events, p, session) && IsCopy(LogOf(c, events, p), b, i)
    ensures var log := LogOf(c, events, p);
            && (NumberedAgain(log, b, i) <==> log[0].saved && b > 0 && !log[b].saved && ReachedAgain(log, b, i))
            && (NumberedAgain(log, b, 0) <==>
                  log[0].saved && b > 0 && !log[b].saved && exists b': nat :: b < b' && IsCopy(log, b', 0))
  {
    var log := LogOf(c, events, p);
    SessionIsNumbered(c, events, p, session);
    hide LogOf, Opens, Numbered, At;
    NumberedAgainExactlyWhenRolledBack(log, b, i);
    Again(log, b, 0);
  }

  // ---------------------------------------------------------------- what the peer receives

  /** Everything the log stored, with its message number. */
  ghost function Letters(account: ContactId, session: Session, log: seq<Batch>): set<(nat, Envelope)> {
    set b: nat, i: nat | b < |log| && i < |log[b].blobs| :: (Number(log, b, i), Dressed(account, session, log[b].letter))
  }

  /** The session as its receiver knows it. */
  ghost function PeerOf(account: ContactId, session: Session, log: seq<Batch>): Peer
    requires New(session)
  {
    Peer(account, session.sid, session.init.value, session.sessionKey.value, Point(session.ratchet.selfKey.value),
         session.ratchet.sendingChain.value, Letters(account, session, log))
  }

  /** A session started by the handshake: its sending chain grows from its session key. */
  ghost predicate Rooted(session: Session) {
    && New(session) && session.sessionKey.value.SessionKey?
    && Stem(session.ratchet.sendingChain.value) == session.sessionKey.value
  }

  /** What `_start_session` makes of a handshake is such a session. */
  lemma StartedIsRooted(bundle: X.PrekeyBundle, isign: nat, idh: PublicKey, ek: nat, sid: Sid, firstKey: nat)
    requires X.Initiate(bundle, isign, idh, ek).Success?
    ensures var session := StartSession(sid, X.Initiate(bundle, isign, idh, ek).value, bundle.spk, firstKey);
            session.Some? && Rooted(session.value) && session.value.sid == sid
  {
  }

  /** And if it was made against the bundle of the receiver's own keys, the receiver is ready for it. */
  lemma StartedMakesReady(r: State, account: ContactId, log: seq<Batch>, bundle: X.PrekeyBundle, isign: nat,
                          idh: PublicKey, ek: nat, sid: Sid, firstKey: nat)
    requires X.Initiate(bundle, isign, idh, ek).Success? && r.prekeys.Some? && bundle.spkId == r.prekeys.value.spkId
    requires bundle.opks != [] ==> bundle.opks[0].0 in r.prekeys.value.opks
    requires X.Matches(bundle, r.identity, r.prekeys.value.spk,
                       if bundle.opks == [] then None else Some(r.prekeys.value.opks[bundle.opks[0].0]))
    ensures var session := StartSession(sid, X.Initiate(bundle, isign, idh, ek).value, bundle.spk, firstKey);
            session.Some? && Rooted(session.value) && Ready(r, PeerOf(account, session.value, log))
  {
    StartedIsRooted(bundle, isign, idh, ek, sid, firstKey);
    DhAgreement(firstKey, r.prekeys.value.spk, r.prekeys.value.spk);
    var session := StartSession(sid, X.Initiate(bundle, isign, idh, ek).value, bundle.spk, firstKey).value;
    var peer := PeerOf(account, session, log);
    hide Letters, Ready, X.Initiate;
    HandshakeMakesReady(r, peer, bundle, isign, idh, ek, firstKey);
  }

  ghost predicate Readable(log: seq<Batch>) {
    forall b :: 0 <= b < |log| && log[b].blobs != [] ==> log[b].letter.Envelope?
  }

  /** What the sender's run stored is well sent, and each blob is a copy of its number and letter. */
  lemma StoredCopiesAreThePeers(c: State, events: seq<Event>, p: Place, session: Session)
    requires Rooted(session) && Opens(c, events, p, session) && Readable(LogOf(c, events, p))
    ensures var log := LogOf(c, events, p);
            var peer := PeerOf(c.account, session, log);
            && WellSent(peer)
            && forall b: nat, i: nat :: IsCopy(log, b, i) ==>
                 CopyOf(peer, Number(log, b, i), Dressed(c.account, session, log[b].letter), log[b].blobs[i])
  {
    var log := LogOf(c, events, p);
    var peer := PeerOf(c.account, session, log);
    SessionIsNumbered(c, events, p, session);
    hide LogOf, Opens, Numbered, SealedAs, Rooted, PeerOf, CopyOf;
    StoredAreWellSent(c.account, session, log);
    forall b: nat, i: nat | IsCopy(log, b, i)
      ensures CopyOf(peer, Number(log, b, i), Dressed(c.account, session, log[b].letter), log[b].blobs[i])
    {
      NumberedIsCopy(c.account, session, log, b, i);
    }
  }

  lemma StoredAreWellSent(account: ContactId, session: Session, log: seq<Batch>)
    requires Rooted(session) && Readable(log)
    ensures WellSent(PeerOf(account, session, log))
  {
    hide Number;
  }

  lemma NumberedIsCopy(account: ContactId, session: Session, log: seq<Batch>, b: nat, i: nat)
    requires New(session) && Numbered(account, session, 0, log) && IsCopy(log, b, i)
    ensures CopyOf(PeerOf(account, session, log), Number(log, b, i), Dressed(account, session, log[b].letter), log[b].blobs[i])
  {
    hide Number;
    assert SealedAs(account, session, 0 + Number(log, b, i), log[b].letter, log[b].blobs[i]);
    assert (Number(log, b, i), Dressed(account, session, log[b].letter)) in Letters(account, session, log);
  }

  /** When no number was used again, no number carries two letters. */
  lemma UnrepeatedNumbersSealOnce(account: ContactId, session: Session, log: seq<Batch>, n: nat)
    requires New(session)
    requires forall b: nat, i: nat :: IsCopy(log, b, i) ==> !NumberedAgain(log, b, i)
    ensures SealedOnce(PeerOf(account, session, log), n)
  {
    forall b: nat, i: nat, b': nat, i': nat |
      IsCopy(log, b, i) && IsCopy(log, b', i') && Number(log, b, i) == Number(log, b', i')
      ensures b == b' && i == i'
    {
      SameNumberSamePlace(log, b, i, b', i');
    }
  }

  lemma SameNumberSamePlace(log: seq<Batch>, b: nat, i: nat, b': nat, i': nat)
    requires IsCopy(log, b, i) && IsCopy(log, b', i') && Number(log, b, i) == Number(log, b', i')
    ensures NumberedAgain(log, b, i) || NumberedAgain(log, b', i') || (b == b' && i == i')
  {
  }

  /** Proof and card do not show. */
  lemma DressedShowsTheSame(account: ContactId, session: Session, letter: Envelope, contact: ContactId)
    requires letter.Envelope?
    ensures var dressed := Dressed(account, session, letter);
            dressed.Envelope? && forall row :: Shows(row, contact, dressed) == Shows(row, contact, letter)
  {
  }

  /**
   From end to end over both sides: a text or file message that a relay stored for this device, by a completed
   fan-out or one that failed later, has exactly one received row if its copy is the first presented of its
   number, and none otherwise. So it has one as soon as a copy is presented, unless the number was used again.
   */
  lemma StoredMessageArrivesExactlyWhenFirst(c: State, events: seq<Event>, p: Place, session: Session,
                                             r: State, arrivals: seq<Event>, b: nat, i: nat)
    requires Rooted(session) && Opens(c, events, p, session) && Readable(LogOf(c, events, p))
    requires IsCopy(LogOf(c, events, p), b, i) && IsMessage(LogOf(c, events, p)[b].letter)
    requires var peer := PeerOf(c.account, session, LogOf(c, events, p));
             && Unknown(r, peer.sid) && Ready(r, peer) && AllProper(r, peer) && OwnIds(peer) && AtMostOneEach(r.rows)
             && (forall k, other :: (k, other) in peer.letters && IsMessage(other) ==> Received(r.rows, other.id) == {})
             && Legal(r, peer, arrivals) && WithinReach(0, NumbersOf(Presented(arrivals)))
    ensures var log := LogOf(c, events, p);
            var n, letter := Number(log, b, i), Dressed(c.account, session, log[b].letter);
            && |Received(Run(r, arrivals).rows, letter.id)| == (if FirstOf(Presented(arrivals), n, letter) then 1 else 0)
            && ((forall b: nat, i: nat :: IsCopy(log, b, i) ==> !NumberedAgain(log, b, i)) && (n, letter) in Presented(arrivals)
                ==> |Received(Run(r, arrivals).rows, letter.id)| == 1)
            && (forall x :: x in Received(Run(r, arrivals).rows, letter.id) ==>
                  Shows(Run(r, arrivals).rows[x], c.account, log[b].letter))
  {
    var log := LogOf(c, events, p);
    var peer := PeerOf(c.account, session, log);
    var n, letter := Number(log, b, i), Dressed(c.account, session, log[b].letter);
    StoredCopiesAreThePeers(c, events, p, session);
    assert CopyOf(peer, n, letter, log[b].blobs[i]);
    assert IsMessage(letter);
    if forall b: nat, i: nat :: IsCopy(log, b, i) ==> !NumberedAgain(log, b, i) {
      UnrepeatedNumbersSealOnce(c.account, session, log, n);
    }
    hide Legal, Ready, Run, WellSent, Unknown, AllProper, Opens, LogOf, PeerOf, WithinReach, SealedOnce, OwnIds, FirstOf, NumberedAgain;
    ExactlyOnce(r, peer, arrivals, n, letter);
    DressedShowsTheSame(c.account, session, log[b].letter, peer.contact);
    hide Shows;
  }
}

/**
 A schedule with two devices in which a message is lost that relays accepted for both: the fan-out before it
 failed at the second device, after the first device's copy was stored under the same message number.
 */
module ClientRollback {
  import opened Wrappers
  import opened SymbolicCrypto
  import opened RatchetModel
  import opened RatchetChain
  import opened ClientModel
  import opened ClientRuns
  import opened ClientDelivery
  import opened ClientSending
  import H = History
  import MultiRelay
  import X = X3dh

  // ---------------------------------------------------------------- the two devices and their sessions

  /** What Bob's phone and laptop published: one identity, a signed prekey each, no one-time prekeys left. */
  const PhoneBundle := X.PrekeyBundle(1, 7, Point(1), 1, Point(2), X.Signed(7, 1, 1, Point(2)), [])
  const LaptopBundle := X.PrekeyBundle(2, 7, Point(1), 1, Point(3), X.Signed(7, 2, 1, Point(3)), [])

  const PhoneKey := SessionKey(SharedPoint(1, 10), SharedPoint(2, 10), NoTerm)
  const Chain := ChainKey(PhoneKey, SharedPoint(2, 11))
  const Handshake := InitHeader(Point(10), 1, None)

  const ToPhone := Session(
    100, RatchetState(RootKey(PhoneKey, SharedPoint(2, 11)), Some(Chain), None, Some(11), Some(Point(2)), 0, 0, 0, map[]),
    Some(PhoneKey), Some(Handshake), false)

  const LaptopKey := SessionKey(SharedPoint(1, 20), SharedPoint(3, 20), NoTerm)

  const ToLaptop := Session(
    200, RatchetState(RootKey(LaptopKey, SharedPoint(3, 21)), Some(ChainKey(LaptopKey, SharedPoint(3, 21))), None,
                      Some(21), Some(Point(3)), 0, 0, 0, map[]),
    Some(LaptopKey), Some(InitHeader(Point(20), 1, None)), false)

  /** The two sessions are what `_start_session` makes of the two bundles. */
  lemma SessionsAreStarted()
    ensures var phone := X.Initiate(PhoneBundle, 7, Point(1), 10);
            phone.Success? && StartSession(100, phone.value, PhoneBundle.spk, 11) == Some(ToPhone)
    ensures var laptop := X.Initiate(LaptopBundle, 7, Point(1), 20);
            laptop.Success? && StartSession(200, laptop.value, LaptopBundle.spk, 21) == Some(ToLaptop)
    ensures Rooted(ToPhone)
  {
    X.BothEndsAgree(PhoneBundle, 7, Point(1), 10, 1, 2, None);
  }

  // ---------------------------------------------------------------- what Alice does

  /** Alice has added Bob and never written to him. */
  const Alice := State("alice", 5, "desk", map["bob" := NoSessions], map[], None)

  function Text(id: string): Envelope {
    Envelope(Kind.Text, id, "hello", 0, "", "", None, None)
  }

  function Letter(id: string): DeviceId -> Envelope {
    Same(Text(id))
  }

  function Copies(nonce: nat, laptop: MultiRelay.Link): seq<Copy> {
    [Copy("phone", nonce, MultiRelay.Answered), Copy("laptop", nonce, laptop)]
  }

  /** The laptop's relays cannot be reached the second time. */
  const First := Sends("bob", "sent0", 10, Letter("m0"),
                       Prepared(Copies(0, MultiRelay.Answered), map["phone" := ToPhone, "laptop" := ToLaptop]))
  const Second := Sends("bob", "sent1", 11, Letter("m1"), Prepared(Copies(1, MultiRelay.RequestLost), map[]))
  const Third := Sends("bob", "sent2", 12, Letter("m2"), Prepared(Copies(2, MultiRelay.Answered), map[]))
  const Schedule := [First, Second, Third]
  const Phone := Place("bob", Outbound, "phone")

  /** Message `k` to the phone. */
  function ToThePhone(k: nat, id: string, nonce: nat): Blob {
    var header := Header(Point(11), 0, k);
    Wire(100, Packet(header, nonce,
                     SymbolicCrypto.Sealed(KeyAt(Chain, k), nonce, AssociatedData(Some(Handshake), header),
                                           Dressed("alice", ToPhone, Text(id))),
                     Some(Handshake)))
  }

  function Both(k: nat): map<DeviceId, Session> {
    map["phone" := After(ToPhone, k), "laptop" := After(ToLaptop, k)]
  }

  lemma SealedForThePhone(k: nat, id: string, nonce: nat)
    ensures SealIn("alice", After(ToPhone, k), Text(id), nonce) == Some((After(ToPhone, k + 1), ToThePhone(k, id, nonce)))
  {
    SealingIsGenuine("alice", ToPhone, k, Text(id), nonce);
  }

  lemma FanOutIs(k: nat, id: string, nonce: nat, laptop: MultiRelay.Link)
    requires !laptop.ReplyLost?
    ensures var fan := FannedOut("alice", Both(k), Copies(nonce, laptop), Letter(id));
            && fan.outbound == (if laptop.Answered? then Some(Both(k + 1)) else None)
            && For(fan.posted, "phone") == [ToThePhone(k, id, nonce)]
  {
    var copies, both := Copies(nonce, laptop), Both(k);
    SealedForThePhone(k, id, nonce);
    SealingIsGenuine("alice", ToLaptop, k, Text(id), nonce);
    hide SealIn, ToThePhone, After, SealedAs, FannedOut, For;
    NoCopyYet("alice", both, copies, Letter(id));
    OneMoreCopy("alice", both, copies, 0, Letter(id));
    OneMoreCopy("alice", both, copies, 1, Letter(id));
    assert copies[..2] == copies;
    var one := Posted("phone", ToThePhone(k, id, nonce));
    NothingSealed("alice", ToPhone, 0, Text(id), "phone");
    ForAppend([], one, "phone");
    assert [] + [one] == [one];
    if laptop.Answered? {
      ForAppend([one], Posted("laptop", SealIn("alice", After(ToLaptop, k), Text(id), nonce).value.1), "phone");
      assert both["phone" := After(ToPhone, k + 1)]["laptop" := After(ToLaptop, k + 1)] == Both(k + 1);
    }
  }

  /** A fan-out to Bob, with the sessions stored or just started at `k`. */
  lemma DeliveryIs(c: State, k: nat, id: string, nonce: nat, laptop: MultiRelay.Link, started: map<DeviceId, Session>)
    requires !laptop.ReplyLost? && c.account == "alice" && "bob" in c.contacts
    requires Ensured(c.contacts["bob"].outbound, Prepared(Copies(nonce, laptop), started)) == Both(k)
    ensures var sent := Deliver(c, "bob", Letter(id), Prepared(Copies(nonce, laptop), started));
            && sent.ok == laptop.Answered?
            && For(sent.posted, "phone") == [ToThePhone(k, id, nonce)]
            && sent.state == if laptop.Answered?
                             then c.(contacts := c.contacts["bob" := c.contacts["bob"].(outbound := Both(k + 1))]) else c
  {
    FanOutIs(k, id, nonce, laptop);
    hide FannedOut, For, Ensured, ToThePhone;
  }

  /** Alice once her first message has gone out. */
  const Started := Next(Alice, First)

  lemma EnsuredAtStart()
    ensures First.delivery.Prepared? && First.delivery.copies == Copies(0, MultiRelay.Answered)
    ensures Addressed(First.delivery.copies, "phone") && Ensured(map[], First.delivery) == Both(0)
  {
    var copies := First.delivery.copies;
    assert copies[0].device == "phone" && copies[1].device == "laptop";
    assert After(ToPhone, 0) == ToPhone && After(ToLaptop, 0) == ToLaptop;
  }

  /** The first message starts both sessions, reaches both devices and is saved. */
  lemma FirstSucceeds()
    ensures BatchOf(Alice, First, Phone) == Batch([ToThePhone(0, "m0", 0)], Text("m0"), true)
    ensures Started.account == "alice" && Started.contacts == map["bob" := Sessions(Both(1), map[])]
  {
    EnsuredAtStart();
    hide Deliver, For, ToThePhone, Both, Addressed, Ensured, After, ToPhone, ToLaptop;
    DeliveryIs(Alice, 0, "m0", 0, MultiRelay.Answered, First.delivery.started);
  }

  lemma FirstStarts()
    ensures Starts(Alice, First, Phone, ToPhone)
  {
    EnsuredAtStart();
    hide Addressed, Ensured;
  }

  lemma NothingToStart(nonce: nat, laptop: MultiRelay.Link)
    ensures Ensured(Both(1), Prepared(Copies(nonce, laptop), map[])) == Both(1)
  {
    hide Both, Addressed;
  }

  /** The second fan-out stores the phone's copy, fails and changes nothing. */
  lemma SecondFails()
    ensures BatchOf(Started, Second, Phone) == Batch([ToThePhone(1, "m1", 1)], Text("m1"), false)
    ensures Next(Started, Second) == Started
  {
    FirstSucceeds();
    NothingToStart(1, MultiRelay.RequestLost);
    hide Deliver, For, ToThePhone, Both, Ensured, Started;
    DeliveryIs(Started, 1, "m1", 1, MultiRelay.RequestLost, map[]);
  }

  /** The third one succeeds: Alice sees her message sent to both devices. */
  lemma ThirdSucceeds()
    ensures BatchOf(Started, Third, Phone) == Batch([ToThePhone(1, "m2", 2)], Text("m2"), true)
  {
    FirstSucceeds();
    NothingToStart(2, MultiRelay.Answered);
    hide Deliver, For, ToThePhone, Both, Ensured, Started;
    DeliveryIs(Started, 1, "m2", 2, MultiRelay.Answered, map[]);
  }

  /** The schedule as the phone's session sees it: number 1 is sealed twice. */
  function Logged(): seq<Batch> {
    [Batch([ToThePhone(0, "m0", 0)], Text("m0"), true),
     Batch([ToThePhone(1, "m1", 1)], Text("m1"), false),
     Batch([ToThePhone(1, "m2", 2)], Text("m2"), true)]
  }

  lemma AliceSends()
    ensures Opens(Alice, Schedule, Phone, ToPhone)
    ensures LogOf(Alice, Schedule, Phone) == Logged()
  {
    FirstStarts();
    FirstSucceeds();
    SecondFails();
    ThirdSucceeds();
    hide Next, BatchOf, Starts, ToThePhone, Text;
    var rest := Schedule[1..];
    assert rest == [Second, Third] && rest[1..] == [Third] && [Third][1..] == [];
    assert Log(Started, rest, Phone) == [BatchOf(Started, Second, Phone)] + Log(Started, [Third], Phone);
    assert Log(Started, [Third], Phone) == [BatchOf(Started, Third, Phone)] + Log(Next(Started, Third), [], Phone);
    assert Quiet(Started, rest, Phone) by {
      assert Quiet(Started, [Third], Phone);
    }
  }

  // ---------------------------------------------------------------- what Bob's phone makes of it

  /** Bob's phone, before Alice's first message. */
  const Bob := State("bob", 1, "phone", map[], map[], Some(Prekeys(1, 2, map[])))
  const Home := Place("alice", Inbound, "phone")

  function Dress(id: string): Envelope {
    Dressed("alice", ToPhone, Text(id))
  }

  function Arrival(k: nat, id: string, nonce: nat, place: Option<Place>, rowId: string): Event {
    Arrives(ToThePhone(k, id, nonce), place, Draw(40 + nonce, rowId, 0, Unprepared), Some((k, Dress(id))))
  }

  const Arrivals := [Arrival(0, "m0", 0, None, "row0"), Arrival(1, "m1", 1, Some(Home), "row1"),
                     Arrival(1, "m2", 2, Some(Home), "row2")]

  /** Alice's session as the phone knows it. */
  ghost function Sender(): Peer {
    PeerOf("alice", ToPhone, Logged())
  }

  lemma BobIsReady()
    ensures Stands(Bob, Sender(), map[], 0)
    ensures Sender().contact == "alice" && Sender().sid == 100
  {
    StartedMakesReady(Bob, "alice", Logged(), PhoneBundle, 7, Point(1), 10, 100, 11);
    SessionsAreStarted();
    hide Logged, Ready, Letters;
    assert forall p :: SessionAt(Bob, p).None?;
  }

  lemma SenderIs()
    ensures Sender().letters == {(0, Dress("m0")), (1, Dress("m1")), (1, Dress("m2"))}
  {
    hide ToThePhone, Number, Letters, Dressed, ToPhone;
    NumbersAre(Logged());
  }

  lemma CopiesAre()
    ensures CopyOf(Sender(), 0, Dress("m0"), ToThePhone(0, "m0", 0))
    ensures CopyOf(Sender(), 1, Dress("m1"), ToThePhone(1, "m1", 1))
    ensures CopyOf(Sender(), 1, Dress("m2"), ToThePhone(1, "m2", 2))
  {
    hide ToThePhone, CopyOf, Sender, Number, Letters, Dressed, Text, ToPhone;
    NumbersAre(Logged());
    LoggedIsCopy(0);
    LoggedIsCopy(1);
    LoggedIsCopy(2);
  }

  lemma LoggedIsCopy(b: nat)
    requires IsCopy(Logged(), b, 0)
    ensures var log := Logged();
            CopyOf(Sender(), Number(log, b, 0), Dressed("alice", ToPhone, log[b].letter), log[b].blobs[0])
  {
    EachIsCopy();
  }

  lemma EachIsCopy()
    ensures WellSent(Sender())
    ensures var log := Logged();
            forall b: nat, i: nat :: IsCopy(log, b, i) ==>
              CopyOf(Sender(), Number(log, b, i), Dressed("alice", ToPhone, log[b].letter), log[b].blobs[i])
  {
    AliceSends();
    SessionsAreStarted();
    LettersAreTexts();
    hide Opens, LogOf, Logged, CopyOf, Rooted, Number, Dressed, PeerOf, WellSent, Readable;
    StoredCopiesAreThePeers(Alice, Schedule, Phone, ToPhone);
  }

  lemma NumbersAre(log: seq<Batch>)
    requires |log| == 3 && forall b :: 0 <= b < 3 ==> |log[b].blobs| == 1
    requires log[0].saved && !log[1].saved
    ensures Number(log, 0, 0) == 0 && Number(log, 1, 0) == 1 && Number(log, 2, 0) == 1
    ensures Letters("alice", ToPhone, log) == {(0, Dressed("alice", ToPhone, log[0].letter)),
                                               (1, Dressed("alice", ToPhone, log[1].letter)),
                                               (1, Dressed("alice", ToPhone, log[2].letter))}
  {
    assert log[..1][..0] == [] && log[..2][..1] == log[..1] && log[..0] == [];
    assert Used(log[..1]) == 1 && Used(log[..2]) == 1;
  }

  /** One more copy reaches the phone. */
  lemma PhoneReceives(c: State, won: Won, recv: nat, k: nat, id: string, nonce: nat, rowId: string)
    requires Stands(c, Sender(), won, recv) && c.device == "phone" && rowId !in c.rows
    requires CopyOf(Sender(), k, Dress(id), ToThePhone(k, id, nonce))
    ensures var place := if won == map[] && recv == 0 then None else Some(Home);
            var e := Arrival(k, id, nonce, place, rowId);
            && Finds(c, 100, place) && Fits(c, Sender(), e)
            && Stands(Next(c, e), Sender(), Counted(won, recv, k, Dress(id)).0, Counted(won, recv, k, Dress(id)).1)
            && Next(c, e).device == "phone" && Next(c, e).rows.Keys <= c.rows.Keys + {rowId}
            && (k in won ==> Handle(c, place, e.blob, e.draw) == Handled(c, None, []))
  {
    EachIsCopy();
    BobIsReady();
    var place := if won == map[] && recv == 0 then None else Some(Home);
    var e := Arrival(k, id, nonce, place, rowId);
    hide CopyOf, Ready, AllProper, WellSent, OnChain;
    assert Finds(c, 100, place);
    hide Stands, Finds;
    CopyStands(c, Sender(), won, recv, e, k, Dress(id));
    StepAddsOneRow(c, place, e.blob, e.draw);
  }

  lemma StepAddsOneRow(c: State, place: Option<Place>, blob: Blob, draw: Draw)
    ensures var after := Handle(c, place, blob, draw).state;
            after.device == c.device && after.rows.Keys <= c.rows.Keys + {draw.rowId}
  {
    var h := Inspect(c, place, blob, draw.newKey);
    if !h.Ignored? {
      assert Saved(c, h).rows == c.rows && Saved(c, h).device == c.device;
      hide Inspect, Saved, Process;
      ProcessAddsOneRow(Saved(c, h), ClientModel.Sender(h), h.envelope, draw);
    }
  }

  lemma ProcessAddsOneRow(c: State, contact: ContactId, envelope: Envelope, draw: Draw)
    requires envelope.Envelope?
    ensures var after := Process(c, contact, envelope, draw).state;
            after.device == c.device && after.rows.Keys <= c.rows.Keys + {draw.rowId}
  {
    hide Deliver, Received;
    if IsMessage(envelope) {
      var added := c.(rows := H.AddMessage(c.rows, draw.rowId, ReceivedRow(contact, envelope, draw.now)));
      DeliverKeepsTheRest(added, contact, Same(ReceiptFor(envelope.id)), draw.delivery);
    }
  }

  const Bob1 := Next(Bob, Arrivals[0])
  const Bob2 := Next(Bob1, Arrivals[1])

  /** The copies arrive in the order they were sent, and the third one, of a number opened before, changes nothing. */
  lemma BobReceives()
    ensures Legal(Bob, Sender(), Arrivals)
    ensures Finds(Bob2, 100, Some(Home)) && Run(Bob, Arrivals) == Bob2
    ensures Handle(Bob2, Some(Home), ToThePhone(1, "m2", 2), Draw(42, "row2", 0, Unprepared)) == Handled(Bob2, None, [])
  {
    EachIsCopy();
    CopiesAre();
    BobIsReady();
    hide CopyOf, ToThePhone, Stands, Finds, Handle, WellSent, Fits, Dress, Home, Bob;
    var won0: Won := map[];
    var won1 := Counted(won0, 0, 0, Dress("m0")).0;
    var won2 := Counted(won1, 1, 1, Dress("m1")).0;
    assert 0 in won1 && 1 in won2;
    assert Bob.device == "phone" && Bob.rows == map[] by {
      BeforeTheRun();
    }
    PhoneReceives(Bob, won0, 0, 0, "m0", 0, "row0");
    PhoneReceives(Bob1, won1, 1, 1, "m1", 1, "row1");
    PhoneReceives(Bob2, won2, 2, 1, "m2", 2, "row2");
    ThreeSteps();
  }

  lemma BeforeTheRun()
    ensures Bob.device == "phone" && Bob.rows == map[] && Alice.account == "alice" && Schedule != []
  {
  }

  lemma ThreeSteps()
    ensures Run(Bob, Arrivals) == Next(Bob2, Arrivals[2])
    ensures Legal(Bob, Sender(), Arrivals) <==>
              Fits(Bob, Sender(), Arrivals[0]) && Fits(Bob1, Sender(), Arrivals[1]) && Fits(Bob2, Sender(), Arrivals[2])
  {
    hide Fits, Next, Arrival, Sender, Bob;
    assert Arrivals[1..][1..] == [Arrivals[2]] && [Arrivals[2]][1..] == [];
    assert Run(Bob, Arrivals) == Run(Bob1, Arrivals[1..]) == Run(Bob2, [Arrivals[2]]) == Run(Next(Bob2, Arrivals[2]), []);
    assert Legal(Bob2, Sender(), [Arrivals[2]]) <==> Fits(Bob2, Sender(), Arrivals[2]);
    assert Legal(Bob1, Sender(), Arrivals[1..]) <==> Fits(Bob1, Sender(), Arrivals[1]) && Legal(Bob2, Sender(), [Arrivals[2]]);
  }

  /**
   The phone shows the first text and the second, which Alice was told had failed. The third, which she was told
   was sent and which relays accepted for both devices, is refused as a duplicate when it arrives: it has no row.
   */
  lemma AcceptedMessageIsLost()
    ensures Opens(Alice, Schedule, Phone, ToPhone)
    ensures LogOf(Alice, Schedule, Phone) == Logged()
    ensures Legal(Bob, Sender(), Arrivals)
    ensures Handle(Bob2, Some(Home), ToThePhone(1, "m2", 2), Draw(42, "row2", 0, Unprepared)) == Handled(Bob2, None, [])
    ensures var rows := Run(Bob, Arrivals).rows;
            |Received(rows, "m0")| == 1 && |Received(rows, "m1")| == 1 && |Received(rows, "m2")| == 0
  {
    AliceSends();
    BobReceives();
    RowsAre(0, "m0");
    RowsAre(1, "m1");
    RowsAre(2, "m2");
  }

  /** Which rows there are follows from what every run of the two sides has. */
  lemma RowsAre(b: nat, id: string)
    requires (b == 0 && id == "m0") || (b == 1 && id == "m1") || (b == 2 && id == "m2")
    ensures |Received(Run(Bob, Arrivals).rows, id)| == if b == 2 then 0 else 1
  {
    hide Opens, LogOf, Logged, ToThePhone, Rooted, Number, Letters, Schedule, Phone, ToPhone, Alice, Legal, Arrivals, Run, Bob,
         Unknown, Ready, AllProper, OwnIds, AtMostOneEach, WithinReach, FirstOf, Received, PeerOf, Presented, Readable,
         IsMessage, Dressed, NumberedAgain, Text;
    BeforeTheRun();
    AliceSends();
    BobReceives();
    SessionsAreStarted();
    BeforeIsFresh();
    PresentedAre();
    FirstIs(b, id);
    CopyIs(b, id);
    LettersAreTexts();
    StoredMessageArrivesExactlyWhenFirst(Alice, Schedule, Phone, ToPhone, Bob, Arrivals, b, 0);
  }

  lemma CopyIs(b: nat, id: string)
    requires (b == 0 && id == "m0") || (b == 1 && id == "m1") || (b == 2 && id == "m2")
    ensures var log := Logged();
            && IsCopy(log, b, 0) && log[b].letter == Text(id) && Number(log, b, 0) == (if b == 0 then 0 else 1)
  {
    hide ToThePhone, Number, Letters, Text;
    NumbersAre(Logged());
    assert b == 0 || b == 1 || b == 2;
  }

  lemma LettersAreTexts()
    ensures Readable(Logged())
    ensures forall id :: Dress(id).Envelope? && Dress(id).id == id && (id != "" ==> IsMessage(Text(id)))
  {
    hide ToThePhone;
  }

  lemma BeforeIsFresh()
    ensures Unknown(Bob, Sender().sid) && Ready(Bob, Sender()) && AllProper(Bob, Sender()) && OwnIds(Sender())
    ensures AtMostOneEach(Bob.rows)
    ensures forall k, other :: (k, other) in Sender().letters && IsMessage(other) ==> Received(Bob.rows, other.id) == {}
  {
    BobIsReady();
    SenderIs();
    BeforeTheRun();
    hide Sender, Ready, Bob;
    assert Dress("m0").id == "m0" && Dress("m1").id == "m1" && Dress("m2").id == "m2";
    assert AtMostOneEach(map[]);
    assert forall id :: Received(map[], id) == {};
    hide Dress;
  }

  lemma PresentedAre()
    ensures Presented(Arrivals) == [(0, Dress("m0")), (1, Dress("m1")), (1, Dress("m2"))]
    ensures WithinReach(0, NumbersOf(Presented(Arrivals)))
  {
    hide ToThePhone, Dress;
    assert Arrivals[1..][1..] == [Arrivals[2]] && [Arrivals[2]][1..] == [];
    assert Presented([Arrivals[2]]) == [(1, Dress("m2"))];
    assert Presented(Arrivals) == [(0, Dress("m0")), (1, Dress("m1")), (1, Dress("m2"))];
    var order := [0, 1, 1];
    assert NumbersOf(Presented(Arrivals)) == order;
    assert order[1..][1..] == [1] && [1][1..] == [];
    assert WithinReach(2, [1]);
    assert WithinReach(1, order[1..]);
  }

  lemma FirstIs(b: nat, id: string)
    requires (b == 0 && id == "m0") || (b == 1 && id == "m1") || (b == 2 && id == "m2")
    ensures var copies := [(0, Dress("m0")), (1, Dress("m1")), (1, Dress("m2"))];
            FirstOf(copies, if b == 0 then 0 else 1, Dress(id)) <==> b < 2
  {
    var copies := [(0, Dress("m0")), (1, Dress("m1")), (1, Dress("m2"))];
    assert Dress("m0").id == "m0" && Dress("m1").id == "m1" && Dress("m2").id == "m2";
    hide Dress;
    if b < 2 {
      assert FirstAt(copies, b, if b == 0 then 0 else 1, Dress(id));
    } else {
      forall i: nat ensures !FirstAt(copies, i, 1, Dress(id)) {
        assert i == 2 ==> copies[1].0 == 1;
      }
    }
  }
}

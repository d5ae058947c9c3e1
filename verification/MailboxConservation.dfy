/**
 No loss between relays and client. A replicated mailbox is written, fetched, handled and
 acknowledged in any interleaving, relays and client failing at any time; a message a relay
 accepted is still there or has been handed to the client's handler.
 */
module MailboxConservation {
  import opened Rows
  import opened RelayDb
  import opened RelayRuns
  import opened RelayMailbox
  import opened MultiRelay

  /** The rows fetched in the current round of `sync`, per relay; they are handled before any is acknowledged. */
  datatype Round = Fetching(got: map<nat, seq<MessageRow>>) | Acking(got: map<nat, seq<MessageRow>>)

  datatype World = World(
    relays: seq<Tables>,
    round: Round,
    accepted: seq<seq<MessageRow>>,
    deleted: seq<nat>,
    handled: set<FetchedMessage>)

  datatype Event =
    | RelayEvent(relay: nat, op: Op)
    | FetchEvent(relay: nat, limit: int, link: Link)
    | HandleEvent
    | AckEvent(relay: nat, link: Link)
    | AbandonEvent

  function RowsOf(relay: nat, rows: seq<MessageRow>): set<FetchedMessage> {
    set row | row in rows :: FetchedMessage(relay, row)
  }

  /** Everything a round fetched, as it is handed to the handler. */
  function Fetched(got: map<nat, seq<MessageRow>>): set<FetchedMessage> {
    set k, row | k in got && row in got[k] :: FetchedMessage(k, row)
  }

  function Step(w: World, id: Id, event: Event): World {
    match event
    case RelayEvent(k, op) =>
      if k < |w.relays| && k < |w.accepted| then
        w.(relays := w.relays[k := Apply(w.relays[k], op)],
           accepted := w.accepted[k := w.accepted[k] + Appended(w.relays[k], op, id)])
      else w
    case FetchEvent(k, limit, link) =>
      if k < |w.relays| && w.round.Fetching? && k !in w.round.got then
        w.(round := Fetching(w.round.got[k := FetchOn(w.relays[k], id, 0, limit, link)]))
      else w
    case HandleEvent =>
      if w.round.Fetching? then
        w.(round := Acking(w.round.got), handled := w.handled + Fetched(w.round.got))
      else w
    case AckEvent(k, link) =>
      if w.round.Acking? && k in w.round.got && k < |w.relays| && k < |w.deleted| && w.round.got[k] != [] then
        var rows := w.round.got[k];
        var upto := rows[|rows| - 1].seqNo;
        w.(relays := w.relays[k := AckOn(w.relays[k], id, upto, link)],
           round := Acking(w.round.got - {k}),
           deleted := w.deleted[k := w.deleted[k] + AckedOn(w.relays[k], id, upto, link)])
      else w
    case AbandonEvent => w.(round := Fetching(map[]))
  }

  /** Within one lifetime of the mailbox, only the client's own acknowledgements touch its rows. */
  predicate Permitted(w: World, id: Id, event: Event) {
    event.RelayEvent? && event.relay < |w.relays| ==> Spares(w.relays[event.relay], event.op, id)
  }

  /**
   Relay `k`: the mailbox holds all it accepted but a first part, and that part was handled. What
   the current round fetched is at the front, untouched.
   */
  ghost predicate RelayOk(w: World, id: Id, k: nat)
    requires k < |w.relays| == |w.accepted| == |w.deleted|
  {
    && Valid(w.relays[k]) && id in w.relays[k].mailboxes
    && w.deleted[k] <= |w.accepted[k]|
    && Inbox(w.relays[k], id) == w.accepted[k][w.deleted[k]..]
    && RowsOf(k, w.accepted[k][..w.deleted[k]]) <= w.handled
    && w.relays[k].mailboxes[id].nextSeq == |w.accepted[k]| + 1
    && (forall i :: 0 <= i < |w.accepted[k]| ==> w.accepted[k][i].seqNo == i + 1)
    && (k in w.round.got ==> w.round.got[k] <= Inbox(w.relays[k], id))
    && (w.round.Acking? && k in w.round.got ==> RowsOf(k, w.round.got[k]) <= w.handled)
  }

  ghost predicate Conserved(w: World, id: Id) {
    && |w.relays| == |w.accepted| == |w.deleted|
    && forall k: nat :: k < |w.relays| ==> RelayOk(w, id, k)
  }

  // -- each step -------------------------------------------------------------------

  lemma RelayEventConserves(w: World, id: Id, k: nat, op: Op)
    requires Conserved(w, id) && k < |w.relays| && Spares(w.relays[k], op, id)
    ensures RelayOk(Step(w, id, RelayEvent(k, op)), id, k)
  {
    hide Valid, Apply, Spares, Inbox, Appended, RowsOf, Conserved;
    ConservedAt(w, id, k);
    var db := w.relays[k];
    var more := Appended(db, op, id);
    ApplyKeepsValid(db, op);
    SparedInboxGrows(db, op, id);
    AppendedNumbers(db, op, id);
    GrownAtTheBack(w.accepted[k], more, w.deleted[k]);
    GrownPrefix(w.round.got, k, Inbox(db, id), more);
  }

  lemma ConservedAt(w: World, id: Id, k: nat)
    requires Conserved(w, id) && k < |w.relays|
    ensures |w.relays| == |w.accepted| == |w.deleted| && RelayOk(w, id, k)
  {
  }

  /** New rows go to the back: what was deleted stays deleted and what was left is still in front. */
  lemma GrownAtTheBack(accepted: seq<MessageRow>, more: seq<MessageRow>, deleted: nat)
    requires deleted <= |accepted|
    requires forall i :: 0 <= i < |accepted| ==> accepted[i].seqNo == i + 1
    requires forall i :: 0 <= i < |more| ==> more[i].seqNo == |accepted| + 1 + i
    ensures (accepted + more)[..deleted] == accepted[..deleted]
    ensures (accepted + more)[deleted..] == accepted[deleted..] + more
    ensures forall i :: 0 <= i < |accepted + more| ==> (accepted + more)[i].seqNo == i + 1
  {
  }

  lemma GrownPrefix(got: map<nat, seq<MessageRow>>, k: nat, inbox: seq<MessageRow>, more: seq<MessageRow>)
    requires k in got ==> got[k] <= inbox
    ensures k in got ==> got[k] <= inbox + more
  {
  }

  lemma AppendedNumbers(db: Tables, op: Op, id: Id)
    requires id in db.mailboxes
    ensures forall i :: 0 <= i < |Appended(db, op, id)| ==> Appended(db, op, id)[i].seqNo == db.mailboxes[id].nextSeq + i
  {
  }

  lemma FetchEventConserves(w: World, id: Id, k: nat, limit: int, link: Link)
    requires Conserved(w, id) && k < |w.relays|
    ensures RelayOk(Step(w, id, FetchEvent(k, limit, link)), id, k)
  {
    assert RelayOk(w, id, k);
    hide Valid, Inbox, GetMessages;
    FetchIsPrefix(w.relays[k], id, limit);
  }

  lemma HandleEventConserves(w: World, id: Id, k: nat)
    requires Conserved(w, id) && k < |w.relays|
    ensures RelayOk(Step(w, id, HandleEvent), id, k)
  {
    assert RelayOk(w, id, k);
    hide Valid, Inbox;
    if w.round.Fetching? && k in w.round.got {
      forall item | item in RowsOf(k, w.round.got[k])
        ensures item in Fetched(w.round.got)
      {
        assert item.row in w.round.got[k];
      }
    }
  }

  /** The acknowledgement deletes exactly the rows this round fetched from this relay. */
  lemma AckDeletesWhatWasHandled(w: World, id: Id, k: nat, link: Link)
    requires Conserved(w, id) && k < |w.relays|
    requires w.round.Acking? && k in w.round.got && w.round.got[k] != []
    ensures var rows := w.round.got[k];
            var after := AckOn(w.relays[k], id, rows[|rows| - 1].seqNo, link);
            && Valid(after) && after.mailboxes == w.relays[k].mailboxes
            && (link.RequestLost? ==> after == w.relays[k])
            && (!link.RequestLost? ==>
                  Inbox(w.relays[k], id) == rows + Inbox(after, id)
                  && AckedOn(w.relays[k], id, rows[|rows| - 1].seqNo, link) == |rows|)
  {
    assert RelayOk(w, id, k);
    var rows, db := w.round.got[k], w.relays[k];
    if !link.RequestLost? {
      hide Valid, Inbox, AckMessages;
      assert Inbox(db, id)[|rows| - 1] == rows[|rows| - 1];
      AckDropsPrefix(db, id, |rows|);
      AckKeepsValid(db, id, rows[|rows| - 1].seqNo);
    }
  }

  lemma AckEventConserves(w: World, id: Id, k: nat, link: Link)
    requires Conserved(w, id) && k < |w.relays|
    requires w.round.Acking? && k in w.round.got && w.round.got[k] != []
    ensures RelayOk(Step(w, id, AckEvent(k, link)), id, k)
  {
    assert RelayOk(w, id, k);
    var rows, before := w.round.got[k], w.relays[k];
    var after := AckOn(before, id, rows[|rows| - 1].seqNo, link);
    AckDeletesWhatWasHandled(w, id, k, link);
    hide Valid, Inbox, AckOn, AckedOn, RowsOf, Conserved;
    if !link.RequestLost? {
      var d := w.deleted[k];
      FrontGoes(w.accepted[k], d, rows);
      TwoParts(k, w.accepted[k][..d], rows);
      assert Inbox(after, id) == Inbox(before, id)[|rows|..];
    }
  }

  /** Deleting the front of what is left moves the border by as much. */
  lemma FrontGoes(accepted: seq<MessageRow>, d: nat, rows: seq<MessageRow>)
    requires d <= |accepted| && rows <= accepted[d..]
    ensures d + |rows| <= |accepted|
    ensures accepted[..d + |rows|] == accepted[..d] + rows && accepted[d + |rows|..] == accepted[d..][|rows|..]
  {
  }

  lemma TwoParts(k: nat, a: seq<MessageRow>, b: seq<MessageRow>)
    ensures RowsOf(k, a + b) == RowsOf(k, a) + RowsOf(k, b)
  {
  }

  /** What a step on one relay means for the others: nothing. */
  lemma OtherRelays(w: World, id: Id, event: Event, k: nat)
    requires Conserved(w, id) && k < |w.relays|
    requires match event
             case RelayEvent(j, _) => j != k
             case FetchEvent(j, _, _) => j != k
             case HandleEvent => false
             case AckEvent(j, _) => j != k
             case AbandonEvent => true
    ensures RelayOk(Step(w, id, event), id, k)
  {
    assert RelayOk(w, id, k);
    hide Valid, Inbox, Apply, Appended, AckOn, AckedOn, FetchOn;
  }

  lemma StepConserves(w: World, id: Id, event: Event)
    requires Conserved(w, id) && Permitted(w, id, event)
    ensures Conserved(Step(w, id, event), id)
  {
    var after := Step(w, id, event);
    forall k: nat | k < |after.relays|
      ensures RelayOk(after, id, k)
    {
      assert RelayOk(w, id, k);
      hide RelayOk;
      match event {
        case RelayEvent(j, op) =>
          if j == k { RelayEventConserves(w, id, k, op); } else { OtherRelays(w, id, event, k); }
        case FetchEvent(j, limit, link) =>
          if j == k { FetchEventConserves(w, id, k, limit, link); } else { OtherRelays(w, id, event, k); }
        case HandleEvent => HandleEventConserves(w, id, k);
        case AckEvent(j, link) =>
          if j != k {
            OtherRelays(w, id, event, k);
          } else if w.round.Acking? && k in w.round.got && w.round.got[k] != [] {
            AckEventConserves(w, id, k, link);
          }
        case AbandonEvent => OtherRelays(w, id, event, k);
      }
    }
  }

  // -- whole runs ------------------------------------------------------------------

  function RunEvents(w: World, id: Id, events: seq<Event>): World
    decreases |events|
  {
    if events == [] then w else RunEvents(Step(w, id, events[0]), id, events[1..])
  }

  ghost predicate PermittedRun(w: World, id: Id, events: seq<Event>)
    decreases |events|
  {
    events == [] || (Permitted(w, id, events[0]) && PermittedRun(Step(w, id, events[0]), id, events[1..]))
  }

  lemma {:induction false} RunConserves(w: World, id: Id, events: seq<Event>)
    requires Conserved(w, id) && PermittedRun(w, id, events)
    ensures Conserved(RunEvents(w, id, events), id)
    decreases |events|
  {
    hide Conserved, Step;
    if events != [] {
      StepConserves(w, id, events[0]);
      RunConserves(Step(w, id, events[0]), id, events[1..]);
    }
  }

  /** A mailbox just registered on every relay. */
  ghost predicate Registered(w: World, id: Id) {
    && |w.relays| == |w.accepted| == |w.deleted|
    && w.round == Fetching(map[])
    && forall k: nat :: k < |w.relays| ==>
         && Valid(w.relays[k]) && id in w.relays[k].mailboxes && w.relays[k].mailboxes[id].nextSeq == 1
         && w.accepted[k] == [] && w.deleted[k] == 0
  }

  lemma UnusedIsEmpty(db: Tables, id: Id)
    requires Valid(db) && id in db.mailboxes && db.mailboxes[id].nextSeq == 1
    ensures Inbox(db, id) == []
  {
    var inbox := Inbox(db, id);
    if inbox != [] {
      var row := inbox[0];
      assert row in inbox;
      InboxAscends(db, id);
      assert false;
    }
  }

  /**
   Over every run: each message a relay ever accepted is still in its inbox or was handed to
   the handler, and the numbers it assigned are 1, 2, 3, ...
   */
  lemma NothingIsLost(w: World, id: Id, events: seq<Event>, k: nat, i: nat)
    requires Registered(w, id) && PermittedRun(w, id, events)
    requires var end := RunEvents(w, id, events); k < |end.relays| && k < |end.accepted| && i < |end.accepted[k]|
    ensures var end := RunEvents(w, id, events);
            var row := end.accepted[k][i];
            && row.seqNo == i + 1
            && (row in Inbox(end.relays[k], id) || FetchedMessage(k, row) in end.handled)
  {
    forall j: nat | j < |w.relays|
      ensures RelayOk(w, id, j)
    {
      UnusedIsEmpty(w.relays[j], id);
    }
    RunConserves(w, id, events);
    var end := RunEvents(w, id, events);
    assert RelayOk(end, id, k);
    hide Valid, Inbox;
    var row, d := end.accepted[k][i], end.deleted[k];
    if i < d {
      assert row == end.accepted[k][..d][i];
      assert FetchedMessage(k, row) in RowsOf(k, end.accepted[k][..d]);
    } else {
      assert row == end.accepted[k][d..][i - d];
    }
  }

  // -- progress ----------------------------------------------------------------------

  /** A first page of an inbox is its front part, as long as the limit says. */
  lemma FirstPage(db: Tables, id: Id, limit: int)
    requires Valid(db) && id in db.mailboxes
    ensures var inbox := Inbox(db, id);
            FetchOn(db, id, 0, limit, Answered) == if 0 <= limit < |inbox| then inbox[..limit] else inbox
  {
    forall row | row in db.messages ensures After(id, 0)(row) == MessageIn(id)(row) {
      assert MessageOk(db, row);
    }
    KeepAgree(db.messages, After(id, 0), MessageIn(id));
  }

  /**
   A round that a relay answers makes progress: the first messages waiting there, as many as one page holds, are
   handed to the handler and are gone afterwards, and the others move up. So enough rounds empty the mailbox.
   */
  lemma AnsweredRoundDrains(w: World, id: Id, k: nat, limit: nat)
    requires Conserved(w, id) && k < |w.relays| && w.round == Fetching(map[])
    ensures var inbox := Inbox(w.relays[k], id);
            var n := if limit < |inbox| then limit else |inbox|;
            var fetched := Step(w, id, FetchEvent(k, limit, Answered));
            var after := Step(Step(fetched, id, HandleEvent), id, AckEvent(k, Answered));
            && |after.relays| == |w.relays| && Inbox(after.relays[k], id) == inbox[n..]
            && RowsOf(k, inbox[..n]) <= after.handled
  {
    hide Valid, Inbox, Conserved;
    ConservedAt(w, id, k);
    var db, inbox := w.relays[k], Inbox(w.relays[k], id);
    var n := if limit < |inbox| then limit else |inbox|;
    FirstPage(db, id, limit);
    assert FetchOn(db, id, 0, limit, Answered) == inbox[..n];
    var fetched := Step(w, id, FetchEvent(k, limit, Answered));
    assert fetched.round.got[k] == inbox[..n];
    var handled := Step(fetched, id, HandleEvent);
    FetchedHolds(fetched.round.got, k);
    if n > 0 {
      AckDropsPrefix(db, id, n);
      assert inbox[..n][n - 1] == inbox[n - 1];
    } else {
      assert inbox[0..] == inbox;
    }
    hide FetchOn, AckMessages, RowsOf, Fetched;
  }

  lemma FetchedHolds(got: map<nat, seq<MessageRow>>, k: nat)
    requires k in got
    ensures RowsOf(k, got[k]) <= Fetched(got)
  {
  }
}

/**
 The relay set of noknowledge/wire/backends/multi_relay.py: writes fan out, reads aggregate,
 acknowledgements go to the relays they name. A relay may fail at any time, before or after it
 has carried out a request.
 */
module MultiRelay {
  import opened Wrappers
  import opened RelayDb
  import opened RelayRuns
  import RelayMailbox

  /** What happens to one request: answered, never received, or carried out but unanswered. */
  datatype Link = Answered | RequestLost | ReplyLost

  datatype RelayReply = Accepted | NotFound | Refused | NoReply

  datatype PutError = AllRelaysFailed | RelayNotFound

  datatype FetchedMessage = FetchedMessage(relay: nat, row: MessageRow)

  /** One write to one relay: its tables afterwards and the reply the client sees. */
  function PutOn(db: Tables, id: Id, envelope: Bytes, now: int, link: Link): (Tables, RelayReply) {
    if link.RequestLost? then
      (db, NoReply)
    else
      match PutMessage(db, id, envelope, now)
      case Success(p) => (p.0, if link.Answered? then Accepted else NoReply)
      case Failure(MailboxNotFound) => (db, if link.Answered? then NotFound else NoReply)
      case Failure(_) => (db, if link.Answered? then Refused else NoReply)
  }

  /** One read; a relay without the mailbox answers with an error, as does one that fails. */
  function FetchOn(db: Tables, id: Id, after: int, limit: int, link: Link): seq<MessageRow> {
    if link.Answered? && id in db.mailboxes then GetMessages(db, id, after, limit) else []
  }

  function AckOn(db: Tables, id: Id, upto: int, link: Link): Tables {
    if link.RequestLost? || id !in db.mailboxes then db else AckMessages(db, id, upto).0
  }

  /** How many rows an acknowledgement deletes. */
  function AckedOn(db: Tables, id: Id, upto: int, link: Link): nat {
    if link.RequestLost? || id !in db.mailboxes then 0 else AckMessages(db, id, upto).1
  }

  function Tag(relay: nat, rows: seq<MessageRow>): seq<FetchedMessage> {
    seq(|rows|, i requires 0 <= i < |rows| => FetchedMessage(relay, rows[i]))
  }

  function CursorFor(cursors: map<nat, int>, relay: nat): int {
    if relay in cursors then cursors[relay] else 0
  }

  /** What the first `k` relays contribute to a fetch. */
  function Collected(relays: seq<Tables>, id: Id, cursors: map<nat, int>, limit: int, links: seq<Link>, k: nat)
    : seq<FetchedMessage>
    requires k <= |relays| == |links|
  {
    if k == 0 then
      []
    else
      (Collected(relays, id, cursors, limit, links, k - 1)
       + Tag(k - 1, FetchOn(relays[k - 1], id, CursorFor(cursors, k - 1), limit, links[k - 1])))
  }

  /** How a put to a whole relay set ends for the sender: accepted somewhere, refused but stored somewhere, or not stored. */
  function PutOutcome(relays: seq<Tables>, id: Id, envelope: Bytes, now: int, links: seq<Link>): Link
    requires |links| == |relays|
  {
    if exists k :: 0 <= k < |relays| && PutOn(relays[k], id, envelope, now, links[k]).1 == Accepted then Answered
    else if exists k :: 0 <= k < |relays| && PutOn(relays[k], id, envelope, now, links[k]).0 != relays[k] then ReplyLost
    else RequestLost
  }

  /** What each reply to a write means, and when the relay keeps the write whatever the client hears. */
  lemma RepliesTell(db: Tables, id: Id, envelope: Bytes, now: int, link: Link)
    ensures var (after, reply) := PutOn(db, id, envelope, now, link);
            var room := id in db.mailboxes && Count(db, id) < db.mailboxes[id].maxMessages
                        && Used(db, id) + |envelope| <= db.mailboxes[id].maxBytes;
            && (reply == NoReply <==> link != Answered)
            && (reply == NotFound <==> link == Answered && id !in db.mailboxes)
            && (reply == Refused <==> link == Answered && id in db.mailboxes && !room)
            && (reply == Accepted <==> link == Answered && room)
            && (if link != RequestLost && room then after == Apply(db, PutOp(id, envelope, now)) && |after.messages| == |db.messages| + 1
                else after == db)
  {
  }

  /** An accepted write is in the relay's table. */
  lemma AcceptedIsStored(db: Tables, id: Id, envelope: Bytes, now: int, link: Link)
    requires PutOn(db, id, envelope, now, link).1 == Accepted
    ensures |PutOn(db, id, envelope, now, link).0.messages| == |db.messages| + 1
  {
  }

  /** The sender is told of a failure although a copy is stored exactly when no reply says accepted but some relay changed. */
  lemma PutOutcomeTells(relays: seq<Tables>, id: Id, envelope: Bytes, now: int, links: seq<Link>)
    requires |links| == |relays|
    ensures PutOutcome(relays, id, envelope, now, links) == RequestLost <==>
            forall k :: 0 <= k < |relays| ==> PutOn(relays[k], id, envelope, now, links[k]).0 == relays[k]
  {
    forall k | 0 <= k < |relays| && PutOn(relays[k], id, envelope, now, links[k]).1 == Accepted
      ensures PutOn(relays[k], id, envelope, now, links[k]).0 != relays[k]
    {
      AcceptedIsStored(relays[k], id, envelope, now, links[k]);
    }
    hide PutOn;
  }

  class MultiRelayBackend {
    var relays: seq<Tables>

    /** Succeeds when at least one relay says it accepted the write. */
    method Put(id: Id, envelope: Bytes, now: int, links: seq<Link>) returns (r: Result<(), PutError>)
      requires |links| == |relays|
      modifies this
      ensures |relays| == |old(relays)|
      ensures forall k :: 0 <= k < |relays| ==> relays[k] == PutOn(old(relays[k]), id, envelope, now, links[k]).0
      ensures r.Success? <==> exists k :: 0 <= k < |relays| && PutOn(old(relays[k]), id, envelope, now, links[k]).1 == Accepted
      ensures r == Failure(RelayNotFound) <==>
                forall k :: 0 <= k < |relays| ==> PutOn(old(relays[k]), id, envelope, now, links[k]).1 == NotFound
      ensures r.Success? <==> PutOutcome(old(relays), id, envelope, now, links) == Answered
    {
      hide PutOn;
      var succeeded, failed := 0, false;
      var k := 0;
      while k < |relays|
        invariant k <= |relays| == |old(relays)|
        invariant forall j :: 0 <= j < k ==> relays[j] == PutOn(old(relays[j]), id, envelope, now, links[j]).0
        invariant forall j :: k <= j < |relays| ==> relays[j] == old(relays[j])
        invariant 0 <= succeeded
        invariant 0 < succeeded <==> exists j :: 0 <= j < k && PutOn(old(relays[j]), id, envelope, now, links[j]).1 == Accepted
        invariant failed <==>
                    (exists j :: 0 <= j < k && PutOn(old(relays[j]), id, envelope, now, links[j]).1 in {Refused, NoReply})
      {
        var (after, reply) := PutOn(relays[k], id, envelope, now, links[k]);
        relays := relays[k := after];
        match reply {
          case Accepted => succeeded := succeeded + 1;
          case NotFound =>
          case _ => failed := true;
        }
        k := k + 1;
      }
      if succeeded == 0 {
        if failed {
          return Failure(AllRelaysFailed);
        }
        return Failure(RelayNotFound);
      }
      return Success(());
    }

    method Fetch(id: Id, cursors: map<nat, int>, limit: int, links: seq<Link>) returns (collected: seq<FetchedMessage>)
      requires |links| == |relays|
      ensures collected == Collected(relays, id, cursors, limit, links, |relays|)
    {
      hide FetchOn, CursorFor;
      collected := [];
      var k := 0;
      while k < |relays|
        invariant k <= |relays|
        invariant collected == Collected(relays, id, cursors, limit, links, k)
      {
        var rows := FetchOn(relays[k], id, CursorFor(cursors, k), limit, links[k]);
        var tagged, i := [], 0;
        while i < |rows|
          invariant i <= |rows|
          invariant tagged == Tag(k, rows[..i])
        {
          tagged := tagged + [FetchedMessage(k, rows[i])];
          i := i + 1;
        }
        assert rows[..i] == rows;
        collected := collected + tagged;
        k := k + 1;
      }
    }

    method Ack(id: Id, cursors: map<nat, nat>, links: seq<Link>)
      requires |links| == |relays|
      modifies this
      ensures |relays| == |old(relays)|
      ensures forall k :: 0 <= k < |relays| ==>
                relays[k] == if k in cursors then AckOn(old(relays[k]), id, cursors[k], links[k]) else old(relays[k])
    {
      var k := 0;
      while k < |relays|
        invariant k <= |relays| == |old(relays)|
        invariant forall j :: 0 <= j < k ==>
                    relays[j] == if j in cursors then AckOn(old(relays[j]), id, cursors[j], links[j]) else old(relays[j])
        invariant forall j :: k <= j < |relays| ==> relays[j] == old(relays[j])
      {
        if k in cursors {
          relays := relays[k := AckOn(relays[k], id, cursors[k], links[k])];
        }
        k := k + 1;
      }
    }
  }

  // -- the cursor computation of `Client.sync` --------------------------------------

  /** The highest sequence number fetched from each relay. */
  function MaxSeq(fetched: seq<FetchedMessage>): map<nat, nat> {
    if fetched == [] then map[]
    else
      var before, item := MaxSeq(fetched[..|fetched| - 1]), fetched[|fetched| - 1];
      before[item.relay := if item.relay in before && before[item.relay] > item.row.seqNo then before[item.relay]
                           else item.row.seqNo]
  }

  /** The loop over the fetched items, which records `max_seq` before it handles an item. */
  method CursorsOf(fetched: seq<FetchedMessage>) returns (maxSeq: map<nat, nat>)
    ensures maxSeq == MaxSeq(fetched)
  {
    maxSeq := map[];
    var n := 0;
    while n < |fetched|
      invariant n <= |fetched|
      invariant maxSeq == MaxSeq(fetched[..n])
    {
      var item := fetched[n];
      assert fetched[..n + 1][..n] == fetched[..n];
      if !(item.relay in maxSeq && maxSeq[item.relay] > item.row.seqNo) {
        maxSeq := maxSeq[item.relay := item.row.seqNo];
      }
      n := n + 1;
    }
    assert fetched[..n] == fetched;
  }

  /** The cursor of a relay is the largest number fetched from it; other relays get none. */
  lemma {:induction false} MaxSeqIsMaximum(fetched: seq<FetchedMessage>, k: nat)
    ensures k in MaxSeq(fetched) ==>
              exists i :: 0 <= i < |fetched| && fetched[i].relay == k && fetched[i].row.seqNo == MaxSeq(fetched)[k]
    ensures forall i :: 0 <= i < |fetched| && fetched[i].relay == k ==>
              k in MaxSeq(fetched) && fetched[i].row.seqNo <= MaxSeq(fetched)[k]
  {
    if fetched != [] {
      var rest := fetched[..|fetched| - 1];
      MaxSeqIsMaximum(rest, k);
      if k in MaxSeq(rest) {
        var i :| 0 <= i < |rest| && rest[i].relay == k && rest[i].row.seqNo == MaxSeq(rest)[k];
        assert fetched[i] == rest[i];
      }
      assert forall i :: 0 <= i < |rest| ==> rest[i] == fetched[i];
    }
  }

  /** A fetch collects from each relay exactly the rows after that relay's cursor, or all of them if it has none. */
  lemma {:induction false} CollectedItems(relays: seq<Tables>, id: Id, cursors: map<nat, int>, limit: int, links: seq<Link>,
                                          n: nat, k: nat)
    requires k < |relays| && n <= |relays| == |links|
    ensures var all := Collected(relays, id, cursors, limit, links, n);
            var rows := FetchOn(relays[k], id, if k in cursors then cursors[k] else 0, limit, links[k]);
            && (forall i :: 0 <= i < |all| && all[i].relay == k ==> all[i].row in rows)
            && (k < n ==> forall row :: row in rows ==> FetchedMessage(k, row) in all)
  {
    if n > 0 {
      CollectedItems(relays, id, cursors, limit, links, n - 1, k);
      var before := Collected(relays, id, cursors, limit, links, n - 1);
      var last := FetchOn(relays[n - 1], id, CursorFor(cursors, n - 1), limit, links[n - 1]);
      var all := Collected(relays, id, cursors, limit, links, n);
      assert all == before + Tag(n - 1, last);
      forall row | k < n && row in FetchOn(relays[k], id, CursorFor(cursors, k), limit, links[k])
        ensures FetchedMessage(k, row) in all
      {
        if k == n - 1 {
          var j :| 0 <= j < |last| && last[j] == row;
          assert Tag(n - 1, last)[j] == FetchedMessage(k, row);
        }
      }
    }
  }

  /** The number a round acknowledges to a relay is that of the last row this round fetched from it. */
  lemma CursorIsLastRow(relays: seq<Tables>, id: Id, limit: int, links: seq<Link>, k: nat)
    requires k < |relays| == |links|
    requires RelayMailbox.Ascending(FetchOn(relays[k], id, 0, limit, links[k]))
    ensures var cursors := MaxSeq(Collected(relays, id, map[], limit, links, |relays|));
            var rows := FetchOn(relays[k], id, 0, limit, links[k]);
            && (k in cursors <==> rows != [])
            && (rows != [] ==> k in cursors && cursors[k] == rows[|rows| - 1].seqNo)
  {
    var all := Collected(relays, id, map[], limit, links, |relays|);
    var rows := FetchOn(relays[k], id, 0, limit, links[k]);
    CollectedItems(relays, id, map[], limit, links, |relays|, k);
    MaxSeqIsMaximum(all, k);
    if rows != [] {
      var last := rows[|rows| - 1];
      assert FetchedMessage(k, last) in all;
      var j :| 0 <= j < |all| && all[j] == FetchedMessage(k, last);
      var i :| 0 <= i < |all| && all[i].relay == k && all[i].row.seqNo == MaxSeq(all)[k];
      assert all[i].row in rows;
    }
  }
}

/**
 One mailbox over its lifetime: messages are appended under fresh, increasing sequence numbers,
 a fetch returns a prefix in sequence order, and an acknowledgement deletes exactly a prefix.
 */
module RelayMailbox {
  import opened Wrappers
  import opened Rows
  import opened RelayDb
  import opened RelayRuns

  predicate Ascending(rows: seq<MessageRow>) {
    forall i, j :: 0 <= i < j < |rows| ==> rows[i].seqNo < rows[j].seqNo
  }

  /** The inbox of a live mailbox is in sequence order, below `next_seq`. */
  lemma InboxAscends(db: Tables, id: Id)
    requires Valid(db) && id in db.mailboxes
    ensures Ascending(Inbox(db, id))
    ensures forall row :: row in Inbox(db, id) ==> 1 <= row.seqNo < db.mailboxes[id].nextSeq && row.mailbox == id
  {
    DeletingKeepsKeys(db, MessageIn(id), AnyBlob());
    KeepAllMembers(db.messages, MessageIn(id));
    var inbox := Inbox(db, id);
    forall i, j | 0 <= i < j < |inbox|
      ensures inbox[i].seqNo < inbox[j].seqNo
    {
      assert inbox[i] in inbox && inbox[j] in inbox;
      assert SeqBefore(inbox[i], inbox[j]);
    }
    forall row | row in inbox
      ensures 1 <= row.seqNo < db.mailboxes[id].nextSeq && row.mailbox == id
    {
      assert MessageOk(db, row);
    }
  }

  /**
   `get_messages` in a valid state: in sequence order, only rows of this mailbox after the
   cursor, and whatever it leaves out is later than everything it returns.
   */
  lemma FetchIsEarliest(db: Tables, id: Id, afterSeq: int, limit: int)
    requires Valid(db) && id in db.mailboxes
    ensures var rows := GetMessages(db, id, afterSeq, limit);
            && Ascending(rows)
            && (forall row :: row in rows ==> row in Inbox(db, id) && row.seqNo > afterSeq)
            && (forall row, other :: row in rows && other in Inbox(db, id) && other.seqNo > afterSeq && other !in rows ==>
                  row.seqNo < other.seqNo)
            && (|rows| < limit || limit < 0 ==>
                  forall row :: row in Inbox(db, id) && row.seqNo > afterSeq ==> row in rows)
  {
    var all := Keep(db.messages, After(id, afterSeq));
    AllAfter(db, id, afterSeq);
    var rows := GetMessages(db, id, afterSeq, limit);
    hide Valid, Keep, Inbox;
    PrefixIsEarliest(all, rows);
  }

  lemma AllAfter(db: Tables, id: Id, afterSeq: int)
    requires Valid(db) && id in db.mailboxes
    ensures var all := Keep(db.messages, After(id, afterSeq));
            Ascending(all) && forall row :: row in all <==> row in Inbox(db, id) && row.seqNo > afterSeq
  {
    var all := Keep(db.messages, After(id, afterSeq));
    InboxAscends(db, id);
    KeepAllMembers(db.messages, MessageIn(id));
    KeepAllMembers(db.messages, After(id, afterSeq));
    DeletingKeepsKeys(db, After(id, afterSeq), AnyBlob());
    hide Keep, Valid;
    forall i, j | 0 <= i < j < |all|
      ensures all[i].seqNo < all[j].seqNo
    {
      assert all[i] in all && all[j] in all;
      assert SeqBefore(all[i], all[j]);
    }
  }

  lemma PrefixIsEarliest(all: seq<MessageRow>, rows: seq<MessageRow>)
    requires Ascending(all) && rows <= all
    ensures Ascending(rows)
    ensures forall row :: row in rows ==> row in all
    ensures forall row, other :: row in rows && other in all && other !in rows ==> row.seqNo < other.seqNo
  {
    assert forall m :: 0 <= m < |rows| ==> rows[m] == all[m] && rows[m] in rows;
    forall row, other | row in rows && other in all && other !in rows
      ensures row.seqNo < other.seqNo
    {
      var i :| 0 <= i < |rows| && rows[i] == row;
      var j :| 0 <= j < |all| && all[j] == other;
      assert all[i] == row && i < j;
    }
  }

  /** From cursor 0 a fetch is a prefix of the inbox. */
  lemma FetchIsPrefix(db: Tables, id: Id, limit: int)
    requires Valid(db) && id in db.mailboxes
    ensures GetMessages(db, id, 0, limit) <= Inbox(db, id)
    ensures limit != 0 && Inbox(db, id) != [] ==> GetMessages(db, id, 0, limit) != []
  {
    forall row | row in db.messages
      ensures After(id, 0)(row) == MessageIn(id)(row)
    {
      assert MessageOk(db, row);
    }
    KeepAgree(db.messages, After(id, 0), MessageIn(id));
  }

  // -- other operations leave an inbox alone --------------------------------------

  /** The operation does not end the mailbox's lifetime and is not an acknowledgement of it. */
  predicate Spares(db: Tables, op: Op, id: Id) {
    match op
    case DeleteOp(other) => other != id
    case AckOp(other, _) => other != id
    case HousekeepingOp(now, mailboxTtl, _) => id !in Stale(db, now - mailboxTtl)
    case _ => true
  }

  function Appended(db: Tables, op: Op, id: Id): seq<MessageRow> {
    if op.PutOp? && op.id == id && PutMessage(db, id, op.ciphertext, op.now).Success? then
      [MessageRow(id, db.mailboxes[id].nextSeq, op.ciphertext, op.now, |op.ciphertext|)]
    else
      []
  }

  /** The lifetime goes on; the only change to the inbox is a row appended under `next_seq`. */
  lemma SparedInboxGrows(db: Tables, op: Op, id: Id)
    requires Valid(db) && id in db.mailboxes && Spares(db, op, id)
    ensures id in Apply(db, op).mailboxes
    ensures Inbox(Apply(db, op), id) == Inbox(db, id) + Appended(db, op, id)
    ensures Apply(db, op).mailboxes[id].nextSeq == db.mailboxes[id].nextSeq + |Appended(db, op, id)|
  {
    assert Inbox(db, id) + [] == Inbox(db, id);
    if op.PutOp? {
      PutGrows(db, op, id);
    } else {
      OthersSpare(db, op, id);
    }
  }

  lemma PutGrows(db: Tables, op: Op, id: Id)
    requires op.PutOp? && id in db.mailboxes
    ensures id in Apply(db, op).mailboxes
    ensures Inbox(Apply(db, op), id) == Inbox(db, id) + Appended(db, op, id)
    ensures Apply(db, op).mailboxes[id].nextSeq == db.mailboxes[id].nextSeq + |Appended(db, op, id)|
  {
    assert Inbox(db, id) + [] == Inbox(db, id);
    if PutMessage(db, op.id, op.ciphertext, op.now).Success? {
      var row := MessageRow(op.id, db.mailboxes[op.id].nextSeq, op.ciphertext, op.now, |op.ciphertext|);
      KeepAppendOne(db.messages, row, MessageIn(id));
    }
  }

  lemma OthersSpare(db: Tables, op: Op, id: Id)
    requires !op.PutOp? && id in db.mailboxes && Spares(db, op, id)
    ensures id in Apply(db, op).mailboxes
    ensures Inbox(Apply(db, op), id) == Inbox(db, id)
    ensures Apply(db, op).mailboxes[id].nextSeq == db.mailboxes[id].nextSeq
  {
    match op {
      case DeleteOp(other) => KeepThroughDelete(db.messages, Not(MessageIn(other)), MessageIn(id));
      case AckOp(other, upto) => KeepThroughDelete(db.messages, Not(Acked(other, upto)), MessageIn(id));
      case HousekeepingOp(now, mailboxTtl, blobTtl) =>
        KeepThroughDelete(db.messages, Not(MessageInAny(Stale(db, now - mailboxTtl))), MessageIn(id));
      case _ =>
    }
  }

  /**
   An acknowledgement deletes exactly the rows up to its number: what remains is the rest of
   the inbox, and the reported count is the number deleted.
   */
  lemma {:induction false} AckDropsPrefix(db: Tables, id: Id, k: nat)
    requires Valid(db) && id in db.mailboxes && 1 <= k <= |Inbox(db, id)|
    ensures var (after, deleted) := AckMessages(db, id, Inbox(db, id)[k - 1].seqNo);
            && Inbox(after, id) == Inbox(db, id)[k..] && deleted == k
            && after.mailboxes == db.mailboxes
  {
    var inbox := Inbox(db, id);
    var upto := inbox[k - 1].seqNo;
    InboxAscends(db, id);
    InboxCut(db.messages, id, upto);
    CutAscending(inbox, k);
  }

  function UpTo(upto: int): MessageRow -> bool { (row: MessageRow) => row.seqNo <= upto }

  lemma InboxCut(rows: seq<MessageRow>, id: Id, upto: int)
    ensures Keep(Keep(rows, Not(Acked(id, upto))), MessageIn(id)) == Keep(Keep(rows, MessageIn(id)), Not(UpTo(upto)))
    ensures Keep(rows, Acked(id, upto)) == Keep(Keep(rows, MessageIn(id)), UpTo(upto))
  {
    KeepKeep(rows, Not(Acked(id, upto)), MessageIn(id));
    KeepKeep(rows, MessageIn(id), Not(UpTo(upto)));
    KeepKeep(rows, MessageIn(id), UpTo(upto));
    KeepAgree(rows, And(Not(Acked(id, upto)), MessageIn(id)), And(MessageIn(id), Not(UpTo(upto))));
    KeepAgree(rows, And(MessageIn(id), UpTo(upto)), Acked(id, upto));
  }

  lemma CutAscending(rows: seq<MessageRow>, k: nat)
    requires Ascending(rows) && 1 <= k <= |rows|
    ensures Keep(rows, UpTo(rows[k - 1].seqNo)) == rows[..k]
    ensures Keep(rows, Not(UpTo(rows[k - 1].seqNo))) == rows[k..]
  {
    var p := UpTo(rows[k - 1].seqNo);
    assert rows == rows[..k] + rows[k..];
    KeepAppend(rows[..k], rows[k..], p);
    KeepAppend(rows[..k], rows[k..], Not(p));
    KeepEverything(rows[..k], p);
    KeepNothing(rows[k..], p);
    KeepNothing(rows[..k], Not(p));
    KeepEverything(rows[k..], Not(p));
  }

  // -- a whole lifetime ----------------------------------------------------------

  ghost predicate SparesAll(db: Tables, ops: seq<Op>, id: Id)
    decreases |ops|
  {
    ops == [] || (Spares(db, ops[0], id) && SparesAll(Apply(db, ops[0]), ops[1..], id))
  }

  /** Every message the mailbox accepted, in order. */
  function Accepted(db: Tables, ops: seq<Op>, id: Id): seq<MessageRow>
    requires Valid(db)
    decreases |ops|
  {
    if ops == [] then []
    else
      ApplyKeepsValid(db, ops[0]);
      Appended(db, ops[0], id) + Accepted(Apply(db, ops[0]), ops[1..], id)
  }

  /**
   While the mailbox lives and is not acknowledged, its inbox only grows, and the sequence
   numbers it assigns are consecutive: none is ever used twice.
   */
  lemma {:induction false} RunAppends(db: Tables, ops: seq<Op>, id: Id)
    requires Valid(db) && id in db.mailboxes && SparesAll(db, ops, id)
    ensures Valid(Run(db, ops)) && id in Run(db, ops).mailboxes
    ensures Inbox(Run(db, ops), id) == Inbox(db, id) + Accepted(db, ops, id)
    ensures Run(db, ops).mailboxes[id].nextSeq == db.mailboxes[id].nextSeq + |Accepted(db, ops, id)|
    ensures forall i :: 0 <= i < |Accepted(db, ops, id)| ==>
              Accepted(db, ops, id)[i].seqNo == db.mailboxes[id].nextSeq + i
    decreases |ops|
  {
    hide Valid, Apply, Spares, Inbox;
    if ops == [] {
      assert Inbox(db, id) + [] == Inbox(db, id);
    } else {
      ApplyKeepsValid(db, ops[0]);
      SparedInboxGrows(db, ops[0], id);
      RunAppends(Apply(db, ops[0]), ops[1..], id);
    }
  }

  /** The operation does not end the mailbox's lifetime; it may acknowledge its messages. */
  predicate Survives(db: Tables, op: Op, id: Id) {
    op.AckOp? || Spares(db, op, id)
  }

  ghost predicate SurvivesAll(db: Tables, ops: seq<Op>, id: Id)
    decreases |ops|
  {
    ops == [] || (Survives(db, ops[0], id) && SurvivesAll(Apply(db, ops[0]), ops[1..], id))
  }

  lemma SurvivedStep(db: Tables, op: Op, id: Id)
    requires Valid(db) && id in db.mailboxes && Survives(db, op, id)
    ensures id in Apply(db, op).mailboxes
    ensures Apply(db, op).mailboxes[id].nextSeq == db.mailboxes[id].nextSeq + |Appended(db, op, id)|
  {
    if Spares(db, op, id) {
      SparedInboxGrows(db, op, id);
    }
  }

  /**
   Over a whole lifetime of the mailbox, acknowledgements included, the numbers it assigns are consecutive:
   they strictly increase, and none is ever used twice.
   */
  lemma {:induction false} NumbersAreNeverReused(db: Tables, ops: seq<Op>, id: Id)
    requires Valid(db) && id in db.mailboxes && SurvivesAll(db, ops, id)
    ensures id in Run(db, ops).mailboxes
    ensures Run(db, ops).mailboxes[id].nextSeq == db.mailboxes[id].nextSeq + |Accepted(db, ops, id)|
    ensures forall i :: 0 <= i < |Accepted(db, ops, id)| ==>
              Accepted(db, ops, id)[i].seqNo == db.mailboxes[id].nextSeq + i
    decreases |ops|
  {
    hide Valid, Apply, Survives;
    if ops != [] {
      ApplyKeepsValid(db, ops[0]);
      SurvivedStep(db, ops[0], id);
      NumbersAreNeverReused(Apply(db, ops[0]), ops[1..], id);
    }
  }

  /**
   Whatever else happens on the relay between a fetch and its acknowledgement, the
   acknowledgement deletes exactly the rows that were fetched: the messages written in between
   all remain.
   */
  lemma AckAfterFetchIsExact(db: Tables, id: Id, limit: int, ops: seq<Op>)
    requires Valid(db) && id in db.mailboxes && SparesAll(db, ops, id)
    requires GetMessages(db, id, 0, limit) != []
    ensures var fetched := GetMessages(db, id, 0, limit);
            var later := Run(db, ops);
            var (after, deleted) := AckMessages(later, id, fetched[|fetched| - 1].seqNo);
            && Inbox(later, id) == fetched + Inbox(after, id)
            && fetched + Inbox(after, id) == Inbox(db, id) + Accepted(db, ops, id)
            && deleted == |fetched|
  {
    var fetched := GetMessages(db, id, 0, limit);
    FetchIsPrefix(db, id, limit);
    RunAppends(db, ops, id);
    hide Valid, Inbox, AckMessages, GetMessages, SparesAll, Run, Accepted;
    assert Inbox(Run(db, ops), id)[|fetched| - 1] == fetched[|fetched| - 1];
    AckDropsPrefix(Run(db, ops), id, |fetched|);
  }
}

/**
 What every reachable state of a relay keeps: quotas, ownership, increasing sequence numbers,
 and one-time prekeys handed out once.
 */
module RelayRuns {
  import opened Wrappers
  import opened Rows
  import opened RelayDb

  datatype Op =
    | CreateOp(id: Id, readHash: nat, writeHash: nat, now: int, maxMessages: nat, maxBytes: nat)
    | DeleteOp(id: Id)
    | TouchOp(id: Id, now: int)
    | PutOp(id: Id, ciphertext: Bytes, now: int)
    | AckOp(id: Id, upto: int)
    | PublishOp(bundle: Id, payload: nat, opks: seq<OpkEntry>)
    | FetchBundleOp(bundle: Id)
    | PutBlobOp(chunk: Id, id: Id, ciphertext: Bytes, now: int)
    | DeleteBlobOp(chunk: Id)
    | HousekeepingOp(now: int, mailboxTtl: int, blobTtl: int)

  /** A failed transaction is rolled back. */
  function Committed(db: Tables, r: Result<Tables, DbError>): Tables {
    match r case Success(after) => after case Failure(_) => db
  }

  function Apply(db: Tables, op: Op): Tables {
    match op
    case CreateOp(id, readHash, writeHash, now, maxMessages, maxBytes) =>
      Committed(db, CreateMailbox(db, id, readHash, writeHash, now, maxMessages, maxBytes))
    case DeleteOp(id) => DeleteMailbox(db, id)
    case TouchOp(id, now) => TouchMailbox(db, id, now)
    case PutOp(id, ciphertext, now) =>
      (match PutMessage(db, id, ciphertext, now) case Success(r) => r.0 case Failure(_) => db)
    case AckOp(id, upto) => AckMessages(db, id, upto).0
    case PublishOp(bundle, payload, opks) => Committed(db, PublishBundle(db, bundle, payload, opks))
    case FetchBundleOp(bundle) =>
      (match FetchBundle(db, bundle) case Success(r) => r.0 case Failure(_) => db)
    case PutBlobOp(chunk, id, ciphertext, now) => Committed(db, PutBlob(db, chunk, id, ciphertext, now))
    case DeleteBlobOp(chunk) => DeleteBlob(db, chunk)
    case HousekeepingOp(now, mailboxTtl, blobTtl) => Housekeeping(db, now, mailboxTtl, blobTtl)
  }

  function Run(db: Tables, ops: seq<Op>): Tables
    decreases |ops|
  {
    if ops == [] then db else Run(Apply(db, ops[0]), ops[1..])
  }

  // -- deletions keep the invariant ---------------------------------------------

  /** Deleting rows keeps every per-mailbox bound. */
  lemma DeletingKeepsQuota(db: Tables, p: MessageRow -> bool, q: BlobRow -> bool, id: Id)
    ensures var after := db.(messages := Keep(db.messages, p), blobs := Keep(db.blobs, q));
            Count(after, id) <= Count(db, id) && Used(after, id) <= Used(db, id)
  {
    KeepShrinks(db.messages, p, MessageIn(id), MessageSize());
    KeepShrinks(db.blobs, q, BlobIn(id), BlobSize());
  }

  lemma DeletingKeepsKeys(db: Tables, p: MessageRow -> bool, q: BlobRow -> bool)
    requires KeysOk(db)
    ensures KeysOk(db.(messages := Keep(db.messages, p), blobs := Keep(db.blobs, q)))
  {
    KeepOrdered(db.messages, p, SeqBefore);
    KeepOrdered(db.blobs, q, OtherChunk);
  }

  /** Dropping mailboxes together with all their rows, and any further rows. */
  lemma DeletingKeepsValid(db: Tables, ids: set<Id>, p: MessageRow -> bool, q: BlobRow -> bool)
    requires Valid(db)
    requires forall row :: row in db.messages && p(row) ==> row.mailbox !in ids
    requires forall row :: row in db.blobs && q(row) ==> row.mailbox !in ids
    ensures Valid(db.(mailboxes := db.mailboxes - ids, messages := Keep(db.messages, p), blobs := Keep(db.blobs, q)))
  {
    var after := db.(mailboxes := db.mailboxes - ids, messages := Keep(db.messages, p), blobs := Keep(db.blobs, q));
    KeepAllMembers(db.messages, p);
    KeepAllMembers(db.blobs, q);
    DeletingKeepsKeys(db, p, q);
    forall id | id in after.mailboxes
      ensures WithinQuota(after, id)
    {
      assert WithinQuota(db, id);
      DeletingKeepsQuota(db, p, q, id);
    }
  }

  /** `delete_mailbox`. */
  lemma DeleteKeepsValid(db: Tables, id: Id)
    requires Valid(db)
    ensures Valid(DeleteMailbox(db, id))
  {
    DeletingKeepsValid(db, {id}, Not(MessageIn(id)), Not(BlobIn(id)));
  }

  lemma HousekeepingKeepsValid(db: Tables, now: int, mailboxTtl: int, blobTtl: int)
    requires Valid(db)
    ensures Valid(Housekeeping(db, now, mailboxTtl, blobTtl))
  {
    var ids := Stale(db, now - mailboxTtl);
    DeletingKeepsValid(db, ids, Not(MessageInAny(ids)), Not(BlobInAny(ids)));
    var dropped := DropMailboxes(db, ids);
    NoStrays(dropped, now - blobTtl);
    KeepEverything(dropped.blobs, Not(Stray(dropped, now - blobTtl)));
  }

  /** In a valid state no blob is stray, so the second delete of `housekeeping` removes nothing. */
  lemma NoStrays(db: Tables, cutoff: int)
    requires Valid(db)
    ensures forall row :: row in db.blobs ==> !Stray(db, cutoff)(row)
    ensures Keep(db.blobs, Stray(db, cutoff)) == []
  {
    forall row | row in db.blobs
      ensures !Stray(db, cutoff)(row)
    {
      assert BlobOk(db, row);
    }
    KeepNothing(db.blobs, Stray(db, cutoff));
  }

  /** Deleting rows without touching the mailboxes. */
  lemma DeletingRowsKeepsValid(db: Tables, p: MessageRow -> bool, q: BlobRow -> bool)
    requires Valid(db)
    ensures Valid(db.(messages := Keep(db.messages, p), blobs := Keep(db.blobs, q)))
  {
    hide Valid, Keep;
    DeletingKeepsValid(db, {}, p, q);
    assert db.mailboxes - {} == db.mailboxes;
  }

  lemma AckKeepsValid(db: Tables, id: Id, upto: int)
    requires Valid(db)
    ensures Valid(AckMessages(db, id, upto).0)
  {
    hide Valid;
    KeepEverything(db.blobs, AnyBlob());
    DeletingRowsKeepsValid(db, Not(Acked(id, upto)), AnyBlob());
  }

  lemma DeleteBlobKeepsValid(db: Tables, chunk: Id)
    requires Valid(db)
    ensures Valid(DeleteBlob(db, chunk))
  {
    hide Valid;
    KeepEverything(db.messages, AnyMessage());
    DeletingRowsKeepsValid(db, AnyMessage(), Not(ChunkIs(chunk)));
  }

  // -- insertions ------------------------------------------------------------------

  /** A mailbox without a row in the mailbox table has no rows anywhere. */
  lemma FreshMailboxIsEmpty(db: Tables, id: Id)
    requires Valid(db) && id !in db.mailboxes
    ensures Inbox(db, id) == [] && Keep(db.blobs, BlobIn(id)) == []
    ensures Count(db, id) == 0 && Used(db, id) == 0
  {
    forall row | row in db.messages
      ensures !MessageIn(id)(row)
    {
      assert MessageOk(db, row);
    }
    forall row | row in db.blobs
      ensures !BlobIn(id)(row)
    {
      assert BlobOk(db, row);
    }
    KeepNothing(db.messages, MessageIn(id));
    KeepNothing(db.blobs, BlobIn(id));
  }

  lemma CreateKeepsValid(db: Tables, id: Id, readHash: nat, writeHash: nat, now: int, maxMessages: nat, maxBytes: nat)
    requires Valid(db) && id !in db.mailboxes
    ensures var after := CreateMailbox(db, id, readHash, writeHash, now, maxMessages, maxBytes).value;
            Valid(after) && Count(after, id) == 0 && Used(after, id) == 0
  {
    var after := CreateMailbox(db, id, readHash, writeHash, now, maxMessages, maxBytes).value;
    FreshMailboxIsEmpty(db, id);
    forall row | row in after.messages
      ensures MessageOk(after, row)
    {
      assert MessageOk(db, row);
    }
    forall row | row in after.blobs
      ensures BlobOk(after, row)
    {
      assert BlobOk(db, row);
    }
    forall other | other in after.mailboxes
      ensures WithinQuota(after, other)
    {
      if other != id {
        assert WithinQuota(db, other);
      }
    }
  }

  lemma TouchKeepsValid(db: Tables, id: Id, now: int)
    requires Valid(db)
    ensures Valid(TouchMailbox(db, id, now))
  {
    var after := TouchMailbox(db, id, now);
    forall row | row in after.messages
      ensures MessageOk(after, row)
    {
      assert MessageOk(db, row);
    }
    forall other | other in after.mailboxes
      ensures WithinQuota(after, other)
    {
      assert WithinQuota(db, other);
    }
  }

  /** One message more in one inbox, none in the others. */
  lemma AppendMessage(db: Tables, row: MessageRow, id: Id)
    ensures var after := db.(messages := db.messages + [row]);
            && Inbox(after, id) == Inbox(db, id) + (if row.mailbox == id then [row] else [])
            && Used(after, id) == Used(db, id) + (if row.mailbox == id then row.size else 0)
  {
    KeepAppendOne(db.messages, row, MessageIn(id));
    SumAppend(Inbox(db, id), [row], MessageSize());
    assert Inbox(db, id) + [] == Inbox(db, id);
  }

  lemma PutRowsOk(db: Tables, id: Id, ciphertext: Bytes, now: int, after: Tables)
    requires Valid(db) && id in db.mailboxes
    requires after == db.(messages := db.messages + [MessageRow(id, db.mailboxes[id].nextSeq, ciphertext, now, |ciphertext|)],
                          mailboxes := db.mailboxes[id := db.mailboxes[id].(lastSeen := now, nextSeq := db.mailboxes[id].nextSeq + 1)])
    ensures RowsOk(after) && KeysOk(after)
  {
    assert after.messages[..|db.messages|] == db.messages;
    forall row | row in after.messages
      ensures MessageOk(after, row)
    {
      if row in db.messages {
        assert MessageOk(db, row);
      }
    }
    forall i, j | 0 <= i < j < |after.messages|
      ensures SeqBefore(after.messages[i], after.messages[j])
    {
      if j < |db.messages| {
        assert SeqBefore(db.messages[i], db.messages[j]);
      } else {
        assert MessageOk(db, db.messages[i]);
      }
    }
    forall row | row in after.blobs
      ensures BlobOk(after, row)
    {
      assert BlobOk(db, row);
    }
  }

  lemma PutKeepsValid(db: Tables, id: Id, ciphertext: Bytes, now: int, after: Tables, seqNo: nat)
    requires Valid(db)
    requires PutMessage(db, id, ciphertext, now) == Success((after, seqNo))
    ensures Valid(after)
    ensures Inbox(after, id) == Inbox(db, id) + [MessageRow(id, seqNo, ciphertext, now, |ciphertext|)]
    ensures after.mailboxes[id].nextSeq == seqNo + 1
  {
    var row := MessageRow(id, seqNo, ciphertext, now, |ciphertext|);
    PutRowsOk(db, id, ciphertext, now, after);
    forall other | other in after.mailboxes
      ensures WithinQuota(after, other)
      ensures other == id ==> Inbox(after, id) == Inbox(db, id) + [row]
    {
      assert WithinQuota(db, other);
      AppendMessage(db, row, other);
      assert Used(after, other) == Used(db.(messages := db.messages + [row]), other);
    }
    assert id in after.mailboxes;
  }

  lemma PutBlobKeepsValid(db: Tables, chunk: Id, id: Id, ciphertext: Bytes, now: int, after: Tables)
    requires Valid(db)
    requires PutBlob(db, chunk, id, ciphertext, now) == Success(after)
    ensures Valid(after)
  {
    var row := BlobRow(chunk, id, ciphertext, |ciphertext|, now);
    assert RowsOk(after) by {
      forall r | r in after.messages ensures MessageOk(after, r) { assert MessageOk(db, r); }
      forall r | r in after.blobs ensures BlobOk(after, r) { if r in db.blobs { assert BlobOk(db, r); } }
    }
    forall other | other in after.mailboxes
      ensures WithinQuota(after, other)
    {
      assert WithinQuota(db, other);
      KeepAppendOne(db.blobs, row, BlobIn(other));
      SumAppend(Keep(db.blobs, BlobIn(other)), [row], BlobSize());
      assert Keep(db.blobs, BlobIn(other)) + [] == Keep(db.blobs, BlobIn(other));
    }
  }

  // -- prekeys -----------------------------------------------------------------------

  ghost predicate OpksDistinct(rows: seq<OneTimeRow>) {
    forall i, j :: 0 <= i < j < |rows| ==> OtherOpk(rows[i], rows[j])
  }

  /** Publishing appends: existing rows stay where they are, used flags and all. */
  lemma {:induction false} InsertAppends(rows: seq<OneTimeRow>, bundle: Id, opks: seq<OpkEntry>)
    requires OpksDistinct(rows) && InsertOpks(rows, bundle, opks).Success?
    ensures var after := InsertOpks(rows, bundle, opks).value;
            && rows <= after && OpksDistinct(after)
            && (forall i :: |rows| <= i < |after| ==> !after[i].used && after[i].bundle == bundle)
    decreases |opks|
  {
    if opks != [] {
      if HasOpk(rows, bundle, opks[0].opkId) {
        InsertAppends(rows, bundle, opks[1..]);
      } else {
        InsertAppends(rows + [OneTimeRow(bundle, opks[0].opkId, opks[0].opk, false)], bundle, opks[1..]);
      }
    }
  }

  lemma PrekeyOpsKeepValid(db: Tables, after: Tables)
    requires Valid(db) && OpksDistinct(after.oneTime)
    requires after == db.(bundles := after.bundles, oneTime := after.oneTime)
    ensures Valid(after)
  {
    forall row | row in after.messages ensures MessageOk(after, row) { assert MessageOk(db, row); }
    forall row | row in after.blobs ensures BlobOk(after, row) { assert BlobOk(db, row); }
    forall id | id in after.mailboxes ensures WithinQuota(after, id) { assert WithinQuota(db, id); }
  }

  // -- every reachable state -----------------------------------------------------

  lemma ApplyKeepsValid(db: Tables, op: Op)
    requires Valid(db)
    ensures Valid(Apply(db, op))
  {
    hide Valid, DeleteMailbox, Housekeeping;
    match op {
      case CreateOp(id, readHash, writeHash, now, maxMessages, maxBytes) =>
        if id !in db.mailboxes {
          CreateKeepsValid(db, id, readHash, writeHash, now, maxMessages, maxBytes);
        }
      case DeleteOp(id) => DeleteKeepsValid(db, id);
      case TouchOp(id, now) => TouchKeepsValid(db, id, now);
      case PutOp(id, ciphertext, now) =>
        var r := PutMessage(db, id, ciphertext, now);
        if r.Success? {
          PutKeepsValid(db, id, ciphertext, now, r.value.0, r.value.1);
        }
      case AckOp(id, upto) => AckKeepsValid(db, id, upto);
      case PublishOp(bundle, payload, opks) => PublishKeepsValid(db, bundle, payload, opks);
      case FetchBundleOp(bundle) => FetchKeepsValid(db, bundle);
      case PutBlobOp(chunk, id, ciphertext, now) =>
        var r := PutBlob(db, chunk, id, ciphertext, now);
        if r.Success? {
          PutBlobKeepsValid(db, chunk, id, ciphertext, now, r.value);
        }
      case DeleteBlobOp(chunk) => DeleteBlobKeepsValid(db, chunk);
      case HousekeepingOp(now, mailboxTtl, blobTtl) => HousekeepingKeepsValid(db, now, mailboxTtl, blobTtl);
    }
  }

  lemma PublishKeepsValid(db: Tables, bundle: Id, payload: nat, opks: seq<OpkEntry>)
    requires Valid(db)
    ensures Valid(Apply(db, PublishOp(bundle, payload, opks)))
  {
    if InsertOpks(db.oneTime, bundle, opks).Success? {
      InsertAppends(db.oneTime, bundle, opks);
      PrekeyOpsKeepValid(db, Apply(db, PublishOp(bundle, payload, opks)));
    }
  }

  lemma FetchKeepsValid(db: Tables, bundle: Id)
    requires Valid(db)
    ensures Valid(Apply(db, FetchBundleOp(bundle)))
  {
    PrekeyOpsKeepValid(db, Apply(db, FetchBundleOp(bundle)));
  }

  lemma {:induction false} RunKeepsValid(db: Tables, ops: seq<Op>)
    requires Valid(db)
    ensures Valid(Run(db, ops))
    decreases |ops|
  {
    hide Valid, Apply;
    if ops != [] {
      ApplyKeepsValid(db, ops[0]);
      RunKeepsValid(Apply(db, ops[0]), ops[1..]);
    }
  }

  lemma EmptyIsValid()
    ensures Valid(Empty)
  {
  }

  /** In every state a relay can reach, quotas hold and every message and blob belongs to a live mailbox. */
  lemma EveryReachableStateIsValid(ops: seq<Op>)
    ensures var db := Run(Empty, ops);
            && Valid(db)
            && (forall id :: id in db.mailboxes ==>
                  Count(db, id) <= db.mailboxes[id].maxMessages && Used(db, id) <= db.mailboxes[id].maxBytes)
            && (forall row :: row in db.messages ==> row.mailbox in db.mailboxes)
            && (forall row :: row in db.blobs ==> row.mailbox in db.mailboxes)
  {
    EmptyIsValid();
    RunKeepsValid(Empty, ops);
    var db := Run(Empty, ops);
    hide Run, Apply, Inbox, Used;
    forall id | id in db.mailboxes
      ensures Count(db, id) <= db.mailboxes[id].maxMessages && Used(db, id) <= db.mailboxes[id].maxBytes
    {
      assert WithinQuota(db, id);
    }
    forall row | row in db.messages ensures row.mailbox in db.mailboxes {
      assert MessageOk(db, row);
    }
  }
}

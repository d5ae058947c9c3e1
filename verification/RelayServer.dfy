/** The database as an object: its tables change in place, one transaction at a time. */
module RelayServer {
  import opened Wrappers
  import opened Rows
  import opened RelayDb
  import opened RelayRuns

  class Database {
    var mailboxes: map<Id, Mailbox>
    var messages: seq<MessageRow>
    var bundles: map<Id, nat>
    var oneTime: seq<OneTimeRow>
    var blobs: seq<BlobRow>

    function State(): Tables
      reads this
    {
      Tables(mailboxes, messages, bundles, oneTime, blobs)
    }

    constructor ()
      ensures State() == Empty
    {
      mailboxes, messages, bundles, oneTime, blobs := map[], [], map[], [], [];
    }

    method Create(id: Id, readHash: nat, writeHash: nat, now: int, maxMessages: nat, maxBytes: nat)
      returns (r: Result<(), DbError>)
      modifies this
      ensures State() == Apply(old(State()), CreateOp(id, readHash, writeHash, now, maxMessages, maxBytes))
      ensures r == if id in old(mailboxes) then Failure(UniqueViolation) else Success(())
    {
      if id in mailboxes {
        return Failure(UniqueViolation);
      }
      mailboxes := mailboxes[id := Mailbox(readHash, writeHash, now, now, maxMessages, maxBytes, 1)];
      return Success(());
    }

    /** Deletes a mailbox with everything in it and reports how many rows went. */
    method Delete(id: Id) returns (messagesGone: nat, blobsGone: nat)
      modifies this
      ensures State() == DeleteMailbox(old(State()), id)
      ensures messagesGone + |messages| == |old(messages)|
      ensures blobsGone + |blobs| == |old(blobs)|
    {
      KeepSplit(messages, MessageIn(id));
      KeepSplit(blobs, BlobIn(id));
      messagesGone := |Keep(messages, MessageIn(id))|;
      messages := Keep(messages, Not(MessageIn(id)));
      blobsGone := |Keep(blobs, BlobIn(id))|;
      blobs := Keep(blobs, Not(BlobIn(id)));
      mailboxes := mailboxes - {id};
    }

    method Put(id: Id, ciphertext: Bytes, now: int) returns (r: Result<nat, DbError>)
      modifies this
      ensures State() == Apply(old(State()), PutOp(id, ciphertext, now))
      ensures match PutMessage(old(State()), id, ciphertext, now)
              case Success(p) => r == Success(p.1)
              case Failure(e) => r == Failure(e)
    {
      if id !in mailboxes {
        return Failure(MailboxNotFound);
      }
      var box, size := mailboxes[id], |ciphertext|;
      if Count(State(), id) >= box.maxMessages || Used(State(), id) + size > box.maxBytes {
        return Failure(QuotaExceeded);
      }
      var seqNo := box.nextSeq;
      messages := messages + [MessageRow(id, seqNo, ciphertext, now, size)];
      mailboxes := mailboxes[id := box.(lastSeen := now, nextSeq := seqNo + 1)];
      return Success(seqNo);
    }

    method Ack(id: Id, upto: int) returns (deleted: nat)
      modifies this
      ensures State() == AckMessages(old(State()), id, upto).0
      ensures deleted == AckMessages(old(State()), id, upto).1 && deleted + |messages| == |old(messages)|
    {
      KeepSplit(messages, Acked(id, upto));
      deleted := |Keep(messages, Acked(id, upto))|;
      messages := Keep(messages, Not(Acked(id, upto)));
    }

    /** One transaction: a malformed entry rolls everything back. */
    method Publish(bundle: Id, payload: nat, opks: seq<OpkEntry>) returns (r: Result<(), DbError>)
      modifies this
      ensures State() == Apply(old(State()), PublishOp(bundle, payload, opks))
      ensures r.Success? <==> PublishBundle(old(State()), bundle, payload, opks).Success?
    {
      var bundlesBefore, rowsBefore := bundles, oneTime;
      bundles := bundles[bundle := payload];
      var k := 0;
      while k < |opks|
        invariant k <= |opks|
        invariant State() == old(State()).(bundles := old(bundles)[bundle := payload], oneTime := oneTime)
        invariant InsertOpks(rowsBefore, bundle, opks) == InsertOpks(oneTime, bundle, opks[k..])
      {
        match opks[k] {
          case BadOpkEntry =>
            bundles, oneTime := bundlesBefore, rowsBefore;
            return Failure(MalformedOpk);
          case OpkEntry(opkId, opk) =>
            assert opks[k..][1..] == opks[k + 1..];
            var known := FindOpk(bundle, opkId);
            if !known {
              oneTime := oneTime + [OneTimeRow(bundle, opkId, opk, false)];
            }
        }
        k := k + 1;
      }
      return Success(());
    }

    /** The uniqueness check of `INSERT OR IGNORE`. */
    method FindOpk(bundle: Id, opkId: int) returns (known: bool)
      ensures known == HasOpk(oneTime, bundle, opkId)
    {
      var i := 0;
      while i < |oneTime|
        invariant i <= |oneTime|
        invariant forall j :: 0 <= j < i ==> oneTime[j].bundle != bundle || oneTime[j].opkId != opkId
      {
        if oneTime[i].bundle == bundle && oneTime[i].opkId == opkId {
          return true;
        }
        i := i + 1;
      }
      return false;
    }

    method Fetch(bundle: Id) returns (r: Result<Fetched, DbError>)
      modifies this
      ensures State() == Apply(old(State()), FetchBundleOp(bundle))
      ensures match FetchBundle(old(State()), bundle)
              case Success(p) => r == Success(p.1)
              case Failure(e) => r == Failure(e)
    {
      if bundle !in bundles {
        return Failure(BundleNotFound);
      }
      var next := FirstUnused(oneTime, bundle);
      if next.None? {
        return Success(Fetched(bundles[bundle], None));
      }
      var row := oneTime[next.value];
      oneTime := oneTime[next.value := row.(used := true)];
      return Success(Fetched(bundles[bundle], Some((row.opkId, row.opk))));
    }

    method StoreBlob(chunk: Id, id: Id, ciphertext: Bytes, now: int) returns (r: Result<(), DbError>)
      modifies this
      ensures State() == Apply(old(State()), PutBlobOp(chunk, id, ciphertext, now))
      ensures match PutBlob(old(State()), chunk, id, ciphertext, now)
              case Success(_) => r == Success(())
              case Failure(e) => r == Failure(e)
    {
      if id !in mailboxes {
        return Failure(MailboxNotFound);
      }
      if Used(State(), id) + |ciphertext| > mailboxes[id].maxBytes {
        return Failure(QuotaExceeded);
      }
      if HasChunk(blobs, chunk) {
        return Failure(UniqueViolation);
      }
      blobs := blobs + [BlobRow(chunk, id, ciphertext, |ciphertext|, now)];
      return Success(());
    }

    /**
     Removes idle mailboxes one by one, then stray blobs. In a valid state nothing is stray and
     the report counts exactly the rows that vanished.
     */
    method Sweep(now: int, mailboxTtl: int, blobTtl: int) returns (report: Report)
      requires Valid(State())
      modifies this
      ensures State() == Housekeeping(old(State()), now, mailboxTtl, blobTtl)
      ensures State() == DropMailboxes(old(State()), Stale(old(State()), now - mailboxTtl))
      ensures Valid(State())
      ensures report.mailboxes + |mailboxes| == |old(mailboxes)|
      ensures report.messages + |messages| == |old(messages)|
      ensures report.blobs + |blobs| == |old(blobs)|
    {
      hide Valid, DropMailboxes, DeleteMailbox, Keep;
      ghost var before := State();
      ghost var idle := Stale(before, now - mailboxTtl);
      var todo := Stale(State(), now - mailboxTtl);
      var stale := |todo|;
      var removedMessages: nat, removedBlobs: nat := 0, 0;
      DropNone(before);
      assert idle - todo == {};
      while todo != {}
        invariant todo <= idle
        invariant State() == DropMailboxes(before, idle - todo)
        invariant |mailboxes| + |idle - todo| == |before.mailboxes|
        invariant removedMessages + |messages| == |before.messages|
        invariant removedBlobs + |blobs| == |before.blobs|
        decreases |todo|
      {
        var id :| id in todo;
        DropOneMore(before, idle - todo, id);
        assert idle - todo + {id} == idle - (todo - {id});
        DropSizes(before, idle - todo, id);
        var m, b := Delete(id);
        removedMessages := removedMessages + m;
        removedBlobs := removedBlobs + b;
        todo := todo - {id};
      }
      assert idle - todo == idle;
      DroppedIsClean(before, now, mailboxTtl, blobTtl);
      var stray := |Keep(blobs, Stray(State(), now - blobTtl))|;
      blobs := Keep(blobs, Not(Stray(State(), now - blobTtl)));
      report := Report(stale, removedMessages, removedBlobs + stray);
    }
  }

  /** Once the idle mailboxes are gone the state is valid and holds no stray blob. */
  lemma DroppedIsClean(db: Tables, now: int, mailboxTtl: int, blobTtl: int)
    requires Valid(db)
    ensures var dropped := DropMailboxes(db, Stale(db, now - mailboxTtl));
            && Valid(dropped)
            && Keep(dropped.blobs, Stray(dropped, now - blobTtl)) == []
            && Keep(dropped.blobs, Not(Stray(dropped, now - blobTtl))) == dropped.blobs
            && Housekeeping(db, now, mailboxTtl, blobTtl) == dropped
  {
    var idle := Stale(db, now - mailboxTtl);
    DeletingKeepsValid(db, idle, Not(MessageInAny(idle)), Not(BlobInAny(idle)));
    var dropped := DropMailboxes(db, idle);
    NoStrays(dropped, now - blobTtl);
    KeepEverything(dropped.blobs, Not(Stray(dropped, now - blobTtl)));
  }

  lemma DropNone(db: Tables)
    ensures DropMailboxes(db, {}) == db
  {
    KeepEverything(db.messages, Not(MessageInAny({})));
    KeepEverything(db.blobs, Not(BlobInAny({})));
    assert db.mailboxes - {} == db.mailboxes;
  }

  lemma DropSizes(db: Tables, ids: set<Id>, id: Id)
    requires id in db.mailboxes && id !in ids
    ensures |DropMailboxes(db, ids + {id}).mailboxes| == |DropMailboxes(db, ids).mailboxes| - 1
  {
    var a, b := db.mailboxes - ids, db.mailboxes - (ids + {id});
    assert b.Keys == a.Keys - {id};
    assert |a.Keys| == |a| && |b.Keys| == |b|;
  }

  lemma DropOneMore(db: Tables, ids: set<Id>, id: Id)
    ensures DeleteMailbox(DropMailboxes(db, ids), id) == DropMailboxes(db, ids + {id})
  {
    KeepKeep(db.messages, Not(MessageInAny(ids)), Not(MessageIn(id)));
    KeepAgree(db.messages, And(Not(MessageInAny(ids)), Not(MessageIn(id))), Not(MessageInAny(ids + {id})));
    KeepKeep(db.blobs, Not(BlobInAny(ids)), Not(BlobIn(id)));
    KeepAgree(db.blobs, And(Not(BlobInAny(ids)), Not(BlobIn(id))), Not(BlobInAny(ids + {id})));
    assert db.mailboxes - ids - {id} == db.mailboxes - (ids + {id});
  }
}

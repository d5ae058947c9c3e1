/**
 What a run of requests does to one mailbox and one bundle: whose limits and tokens they keep, when a put
 is accepted, when housekeeping takes a mailbox away, and which payload a fetch returns.
 */
module RelayLives {
  import opened Wrappers
  import opened Rows
  import opened RelayDb
  import opened RelayRuns
  import opened RelayMailbox
  import opened RelayBoxes

  // ---------------------------------------------------------------- limits and tokens

  lemma StepKeepsLimits(db: Tables, op: Op, id: Id)
    requires Valid(db) && id in db.mailboxes && Survives(db, op, id)
    ensures id in Apply(db, op).mailboxes
    ensures var before, after := db.mailboxes[id], Apply(db, op).mailboxes[id];
            after == before.(lastSeen := after.lastSeen, nextSeq := after.nextSeq)
  {
    SurvivedStep(db, op, id);
  }

  lemma {:induction false} RunKeepsLimits(db: Tables, ops: seq<Op>, id: Id)
    requires Valid(db) && id in db.mailboxes && SurvivesAll(db, ops, id)
    ensures Valid(Run(db, ops)) && id in Run(db, ops).mailboxes
    ensures var before, after := db.mailboxes[id], Run(db, ops).mailboxes[id];
            after == before.(lastSeen := after.lastSeen, nextSeq := after.nextSeq)
    decreases |ops|
  {
    hide Valid, Apply, Survives;
    if ops != [] {
      ApplyKeepsValid(db, ops[0]);
      StepKeepsLimits(db, ops[0], id);
      RunKeepsLimits(Apply(db, ops[0]), ops[1..], id);
    }
  }

  /**
   From its creation on, a mailbox keeps the creator's tokens, and takes a message exactly when fewer than the
   creator's number of messages wait and the waiting bytes, messages and blobs together, leave room under the
   creator's quota. A blob only needs room, and a name that is free.
   */
  lemma AcceptedExactlyWhenRoom(db: Tables, id: Id, readHash: nat, writeHash: nat, now: int, maxMessages: nat, maxBytes: nat,
                                ops: seq<Op>, text: Bytes, at: int, name: Id)
    requires Valid(db) && id !in db.mailboxes
    requires var create := CreateOp(id, readHash, writeHash, now, maxMessages, maxBytes);
             SurvivesAll(Apply(db, create), ops, id)
    ensures var create := CreateOp(id, readHash, writeHash, now, maxMessages, maxBytes);
            var end := Run(Apply(db, create), ops);
            && id in end.mailboxes
            && var box := BoxOf(end, id);
               var bytes := LetterBytes(box.letters) + ChunkBytes(box.chunks) + |text|;
               && box.readHash == readHash && box.writeHash == writeHash
               && (PutMessage(end, id, text, at).Success? <==> |box.letters| < maxMessages && bytes <= maxBytes)
               && (PutBlob(end, name, id, text, at).Success? <==> bytes <= maxBytes && GetBlob(end, name) == None)
  {
    hide Valid, SurvivesAll, Run, BoxOf, LetterBytes, ChunkBytes, Used, Count, GetBlob, HasChunk;
    var create := CreateOp(id, readHash, writeHash, now, maxMessages, maxBytes);
    var start := Apply(db, create);
    ApplyKeepsValid(db, create);
    RunKeepsLimits(start, ops, id);
    var end := Run(start, ops);
    RoomIsRoom(end, id, |text|);
    BoxTokens(end, id);
    NoBlobMeansFree(end, name);
  }

  lemma BoxTokens(db: Tables, id: Id)
    requires id in db.mailboxes
    ensures var box, m := BoxOf(db, id), db.mailboxes[id];
            box.readHash == m.readHash && box.writeHash == m.writeHash && box.maxBytes == m.maxBytes
  {
  }

  lemma NoBlobMeansFree(db: Tables, name: Id)
    ensures GetBlob(db, name) == None <==> !HasChunk(db.blobs, name)
  {
  }

  // ---------------------------------------------------------------- signs of life

  /** Request `i` shows that the mailbox is in use: a touch, or a message accepted for it. */
  predicate SignAt(db: Tables, ops: seq<Op>, i: nat, id: Id)
    requires i < |ops|
  {
    || (ops[i].TouchOp? && ops[i].id == id)
    || (ops[i].PutOp? && ops[i].id == id && PutMessage(Run(db, ops[..i]), id, ops[i].ciphertext, ops[i].now).Success?)
  }

  function TimeOf(op: Op): int {
    if op.TouchOp? || op.PutOp? then op.now else 0
  }

  /** The clock does not run backwards from sign to sign, nor before the first one. */
  ghost predicate Forwards(db: Tables, ops: seq<Op>, id: Id, created: int) {
    && (forall i :: 0 <= i < |ops| && SignAt(db, ops, i, id) ==> created <= TimeOf(ops[i]))
    && (forall i, j :: 0 <= i < j < |ops| && SignAt(db, ops, i, id) && SignAt(db, ops, j, id) ==> TimeOf(ops[i]) <= TimeOf(ops[j]))
  }

  lemma {:induction false} RunAppend(db: Tables, ops: seq<Op>, last: Op)
    ensures Run(db, ops + [last]) == Apply(Run(db, ops), last)
    decreases |ops|
  {
    hide Apply;
    if ops == [] {
      assert [last][1..] == [];
    } else {
      assert (ops + [last])[1..] == ops[1..] + [last];
      RunAppend(Apply(db, ops[0]), ops[1..], last);
    }
  }

  lemma {:induction false} SurvivesPrefix(db: Tables, ops: seq<Op>, last: Op, id: Id)
    requires SurvivesAll(db, ops + [last], id)
    ensures SurvivesAll(db, ops, id) && Survives(Run(db, ops), last, id)
    decreases |ops|
  {
    hide Apply, Survives;
    if ops != [] {
      assert (ops + [last])[1..] == ops[1..] + [last];
      SurvivesPrefix(Apply(db, ops[0]), ops[1..], last, id);
    }
  }

  lemma SignInPrefix(db: Tables, ops: seq<Op>, last: Op, i: nat, id: Id)
    requires i < |ops|
    ensures SignAt(db, ops + [last], i, id) == SignAt(db, ops, i, id)
  {
    assert (ops + [last])[..i] == ops[..i];
  }

  /** The last sign of life is a sign there was, and none is later. */
  ghost predicate SeenLast(db: Tables, ops: seq<Op>, id: Id, created: int, seen: int) {
    && created <= seen
    && (seen == created || exists i :: 0 <= i < |ops| && SignAt(db, ops, i, id) && TimeOf(ops[i]) == seen)
    && (forall i :: 0 <= i < |ops| && SignAt(db, ops, i, id) ==> TimeOf(ops[i]) <= seen)
  }

  lemma {:induction false} LastSeenIsLastSign(db: Tables, ops: seq<Op>, id: Id)
    requires Valid(db) && id in db.mailboxes && SurvivesAll(db, ops, id)
    requires Forwards(db, ops, id, db.mailboxes[id].lastSeen)
    ensures id in Run(db, ops).mailboxes
    ensures SeenLast(db, ops, id, db.mailboxes[id].lastSeen, Run(db, ops).mailboxes[id].lastSeen)
    decreases |ops|
  {
    hide Valid, Apply, SignAt, Survives, TimeOf;
    if ops != [] {
      var before, last := ops[..|ops| - 1], ops[|ops| - 1];
      assert ops == before + [last];
      SurvivesPrefix(db, before, last, id);
      forall i | 0 <= i < |before| ensures SignAt(db, ops, i, id) == SignAt(db, before, i, id) {
        SignInPrefix(db, before, last, i, id);
      }
      LastSeenIsLastSign(db, before, id);
      RunKeepsLimits(db, before, id);
      RunAppend(db, before, last);
      StepSign(db, ops, id);
      SeenOneMore(db, ops, id, db.mailboxes[id].lastSeen, Run(db, before).mailboxes[id].lastSeen);
    }
  }

  /** A later sign replaces the last one; anything else leaves it. */
  lemma SeenOneMore(db: Tables, ops: seq<Op>, id: Id, created: int, seen: int)
    requires ops != [] && SeenLast(db, ops[..|ops| - 1], id, created, seen) && Forwards(db, ops, id, created)
    requires forall i :: 0 <= i < |ops| - 1 ==> SignAt(db, ops, i, id) == SignAt(db, ops[..|ops| - 1], i, id)
    ensures SeenLast(db, ops, id, created, if SignAt(db, ops, |ops| - 1, id) then TimeOf(ops[|ops| - 1]) else seen)
  {
    hide SignAt, TimeOf;
    var before, k := ops[..|ops| - 1], |ops| - 1;
    if seen != created {
      var i :| 0 <= i < |before| && SignAt(db, before, i, id) && TimeOf(before[i]) == seen;
      assert SignAt(db, ops, i, id) && TimeOf(ops[i]) == seen;
    }
    forall i | 0 <= i < k && SignAt(db, ops, i, id) ensures TimeOf(ops[i]) <= seen {
      assert TimeOf(before[i]) <= seen;
    }
  }

  /** One request moves the last sign of life to its own time exactly when it is a sign. */
  lemma StepSign(db: Tables, ops: seq<Op>, id: Id)
    requires ops != []
    requires var now := Run(db, ops[..|ops| - 1]);
             Valid(now) && id in now.mailboxes && Survives(now, ops[|ops| - 1], id)
    ensures var now, k := Run(db, ops[..|ops| - 1]), |ops| - 1;
            && id in Apply(now, ops[k]).mailboxes
            && Apply(now, ops[k]).mailboxes[id].lastSeen ==
               if SignAt(db, ops, k, id) then TimeOf(ops[k]) else now.mailboxes[id].lastSeen
  {
    SurvivedStep(Run(db, ops[..|ops| - 1]), ops[|ops| - 1], id);
    hide Valid, Run;
  }

  /**
   Housekeeping takes a mailbox away exactly when its creation and every sign of life since, each touch and each
   message accepted, lie before the cutoff; and it takes everything else in it along.
   */
  lemma SweptExactlyWhenIdle(db: Tables, id: Id, readHash: nat, writeHash: nat, created: int, maxMessages: nat, maxBytes: nat,
                             ops: seq<Op>, now: int, ttl: int, blobTtl: int)
    requires Valid(db) && id !in db.mailboxes
    requires var start := Apply(db, CreateOp(id, readHash, writeHash, created, maxMessages, maxBytes));
             SurvivesAll(start, ops, id) && Forwards(start, ops, id, created)
    ensures var start := Apply(db, CreateOp(id, readHash, writeHash, created, maxMessages, maxBytes));
            var end := Run(start, ops);
            && id in end.mailboxes
            && (id !in Housekeeping(end, now, ttl, blobTtl).mailboxes <==>
                  created < now - ttl && forall i :: 0 <= i < |ops| && SignAt(start, ops, i, id) ==> TimeOf(ops[i]) < now - ttl)
            && (id !in Housekeeping(end, now, ttl, blobTtl).mailboxes ==>
                  Inbox(Housekeeping(end, now, ttl, blobTtl), id) == [])
  {
    hide Valid, SurvivesAll, SignAt, Run, Housekeeping, Inbox, Forwards;
    var create := CreateOp(id, readHash, writeHash, created, maxMessages, maxBytes);
    var start := Apply(db, create);
    ApplyKeepsValid(db, create);
    LastSeenIsLastSign(start, ops, id);
    RunKeepsValid(start, ops);
    SweptAtCutoff(Run(start, ops), id, now, ttl, blobTtl);
  }

  lemma SweptAtCutoff(db: Tables, id: Id, now: int, ttl: int, blobTtl: int)
    requires Valid(db) && id in db.mailboxes
    ensures var after := Housekeeping(db, now, ttl, blobTtl);
            && (id !in after.mailboxes <==> db.mailboxes[id].lastSeen < now - ttl)
            && (id !in after.mailboxes ==> Inbox(after, id) == [])
  {
    var after := Housekeeping(db, now, ttl, blobTtl);
    ApplyKeepsValid(db, HousekeepingOp(now, ttl, blobTtl));
    if id !in after.mailboxes {
      FreshMailboxIsEmpty(after, id);
    }
    hide Inbox, Valid;
  }

  // ---------------------------------------------------------------- payloads

  predicate WellFormed(opks: seq<OpkEntry>) {
    forall i :: 0 <= i < |opks| ==> opks[i].OpkEntry?
  }

  /** The payload of the last publish that went through: all its one-time keys read as keys. */
  function LastPublished(ops: seq<Op>, bundle: Id): Option<nat>
    decreases |ops|
  {
    if ops == [] then None
    else
      var last := ops[|ops| - 1];
      if last.PublishOp? && last.bundle == bundle && WellFormed(last.opks) then Some(last.payload)
      else LastPublished(ops[..|ops| - 1], bundle)
  }

  /** The payload of a bundle in the tables. */
  function PayloadIn(db: Tables, bundle: Id): Option<nat> {
    if bundle in db.bundles then Some(db.bundles[bundle]) else None
  }

  lemma {:induction false} PayloadIsLastPublished(ops: seq<Op>, bundle: Id)
    ensures PayloadIn(Run(Empty, ops), bundle) == LastPublished(ops, bundle)
    decreases |ops|
  {
    if ops != [] {
      var before, last := ops[..|ops| - 1], ops[|ops| - 1];
      assert ops == before + [last];
      PayloadIsLastPublished(before, bundle);
      RunAppend(Empty, before, last);
      hide Run, Apply;
      PayloadStep(Run(Empty, before), last, bundle);
    }
  }

  lemma PayloadStep(db: Tables, op: Op, bundle: Id)
    ensures PayloadIn(Apply(db, op), bundle) ==
            if op.PublishOp? && op.bundle == bundle && WellFormed(op.opks) then Some(op.payload) else PayloadIn(db, bundle)
  {
    if op.PublishOp? {
      InsertQueues(db.oneTime, op.bundle, op.opks, 0);
      hide InsertOpks;
    }
  }

  /** A fetch returns the payload of the last publish of the bundle that went through, and fails if there was none. */
  lemma FetchReturnsLastPublished(ops: seq<Op>, bundle: Id)
    ensures var fetched, payload := FetchBundle(Run(Empty, ops), bundle), LastPublished(ops, bundle);
            if payload.None? then fetched == Failure(BundleNotFound)
            else fetched.Success? && fetched.value.1.payload == payload.value
  {
    PayloadIsLastPublished(ops, bundle);
    hide Run, LastPublished;
  }
}

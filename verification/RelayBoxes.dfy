/**
 The relay as its users know it: boxes holding letters and chunks, and shelves of one-time keys handed out
 first come first served. The tables are one way to keep them: every transaction answers as the boxes and
 shelves do, and leaves tables that stand for what they become.
 */
module RelayBoxes {
  import opened Wrappers
  import opened Rows
  import opened RelayDb
  import opened RelayRuns

  datatype Letter = Letter(number: nat, text: Bytes, at: int)

  datatype Chunk = Chunk(name: Id, text: Bytes)

  /** A mailbox: whose it is, its limits, its last sign of life, the next number, and what waits in it. */
  datatype Box = Box(
    readHash: nat, writeHash: nat, maxMessages: nat, maxBytes: nat, seenAt: int,
    next: nat, letters: seq<Letter>, chunks: seq<Chunk>)

  /** A published bundle: its payload, the keys still to hand out, and every key id ever accepted. */
  datatype Shelf = Shelf(payload: nat, queue: seq<(int, nat)>, accepted: set<int>)

  datatype Relay = Relay(boxes: map<Id, Box>, shelves: map<Id, Shelf>)

  datatype Reply =
    | Done
    | Failed(error: DbError)
    | Numbered(number: nat)
    | Gone(messages: nat, blobs: nat)
    | Handed(payload: nat, key: Option<(int, nat)>)

  // ---------------------------------------------------------------- what users see

  function LetterBytes(letters: seq<Letter>): nat {
    if letters == [] then 0 else |letters[0].text| + LetterBytes(letters[1..])
  }

  function ChunkBytes(chunks: seq<Chunk>): nat {
    if chunks == [] then 0 else |chunks[0].text| + ChunkBytes(chunks[1..])
  }

  /** The letters numbered above `number`, in order. */
  function Above(letters: seq<Letter>, number: int): seq<Letter> {
    if letters == [] then []
    else (if letters[0].number > number then [letters[0]] else []) + Above(letters[1..], number)
  }

  function Unlike(chunks: seq<Chunk>, name: Id): seq<Chunk> {
    if chunks == [] then [] else (if chunks[0].name == name then [] else [chunks[0]]) + Unlike(chunks[1..], name)
  }

  predicate HasRoom(box: Box, size: nat) {
    LetterBytes(box.letters) + ChunkBytes(box.chunks) + size <= box.maxBytes
  }

  predicate Kept(r: Relay, name: Id) {
    exists id :: id in r.boxes && exists i :: 0 <= i < |r.boxes[id].chunks| && r.boxes[id].chunks[i].name == name
  }

  /** New keys queue up behind the others, unless their id was accepted before. */
  function Queued(shelf: Shelf, opks: seq<OpkEntry>): Shelf
    requires forall i :: 0 <= i < |opks| ==> opks[i].OpkEntry?
    decreases |opks|
  {
    if opks == [] then shelf
    else if opks[0].opkId in shelf.accepted then Queued(shelf, opks[1..])
    else Queued(shelf.(queue := shelf.queue + [(opks[0].opkId, opks[0].opk)], accepted := shelf.accepted + {opks[0].opkId}),
                opks[1..])
  }

  function ShelfOf(r: Relay, bundle: Id, payload: nat): Shelf {
    if bundle in r.shelves then r.shelves[bundle].(payload := payload) else Shelf(payload, [], {})
  }

  function Serve(r: Relay, op: Op): (Relay, Reply) {
    match op
    case CreateOp(id, readHash, writeHash, now, maxMessages, maxBytes) =>
      if id in r.boxes then (r, Failed(UniqueViolation))
      else (r.(boxes := r.boxes[id := Box(readHash, writeHash, maxMessages, maxBytes, now, 1, [], [])]), Done)
    case DeleteOp(id) =>
      if id in r.boxes then (r.(boxes := r.boxes - {id}), Gone(|r.boxes[id].letters|, |r.boxes[id].chunks|))
      else (r, Gone(0, 0))
    case TouchOp(id, now) =>
      (if id in r.boxes then r.(boxes := r.boxes[id := r.boxes[id].(seenAt := now)]) else r, Done)
    case PutOp(id, text, now) =>
      if id !in r.boxes then (r, Failed(MailboxNotFound))
      else
        var box := r.boxes[id];
        if |box.letters| < box.maxMessages && HasRoom(box, |text|) then
          (r.(boxes := r.boxes[id := box.(letters := box.letters + [Letter(box.next, text, now)], next := box.next + 1, seenAt := now)]),
           Numbered(box.next))
        else (r, Failed(QuotaExceeded))
    case AckOp(id, upto) =>
      if id !in r.boxes then (r, Gone(0, 0))
      else
        var box := r.boxes[id];
        var left := Above(box.letters, upto);
        (r.(boxes := r.boxes[id := box.(letters := left)]), Gone(if |left| <= |box.letters| then |box.letters| - |left| else 0, 0))
    case PublishOp(bundle, payload, opks) =>
      if exists i :: 0 <= i < |opks| && opks[i].BadOpkEntry? then (r, Failed(MalformedOpk))
      else (r.(shelves := r.shelves[bundle := Queued(ShelfOf(r, bundle, payload), opks)]), Done)
    case FetchBundleOp(bundle) =>
      if bundle !in r.shelves then (r, Failed(BundleNotFound))
      else
        var shelf := r.shelves[bundle];
        if shelf.queue == [] then (r, Handed(shelf.payload, None))
        else (r.(shelves := r.shelves[bundle := shelf.(queue := shelf.queue[1..])]), Handed(shelf.payload, Some(shelf.queue[0])))
    case PutBlobOp(name, id, text, now) =>
      if id !in r.boxes then (r, Failed(MailboxNotFound))
      else if !HasRoom(r.boxes[id], |text|) then (r, Failed(QuotaExceeded))
      else if Kept(r, name) then (r, Failed(UniqueViolation))
      else (r.(boxes := r.boxes[id := r.boxes[id].(chunks := r.boxes[id].chunks + [Chunk(name, text)])]), Done)
    case DeleteBlobOp(name) =>
      (r.(boxes := map id | id in r.boxes :: r.boxes[id].(chunks := Unlike(r.boxes[id].chunks, name))), Done)
    case HousekeepingOp(now, mailboxTtl, _) =>
      (r.(boxes := map id | id in r.boxes && now - mailboxTtl <= r.boxes[id].seenAt :: r.boxes[id]), Done)
  }

  function ServeAll(r: Relay, ops: seq<Op>): Relay
    decreases |ops|
  {
    if ops == [] then r else ServeAll(Serve(r, ops[0]).0, ops[1..])
  }

  // ---------------------------------------------------------------- what the tables stand for

  function Letters(rows: seq<MessageRow>): (letters: seq<Letter>)
    ensures |letters| == |rows|
    ensures forall i :: 0 <= i < |rows| ==> letters[i] == Letter(rows[i].seqNo, rows[i].ciphertext, rows[i].createdAt)
  {
    seq(|rows|, i requires 0 <= i < |rows| => Letter(rows[i].seqNo, rows[i].ciphertext, rows[i].createdAt))
  }

  function Chunks(rows: seq<BlobRow>): (chunks: seq<Chunk>)
    ensures |chunks| == |rows|
    ensures forall i :: 0 <= i < |rows| ==> chunks[i] == Chunk(rows[i].chunk, rows[i].ciphertext)
  {
    seq(|rows|, i requires 0 <= i < |rows| => Chunk(rows[i].chunk, rows[i].ciphertext))
  }

  /** The unused keys of a bundle, first inserted first. */
  function Unused(rows: seq<OneTimeRow>, bundle: Id): seq<(int, nat)> {
    if rows == [] then []
    else (if rows[0].bundle == bundle && !rows[0].used then [(rows[0].opkId, rows[0].opk)] else []) + Unused(rows[1..], bundle)
  }

  function IdsOf(rows: seq<OneTimeRow>, bundle: Id): set<int> {
    set i | 0 <= i < |rows| && rows[i].bundle == bundle :: rows[i].opkId
  }

  function BoxOf(db: Tables, id: Id): Box
    requires id in db.mailboxes
  {
    var m := db.mailboxes[id];
    Box(m.readHash, m.writeHash, m.maxMessages, m.maxBytes, m.lastSeen, m.nextSeq,
        Letters(Inbox(db, id)), Chunks(Keep(db.blobs, BlobIn(id))))
  }

  function Shown(db: Tables): Relay {
    Relay(map id | id in db.mailboxes :: BoxOf(db, id),
          map b | b in db.bundles :: Shelf(db.bundles[b], Unused(db.oneTime, b), IdsOf(db.oneTime, b)))
  }

  /** What a transaction on the tables answers. */
  function Answer(db: Tables, op: Op): Reply {
    match op
    case CreateOp(id, readHash, writeHash, now, maxMessages, maxBytes) =>
      (match CreateMailbox(db, id, readHash, writeHash, now, maxMessages, maxBytes)
       case Success(_) => Done case Failure(e) => Failed(e))
    case DeleteOp(id) => Gone(|Keep(db.messages, MessageIn(id))|, |Keep(db.blobs, BlobIn(id))|)
    case TouchOp(_, _) => Done
    case PutOp(id, text, now) =>
      (match PutMessage(db, id, text, now) case Success(p) => Numbered(p.1) case Failure(e) => Failed(e))
    case AckOp(id, upto) => Gone(AckMessages(db, id, upto).1, 0)
    case PublishOp(bundle, payload, opks) =>
      (match PublishBundle(db, bundle, payload, opks) case Success(_) => Done case Failure(e) => Failed(e))
    case FetchBundleOp(bundle) =>
      (match FetchBundle(db, bundle) case Success(p) => Handed(p.1.payload, p.1.opk) case Failure(e) => Failed(e))
    case PutBlobOp(chunk, id, text, now) =>
      (match PutBlob(db, chunk, id, text, now) case Success(_) => Done case Failure(e) => Failed(e))
    case DeleteBlobOp(_) => Done
    case HousekeepingOp(_, _, _) => Done
  }

  /** One-time keys belong to published bundles. */
  ghost predicate Shelved(db: Tables) {
    forall row :: row in db.oneTime ==> row.bundle in db.bundles
  }

  ghost predicate Good(db: Tables) {
    Valid(db) && Shelved(db)
  }

  // ---------------------------------------------------------------- bytes and boxes

  lemma {:induction false} LetterBytesAre(rows: seq<MessageRow>)
    requires forall row :: row in rows ==> row.size == |row.ciphertext|
    ensures LetterBytes(Letters(rows)) == Sum(rows, MessageSize())
  {
    if rows != [] {
      LetterBytesAre(rows[1..]);
      assert Letters(rows)[1..] == Letters(rows[1..]);
    }
  }

  lemma {:induction false} ChunkBytesAre(rows: seq<BlobRow>)
    requires forall row :: row in rows ==> row.size == |row.ciphertext|
    ensures ChunkBytes(Chunks(rows)) == Sum(rows, BlobSize())
  {
    if rows != [] {
      ChunkBytesAre(rows[1..]);
      assert Chunks(rows)[1..] == Chunks(rows[1..]);
    }
  }

  /** The quota test of the tables is that of the box. */
  lemma RoomIsRoom(db: Tables, id: Id, size: nat)
    requires Valid(db) && id in db.mailboxes
    ensures |BoxOf(db, id).letters| == Count(db, id)
    ensures HasRoom(BoxOf(db, id), size) <==> Used(db, id) + size <= db.mailboxes[id].maxBytes
  {
    KeepAllMembers(db.messages, MessageIn(id));
    KeepAllMembers(db.blobs, BlobIn(id));
    forall row | row in Inbox(db, id) ensures row.size == |row.ciphertext| {
      assert MessageOk(db, row);
    }
    forall row | row in Keep(db.blobs, BlobIn(id)) ensures row.size == |row.ciphertext| {
      assert BlobOk(db, row);
    }
    LetterBytesAre(Inbox(db, id));
    ChunkBytesAre(Keep(db.blobs, BlobIn(id)));
  }

  lemma {:induction false} AboveIs(rows: seq<MessageRow>, upto: int)
    ensures Above(Letters(rows), upto) == Letters(Keep(rows, Over(upto)))
  {
    if rows != [] {
      AboveIs(rows[1..], upto);
      assert Letters(rows)[1..] == Letters(rows[1..]);
      LettersHead(rows[0], Keep(rows[1..], Over(upto)));
    }
  }

  lemma LettersHead(row: MessageRow, rest: seq<MessageRow>)
    ensures Letters([row] + rest) == [Letter(row.seqNo, row.ciphertext, row.createdAt)] + Letters(rest)
  {
  }

  lemma {:induction false} UnlikeIs(rows: seq<BlobRow>, name: Id)
    ensures Unlike(Chunks(rows), name) == Chunks(Keep(rows, Not(ChunkIs(name))))
  {
    if rows != [] {
      UnlikeIs(rows[1..], name);
      assert Chunks(rows)[1..] == Chunks(rows[1..]);
      assert Chunks([rows[0]] + Keep(rows[1..], Not(ChunkIs(name))))
          == [Chunk(rows[0].chunk, rows[0].ciphertext)] + Chunks(Keep(rows[1..], Not(ChunkIs(name))));
    }
  }

  /** A chunk is kept in some box exactly when the table has it. */
  lemma KeptIsHeld(db: Tables, name: Id)
    requires Valid(db)
    ensures Kept(Shown(db), name) <==> HasChunk(db.blobs, name)
  {
    var r := Shown(db);
    if HasChunk(db.blobs, name) {
      var i :| 0 <= i < |db.blobs| && db.blobs[i].chunk == name;
      var row := db.blobs[i];
      assert BlobOk(db, row);
      KeepMembers(db.blobs, BlobIn(row.mailbox), row);
      var rows := Keep(db.blobs, BlobIn(row.mailbox));
      var k :| 0 <= k < |rows| && rows[k] == row;
      assert r.boxes[row.mailbox].chunks[k].name == name;
    }
    if Kept(r, name) {
      var id, i :| id in r.boxes && 0 <= i < |r.boxes[id].chunks| && r.boxes[id].chunks[i].name == name;
      var rows := Keep(db.blobs, BlobIn(id));
      KeepMembers(db.blobs, BlobIn(id), rows[i]);
    }
  }

  // ---------------------------------------------------------------- shelves

  lemma {:induction false} UnusedAppend(rows: seq<OneTimeRow>, row: OneTimeRow, bundle: Id)
    ensures Unused(rows + [row], bundle)
         == Unused(rows, bundle) + if row.bundle == bundle && !row.used then [(row.opkId, row.opk)] else []
    ensures IdsOf(rows + [row], bundle) == IdsOf(rows, bundle) + if row.bundle == bundle then {row.opkId} else {}
  {
    IdsAppend(rows, row, bundle);
    if rows == [] {
      assert rows + [row] == [row] && [row][1..] == [];
    } else {
      assert (rows + [row])[1..] == rows[1..] + [row];
      UnusedAppend(rows[1..], row, bundle);
    }
  }

  lemma IdsAppend(rows: seq<OneTimeRow>, row: OneTimeRow, bundle: Id)
    ensures IdsOf(rows + [row], bundle) == IdsOf(rows, bundle) + if row.bundle == bundle then {row.opkId} else {}
  {
    var all := rows + [row];
    forall x ensures x in IdsOf(all, bundle) <==> x in IdsOf(rows, bundle) || (row.bundle == bundle && x == row.opkId) {
      if x in IdsOf(rows, bundle) {
        var i :| 0 <= i < |rows| && rows[i].bundle == bundle && rows[i].opkId == x;
        assert all[i].opkId == x;
      }
      if row.bundle == bundle && x == row.opkId {
        assert all[|rows|].opkId == x;
      }
    }
  }

  lemma {:induction false} InsertQueues(rows: seq<OneTimeRow>, bundle: Id, opks: seq<OpkEntry>, payload: nat)
    ensures InsertOpks(rows, bundle, opks).Failure? <==> exists i :: 0 <= i < |opks| && opks[i].BadOpkEntry?
    ensures InsertOpks(rows, bundle, opks).Failure? ==> InsertOpks(rows, bundle, opks).error == MalformedOpk
    ensures InsertOpks(rows, bundle, opks).Success? ==>
              var after := InsertOpks(rows, bundle, opks).value;
              && (forall i :: 0 <= i < |opks| ==> opks[i].OpkEntry?)
              && Shelf(payload, Unused(after, bundle), IdsOf(after, bundle))
                 == Queued(Shelf(payload, Unused(rows, bundle), IdsOf(rows, bundle)), opks)
              && (forall other :: other != bundle ==>
                    Unused(after, other) == Unused(rows, other) && IdsOf(after, other) == IdsOf(rows, other))
              && (forall row :: row in after ==> row in rows || row.bundle == bundle)
    decreases |opks|
  {
    if opks != [] && opks[0].OpkEntry? {
      var row := OneTimeRow(bundle, opks[0].opkId, opks[0].opk, false);
      var next := if HasOpk(rows, bundle, opks[0].opkId) then rows else rows + [row];
      InsertQueues(next, bundle, opks[1..], payload);
      assert HasOpk(rows, bundle, opks[0].opkId) <==> opks[0].opkId in IdsOf(rows, bundle);
      forall other | other != bundle
        ensures Unused(rows + [row], other) == Unused(rows, other) && IdsOf(rows + [row], other) == IdsOf(rows, other)
      {
        UnusedAppend(rows, row, other);
      }
      UnusedAppend(rows, row, bundle);
      assert (exists i :: 0 <= i < |opks| && opks[i].BadOpkEntry?)
        <==> (exists i :: 0 <= i < |opks[1..]| && opks[1..][i].BadOpkEntry?) by {
        forall i | 0 <= i < |opks| && opks[i].BadOpkEntry? ensures i > 0 && opks[1..][i - 1].BadOpkEntry? {
        }
      }
      assert opks == [opks[0]] + opks[1..];
    }
  }

  /** The first unused key is the head of the queue. */
  lemma {:induction false} FirstIsHead(rows: seq<OneTimeRow>, bundle: Id)
    ensures FirstUnused(rows, bundle).None? <==> Unused(rows, bundle) == []
    ensures FirstUnused(rows, bundle).Some? ==>
              var i := FirstUnused(rows, bundle).value;
              var after := rows[i := rows[i].(used := true)];
              && Unused(rows, bundle) == [(rows[i].opkId, rows[i].opk)] + Unused(after, bundle)
              && (forall other :: other != bundle ==> Unused(after, other) == Unused(rows, other))
  {
    if rows != [] && FirstUnused(rows, bundle).Some? {
      var i := FirstUnused(rows, bundle).value;
      var after := rows[i := rows[i].(used := true)];
      if i > 0 {
        FirstIsHead(rows[1..], bundle);
        assert after[1..] == rows[1..][i - 1 := rows[i].(used := true)];
      } else {
        assert after[1..] == rows[1..];
      }
    } else if rows != [] {
      FirstIsHead(rows[1..], bundle);
    }
  }

  lemma TakingKeepsIds(rows: seq<OneTimeRow>, i: nat, bundle: Id)
    requires i < |rows|
    ensures IdsOf(rows[i := rows[i].(used := true)], bundle) == IdsOf(rows, bundle)
  {
    var after := rows[i := rows[i].(used := true)];
    assert forall k :: 0 <= k < |rows| ==> after[k].bundle == rows[k].bundle && after[k].opkId == rows[k].opkId;
    forall x ensures x in IdsOf(after, bundle) <==> x in IdsOf(rows, bundle) {
      if x in IdsOf(rows, bundle) {
        var k :| 0 <= k < |rows| && rows[k].bundle == bundle && rows[k].opkId == x;
        assert after[k].opkId == x;
      }
    }
  }

  // ---------------------------------------------------------------- one transaction

  /** The transaction answers as boxes and shelves do, and leaves tables that stand for what they become. */
  ghost predicate Follows(db: Tables, op: Op) {
    Serve(Shown(db), op) == (Shown(Apply(db, op)), Answer(db, op))
  }

  /** Two relays show the same when their boxes and shelves are the same one by one. */
  lemma SameShown(r: Relay, db: Tables)
    requires forall id :: id in r.boxes <==> id in db.mailboxes
    requires forall b :: b in r.shelves <==> b in db.bundles
    requires forall id :: id in db.mailboxes ==> r.boxes[id] == BoxOf(db, id)
    requires forall b :: b in db.bundles ==> r.shelves[b] == Shelf(db.bundles[b], Unused(db.oneTime, b), IdsOf(db.oneTime, b))
    ensures r == Shown(db)
  {
    assert r.boxes == Shown(db).boxes;
    assert r.shelves == Shown(db).shelves;
  }

  lemma CreateFollows(db: Tables, op: Op)
    requires Valid(db) && op.CreateOp?
    ensures Follows(db, op)
  {
    if op.id !in db.mailboxes {
      FreshMailboxIsEmpty(db, op.id);
      hide Keep;
      SameShown(Serve(Shown(db), op).0, Apply(db, op));
    }
  }

  lemma DeletedRows(db: Tables, gone: Id, id: Id)
    requires id != gone
    ensures Inbox(DeleteMailbox(db, gone), id) == Inbox(db, id)
    ensures Keep(DeleteMailbox(db, gone).blobs, BlobIn(id)) == Keep(db.blobs, BlobIn(id))
  {
    KeepThroughDelete(db.messages, Not(MessageIn(gone)), MessageIn(id));
    KeepThroughDelete(db.blobs, Not(BlobIn(gone)), BlobIn(id));
  }

  lemma DeletedBoxes(db: Tables, gone: Id, id: Id)
    requires id != gone && id in db.mailboxes
    ensures id in DeleteMailbox(db, gone).mailboxes && BoxOf(DeleteMailbox(db, gone), id) == BoxOf(db, id)
  {
    DeletedRows(db, gone, id);
    hide Keep, Inbox;
  }

  lemma DeleteReply(db: Tables, op: Op)
    requires Valid(db) && op.DeleteOp?
    ensures Answer(db, op) == Serve(Shown(db), op).1
  {
    if op.id in db.mailboxes {
      BoxCounts(db, op.id);
    } else {
      FreshMailboxIsEmpty(db, op.id);
    }
    hide Keep, Valid, BoxOf;
  }

  lemma DeleteFollows(db: Tables, op: Op)
    requires Valid(db) && op.DeleteOp?
    ensures Follows(db, op)
  {
    DeleteReply(db, op);
    hide Keep, Valid, BoxOf, Answer;
    forall id | id in db.mailboxes && id != op.id
      ensures id in Apply(db, op).mailboxes && BoxOf(Apply(db, op), id) == BoxOf(db, id)
    {
      DeletedBoxes(db, op.id, id);
    }
    SameShown(Serve(Shown(db), op).0, Apply(db, op));
  }

  lemma BoxCounts(db: Tables, id: Id)
    requires id in db.mailboxes
    ensures |BoxOf(db, id).letters| == |Keep(db.messages, MessageIn(id))|
    ensures |BoxOf(db, id).chunks| == |Keep(db.blobs, BlobIn(id))|
  {
  }

  lemma TouchFollows(db: Tables, op: Op)
    requires op.TouchOp?
    ensures Follows(db, op)
  {
    hide Keep;
    SameShown(Serve(Shown(db), op).0, Apply(db, op));
  }

  lemma PutRows(db: Tables, op: Op, id: Id)
    requires op.PutOp? && op.id in db.mailboxes && PutMessage(db, op.id, op.ciphertext, op.now).Success?
    ensures Inbox(Apply(db, op), id) == Inbox(db, id)
              + if id == op.id then [MessageRow(op.id, db.mailboxes[op.id].nextSeq, op.ciphertext, op.now, |op.ciphertext|)] else []
  {
    KeepAppendOne(db.messages, MessageRow(op.id, db.mailboxes[op.id].nextSeq, op.ciphertext, op.now, |op.ciphertext|), MessageIn(id));
  }

  /** The boxes after an accepted put. */
  lemma PutBoxes(db: Tables, op: Op, id: Id)
    requires op.PutOp? && op.id in db.mailboxes && PutMessage(db, op.id, op.ciphertext, op.now).Success? && id in db.mailboxes
    ensures id in Apply(db, op).mailboxes
    ensures var box := BoxOf(db, id);
            BoxOf(Apply(db, op), id) ==
            if id == op.id then
              box.(letters := box.letters + [Letter(box.next, op.ciphertext, op.now)], next := box.next + 1, seenAt := op.now)
            else box
  {
    PutRows(db, op, id);
    hide Inbox, Keep, Count, Used;
    assert Inbox(db, id) + [] == Inbox(db, id);
  }

  lemma PutFollows(db: Tables, op: Op)
    requires Valid(db) && op.PutOp?
    ensures Follows(db, op)
  {
    hide Valid, BoxOf, HasRoom, Inbox, Keep, Used;
    if op.id in db.mailboxes {
      RoomIsRoom(db, op.id, |op.ciphertext|);
      BoxLimits(db, op.id);
      if PutMessage(db, op.id, op.ciphertext, op.now).Success? {
        forall id | id in db.mailboxes ensures id in Apply(db, op).mailboxes {
          PutBoxes(db, op, id);
        }
        forall id | id in db.mailboxes
          ensures BoxOf(Apply(db, op), id) == Serve(Shown(db), op).0.boxes[id]
        {
          PutBoxes(db, op, id);
        }
        SameShown(Serve(Shown(db), op).0, Apply(db, op));
      }
    }
  }

  lemma BoxLimits(db: Tables, id: Id)
    requires id in db.mailboxes
    ensures BoxOf(db, id).maxMessages == db.mailboxes[id].maxMessages && BoxOf(db, id).next == db.mailboxes[id].nextSeq
  {
  }

  function Over(upto: int): MessageRow -> bool { (row: MessageRow) => row.seqNo > upto }

  lemma AckRows(db: Tables, id: Id, upto: int)
    ensures Inbox(AckMessages(db, id, upto).0, id) == Keep(Inbox(db, id), Over(upto))
    ensures AckMessages(db, id, upto).1 == |Inbox(db, id)| - |Keep(Inbox(db, id), Over(upto))|
    ensures forall other :: other != id ==> Inbox(AckMessages(db, id, upto).0, other) == Inbox(db, other)
  {
    var above := Over(upto);
    forall other | other != id ensures Inbox(AckMessages(db, id, upto).0, other) == Inbox(db, other) {
      KeepThroughDelete(db.messages, Not(Acked(id, upto)), MessageIn(other));
    }
    KeepKeep(db.messages, Not(Acked(id, upto)), MessageIn(id));
    KeepKeep(db.messages, MessageIn(id), above);
    KeepAgree(db.messages, And(Not(Acked(id, upto)), MessageIn(id)), And(MessageIn(id), above));
    KeepKeep(db.messages, MessageIn(id), Not(above));
    KeepAgree(db.messages, And(MessageIn(id), Not(above)), Acked(id, upto));
    KeepSplit(Inbox(db, id), above);
  }

  /** The boxes after an acknowledgement. */
  lemma AckBoxes(db: Tables, op: Op, id: Id)
    requires op.AckOp? && id in db.mailboxes
    ensures id in Apply(db, op).mailboxes
    ensures var box := BoxOf(db, id);
            BoxOf(Apply(db, op), id) == if id == op.id then box.(letters := Above(box.letters, op.upto)) else box
  {
    AckRows(db, op.id, op.upto);
    AboveIs(Inbox(db, op.id), op.upto);
    hide Keep, Inbox, Above;
  }

  lemma AckReply(db: Tables, op: Op)
    requires Valid(db) && op.AckOp?
    ensures Answer(db, op) == Serve(Shown(db), op).1
  {
    AckRows(db, op.id, op.upto);
    AboveIs(Inbox(db, op.id), op.upto);
    if op.id !in db.mailboxes {
      FreshMailboxIsEmpty(db, op.id);
    }
    hide Keep, Valid, Inbox, Above;
  }

  lemma AckFollows(db: Tables, op: Op)
    requires Valid(db) && op.AckOp?
    ensures Follows(db, op)
  {
    AckReply(db, op);
    hide Keep, Valid, Inbox, Above, BoxOf, Answer;
    forall id | id in db.mailboxes
      ensures id in Apply(db, op).mailboxes && BoxOf(Apply(db, op), id) == Serve(Shown(db), op).0.boxes[id]
    {
      AckBoxes(db, op, id);
    }
    SameShown(Serve(Shown(db), op).0, Apply(db, op));
  }

  lemma PublishFollows(db: Tables, op: Op)
    requires Good(db) && op.PublishOp?
    ensures Follows(db, op)
  {
    var b := op.bundle;
    InsertQueues(db.oneTime, b, op.opks, op.payload);
    if InsertOpks(db.oneTime, b, op.opks).Success? {
      if b !in db.bundles {
        NothingUnused(db.oneTime, b);
      }
      assert ShelfOf(Shown(db), b, op.payload) == Shelf(op.payload, Unused(db.oneTime, b), IdsOf(db.oneTime, b));
      hide Keep, Inbox, InsertOpks, Unused, IdsOf, Queued;
      SameShown(Serve(Shown(db), op).0, Apply(db, op));
    }
  }

  lemma {:induction false} NothingUnused(rows: seq<OneTimeRow>, bundle: Id)
    requires forall row :: row in rows ==> row.bundle != bundle
    ensures Unused(rows, bundle) == [] && IdsOf(rows, bundle) == {}
  {
    if rows != [] {
      NothingUnused(rows[1..], bundle);
      forall i | 0 <= i < |rows| ensures rows[i].bundle != bundle {
        assert rows[i] in rows;
      }
    }
  }

  lemma FetchFollows(db: Tables, op: Op)
    requires op.FetchBundleOp?
    ensures Follows(db, op)
  {
    var b := op.bundle;
    if b in db.bundles {
      FirstIsHead(db.oneTime, b);
      var first := FirstUnused(db.oneTime, b);
      if first.Some? {
        forall other ensures IdsOf(Apply(db, op).oneTime, other) == IdsOf(db.oneTime, other) {
          TakingKeepsIds(db.oneTime, first.value, other);
        }
      }
      hide Keep, Inbox, Unused, IdsOf, FirstUnused;
      SameShown(Serve(Shown(db), op).0, Apply(db, op));
    }
  }

  /** The boxes after an accepted blob. */
  lemma BlobBoxes(db: Tables, op: Op, id: Id)
    requires op.PutBlobOp? && PutBlob(db, op.chunk, op.id, op.ciphertext, op.now).Success? && id in db.mailboxes
    ensures id in Apply(db, op).mailboxes
    ensures var box := BoxOf(db, id);
            BoxOf(Apply(db, op), id) ==
            if id == op.id then box.(chunks := box.chunks + [Chunk(op.chunk, op.ciphertext)]) else box
  {
    KeepAppendOne(db.blobs, BlobRow(op.chunk, op.id, op.ciphertext, |op.ciphertext|, op.now), BlobIn(id));
    hide Inbox, Keep, Used;
    assert Keep(db.blobs, BlobIn(id)) + [] == Keep(db.blobs, BlobIn(id));
  }

  lemma PutBlobFollows(db: Tables, op: Op)
    requires Valid(db) && op.PutBlobOp?
    ensures Follows(db, op)
  {
    hide Valid, BoxOf, HasRoom, Inbox, Keep, Used, Kept, HasChunk;
    KeptIsHeld(db, op.chunk);
    if op.id in db.mailboxes {
      RoomIsRoom(db, op.id, |op.ciphertext|);
      if PutBlob(db, op.chunk, op.id, op.ciphertext, op.now).Success? {
        forall id | id in db.mailboxes
          ensures id in Apply(db, op).mailboxes && BoxOf(Apply(db, op), id) == Serve(Shown(db), op).0.boxes[id]
        {
          BlobBoxes(db, op, id);
        }
        SameShown(Serve(Shown(db), op).0, Apply(db, op));
      }
    }
  }

  lemma DeleteBlobFollows(db: Tables, op: Op)
    requires op.DeleteBlobOp?
    ensures Follows(db, op)
  {
    var after := Apply(db, op);
    forall id ensures Chunks(Keep(after.blobs, BlobIn(id))) == Unlike(Chunks(Keep(db.blobs, BlobIn(id))), op.chunk) {
      UnlikeIs(Keep(db.blobs, BlobIn(id)), op.chunk);
      KeepKeep(db.blobs, BlobIn(id), Not(ChunkIs(op.chunk)));
      KeepKeep(db.blobs, Not(ChunkIs(op.chunk)), BlobIn(id));
      KeepAgree(db.blobs, And(BlobIn(id), Not(ChunkIs(op.chunk))), And(Not(ChunkIs(op.chunk)), BlobIn(id)));
    }
    hide Keep, Inbox;
    SameShown(Serve(Shown(db), op).0, after);
  }

  /** In a valid state only the idle mailboxes go. */
  lemma OnlyIdleGo(db: Tables, now: int, mailboxTtl: int, blobTtl: int)
    requires Valid(db)
    ensures Housekeeping(db, now, mailboxTtl, blobTtl) == DropMailboxes(db, Stale(db, now - mailboxTtl))
  {
    var stale := Stale(db, now - mailboxTtl);
    var dropped := DropMailboxes(db, stale);
    DeletingKeepsValid(db, stale, Not(MessageInAny(stale)), Not(BlobInAny(stale)));
    hide Keep, Valid;
    NoStrays(dropped, now - blobTtl);
    KeepEverything(dropped.blobs, Not(Stray(dropped, now - blobTtl)));
  }

  lemma DroppedBoxes(db: Tables, gone: set<Id>, id: Id)
    requires id in db.mailboxes && id !in gone
    ensures id in DropMailboxes(db, gone).mailboxes && BoxOf(DropMailboxes(db, gone), id) == BoxOf(db, id)
  {
    KeepThroughDelete(db.messages, Not(MessageInAny(gone)), MessageIn(id));
    KeepThroughDelete(db.blobs, Not(BlobInAny(gone)), BlobIn(id));
    hide Keep;
  }

  lemma HousekeepingFollows(db: Tables, op: Op)
    requires Valid(db) && op.HousekeepingOp?
    ensures Follows(db, op)
  {
    OnlyIdleGo(db, op.now, op.mailboxTtl, op.blobTtl);
    hide Keep, Inbox, Valid, BoxOf, Housekeeping;
    var stale := Stale(db, op.now - op.mailboxTtl);
    forall id | id in db.mailboxes && id !in stale
      ensures id in Apply(db, op).mailboxes && BoxOf(Apply(db, op), id) == BoxOf(db, id)
    {
      DroppedBoxes(db, stale, id);
    }
    forall id | id in db.mailboxes ensures BoxOf(db, id).seenAt == db.mailboxes[id].lastSeen {
      BoxSeen(db, id);
    }
    SameShown(Serve(Shown(db), op).0, Apply(db, op));
  }

  lemma BoxSeen(db: Tables, id: Id)
    requires id in db.mailboxes
    ensures BoxOf(db, id).seenAt == db.mailboxes[id].lastSeen
  {
  }

  /** Every transaction, from every state a relay can be in. */
  lemma ApplyFollows(db: Tables, op: Op)
    requires Good(db)
    ensures Follows(db, op)
    ensures Good(Apply(db, op))
  {
    hide Follows, Valid;
    ApplyKeepsValid(db, op);
    ApplyKeepsShelved(db, op);
    match op {
      case CreateOp(_, _, _, _, _, _) => CreateFollows(db, op);
      case DeleteOp(_) => DeleteFollows(db, op);
      case TouchOp(_, _) => TouchFollows(db, op);
      case PutOp(_, _, _) => PutFollows(db, op);
      case AckOp(_, _) => AckFollows(db, op);
      case PublishOp(_, _, _) => PublishFollows(db, op);
      case FetchBundleOp(_) => FetchFollows(db, op);
      case PutBlobOp(_, _, _, _) => PutBlobFollows(db, op);
      case DeleteBlobOp(_) => DeleteBlobFollows(db, op);
      case HousekeepingOp(_, _, _) => HousekeepingFollows(db, op);
    }
  }

  lemma ApplyKeepsShelved(db: Tables, op: Op)
    requires Shelved(db)
    ensures Shelved(Apply(db, op))
  {
    if op.PublishOp? {
      InsertQueues(db.oneTime, op.bundle, op.opks, op.payload);
    }
  }

  // ---------------------------------------------------------------- whole runs

  /** Over any run from the empty relay the tables stand for the boxes and shelves of that run. */
  lemma {:induction false} RunFollows(db: Tables, ops: seq<Op>)
    requires Good(db)
    ensures Good(Run(db, ops)) && Shown(Run(db, ops)) == ServeAll(Shown(db), ops)
    decreases |ops|
  {
    hide Good, Shown, Serve, Apply, Answer;
    if ops != [] {
      ApplyFollows(db, ops[0]);
      RunFollows(Apply(db, ops[0]), ops[1..]);
    }
  }

  lemma EmptyIsGood()
    ensures Good(Empty) && Shown(Empty) == Relay(map[], map[])
  {
    EmptyIsValid();
  }

  /** The relay answers every request, after any history, as boxes and shelves would. */
  lemma EveryAnswerIsTheBoxes(ops: seq<Op>, op: Op)
    ensures Answer(Run(Empty, ops), op) == Serve(ServeAll(Relay(map[], map[]), ops), op).1
    ensures Shown(Run(Empty, ops)) == ServeAll(Relay(map[], map[]), ops)
  {
    EmptyIsGood();
    RunFollows(Empty, ops);
    ApplyFollows(Run(Empty, ops), op);
    hide Good, Shown, Serve, Run, ServeAll, Answer;
  }

  /** A fetch shows the first `limit` letters above the cursor, all of them if the limit is negative. */
  lemma FetchShowsLetters(db: Tables, id: Id, afterSeq: int, limit: int)
    requires id in db.mailboxes
    ensures var letters := Above(BoxOf(db, id).letters, afterSeq);
            Letters(GetMessages(db, id, afterSeq, limit)) == if 0 <= limit < |letters| then letters[..limit] else letters
  {
    var above := Over(afterSeq);
    AboveIs(Inbox(db, id), afterSeq);
    KeepKeep(db.messages, MessageIn(id), above);
    KeepAgree(db.messages, And(MessageIn(id), above), After(id, afterSeq));
  }

  /** A chunk comes back as it was sent, as long as some box keeps it. */
  lemma BlobComesBack(db: Tables, name: Id, text: Bytes)
    requires Valid(db)
    ensures GetBlob(db, name) == Some(text) <==> exists id :: id in db.mailboxes && Chunk(name, text) in BoxOf(db, id).chunks
  {
    if GetBlob(db, name) == Some(text) {
      var i :| 0 <= i < |db.blobs| && db.blobs[i].chunk == name && db.blobs[i].ciphertext == text;
      var row := db.blobs[i];
      assert BlobOk(db, row);
      KeepMembers(db.blobs, BlobIn(row.mailbox), row);
      var rows := Keep(db.blobs, BlobIn(row.mailbox));
      var k :| 0 <= k < |rows| && rows[k] == row;
      assert BoxOf(db, row.mailbox).chunks[k] == Chunk(name, text);
    }
    forall id | id in db.mailboxes && Chunk(name, text) in BoxOf(db, id).chunks ensures GetBlob(db, name) == Some(text) {
      var rows := Keep(db.blobs, BlobIn(id));
      var k :| 0 <= k < |rows| && BoxOf(db, id).chunks[k] == Chunk(name, text);
      KeepMembers(db.blobs, BlobIn(id), rows[k]);
      var i :| 0 <= i < |db.blobs| && db.blobs[i] == rows[k];
      var j :| 0 <= j < |db.blobs| && db.blobs[j].chunk == name && db.blobs[j].ciphertext == GetBlob(db, name).value;
      if i != j {
        assert OtherChunk(db.blobs[if i < j then i else j], db.blobs[if i < j then j else i]);
      }
    }
  }
}

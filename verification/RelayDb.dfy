/**
 The relay's database (noknowledge/server/db.py). Every transaction is one atomic function on
 the tables; the class updates its tables in place and is proved against those functions.
 */
module RelayDb {
  import opened Wrappers
  import opened Rows

  type Id = string
  type Bytes = seq<nat>

  datatype Mailbox = Mailbox(
    readHash: nat, writeHash: nat, createdAt: int, lastSeen: int,
    maxMessages: nat, maxBytes: nat, nextSeq: nat)

  datatype MessageRow = MessageRow(mailbox: Id, seqNo: nat, ciphertext: Bytes, createdAt: int, size: nat)

  datatype BlobRow = BlobRow(chunk: Id, mailbox: Id, ciphertext: Bytes, size: nat, createdAt: int)

  datatype OneTimeRow = OneTimeRow(bundle: Id, opkId: int, opk: nat, used: bool)

  datatype Tables = Tables(
    mailboxes: map<Id, Mailbox>,
    messages: seq<MessageRow>,
    bundles: map<Id, nat>,
    oneTime: seq<OneTimeRow>,
    blobs: seq<BlobRow>)

  const Empty := Tables(map[], [], map[], [], [])

  datatype DbError = MailboxNotFound | BundleNotFound | QuotaExceeded | UniqueViolation | MalformedOpk

  // -- row filters ---------------------------------------------------------

  function AnyMessage(): MessageRow -> bool { (row: MessageRow) => true }
  function AnyBlob(): BlobRow -> bool { (row: BlobRow) => true }
  function MessageIn(id: Id): MessageRow -> bool { (row: MessageRow) => row.mailbox == id }
  function BlobIn(id: Id): BlobRow -> bool { (row: BlobRow) => row.mailbox == id }
  function MessageSize(): MessageRow -> nat { (row: MessageRow) => row.size }
  function BlobSize(): BlobRow -> nat { (row: BlobRow) => row.size }
  function Acked(id: Id, upto: int): MessageRow -> bool { (row: MessageRow) => row.mailbox == id && row.seqNo <= upto }
  function ChunkIs(chunk: Id): BlobRow -> bool { (row: BlobRow) => row.chunk == chunk }
  function MessageInAny(ids: set<Id>): MessageRow -> bool { (row: MessageRow) => row.mailbox in ids }
  function BlobInAny(ids: set<Id>): BlobRow -> bool { (row: BlobRow) => row.mailbox in ids }
  function Stray(db: Tables, cutoff: int): BlobRow -> bool {
    (row: BlobRow) => row.createdAt < cutoff && row.mailbox !in db.mailboxes
  }

  /** The messages of one mailbox, in insertion order. */
  function Inbox(db: Tables, id: Id): seq<MessageRow> { Keep(db.messages, MessageIn(id)) }

  /** `usage`: the number of messages, and the bytes of messages and blobs together. */
  function Count(db: Tables, id: Id): nat { |Inbox(db, id)| }

  function Used(db: Tables, id: Id): nat {
    Sum(Inbox(db, id), MessageSize()) + Sum(Keep(db.blobs, BlobIn(id)), BlobSize())
  }

  // -- transactions ----------------------------------------------------------

  function CreateMailbox(db: Tables, id: Id, readHash: nat, writeHash: nat, now: int, maxMessages: nat, maxBytes: nat)
    : Result<Tables, DbError>
  {
    if id in db.mailboxes then Failure(UniqueViolation)
    else Success(db.(mailboxes := db.mailboxes[id := Mailbox(readHash, writeHash, now, now, maxMessages, maxBytes, 1)]))
  }

  function DeleteMailbox(db: Tables, id: Id): Tables {
    db.(mailboxes := db.mailboxes - {id},
        messages := Keep(db.messages, Not(MessageIn(id))),
        blobs := Keep(db.blobs, Not(BlobIn(id))))
  }

  function TouchMailbox(db: Tables, id: Id, now: int): Tables {
    if id in db.mailboxes then db.(mailboxes := db.mailboxes[id := db.mailboxes[id].(lastSeen := now)]) else db
  }

  function PutMessage(db: Tables, id: Id, ciphertext: Bytes, now: int): Result<(Tables, nat), DbError> {
    if id !in db.mailboxes then
      Failure(MailboxNotFound)
    else
      var box, size := db.mailboxes[id], |ciphertext|;
      if Count(db, id) >= box.maxMessages || Used(db, id) + size > box.maxBytes then
        Failure(QuotaExceeded)
      else
        Success((db.(messages := db.messages + [MessageRow(id, box.nextSeq, ciphertext, now, size)],
                     mailboxes := db.mailboxes[id := box.(lastSeen := now, nextSeq := box.nextSeq + 1)]),
                 box.nextSeq))
  }

  function After(id: Id, afterSeq: int): MessageRow -> bool { (row: MessageRow) => row.mailbox == id && row.seqNo > afterSeq }

  /** `SELECT ... ORDER BY seq LIMIT limit`; a negative limit is none. */
  function GetMessages(db: Tables, id: Id, afterSeq: int, limit: int): seq<MessageRow> {
    var rows := Keep(db.messages, After(id, afterSeq));
    if 0 <= limit < |rows| then rows[..limit] else rows
  }

  function AckMessages(db: Tables, id: Id, upto: int): (Tables, nat) {
    (db.(messages := Keep(db.messages, Not(Acked(id, upto)))), |Keep(db.messages, Acked(id, upto))|)
  }

  datatype OpkEntry = OpkEntry(opkId: int, opk: nat) | BadOpkEntry

  predicate HasOpk(rows: seq<OneTimeRow>, bundle: Id, opkId: int) {
    exists i :: 0 <= i < |rows| && rows[i].bundle == bundle && rows[i].opkId == opkId
  }

  /** `INSERT OR IGNORE` for each entry; a malformed entry fails the transaction. */
  function InsertOpks(rows: seq<OneTimeRow>, bundle: Id, opks: seq<OpkEntry>): Result<seq<OneTimeRow>, DbError>
    decreases |opks|
  {
    if opks == [] then Success(rows)
    else if opks[0].BadOpkEntry? then Failure(MalformedOpk)
    else if HasOpk(rows, bundle, opks[0].opkId) then InsertOpks(rows, bundle, opks[1..])
    else InsertOpks(rows + [OneTimeRow(bundle, opks[0].opkId, opks[0].opk, false)], bundle, opks[1..])
  }

  function PublishBundle(db: Tables, bundle: Id, payload: nat, opks: seq<OpkEntry>): Result<Tables, DbError> {
    var rows :- InsertOpks(db.oneTime, bundle, opks);
    Success(db.(bundles := db.bundles[bundle := payload], oneTime := rows))
  }

  /** The position of the first unused prekey of a bundle. */
  function FirstUnused(rows: seq<OneTimeRow>, bundle: Id): (r: Option<nat>)
    ensures r.Some? ==> r.value < |rows| && rows[r.value].bundle == bundle && !rows[r.value].used
    ensures r.Some? ==> forall i :: 0 <= i < r.value && rows[i].bundle == bundle ==> rows[i].used
    ensures r.None? ==> forall i :: 0 <= i < |rows| && rows[i].bundle == bundle ==> rows[i].used
  {
    if rows == [] then None
    else if rows[0].bundle == bundle && !rows[0].used then Some(0)
    else
      match FirstUnused(rows[1..], bundle)
      case None => None
      case Some(i) => Some(i + 1)
  }

  datatype Fetched = Fetched(payload: nat, opk: Option<(int, nat)>)

  function FetchBundle(db: Tables, bundle: Id): Result<(Tables, Fetched), DbError> {
    if bundle !in db.bundles then
      Failure(BundleNotFound)
    else
      match FirstUnused(db.oneTime, bundle)
      case None => Success((db, Fetched(db.bundles[bundle], None)))
      case Some(i) =>
        var row := db.oneTime[i];
        Success((db.(oneTime := db.oneTime[i := row.(used := true)]),
                 Fetched(db.bundles[bundle], Some((row.opkId, row.opk)))))
  }

  predicate HasChunk(rows: seq<BlobRow>, chunk: Id) {
    exists i :: 0 <= i < |rows| && rows[i].chunk == chunk
  }

  function PutBlob(db: Tables, chunk: Id, id: Id, ciphertext: Bytes, now: int): Result<Tables, DbError> {
    if id !in db.mailboxes then
      Failure(MailboxNotFound)
    else if Used(db, id) + |ciphertext| > db.mailboxes[id].maxBytes then
      Failure(QuotaExceeded)
    else if HasChunk(db.blobs, chunk) then
      Failure(UniqueViolation)
    else
      Success(db.(blobs := db.blobs + [BlobRow(chunk, id, ciphertext, |ciphertext|, now)]))
  }

  /** `get_blob`. */
  function GetBlob(db: Tables, chunk: Id): (r: Option<Bytes>)
    ensures r.Some? <==> HasChunk(db.blobs, chunk)
  {
    FindChunk(db.blobs, chunk)
  }

  function FindChunk(rows: seq<BlobRow>, chunk: Id): (r: Option<Bytes>)
    ensures r.Some? <==> HasChunk(rows, chunk)
    ensures r.Some? ==> exists i :: 0 <= i < |rows| && rows[i].chunk == chunk && rows[i].ciphertext == r.value
  {
    if rows == [] then None else if rows[0].chunk == chunk then Some(rows[0].ciphertext)
    else
      assert forall i :: 0 <= i < |rows| - 1 ==> rows[1..][i] == rows[i + 1];
      FindChunk(rows[1..], chunk)
  }

  function DeleteBlob(db: Tables, chunk: Id): Tables {
    db.(blobs := Keep(db.blobs, Not(ChunkIs(chunk))))
  }

  /** The mailboxes idle since before the cutoff. */
  function Stale(db: Tables, cutoff: int): set<Id> {
    set id | id in db.mailboxes && db.mailboxes[id].lastSeen < cutoff
  }

  function DropMailboxes(db: Tables, ids: set<Id>): Tables {
    db.(mailboxes := db.mailboxes - ids,
        messages := Keep(db.messages, Not(MessageInAny(ids))),
        blobs := Keep(db.blobs, Not(BlobInAny(ids))))
  }

  datatype Report = Report(mailboxes: nat, messages: nat, blobs: nat)

  /** The tables after `housekeeping`: stale mailboxes with all they hold, then stray blobs. */
  function Housekeeping(db: Tables, now: int, mailboxTtl: int, blobTtl: int): Tables {
    var dropped := DropMailboxes(db, Stale(db, now - mailboxTtl));
    dropped.(blobs := Keep(dropped.blobs, Not(Stray(dropped, now - blobTtl))))
  }

  // -- the invariant -----------------------------------------------------------

  predicate SeqBefore(a: MessageRow, b: MessageRow) { a.mailbox == b.mailbox ==> a.seqNo < b.seqNo }
  predicate OtherChunk(a: BlobRow, b: BlobRow) { a.chunk != b.chunk }
  predicate OtherOpk(a: OneTimeRow, b: OneTimeRow) { a.bundle != b.bundle || a.opkId != b.opkId }

  predicate MessageOk(db: Tables, row: MessageRow) {
    row.mailbox in db.mailboxes && 1 <= row.seqNo < db.mailboxes[row.mailbox].nextSeq && row.size == |row.ciphertext|
  }

  predicate BlobOk(db: Tables, row: BlobRow) {
    row.mailbox in db.mailboxes && row.size == |row.ciphertext|
  }

  predicate WithinQuota(db: Tables, id: Id)
    requires id in db.mailboxes
  {
    Count(db, id) <= db.mailboxes[id].maxMessages && Used(db, id) <= db.mailboxes[id].maxBytes
  }

  /** Every message and blob belongs to a live mailbox. */
  ghost predicate RowsOk(db: Tables) {
    && (forall row :: row in db.messages ==> MessageOk(db, row))
    && (forall row :: row in db.blobs ==> BlobOk(db, row))
  }

  ghost predicate KeysOk(db: Tables) {
    && (forall i, j :: 0 <= i < j < |db.messages| ==> SeqBefore(db.messages[i], db.messages[j]))
    && (forall i, j :: 0 <= i < j < |db.blobs| ==> OtherChunk(db.blobs[i], db.blobs[j]))
    && (forall i, j :: 0 <= i < j < |db.oneTime| ==> OtherOpk(db.oneTime[i], db.oneTime[j]))
    && (forall id :: id in db.mailboxes ==> db.mailboxes[id].nextSeq >= 1)
  }

  ghost predicate QuotaOk(db: Tables) {
    forall id :: id in db.mailboxes ==> WithinQuota(db, id)
  }

  ghost predicate Valid(db: Tables) {
    RowsOk(db) && KeysOk(db) && QuotaOk(db)
  }
}

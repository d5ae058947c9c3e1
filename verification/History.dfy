/**
 History bundles (noknowledge/core/history.py): message identity, and the merge of contacts,
 messages and attachment chunks into the local store.
 */
module History {
  import opened Wrappers

  /** Canonical JSON text; the truncated digest of a body is identified with the text itself. */
  type Json = string
  type Bytes = seq<nat>

  const EMPTY_OBJECT: Json := "{}"

  /** A message row; the table is keyed by the row's id. */
  datatype Row = Row(
    contact: string, direction: string, kind: string, body: Option<Json>,
    remoteId: Option<string>, ts: int, state: Option<string>)

  /** A message item of a bundle. An absent field is `None`; an absent contact is the empty text. */
  datatype Item = Item(
    id: Option<string>, contact: string, direction: Option<string>, kind: Option<string>,
    body: Option<Json>, remoteId: Option<string>, ts: int, state: Option<string>)

  datatype Key =
    | Remote(contact: string, direction: Option<string>, remoteId: string)
    | Local(contact: string, direction: Option<string>, ts: int, kind: string, body: Json)

  function StateRank(state: Option<string>): nat {
    if state == Some("read") then 2
    else if state == Some("delivered") then 1
    else 0
  }

  /** Whether an optional text is there and not empty. */
  predicate Present(text: Option<string>) {
    text.Some? && text.value != ""
  }

  function MessageKey(item: Item): Key {
    if Present(item.remoteId) then
      Remote(item.contact, item.direction, item.remoteId.value)
    else
      Local(item.contact, item.direction, item.ts, item.kind.GetOr("None"), item.body.GetOr(EMPTY_OBJECT))
  }

  function AsItem(row: Row): Item {
    Item(None, row.contact, Some(row.direction), Some(row.kind), row.body, row.remoteId, row.ts, row.state)
  }

  function RowKey(row: Row): Key { MessageKey(AsItem(row)) }

  /** The row that merging `item` inserts: absent direction and type are filled in. */
  function Stored(item: Item): Row {
    Row(item.contact,
        if Present(item.direction) then item.direction.value else "received",
        if Present(item.kind) then item.kind.value else "text",
        item.body, item.remoteId, item.ts, item.state)
  }

  type Table = map<string, Row>

  /** `INSERT … ON CONFLICT (id)`: an existing row keeps its contact, direction, type and time. */
  function AddMessage(rows: Table, id: string, row: Row): Table {
    if id in rows then
      rows[id := rows[id].(body := row.body, remoteId := row.remoteId, state := row.state)]
    else
      rows[id := row]
  }

  function UpdateState(rows: Table, id: string, state: Option<string>): Table {
    if id in rows then rows[id := rows[id].(state := state)] else rows
  }

  /** What the index remembers of a row: its id, and its state at the time it was indexed. */
  datatype Known = Known(id: string, state: Option<string>)

  type Index = map<Key, Known>

  datatype Merge = Merge(rows: Table, known: Index, added: nat, updated: nat)

  function NewId(item: Item, supply: string): string {
    if Present(item.id) then item.id.value else supply
  }

  /** One item of `merge_messages`; `supply` is the random id drawn for it. */
  function MergeItem(m: Merge, item: Item, supply: string): Merge {
    if item.contact == "" then m
    else
      var key := MessageKey(item);
      if key in m.known then
        if StateRank(item.state) > StateRank(m.known[key].state) then
          m.(rows := UpdateState(m.rows, m.known[key].id, item.state), updated := m.updated + 1)
        else m
      else
        var id := NewId(item, supply);
        var rows := AddMessage(m.rows, id, Stored(item));
        Merge(rows, m.known[key := Known(id, rows[id].state)], m.added + 1, m.updated)
  }

  function MergeItems(m: Merge, items: seq<Item>, supplies: seq<string>): Merge
    requires |items| == |supplies|
    decreases |items|
  {
    if items == [] then m
    else
      var k := |items| - 1;
      MergeItem(MergeItems(m, items[..k], supplies[..k]), items[k], supplies[k])
  }

  /** `known` indexes `rows`: exactly the keys held, each at a row that has it. */
  ghost predicate Indexes(known: Index, rows: Table) {
    && (forall id :: id in rows ==> RowKey(rows[id]) in known)
    && (forall key :: key in known ==>
          && known[key].id in rows
          && RowKey(rows[known[key].id]) == key
          && known[key].state == rows[known[key].id].state)
  }

  /** Text order, character by character. */
  predicate TextBefore(a: string, b: string) {
    b != [] && (a == [] || a[0] < b[0] || (a[0] == b[0] && TextBefore(a[1..], b[1..])))
  }

  /** The listing order of rows: by time, then by id. */
  predicate Before(rows: Table, a: string, b: string)
    requires a in rows && b in rows
  {
    rows[a].ts < rows[b].ts || (rows[a].ts == rows[b].ts && TextBefore(a, b))
  }

  /** Of the rows with one key, the index holds the one listed last. */
  ghost predicate HoldsLast(known: Index, rows: Table) {
    && Indexes(known, rows)
    && forall id :: id in rows ==>
         known[RowKey(rows[id])].id == id || Before(rows, id, known[RowKey(rows[id])].id)
  }

  lemma {:induction false} TextOrder(a: string, b: string, c: string)
    ensures !TextBefore(a, a)
    ensures a == b || TextBefore(a, b) || TextBefore(b, a)
    ensures TextBefore(a, b) && TextBefore(b, c) ==> TextBefore(a, c)
  {
    if a != [] {
      TextOrder(a[1..], if b == [] then [] else b[1..], if c == [] then [] else c[1..]);
      assert b != [] && a[0] == b[0] && a[1..] == b[1..] ==> a == b;
    }
  }

  lemma {:induction false} FirstListed(rows: Table, ids: set<string>) returns (first: string)
    requires ids != {} && ids <= rows.Keys
    ensures first in ids && forall other :: other in ids ==> other == first || Before(rows, first, other)
    decreases |ids|
  {
    var x :| x in ids;
    var rest := ids - {x};
    if rest == {} {
      assert ids == rest + {x};
      first := x;
    } else {
      var y := FirstListed(rows, rest);
      TextOrder(x, y, y);
      first := if Before(rows, x, y) then x else y;
      forall other | other in ids && other != first ensures Before(rows, first, other) {
        assert other == x || other in rest;
        TextOrder(x, y, other);
      }
    }
  }

  // ---------------------------------------------------------------- contacts and chunks

  datatype Card = Card(isign: string, idh: string, nickname: Option<string>, verified: bool)

  /** A contact item; `card` is absent when its keys are missing or undecodable. */
  datatype ContactItem = ContactItem(id: string, card: Option<Card>)

  /** An attachment chunk; `ciphertext` is absent when it does not decode. */
  datatype ChunkItem = ChunkItem(id: string, ciphertext: Option<Bytes>)

  datatype Bundle = Bundle(contacts: seq<ContactItem>, messages: seq<Item>, chunks: seq<ChunkItem>)

  datatype Counts = Counts(contacts: nat, messages: nat, updates: nat, chunks: nat)

  datatype HistoryError = MalformedContact | MalformedChunk

  /** No earlier item names the same contact: of several new copies the first is the one kept. */
  predicate FirstContact(items: seq<ContactItem>, i: nat)
    requires i < |items|
  {
    forall j :: 0 <= j < i ==> items[j].id != items[i].id
  }

  predicate FirstChunk(items: seq<ChunkItem>, i: nat)
    requires i < |items|
  {
    forall j :: 0 <= j < i ==> items[j].id != items[i].id
  }

  class Store {
    var contacts: map<string, Card>
    var messages: Table
    var blobs: map<string, Bytes>

    constructor ()
      ensures contacts == map[] && messages == map[] && blobs == map[]
    {
      contacts, messages, blobs := map[], map[], map[];
    }

    /** The rows come in listing order, and of several with one key the last one stays in the index. */
    method MessageIndex() returns (known: Index)
      ensures HoldsLast(known, messages)
    {
      known := map[];
      var todo := messages.Keys;
      while todo != {}
        invariant todo <= messages.Keys
        invariant forall id, next :: id in messages && id !in todo && next in todo ==> Before(messages, id, next)
        invariant forall key :: key in known ==>
                    && known[key].id in messages && known[key].id !in todo
                    && RowKey(messages[known[key].id]) == key
                    && known[key].state == messages[known[key].id].state
        invariant forall id :: id in messages && id !in todo ==>
                    && RowKey(messages[id]) in known
                    && (known[RowKey(messages[id])].id == id || Before(messages, id, known[RowKey(messages[id])].id))
        decreases |todo|
      {
        var _ := FirstListed(messages, todo);
        var id :| id in todo && forall other :: other in todo ==> other == id || Before(messages, id, other);
        known := known[RowKey(messages[id]) := Known(id, messages[id].state)];
        todo := todo - {id};
      }
    }

    /** A contact already known is kept as it is; the first malformed new one stops the merge. */
    method MergeContacts(items: seq<ContactItem>) returns (r: Result<nat, HistoryError>)
      modifies this`contacts
      ensures forall id :: id in old(contacts) ==> id in contacts && contacts[id] == old(contacts)[id]
      ensures forall id :: id in contacts && id !in old(contacts) ==>
                id != "" && exists i :: 0 <= i < |items| && FirstContact(items, i) && items[i] == ContactItem(id, Some(contacts[id]))
      ensures r.Success? ==>
                && |contacts| == |old(contacts)| + r.value
                && forall i :: 0 <= i < |items| && items[i].id != "" ==> items[i].id in contacts
      ensures r.Failure? ==> exists i :: 0 <= i < |items| && items[i].id != "" && items[i].id !in contacts && items[i].card == None
    {
      var added := 0;
      for n := 0 to |items|
        invariant forall id :: id in old(contacts) ==> id in contacts && contacts[id] == old(contacts)[id]
        invariant forall id :: id in contacts && id !in old(contacts) ==>
                    id != "" && exists i :: 0 <= i < n && FirstContact(items, i) && items[i] == ContactItem(id, Some(contacts[id]))
        invariant |contacts| == |old(contacts)| + added
        invariant forall i :: 0 <= i < n && items[i].id != "" ==> items[i].id in contacts
      {
        var item := items[n];
        if item.id != "" && item.id !in contacts {
          if item.card == None {
            return Failure(MalformedContact);
          }
          contacts := contacts[item.id := item.card.value];
          added := added + 1;
        }
      }
      return Success(added);
    }

    method MergeMessages(items: seq<Item>, known: Index, supplies: seq<string>)
      returns (added: nat, updated: nat, index: Index)
      requires |items| == |supplies|
      modifies this`messages
      ensures Merge(messages, index, added, updated) ==
              MergeItems(Merge(old(messages), known, 0, 0), items, supplies)
    {
      added, updated, index := 0, 0, known;
      for n := 0 to |items|
        invariant Merge(messages, index, added, updated) ==
                  MergeItems(Merge(old(messages), known, 0, 0), items[..n], supplies[..n])
      {
        assert items[..n + 1][..n] == items[..n] && supplies[..n + 1][..n] == supplies[..n];
        var item := items[n];
        if item.contact != "" {
          var key := MessageKey(item);
          if key in index {
            var existing := index[key];
            if StateRank(item.state) > StateRank(existing.state) {
              messages := UpdateState(messages, existing.id, item.state);
              updated := updated + 1;
            }
          } else {
            var id := NewId(item, supplies[n]);
            messages := AddMessage(messages, id, Stored(item));
            index := index[key := Known(id, messages[id].state)];
            added := added + 1;
          }
        }
      }
      assert items[..|items|] == items && supplies[..|items|] == supplies;
    }

    /** Chunks while the cache stays under its cap: the first copy of a chunk wins. */
    method MergeChunks(items: seq<ChunkItem>) returns (r: Result<nat, HistoryError>)
      modifies this`blobs
      ensures forall id :: id in old(blobs) ==> id in blobs && blobs[id] == old(blobs)[id]
      ensures forall id :: id in blobs && id !in old(blobs) ==>
                id != "" && exists i :: 0 <= i < |items| && FirstChunk(items, i) && items[i] == ChunkItem(id, Some(blobs[id]))
      ensures r.Success? ==>
                && |blobs| == |old(blobs)| + r.value
                && forall i :: 0 <= i < |items| && items[i].id != "" ==> items[i].ciphertext.Some? && items[i].id in blobs
      ensures r.Failure? ==> exists i :: 0 <= i < |items| && items[i].id != "" && items[i].ciphertext == None
    {
      var added := 0;
      for n := 0 to |items|
        invariant forall id :: id in old(blobs) ==> id in blobs && blobs[id] == old(blobs)[id]
        invariant forall id :: id in blobs && id !in old(blobs) ==>
                    id != "" && exists i :: 0 <= i < n && FirstChunk(items, i) && items[i] == ChunkItem(id, Some(blobs[id]))
        invariant |blobs| == |old(blobs)| + added
        invariant forall i :: 0 <= i < n && items[i].id != "" ==> items[i].ciphertext.Some? && items[i].id in blobs
      {
        var item := items[n];
        if item.id != "" {
          if item.ciphertext == None {
            return Failure(MalformedChunk);
          }
          if item.id !in blobs {
            blobs := blobs[item.id := item.ciphertext.value];
            added := added + 1;
          }
        }
      }
      return Success(added);
    }

    /** A malformed contact stops the merge before any message; a malformed chunk after all of them. */
    method MergeBundle(bundle: Bundle, supplies: seq<string>) returns (r: Result<Counts, HistoryError>, ghost known: Index)
      requires |bundle.messages| == |supplies|
      modifies this
      ensures r != Failure(MalformedContact) ==> HoldsLast(known, old(messages))
      ensures r == Failure(MalformedContact) ==> messages == old(messages) && blobs == old(blobs)
      ensures r != Failure(MalformedContact) ==>
                var m := MergeItems(Merge(old(messages), known, 0, 0), bundle.messages, supplies);
                && messages == m.rows
                && (r.Success? ==> r.value.messages == m.added && r.value.updates == m.updated)
                && forall i :: 0 <= i < |bundle.contacts| && bundle.contacts[i].id != "" ==> bundle.contacts[i].id in contacts
      ensures forall id :: id in old(contacts) ==> id in contacts && contacts[id] == old(contacts)[id]
      ensures forall id :: id in old(blobs) ==> id in blobs && blobs[id] == old(blobs)[id]
      ensures r.Success? ==>
                && |contacts| == |old(contacts)| + r.value.contacts
                && |blobs| == |old(blobs)| + r.value.chunks
                && forall i :: 0 <= i < |bundle.chunks| && bundle.chunks[i].id != "" ==> bundle.chunks[i].id in blobs
    {
      var merged := MergeContacts(bundle.contacts);
      if merged.Failure? {
        return Failure(MalformedContact), map[];
      }
      var index := MessageIndex();
      known := index;
      var added, updated, _ := MergeMessages(bundle.messages, index, supplies);
      var stored := MergeChunks(bundle.chunks);
      if stored.Failure? {
        return Failure(MalformedChunk), known;
      }
      return Success(Counts(merged.value, added, updated, stored.value)), known;
    }
  }
}

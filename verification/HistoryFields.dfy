/** What a merge does, in the fields of rows and items: which items become new rows, what those rows say, and which states rise. */
module HistoryFields {
  import opened Wrappers
  import opened History
  import opened HistoryJoin

  /**
   The row is the item's message. A message that crossed the wire is known by contact, direction and the sender's
   envelope id; one that did not, by contact, direction, time, type and body, and only among rows that did not either.
   */
  predicate SameMessage(row: Row, item: Item) {
    && row.contact == item.contact && item.direction == Some(row.direction)
    && if item.remoteId.Some? && item.remoteId.value != "" then row.remoteId == item.remoteId
       else
         && (row.remoteId.None? || row.remoteId.value == "")
         && row.ts == item.ts
         && row.kind == (if item.kind.Some? then item.kind.value else "None")
         && BodyText(row.body) == BodyText(item.body)
  }

  /** An absent body counts as the empty object. */
  function BodyText(body: Option<Json>): Json {
    if body.Some? then body.value else "{}"
  }

  lemma SameKeyIsSameMessage(row: Row, item: Item)
    ensures RowKey(row) == MessageKey(item) <==> SameMessage(row, item)
  {
  }

  function Merged(rows: Table, known: Index, item: Item, supply: string): Merge {
    MergeItem(Merge(rows, known, 0, 0), item, supply)
  }

  /**
   An item becomes a new row exactly when it names a contact and no row is its message; otherwise no row comes or
   goes. The new row says what the item says, with an absent direction or type filled in.
   */
  lemma InsertsExactlyWhenNew(rows: Table, known: Index, item: Item, supply: string)
    requires Indexes(known, rows)
    ensures var m := Merged(rows, known, item, supply);
            var id := if item.id.Some? && item.id.value != "" then item.id.value else supply;
            && (m.added == 1 <==> item.contact != "" && forall r :: r in rows ==> !SameMessage(rows[r], item))
            && (m.added == 0 || m.added == 1)
            && (m.added == 0 ==> m.rows.Keys == rows.Keys)
            && (m.added == 1 && id !in rows ==>
                  && m.rows.Keys == rows.Keys + {id}
                  && (forall r :: r in rows ==> m.rows[r] == rows[r])
                  && m.rows[id] == Row(item.contact,
                       if item.direction.Some? && item.direction.value != "" then item.direction.value else "received",
                       if item.kind.Some? && item.kind.value != "" then item.kind.value else "text",
                       item.body, item.remoteId, item.ts, item.state))
            && (m.added == 1 && id in rows ==>
                  m.rows == rows[id := rows[id].(body := item.body, remoteId := item.remoteId, state := item.state)])
  {
    forall r | r in rows ensures RowKey(rows[r]) == MessageKey(item) <==> SameMessage(rows[r], item) {
      SameKeyIsSameMessage(rows[r], item);
    }
    hide RowKey, MessageKey, SameMessage;
  }

  // ---------------------------------------------------------------- states

  /** The one way a merge moves a state: towards delivered, and from there to read. */
  predicate Raises(state: Option<string>, to: Option<string>) {
    || (to == Some("read") && state != Some("read"))
    || (to == Some("delivered") && state != Some("read") && state != Some("delivered"))
  }

  lemma RaisesIsRank(state: Option<string>, to: Option<string>)
    ensures Raises(state, to) <==> StateRank(to) > StateRank(state)
  {
  }

  /** The row an item finds takes over the item's state exactly when that is further along; nothing else changes. */
  lemma StateRisesExactlyWhenFurther(rows: Table, known: Index, item: Item, supply: string, r: string)
    requires UniqueKeys(rows) && Indexes(known, rows) && item.contact != "" && r in rows && SameMessage(rows[r], item)
    ensures var m := Merged(rows, known, item, supply);
            && m.rows == (if Raises(rows[r].state, item.state) then rows[r := rows[r].(state := item.state)] else rows)
            && m.updated == (if Raises(rows[r].state, item.state) then 1 else 0) && m.added == 0
  {
    SameKeyIsSameMessage(rows[r], item);
    RaisesIsRank(rows[r].state, item.state);
    hide RowKey, MessageKey, SameMessage, StateRank, Raises;
    var at := known[MessageKey(item)].id;
    assert at == r;
  }

  /** Over any run of merges, a message that was read stays read, and a delivered one is delivered or read. */
  lemma ReadStaysRead(tables: seq<Table>, rounds: seq<Round>, r: string)
    requires Merging(tables, rounds) && GoodBundles(rounds) && UniqueKeys(tables[0]) && r in tables[0]
    ensures var before, after := tables[0][r].state, tables[|rounds|];
            && r in after
            && (before == Some("read") ==> after[r].state == Some("read"))
            && (before == Some("delivered") ==> after[r].state == Some("delivered") || after[r].state == Some("read"))
  {
    RowsAreKept(tables, rounds, r);
    RaisesIsRank(tables[|rounds|][r].state, tables[0][r].state);
  }

  // ---------------------------------------------------------------- which of several rows is known

  /** The first text comes before the second: it ends, or has a smaller character, where they part. */
  predicate Precedes(a: string, b: string) {
    exists k :: 0 <= k <= |a| && k < |b| && a[..k] == b[..k] && (k == |a| || a[k] < b[k])
  }

  lemma {:induction false} TextBeforeParts(a: string, b: string)
    ensures TextBefore(a, b) ==> Precedes(a, b)
  {
    if TextBefore(a, b) {
      if a == [] || a[0] < b[0] {
        assert a[..0] == b[..0];
      } else {
        TextBeforeParts(a[1..], b[1..]);
        var k :| 0 <= k <= |a[1..]| && k < |b[1..]| && a[1..][..k] == b[1..][..k] && (k == |a[1..]| || a[1..][k] < b[1..][k]);
        assert a[..k + 1] == [a[0]] + a[1..][..k] && b[..k + 1] == [b[0]] + b[1..][..k];
      }
    }
  }

  /** Of several rows that are the same message the index knows the latest, and among equally late ones the last by id. */
  lemma IndexKnowsTheLatest(known: Index, rows: Table, r: string)
    requires HoldsLast(known, rows) && r in rows
    ensures var at := known[RowKey(rows[r])].id;
            && at in rows && RowKey(rows[at]) == RowKey(rows[r]) && known[RowKey(rows[r])].state == rows[at].state
            && (at == r || rows[r].ts < rows[at].ts || (rows[r].ts == rows[at].ts && Precedes(r, at)))
  {
    TextBeforeParts(r, known[RowKey(rows[r])].id);
    hide RowKey, TextBefore, Precedes;
  }
}

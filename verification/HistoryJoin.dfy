/** Merging history bundles is a join: order and repetition do not matter, ranks only rise. */
module HistoryJoin {
  import opened Wrappers
  import opened History

  /** The store holds at most one row per message key. */
  ghost predicate UniqueKeys(rows: Table) {
    forall a, b :: a in rows && b in rows && RowKey(rows[a]) == RowKey(rows[b]) ==> a == b
  }

  /** An item names its direction and, without a remote id, its type. */
  predicate WellFormed(item: Item) {
    Present(item.direction) && (Present(item.remoteId) || Present(item.kind))
  }

  /** The row an item becomes is found again under the item's own key exactly when the item is well formed. */
  lemma KeyIsStable(item: Item)
    ensures RowKey(Stored(item)) == MessageKey(item) <==> WellFormed(item)
  {
    assert Present(Some(Stored(item).direction)) && Present(Some(Stored(item).kind));
  }

  /** How far along the message with this key is, or `None` when the store does not have it. */
  ghost function RankOf(rows: Table, key: Key): Option<nat> {
    if exists id :: id in rows && RowKey(rows[id]) == key then
      var id :| id in rows && RowKey(rows[id]) == key;
      Some(StateRank(rows[id].state))
    else
      None
  }

  /** The same, looked up through an index. */
  function RankVia(rows: Table, known: Index, key: Key): Option<nat> {
    if key in known && known[key].id in rows then Some(StateRank(rows[known[key].id].state)) else None
  }

  /** An index in use: its pointers are current, its remembered states may be stale. */
  ghost predicate Points(known: Index, rows: Table) {
    && (forall id :: id in rows ==> RowKey(rows[id]) in known)
    && (forall key :: key in known ==> known[key].id in rows && RowKey(rows[known[key].id]) == key)
  }

  lemma RankThroughIndex(rows: Table, known: Index, key: Key)
    requires UniqueKeys(rows) && Points(known, rows)
    ensures RankOf(rows, key) == RankVia(rows, known, key)
  {
  }

  // ---------------------------------------------------------------- one merge

  predicate Offers(item: Item, key: Key) {
    item.contact != "" && MessageKey(item) == key
  }

  /** The ranks that `items` offer for `key`, in order. */
  function Ranks(items: seq<Item>, key: Key): seq<nat>
    decreases |items|
  {
    if items == [] then []
    else
      var k := |items| - 1;
      var before := Ranks(items[..k], key);
      if Offers(items[k], key) then before + [StateRank(items[k].state)] else before
  }

  /** What the index remembers for a key: the rank held before the merge, else the first one offered. */
  function Base(before: Option<nat>, ranks: seq<nat>): Option<nat> {
    if before.Some? then before else if ranks == [] then None else Some(ranks[0])
  }

  /** The last rank above `base`: the index is not refreshed, so each such rank overwrites the one before. */
  function LastRaise(base: nat, ranks: seq<nat>): nat
    decreases |ranks|
  {
    if ranks == [] then base
    else if ranks[|ranks| - 1] > base then ranks[|ranks| - 1]
    else LastRaise(base, ranks[..|ranks| - 1])
  }

  function Final(before: Option<nat>, ranks: seq<nat>): Option<nat> {
    match Base(before, ranks)
    case None => None
    case Some(base) => Some(LastRaise(base, ranks))
  }

  /** Items as bundles carry them: no id of their own, and well formed unless they are skipped. */
  predicate BundleItem(item: Item) {
    !Present(item.id) && (item.contact != "" ==> WellFormed(item))
  }

  /** Random ids: none is in use yet and none is drawn twice. */
  ghost predicate Fresh(rows: Table, supplies: seq<string>) {
    && (forall i :: 0 <= i < |supplies| ==> supplies[i] !in rows)
    && (forall i, j :: 0 <= i < j < |supplies| ==> supplies[i] != supplies[j])
  }

  ghost predicate Shape(start: Table, supplies: seq<string>, rows: Table, known: Index) {
    && UniqueKeys(rows)
    && Points(known, rows)
    && (forall id :: id in rows ==> id in start || id in supplies)
    && (forall id :: id in start ==> id in rows && rows[id] == start[id].(state := rows[id].state))
  }

  ghost predicate RankLaw(before: Option<nat>, ranks: seq<nat>, m: Merge, key: Key) {
    && RankVia(m.rows, m.known, key) == Final(before, ranks)
    && (if key in m.known then Some(StateRank(m.known[key].state)) else None) == Base(before, ranks)
  }

  lemma StateIsNotInTheKey(row: Row, state: Option<string>)
    ensures RowKey(row.(state := state)) == RowKey(row)
  {
  }

  lemma RaiseKeepsShape(start: Table, supplies: seq<string>, rows: Table, known: Index, at: string, state: Option<string>)
    requires Shape(start, supplies, rows, known) && at in rows
    ensures Shape(start, supplies, UpdateState(rows, at, state), known)
  {
    StateIsNotInTheKey(rows[at], state);
    hide RowKey, UniqueKeys, Points;
    var next := UpdateState(rows, at, state);
    assert next == rows[at := rows[at].(state := state)];
    SameKeysKeepPointers(rows, next, known);
    OnlyStatesMoved(start, rows, next, at, state);
    hide UpdateState;
  }

  lemma OnlyStatesMoved(start: Table, rows: Table, next: Table, at: string, state: Option<string>)
    requires at in rows && next == rows[at := rows[at].(state := state)]
    requires forall id :: id in start ==> id in rows && rows[id] == start[id].(state := rows[id].state)
    ensures forall id :: id in start ==> id in next && next[id] == start[id].(state := next[id].state)
  {
  }

  lemma SameKeysKeepPointers(rows: Table, next: Table, known: Index)
    requires UniqueKeys(rows) && Points(known, rows)
    requires next.Keys == rows.Keys && forall id :: id in rows ==> RowKey(next[id]) == RowKey(rows[id])
    ensures UniqueKeys(next) && Points(known, next)
  {
    hide RowKey;
  }

  lemma InsertKeepsShape(start: Table, supplies: seq<string>, rows: Table, known: Index, supply: string, row: Row)
    requires Shape(start, supplies, rows, known) && supply !in rows
    requires RowKey(row) !in known
    ensures Shape(start, supplies + [supply], AddMessage(rows, supply, row), known[RowKey(row) := Known(supply, row.state)])
  {
    hide RowKey, UniqueKeys, Points;
    var next := AddMessage(rows, supply, row);
    assert next == rows[supply := row];
    InsertKeepsPointers(rows, known, supply, row);
    forall id | id in next ensures id in start || id in supplies + [supply] {
      assert supply in supplies + [supply];
    }
    forall id | id in start ensures id in next && next[id] == start[id].(state := next[id].state) {
      assert next[id] == rows[id];
    }
  }

  lemma InsertKeepsPointers(rows: Table, known: Index, supply: string, row: Row)
    requires UniqueKeys(rows) && Points(known, rows) && supply !in rows && RowKey(row) !in known
    ensures UniqueKeys(rows[supply := row]) && Points(known[RowKey(row) := Known(supply, row.state)], rows[supply := row])
  {
    hide RowKey;
  }

  lemma MoreSupplies(start: Table, supplies: seq<string>, rows: Table, known: Index, supply: string)
    requires Shape(start, supplies, rows, known)
    ensures Shape(start, supplies + [supply], rows, known)
  {
    hide UniqueKeys, Points;
    assert forall id :: id in supplies ==> id in supplies + [supply];
  }

  lemma StepKeepsShape(start: Table, supplies: seq<string>, m: Merge, item: Item, supply: string)
    requires Shape(start, supplies, m.rows, m.known) && BundleItem(item)
    requires supply !in m.rows
    ensures var next := MergeItem(m, item, supply); Shape(start, supplies + [supply], next.rows, next.known)
  {
    KeyIsStable(item);
    var key := MessageKey(item);
    if item.contact == "" {
      MoreSupplies(start, supplies, m.rows, m.known, supply);
    } else if key !in m.known {
      InsertKeepsShape(start, supplies, m.rows, m.known, supply, Stored(item));
    } else {
      assert m.known[key].id in m.rows;
      RaiseKeepsShape(start, supplies, m.rows, m.known, m.known[key].id, item.state);
      hide Shape;
      var next := MergeItem(m, item, supply);
      MoreSupplies(start, supplies, next.rows, m.known, supply);
    }
  }

  lemma OneMoreRank(before: Option<nat>, ranks: seq<nat>, rank: nat)
    ensures Base(before, ranks + [rank]) == if Base(before, ranks).Some? then Base(before, ranks) else Some(rank)
    ensures Final(before, ranks + [rank]) ==
            match Base(before, ranks)
            case None => Some(rank)
            case Some(base) => if rank > base then Some(rank) else Final(before, ranks)
  {
    var more := ranks + [rank];
    assert more[..|more| - 1] == ranks && more[|more| - 1] == rank;
    if Base(before, ranks) == None {
      assert LastRaise(rank, ranks) == rank;
      assert LastRaise(rank, more) == rank;
    } else {
      assert Base(before, more) == Base(before, ranks);
    }
  }

  lemma StepKeepsLaw(before: Option<nat>, ranks: seq<nat>, m: Merge, item: Item, supply: string, key: Key)
    requires Points(m.known, m.rows) && BundleItem(item) && supply !in m.rows
    requires RankLaw(before, ranks, m, key)
    ensures var after := if Offers(item, key) then ranks + [StateRank(item.state)] else ranks;
            RankLaw(before, after, MergeItem(m, item, supply), key)
  {
    if item.contact != "" {
      OneMoreRank(before, ranks, StateRank(item.state));
      var own := MessageKey(item);
      hide Base, Final, StateRank, MessageKey;
      if own in m.known && own != key && key in m.known {
        assert m.known[own].id != m.known[key].id;
      }
    }
  }

  lemma StartingShape(start: Table, known: Index)
    requires UniqueKeys(start) && Points(known, start)
    ensures Shape(start, [], start, known)
  {
  }

  lemma FreshPrefix(rows: Table, supplies: seq<string>, k: nat)
    requires k <= |supplies| && Fresh(rows, supplies)
    ensures Fresh(rows, supplies[..k])
  {
  }

  lemma SupplyStaysFresh(start: Table, supplies: seq<string>, rows: Table, known: Index, k: nat)
    requires k < |supplies| && Fresh(start, supplies) && Shape(start, supplies[..k], rows, known)
    ensures supplies[k] !in rows && Points(known, rows)
  {
  }

  lemma {:induction false} MergeKeepsShape(start: Table, known: Index, items: seq<Item>, supplies: seq<string>)
    requires UniqueKeys(start) && Points(known, start)
    requires |items| == |supplies| && Fresh(start, supplies)
    requires forall i :: 0 <= i < |items| ==> BundleItem(items[i])
    ensures var m := MergeItems(Merge(start, known, 0, 0), items, supplies); Shape(start, supplies, m.rows, m.known)
    decreases |items|
  {
    if items == [] {
      StartingShape(start, known);
      assert supplies == [];
    } else {
      hide Shape, MergeItem, BundleItem, UniqueKeys, Points;
      var k := |items| - 1;
      FreshPrefix(start, supplies, k);
      hide Fresh;
      MergeKeepsShape(start, known, items[..k], supplies[..k]);
      var m := MergeItems(Merge(start, known, 0, 0), items[..k], supplies[..k]);
      SupplyStaysFresh(start, supplies, m.rows, m.known, k);
      StepKeepsShape(start, supplies[..k], m, items[k], supplies[k]);
      assert supplies[..k] + [supplies[k]] == supplies;
    }
  }

  lemma IndexPoints(known: Index, rows: Table)
    requires Indexes(known, rows)
    ensures Points(known, rows)
  {
  }

  lemma StartingLaw(start: Table, known: Index, key: Key)
    requires Indexes(known, start)
    ensures RankLaw(RankVia(start, known, key), [], Merge(start, known, 0, 0), key)
  {
  }

  /**
   What one merge does to every message, whatever the bundle repeats: a key is held afterwards
   exactly when it was held or offered, and its rank is the last one offered above the remembered one.
   */
  lemma {:induction false} MergeKeepsLaw(start: Table, known: Index, items: seq<Item>, supplies: seq<string>, key: Key)
    requires UniqueKeys(start) && Indexes(known, start)
    requires |items| == |supplies| && Fresh(start, supplies)
    requires forall i :: 0 <= i < |items| ==> BundleItem(items[i])
    ensures RankLaw(RankVia(start, known, key), Ranks(items, key),
                    MergeItems(Merge(start, known, 0, 0), items, supplies), key)
    decreases |items|
  {
    if items == [] {
      StartingLaw(start, known, key);
    } else {
      var k := |items| - 1;
      IndexPoints(known, start);
      FreshPrefix(start, supplies, k);
      hide UniqueKeys, Indexes, Fresh, Shape, Points, MergeItem, BundleItem, RankLaw, Offers, RankVia;
      MergeKeepsLaw(start, known, items[..k], supplies[..k], key);
      MergeKeepsShape(start, known, items[..k], supplies[..k]);
      var m := MergeItems(Merge(start, known, 0, 0), items[..k], supplies[..k]);
      SupplyStaysFresh(start, supplies, m.rows, m.known, k);
      StepKeepsLaw(RankVia(start, known, key), Ranks(items[..k], key), m, items[k], supplies[k], key);
    }
  }

  // ---------------------------------------------------------------- the join

  /** `after` is the join of a rank held and the ranks offered: present when any is, and their maximum. */
  ghost predicate Joined(before: Option<nat>, offered: set<nat>, after: Option<nat>) {
    && (after == None <==> before == None && offered == {})
    && (after.Some? ==>
          && (after.value in offered || before == after)
          && (forall r :: r in offered ==> r <= after.value)
          && (before.Some? ==> before.value <= after.value))
  }

  lemma JoinIsUnique(before: Option<nat>, offered: set<nat>, a: Option<nat>, b: Option<nat>)
    requires Joined(before, offered, a) && Joined(before, offered, b)
    ensures a == b
  {
  }

  lemma JoinThenJoin(a: Option<nat>, first: set<nat>, b: Option<nat>, second: set<nat>, c: Option<nat>)
    requires Joined(a, first, b) && Joined(b, second, c)
    ensures Joined(a, first + second, c)
  {
    if c == None {
      assert first + second == {};
    }
  }

  function RankSet(ranks: seq<nat>): set<nat> {
    set r | r in ranks
  }

  /** No two items of the bundle carry the same message. */
  ghost predicate DistinctKeys(items: seq<Item>) {
    forall i, j :: 0 <= i < j < |items| && items[i].contact != "" && items[j].contact != "" ==>
      MessageKey(items[i]) != MessageKey(items[j])
  }

  lemma {:induction false} RanksAreOffers(items: seq<Item>, key: Key, r: nat)
    ensures r in Ranks(items, key) <==> exists i :: 0 <= i < |items| && Offers(items[i], key) && StateRank(items[i].state) == r
    decreases |items|
  {
    if items != [] {
      hide Offers, StateRank;
      var k := |items| - 1;
      RanksAreOffers(items[..k], key, r);
    }
  }

  lemma {:induction false} DistinctKeysOfferOnce(items: seq<Item>, key: Key)
    requires DistinctKeys(items)
    ensures |Ranks(items, key)| <= 1
    decreases |items|
  {
    if items != [] {
      var k := |items| - 1;
      DistinctKeysOfferOnce(items[..k], key);
      if Offers(items[k], key) && Ranks(items[..k], key) != [] {
        RanksAreOffers(items[..k], key, Ranks(items[..k], key)[0]);
        assert false;
      }
    }
  }

  lemma OneOfferJoins(before: Option<nat>, ranks: seq<nat>)
    requires |ranks| <= 1
    ensures Joined(before, RankSet(ranks), Final(before, ranks))
  {
    if ranks == [] {
      assert RankSet(ranks) == {};
    } else {
      var base := Base(before, ranks).value;
      assert ranks[0] in RankSet(ranks) && LastRaise(base, ranks[..0]) == base;
      assert Final(before, ranks) == Some(if ranks[0] > base then ranks[0] else base);
    }
  }

  /** A bundle with distinct message keys is joined into the store. */
  lemma MergeIsJoin(start: Table, known: Index, items: seq<Item>, supplies: seq<string>, key: Key)
    requires UniqueKeys(start) && Indexes(known, start)
    requires |items| == |supplies| && Fresh(start, supplies)
    requires (forall i :: 0 <= i < |items| ==> BundleItem(items[i])) && DistinctKeys(items)
    ensures var after := MergeItems(Merge(start, known, 0, 0), items, supplies).rows;
            UniqueKeys(after) && Joined(RankOf(start, key), RankSet(Ranks(items, key)), RankOf(after, key))
  {
    var m := MergeItems(Merge(start, known, 0, 0), items, supplies);
    MergeKeepsShape(start, known, items, supplies);
    MergeKeepsLaw(start, known, items, supplies, key);
    RankThroughIndex(start, known, key);
    RankThroughIndex(m.rows, m.known, key);
    DistinctKeysOfferOnce(items, key);
    OneOfferJoins(RankVia(start, known, key), Ranks(items, key));
  }

  /** A run of merges: the table before and after each bundle, with the index built and the ids drawn for it. */
  datatype Round = Round(items: seq<Item>, known: Index, supplies: seq<string>)

  ghost predicate Merging(tables: seq<Table>, rounds: seq<Round>) {
    && |tables| == |rounds| + 1
    && forall i :: 0 <= i < |rounds| ==> Merges(tables[i], rounds[i], tables[i + 1])
  }

  ghost predicate Merges(before: Table, round: Round, after: Table) {
    && |round.items| == |round.supplies|
    && Indexes(round.known, before)
    && Fresh(before, round.supplies)
    && after == MergeItems(Merge(before, round.known, 0, 0), round.items, round.supplies).rows
  }

  ghost predicate GoodBundles(rounds: seq<Round>) {
    forall n :: 0 <= n < |rounds| ==>
      DistinctKeys(rounds[n].items) && forall i :: 0 <= i < |rounds[n].items| ==> BundleItem(rounds[n].items[i])
  }

  /** Every rank that any bundle of the run offers for `key`. */
  ghost function Offered(rounds: seq<Round>, key: Key): set<nat>
    decreases |rounds|
  {
    if rounds == [] then {}
    else Offered(rounds[..|rounds| - 1], key) + RankSet(Ranks(rounds[|rounds| - 1].items, key))
  }

  /** Merging any list of bundles yields the union of the keys and, per key, the maximum rank. */
  lemma {:induction false} MergingIsJoin(tables: seq<Table>, rounds: seq<Round>, key: Key)
    requires Merging(tables, rounds) && GoodBundles(rounds) && UniqueKeys(tables[0])
    ensures UniqueKeys(tables[|rounds|])
    ensures Joined(RankOf(tables[0], key), Offered(rounds, key), RankOf(tables[|rounds|], key))
    decreases |rounds|
  {
    hide UniqueKeys, Joined, RankOf;
    if rounds == [] {
      NothingJoins(RankOf(tables[0], key));
    } else {
      var n := |rounds| - 1;
      MergingIsJoin(tables[..n + 1], rounds[..n], key);
      var round := rounds[n];
      assert Merges(tables[n], round, tables[n + 1]);
      MergeIsJoin(tables[n], round.known, round.items, round.supplies, key);
      JoinThenJoin(RankOf(tables[0], key), Offered(rounds[..n], key), RankOf(tables[n], key),
                   RankSet(Ranks(round.items, key)), RankOf(tables[n + 1], key));
    }
  }

  lemma NothingJoins(before: Option<nat>)
    ensures Joined(before, {}, before)
  {
  }

  /** Some bundle of the run carries `item`. */
  ghost predicate Carries(rounds: seq<Round>, item: Item) {
    exists n :: 0 <= n < |rounds| && item in rounds[n].items
  }

  lemma {:induction false} OfferedIsCarried(rounds: seq<Round>, key: Key, r: nat)
    ensures r in Offered(rounds, key) <==>
            exists item :: Carries(rounds, item) && Offers(item, key) && StateRank(item.state) == r
    decreases |rounds|
  {
    if rounds != [] {
      hide Offers, StateRank;
      var n := |rounds| - 1;
      OfferedIsCarried(rounds[..n], key, r);
      RanksAreOffers(rounds[n].items, key, r);
      forall item | Carries(rounds[..n], item) ensures Carries(rounds, item) {
        var m :| 0 <= m < n && item in rounds[..n][m].items;
        assert item in rounds[m].items;
      }
      forall item | Carries(rounds, item) ensures Carries(rounds[..n], item) || item in rounds[n].items {
        var m :| 0 <= m < |rounds| && item in rounds[m].items;
        if m < n {
          assert item in rounds[..n][m].items;
        }
      }
      forall i | 0 <= i < |rounds[n].items| ensures Carries(rounds, rounds[n].items[i]) {
      }
    }
  }

  /**
   Two runs that carry the same items, in whatever order, grouping and repetition, end with the same
   messages at the same ranks.
   */
  lemma OrderAndRepetitionDoNotMatter(tables: seq<Table>, rounds: seq<Round>, tables': seq<Table>, rounds': seq<Round>, key: Key)
    requires Merging(tables, rounds) && GoodBundles(rounds) && UniqueKeys(tables[0])
    requires Merging(tables', rounds') && GoodBundles(rounds') && tables'[0] == tables[0]
    requires forall item :: Carries(rounds, item) <==> Carries(rounds', item)
    ensures RankOf(tables[|rounds|], key) == RankOf(tables'[|rounds'|], key)
  {
    hide Carries, Offers, GoodBundles, UniqueKeys, RankOf;
    MergingIsJoin(tables, rounds, key);
    MergingIsJoin(tables', rounds', key);
    forall r: nat ensures r in Offered(rounds, key) <==> r in Offered(rounds', key) {
      OfferedIsCarried(rounds, key, r);
      OfferedIsCarried(rounds', key, r);
    }
    assert Offered(rounds, key) == Offered(rounds', key);
    JoinIsUnique(RankOf(tables[0], key), Offered(rounds, key),
                 RankOf(tables[|rounds|], key), RankOf(tables'[|rounds'|], key));
  }

  /** Items that the index already knows at their rank or above leave everything as it is. */
  lemma {:induction false} NothingNew(m: Merge, items: seq<Item>, supplies: seq<string>)
    requires |items| == |supplies|
    requires forall i :: 0 <= i < |items| && items[i].contact != "" ==>
               MessageKey(items[i]) in m.known && StateRank(items[i].state) <= StateRank(m.known[MessageKey(items[i])].state)
    ensures MergeItems(m, items, supplies) == m
    decreases |items|
  {
    if items != [] {
      hide MessageKey, StateRank;
      NothingNew(m, items[..|items| - 1], supplies[..|items| - 1]);
    }
  }

  /** Merging the same bundle again, with nothing in between, changes no row and counts nothing. */
  lemma MergingAgainChangesNothing(before: Table, round: Round, after: Table, known: Index, supplies: seq<string>)
    requires UniqueKeys(before) && Merges(before, round, after) && GoodBundles([round])
    requires Indexes(known, after) && |supplies| == |round.items|
    ensures MergeItems(Merge(after, known, 0, 0), round.items, supplies) == Merge(after, known, 0, 0)
  {
    var items := round.items;
    assert [round][0] == round;
    forall i | 0 <= i < |items| && items[i].contact != ""
      ensures MessageKey(items[i]) in known && StateRank(items[i].state) <= StateRank(known[MessageKey(items[i])].state)
    {
      var key := MessageKey(items[i]);
      var rank := StateRank(items[i].state);
      MergeIsJoin(before, round.known, items, round.supplies, key);
      RanksAreOffers(items, key, rank);
      assert Offers(items[i], key) && rank in RankSet(Ranks(items, key));
      RankThroughIndex(after, known, key);
    }
    NothingNew(Merge(after, known, 0, 0), items, supplies);
  }

  /** A row, once stored, keeps its contact, direction, type, time, body and remote id through any run. */
  lemma {:induction false} RowsAreKept(tables: seq<Table>, rounds: seq<Round>, id: string)
    requires Merging(tables, rounds) && GoodBundles(rounds) && UniqueKeys(tables[0]) && id in tables[0]
    ensures id in tables[|rounds|]
    ensures tables[|rounds|][id] == tables[0][id].(state := tables[|rounds|][id].state)
    ensures StateRank(tables[0][id].state) <= StateRank(tables[|rounds|][id].state)
    decreases |rounds|
  {
    if rounds != [] {
      hide UniqueKeys, Indexes, Fresh;
      var n := |rounds| - 1;
      RowsAreKept(tables[..n + 1], rounds[..n], id);
      var key := RowKey(tables[n][id]);
      MergingIsJoin(tables[..n + 1], rounds[..n], key);
      assert Merges(tables[n], rounds[n], tables[n + 1]);
      OneMergeKeepsRow(tables[n], rounds[n], tables[n + 1], id);
    }
  }

  lemma OneMergeKeepsRow(before: Table, round: Round, after: Table, id: string)
    requires UniqueKeys(before) && Merges(before, round, after) && id in before
    requires DistinctKeys(round.items) && forall i :: 0 <= i < |round.items| ==> BundleItem(round.items[i])
    ensures id in after && after[id] == before[id].(state := after[id].state)
    ensures StateRank(before[id].state) <= StateRank(after[id].state)
  {
    var m := MergeItems(Merge(before, round.known, 0, 0), round.items, round.supplies);
    var key := RowKey(before[id]);
    MergeKeepsShape(before, round.known, round.items, round.supplies);
    MergeIsJoin(before, round.known, round.items, round.supplies, key);
    StateIsNotInTheKey(before[id], after[id].state);
    RankThroughIndex(before, round.known, key);
    RankThroughIndex(after, m.known, key);
  }

  // ---------------------------------------------------------------- where it is not a join

  /** The last rank above `base` stands at `j`. */
  ghost predicate LastAbove(base: nat, ranks: seq<nat>, j: nat) {
    j < |ranks| && base < ranks[j] && forall k :: j < k < |ranks| ==> ranks[k] <= base
  }

  /** The raise that comes last is lower than an earlier one. */
  ghost predicate Overtaken(base: nat, ranks: seq<nat>) {
    exists i: nat, j: nat :: i < j < |ranks| && LastAbove(base, ranks, j) && ranks[j] < ranks[i]
  }

  ghost predicate IsMaximum(base: nat, ranks: seq<nat>, r: nat) {
    && (r == base || r in ranks)
    && base <= r && forall i :: 0 <= i < |ranks| ==> ranks[i] <= r
  }

  lemma {:induction false} LastRaiseIs(base: nat, ranks: seq<nat>)
    ensures var r := LastRaise(base, ranks);
            (r == base && forall i :: 0 <= i < |ranks| ==> ranks[i] <= base)
            || (exists j: nat :: LastAbove(base, ranks, j) && r == ranks[j])
    decreases |ranks|
  {
    if ranks != [] {
      var n := |ranks| - 1;
      LastRaiseIs(base, ranks[..n]);
      assert forall i :: 0 <= i < n ==> ranks[..n][i] == ranks[i];
      if ranks[n] > base {
        assert LastAbove(base, ranks, n);
      } else if !(forall i :: 0 <= i < n ==> ranks[i] <= base) {
        var j: nat :| LastAbove(base, ranks[..n], j) && LastRaise(base, ranks) == ranks[j];
        assert LastAbove(base, ranks, j);
      }
    }
  }

  /** With repeated keys in one bundle the rank ends at the maximum exactly when no later raise falls short of an earlier one. */
  lemma RepeatsKeepTheMaximumExactlyWhen(base: nat, ranks: seq<nat>)
    ensures IsMaximum(base, ranks, LastRaise(base, ranks)) <==> !Overtaken(base, ranks)
  {
    LastRaiseIs(base, ranks);
    var r := LastRaise(base, ranks);
    hide LastRaise;
    if exists j: nat :: LastAbove(base, ranks, j) && r == ranks[j] {
      var j: nat :| LastAbove(base, ranks, j) && r == ranks[j];
      RaiseIsMaximumExactlyWhen(base, ranks, j);
    } else {
      assert !Overtaken(base, ranks);
    }
  }

  lemma RaiseIsMaximumExactlyWhen(base: nat, ranks: seq<nat>, j: nat)
    requires LastAbove(base, ranks, j)
    ensures IsMaximum(base, ranks, ranks[j]) <==> !Overtaken(base, ranks)
  {
    forall k: nat | LastAbove(base, ranks, k) ensures k == j {
    }
    if Overtaken(base, ranks) {
      var i: nat, k: nat :| i < k < |ranks| && LastAbove(base, ranks, k) && ranks[k] < ranks[i];
      assert k == j && !IsMaximum(base, ranks, ranks[j]);
    } else {
      forall i: nat | i < |ranks| ensures ranks[i] <= ranks[j] {
        assert i < j ==> !(ranks[j] < ranks[i]);
      }
    }
  }

  /** The same for a whole merge: per key, the stored rank is the join of held and offered unless overtaken. */
  lemma MergeJoinsUnlessOvertaken(start: Table, known: Index, items: seq<Item>, supplies: seq<string>, key: Key)
    requires UniqueKeys(start) && Indexes(known, start)
    requires |items| == |supplies| && Fresh(start, supplies)
    requires forall i :: 0 <= i < |items| ==> BundleItem(items[i])
    ensures var after := MergeItems(Merge(start, known, 0, 0), items, supplies).rows;
            var ranks := Ranks(items, key);
            Joined(RankOf(start, key), RankSet(ranks), RankOf(after, key)) <==>
            !(Base(RankOf(start, key), ranks).Some? && Overtaken(Base(RankOf(start, key), ranks).value, ranks))
  {
    var m := MergeItems(Merge(start, known, 0, 0), items, supplies);
    MergeKeepsShape(start, known, items, supplies);
    MergeKeepsLaw(start, known, items, supplies, key);
    RankThroughIndex(start, known, key);
    RankThroughIndex(m.rows, m.known, key);
    FinalJoinsUnlessOvertaken(RankOf(start, key), Ranks(items, key));
  }

  lemma FinalJoinsUnlessOvertaken(before: Option<nat>, ranks: seq<nat>)
    ensures Joined(before, RankSet(ranks), Final(before, ranks)) <==>
            !(Base(before, ranks).Some? && Overtaken(Base(before, ranks).value, ranks))
  {
    if Base(before, ranks).Some? {
      var base := Base(before, ranks).value;
      RepeatsKeepTheMaximumExactlyWhen(base, ranks);
      var r := LastRaise(base, ranks);
      assert before == None ==> ranks[0] in RankSet(ranks);
      hide Overtaken, LastRaise;
      forall i | 0 <= i < |ranks| ensures ranks[i] in RankSet(ranks) {
      }
    } else {
      assert RankSet(ranks) == {};
    }
  }

  /** A bundle that lists a received message first as read and then as delivered leaves it merely delivered. */
  lemma RepeatedMessageGoesBackwards(row: Row)
    requires row.contact != "" && row.state == Some("received")
    ensures var item := AsItem(row);
            var items := [item.(state := Some("read")), item.(state := Some("delivered"))];
            var known := map[RowKey(row) := Known("m", row.state)];
            && Indexes(known, map["m" := row])
            && MergeItems(Merge(map["m" := row], known, 0, 0), items, ["a", "b"]).rows == map["m" := row.(state := Some("delivered"))]
  {
    var item := AsItem(row);
    var first, second := item.(state := Some("read")), item.(state := Some("delivered"));
    var m0 := Merge(map["m" := row], map[RowKey(row) := Known("m", row.state)], 0, 0);
    assert MessageKey(first) == RowKey(row) && MessageKey(second) == RowKey(row);
    SingleItem(m0, first, "a");
    assert [first, second][..1] == [first] && ["a", "b"][..1] == ["a"];
    assert MergeItem(m0, first, "a").rows == map["m" := row.(state := Some("read"))];
  }

  /** Rows as the client writes them: direction and type are never empty, and no type reads "None". */
  ghost predicate Filled(rows: Table) {
    forall id :: id in rows ==> rows[id].direction != "" && rows[id].kind != "" && rows[id].kind != "None"
  }

  /**
   Re-merging one item settles exactly when the item is well formed (or skipped): an item without a
   direction, or without both remote id and type, is inserted anew every time.
   */
  lemma RemergeSettlesExactlyWhen(start: Table, known: Index, item: Item, supply: string, known': Index, supply': string)
    requires UniqueKeys(start) && Filled(start) && Indexes(known, start) && !Present(item.id)
    requires supply !in start
    requires var after := MergeItem(Merge(start, known, 0, 0), item, supply).rows;
             Indexes(known', after) && supply' !in after
    ensures var after := MergeItem(Merge(start, known, 0, 0), item, supply).rows;
            MergeItem(Merge(after, known', 0, 0), item, supply').rows == after <==>
            item.contact == "" || WellFormed(item)
  {
    hide UniqueKeys, MessageKey, StateRank, Filled, Indexes, MergeItem;
    if item.contact == "" {
      SkippedItemChangesNothing(start, known, item, supply, known', supply');
    } else if WellFormed(item) {
      WellFormedItemSettles(start, known, item, supply, known', supply');
    } else {
      IllFormedItemReturns(start, known, item, supply, known', supply');
    }
  }

  lemma SkippedItemChangesNothing(start: Table, known: Index, item: Item, supply: string, known': Index, supply': string)
    requires item.contact == ""
    ensures var after := MergeItem(Merge(start, known, 0, 0), item, supply).rows;
            MergeItem(Merge(after, known', 0, 0), item, supply').rows == after
  {
  }

  lemma WellFormedItemSettles(start: Table, known: Index, item: Item, supply: string, known': Index, supply': string)
    requires UniqueKeys(start) && Indexes(known, start) && !Present(item.id) && WellFormed(item) && supply !in start
    requires Indexes(known', MergeItem(Merge(start, known, 0, 0), item, supply).rows)
    ensures var after := MergeItem(Merge(start, known, 0, 0), item, supply).rows;
            MergeItem(Merge(after, known', 0, 0), item, supply').rows == after
  {
    hide UniqueKeys, MergeItem, Indexes, WellFormed;
    var after := MergeItem(Merge(start, known, 0, 0), item, supply).rows;
    var round := Round([item], known, [supply]);
    SingleItem(Merge(start, known, 0, 0), item, supply);
    SingleItem(Merge(after, known', 0, 0), item, supply');
    assert Merges(start, round, after);
    MergingAgainChangesNothing(start, round, after, known', [supply']);
  }

  lemma IllFormedItemReturns(start: Table, known: Index, item: Item, supply: string, known': Index, supply': string)
    requires Filled(start) && Indexes(known, start) && !Present(item.id) && !WellFormed(item) && item.contact != ""
    requires supply !in start
    requires var after := MergeItem(Merge(start, known, 0, 0), item, supply).rows;
             Indexes(known', after) && supply' !in after
    ensures var after := MergeItem(Merge(start, known, 0, 0), item, supply).rows;
            && after == start[supply := Stored(item)]
            && MergeItem(Merge(after, known', 0, 0), item, supply').rows == after[supply' := Stored(item)]
            && MergeItem(Merge(after, known', 0, 0), item, supply').rows != after
  {
    forall id | id in start ensures RowKey(start[id]) != MessageKey(item) {
      IllFormedKeyIsNeverStored(start[id], item);
    }
    KeyIsStable(item);
    hide RowKey, MessageKey, Stored, WellFormed, Filled;
    var after := MergeItem(Merge(start, known, 0, 0), item, supply).rows;
    assert after == start[supply := Stored(item)];
    assert forall id :: id in after ==> RowKey(after[id]) != MessageKey(item);
    assert supply' in MergeItem(Merge(after, known', 0, 0), item, supply').rows;
  }

  /** Merging `item` turned the table into its join with the item, and kept keys unique. */
  ghost predicate JoinsItem(rows: Table, item: Item, after: Table) {
    && UniqueKeys(after)
    && forall key: Key ::
         Joined(RankOf(rows, key), if Offers(item, key) then {StateRank(item.state)} else {}, RankOf(after, key))
  }

  /**
   One item, with or without an id of its own, as a mirrored message brings it: merging it is a join exactly
   when it is skipped, or its message is known, or it is well formed and its id is not yet taken. A taken id
   would put the item's body and state into another message's row.
   */
  lemma OneItemJoinsExactlyWhen(rows: Table, known: Index, item: Item, supply: string)
    requires UniqueKeys(rows) && Indexes(known, rows)
    ensures JoinsItem(rows, item, MergeItem(Merge(rows, known, 0, 0), item, supply).rows) <==>
            item.contact == "" || MessageKey(item) in known || (WellFormed(item) && NewId(item, supply) !in rows)
  {
    if item.contact == "" {
      SkippedJoins(rows, item);
    } else if MessageKey(item) in known {
      KnownJoins(rows, known, item, supply);
    } else if NewId(item, supply) in rows {
      TakenIdDoesNotJoin(rows, known, item, supply);
    } else {
      InsertedJoinsExactlyWhen(rows, known, item, supply);
    }
  }

  lemma SkippedJoins(rows: Table, item: Item)
    requires UniqueKeys(rows) && item.contact == ""
    ensures JoinsItem(rows, item, rows)
  {
    hide UniqueKeys, RankOf;
    forall key: Key ensures Joined(RankOf(rows, key), {}, RankOf(rows, key)) {
      NothingJoins(RankOf(rows, key));
    }
  }

  lemma KnownJoins(rows: Table, known: Index, item: Item, supply: string)
    requires UniqueKeys(rows) && Indexes(known, rows) && item.contact != "" && MessageKey(item) in known
    ensures JoinsItem(rows, item, MergeItem(Merge(rows, known, 0, 0), item, supply).rows)
  {
    var m := MergeItem(Merge(rows, known, 0, 0), item, supply);
    var own := MessageKey(item);
    var at := known[own].id;
    StateIsNotInTheKey(rows[at], item.state);
    IndexPoints(known, rows);
    hide RowKey, MessageKey;
    assert m.rows == rows || m.rows == UpdateState(rows, at, item.state);
    SameKeysKeepPointers(rows, m.rows, known);
    forall key: Key
      ensures Joined(RankOf(rows, key), if Offers(item, key) then {StateRank(item.state)} else {}, RankOf(m.rows, key))
    {
      KnownJoinsAt(rows, known, item, m.rows, key);
    }
  }

  lemma KnownJoinsAt(rows: Table, known: Index, item: Item, next: Table, key: Key)
    requires UniqueKeys(rows) && Indexes(known, rows) && UniqueKeys(next) && Points(known, next)
    requires MessageKey(item) in known && item.contact != ""
    requires var at := known[MessageKey(item)].id;
             next == if StateRank(item.state) > StateRank(rows[at].state) then UpdateState(rows, at, item.state) else rows
    ensures Joined(RankOf(rows, key), if Offers(item, key) then {StateRank(item.state)} else {}, RankOf(next, key))
  {
    IndexPoints(known, rows);
    RankThroughIndex(rows, known, key);
    RankThroughIndex(next, known, key);
    hide RankOf, UniqueKeys, RowKey, MessageKey, StateRank;
  }

  /** The row whose id is taken loses its key, or keeps it and the item's key is missing. */
  lemma TakenIdDoesNotJoin(rows: Table, known: Index, item: Item, supply: string)
    requires UniqueKeys(rows) && Indexes(known, rows) && item.contact != "" && MessageKey(item) !in known
    requires NewId(item, supply) in rows
    ensures !JoinsItem(rows, item, MergeItem(Merge(rows, known, 0, 0), item, supply).rows)
  {
    var after := MergeItem(Merge(rows, known, 0, 0), item, supply).rows;
    var id := NewId(item, supply);
    var own, lost := MessageKey(item), RowKey(rows[id]);
    assert own != lost && Offers(item, own) && !Offers(item, lost);
    hide RowKey, MessageKey, UniqueKeys, Offers;
    assert after.Keys == rows.Keys && forall x :: x in rows && x != id ==> after[x] == rows[x];
    assert RankOf(rows, lost).Some?;
    assert RowKey(after[id]) != own ==> RankOf(after, own) == None;
    assert RowKey(after[id]) != lost ==> RankOf(after, lost) == None by {
      OnlyRowWithKey(rows, id);
    }
    hide RankOf;
    assert !Joined(RankOf(rows, lost), {}, None) && !Joined(RankOf(rows, own), {StateRank(item.state)}, None);
  }

  lemma OnlyRowWithKey(rows: Table, id: string)
    requires UniqueKeys(rows) && id in rows
    ensures forall x :: x in rows && x != id ==> RowKey(rows[x]) != RowKey(rows[id])
  {
  }

  lemma InsertedJoinsExactlyWhen(rows: Table, known: Index, item: Item, supply: string)
    requires UniqueKeys(rows) && Indexes(known, rows) && item.contact != "" && MessageKey(item) !in known
    requires NewId(item, supply) !in rows
    ensures JoinsItem(rows, item, MergeItem(Merge(rows, known, 0, 0), item, supply).rows) <==> WellFormed(item)
  {
    var m := MergeItem(Merge(rows, known, 0, 0), item, supply);
    var id, own := NewId(item, supply), MessageKey(item);
    KeyIsStable(item);
    IndexPoints(known, rows);
    assert m.rows == rows[id := Stored(item)];
    hide RowKey, MessageKey, WellFormed, Stored;
    if WellFormed(item) {
      InsertKeepsPointers(rows, known, id, Stored(item));
      forall key: Key
        ensures Joined(RankOf(rows, key), if Offers(item, key) then {StateRank(item.state)} else {}, RankOf(m.rows, key))
      {
        RankThroughIndex(rows, known, key);
        RankThroughIndex(m.rows, m.known, key);
        StoredState(item);
        hide RankOf, UniqueKeys, StateRank;
      }
    } else {
      assert Offers(item, own) && RankOf(m.rows, own) == None;
      assert !Joined(RankOf(rows, own), {StateRank(item.state)}, None);
    }
  }

  lemma StoredState(item: Item)
    ensures Stored(item).state == item.state
  {
  }

  lemma SingleItem(m: Merge, item: Item, supply: string)
    ensures MergeItems(m, [item], [supply]) == MergeItem(m, item, supply)
  {
    assert [item][..0] == [] && [supply][..0] == [];
  }

  lemma IllFormedKeyIsNeverStored(row: Row, item: Item)
    requires row.direction != "" && row.kind != "" && row.kind != "None" && !WellFormed(item)
    ensures RowKey(row) != MessageKey(item)
  {
  }
}

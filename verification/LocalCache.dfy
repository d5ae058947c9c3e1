/** The local attachment cache (noknowledge/core/store.py): insertion and oldest-first eviction. */
module LocalCache {
  import opened Rows

  type Bytes = seq<nat>

  datatype Chunk = Chunk(id: string, ciphertext: Bytes, created: real)

  const CAP := 2 * 1024 * 1024 * 1024

  function Size(): Chunk -> nat { (row: Chunk) => |row.ciphertext| }
  function Without(gone: set<string>): Chunk -> bool { (row: Chunk) => row.id !in gone }
  function Only(kept: set<string>): Chunk -> bool { (row: Chunk) => row.id in kept }
  function Differ(): (Chunk, Chunk) -> bool { (x: Chunk, y: Chunk) => x.id != y.id }
  function Total(rows: seq<Chunk>): nat { Sum(rows, Size()) }

  /** The primary key: no two rows share a chunk id. */
  ghost predicate Unique(rows: seq<Chunk>) {
    forall i, j :: 0 <= i < j < |rows| ==> rows[i].id != rows[j].id
  }

  predicate Holds(rows: seq<Chunk>, id: string) {
    exists i :: 0 <= i < |rows| && rows[i].id == id
  }

  /** Nothing that was dropped is newer than anything that was kept. */
  ghost predicate OldestFirst(rows: seq<Chunk>, gone: set<string>) {
    forall x, y :: x in rows && y in rows && x.id in gone && y.id !in gone ==> x.created <= y.created
  }

  /** The chunk dropped last: the newest of the dropped, and with it the rest would not have fitted. */
  ghost predicate LastDropped(rows: seq<Chunk>, gone: set<string>, cap: int, last: Chunk) {
    && last in rows && last.id in gone
    && (forall x :: x in rows && x.id in gone ==> x.created <= last.created)
    && Total(Keep(rows, Without(gone))) + |last.ciphertext| > cap
  }

  /** What one pruning may do: drop exactly `gone`, oldest first, and not one chunk too many. */
  ghost predicate Pruned(rows: seq<Chunk>, gone: set<string>, cap: int) {
    && (forall id :: id in gone ==> Holds(rows, id))
    && OldestFirst(rows, gone)
    && (Total(Keep(rows, Without(gone))) <= cap || Keep(rows, Without(gone)) == [])
    && (gone == {} || exists last :: LastDropped(rows, gone, cap, last))
  }

  lemma {:induction false} DropOne(rows: seq<Chunk>, victim: Chunk)
    requires Unique(rows) && victim in rows
    ensures Total(Keep(rows, Without({victim.id}))) == Total(rows) - |victim.ciphertext|
    ensures |Keep(rows, Without({victim.id}))| == |rows| - 1
  {
    if rows[0].id == victim.id {
      forall i | 0 <= i < |rows[1..]| ensures rows[1..][i].id != victim.id {
        assert rows[0].id != rows[i + 1].id;
      }
      assert victim == rows[0];
      KeepEverything(rows[1..], Without({victim.id}));
    } else {
      assert victim in rows[1..];
      DropOne(rows[1..], victim);
    }
  }

  lemma UniqueSurvives(rows: seq<Chunk>, gone: set<string>)
    requires Unique(rows)
    ensures Unique(Keep(rows, Without(gone)))
  {
    KeepOrdered(rows, Without(gone), Differ());
    var kept := Keep(rows, Without(gone));
    assert forall i, j :: 0 <= i < j < |kept| && Differ()(kept[i], kept[j]) ==> kept[i].id != kept[j].id;
  }

  /** What holds while the eviction loop runs. */
  ghost predicate Midway(rows: seq<Chunk>, gone: set<string>, cap: int) {
    && Unique(rows) && OldestFirst(rows, gone)
    && (forall id :: id in gone ==> Holds(rows, id))
    && (gone == {} || exists last :: LastDropped(rows, gone, cap, last))
  }

  lemma MidwayEnds(rows: seq<Chunk>, gone: set<string>, cap: int)
    requires Midway(rows, gone, cap)
    requires Total(Keep(rows, Without(gone))) <= cap || Keep(rows, Without(gone)) == []
    ensures Pruned(rows, gone, cap) && Unique(Keep(rows, Without(gone)))
  {
    UniqueSurvives(rows, gone);
  }

  /** One round of the eviction loop. */
  lemma DropOldest(rows: seq<Chunk>, gone: set<string>, victim: Chunk, cap: int)
    requires Midway(rows, gone, cap)
    requires var left := Keep(rows, Without(gone));
             victim in left && (forall y :: y in left ==> victim.created <= y.created) && Total(left) > cap
    ensures var left := Keep(rows, Without(gone));
            && Keep(left, Without({victim.id})) == Keep(rows, Without(gone + {victim.id}))
            && Total(Keep(left, Without({victim.id}))) == Total(left) - |victim.ciphertext|
            && |Keep(left, Without({victim.id}))| == |left| - 1
    ensures victim.id !in gone && Midway(rows, gone + {victim.id}, cap)
  {
    SurvivorsAreNoOlder(rows, gone, victim);
    var left := Keep(rows, Without(gone));
    var after := gone + {victim.id};
    KeepAllMembers(rows, Without(gone));
    KeepKeep(rows, Without(gone), Without({victim.id}));
    KeepAgree(rows, And(Without(gone), Without({victim.id})), Without(after));
    UniqueSurvives(rows, gone);
    DropOne(left, victim);
    forall x | x in rows && x.id in after ensures x.created <= victim.created {
      if x.id !in gone {
        SameIdSameRow(rows, x, victim);
      }
    }
    forall x, y | x in rows && y in rows && x.id in after && y.id !in after ensures x.created <= y.created {
      assert y in left;
    }
    assert Holds(rows, victim.id) && LastDropped(rows, after, cap, victim);
  }

  lemma SameIdSameRow(rows: seq<Chunk>, x: Chunk, y: Chunk)
    requires Unique(rows) && x in rows && y in rows && x.id == y.id
    ensures x == y
  {
  }

  lemma SurvivorsAreNoOlder(rows: seq<Chunk>, gone: set<string>, victim: Chunk)
    requires OldestFirst(rows, gone) && victim in Keep(rows, Without(gone))
    ensures forall x :: x in rows && x.id in gone ==> x.created <= victim.created
  {
    KeepAllMembers(rows, Without(gone));
  }

  class Cache {
    var blobs: seq<Chunk>

    constructor ()
      ensures blobs == []
    {
      blobs := [];
    }

    /** The row a query ordered by creation time puts first; which of several equally old rows is left open. */
    method Oldest() returns (row: Chunk)
      requires blobs != []
      ensures row in blobs && forall y :: y in blobs ==> row.created <= y.created
    {
      row := blobs[0];
      for i := 1 to |blobs|
        invariant row in blobs
        invariant forall k :: 0 <= k < i ==> row.created <= blobs[k].created
      {
        if blobs[i].created < row.created {
          row := blobs[i];
        }
      }
    }

    method Prune(cap: int) returns (dropped: nat, ghost gone: set<string>)
      requires Unique(blobs)
      modifies this
      ensures Pruned(old(blobs), gone, cap)
      ensures blobs == Keep(old(blobs), Without(gone)) && Unique(blobs)
      ensures dropped + |blobs| == |old(blobs)| && dropped == |gone|
    {
      ghost var rows := blobs;
      assert Midway(rows, {}, cap);
      hide Unique, Midway, Pruned;
      var total: int := Total(blobs);
      dropped, gone := 0, {};
      KeepEverything(rows, Without({}));
      while total > cap
        invariant Midway(rows, gone, cap)
        invariant blobs == Keep(rows, Without(gone))
        invariant total == Total(blobs)
        invariant dropped + |blobs| == |rows| && dropped == |gone|
        decreases |blobs|
      {
        if blobs == [] {
          break;
        }
        var victim := Oldest();
        DropOldest(rows, gone, victim, cap);
        blobs := Keep(blobs, Without({victim.id}));
        total := total - |victim.ciphertext|;
        gone := gone + {victim.id};
        dropped := dropped + 1;
      }
      MidwayEnds(rows, gone, cap);
    }

    /** A chunk already held is left as it was; either way the cache is brought back under its cap. */
    method PutLocalBlob(id: string, ciphertext: Bytes, now: real) returns (ghost gone: set<string>)
      requires Unique(blobs)
      modifies this
      ensures Unique(blobs) && Total(blobs) <= 2147483648
      ensures Pruned(Inserted(old(blobs), id, ciphertext, now), gone, 2147483648)
      ensures blobs == Keep(Inserted(old(blobs), id, ciphertext, now), Without(gone))
      ensures Holds(old(blobs), id) && Total(old(blobs)) <= 2147483648 ==> blobs == old(blobs)
      ensures !Holds(old(blobs), id) && Total(old(blobs)) + |ciphertext| <= 2147483648 ==>
                blobs == old(blobs) + [Chunk(id, ciphertext, now)]
    {
      if !Holds(blobs, id) {
        SumAppend(blobs, [Chunk(id, ciphertext, now)], Size());
        OneWeighs(Chunk(id, ciphertext, now));
        blobs := blobs + [Chunk(id, ciphertext, now)];
      }
      ghost var rows := blobs;
      hide Unique, Pruned, Keep;
      var _, g := Prune(CAP);
      gone := g;
      if Total(rows) <= CAP {
        NothingPrunedBelowCap(rows, gone, CAP);
        KeepEverything(rows, Without({}));
      }
    }
  }

  function Inserted(rows: seq<Chunk>, id: string, ciphertext: Bytes, now: real): seq<Chunk> {
    if Holds(rows, id) then rows else rows + [Chunk(id, ciphertext, now)]
  }

  lemma OneWeighs(row: Chunk)
    ensures Total([row]) == |row.ciphertext|
  {
    assert Sum([row], Size()) == |row.ciphertext| + Sum([row][1..], Size());
  }

  // ---------------------------------------------------------------- eviction is minimal

  /** Selecting more rows never weighs less. */
  lemma {:induction false} MoreWeighsMore(rows: seq<Chunk>, p: Chunk -> bool, q: Chunk -> bool)
    requires forall x :: x in rows && p(x) ==> q(x)
    ensures Total(Keep(rows, p)) <= Total(Keep(rows, q))
  {
    if rows != [] {
      assert rows[0] in rows && forall x :: x in rows[1..] ==> x in rows;
      MoreWeighsMore(rows[1..], p, q);
    }
  }

  /**
   Among all ways of keeping only the newest chunks, pruning keeps the most: whatever other
   newest-first selection fits under the cap is contained in what pruning left.
   */
  lemma PruningKeepsTheMost(rows: seq<Chunk>, gone: set<string>, cap: int, kept: set<string>)
    requires Unique(rows) && Pruned(rows, gone, cap)
    requires forall x, y :: x in rows && y in rows && x != y ==> x.created != y.created
    requires forall x, y :: x in rows && y in rows && y.id in kept && y.created < x.created ==> x.id in kept
    requires Total(Keep(rows, Only(kept))) <= cap
    ensures forall x :: x in rows && x.id in kept ==> x.id !in gone
  {
    forall y | y in rows && y.id in kept
      ensures y.id !in gone
    {
      if y.id in gone {
        var last :| LastDropped(rows, gone, cap, last);
        assert last.id in kept;
        var but := gone - {last.id};
        forall x | x in rows && x.id !in but ensures x.id in kept {
          if x.id == last.id {
            SameIdSameRow(rows, x, last);
          } else {
            assert y.created <= x.created;
          }
        }
        MoreWeighsMore(rows, Without(but), Only(kept));
        OneBackWeighs(rows, gone, last);
        assert false;
      }
    }
  }

  lemma OneBackWeighs(rows: seq<Chunk>, gone: set<string>, last: Chunk)
    requires Unique(rows) && last in rows && last.id in gone
    ensures Total(Keep(rows, Without(gone - {last.id}))) == Total(Keep(rows, Without(gone))) + |last.ciphertext|
  {
    var but := gone - {last.id};
    KeepMembers(rows, Without(but), last);
    UniqueSurvives(rows, but);
    DropOne(Keep(rows, Without(but)), last);
    KeepKeep(rows, Without(but), Without({last.id}));
    KeepAgree(rows, And(Without(but), Without({last.id})), Without(gone));
  }

  /** A cache that fits is left alone. */
  lemma NothingPrunedBelowCap(rows: seq<Chunk>, gone: set<string>, cap: int)
    requires Unique(rows) && Pruned(rows, gone, cap) && Total(rows) <= cap
    ensures gone == {}
  {
    if gone != {} {
      var last :| LastDropped(rows, gone, cap, last);
      OneBackWeighs(rows, gone, last);
      KeepEverything(rows, Without({}));
      MoreWeighsMore(rows, Without(gone - {last.id}), Without({}));
      assert false;
    }
  }
}

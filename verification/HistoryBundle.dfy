/** Collecting a bundle's attachment chunks under a byte budget (`build_bundle`). */
module HistoryBundle {
  import opened Rows

  type Bytes = seq<nat>

  datatype Carried = Carried(id: string, ciphertext: Bytes)

  datatype Reason = NotHeld | OverBudget

  datatype Skipped = Skipped(id: string, reason: Reason)

  function Weight(): Carried -> nat { (c: Carried) => |c.ciphertext| }

  /** A chunk's fate: carried, or skipped with a reason. */
  datatype Fate = Carry | Skip(reason: Reason)

  /** The chunk ids referenced by the messages, oldest message first. */
  function References(messages: seq<seq<string>>): seq<string> {
    if messages == [] then [] else messages[0] + References(messages[1..])
  }

  /** An id counts at its first mention, unless it is empty. */
  predicate FirstMention(ids: seq<string>, n: nat)
    requires n < |ids|
  {
    ids[n] != "" && ids[n] !in ids[..n]
  }

  /** The bytes carried once the first `n` references have been considered. */
  function Used(ids: seq<string>, held: map<string, Bytes>, budget: int, n: nat): nat
    requires n <= |ids|
  {
    if n == 0 then 0
    else
      var used := Used(ids, held, budget, n - 1);
      if FirstMention(ids, n - 1) && ids[n - 1] in held && used + |held[ids[n - 1]]| <= budget
      then used + |held[ids[n - 1]]| else used
  }

  /** What becomes of the chunk first mentioned at `n`. */
  function FateAt(ids: seq<string>, held: map<string, Bytes>, budget: int, n: nat): Fate
    requires n < |ids|
  {
    if ids[n] !in held then Skip(NotHeld)
    else if Used(ids, held, budget, n) + |held[ids[n]]| > budget then Skip(OverBudget)
    else Carry
  }

  function Chosen(ids: seq<string>, held: map<string, Bytes>, budget: int, n: nat): (c: seq<Carried>)
    requires n <= |ids|
  {
    if n == 0 then []
    else
      var before := Chosen(ids, held, budget, n - 1);
      if FirstMention(ids, n - 1) && FateAt(ids, held, budget, n - 1) == Carry
      then before + [Carried(ids[n - 1], held[ids[n - 1]])] else before
  }

  function LeftOut(ids: seq<string>, held: map<string, Bytes>, budget: int, n: nat): (s: seq<Skipped>)
    requires n <= |ids|
  {
    if n == 0 then []
    else
      var before := LeftOut(ids, held, budget, n - 1);
      if FirstMention(ids, n - 1) && FateAt(ids, held, budget, n - 1).Skip?
      then before + [Skipped(ids[n - 1], FateAt(ids, held, budget, n - 1).reason)] else before
  }

  lemma OneMoreReference(ids: seq<string>, held: map<string, Bytes>, budget: int, n: nat)
    requires n < |ids|
    ensures var chunks, skipped := Chosen(ids, held, budget, n), LeftOut(ids, held, budget, n);
            var used := Used(ids, held, budget, n);
            if !FirstMention(ids, n) then
              && Chosen(ids, held, budget, n + 1) == chunks && LeftOut(ids, held, budget, n + 1) == skipped
              && Used(ids, held, budget, n + 1) == used
            else match FateAt(ids, held, budget, n)
              case Carry =>
                && Chosen(ids, held, budget, n + 1) == chunks + [Carried(ids[n], held[ids[n]])]
                && LeftOut(ids, held, budget, n + 1) == skipped
                && Used(ids, held, budget, n + 1) == used + |held[ids[n]]|
              case Skip(reason) =>
                && Chosen(ids, held, budget, n + 1) == chunks
                && LeftOut(ids, held, budget, n + 1) == skipped + [Skipped(ids[n], reason)]
                && Used(ids, held, budget, n + 1) == used
  {
  }

  /** The ids seen so far: those of the first `n` references, the empty one aside. */
  ghost predicate Noted(seen: set<string>, ids: seq<string>, n: nat) {
    n <= |ids| && forall id :: id in seen <==> id in ids[..n] && id != ""
  }

  lemma OneMoreNoted(seen: set<string>, ids: seq<string>, n: nat)
    requires Noted(seen, ids, n) && n < |ids|
    ensures FirstMention(ids, n) <==> ids[n] != "" && ids[n] !in seen
    ensures Noted(if FirstMention(ids, n) then seen + {ids[n]} else seen, ids, n + 1)
  {
    assert ids[..n + 1] == ids[..n] + [ids[n]];
  }

  /** Reference `n` onwards: what is left of the current message's entries, then those of later messages. */
  ghost predicate Ahead(ids: seq<string>, n: nat, entries: seq<string>, i: nat, rest: seq<string>) {
    n <= |ids| && i <= |entries| && ids[n..] == entries[i..] + rest
  }

  lemma NextMessage(messages: seq<seq<string>>, ids: seq<string>, n: nat, m: nat)
    requires m < |messages| && n <= |ids| && ids[n..] == References(messages[m..])
    ensures Ahead(ids, n, messages[m], 0, References(messages[m + 1..]))
  {
    assert messages[m..][1..] == messages[m + 1..];
    assert messages[m][0..] == messages[m];
  }

  lemma NextEntry(ids: seq<string>, n: nat, entries: seq<string>, i: nat, rest: seq<string>)
    requires Ahead(ids, n, entries, i, rest) && i < |entries|
    ensures n < |ids| && ids[n] == entries[i] && Ahead(ids, n + 1, entries, i + 1, rest)
  {
    assert ids[n] == ids[n..][0];
    assert ids[n + 1..] == ids[n..][1..] == entries[i + 1..] + rest;
  }

  lemma MessageDone(ids: seq<string>, n: nat, entries: seq<string>, rest: seq<string>)
    requires Ahead(ids, n, entries, |entries|, rest)
    ensures n <= |ids| && ids[n..] == rest
  {
    assert entries[|entries|..] + rest == rest;
  }

  lemma NothingYet(ids: seq<string>, held: map<string, Bytes>, budget: int)
    ensures Chosen(ids, held, budget, 0) == [] && LeftOut(ids, held, budget, 0) == []
    ensures Used(ids, held, budget, 0) == 0 && Noted({}, ids, 0)
  {
  }

  method Collect(messages: seq<seq<string>>, held: map<string, Bytes>, budget: int)
    returns (chunks: seq<Carried>, skipped: seq<Skipped>)
    ensures var ids := References(messages);
            && chunks == Chosen(ids, held, budget, |ids|)
            && skipped == LeftOut(ids, held, budget, |ids|)
  {
    hide Chosen, LeftOut, Used, Noted, FirstMention, Ahead, References;
    ghost var ids := References(messages);
    ghost var n := 0;
    chunks, skipped := [], [];
    var seen: set<string> := {};
    var used := 0;
    var m := 0;
    NothingYet(ids, held, budget);
    assert messages[0..] == messages;
    while m < |messages|
      invariant m <= |messages| && n <= |ids|
      invariant ids[n..] == References(messages[m..])
      invariant chunks == Chosen(ids, held, budget, n) && skipped == LeftOut(ids, held, budget, n)
      invariant used == Used(ids, held, budget, n)
      invariant Noted(seen, ids, n)
    {
      var entries := messages[m];
      ghost var rest := References(messages[m + 1..]);
      NextMessage(messages, ids, n, m);
      var i := 0;
      while i < |entries|
        invariant i <= |entries| && n <= |ids|
        invariant Ahead(ids, n, entries, i, rest)
        invariant chunks == Chosen(ids, held, budget, n) && skipped == LeftOut(ids, held, budget, n)
        invariant used == Used(ids, held, budget, n)
        invariant Noted(seen, ids, n)
      {
        var id := entries[i];
        NextEntry(ids, n, entries, i, rest);
        OneMoreReference(ids, held, budget, n);
        OneMoreNoted(seen, ids, n);
        if id != "" && id !in seen {
          seen := seen + {id};
          if id !in held {
            skipped := skipped + [Skipped(id, NotHeld)];
          } else if used + |held[id]| > budget {
            skipped := skipped + [Skipped(id, OverBudget)];
          } else {
            used := used + |held[id]|;
            chunks := chunks + [Carried(id, held[id])];
          }
        }
        i := i + 1;
        n := n + 1;
      }
      MessageDone(ids, n, entries, rest);
      m := m + 1;
    }
    AllReferencesSeen(messages, ids, n);
  }

  lemma AllReferencesSeen(messages: seq<seq<string>>, ids: seq<string>, n: nat)
    requires n <= |ids| && ids[n..] == References(messages[|messages|..])
    ensures n == |ids|
  {
  }

  // ---------------------------------------------------------------- what the selection promises

  predicate CarriedId(chunks: seq<Carried>, id: string) {
    exists i :: 0 <= i < |chunks| && chunks[i].id == id
  }

  predicate SkippedId(skipped: seq<Skipped>, id: string) {
    exists i :: 0 <= i < |skipped| && skipped[i].id == id
  }

  /** No id is listed twice, in either list or across the two. */
  ghost predicate ListedOnce(chunks: seq<Carried>, skipped: seq<Skipped>) {
    && (forall i, j :: 0 <= i < j < |chunks| ==> chunks[i].id != chunks[j].id)
    && (forall i, j :: 0 <= i < j < |skipped| ==> skipped[i].id != skipped[j].id)
    && (forall i, j :: 0 <= i < |chunks| && 0 <= j < |skipped| ==> chunks[i].id != skipped[j].id)
  }

  lemma {:induction false} PrefixIsPartition(ids: seq<string>, held: map<string, Bytes>, budget: int, n: nat)
    requires n <= |ids|
    ensures var chunks, skipped := Chosen(ids, held, budget, n), LeftOut(ids, held, budget, n);
            && ListedOnce(chunks, skipped)
            && forall id :: CarriedId(chunks, id) || SkippedId(skipped, id) <==> id in ids[..n] && id != ""
  {
    if n > 0 {
      PrefixIsPartition(ids, held, budget, n - 1);
      var before, gone := Chosen(ids, held, budget, n - 1), LeftOut(ids, held, budget, n - 1);
      var chunks, skipped := Chosen(ids, held, budget, n), LeftOut(ids, held, budget, n);
      var id := ids[n - 1];
      assert ids[..n] == ids[..n - 1] + [id];
      hide FateAt;
      if FirstMention(ids, n - 1) {
        assert !CarriedId(before, id) && !SkippedId(gone, id);
        if FateAt(ids, held, budget, n - 1) == Carry {
          assert chunks[|before|].id == id && skipped == gone;
          forall x ensures CarriedId(chunks, x) <==> CarriedId(before, x) || x == id {
            if CarriedId(before, x) {
              var i :| 0 <= i < |before| && before[i].id == x;
              assert chunks[i].id == x;
            }
          }
        } else {
          assert skipped[|gone|].id == id && chunks == before;
          forall x ensures SkippedId(skipped, x) <==> SkippedId(gone, x) || x == id {
            if SkippedId(gone, x) {
              var i :| 0 <= i < |gone| && gone[i].id == x;
              assert skipped[i].id == x;
            }
          }
        }
      } else {
        assert chunks == before && skipped == gone;
      }
    }
  }

  /** Every distinct chunk the messages refer to lands in exactly one of the two lists, once. */
  lemma EveryChunkIsAccountedFor(messages: seq<seq<string>>, held: map<string, Bytes>, budget: int)
    ensures var ids := References(messages);
            var chunks, skipped := Chosen(ids, held, budget, |ids|), LeftOut(ids, held, budget, |ids|);
            && ListedOnce(chunks, skipped)
            && forall id :: CarriedId(chunks, id) || SkippedId(skipped, id) <==> id in ids && id != ""
  {
    var ids := References(messages);
    PrefixIsPartition(ids, held, budget, |ids|);
    assert ids[..|ids|] == ids;
  }

  lemma {:induction false} UsedIsCarried(ids: seq<string>, held: map<string, Bytes>, budget: int, n: nat)
    requires n <= |ids|
    ensures Sum(Chosen(ids, held, budget, n), Weight()) == Used(ids, held, budget, n)
    ensures Chosen(ids, held, budget, n) == [] || Used(ids, held, budget, n) <= budget
  {
    if n > 0 {
      UsedIsCarried(ids, held, budget, n - 1);
      if FirstMention(ids, n - 1) && FateAt(ids, held, budget, n - 1) == Carry {
        var one := [Carried(ids[n - 1], held[ids[n - 1]])];
        SumAppend(Chosen(ids, held, budget, n - 1), one, Weight());
        assert Sum(one, Weight()) == |held[ids[n - 1]]| + Sum(one[1..], Weight());
      }
    }
  }

  lemma {:induction false} UsedGrows(ids: seq<string>, held: map<string, Bytes>, budget: int, n: nat, m: nat)
    requires n <= m <= |ids|
    ensures Used(ids, held, budget, n) <= Used(ids, held, budget, m)
  {
    if n < m {
      UsedGrows(ids, held, budget, n, m - 1);
    }
  }

  /** Why each skipped chunk was skipped, measured against the selection as it stood after `n` references. */
  lemma {:induction false} SkippedForCause(ids: seq<string>, held: map<string, Bytes>, budget: int, n: nat, i: nat)
    requires n <= |ids| && i < |LeftOut(ids, held, budget, n)|
    ensures var entry := LeftOut(ids, held, budget, n)[i];
            && (entry.reason == NotHeld <==> entry.id !in held)
            && (entry.reason == OverBudget ==> Used(ids, held, budget, n) + |held[entry.id]| > budget)
  {
    if i < |LeftOut(ids, held, budget, n - 1)| {
      SkippedForCause(ids, held, budget, n - 1, i);
    }
    UsedGrows(ids, held, budget, n - 1, n);
  }

  /**
   The carried bytes never exceed a non-negative budget, chunks not held are the ones skipped as such,
   and adding any chunk skipped as over budget to the final selection would exceed the budget.
   */
  lemma SelectionFillsTheBudget(messages: seq<seq<string>>, held: map<string, Bytes>, budget: int)
    ensures var ids := References(messages);
            var chunks, skipped := Chosen(ids, held, budget, |ids|), LeftOut(ids, held, budget, |ids|);
            && (chunks == [] || Sum(chunks, Weight()) <= budget)
            && forall i :: 0 <= i < |skipped| ==>
                 && (skipped[i].reason == NotHeld <==> skipped[i].id !in held)
                 && (skipped[i].reason == OverBudget ==> Sum(chunks, Weight()) + |held[skipped[i].id]| > budget)
  {
    var ids := References(messages);
    UsedIsCarried(ids, held, budget, |ids|);
    forall i | 0 <= i < |LeftOut(ids, held, budget, |ids|)|
      ensures var entry := LeftOut(ids, held, budget, |ids|)[i];
              && (entry.reason == NotHeld <==> entry.id !in held)
              && (entry.reason == OverBudget ==>
                    Sum(Chosen(ids, held, budget, |ids|), Weight()) + |held[entry.id]| > budget)
    {
      SkippedForCause(ids, held, budget, |ids|, i);
    }
  }

  /** What is carried is what the local cache holds under that id. */
  lemma {:induction false} CarriedAsHeld(ids: seq<string>, held: map<string, Bytes>, budget: int, n: nat, i: nat)
    requires n <= |ids| && i < |Chosen(ids, held, budget, n)|
    ensures var c := Chosen(ids, held, budget, n)[i]; c.id in held && c.ciphertext == held[c.id]
  {
    if i < |Chosen(ids, held, budget, n - 1)| {
      CarriedAsHeld(ids, held, budget, n - 1, i);
    }
  }

  // ---------------------------------------------------------------- oldest first

  /** How many references the first `m` messages make. */
  function Before(messages: seq<seq<string>>, m: nat): nat
    requires m <= |messages|
  {
    if m == 0 then 0 else Before(messages, m - 1) + |messages[m - 1]|
  }

  /** Entry `i` of message `m` is considered after everything the messages before it refer to. */
  lemma {:induction false} ReferencesGoByMessage(messages: seq<seq<string>>, m: nat, i: nat)
    requires m < |messages| && i < |messages[m]|
    ensures Before(messages, m) + i < |References(messages)|
    ensures References(messages)[Before(messages, m) + i] == messages[m][i]
    decreases |messages|
  {
    if m > 0 {
      ReferencesGoByMessage(messages[1..], m - 1, i);
      BeforeTail(messages, m);
    }
  }

  lemma {:induction false} BeforeTail(messages: seq<seq<string>>, m: nat)
    requires 0 < m <= |messages|
    ensures Before(messages, m) == |messages[0]| + Before(messages[1..], m - 1)
  {
    if m > 1 {
      BeforeTail(messages, m - 1);
    }
  }

  /**
   A chunk is carried exactly when it is held and fits on top of what was carried before its first mention, whatever
   comes after; so older chunks are never given up for newer ones.
   */
  lemma CarriedExactlyWhenItFits(messages: seq<seq<string>>, held: map<string, Bytes>, budget: int, m: nat, i: nat)
    requires m < |messages| && i < |messages[m]|
    requires var n := Before(messages, m) + i;
             n < |References(messages)| && FirstMention(References(messages), n)
    ensures var ids, n, id := References(messages), Before(messages, m) + i, messages[m][i];
            CarriedId(Chosen(ids, held, budget, |ids|), id) <==>
              id in held && Sum(Chosen(ids, held, budget, n), Weight()) + |held[id]| <= budget
  {
    var ids, n := References(messages), Before(messages, m) + i;
    ReferencesGoByMessage(messages, m, i);
    UsedIsCarried(ids, held, budget, n);
    DecidedAtFirstMention(ids, held, budget, n, |ids|);
  }

  /** What becomes of a chunk is decided at its first mention. */
  lemma {:induction false} DecidedAtFirstMention(ids: seq<string>, held: map<string, Bytes>, budget: int, n: nat, k: nat)
    requires n < k <= |ids| && FirstMention(ids, n)
    ensures CarriedId(Chosen(ids, held, budget, k), ids[n]) <==> FateAt(ids, held, budget, n) == Carry
    decreases k
  {
    hide FateAt;
    var before, now := Chosen(ids, held, budget, k - 1), Chosen(ids, held, budget, k);
    if k == n + 1 {
      PrefixIsPartition(ids, held, budget, n);
      assert !CarriedId(before, ids[n]);
      if FateAt(ids, held, budget, n) == Carry {
        assert now[|before|].id == ids[n];
      }
    } else {
      DecidedAtFirstMention(ids, held, budget, n, k - 1);
      if now != before {
        assert ids[..k - 1][n] == ids[n];
        assert |now| == |before| + 1 && now[..|before|] == before && now[|before|].id == ids[k - 1] != ids[n];
        if CarriedId(before, ids[n]) {
          var j :| 0 <= j < |before| && before[j].id == ids[n];
          assert now[j].id == ids[n];
        }
      }
    }
  }
}

/** Tables as sequences of rows in insertion order: selection, deletion and sums. */
module Rows {

  /** The rows that satisfy `p`, in table order. */
  function Keep<T>(rows: seq<T>, p: T -> bool): seq<T> {
    if rows == [] then []
    else if p(rows[0]) then [rows[0]] + Keep(rows[1..], p)
    else Keep(rows[1..], p)
  }

  function Not<T>(p: T -> bool): T -> bool {
    x => !p(x)
  }

  function And<T>(p: T -> bool, q: T -> bool): T -> bool {
    x => p(x) && q(x)
  }

  function Sum<T>(rows: seq<T>, size: T -> nat): nat {
    if rows == [] then 0 else size(rows[0]) + Sum(rows[1..], size)
  }

  lemma {:induction false} KeepMembers<T>(rows: seq<T>, p: T -> bool, x: T)
    ensures x in Keep(rows, p) <==> x in rows && p(x)
  {
    if rows != [] {
      KeepMembers(rows[1..], p, x);
    }
  }

  lemma KeepAllMembers<T>(rows: seq<T>, p: T -> bool)
    ensures forall x :: x in Keep(rows, p) <==> x in rows && p(x)
  {
    forall x
      ensures x in Keep(rows, p) <==> x in rows && p(x)
    {
      KeepMembers(rows, p, x);
    }
  }

  lemma {:induction false} KeepAppend<T>(rows: seq<T>, more: seq<T>, p: T -> bool)
    ensures Keep(rows + more, p) == Keep(rows, p) + Keep(more, p)
  {
    if rows == [] {
      assert rows + more == more;
    } else {
      assert (rows + more)[1..] == rows[1..] + more;
      KeepAppend(rows[1..], more, p);
    }
  }

  lemma KeepAppendOne<T>(rows: seq<T>, row: T, p: T -> bool)
    ensures Keep(rows + [row], p) == Keep(rows, p) + (if p(row) then [row] else [])
  {
    KeepAppend(rows, [row], p);
    assert Keep([row], p) == if p(row) then [row] else [] by {
      assert [row][1..] == [];
    }
  }

  lemma {:induction false} KeepSplit<T>(rows: seq<T>, p: T -> bool)
    ensures |Keep(rows, p)| + |Keep(rows, Not(p))| == |rows|
  {
    if rows != [] {
      KeepSplit(rows[1..], p);
    }
  }

  /** Filters that agree on the table select the same rows. */
  lemma {:induction false} KeepAgree<T>(rows: seq<T>, p: T -> bool, q: T -> bool)
    requires forall x :: x in rows ==> p(x) == q(x)
    ensures Keep(rows, p) == Keep(rows, q)
  {
    if rows != [] {
      assert rows[0] in rows && forall x :: x in rows[1..] ==> x in rows;
      KeepAgree(rows[1..], p, q);
    }
  }

  lemma {:induction false} KeepEverything<T>(rows: seq<T>, p: T -> bool)
    requires forall x :: x in rows ==> p(x)
    ensures Keep(rows, p) == rows
  {
    if rows != [] {
      assert rows[0] in rows && forall x :: x in rows[1..] ==> x in rows;
      KeepEverything(rows[1..], p);
    }
  }

  lemma {:induction false} KeepNothing<T>(rows: seq<T>, p: T -> bool)
    requires forall x :: x in rows ==> !p(x)
    ensures Keep(rows, p) == []
  {
    if rows != [] {
      assert rows[0] in rows && forall x :: x in rows[1..] ==> x in rows;
      KeepNothing(rows[1..], p);
    }
  }

  /** Filtering twice: rows that pass `q` survive a deletion that spares `q`. */
  lemma {:induction false} KeepKeep<T>(rows: seq<T>, p: T -> bool, q: T -> bool)
    ensures Keep(Keep(rows, p), q) == Keep(rows, And(p, q))
  {
    if rows != [] {
      KeepKeep(rows[1..], p, q);
    }
  }

  lemma KeepThroughDelete<T>(rows: seq<T>, p: T -> bool, q: T -> bool)
    requires forall x :: x in rows && q(x) ==> p(x)
    ensures Keep(Keep(rows, p), q) == Keep(rows, q)
  {
    KeepKeep(rows, p, q);
    KeepAgree(rows, And(p, q), q);
  }

  lemma {:induction false} KeepShrinks<T>(rows: seq<T>, p: T -> bool, q: T -> bool, size: T -> nat)
    ensures |Keep(Keep(rows, p), q)| <= |Keep(rows, q)|
    ensures Sum(Keep(Keep(rows, p), q), size) <= Sum(Keep(rows, q), size)
  {
    if rows != [] {
      KeepShrinks(rows[1..], p, q, size);
    }
  }

  lemma {:induction false} SumAppend<T>(rows: seq<T>, more: seq<T>, size: T -> nat)
    ensures Sum(rows + more, size) == Sum(rows, size) + Sum(more, size)
  {
    if rows == [] {
      assert rows + more == more;
    } else {
      assert (rows + more)[1..] == rows[1..] + more;
      SumAppend(rows[1..], more, size);
    }
  }

  /** A relation between earlier and later rows survives a deletion. */
  lemma {:induction false} KeepOrdered<T>(rows: seq<T>, p: T -> bool, before: (T, T) -> bool)
    requires forall i, j :: 0 <= i < j < |rows| ==> before(rows[i], rows[j])
    ensures var kept := Keep(rows, p); forall i, j :: 0 <= i < j < |kept| ==> before(kept[i], kept[j])
  {
    if rows != [] {
      KeepOrdered(rows[1..], p, before);
      var rest := Keep(rows[1..], p);
      forall k | 0 <= k < |rest|
        ensures before(rows[0], rest[k])
      {
        KeepMembers(rows[1..], p, rest[k]);
        var m :| 0 <= m < |rows[1..]| && rows[1..][m] == rest[k];
        assert before(rows[0], rows[m + 1]);
      }
    }
  }
}

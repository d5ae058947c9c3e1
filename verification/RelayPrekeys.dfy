/**
 One-time prekeys over any run of a relay: each is handed out at most once, in the order of
 insertion, whatever is published or republished in between.
 */
module RelayPrekeys {
  import opened Wrappers
  import opened RelayDb
  import opened RelayRuns

  /** A prekey handed out: its bundle, its row, and what the row says. */
  datatype Handout = Handout(bundle: Id, position: nat, opkId: int, opk: nat)

  function HandedOut(db: Tables, op: Op): seq<Handout> {
    if op.FetchBundleOp? && op.bundle in db.bundles && FirstUnused(db.oneTime, op.bundle).Some? then
      var i := FirstUnused(db.oneTime, op.bundle).value;
      [Handout(op.bundle, i, db.oneTime[i].opkId, db.oneTime[i].opk)]
    else
      []
  }

  function HandoutLog(db: Tables, ops: seq<Op>): seq<Handout>
    decreases |ops|
  {
    if ops == [] then [] else HandedOut(db, ops[0]) + HandoutLog(Apply(db, ops[0]), ops[1..])
  }

  /** The log is what the transaction returns. */
  lemma LogIsWhatFetchReturns(db: Tables, bundle: Id)
    requires bundle in db.bundles
    ensures match FetchBundle(db, bundle).value.1.opk
            case None => HandedOut(db, FetchBundleOp(bundle)) == []
            case Some(opk) => |HandedOut(db, FetchBundleOp(bundle))| == 1
                              && HandedOut(db, FetchBundleOp(bundle))[0].opkId == opk.0
                              && HandedOut(db, FetchBundleOp(bundle))[0].opk == opk.1
  {
  }

  /** Rows keep their place and their key, and a used row stays used. */
  ghost predicate RowsPersist(a: seq<OneTimeRow>, b: seq<OneTimeRow>) {
    |a| <= |b| && forall i :: 0 <= i < |a| ==>
      b[i].bundle == a[i].bundle && b[i].opkId == a[i].opkId && b[i].opk == a[i].opk && (a[i].used ==> b[i].used)
  }

  lemma ApplyPersists(db: Tables, op: Op)
    requires OpksDistinct(db.oneTime)
    ensures RowsPersist(db.oneTime, Apply(db, op).oneTime) && OpksDistinct(Apply(db, op).oneTime)
  {
    if op.PublishOp? && InsertOpks(db.oneTime, op.bundle, op.opks).Success? {
      InsertAppends(db.oneTime, op.bundle, op.opks);
    }
  }

  /** Every row of the bundle up to a position has been handed out. */
  ghost predicate SpentUpTo(rows: seq<OneTimeRow>, bundle: Id, position: nat) {
    position < |rows| && forall i :: 0 <= i <= position && rows[i].bundle == bundle ==> rows[i].used
  }

  lemma {:induction false} LaterHandoutsAreFurther(db: Tables, ops: seq<Op>, bundle: Id, position: nat)
    requires OpksDistinct(db.oneTime) && SpentUpTo(db.oneTime, bundle, position)
    ensures forall h :: h in HandoutLog(db, ops) && h.bundle == bundle ==> h.position > position
    decreases |ops|
  {
    if ops != [] {
      ApplyPersists(db, ops[0]);
      LaterHandoutsAreFurther(Apply(db, ops[0]), ops[1..], bundle, position);
    }
  }

  lemma {:induction false} LogMatchesTable(db: Tables, ops: seq<Op>)
    requires OpksDistinct(db.oneTime)
    ensures OpksDistinct(Run(db, ops).oneTime) && RowsPersist(db.oneTime, Run(db, ops).oneTime)
    ensures forall h :: h in HandoutLog(db, ops) ==>
              && h.position < |Run(db, ops).oneTime|
              && Run(db, ops).oneTime[h.position] == OneTimeRow(h.bundle, h.opkId, h.opk, true)
    decreases |ops|
  {
    if ops != [] {
      ApplyPersists(db, ops[0]);
      LogMatchesTable(Apply(db, ops[0]), ops[1..]);
    }
  }

  ghost predicate InOrder(log: seq<Handout>) {
    forall i, j :: 0 <= i < j < |log| && log[i].bundle == log[j].bundle ==> log[i].position < log[j].position
  }

  /** Prekeys of one bundle leave in the order in which they were inserted. */
  lemma {:induction false} HandedOutInOrder(db: Tables, ops: seq<Op>)
    requires OpksDistinct(db.oneTime)
    ensures InOrder(HandoutLog(db, ops))
    decreases |ops|
  {
    if ops != [] {
      var next := Apply(db, ops[0]);
      ApplyPersists(db, ops[0]);
      HandedOutInOrder(next, ops[1..]);
      var first, rest := HandedOut(db, ops[0]), HandoutLog(next, ops[1..]);
      if first != [] {
        assert SpentUpTo(next.oneTime, first[0].bundle, first[0].position);
        LaterHandoutsAreFurther(next, ops[1..], first[0].bundle, first[0].position);
        assert forall k :: 0 <= k < |rest| ==> rest[k] in rest;
        assert first == [first[0]] && HandoutLog(db, ops) == [first[0]] + rest;
      }
    }
  }

  /** No prekey of a bundle is handed out twice over any run. */
  lemma NoPrekeyTwice(db: Tables, ops: seq<Op>)
    requires Valid(db)
    ensures var log := HandoutLog(db, ops);
            forall i, j :: 0 <= i < j < |log| ==> (log[i].bundle, log[i].opkId) != (log[j].bundle, log[j].opkId)
  {
    HandedOutInOrder(db, ops);
    LogMatchesTable(db, ops);
    var log, rows := HandoutLog(db, ops), Run(db, ops).oneTime;
    forall i, j | 0 <= i < j < |log|
      ensures (log[i].bundle, log[i].opkId) != (log[j].bundle, log[j].opkId)
    {
      assert log[i] in log && log[j] in log;
      if log[i].bundle == log[j].bundle {
        assert OtherOpk(rows[log[i].position], rows[log[j].position]);
      }
    }
  }

  /** A bundle with an unused prekey never comes without one. */
  lemma FetchGivesOneWhileAnyIsLeft(db: Tables, bundle: Id, k: nat)
    requires bundle in db.bundles
    requires k < |db.oneTime| && db.oneTime[k].bundle == bundle && !db.oneTime[k].used
    ensures FetchBundle(db, bundle).value.1.opk.Some?
  {
  }
}

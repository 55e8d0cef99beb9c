/** The implicit transaction of a database field (dot_db.go, dot_db_config.go).  What the
    driver answers is nondeterministic: every operation carries the driver's results. */
module Transactions {
  import opened Errors
  import opened Wrappers

  type Sql = string

  datatype Tx = Tx(id: nat, pending: seq<Sql>)

  /** How one transaction ended; `error` is what the driver answered. */
  datatype Ending = Commit(error: Option<Error>) | Rollback(error: Option<Error>)
  datatype Finish = Finish(id: nat, how: Ending)

  /** One call on a database field.  `begin` is the answer of BeginTx, should it be asked;
      `applied` says whether the statement took effect inside the transaction. */
  datatype Op =
    | Statement(sql: Sql, begin: Option<Error>, applied: bool)
    | Close(how: Ending)

  /** The field, the log of statements it has made durable and the history of its transactions. */
  datatype Db = Db(tx: Option<Tx>, durable: seq<Sql>, begun: nat, finished: seq<Finish>)

  function Begin(db: Db, answer: Option<Error>): Db {
    if db.tx.Some? || answer.Some? then db
    else db.(tx := Some(Tx(db.begun, [])), begun := db.begun + 1)
  }

  function Do(db: Db, op: Op): Db {
    match op
    case Statement(sql, begin, applied) =>
      var b := Begin(db, begin);
      if b.tx.None? || !applied then b
      else b.(tx := Some(b.tx.value.(pending := b.tx.value.pending + [sql])))
    case Close(how) => End(db, how)
  }

  function End(db: Db, how: Ending): Db {
    if db.tx.None? then db
    else
      var tx := db.tx.value;
      db.(tx := None,
          finished := db.finished + [Finish(tx.id, how)],
          durable := if how == Commit(None) then db.durable + tx.pending else db.durable)
  }

  function DoAll(db: Db, ops: seq<Op>): Db {
    if ops == [] then db else Do(DoAll(db, ops[..|ops| - 1]), ops[|ops| - 1])
  }

  /** DotDB, updated in place as the source does. */
  class DotDB {
    var tx: Option<Tx>
    var durable: seq<Sql>
    var begun: nat
    var finished: seq<Finish>

    function View(): Db
      reads this
    {
      Db(tx, durable, begun, finished)
    }

    constructor (durable: seq<Sql>)
      ensures View() == Db(None, durable, 0, [])
    {
      this.tx, this.durable, this.begun, this.finished := None, durable, 0, [];
    }

    method MakeTx(answer: Option<Error>) returns (err: Option<Error>)
      modifies this
      ensures View() == Begin(old(View()), answer)
      ensures err == if old(tx).None? then answer else None
    {
      err := None;
      if tx == None {
        if answer.Some? {
          err := answer;
        } else {
          tx := Some(Tx(begun, []));
          begun := begun + 1;
        }
      }
    }

    /** Exec and QueryRows: open a transaction if there is none, then run the statement in it. */
    method Run(sql: Sql, begin: Option<Error>, applied: bool, result: Option<Error>) returns (err: Option<Error>)
      modifies this
      ensures View() == Do(old(View()), Statement(sql, begin, applied))
      ensures old(tx).None? && begin.Some? ==> err == begin
      ensures tx.Some? ==> err == result
    {
      err := MakeTx(begin);
      if err.Some? {
        return;
      }
      if applied {
        tx := Some(tx.value.(pending := tx.value.pending + [sql]));
      }
      err := result;
    }

    method CommitTx(answer: Option<Error>) returns (err: Option<Error>)
      modifies this
      ensures View() == End(old(View()), Commit(answer))
      ensures err == if old(tx).Some? then answer else None
    {
      err := None;
      if tx != None {
        err := answer;
        if answer.None? {
          durable := durable + tx.value.pending;
        }
        finished := finished + [Finish(tx.value.id, Commit(answer))];
        tx := None;
      }
    }

    method RollbackTx(answer: Option<Error>) returns (err: Option<Error>)
      modifies this
      ensures View() == End(old(View()), Rollback(answer))
      ensures err == if old(tx).Some? then answer else None
    {
      err := None;
      if tx != None {
        err := answer;
        finished := finished + [Finish(tx.value.id, Rollback(answer))];
        tx := None;
      }
    }

    /** DotDBConfig.Cleanup */
    method Cleanup(err: Option<Error>, answer: Option<Error>) returns (r: Option<Error>)
      modifies this
      ensures View() == End(old(View()), if err.Some? then Rollback(answer) else Commit(answer))
      ensures r == Join(err, if old(tx).Some? then answer else None)
    {
      var own: Option<Error>;
      if err != None {
        own := RollbackTx(answer);
      } else {
        own := CommitTx(answer);
      }
      r := Join(err, own);
    }
  }

  // ----- Every transaction is finished exactly once -----

  /** Transactions are numbered as they begin; all but an open one are finished, in order. */
  ghost predicate WellFinished(db: Db) {
    && db.begun == |db.finished| + (if db.tx.Some? then 1 else 0)
    && (forall i :: 0 <= i < |db.finished| ==> db.finished[i].id == i)
    && (db.tx.Some? ==> db.tx.value.id == |db.finished|)
  }

  lemma {:induction false} FinishedOnce(db: Db, ops: seq<Op>)
    requires WellFinished(db)
    ensures WellFinished(DoAll(db, ops))
  {
    if ops != [] {
      FinishedOnce(db, ops[..|ops| - 1]);
    }
  }

  /** A transaction is finished the way some call asked for: committed by a Commit, rolled back
      by a Rollback, with the driver's answer to that call. */
  lemma {:induction false} FinishedAsAsked(db: Db, ops: seq<Op>, i: nat)
    requires |db.finished| <= i < |DoAll(db, ops).finished|
    ensures Close(DoAll(db, ops).finished[i].how) in ops
    ensures db.finished <= DoAll(db, ops).finished
  {
    FinishedGrows(db, ops);
    if ops != [] {
      var before := DoAll(db, ops[..|ops| - 1]);
      if i < |before.finished| {
        FinishedGrows(db, ops[..|ops| - 1]);
        FinishedAsAsked(db, ops[..|ops| - 1], i);
      }
    }
  }

  lemma {:induction false} FinishedGrows(db: Db, ops: seq<Op>)
    ensures db.finished <= DoAll(db, ops).finished
  {
    if ops != [] {
      FinishedGrows(db, ops[..|ops| - 1]);
    }
  }

  // ----- Which statements become durable, read off the list of calls alone -----

  /** No Commit or Rollback strictly between calls i and j. */
  predicate NoClose(ops: seq<Op>, i: int, j: int) {
    forall k :: i < k < j && 0 <= k < |ops| ==> ops[k].Statement?
  }

  /** A transaction is open before call i: some earlier call could begin one, and nothing
      closed it since. */
  ghost predicate OpenBefore(ops: seq<Op>, i: int) {
    exists j :: 0 <= j < i && j < |ops| && ops[j].Statement? && ops[j].begin.None? && NoClose(ops, j, i)
  }

  ghost predicate Executed(ops: seq<Op>, i: int) {
    0 <= i < |ops| && ops[i].Statement? && ops[i].applied && (ops[i].begin.None? || OpenBefore(ops, i))
  }

  /** The first Commit or Rollback after call i, or the end of the list. */
  function NextClose(ops: seq<Op>, i: int, j: int := i + 1): (r: int)
    requires -1 <= i < j <= |ops| && NoClose(ops, i, j)
    ensures i < r <= |ops| && NoClose(ops, i, r)
    ensures r < |ops| ==> ops[r].Close?
    decreases |ops| - j
  {
    if j == |ops| || ops[j].Close? then j else NextClose(ops, i, j + 1)
  }

  /** The statement ran, and the first Commit or Rollback after it is a Commit that succeeds. */
  ghost predicate Durable(ops: seq<Op>, i: int) {
    Executed(ops, i) && NextClose(ops, i) < |ops| && ops[NextClose(ops, i)] == Close(Commit(None))
  }

  ghost function DurableUpTo(ops: seq<Op>, n: nat): seq<Sql>
    requires n <= |ops|
  {
    if n == 0 then []
    else DurableUpTo(ops, n - 1) + (if Durable(ops, n - 1) then [ops[n - 1].sql] else [])
  }

  /** The statements executed in calls lo..hi. */
  ghost function Segment(ops: seq<Op>, lo: nat, hi: nat): seq<Sql>
    requires lo <= hi <= |ops|
  {
    if lo == hi then []
    else Segment(ops, lo, hi - 1) + (if Executed(ops, hi - 1) then [ops[hi - 1].sql] else [])
  }

  /** Where the segment that is still open starts. */
  function Start(ops: seq<Op>): (i: nat)
    ensures i <= |ops| && NoClose(ops, i - 1, |ops|)
    ensures i > 0 ==> ops[i - 1].Close?
  {
    if ops == [] then 0
    else if ops[|ops| - 1].Close? then |ops|
    else Start(ops[..|ops| - 1])
  }

  lemma PrefixExecuted(p: seq<Op>, op: Op, i: int)
    requires 0 <= i <= |p|
    ensures i < |p| ==> Executed(p + [op], i) == Executed(p, i)
    ensures OpenBefore(p + [op], i) == OpenBefore(p, i)
  {
    var ops := p + [op];
    assert forall k :: 0 <= k < |p| ==> ops[k] == p[k];
    assert forall j :: 0 <= j < i ==> NoClose(ops, j, i) == NoClose(p, j, i);
  }

  lemma NextCloseExtended(p: seq<Op>, op: Op, i: nat)
    requires i < |p|
    ensures NextClose(p, i) < |p| ==> NextClose(p + [op], i) == NextClose(p, i)
    ensures NextClose(p, i) == |p| ==> NextClose(p + [op], i) == if op.Close? then |p| else |p| + 1
    ensures NextClose(p, i) == |p| <==> i + 1 >= Start(p)
  {
    var ops := p + [op];
    var r, r' := NextClose(p, i), NextClose(ops, i);
    assert forall k :: 0 <= k < |p| ==> ops[k] == p[k];
    assert ops[|p|] == op;
  }

  lemma PrefixDurable(p: seq<Op>, op: Op, i: nat)
    requires i < |p|
    ensures op != Close(Commit(None)) || i < Start(p) ==> Durable(p + [op], i) == Durable(p, i)
    ensures i >= Start(p) ==> !Durable(p, i)
    ensures i >= Start(p) && op == Close(Commit(None)) ==> Durable(p + [op], i) == Executed(p, i)
  {
    PrefixExecuted(p, op, i);
    NextCloseExtended(p, op, i);
  }

  lemma {:induction false} DurableExtended(p: seq<Op>, op: Op, n: nat)
    requires n <= |p|
    ensures op != Close(Commit(None)) || n <= Start(p) ==> DurableUpTo(p + [op], n) == DurableUpTo(p, n)
    ensures n >= Start(p) ==> DurableUpTo(p, n) == DurableUpTo(p, Start(p))
    ensures n >= Start(p) && op == Close(Commit(None)) ==>
              DurableUpTo(p + [op], n) == DurableUpTo(p, Start(p)) + Segment(p, Start(p), n)
  {
    if n > 0 {
      DurableExtended(p, op, n - 1);
      PrefixDurable(p, op, n - 1);
      assert (p + [op])[n - 1] == p[n - 1];
    }
  }

  lemma {:induction false} SegmentExtended(p: seq<Op>, op: Op, lo: nat, hi: nat)
    requires lo <= hi <= |p|
    ensures Segment(p + [op], lo, hi) == Segment(p, lo, hi)
  {
    if lo < hi {
      SegmentExtended(p, op, lo, hi - 1);
      PrefixExecuted(p, op, hi - 1);
      assert (p + [op])[hi - 1] == p[hi - 1];
    }
  }

  /** The transaction of a statement executed since the last close is open at the end. */
  lemma StaysOpen(ops: seq<Op>, lo: nat, i: nat)
    requires lo <= i < |ops| && NoClose(ops, lo - 1, |ops|)
    ensures Executed(ops, i) ==> OpenBefore(ops, |ops|)
  {
    if Executed(ops, i) {
      var j := i;
      if ops[i].begin.Some? {
        j :| 0 <= j < i && ops[j].Statement? && ops[j].begin.None? && NoClose(ops, j, i);
      }
      assert NoClose(ops, j, |ops|);
    }
  }

  /** Without an open transaction at the end, nothing since the last close was executed. */
  lemma {:induction false} SegmentClosed(ops: seq<Op>, lo: nat, hi: nat)
    requires lo <= hi <= |ops| && NoClose(ops, lo - 1, |ops|) && !OpenBefore(ops, |ops|)
    ensures Segment(ops, lo, hi) == []
  {
    if lo < hi {
      hide NoClose, OpenBefore, Executed;
      SegmentClosed(ops, lo, hi - 1);
      StaysOpen(ops, lo, hi - 1);
    }
  }

  lemma OpenExtended(p: seq<Op>, op: Op)
    ensures OpenBefore(p + [op], |p| + 1) ==
            match op
            case Close(_) => false
            case Statement(_, begin, _) => begin.None? || OpenBefore(p, |p|)
  {
    var ops, n := p + [op], |p|;
    assert ops[n] == op;
    assert NoClose(ops, n, n + 1);
    assert forall j :: 0 <= j < n ==> ops[j] == p[j];
    forall j | 0 <= j < n
      ensures NoClose(ops, j, n + 1) <==> NoClose(p, j, n) && op.Statement?
    {
    }
  }

  /** The last call of a list is not followed by a close. */
  lemma LastNotDurable(p: seq<Op>, op: Op)
    ensures DurableUpTo(p + [op], |p| + 1) == DurableUpTo(p + [op], |p|)
  {
    assert !Durable(p + [op], |p|);
  }

  lemma PendingExtended(p: seq<Op>, op: Op)
    requires op.Statement?
    ensures Start(p + [op]) == Start(p)
    ensures Segment(p + [op], Start(p), |p| + 1)
         == Segment(p, Start(p), |p|)
            + (if op.applied && (op.begin.None? || OpenBefore(p, |p|)) then [op.sql] else [])
  {
    assert (p + [op])[|p|] == op && (p + [op])[..|p|] == p;
    SegmentExtended(p, op, Start(p), |p|);
    PrefixExecuted(p, op, |p|);
  }

  /** The log after any list of calls is the log before plus exactly the statements whose next
      Commit or Rollback is a Commit that succeeds, in order; and a transaction is open
      exactly when the list of calls says so. */
  lemma {:induction false} DurableLog(db: Db, ops: seq<Op>)
    requires db.tx.None?
    ensures DoAll(db, ops).durable == db.durable + DurableUpTo(ops, |ops|)
    ensures DoAll(db, ops).tx.Some? <==> OpenBefore(ops, |ops|)
    ensures DoAll(db, ops).tx.Some? ==> DoAll(db, ops).tx.value.pending == Segment(ops, Start(ops), |ops|)
  {
    if ops == [] {
      assert !OpenBefore(ops, 0);
    } else {
      hide OpenBefore, Segment, DurableUpTo, NoClose, Start, Do;
      var n := |ops| - 1;
      var p, op := ops[..n], ops[n];
      assert ops == p + [op];
      DurableLog(db, p);
      LastNotDurable(p, op);
      OpenExtended(p, op);
      DurableExtended(p, op, n);
      if !OpenBefore(p, n) {
        SegmentClosed(p, Start(p), n);
      }
      DoStep(DoAll(db, p), op, db.durable, DurableUpTo(p, n), Segment(p, Start(p), n));
      if op.Statement? {
        PendingExtended(p, op);
      }
    }
  }

  lemma DoStep(db: Db, op: Op, before: seq<Sql>, closed: seq<Sql>, open: seq<Sql>)
    requires db.durable == before + closed
    requires if db.tx.Some? then db.tx.value.pending == open else open == []
    ensures Do(db, op).durable == before + (closed + if op == Close(Commit(None)) then open else [])
    ensures Do(db, op).tx.Some? <==> op.Statement? && (op.begin.None? || db.tx.Some?)
    ensures Do(db, op).tx.Some? ==> Do(db, op).tx.value.pending == open + if op.applied then [op.sql] else []
  {
    assert before + closed + open == before + (closed + open);
  }

  /** A field whose calls hold no Commit makes nothing durable. */
  lemma {:induction false} NoCommitNothingDurable(ops: seq<Op>, n: nat)
    requires n <= |ops| && forall i :: 0 <= i < |ops| && ops[i].Close? ==> ops[i].how.Rollback?
    ensures DurableUpTo(ops, n) == []
  {
    if n > 0 {
      NoCommitNothingDurable(ops, n - 1);
    }
  }
}

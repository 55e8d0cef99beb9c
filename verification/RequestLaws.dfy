/** What one buffered request guarantees, whatever the template, the database driver and the
    providers do. */
module RequestLaws {
  import opened Errors
  import opened Transactions
  import opened RequestHandling
  import opened Wrappers

  // ----- The error threaded through the chain -----

  /** Once an error has passed the X cleanup it never becomes nil again. */
  lemma {:induction false} ErrorSticks(dbs: seq<Db>, answers: seq<Option<Error>>, err: Option<Error>, j: nat, k: nat)
    requires j <= k <= |dbs| == |answers| && After(dbs, answers, err, j).Some?
    ensures After(dbs, answers, err, k).Some?
    decreases k - j
  {
    if j < k {
      ErrorSticks(dbs, answers, err, j, k - 1);
    }
  }

  /** The status an error carries is not lost to errors of the databases. */
  lemma {:induction false} StatusSurvives(dbs: seq<Db>, answers: seq<Option<Error>>, err: Error, k: nat)
    requires k <= |dbs| == |answers| && StatusOf(err).Some?
    ensures var e := After(dbs, answers, Some(err), k);
            e.Some? && StatusOf(e.value) == StatusOf(err)
  {
    if k > 0 {
      StatusSurvives(dbs, answers, err, k - 1);
    }
  }

  predicate Fails(db: Db, answer: Option<Error>) {
    db.tx.Some? && answer.Some?
  }

  /** The first database with an open transaction that the driver refuses to close. */
  function FirstFailure(dbs: seq<Db>, answers: seq<Option<Error>>, i: nat := 0): (f: nat)
    requires i <= |dbs| == |answers|
    ensures i <= f <= |dbs|
    ensures f < |dbs| ==> Fails(dbs[f], answers[f])
    ensures forall k :: i <= k < f ==> !Fails(dbs[k], answers[k])
    decreases |dbs| - i
  {
    if i == |dbs| || Fails(dbs[i], answers[i]) then i else FirstFailure(dbs, answers, i + 1)
  }

  lemma {:induction false} AfterFailure(dbs: seq<Db>, answers: seq<Option<Error>>, k: nat)
    requires k <= |dbs| == |answers|
    ensures After(dbs, answers, None, k).None? <==> k <= FirstFailure(dbs, answers)
  {
    if k > 0 {
      AfterFailure(dbs, answers, k - 1);
    }
  }

  lemma NotFailing(db: Db, answer: Option<Error>)
    ensures !Fails(db, answer) ==> End(db, Commit(answer)) == End(db, Commit(None))
  {
  }

  /** A template that succeeds or returns early: the databases before the first failing
      commit are committed, that commit is reported, and every later one is rolled back. */
  lemma CommitsUpToFirstFailure(before: seq<Db>, actions: seq<Action>, execErr: Option<Error>, answers: seq<Option<Error>>, i: nat)
    requires i < |before| == |answers| && XCleanup(execErr).None?
    ensures var mid, r := Ran(before, actions), Handled(before, None, actions, execErr, answers);
            var f := FirstFailure(mid, answers);
            && (i < f ==> r.dbs[i] == End(mid[i], Commit(None)))
            && (i == f ==> r.dbs[i] == End(mid[i], Commit(answers[i])) && Fails(mid[i], answers[i]))
            && (i > f ==> r.dbs[i] == End(mid[i], Rollback(answers[i])))
  {
    hide Handled, After, Ran, DoAll;
    HandledClosed(before, actions, execErr, answers);
    AfterFailure(Ran(before, actions), answers, i);
    NotFailing(Ran(before, actions)[i], answers[i]);
  }

  /** Any other error rolls back whatever is still open. */
  lemma OtherErrorRollsBack(before: seq<Db>, actions: seq<Action>, execErr: Option<Error>, answers: seq<Option<Error>>, i: nat)
    requires i < |before| == |answers| && execErr.Some? && !IsReturn(execErr.value)
    ensures Handled(before, None, actions, execErr, answers).dbs[i] == End(Ran(before, actions)[i], Rollback(answers[i]))
  {
    HandledClosed(before, actions, execErr, answers);
    ErrorSticks(Ran(before, actions), answers, execErr, 0, i);
  }

  // ----- Transactions over the whole request -----

  /** No transaction is left open, and every transaction begun is finished exactly once. */
  lemma TransactionsSettled(before: seq<Db>, provider: Option<Error>, actions: seq<Action>, execErr: Option<Error>,
                            answers: seq<Option<Error>>, i: nat)
    requires i < |before| == |answers| && before[i].tx.None? && WellFinished(before[i])
    ensures var db := Handled(before, provider, actions, execErr, answers).dbs[i];
            && db.tx.None? && db.begun == |db.finished|
            && forall k :: 0 <= k < |db.finished| ==> db.finished[k].id == k
  {
    if provider.None? {
      HandledClosed(before, actions, execErr, answers);
      FinishedOnce(before[i], Calls(actions, i));
    }
  }

  /** The calls on one field, cleanup included. */
  function AllCalls(before: seq<Db>, actions: seq<Action>, execErr: Option<Error>, answers: seq<Option<Error>>, i: nat): seq<Op>
    requires i < |before| == |answers|
  {
    Calls(actions, i) + [Close(Closing(Ran(before, actions), answers, XCleanup(execErr), i))]
  }

  /** A database ends with its initial log plus exactly the statements whose next Commit or
      Rollback, manual or by cleanup, is a Commit that succeeds. */
  lemma RequestDurableLog(before: seq<Db>, actions: seq<Action>, execErr: Option<Error>, answers: seq<Option<Error>>, i: nat)
    requires i < |before| == |answers| && before[i].tx.None?
    ensures var ops := AllCalls(before, actions, execErr, answers, i);
            Handled(before, None, actions, execErr, answers).dbs[i].durable == before[i].durable + DurableUpTo(ops, |ops|)
  {
    HandledClosed(before, actions, execErr, answers);
    var ops, last := Calls(actions, i), Close(Closing(Ran(before, actions), answers, XCleanup(execErr), i));
    DoAllSnoc(before[i], ops, last);
    DurableLog(before[i], ops + [last]);
  }

  /** A failing template that never commits by hand changes nothing. */
  lemma FailingTemplateChangesNothing(before: seq<Db>, actions: seq<Action>, execErr: Option<Error>, answers: seq<Option<Error>>, i: nat)
    requires i < |before| == |answers| && before[i].tx.None?
    requires execErr.Some? && !IsReturn(execErr.value)
    requires forall op :: op in Calls(actions, i) && op.Close? ==> op.how.Rollback?
    ensures Handled(before, None, actions, execErr, answers).dbs[i].durable == before[i].durable
  {
    RequestDurableLog(before, actions, execErr, answers, i);
    ErrorSticks(Ran(before, actions), answers, execErr, 0, i);
    var ops := AllCalls(before, actions, execErr, answers, i);
    assert forall k :: 0 <= k < |ops| - 1 ==> ops[k] in Calls(actions, i);
    NoCommitNothingDurable(ops, |ops|);
  }

  // ----- The response -----

  /** Whether the client gets the page. */
  ghost predicate Delivered(before: seq<Db>, provider: Option<Error>, actions: seq<Action>, execErr: Option<Error>,
                            answers: seq<Option<Error>>)
    requires |before| == |answers|
  {
    provider.None? && XCleanup(execErr).None? && FirstFailure(Ran(before, actions), answers) == |before|
  }

  /** All or nothing: the whole page under the last status set, after every open transaction
      was committed, or an error text and not a byte of the page. */
  lemma ResponseAllOrNothing(before: seq<Db>, provider: Option<Error>, actions: seq<Action>, execErr: Option<Error>,
                             answers: seq<Option<Error>>)
    requires |before| == |answers|
    ensures var r, page, mid := Handled(before, provider, actions, execErr, answers), Render(actions), Ran(before, actions);
            if Delivered(before, provider, actions, execErr, answers) then
              && r.effects == [CopyHeaders(page.header), WriteHeader(page.status), Write(page.body)]
              && forall i :: 0 <= i < |mid| && mid[i].tx.Some? ==>
                   r.dbs[i].durable == mid[i].durable + mid[i].tx.value.pending
            else
              var error := [WriteHeader(500), Write("internal server error\n")];
              r.effects == error || exists code :: r.effects == [WriteHeader(code)] + error
  {
    var mid, x := Ran(before, actions), XCleanup(execErr);
    if provider.None? {
      HandledClosed(before, actions, execErr, answers);
      if x.None? {
        AfterFailure(mid, answers, |mid|);
        forall i | 0 <= i < |mid| && FirstFailure(mid, answers) == |mid|
          ensures mid[i].tx.Some? ==>
                    Handled(before, None, actions, execErr, answers).dbs[i].durable == mid[i].durable + mid[i].tx.value.pending
        {
          CommitsUpToFirstFailure(before, actions, execErr, answers, i);
        }
      } else {
        ErrorSticks(mid, answers, x, 0, |mid|);
      }
      var err := After(mid, answers, x, |mid|);
      if err.Some? && StatusOf(err.value).None? {
        assert RespEffects(Render(actions), err) + ErrorPage == ErrorPage;
      }
    }
  }

  /** A template that fails with a status sends that status, and the error text. */
  lemma ErrorStatusSent(before: seq<Db>, actions: seq<Action>, err: Error, answers: seq<Option<Error>>)
    requires |before| == |answers| && StatusOf(err).Some? && !IsReturn(err)
    ensures Handled(before, None, actions, Some(err), answers).effects
         == [WriteHeader(StatusOf(err).value), WriteHeader(500), Write("internal server error\n")]
  {
    hide Ran, Render, Closed, After, StatusOf, IsReturn;
    HandledClosed(before, actions, Some(err), answers);
    StatusSurvives(Ran(before, actions), answers, err, |before|);
  }

  lemma {:induction false} NoStatusStays(dbs: seq<Db>, answers: seq<Option<Error>>, err: Option<Error>, k: nat)
    requires k <= |dbs| == |answers| && (err.Some? ==> StatusOf(err.value).None?)
    requires forall i :: 0 <= i < |answers| && answers[i].Some? ==> StatusOf(answers[i].value).None?
    ensures After(dbs, answers, err, k).Some? ==> StatusOf(After(dbs, answers, err, k).value).None?
  {
    if k > 0 {
      NoStatusStays(dbs, answers, err, k - 1);
      NoStatusJoined(After(dbs, answers, err, k - 1), CloseError(dbs[k - 1], answers[k - 1]));
    }
  }

  lemma NoStatusJoined(a: Option<Error>, b: Option<Error>)
    requires (a.Some? ==> StatusOf(a.value).None?) && (b.Some? ==> StatusOf(b.value).None?)
    ensures Join(a, b).Some? ==> StatusOf(Join(a, b).value).None?
  {
    NoneHasStatus((if a.Some? then [a.value] else []) + (if b.Some? then [b.value] else []));
  }

  lemma {:induction false} NoneHasStatus(errs: seq<Error>)
    requires forall i :: 0 <= i < |errs| ==> StatusOf(errs[i]).None?
    ensures FirstStatus(errs).None?
  {
    if errs != [] {
      NoneHasStatus(errs[1..]);
    }
  }

  /** An error in which nothing carries a status sends the error text alone. */
  lemma PlainErrorSent(before: seq<Db>, actions: seq<Action>, err: Error, answers: seq<Option<Error>>)
    requires |before| == |answers| && StatusOf(err).None? && !IsReturn(err)
    requires forall i :: 0 <= i < |answers| && answers[i].Some? ==> StatusOf(answers[i].value).None?
    ensures Handled(before, None, actions, Some(err), answers).effects == [WriteHeader(500), Write("internal server error\n")]
  {
    hide Ran, Render, Closed, After, StatusOf, IsReturn;
    HandledClosed(before, actions, Some(err), answers);
    NoStatusStays(Ran(before, actions), answers, Some(err), |before|);
    StartsWith(Ran(before, actions), answers, Some(err));
    ErrorSticks(Ran(before, actions), answers, Some(err), 0, |before|);
  }

  lemma StartsWith(dbs: seq<Db>, answers: seq<Option<Error>>, err: Option<Error>)
    requires |dbs| == |answers|
    ensures After(dbs, answers, err, 0) == err
  {
  }

  /** When a provider cannot make its value, nothing is run and the error text is sent. */
  lemma ProviderErrorSent(before: seq<Db>, provider: Error, actions: seq<Action>, execErr: Option<Error>, answers: seq<Option<Error>>)
    requires |before| == |answers|
    ensures Handled(before, Some(provider), actions, execErr, answers)
         == Result(before, [WriteHeader(500), Write("internal server error\n")])
  {
  }

  /** A page that sets no status is sent with 200. */
  lemma {:induction false} DefaultStatus(actions: seq<Action>)
    requires forall k :: 0 <= k < |actions| ==> !actions[k].SetStatus?
    ensures Render(actions).status == 200
  {
    if actions != [] {
      DefaultStatus(actions[..|actions| - 1]);
    }
  }

  /** A template that returns early, wherever in its error the sentinel is, delivers what it has
      rendered: with ReturnStatus, under that status. */
  lemma EarlyReturnDelivers(before: seq<Db>, actions: seq<Action>, err: Error, answers: seq<Option<Error>>, code: int)
    requires |before| == |answers| && ReturnError in Leaves(err) && forall i :: 0 <= i < |answers| ==> answers[i].None?
    ensures var page, all := Render(actions), actions + [SetStatus(code)];
            Handled(before, None, all, Some(err), answers).effects
            == [CopyHeaders(page.header), WriteHeader(code), Write(page.body)]
  {
    var page, all := Render(actions), actions + [SetStatus(code)];
    ReturnInTree(err);
    assert all[..|all| - 1] == actions;
    assert Render(all) == page.(status := code);
    hide Ran, Render, Leaves, IsReturn;
    assert FirstFailure(Ran(before, all), answers) == |before|;
    ResponseAllOrNothing(before, None, all, Some(err), answers);
  }

  /** The status sent is the last one the template set. */
  lemma {:induction false} LastStatusWins(actions: seq<Action>, j: nat)
    requires j < |actions| && actions[j].SetStatus?
    requires forall k :: j < k < |actions| ==> !actions[k].SetStatus?
    ensures Render(actions).status == actions[j].code
  {
    if j < |actions| - 1 {
      LastStatusWins(actions[..|actions| - 1], j);
    }
  }

  predicate Touches(a: Action, name: string) {
    (a.SetHeader? || a.AddHeader? || a.DelHeader?) && a.name == name
  }

  /** The values added under a name, in order. */
  function Added(actions: seq<Action>, name: string): seq<string> {
    if actions == [] then []
    else
      var a := actions[|actions| - 1];
      Added(actions[..|actions| - 1], name) + (if a.AddHeader? && a.name == name then [a.value] else [])
  }

  function ValuesOf(header: Header, name: string): seq<string> {
    if name in header then header[name] else []
  }

  lemma ActValues(page: Page, a: Action, name: string)
    ensures var before, after := ValuesOf(page.header, name), ValuesOf(Act(page, a).header, name);
            if !Touches(a, name) then after == before
            else if a.AddHeader? then after == before + [a.value]
            else after == if a.SetHeader? then [a.value] else []
  {
  }

  /** Values added under a name never set or deleted are all sent, in order. */
  lemma {:induction false} AddedHeadersSent(actions: seq<Action>, name: string)
    requires forall k :: 0 <= k < |actions| && Touches(actions[k], name) ==> actions[k].AddHeader?
    ensures ValuesOf(Render(actions).header, name) == Added(actions, name)
  {
    if actions != [] {
      AddedHeadersSent(actions[..|actions| - 1], name);
      ActValues(Render(actions[..|actions| - 1]), actions[|actions| - 1], name);
    }
  }

  /** After a header was set, what is added to it follows the value set; after it was deleted,
      what is added is all there is. */
  lemma {:induction false} AddedAfterSet(before: seq<Action>, a: Action, after: seq<Action>)
    requires a.SetHeader? || a.DelHeader?
    requires forall k :: 0 <= k < |after| && Touches(after[k], a.name) ==> after[k].AddHeader?
    ensures ValuesOf(Render(before + [a] + after).header, a.name)
         == (if a.SetHeader? then [a.value] else []) + Added(after, a.name)
    decreases after
  {
    hide Act, ValuesOf;
    var all := before + [a] + after;
    var n := |all| - 1;
    if after == [] {
      assert all[..n] == before && all[n] == a;
      ActValues(Render(before), a, a.name);
      assert (if a.SetHeader? then [a.value] else []) + [] == if a.SetHeader? then [a.value] else [];
    } else {
      var rest, last := after[..|after| - 1], after[|after| - 1];
      assert all[..n] == before + [a] + rest && all[n] == last;
      AddedAfterSet(before, a, rest);
      ActValues(Render(before + [a] + rest), last, a.name);
    }
  }

  /** A header set and not touched again is sent with that value alone; one deleted is not sent. */
  lemma {:induction false} LastHeaderWins(actions: seq<Action>, j: nat)
    requires j < |actions| && (actions[j].SetHeader? || actions[j].DelHeader?)
    requires forall k :: j < k < |actions| ==> !Touches(actions[k], actions[j].name)
    ensures actions[j].SetHeader? ==>
              actions[j].name in Render(actions).header && Render(actions).header[actions[j].name] == [actions[j].value]
    ensures actions[j].DelHeader? ==> actions[j].name !in Render(actions).header
  {
    if j < |actions| - 1 {
      LastHeaderWins(actions[..|actions| - 1], j);
    }
  }

  /** The body is what the template wrote, in the order it wrote it. */
  lemma {:induction false} BodyInOrder(a: seq<Action>, b: seq<Action>, text: string)
    ensures Render(a + b).body == Render(a).body + Render(b).body
    ensures Render([Emit(text)]).body == text
  {
    var one := [Emit(text)];
    assert one[..0] == [] && "" + text == text;
    if b == [] {
      assert a + b == a && Render(a).body + "" == Render(a).body;
    } else {
      var n := |b| - 1;
      BodyInOrder(a, b[..n], text);
      assert (a + b)[..|a + b| - 1] == a + b[..n];
      assert Render(a).body + Render(b[..n]).body + (if b[n].Emit? then b[n].text else "")
          == Render(a).body + (Render(b[..n]).body + (if b[n].Emit? then b[n].text else ""));
    }
  }

  predicate HasPending(db: Db) {
    db.tx.Some? && db.tx.value.pending != []
  }

  lemma EndDurable(db: Db, how: Ending)
    ensures End(db, how).durable == db.durable <==> how != Commit(None) || !HasPending(db)
  {
  }

  lemma FailedCommitAt(before: seq<Db>, actions: seq<Action>, execErr: Option<Error>, answers: seq<Option<Error>>, i: nat)
    requires i < |before| == |answers| && XCleanup(execErr).None?
    ensures var mid, r := Ran(before, actions), Handled(before, None, actions, execErr, answers);
            |r.dbs| == |mid| &&
            (r.dbs[i].durable == mid[i].durable <==> i >= FirstFailure(mid, answers) || !HasPending(mid[i]))
  {
    HandledClosed(before, actions, execErr, answers);
    hide Handled, After, Ran, DoAll, FirstFailure, End, Closed, HasPending;
    CommitsUpToFirstFailure(before, actions, execErr, answers, i);
    var db := Ran(before, actions)[i];
    EndDurable(db, Commit(None));
    EndDurable(db, Commit(answers[i]));
    EndDurable(db, Rollback(answers[i]));
  }

  /** A request whose template succeeds and one of whose commits fails leaves every database as
      the template left it if and only if no earlier database had statements to commit. */
  lemma FailedCommitAtomicIff(before: seq<Db>, actions: seq<Action>, execErr: Option<Error>, answers: seq<Option<Error>>)
    requires |before| == |answers| && XCleanup(execErr).None?
    requires FirstFailure(Ran(before, actions), answers) < |before|
    ensures var mid, r := Ran(before, actions), Handled(before, None, actions, execErr, answers);
            && |r.dbs| == |mid|
            && ((forall i :: 0 <= i < |mid| ==> r.dbs[i].durable == mid[i].durable)
                <==> forall i :: 0 <= i < FirstFailure(mid, answers) ==> !HasPending(mid[i]))
  {
    HandledClosed(before, actions, execErr, answers);
    hide Handled, After, Ran, DoAll, FirstFailure, End, Closed, HasPending;
    var mid, r := Ran(before, actions), Handled(before, None, actions, execErr, answers);
    forall i | 0 <= i < |mid|
      ensures r.dbs[i].durable == mid[i].durable <==> i >= FirstFailure(mid, answers) || !HasPending(mid[i])
    {
      FailedCommitAt(before, actions, execErr, answers, i);
    }
  }

  /** Commits of different databases are not atomic: the first stays committed when the second
      fails, although the client is told of an error. */
  lemma CommitsNotAtomic(sql: Sql, refused: Error)
    ensures var before := [Db(None, [], 0, []), Db(None, [], 0, [])];
            var actions := [OnDb(0, Statement(sql, None, true), None), OnDb(1, Statement(sql, None, true), None)];
            var r := Handled(before, None, actions, None, [None, Some(refused)]);
            && r.dbs[0].durable == [sql] && r.dbs[1].durable == []
            && !Delivered(before, None, actions, None, [None, Some(refused)])
  {
    var db := Db(None, [], 0, []);
    var before := [db, db];
    var a0, a1 := OnDb(0, Statement(sql, None, true), None), OnDb(1, Statement(sql, None, true), None);
    var actions := [a0, a1];
    var answers := [None, Some(refused)];
    var mid := Ran(before, actions);
    OneStatementEach(sql, db, 0);
    OneStatementEach(sql, db, 1);
    hide Ran, Handled, Calls, DoAll;
    assert mid[0] == mid[1] == Db(Some(Tx(0, [sql])), [], 1, []);
    assert Fails(mid[1], answers[1]) && !Fails(mid[0], answers[0]);
    assert FirstFailure(mid, answers) == 1;
    CommitsUpToFirstFailure(before, actions, None, answers, 0);
    CommitsUpToFirstFailure(before, actions, None, answers, 1);
  }

  lemma OneStatementEach(sql: Sql, db: Db, i: nat)
    requires i < 2 && db == Db(None, [], 0, [])
    ensures var actions := [OnDb(0, Statement(sql, None, true), None), OnDb(1, Statement(sql, None, true), None)];
            Ran([db, db], actions)[i] == Db(Some(Tx(0, [sql])), [], 1, [])
  {
    var st := Statement(sql, None, true);
    var actions := [OnDb(0, st, None), OnDb(1, st, None)];
    CallsSnoc(actions, 0, i);
    CallsSnoc(actions, 1, i);
    assert actions[..0] == [] && actions[..2] == actions;
    assert Calls(actions, i) == [st];
    OneStatement(db, st);
  }

  lemma OneStatement(db: Db, st: Op)
    requires db == Db(None, [], 0, []) && st.Statement? && st.begin.None? && st.applied
    ensures DoAll(db, [st]) == Db(Some(Tx(0, [st.sql])), [], 1, [])
  {
    var none: seq<Op> := [];
    DoAllSnoc(db, none, st);
    assert none + [st] == [st] && DoAll(db, none) == db;
    assert db.durable + [st.sql] == [st.sql];
  }
}

/** One buffered request (handlers.go, dot.go, dot_instance.go, dot_resp.go): a template run
    over any list of databases, then the ordered cleanup chain that threads one error through
    commits, rollbacks and the response. */
module RequestHandling {
  import opened Errors
  import opened Transactions
  import opened Wrappers

  type Header = map<string, seq<string>>

  const INTERNAL_SERVER_ERROR := 500
  const OK := 200

  /** What a template does through its dot value, in the order it does it. */
  datatype Action =
    | OnDb(field: nat, op: Op, result: Option<Error>)
    | SetStatus(code: int)
    | AddHeader(name: string, value: string)
    | SetHeader(name: string, value: string)
    | DelHeader(name: string)
    | Emit(text: string)

  datatype Page = Page(status: int, header: Header, body: string)

  const BlankPage := Page(OK, map[], "")

  /** Calls on the http.ResponseWriter. */
  datatype Effect = CopyHeaders(header: Header) | WriteHeader(code: int) | Write(body: string)

  const ErrorPage: seq<Effect> := [WriteHeader(INTERNAL_SERVER_ERROR), Write("internal server error\n")]

  class ResponseWriter {
    var trace: seq<Effect>
    method Do(e: Effect)
      modifies this
      ensures trace == old(trace) + [e]
    {
      trace := trace + [e];
    }
  }

  // ----- Running the template -----

  function Act(page: Page, action: Action): Page {
    match action
    case OnDb(_, _, _) => page
    case SetStatus(code) => page.(status := code)
    case AddHeader(n, v) => page.(header := page.header[n := (if n in page.header then page.header[n] else []) + [v]])
    case SetHeader(n, v) => page.(header := page.header[n := [v]])
    case DelHeader(n) => page.(header := page.header - {n})
    case Emit(text) => page.(body := page.body + text)
  }

  function Render(actions: seq<Action>): Page {
    if actions == [] then BlankPage
    else Act(Render(actions[..|actions| - 1]), actions[|actions| - 1])
  }

  /** The calls a run makes on one database field. */
  function Calls(actions: seq<Action>, field: nat): seq<Op> {
    if actions == [] then []
    else
      var a := actions[|actions| - 1];
      Calls(actions[..|actions| - 1], field) + (if a.OnDb? && a.field == field then [a.op] else [])
  }

  predicate FieldsInRange(actions: seq<Action>, n: nat) {
    forall i :: 0 <= i < |actions| && actions[i].OnDb? ==> actions[i].field < n
  }

  predicate Distinct(dbs: seq<DotDB>) {
    forall i, j :: 0 <= i < j < |dbs| ==> dbs[i] != dbs[j]
  }

  /** The database fields stand at the given values. */
  ghost predicate At(dbs: seq<DotDB>, v: seq<Db>)
    reads dbs
  {
    |v| == |dbs| && forall i :: 0 <= i < |dbs| ==> dbs[i].View() == v[i]
  }

  function Ran(before: seq<Db>, actions: seq<Action>): (r: seq<Db>)
    ensures |r| == |before|
  {
    seq(|before|, i requires 0 <= i < |before| => DoAll(before[i], Calls(actions, i)))
  }

  lemma CallsSnoc(actions: seq<Action>, n: nat, field: nat)
    requires n < |actions|
    ensures var a := actions[n];
            Calls(actions[..n + 1], field) == Calls(actions[..n], field) + (if a.OnDb? && a.field == field then [a.op] else [])
    ensures Render(actions[..n + 1]) == Act(Render(actions[..n]), actions[n])
    ensures actions[n].OnDb? ==> Render(actions[..n + 1]) == Render(actions[..n])
  {
    assert actions[..n + 1][..n] == actions[..n];
  }

  lemma DoAllSnoc(db: Db, ops: seq<Op>, op: Op)
    ensures DoAll(db, ops + [op]) == Do(DoAll(db, ops), op)
    ensures DoAll(db, ops + []) == DoAll(db, ops)
  {
    assert (ops + [op])[..|ops|] == ops && ops + [] == ops;
  }

  lemma NothingRun(before: seq<Db>, actions: seq<Action>)
    ensures Ran(before, actions[..0]) == before && Render(actions[..0]) == BlankPage
  {
  }

  lemma RanSnoc(before: seq<Db>, actions: seq<Action>, n: nat)
    requires n < |actions|
    ensures var a, mid, next := actions[n], Ran(before, actions[..n]), Ran(before, actions[..n + 1]);
            next == if a.OnDb? && a.field < |before| then mid[a.field := Do(mid[a.field], a.op)] else mid
  {
    var a, mid, next := actions[n], Ran(before, actions[..n]), Ran(before, actions[..n + 1]);
    forall i | 0 <= i < |before|
      ensures next[i] == if a.OnDb? && a.field == i then Do(mid[i], a.op) else mid[i]
    {
      CallsSnoc(actions, n, i);
      DoAllSnoc(before[i], Calls(actions[..n], i), if a.OnDb? then a.op else Close(Commit(None)));
    }
  }

  method CallDb(db: DotDB, op: Op, result: Option<Error>)
    modifies db
    ensures db.View() == Do(old(db.View()), op)
  {
    match op {
      case Statement(sql, begin, applied) =>
        var _ := db.Run(sql, begin, applied, result);
      case Close(Commit(answer)) =>
        var _ := db.CommitTx(answer);
      case Close(Rollback(answer)) =>
        var _ := db.RollbackTx(answer);
    }
  }

  method Execute(dbs: seq<DotDB>, actions: seq<Action>, ghost v: seq<Db>) returns (page: Page)
    requires Distinct(dbs) && FieldsInRange(actions, |dbs|) && At(dbs, v)
    modifies dbs
    ensures page == Render(actions)
    ensures At(dbs, Ran(v, actions))
  {
    page := BlankPage;
    NothingRun(v, actions);
    hide Ran, Render, Act, Do;
    for n := 0 to |actions|
      invariant page == Render(actions[..n])
      invariant At(dbs, Ran(v, actions[..n]))
    {
      RanSnoc(v, actions, n);
      CallsSnoc(actions, n, 0);
      if actions[n].OnDb? {
        CallDb(dbs[actions[n].field], actions[n].op, actions[n].result);
      } else {
        page := Act(page, actions[n]);
      }
    }
    assert actions[..|actions|] == actions;
  }

  // ----- The cleanup chain -----

  /** The providers with a Cleanup, in the order instance.go lists them. */
  datatype Provider = XProvider | DbProvider(field: nat) | RespProvider

  function Chain(n: nat): seq<Provider> {
    [XProvider] + seq(n, i requires 0 <= i => DbProvider(i)) + [RespProvider]
  }

  /** dotXProvider.Cleanup: an early return is a success. */
  function XCleanup(err: Option<Error>): Option<Error> {
    if err.Some? && IsReturn(err.value) then None else err
  }

  function CloseError(db: Db, answer: Option<Error>): Option<Error> {
    if db.tx.Some? then answer else None
  }

  /** The error after the first k databases have been cleaned up. */
  function After(dbs: seq<Db>, answers: seq<Option<Error>>, err: Option<Error>, k: nat): Option<Error>
    requires k <= |dbs| == |answers|
  {
    if k == 0 then err
    else Join(After(dbs, answers, err, k - 1), CloseError(dbs[k - 1], answers[k - 1]))
  }

  /** How database i is closed. */
  function Closing(dbs: seq<Db>, answers: seq<Option<Error>>, err: Option<Error>, i: nat): Ending
    requires i < |dbs| == |answers|
  {
    if After(dbs, answers, err, i).Some? then Rollback(answers[i]) else Commit(answers[i])
  }

  /** The fields after the first k databases have been cleaned up. */
  function Closed(dbs: seq<Db>, answers: seq<Option<Error>>, err: Option<Error>, k: nat := |dbs|): (r: seq<Db>)
    requires k <= |dbs| == |answers|
    ensures |r| == |dbs|
    ensures forall i :: 0 <= i < |dbs| ==> r[i] == if i < k then End(dbs[i], Closing(dbs, answers, err, i)) else dbs[i]
  {
    if k == 0 then dbs
    else Closed(dbs, answers, err, k - 1)[k - 1 := End(dbs[k - 1], Closing(dbs, answers, err, k - 1))]
  }

  /** dotRespProvider.Cleanup */
  function RespEffects(page: Page, err: Option<Error>): seq<Effect> {
    if err.None? then [CopyHeaders(page.header), WriteHeader(page.status)]
    else if StatusOf(err.value).Some? then [WriteHeader(StatusOf(err.value).value)]
    else []
  }

  method RespCleanup(page: Page, w: ResponseWriter, err: Option<Error>)
    modifies w
    ensures w.trace == old(w.trace) + RespEffects(page, err)
  {
    if err.Some? && StatusOf(err.value).Some? {
      w.Do(WriteHeader(StatusOf(err.value).value));
    } else if err.None? {
      w.Do(CopyHeaders(page.header));
      w.Do(WriteHeader(page.status));
    }
  }

  /** The error being threaded, the database fields and the calls made on the response. */
  datatype ChainState = ChainState(err: Option<Error>, dbs: seq<Db>, effects: seq<Effect>)

  predicate ChainInRange(chain: seq<Provider>, n: nat) {
    forall i :: 0 <= i < |chain| && chain[i].DbProvider? ==> chain[i].field < n
  }

  function CleanupStep(c: ChainState, p: Provider, answers: seq<Option<Error>>, page: Page): (r: ChainState)
    requires |answers| == |c.dbs| && (p.DbProvider? ==> p.field < |c.dbs|)
    ensures |r.dbs| == |c.dbs|
  {
    match p
    case XProvider => c.(err := XCleanup(c.err))
    case DbProvider(i) =>
      c.(err := Join(c.err, CloseError(c.dbs[i], answers[i])),
         dbs := c.dbs[i := End(c.dbs[i], if c.err.Some? then Rollback(answers[i]) else Commit(answers[i]))])
    case RespProvider => c.(effects := c.effects + RespEffects(page, c.err))
  }

  /** dot.cleanup over the first k providers of a chain. */
  function CleanupRun(c: ChainState, chain: seq<Provider>, k: nat, answers: seq<Option<Error>>, page: Page): (r: ChainState)
    requires |answers| == |c.dbs| && ChainInRange(chain, |c.dbs|) && k <= |chain|
    ensures |r.dbs| == |c.dbs|
  {
    if k == 0 then c
    else CleanupStep(CleanupRun(c, chain, k - 1, answers, page), chain[k - 1], answers, page)
  }

  /** One provider's Cleanup. */
  method CleanupOne(p: Provider, dbs: seq<DotDB>, answers: seq<Option<Error>>, page: Page, w: ResponseWriter,
                    err: Option<Error>, ghost c: ChainState)
    returns (r: Option<Error>)
    requires Distinct(dbs) && |answers| == |dbs| && (p.DbProvider? ==> p.field < |dbs|)
    requires At(dbs, c.dbs) && c.err == err
    modifies dbs, w
    ensures r == CleanupStep(c, p, answers, page).err
    ensures At(dbs, CleanupStep(c, p, answers, page).dbs)
    ensures c.effects <= CleanupStep(c, p, answers, page).effects
    ensures w.trace == old(w.trace) + CleanupStep(c, p, answers, page).effects[|c.effects|..]
  {
    match p {
      case XProvider =>
        r := XCleanup(err);
      case DbProvider(i) =>
        r := dbs[i].Cleanup(err, answers[i]);
      case RespProvider =>
        RespCleanup(page, w, err);
        r := err;
    }
  }

  /** dot.cleanup */
  method Cleanup(chain: seq<Provider>, dbs: seq<DotDB>, answers: seq<Option<Error>>, page: Page, w: ResponseWriter,
                 execErr: Option<Error>, ghost v: seq<Db>)
    returns (err: Option<Error>)
    requires Distinct(dbs) && |answers| == |dbs| && At(dbs, v) && ChainInRange(chain, |dbs|)
    modifies dbs, w
    ensures var r := CleanupRun(ChainState(execErr, v, []), chain, |chain|, answers, page);
            && err == r.err
            && At(dbs, r.dbs)
            && w.trace == old(w.trace) + r.effects
  {
    err := execErr;
    ghost var c0 := ChainState(execErr, v, []);
    ghost var c := c0;
    for k := 0 to |chain|
      invariant c == CleanupRun(c0, chain, k, answers, page) && err == c.err
      invariant At(dbs, c.dbs)
      invariant w.trace == old(w.trace) + c.effects
    {
      err := CleanupOne(chain[k], dbs, answers, page, w, err, c);
      c := CleanupStep(c, chain[k], answers, page);
    }
  }

  lemma CleanupDb(dbs: seq<Db>, answers: seq<Option<Error>>, x: Option<Error>, k: nat, page: Page)
    requires 0 < k <= |dbs| == |answers|
    ensures CleanupStep(ChainState(After(dbs, answers, x, k - 1), Closed(dbs, answers, x, k - 1), []), DbProvider(k - 1), answers, page)
         == ChainState(After(dbs, answers, x, k), Closed(dbs, answers, x, k), [])
  {
    hide End, Join, CloseError;
    assert Closed(dbs, answers, x, k - 1)[k - 1] == dbs[k - 1];
  }

  lemma ChainProviders(n: nat)
    ensures |Chain(n)| == n + 2 && ChainInRange(Chain(n), n)
    ensures Chain(n)[0] == XProvider && Chain(n)[n + 1] == RespProvider
    ensures forall i :: 0 <= i < n ==> Chain(n)[i + 1] == DbProvider(i)
  {
  }

  lemma {:induction false} CleanupRunDbs(c: ChainState, n: nat, k: nat, answers: seq<Option<Error>>, page: Page)
    requires |answers| == |c.dbs| == n && k <= n && c.effects == []
    ensures var x := XCleanup(c.err);
            CleanupRun(c, Chain(n), k + 1, answers, page)
            == ChainState(After(c.dbs, answers, x, k), Closed(c.dbs, answers, x, k), [])
  {
    ChainProviders(n);
    hide Chain, ChainInRange, XCleanup;
    if k == 0 {
      assert CleanupRun(c, Chain(n), 0, answers, page) == c;
      hide End, RespEffects;
    } else {
      hide CleanupStep, After, Closed, End, RespEffects;
      CleanupRunDbs(c, n, k - 1, answers, page);
      CleanupDb(c.dbs, answers, XCleanup(c.err), k, page);
    }
  }

  /** Over the chain of the buffering handler: X, then the databases in order, then the response. */
  lemma CleanupRunChain(c: ChainState, n: nat, answers: seq<Option<Error>>, page: Page)
    requires |answers| == |c.dbs| == n && c.effects == []
    ensures var x := XCleanup(c.err);
            var err := After(c.dbs, answers, x, n);
            CleanupRun(c, Chain(n), n + 2, answers, page)
            == ChainState(err, Closed(c.dbs, answers, x), RespEffects(page, err))
  {
    CleanupRunDbs(c, n, n, answers, page);
    assert Chain(n)[n + 1] == RespProvider;
  }

  /** http.Error */
  method SendErrorPage(w: ResponseWriter)
    modifies w
    ensures w.trace == old(w.trace) + ErrorPage
  {
    w.Do(WriteHeader(INTERNAL_SERVER_ERROR));
    w.Do(Write("internal server error\n"));
  }

  /** bufferingTemplateHandler */
  method HandleBuffered(dbs: seq<DotDB>, w: ResponseWriter, provider: Option<Error>, actions: seq<Action>,
                        execErr: Option<Error>, answers: seq<Option<Error>>, ghost v: seq<Db>)
    requires Distinct(dbs) && |answers| == |dbs| && FieldsInRange(actions, |dbs|) && At(dbs, v)
    modifies dbs, w
    ensures At(dbs, Handled(v, provider, actions, execErr, answers).dbs)
    ensures w.trace == old(w.trace) + Handled(v, provider, actions, execErr, answers).effects
  {
    hide Ran, Render, CleanupRun;
    if provider.Some? {
      SendErrorPage(w);
      return;
    }
    var page := Execute(dbs, actions, v);
    var err := Cleanup(Chain(|dbs|), dbs, answers, page, w, execErr, Ran(v, actions));
    if err.Some? {
      SendErrorPage(w);
      return;
    }
    w.Do(Write(page.body));
  }

  datatype Result = Result(dbs: seq<Db>, effects: seq<Effect>)

  /** The whole request as a function of what the template, the driver and the providers do. */
  function Handled(before: seq<Db>, provider: Option<Error>, actions: seq<Action>, execErr: Option<Error>,
                   answers: seq<Option<Error>>): Result
    requires |answers| == |before|
  {
    if provider.Some? then Result(before, ErrorPage)
    else
      var page, chain := Render(actions), Chain(|before|);
      var c := CleanupRun(ChainState(execErr, Ran(before, actions), []), chain, |chain|, answers, page);
      Result(c.dbs, c.effects + (if c.err.None? then [Write(page.body)] else ErrorPage))
  }

  lemma HandledClosed(before: seq<Db>, actions: seq<Action>, execErr: Option<Error>, answers: seq<Option<Error>>)
    requires |answers| == |before|
    ensures var mid, x, page := Ran(before, actions), XCleanup(execErr), Render(actions);
            var err := After(mid, answers, x, |mid|);
            Handled(before, None, actions, execErr, answers)
            == Result(Closed(mid, answers, x), RespEffects(page, err) + (if err.None? then [Write(page.body)] else ErrorPage))
  {
    CleanupRunChain(ChainState(execErr, Ran(before, actions), []), |before|, answers, Render(actions));
    assert |Chain(|before|)| == |before| + 2;
  }
}

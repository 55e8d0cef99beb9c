/** The pool of dot records (dot.go) under any interleaving of requests.  A record is a shared
    object: getting, zeroing, filling, using, cleaning up and putting it back are separate
    steps, and the pool may drop what it holds at any time. */
module DotPool {
  type Record = nat
  type RequestId = nat

  /** A field is zero, or holds a value that a provider made for one request, in the version
      its template has brought it to. */
  datatype Field = Zero | ValueFor(request: RequestId, provider: nat, version: nat)

  datatype Phase =
    | Got(rec: Record)                    // taken, not yet zeroed
    | Filling(rec: Record, filled: nat)     // the first filled fields are set
    | Failing(rec: Record)                // a provider returned an error
    | Executing(rec: Record)
    | Cleaning(rec: Record, ran: nat)     // the first ran cleanups have run
    | Zeroed(rec: Record)                 // zeroed, about to be put back
    | Finished

  datatype State = State(
    fields: nat,                          // number of providers
    cleanups: nat,                        // number of those with a cleanup
    pool: multiset<Record>,
    heap: map<Record, seq<Field>>,
    next: Record,
    requests: map<RequestId, Phase>)

  function Blank(n: nat): (r: seq<Field>)
    ensures |r| == n && forall i :: 0 <= i < n ==> r[i] == Zero
  {
    seq(n, i => Zero)
  }

  predicate InitState(s: State) {
    s.pool == multiset{} && s.heap == map[] && s.next == 0 && s.requests == map[]
  }

  datatype Step =
    | GetPooled(q: RequestId, r: Record)
    | GetNew(q: RequestId)
    | ZeroFirst(q: RequestId)
    | SetField(q: RequestId)
    | ProviderFails(q: RequestId)
    | ZeroFailed(q: RequestId)
    | Execute(q: RequestId)
    | MutateField(q: RequestId, i: nat, version: nat)
    | EndTemplate(q: RequestId)
    | RunCleanup(q: RequestId)
    | ZeroLast(q: RequestId)
    | Put(q: RequestId)
    | Drop(r: Record)

  function At(s: State, q: RequestId): Phase {
    if q in s.requests then s.requests[q] else Finished
  }

  predicate Enabled(s: State, step: Step) {
    match step
    case GetPooled(q, r) => q !in s.requests && r in s.pool
    case GetNew(q) => q !in s.requests
    case ZeroFirst(q) => At(s, q).Got?
    case SetField(q) => At(s, q).Filling? && At(s, q).filled < s.fields
    case ProviderFails(q) => At(s, q).Filling? && At(s, q).filled < s.fields
    case ZeroFailed(q) => At(s, q).Failing?
    case Execute(q) => At(s, q).Filling? && At(s, q).filled == s.fields
    case MutateField(q, i, _) => At(s, q).Executing? && i < s.fields
    case EndTemplate(q) => At(s, q).Executing?
    case RunCleanup(q) => At(s, q).Cleaning? && At(s, q).ran < s.cleanups
    case ZeroLast(q) => At(s, q).Cleaning? && At(s, q).ran == s.cleanups
    case Put(q) => At(s, q).Zeroed?
    case Drop(r) => r in s.pool
  }

  function Goto(s: State, q: RequestId, p: Phase): State {
    s.(requests := s.requests[q := p])
  }

  function Store(s: State, r: Record, fields: seq<Field>): State {
    s.(heap := s.heap[r := fields])
  }

  function Fields(s: State, r: Record): seq<Field> {
    if r in s.heap then s.heap[r] else []
  }

  function Write(fields: seq<Field>, i: nat, v: Field): (r: seq<Field>)
    ensures |r| == |fields|
  {
    if i < |fields| then fields[i := v] else fields
  }

  function Apply(s: State, step: Step): State
    requires Enabled(s, step)
  {
    match step
    case GetPooled(q, r) => Goto(s, q, Got(r)).(pool := s.pool - multiset{r})
    case GetNew(q) => Goto(Store(s, s.next, Blank(s.fields)), q, Got(s.next)).(next := s.next + 1)
    case ZeroFirst(q) => Goto(Store(s, At(s, q).rec, Blank(s.fields)), q, Filling(At(s, q).rec, 0))
    case SetField(q) =>
      var r, i := At(s, q).rec, At(s, q).filled;
      Goto(Store(s, r, Write(Fields(s, r), i, ValueFor(q, i, 0))), q, Filling(r, i + 1))
    case ProviderFails(q) => Goto(s, q, Failing(At(s, q).rec))
    case ZeroFailed(q) => Goto(Store(s, At(s, q).rec, Blank(s.fields)), q, Zeroed(At(s, q).rec))
    case Execute(q) => Goto(s, q, Executing(At(s, q).rec))
    case MutateField(q, i, version) => Store(s, At(s, q).rec, Write(Fields(s, At(s, q).rec), i, ValueFor(q, i, version)))
    case EndTemplate(q) => Goto(s, q, Cleaning(At(s, q).rec, 0))
    case RunCleanup(q) => Goto(s, q, Cleaning(At(s, q).rec, At(s, q).ran + 1))
    case ZeroLast(q) => Goto(Store(s, At(s, q).rec, Blank(s.fields)), q, Zeroed(At(s, q).rec))
    case Put(q) => Goto(s, q, Finished).(pool := s.pool + multiset{At(s, q).rec})
    case Drop(r) => s.(pool := s.pool - multiset{r})
  }

  ghost predicate Run(states: seq<State>, steps: seq<Step>) {
    && |states| == |steps| + 1
    && InitState(states[0])
    && forall i :: 0 <= i < |steps| ==> Enabled(states[i], steps[i]) && states[i + 1] == Apply(states[i], steps[i])
  }

  // ----- The invariant -----

  predicate Held(p: Phase) {
    !p.Finished?
  }

  predicate Holds(s: State, q: RequestId, r: Record) {
    q in s.requests && Held(s.requests[q]) && s.requests[q].rec == r
  }

  /** Records in use or pooled exist, and have one field per provider. */
  ghost predicate Allocated(s: State) {
    && (forall r :: r in s.heap ==> r < s.next && |s.heap[r]| == s.fields)
    && (forall r :: r in s.pool ==> r in s.heap)
    && (forall q :: q in s.requests && Held(s.requests[q]) ==> s.requests[q].rec in s.heap)
  }

  ghost predicate PoolBlank(s: State) {
    forall r :: r in s.pool ==> s.pool[r] == 1 && r in s.heap && s.heap[r] == Blank(s.fields)
  }

  /** No record is held twice, or held while pooled. */
  ghost predicate Exclusive(s: State) {
    && (forall q :: q in s.requests && Held(s.requests[q]) ==> s.requests[q].rec !in s.pool)
    && (forall q, q' :: q in s.requests && q' in s.requests && q != q' && Held(s.requests[q]) && Held(s.requests[q'])
                        ==> s.requests[q].rec != s.requests[q'].rec)
  }

  /** What a request can see in the record it holds. */
  ghost predicate Own(s: State, q: RequestId, p: Phase) {
    match p
    case Finished => true
    case Got(r) => r in s.heap && s.heap[r] == Blank(s.fields)
    case Zeroed(r) => r in s.heap && s.heap[r] == Blank(s.fields)
    case Filling(r, n) => FilledUpTo(s, q, r, n)
    case Failing(r) => r in s.heap && forall i :: 0 <= i < |s.heap[r]| ==> s.heap[r][i].Zero? || MadeFor(s.heap[r][i], q, i)
    case Executing(r) => FilledUpTo(s, q, r, s.fields)
    case Cleaning(r, _) => FilledUpTo(s, q, r, s.fields)
  }

  /** The i-th provider made this value, for this request. */
  predicate MadeFor(f: Field, q: RequestId, i: nat) {
    f.ValueFor? && f.request == q && f.provider == i
  }

  ghost predicate FilledUpTo(s: State, q: RequestId, r: Record, n: nat) {
    && r in s.heap && n <= s.fields == |s.heap[r]|
    && (forall i :: 0 <= i < n ==> MadeFor(s.heap[r][i], q, i))
    && (forall i :: n <= i < s.fields ==> s.heap[r][i].Zero?)
  }

  ghost predicate Inv(s: State) {
    && Allocated(s) && PoolBlank(s) && Exclusive(s)
    && forall q :: q in s.requests ==> Own(s, q, s.requests[q])
  }

  /** A step hands out only a pooled or a new record. */
  lemma HoldsBefore(s: State, step: Step, q: RequestId, r: Record)
    requires Inv(s) && Enabled(s, step) && Holds(Apply(s, step), q, r)
    ensures Holds(s, q, r) || step == GetPooled(q, r) || (step == GetNew(q) && r == s.next)
  {
    hide Inv, Blank, Write;
  }

  lemma HoldsStep(s: State, step: Step, q: RequestId, r: Record)
    requires Inv(s) && Enabled(s, step) && Holds(Apply(s, step), q, r)
    ensures Holds(s, q, r) || step == GetPooled(q, r) || (step == GetNew(q) && r == s.next)
    ensures r in Apply(s, step).heap && r !in Apply(s, step).pool
  {
    HoldsBefore(s, step, q, r);
    hide Own, Blank, Write;
    if Holds(s, q, r) && step.Put? {
      assert step.q != q && At(s, step.q).rec != r;
    }
  }

  lemma HeapStep(s: State, step: Step, r: Record)
    requires Allocated(s) && Enabled(s, step) && r in Apply(s, step).heap
    ensures r < Apply(s, step).next && |Apply(s, step).heap[r]| == Apply(s, step).fields
  {
    hide Blank, Write;
    if step.SetField? || step.MutateField? {
      assert At(s, step.q).rec in s.heap;
    }
  }

  lemma PoolHeapStep(s: State, step: Step, r: Record)
    requires Allocated(s) && Enabled(s, step) && r in Apply(s, step).pool
    ensures r in Apply(s, step).heap
  {
    hide Blank, Write;
  }

  lemma AllocatedStep(s: State, step: Step)
    requires Inv(s) && Enabled(s, step)
    ensures Allocated(Apply(s, step))
  {
    hide Apply, Own, PoolBlank, Exclusive;
    var s' := Apply(s, step);
    forall r | r in s'.heap
      ensures r < s'.next && |s'.heap[r]| == s'.fields
    {
      HeapStep(s, step, r);
    }
    forall r | r in s'.pool
      ensures r in s'.heap
    {
      PoolHeapStep(s, step, r);
    }
    forall q | q in s'.requests && Held(s'.requests[q])
      ensures s'.requests[q].rec in s'.heap
    {
      HoldsStep(s, step, q, s'.requests[q].rec);
    }
  }

  lemma PoolShrinks(s: State, step: Step, r: Record)
    requires Enabled(s, step) && !step.Put? && r in Apply(s, step).pool
    ensures r in s.pool && Apply(s, step).pool[r] <= s.pool[r]
  {
    hide Blank, Write;
  }

  /** A step writes only to the record that its request holds, or to a new one. */
  lemma Unheld(s: State, step: Step, r: Record)
    requires Enabled(s, step) && r < s.next && (step.Drop? || !Holds(s, step.q, r))
    ensures Fields(Apply(s, step), r) == Fields(s, r)
  {
    hide Blank, Write;
  }

  lemma PoolRecordStep(s: State, step: Step, r: Record)
    requires Inv(s) && Enabled(s, step) && r in Apply(s, step).pool
    ensures Apply(s, step).pool[r] == 1 && Fields(Apply(s, step), r) == Blank(s.fields)
  {
    if step.Put? {
      assert Own(s, step.q, s.requests[step.q]);
      hide Own, Blank, Write;
    } else {
      PoolShrinks(s, step, r);
      hide Own, Blank, Apply;
      assert !step.Drop? ==> !Holds(s, step.q, r);
      Unheld(s, step, r);
    }
  }

  lemma PoolStep(s: State, step: Step)
    requires Inv(s) && Enabled(s, step)
    ensures PoolBlank(Apply(s, step))
  {
    hide Apply, Allocated, Exclusive, Own, Blank;
    var s' := Apply(s, step);
    SameFields(s, step);
    forall r | r in s'.pool
      ensures s'.pool[r] == 1 && r in s'.heap && s'.heap[r] == Blank(s'.fields)
    {
      PoolRecordStep(s, step, r);
      PoolHeapStep(s, step, r);
    }
  }

  lemma SameFields(s: State, step: Step)
    requires Enabled(s, step)
    ensures Apply(s, step).fields == s.fields
  {
  }

  lemma ExclusiveStep(s: State, step: Step)
    requires Inv(s) && Enabled(s, step)
    ensures Exclusive(Apply(s, step))
  {
    hide Apply, PoolBlank, Own;
    var s' := Apply(s, step);
    forall q, r | Holds(s', q, r)
      ensures r !in s'.pool
    {
      HoldsStep(s, step, q, r);
    }
    forall q, q', r | q != q' && Holds(s', q, r)
      ensures !Holds(s', q', r)
    {
      HoldsStep(s, step, q, r);
      if Holds(s', q', r) {
        HoldsStep(s, step, q', r);
      }
    }
    assert forall q :: q in s'.requests && Held(s'.requests[q]) ==> Holds(s', q, s'.requests[q].rec);
  }

  /** A step leaves the records of other requests alone. */
  lemma OwnOthers(s: State, step: Step, q: RequestId)
    requires Inv(s) && Enabled(s, step) && q in s.requests && (step.Drop? || step.q != q)
    ensures q in Apply(s, step).requests && Apply(s, step).requests[q] == s.requests[q]
    ensures Held(s.requests[q]) ==> Fields(Apply(s, step), s.requests[q].rec) == Fields(s, s.requests[q].rec)
    ensures Apply(s, step).fields == s.fields && s.heap.Keys <= Apply(s, step).heap.Keys
  {
    hide PoolBlank, Own, Blank, Write;
    if !step.Drop? && step.q in s.requests && Held(s.requests[step.q]) && Held(s.requests[q]) {
      assert s.requests[step.q].rec != s.requests[q].rec;
    }
    hide Exclusive;
  }

  lemma SameRecord(s: State, s': State, q: RequestId, p: Phase)
    requires Own(s, q, p) && s'.fields == s.fields
    requires Held(p) ==> p.rec in s.heap && p.rec in s'.heap && s'.heap[p.rec] == s.heap[p.rec]
    ensures Own(s', q, p)
  {
  }

  lemma OwnFill(s: State, q: RequestId, r: Record, n: nat, i: nat, v: nat)
    requires FilledUpTo(s, q, r, n) && i <= n && i < s.fields
    ensures FilledUpTo(Store(s, r, Write(Fields(s, r), i, ValueFor(q, i, v))), q, r, if i == n then n + 1 else n)
  {
  }

  lemma OwnActor(s: State, step: Step)
    requires Inv(s) && Enabled(s, step) && !step.Drop?
    ensures Own(Apply(s, step), step.q, At(Apply(s, step), step.q))
  {
    hide Exclusive, Allocated;
    if step.GetPooled? || step.GetNew? {
      assert Apply(s, step).requests[step.q].Got?;
    } else {
      var q, p := step.q, s.requests[step.q];
      assert Own(s, q, p);
      hide PoolBlank, Blank, Inv;
      if step.SetField? || step.MutateField? {
        var n, i := if step.SetField? then p.filled else s.fields, if step.SetField? then p.filled else step.i;
        var v := if step.SetField? then 0 else step.version;
        OwnFill(s, q, p.rec, n, i, v);
        hide FilledUpTo, Write;
        OwnGoto(Store(s, p.rec, Write(Fields(s, p.rec), i, ValueFor(q, i, v))), q,
                if step.SetField? then Filling(p.rec, i + 1) else p);
      }
    }
  }

  lemma OwnGoto(s: State, q: RequestId, p: Phase)
    requires Own(s, q, p)
    ensures Own(Goto(s, q, p), q, p)
  {
  }

  lemma OwnStep(s: State, step: Step, q: RequestId)
    requires Inv(s) && Enabled(s, step) && q in Apply(s, step).requests
    ensures Own(Apply(s, step), q, Apply(s, step).requests[q])
  {
    if !step.Drop? && step.q == q {
      OwnActor(s, step);
    } else {
      assert q in s.requests;
      OwnOthers(s, step, q);
      hide Apply, Own, PoolBlank, Exclusive, Enabled;
      SameRecord(s, Apply(s, step), q, s.requests[q]);
    }
  }

  lemma InvStep(s: State, step: Step)
    requires Inv(s) && Enabled(s, step)
    ensures Inv(Apply(s, step))
  {
    AllocatedStep(s, step);
    PoolStep(s, step);
    ExclusiveStep(s, step);
    forall q | q in Apply(s, step).requests
      ensures Own(Apply(s, step), q, Apply(s, step).requests[q])
    {
      OwnStep(s, step, q);
    }
  }

  lemma {:induction false} RunInv(states: seq<State>, steps: seq<Step>, k: nat)
    requires Run(states, steps) && k <= |steps|
    ensures Inv(states[k])
  {
    if k > 0 {
      RunInv(states, steps, k - 1);
      InvStep(states[k - 1], steps[k - 1]);
    }
  }

  /** Pooled records are zero and pooled once; no record is held by two requests, or held
      while it is pooled. */
  lemma PoolDiscipline(states: seq<State>, steps: seq<Step>, k: nat)
    requires Run(states, steps) && k <= |steps|
    ensures PoolBlank(states[k]) && Exclusive(states[k])
  {
    RunInv(states, steps, k);
  }

  /** A field of a held record is zero or the value its own provider made for this request, on
      the failure path too; while the template runs none is zero. */
  lemma NoLeak(states: seq<State>, steps: seq<Step>, k: nat, q: RequestId, i: nat)
    requires Run(states, steps) && k <= |steps|
    requires q in states[k].requests && Held(states[k].requests[q])
    requires states[k].requests[q].rec in states[k].heap && i < |states[k].heap[states[k].requests[q].rec]|
    ensures var f := states[k].heap[states[k].requests[q].rec][i];
            && (f.Zero? || MadeFor(f, q, i))
            && (states[k].requests[q].Executing? ==> !f.Zero?)
  {
    RunInv(states, steps, k);
    assert Own(states[k], q, states[k].requests[q]);
  }

  // ----- No record is lost, no cleanup left out -----

  /** The record is pooled or held. */
  ghost predicate Kept(s: State, r: Record) {
    r in s.pool || exists q :: Holds(s, q, r)
  }

  lemma KeptStep(s: State, step: Step, r: Record)
    requires Enabled(s, step) && (Kept(s, r) || (step.GetNew? && r == s.next)) && step != Drop(r)
    ensures Kept(Apply(s, step), r)
  {
    hide Blank, Write;
    var s' := Apply(s, step);
    if step.GetNew? && r == s.next {
      assert Holds(s', step.q, r);
    } else if r in s.pool {
      assert step.GetPooled? && step.r == r ==> Holds(s', step.q, r);
    } else {
      var q :| Holds(s, q, r);
      HeldStep(s, step, q, r);
    }
  }

  lemma HeldStep(s: State, step: Step, q: RequestId, r: Record)
    requires Enabled(s, step) && Holds(s, q, r)
    ensures if step == Put(q) then r in Apply(s, step).pool else Holds(Apply(s, step), q, r)
  {
    hide Blank, Write;
  }

  lemma NewRecord(s: State, step: Step)
    requires Enabled(s, step)
    ensures Apply(s, step).next == s.next + if step.GetNew? then 1 else 0
  {
  }

  /** A record that is dropped, or lost before, is gone. */
  lemma GoneStep(s: State, step: Step, r: Record)
    requires Inv(s) && Enabled(s, step) && r < s.next && (step == Drop(r) || !Kept(s, r))
    ensures !Kept(Apply(s, step), r)
  {
    var s' := Apply(s, step);
    if r in s'.pool {
      PooledBefore(s, step, r);
    } else if Kept(s', r) {
      var q :| Holds(s', q, r);
      HeldBefore(s, step, q, r);
    }
  }

  lemma HeldBefore(s: State, step: Step, q: RequestId, r: Record)
    requires Inv(s) && Enabled(s, step) && r < s.next && Holds(Apply(s, step), q, r)
    ensures Kept(s, r) && step != Drop(r)
  {
    HoldsBefore(s, step, q, r);
    hide Own, Blank, Write, Allocated, Apply;
  }

  lemma PooledBefore(s: State, step: Step, r: Record)
    requires Inv(s) && Enabled(s, step) && r in Apply(s, step).pool
    ensures Kept(s, r) && step != Drop(r)
  {
    hide Own, Blank, Write, Allocated, Exclusive;
    if step.Put? && r !in s.pool {
      assert Holds(s, step.q, r);
    }
  }

  /** Every record ever made is in the pool or held by a request unless the pool dropped it:
      requests give back what they take, on the failure path too. */
  lemma {:induction false} NothingLost(states: seq<State>, steps: seq<Step>, k: nat, r: Record)
    requires Run(states, steps) && k <= |steps| && r < states[k].next
    ensures Kept(states[k], r) <==> Drop(r) !in steps[..k]
  {
    hide Apply, Enabled, Kept, Inv;
    if k > 0 {
      var s, step := states[k - 1], steps[k - 1];
      RunInv(states, steps, k - 1);
      assert Enabled(s, step) && states[k] == Apply(s, step);
      NewRecord(s, step);
      if r < s.next {
        NothingLost(states, steps, k - 1, r);
      } else {
        NotMadeYet(states, steps, k - 1, r);
      }
      hide Run;
      assert steps[..k] == steps[..k - 1] + [step];
      NothingLostStep(s, step, r, Drop(r) in steps[..k - 1]);
    }
  }

  lemma NothingLostStep(s: State, step: Step, r: Record, dropped: bool)
    requires Inv(s) && Enabled(s, step) && r < Apply(s, step).next
    requires if r < s.next then Kept(s, r) <==> !dropped else !dropped
    ensures Kept(Apply(s, step), r) <==> !dropped && step != Drop(r)
  {
    NewRecord(s, step);
    if r >= s.next {
      DroppedWasMade(s, step, r);
    }
    hide Apply, Enabled, Kept, Inv;
    if r < s.next && (step == Drop(r) || !Kept(s, r)) {
      GoneStep(s, step, r);
    } else {
      KeptStep(s, step, r);
    }
  }

  lemma DroppedWasMade(s: State, step: Step, r: Record)
    requires Inv(s) && Enabled(s, step) && r >= s.next
    ensures step != Drop(r)
  {
  }

  /** A record not made yet was not dropped either. */
  lemma {:induction false} NotMadeYet(states: seq<State>, steps: seq<Step>, k: nat, r: Record)
    requires Run(states, steps) && k <= |steps| && r >= states[k].next
    ensures Drop(r) !in steps[..k]
  {
    hide Apply, Enabled, Inv;
    if k > 0 {
      RunInv(states, steps, k - 1);
      NewRecord(states[k - 1], steps[k - 1]);
      NotMadeYet(states, steps, k - 1, r);
      DroppedWasMade(states[k - 1], steps[k - 1], r);
      hide Run;
      assert steps[..k] == steps[..k - 1] + [steps[k - 1]];
    }
  }

  /** What a template changes in a field is what the field then holds; the others keep theirs. */
  lemma MutationSeen(s: State, q: RequestId, i: nat, version: nat, j: nat)
    requires Inv(s) && Enabled(s, MutateField(q, i, version)) && j < s.fields
    ensures var r, s' := At(s, q).rec, Apply(s, MutateField(q, i, version));
            && At(s', q) == At(s, q) && j < |Fields(s, r)| == |Fields(s', r)|
            && Fields(s', r)[j] == if j == i then ValueFor(q, i, version) else Fields(s, r)[j]
  {
    assert Own(s, q, s.requests[q]);
  }

  function CleanupsRun(steps: seq<Step>, q: RequestId): nat {
    if steps == [] then 0
    else CleanupsRun(steps[..|steps| - 1], q) + if steps[|steps| - 1] == RunCleanup(q) then 1 else 0
  }

  /** How many cleanups have run, by where the request stands. */
  predicate CleanupsOk(s: State, q: RequestId, ran: nat, executed: bool) {
    if q !in s.requests then ran == 0 && !executed
    else
      match s.requests[q]
      case Executing(_) => ran == 0 && executed
      case Cleaning(_, n) => ran == n && executed
      case Zeroed(_) => ran == if executed then s.cleanups else 0
      case Finished => ran == if executed then s.cleanups else 0
      case _ => ran == 0 && !executed
  }

  lemma CleanupsStep(s: State, step: Step, q: RequestId, ran: nat, executed: bool)
    requires Enabled(s, step) && CleanupsOk(s, q, ran, executed)
    ensures CleanupsOk(Apply(s, step), q, if step == RunCleanup(q) then ran + 1 else ran, executed || step == Execute(q))
  {
    if step.Drop? || step.q != q {
      RequestsApart(s, step, q);
      hide Apply;
    } else {
      hide Apply, Enabled, CleanupsOk;
      if step.EndTemplate? || step.RunCleanup? || step.ZeroLast? || step.Put? {
        CleaningStep(s, step, ran, executed);
      } else {
        PreparingStep(s, step, ran, executed);
      }
    }
  }

  lemma CleaningStep(s: State, step: Step, ran: nat, executed: bool)
    requires step.EndTemplate? || step.RunCleanup? || step.ZeroLast? || step.Put?
    requires Enabled(s, step) && CleanupsOk(s, step.q, ran, executed)
    ensures CleanupsOk(Apply(s, step), step.q, if step.RunCleanup? then ran + 1 else ran, executed)
  {
    hide Blank, Write;
  }

  lemma PreparingStep(s: State, step: Step, ran: nat, executed: bool)
    requires !step.Drop? && !step.EndTemplate? && !step.RunCleanup? && !step.ZeroLast? && !step.Put?
    requires Enabled(s, step) && CleanupsOk(s, step.q, ran, executed)
    ensures CleanupsOk(Apply(s, step), step.q, ran, executed || step.Execute?)
  {
    hide Blank, Write;
  }

  /** A request is moved by its own steps only. */
  lemma RequestsApart(s: State, step: Step, q: RequestId)
    requires Enabled(s, step) && (step.Drop? || step.q != q)
    ensures var s' := Apply(s, step);
            && (q in s'.requests <==> q in s.requests) && (q in s.requests ==> s'.requests[q] == s.requests[q])
            && s'.cleanups == s.cleanups
  {
    hide Blank, Write;
  }

  predicate Executed(steps: seq<Step>, q: RequestId) {
    Execute(q) in steps
  }

  lemma CountSnoc(steps: seq<Step>, k: nat, q: RequestId)
    requires k < |steps|
    ensures CleanupsRun(steps[..k + 1], q) == CleanupsRun(steps[..k], q) + if steps[k] == RunCleanup(q) then 1 else 0
    ensures Executed(steps[..k + 1], q) <==> Executed(steps[..k], q) || steps[k] == Execute(q)
  {
    assert steps[..k + 1][..k] == steps[..k] && steps[..k + 1][k] == steps[k];
    assert steps[..k + 1] == steps[..k] + [steps[k]];
  }

  lemma CleanupsStart(s: State, steps: seq<Step>, q: RequestId)
    requires InitState(s)
    ensures CleanupsOk(s, q, CleanupsRun(steps[..0], q), Executed(steps[..0], q))
  {
  }

  lemma {:induction false} CleanupsCounted(states: seq<State>, steps: seq<Step>, k: nat, q: RequestId)
    requires Run(states, steps) && k <= |steps|
    ensures CleanupsOk(states[k], q, CleanupsRun(steps[..k], q), Executed(steps[..k], q))
  {
    hide CleanupsOk, Apply, Enabled, CleanupsRun, Executed;
    if k == 0 {
      CleanupsStart(states[0], steps, q);
    } else {
      CleanupsCounted(states, steps, k - 1, q);
      assert Enabled(states[k - 1], steps[k - 1]) && states[k] == Apply(states[k - 1], steps[k - 1]);
      hide Run;
      CountSnoc(steps, k - 1, q);
      CleanupsStep(states[k - 1], steps[k - 1], q, CleanupsRun(steps[..k - 1], q), Executed(steps[..k - 1], q));
    }
  }

  /** A request that has finished ran every cleanup once if its template was executed, and none
      if a provider failed. */
  lemma EveryCleanupRuns(states: seq<State>, steps: seq<Step>, k: nat, q: RequestId)
    requires Run(states, steps) && k <= |steps| && q in states[k].requests && states[k].requests[q].Finished?
    ensures CleanupsRun(steps[..k], q) == if Execute(q) in steps[..k] then states[k].cleanups else 0
  {
    CleanupsCounted(states, steps, k, q);
  }
}

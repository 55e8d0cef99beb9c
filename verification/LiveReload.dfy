/** The live-reload protocol (server.go, instance.go) as interleaved atomic steps: any number
    of goroutines call Reload and Stop, any number of requests are being served, the root
    context can be cancelled and other code in the process can take instance ids at any time. */
module LiveReload {
  import opened Wrappers

  type Thread = nat
  type RequestId = nat
  type Ctx = nat

  /** An *Instance, identified by its id, with the context it was built under. */
  datatype Instance = Instance(id: nat, ctx: Ctx)

  /** Where a goroutine stands inside Reload or Stop. */
  datatype PC =
    | Idle
    | ReloadLocked
    | ReloadLoaded(prev: Option<Instance>)
    | ReloadDerived(prev: Option<Instance>, ctx: Ctx)
    | ReloadBuilding(prev: Option<Instance>, next: Instance)
    | ReloadFailing(ctx: Ctx)
    | ReloadFailed(ctx: Ctx)
    | ReloadBuilt(prev: Option<Instance>, next: Instance)
    | ReloadSwapped(next: Instance)
    | ReloadCancelled(next: Instance)
    | ReloadDone(next: Instance)
    | StopLocked
    | StopCancelled
    | StopCleared
    | StopDone

  /** A request: the pointer it loaded, then what ServeHTTP made of it. */
  datatype Request = Loaded(on: Instance) | Refused(on: Instance) | Serving(on: Instance) | LoadedNil

  /** What has happened to the published instance, oldest first. */
  datatype Event = Published(inst: Instance) | StopBegun

  datatype Snapshot = Snapshot(instance: Option<Instance>, cancel: Option<Ctx>)

  datatype State = State(
    root: bool,                         // the root context is cancelled
    mutex: Option<Thread>,
    instance: Option<Instance>,         // the atomic pointer
    cancel: Option<Ctx>,                // the cancel function, by the context it cancels
    made: set<Ctx>,                     // contexts derived so far
    cancelled: set<Ctx>,                // contexts whose cancel function has been called
    nextCtx: nat,
    nextId: nat,
    pcs: map<Thread, PC>,
    requests: map<RequestId, Request>,
    log: seq<Event>,                    // history
    entry: Snapshot)                    // history: pointer and cancel when the mutex was last taken

  const Init := State(false, None, None, None, {}, {}, 0, 0, map[], map[], [], Snapshot(None, None))

  function At(s: State, t: Thread): PC {
    if t in s.pcs then s.pcs[t] else Idle
  }

  predicate Done(s: State, c: Ctx) {
    s.root || c in s.cancelled
  }

  datatype Step =
    | LockForReload(t: Thread)
    | LoadOld(t: Thread)
    | DeriveCtx(t: Thread)
    | TakeId(t: Thread)
    | BuildFails(t: Thread)
    | CancelOwn(t: Thread)
    | BuildSucceeds(t: Thread)
    | CompareAndSwap(t: Thread)
    | CancelOld(t: Thread)
    | StoreCancel(t: Thread)
    | LockForStop(t: Thread)
    | StopCancel(t: Thread)
    | StopClearCancel(t: Thread)
    | StopClearPointer(t: Thread)
    | Unlock(t: Thread)
    | CancelRoot
    | OtherInstance
    | RequestLoads(r: RequestId)
    | RequestChecks(r: RequestId)
    | RequestEnds(r: RequestId)

  predicate Enabled(s: State, step: Step) {
    match step
    case LockForReload(t) => At(s, t).Idle? && s.mutex.None?
    case LoadOld(t) => At(s, t).ReloadLocked?
    case DeriveCtx(t) => At(s, t).ReloadLoaded?
    case TakeId(t) => At(s, t).ReloadDerived?
    case BuildFails(t) => At(s, t).ReloadBuilding?
    case CancelOwn(t) => At(s, t).ReloadFailing?
    case BuildSucceeds(t) => At(s, t).ReloadBuilding?
    case CompareAndSwap(t) => At(s, t).ReloadBuilt?
    case CancelOld(t) => At(s, t).ReloadSwapped?
    case StoreCancel(t) => At(s, t).ReloadCancelled?
    case LockForStop(t) => At(s, t).Idle? && s.mutex.None?
    case StopCancel(t) => At(s, t).StopLocked?
    case StopClearCancel(t) => At(s, t).StopCancelled?
    case StopClearPointer(t) => At(s, t).StopCleared?
    case Unlock(t) => At(s, t).ReloadFailed? || At(s, t).ReloadDone? || At(s, t).StopDone?
    case CancelRoot => true
    case OtherInstance => true
    case RequestLoads(r) => r !in s.requests
    case RequestChecks(r) => r in s.requests && s.requests[r].Loaded?
    case RequestEnds(r) => r in s.requests && s.requests[r].Serving?
  }

  function Goto(s: State, t: Thread, pc: PC): State {
    s.(pcs := s.pcs[t := pc])
  }

  function Apply(s: State, step: Step): State
    requires Enabled(s, step)
  {
    match step
    case LockForReload(t) =>
      Goto(s, t, ReloadLocked).(mutex := Some(t), entry := Snapshot(s.instance, s.cancel))
    case LoadOld(t) => Goto(s, t, ReloadLoaded(s.instance))
    case DeriveCtx(t) =>
      Goto(s, t, ReloadDerived(At(s, t).prev, s.nextCtx)).(made := s.made + {s.nextCtx}, nextCtx := s.nextCtx + 1)
    case TakeId(t) =>
      Goto(s, t, ReloadBuilding(At(s, t).prev, Instance(s.nextId + 1, At(s, t).ctx))).(nextId := s.nextId + 1)
    case BuildFails(t) => Goto(s, t, ReloadFailing(At(s, t).next.ctx))
    case CancelOwn(t) =>
      Goto(s, t, ReloadFailed(At(s, t).ctx)).(cancelled := s.cancelled + {At(s, t).ctx})
    case BuildSucceeds(t) => Goto(s, t, ReloadBuilt(At(s, t).prev, At(s, t).next))
    case CompareAndSwap(t) =>
      // the result of the swap is ignored
      var swapped := Goto(s, t, ReloadSwapped(At(s, t).next));
      if s.instance == At(s, t).prev
      then swapped.(instance := Some(At(s, t).next), log := s.log + [Published(At(s, t).next)])
      else swapped
    case CancelOld(t) =>
      Goto(s, t, ReloadCancelled(At(s, t).next)).(cancelled := s.cancelled + Funcs(s.cancel))
    case StoreCancel(t) => Goto(s, t, ReloadDone(At(s, t).next)).(cancel := Some(At(s, t).next.ctx))
    case LockForStop(t) =>
      Goto(s, t, StopLocked).(mutex := Some(t), entry := Snapshot(s.instance, s.cancel), log := s.log + [StopBegun])
    case StopCancel(t) => Goto(s, t, StopCancelled).(cancelled := s.cancelled + Funcs(s.cancel))
    case StopClearCancel(t) => Goto(s, t, StopCleared).(cancel := None)
    case StopClearPointer(t) => Goto(s, t, StopDone).(instance := None)
    case Unlock(t) => Goto(s, t, Idle).(mutex := None)
    case CancelRoot => s.(root := true)
    case OtherInstance => s.(nextId := s.nextId + 1)
    case RequestLoads(r) =>
      s.(requests := s.requests[r := if s.instance.None? then LoadedNil else Loaded(s.instance.value)])
    case RequestChecks(r) =>
      var on := s.requests[r].on;
      s.(requests := s.requests[r := if Done(s, on.ctx) then Refused(on) else Serving(on)])
    case RequestEnds(r) => s.(requests := s.requests - {r})
  }

  function Funcs(cancel: Option<Ctx>): set<Ctx> {
    if cancel.None? then {} else {cancel.value}
  }

  /** states[i + 1] follows from states[i] by steps[i], starting from a server with no instance. */
  ghost predicate Run(states: seq<State>, steps: seq<Step>) {
    && |states| == |steps| + 1
    && states[0] == Init
    && forall i :: 0 <= i < |steps| ==> Enabled(states[i], steps[i]) && states[i + 1] == Apply(states[i], steps[i])
  }

  // ----- The invariant -----

  /** Ids of published instances, and of instances still being built, are bounded and increase. */
  ghost predicate LogOk(s: State) {
    && (forall i :: 0 <= i < |s.log| && s.log[i].Published? ==>
          s.log[i].inst.id <= s.nextId && s.log[i].inst.ctx in s.made)
    && (forall i, j :: 0 <= i < j < |s.log| && s.log[i].Published? && s.log[j].Published? ==>
          s.log[i].inst.id < s.log[j].inst.id && s.log[i].inst.ctx < s.log[j].inst.ctx)
    && (forall i :: 0 <= i < |s.log| && s.log[i].Published? && s.log[i].inst.ctx in s.cancelled ==> i < |s.log| - 1)
  }

  /** The pointer is the newest published instance, or nil: at first, or with a Stop since the
      last publication. */
  ghost predicate PointerOk(s: State) {
    && (s.instance.None? ==> s.log == [] || s.log[|s.log| - 1].StopBegun?)
    && (s.instance.Some? ==>
          && Published(s.instance.value) in s.log
          && forall i :: 0 <= i < |s.log| && s.log[i].Published? ==> s.log[i].inst.id <= s.instance.value.id)
  }

  ghost predicate IsFresh(s: State, inst: Instance) {
    && IsFreshCtx(s, inst.ctx)
    && inst.id <= s.nextId
    && (forall i :: 0 <= i < |s.log| && s.log[i].Published? ==> s.log[i].inst.id < inst.id)
  }

  ghost predicate IsFreshCtx(s: State, c: Ctx) {
    && c in s.made && c !in s.cancelled && s.cancel != Some(c)
    && (forall i :: 0 <= i < |s.log| && s.log[i].Published? ==> s.log[i].inst.ctx < c)
  }

  /** Contexts derived and not cancelled. */
  function Live(s: State): set<Ctx> {
    s.made - s.cancelled
  }

  /** What the mutex protects, as it stands between two critical sections. */
  ghost predicate Settled(s: State) {
    && (s.instance.None? <==> s.cancel.None?)
    && (s.instance.Some? ==> s.cancel == Some(s.instance.value.ctx) && s.log != [] && s.log[|s.log| - 1] == Published(s.instance.value))
    && Live(s) == Funcs(s.cancel)
  }

  ghost predicate Untouched(s: State) {
    s.instance == s.entry.instance && s.cancel == s.entry.cancel
  }

  /** The same, relative to where the holder of the mutex stands. */
  ghost predicate HolderOk(s: State, pc: PC) {
    match pc
    case Idle => false
    case ReloadLocked => Settled(s) && Untouched(s)
    case ReloadLoaded(prev) => Settled(s) && Untouched(s) && prev == s.instance
    case ReloadDerived(prev, ctx) => Pending(s, ctx) && prev == s.instance && IsFreshCtx(s, ctx)
    case ReloadBuilding(prev, next) => Pending(s, next.ctx) && prev == s.instance && IsFresh(s, next)
    case ReloadFailing(ctx) => Pending(s, ctx) && IsFreshCtx(s, ctx)
    case ReloadFailed(ctx) => Settled(s) && Untouched(s) && ctx in s.cancelled
    case ReloadBuilt(prev, next) => Pending(s, next.ctx) && prev == s.instance && IsFresh(s, next)
    case ReloadSwapped(next) => Swapped(s, next) && Live(s) == Funcs(s.cancel) + {next.ctx} && s.cancel != Some(next.ctx)
    case ReloadCancelled(next) => Swapped(s, next) && Live(s) == {next.ctx}
    case ReloadDone(next) => Settled(s) && s.instance == Some(next)
    case StopLocked =>
      && Live(s) == Funcs(s.cancel) && StopIsLast(s)
      && (s.instance.Some? ==> s.cancel == Some(s.instance.value.ctx))
    case StopCancelled => Live(s) == {} && StopIsLast(s)
    case StopCleared => Live(s) == {} && s.cancel.None? && StopIsLast(s)
    case StopDone => Live(s) == {} && s.cancel.None? && s.instance.None?
  }

  ghost predicate StopIsLast(s: State) {
    s.log != [] && s.log[|s.log| - 1].StopBegun?
  }

  ghost predicate Pending(s: State, c: Ctx) {
    && Untouched(s)
    && (s.instance.None? <==> s.cancel.None?)
    && (s.instance.Some? ==> s.cancel == Some(s.instance.value.ctx) && s.log != [] && s.log[|s.log| - 1] == Published(s.instance.value))
    && Live(s) == Funcs(s.cancel) + {c}
  }

  ghost predicate Swapped(s: State, next: Instance) {
    s.instance == Some(next) && s.log != [] && s.log[|s.log| - 1] == Published(next) && next.ctx !in s.cancelled
  }

  ghost predicate LockOk(s: State) {
    && (s.mutex.None? ==> Settled(s))
    && (s.mutex.Some? ==> HolderOk(s, At(s, s.mutex.value)))
    && (forall t: Thread :: !At(s, t).Idle? ==> s.mutex == Some(t))
  }

  ghost predicate RequestsOk(s: State) {
    forall r :: r in s.requests && !s.requests[r].LoadedNil? ==>
                  && Published(s.requests[r].on) in s.log
                  && (s.requests[r].Refused? ==> s.root || Superseded(s, s.requests[r].on))
  }

  /** The publication of this instance is not the last thing that happened. */
  ghost predicate Superseded(s: State, inst: Instance) {
    s.log != [] && s.log[|s.log| - 1] != Published(inst)
  }

  ghost predicate Bounded(s: State) {
    (forall c :: c in s.made ==> c < s.nextCtx) && s.cancelled <= s.made
  }

  ghost predicate Inv(s: State) {
    Bounded(s) && LogOk(s) && PointerOk(s) && LockOk(s) && RequestsOk(s)
  }

  predicate ReloadStep(step: Step) {
    step.LockForReload? || step.LoadOld? || step.DeriveCtx? || step.TakeId? || step.BuildFails? ||
    step.CancelOwn? || step.BuildSucceeds? || step.CompareAndSwap? || step.CancelOld? || step.StoreCancel?
  }

  /** Only the holder of the mutex is inside Reload or Stop. */
  lemma ExclusionStep(s: State, step: Step)
    requires Inv(s) && Enabled(s, step)
    ensures forall t: Thread :: !At(Apply(s, step), t).Idle? ==> Apply(s, step).mutex == Some(t)
  {
  }

  lemma HolderReloadStep(s: State, step: Step)
    requires Inv(s) && Enabled(s, step) && ReloadStep(step)
    ensures HolderOk(Apply(s, step), At(Apply(s, step), step.t)) && Apply(s, step).mutex == Some(step.t)
  {
    hide RequestsOk, PointerOk;
    if step.LockForReload? || step.LoadOld? || step.DeriveCtx? || step.TakeId? || step.BuildFails? || step.BuildSucceeds? {
      BuildingStep(s, step);
    } else {
      assert s.mutex == Some(step.t);
      SwappingStep(s, step);
    }
  }

  lemma BuildingStep(s: State, step: Step)
    requires Bounded(s) && LogOk(s) && LockOk(s) && Enabled(s, step)
    requires step.LockForReload? || step.LoadOld? || step.DeriveCtx? || step.TakeId? || step.BuildFails? || step.BuildSucceeds?
    ensures HolderOk(Apply(s, step), At(Apply(s, step), step.t)) && Apply(s, step).mutex == Some(step.t)
  {
  }

  lemma SwappingStep(s: State, step: Step)
    requires step.CancelOwn? || step.CompareAndSwap? || step.CancelOld? || step.StoreCancel?
    requires HolderOk(s, At(s, step.t)) && s.mutex == Some(step.t) && Enabled(s, step)
    ensures HolderOk(Apply(s, step), At(Apply(s, step), step.t)) && Apply(s, step).mutex == Some(step.t)
  {
  }

  lemma HolderStopStep(s: State, step: Step)
    requires Inv(s) && Enabled(s, step)
    requires step.LockForStop? || step.StopCancel? || step.StopClearCancel? || step.StopClearPointer?
    ensures HolderOk(Apply(s, step), At(Apply(s, step), step.t)) && Apply(s, step).mutex == Some(step.t)
  {
  }

  lemma UnlockStep(s: State, t: Thread)
    requires Inv(s) && Enabled(s, Unlock(t))
    ensures Settled(Apply(s, Unlock(t)))
  {
    assert s.mutex == Some(t);
  }

  predicate SameShared(s: State, s': State) {
    && s'.instance == s.instance && s'.cancel == s.cancel && s'.made == s.made && s'.cancelled == s.cancelled
    && s'.log == s.log && s'.entry == s.entry && s'.nextId >= s.nextId
  }

  lemma SameSharedHolder(s: State, s': State, pc: PC)
    requires SameShared(s, s')
    ensures Settled(s) ==> Settled(s')
    ensures HolderOk(s, pc) ==> HolderOk(s', pc)
  {
    assert Live(s') == Live(s);
    assert Untouched(s') == Untouched(s);
    if pc.ReloadBuilding? || pc.ReloadBuilt? {
      assert IsFresh(s, pc.next) ==> IsFresh(s', pc.next);
    }
  }

  /** Steps outside Reload and Stop leave alone all that the mutex protects. */
  lemma PassiveStep(s: State, step: Step)
    requires Inv(s) && Enabled(s, step)
    requires step.CancelRoot? || step.OtherInstance? || step.RequestLoads? || step.RequestChecks? || step.RequestEnds?
    ensures SameShared(s, Apply(s, step)) && Apply(s, step).mutex == s.mutex && Apply(s, step).pcs == s.pcs
  {
  }

  lemma LockStep(s: State, step: Step)
    requires Inv(s) && Enabled(s, step)
    ensures LockOk(Apply(s, step))
  {
    ExclusionStep(s, step);
    if ReloadStep(step) {
      HolderReloadStep(s, step);
    } else if step.LockForStop? || step.StopCancel? || step.StopClearCancel? || step.StopClearPointer? {
      HolderStopStep(s, step);
    } else if step.Unlock? {
      UnlockStep(s, step.t);
    } else {
      PassiveStep(s, step);
      SameSharedHolder(s, Apply(s, step), At(s, if s.mutex.Some? then s.mutex.value else 0));
    }
  }

  lemma LogStep(s: State, step: Step)
    requires Inv(s) && Enabled(s, step)
    ensures LogOk(Apply(s, step))
  {
    hide RequestsOk, PointerOk;
    if step.CompareAndSwap? || step.CancelOld? || step.LockForStop? || step.StopCancel? || step.CancelOwn? {
      LogActive(s, step);
    } else {
      hide LockOk, LogOk;
      LogSame(s, Apply(s, step));
    }
  }

  lemma LogSame(s: State, s': State)
    requires LogOk(s) && s'.log == s.log && s'.cancelled == s.cancelled && s'.nextId >= s.nextId && s.made <= s'.made
    ensures LogOk(s')
  {
  }

  lemma LogActive(s: State, step: Step)
    requires Bounded(s) && LogOk(s) && LockOk(s) && Enabled(s, step)
    requires step.CompareAndSwap? || step.CancelOld? || step.LockForStop? || step.StopCancel? || step.CancelOwn?
    ensures LogOk(Apply(s, step))
  {
    hide Settled;
  }

  lemma PointerStep(s: State, step: Step)
    requires Inv(s) && Enabled(s, step)
    ensures PointerOk(Apply(s, step))
  {
    hide RequestsOk;
    if step.CompareAndSwap? {
      SwapNewer(s, step);
      hide LockOk, LogOk;
    } else if step.StopClearPointer? {
      assert s.mutex == Some(step.t);
    } else {
      hide LockOk, LogOk;
    }
  }

  lemma BoundedStep(s: State, step: Step)
    requires Inv(s) && Enabled(s, step)
    ensures Bounded(Apply(s, step))
  {
  }

  /** A refused request stays explained: a later publication is of a newer instance. */
  lemma RequestsGrow(s: State, s': State)
    requires RequestsOk(s) && LogOk(s) && s'.requests == s.requests && (s.root ==> s'.root)
    requires s.log <= s'.log && |s'.log| <= |s.log| + 1
    requires |s'.log| > |s.log| && s'.log[|s.log|].Published? ==>
               forall i :: 0 <= i < |s.log| && s.log[i].Published? ==> s.log[i].inst.id < s'.log[|s.log|].inst.id
    ensures RequestsOk(s')
  {
    forall r | r in s'.requests && !s'.requests[r].LoadedNil?
      ensures Published(s'.requests[r].on) in s'.log
      ensures s'.requests[r].Refused? ==> s'.root || Superseded(s', s'.requests[r].on)
    {
      var i :| 0 <= i < |s.log| && s.log[i] == Published(s.requests[r].on);
      assert s'.log[i] == s.log[i];
    }
  }

  ghost predicate RequestOk(s: State, q: Request) {
    q.LoadedNil? || (Published(q.on) in s.log && (q.Refused? ==> s.root || Superseded(s, q.on)))
  }

  /** What a request loads is published, and what it is refused for is superseded. */
  lemma RequestMoves(s: State, step: Step)
    requires LogOk(s) && PointerOk(s) && RequestsOk(s) && Enabled(s, step) && (step.RequestLoads? || step.RequestChecks?)
    ensures step.r in Apply(s, step).requests && RequestOk(s, Apply(s, step).requests[step.r])
  {
    if step.RequestChecks? {
      hide PointerOk;
      var on := s.requests[step.r].on;
      var i :| 0 <= i < |s.log| && s.log[i] == Published(on);
      assert on.ctx in s.cancelled ==> i < |s.log| - 1;
      hide RequestsOk;
    } else {
      hide LogOk, RequestsOk;
    }
  }

  lemma RequestsMove(s: State, step: Step)
    requires LogOk(s) && PointerOk(s) && RequestsOk(s) && Enabled(s, step)
    requires step.RequestLoads? || step.RequestChecks? || step.RequestEnds?
    ensures RequestsOk(Apply(s, step))
  {
    if !step.RequestEnds? {
      RequestMoves(s, step);
    }
    hide LogOk, PointerOk, Superseded;
    var s' := Apply(s, step);
    assert s'.log == s.log && s'.root == s.root;
    assert forall r :: r in s'.requests && r != step.r ==> r in s.requests && s'.requests[r] == s.requests[r];
  }

  lemma RequestsStep(s: State, step: Step)
    requires Inv(s) && Enabled(s, step)
    ensures RequestsOk(Apply(s, step))
  {
    if step.RequestLoads? || step.RequestChecks? || step.RequestEnds? {
      hide LockOk, RequestsOk, LogOk, PointerOk, Apply;
      RequestsMove(s, step);
    } else {
      SwapNewer(s, step);
      hide RequestsOk, LogOk, LockOk, PointerOk;
      RequestsGrow(s, Apply(s, step));
    }
  }

  /** The instance being built is newer than all published ones. */
  lemma SwapNewer(s: State, step: Step)
    requires Inv(s) && Enabled(s, step)
    ensures step.CompareAndSwap? ==>
              forall i :: 0 <= i < |s.log| && s.log[i].Published? ==> s.log[i].inst.id < At(s, step.t).next.id
  {
    hide RequestsOk, LogOk, PointerOk;
    assert step.CompareAndSwap? ==> s.mutex == Some(step.t);
  }

  lemma InvStep(s: State, step: Step)
    requires Inv(s) && Enabled(s, step)
    ensures Inv(Apply(s, step))
  {
    BoundedStep(s, step);
    LogStep(s, step);
    PointerStep(s, step);
    LockStep(s, step);
    RequestsStep(s, step);
  }

  lemma {:induction false} RunInv(states: seq<State>, steps: seq<Step>, k: nat)
    requires Run(states, steps) && k <= |steps|
    ensures Inv(states[k])
  {
    hide Inv, Apply, Enabled;
    if k == 0 {
      InitInv();
    } else {
      RunInv(states, steps, k - 1);
      InvStep(states[k - 1], steps[k - 1]);
    }
  }

  lemma InitInv()
    ensures Inv(Init)
  {
  }

  // ----- What holds in every reachable state -----

  /** The swap, whose result Reload ignores, never fails. */
  lemma SwapSucceeds(states: seq<State>, steps: seq<Step>, k: nat)
    requires Run(states, steps) && k < |steps| && steps[k].CompareAndSwap?
    ensures states[k + 1].instance == Some(At(states[k], steps[k].t).next)
    ensures states[k + 1].log == states[k].log + [Published(At(states[k], steps[k].t).next)]
  {
    hide Bounded, LogOk, PointerOk, RequestsOk;
    RunInv(states, steps, k);
    assert states[k].mutex == Some(steps[k].t);
  }

  /** With the mutex free, pointer and cancel function are both nil and every context ever
      derived is cancelled, or cancel belongs to the published instance, whose context is
      the only one not cancelled. */
  lemma FreeMutexSettled(states: seq<State>, steps: seq<Step>, k: nat)
    requires Run(states, steps) && k <= |steps| && states[k].mutex.None?
    ensures var s := states[k];
            if s.instance.None? then s.cancel.None? && s.made == s.cancelled
            else s.cancel == Some(s.instance.value.ctx) && s.made - s.cancelled == {s.instance.value.ctx}
  {
    RunInv(states, steps, k);
    if states[k].instance.None? {
      assert Live(states[k]) == {};
      assert forall c :: c in states[k].made ==> c in states[k].cancelled || c in Live(states[k]);
    }
  }

  lemma AtMostTwoLive(states: seq<State>, steps: seq<Step>, k: nat)
    requires Run(states, steps) && k <= |steps|
    ensures |states[k].made - states[k].cancelled| <= 2
  {
    RunInv(states, steps, k);
    hide Run, Bounded, LogOk, PointerOk, RequestsOk, IsFresh, IsFreshCtx, Untouched;
    var s := states[k];
    var held := if s.mutex.Some? then s.mutex.value else 0;
    var extra := match At(s, held)
      case ReloadDerived(_, c) => c
      case ReloadBuilding(_, n) => n.ctx
      case ReloadFailing(c) => c
      case ReloadBuilt(_, n) => n.ctx
      case ReloadSwapped(n) => n.ctx
      case ReloadCancelled(n) => n.ctx
      case _ => if s.cancel.Some? then s.cancel.value else 0;
    var own := if s.cancel.Some? then s.cancel.value else extra;
    assert Live(s) <= {extra, own};
    SubsetSize(Live(s), {extra, own});
  }

  lemma {:induction false} SubsetSize(a: set<Ctx>, b: set<Ctx>)
    requires a <= b
    ensures |a| <= |b|
  {
    if a != {} {
      var x :| x in a;
      SubsetSize(a - {x}, b - {x});
    }
  }

  /** Ids of published instances strictly increase, so no instance is published twice. */
  lemma PublishedIdsIncrease(states: seq<State>, steps: seq<Step>, k: nat, i: nat, j: nat)
    requires Run(states, steps) && k <= |steps|
    requires i < j < |states[k].log| && states[k].log[i].Published? && states[k].log[j].Published?
    ensures states[k].log[i].inst.id < states[k].log[j].inst.id
  {
    RunInv(states, steps, k);
  }

  /** A request is refused with "server stopped" only if the root context is cancelled, or
      after its instance was published a newer one was, or a Stop began. */
  lemma RefusalsExplained(states: seq<State>, steps: seq<Step>, k: nat, r: RequestId)
    returns (i: nat, j: nat)
    requires Run(states, steps) && k <= |steps|
    requires r in states[k].requests && states[k].requests[r].Refused?
    ensures states[k].root || (
              var log, on := states[k].log, states[k].requests[r].on;
              && i < j < |log| && log[i] == Published(on)
              && (log[j].StopBegun? || log[j].inst.id > on.id))
  {
    RunInv(states, steps, k);
    var log, on := states[k].log, states[k].requests[r].on;
    i :| 0 <= i < |log| && log[i] == Published(on);
    j := |log| - 1;
  }

  /** The pointer is nil only before the first publication, or when a Stop has begun since the last. */
  lemma NilExplained(states: seq<State>, steps: seq<Step>, k: nat)
    requires Run(states, steps) && k <= |steps| && states[k].instance.None?
    ensures states[k].log == [] || states[k].log[|states[k].log| - 1].StopBegun?
  {
    RunInv(states, steps, k);
  }

  // ----- What holds from one state of a run to a later one -----

  ghost predicate Later(s: State, s': State) {
    && s.log <= s'.log
    && s.cancelled <= s'.cancelled
    && (s.root ==> s'.root)
    && (s'.instance.Some? && s'.instance != s.instance ==>
          forall i :: 0 <= i < |s.log| && s.log[i].Published? ==> s.log[i].inst.id < s'.instance.value.id)
  }

  lemma LaterStep(s: State, step: Step)
    requires Inv(s) && Enabled(s, step)
    ensures Later(s, Apply(s, step))
  {
  }

  lemma LaterReflexive(s: State)
    ensures Later(s, s)
  {
  }

  lemma LaterTransitive(a: State, b: State, c: State)
    requires Later(a, b) && Later(b, c)
    ensures Later(a, c)
  {
    assert forall n :: 0 <= n < |a.log| ==> a.log[n] == b.log[n];
  }

  lemma {:induction false} RunLater(states: seq<State>, steps: seq<Step>, i: nat, j: nat)
    requires Run(states, steps) && i <= j <= |steps|
    ensures Later(states[i], states[j])
    decreases j - i
  {
    hide Later, Inv, Apply, Enabled;
    if i == j {
      LaterReflexive(states[i]);
    } else {
      RunLater(states, steps, i, j - 1);
      RunInv(states, steps, j - 1);
      LaterStep(states[j - 1], steps[j - 1]);
      LaterTransitive(states[i], states[j - 1], states[j]);
    }
  }

  /** Once the pointer has moved away from an instance it never points to it again. */
  lemma ReplacedNeverReturns(states: seq<State>, steps: seq<Step>, i: nat, j: nat, k: nat, inst: Instance)
    requires Run(states, steps) && i <= j <= k <= |steps|
    requires states[i].instance == Some(inst) && states[j].instance != Some(inst)
    ensures states[k].instance != Some(inst)
  {
    RunInv(states, steps, i);
    RunLater(states, steps, i, j);
    RunLater(states, steps, j, k);
    var n :| 0 <= n < |states[i].log| && states[i].log[n] == Published(inst);
    assert states[j].log[n] == Published(inst);
  }

  /** After a successful Reload, every instance published before is cancelled for good: a
      request still on one of them has its server context done. */
  lemma OlderInstancesDone(states: seq<State>, steps: seq<Step>, i: nat, k: nat, t: Thread, r: RequestId)
    requires Run(states, steps) && i <= k <= |steps|
    requires At(states[i], t).ReloadDone?
    requires r in states[k].requests && !states[k].requests[r].LoadedNil?
    requires states[k].requests[r].on.id < At(states[i], t).next.id
    ensures Done(states[k], states[k].requests[r].on.ctx)
  {
    RunInv(states, steps, i);
    RunInv(states, steps, k);
    RunLater(states, steps, i, k);
    var next, on := At(states[i], t).next, states[k].requests[r].on;
    var n := |states[i].log| - 1;
    assert states[k].log[n] == Published(next);
    var m :| 0 <= m < |states[k].log| && states[k].log[m] == Published(on);
    assert m < n;
    assert states[i].log[m] == Published(on);
    assert on.ctx in states[i].made && on.ctx !in Live(states[i]);
  }

  /** After a successful Reload, subsequent requests are handled by the new instance or a newer
      one; only a Stop that begins after it leaves them without any. */
  lemma SubsequentRequestsNewer(states: seq<State>, steps: seq<Step>, i: nat, k: nat, t: Thread, r: RequestId)
    requires Run(states, steps) && i <= k < |steps| && At(states[i], t).ReloadDone? && steps[k] == RequestLoads(r)
    ensures r in states[k + 1].requests && states[i].log <= states[k].log
    ensures match states[k + 1].requests[r]
            case Loaded(on) => on.id >= At(states[i], t).next.id
            case LoadedNil => StopBegun in states[k].log[|states[i].log|..]
            case _ => false
  {
    RunInv(states, steps, i);
    RunInv(states, steps, k);
    RunLater(states, steps, i, k);
    var n := |states[i].log| - 1;
    assert states[k].log[n] == Published(At(states[i], t).next);
    var later := states[k].log[|states[i].log|..];
    assert later != [] ==> later[|later| - 1] == states[k].log[|states[k].log| - 1];
  }

  /** This step cancels the context of a published instance, if it is not cancelled yet: Stop
      does, and Reload after it has published a newer one. */
  ghost predicate Withdraws(s: State, step: Step, inst: Instance) {
    (step.StopCancel? || step.CancelOld?) && Published(inst) in s.log && Superseded(s, inst)
  }

  lemma WithdrawStep(s: State, step: Step, inst: Instance)
    requires Inv(s) && Enabled(s, step) && Published(inst) in s.log
    ensures inst.ctx in Apply(s, step).cancelled <==> inst.ctx in s.cancelled || Withdraws(s, step, inst)
  {
    hide RequestsOk, PointerOk, Bounded;
    if step.StopCancel? || step.CancelOld? || step.CancelOwn? {
      assert s.mutex == Some(step.t);
      hide Apply;
      CancellingStep(s, step, inst);
    } else {
      hide LockOk, LogOk;
    }
  }

  lemma CancellingStep(s: State, step: Step, inst: Instance)
    requires LogOk(s) && Enabled(s, step) && Published(inst) in s.log
    requires (step.StopCancel? || step.CancelOld? || step.CancelOwn?) && HolderOk(s, At(s, step.t))
    ensures inst.ctx in Apply(s, step).cancelled <==> inst.ctx in s.cancelled || Withdraws(s, step, inst)
  {
    var i :| 0 <= i < |s.log| && s.log[i] == Published(inst);
    assert inst.ctx in s.made;
    assert inst.ctx in Live(s) <==> inst.ctx !in s.cancelled;
  }

  lemma PublishedUncancelled(s: State, step: Step, inst: Instance)
    requires Inv(s) && Enabled(s, step) && Published(inst) !in s.log && Published(inst) in Apply(s, step).log
    ensures inst.ctx !in Apply(s, step).cancelled
  {
    assert step.CompareAndSwap? && s.mutex == Some(step.t);
  }

  /** A published instance's context is cancelled if and only if a step has withdrawn it. */
  lemma {:induction false} CancelledIff(states: seq<State>, steps: seq<Step>, k: nat, inst: Instance)
    requires Run(states, steps) && k <= |steps| && Published(inst) in states[k].log
    ensures inst.ctx in states[k].cancelled <==> exists m :: 0 <= m < k && Withdraws(states[m], steps[m], inst)
  {
    hide Inv, Apply, Enabled, Withdraws;
    if k > 0 {
      RunInv(states, steps, k - 1);
      if Published(inst) in states[k - 1].log {
        CancelledIff(states, steps, k - 1, inst);
        WithdrawStep(states[k - 1], steps[k - 1], inst);
      } else {
        PublishedUncancelled(states[k - 1], steps[k - 1], inst);
        forall m | 0 <= m < k
          ensures !Withdraws(states[m], steps[m], inst)
        {
          RunLater(states, steps, m, k - 1);
          NotYetPublished(states[m], states[k - 1], steps[m], inst);
        }
      }
    }
  }

  lemma NotYetPublished(s: State, s': State, step: Step, inst: Instance)
    requires Later(s, s') && Published(inst) !in s'.log
    ensures !Withdraws(s, step, inst)
  {
    assert forall i :: 0 <= i < |s.log| ==> s.log[i] == s'.log[i];
  }

  /** A request is refused with "server stopped" if and only if the root context is cancelled,
      or Stop has called cancel since its instance was published, or Reload has, for a newer
      instance.  Otherwise it is served. */
  lemma RefusedIff(states: seq<State>, steps: seq<Step>, k: nat, r: RequestId)
    requires Run(states, steps) && k < |steps| && steps[k] == RequestChecks(r)
    ensures r in states[k + 1].requests
    ensures var on := states[k].requests[r].on;
            var withdrawn := exists m :: 0 <= m < k && Withdraws(states[m], steps[m], on);
            states[k + 1].requests[r] == if states[k].root || withdrawn then Refused(on) else Serving(on)
  {
    RunInv(states, steps, k);
    CancelledIff(states, steps, k, states[k].requests[r].on);
  }

  /** A Stop has called cancel and not cleared the pointer yet. */
  predicate Stopping(s: State) {
    s.mutex.Some? && (At(s, s.mutex.value).StopCancelled? || At(s, s.mutex.value).StopCleared?)
  }

  /** A request that holds the current instance is refused if and only if the root context is
      cancelled or a Stop is between calling cancel and clearing the pointer: a Reload, at
      whatever point it stands, refuses none. */
  lemma CurrentIsServed(states: seq<State>, steps: seq<Step>, k: nat, r: RequestId)
    requires Run(states, steps) && k < |steps| && steps[k] == RequestChecks(r)
    requires states[k].instance == Some(states[k].requests[r].on)
    ensures r in states[k + 1].requests
    ensures var on := states[k].requests[r].on;
            states[k + 1].requests[r] == if states[k].root || Stopping(states[k]) then Refused(on) else Serving(on)
  {
    RunInv(states, steps, k);
    CurrentCancelled(states[k]);
  }

  lemma CurrentCancelled(s: State)
    requires Inv(s) && s.instance.Some?
    ensures s.instance.value.ctx in s.cancelled <==> Stopping(s)
  {
    hide RequestsOk, IsFresh, IsFreshCtx, Untouched;
    var c := s.instance.value.ctx;
    var i :| 0 <= i < |s.log| && s.log[i] == Published(s.instance.value);
    assert c in s.made;
    assert c in Live(s) <==> c !in s.cancelled;
  }

  /** After a successful Reload, a request that still holds an older instance is refused. */
  lemma StaleIsRefused(states: seq<State>, steps: seq<Step>, i: nat, k: nat, t: Thread, r: RequestId)
    requires Run(states, steps) && i <= k < |steps| && steps[k] == RequestChecks(r)
    requires At(states[i], t).ReloadDone? && states[k].requests[r].on.id < At(states[i], t).next.id
    ensures r in states[k + 1].requests && states[k + 1].requests[r] == Refused(states[k].requests[r].on)
  {
    OlderInstancesDone(states, steps, i, k, t, r);
  }

  /** While a goroutine stays inside its critical section nobody else takes the mutex. */
  lemma {:induction false} EntryKept(states: seq<State>, steps: seq<Step>, i: nat, j: nat, t: Thread)
    requires Run(states, steps) && i <= j <= |steps|
    requires forall n :: i <= n <= j ==> states[n].mutex == Some(t)
    ensures states[j].entry == states[i].entry
    decreases j - i
  {
    if i < j {
      assert Enabled(states[j - 1], steps[j - 1]) && states[j] == Apply(states[j - 1], steps[j - 1]);
      EntryKept(states, steps, i, j - 1, t);
      hide Run;
      assert states[j - 1].mutex == Some(t);
    }
  }

  /** A failed Reload leaves pointer and cancel function as it found them when it took the
      mutex, and its own context cancelled. */
  lemma FailedReloadChangesNothing(states: seq<State>, steps: seq<Step>, i: nat, j: nat, t: Thread)
    requires Run(states, steps) && i < j <= |steps| && steps[i] == LockForReload(t)
    requires forall n :: i < n <= j ==> states[n].mutex == Some(t)
    requires At(states[j], t).ReloadFailed?
    ensures states[j].instance == states[i].instance && states[j].cancel == states[i].cancel
    ensures At(states[j], t).ctx in states[j].cancelled
    ensures states[j].made - states[j].cancelled == states[i].made - states[i].cancelled
  {
    RunInv(states, steps, i);
    RunInv(states, steps, j);
    EntryKept(states, steps, i + 1, j, t);
  }

  // ----- Progress -----

  function Rank(pc: PC): nat {
    match pc
    case Idle => 0
    case ReloadLocked => 9
    case ReloadLoaded(_) => 8
    case ReloadDerived(_, _) => 7
    case ReloadBuilding(_, _) => 6
    case ReloadBuilt(_, _) => 5
    case ReloadSwapped(_) => 4
    case ReloadCancelled(_) => 3
    case ReloadFailing(_) => 3
    case ReloadFailed(_) => 2
    case ReloadDone(_) => 2
    case StopLocked => 5
    case StopCancelled => 4
    case StopCleared => 3
    case StopDone => 2
  }

  function Continue(pc: PC, t: Thread): Step {
    match pc
    case Idle => LockForReload(t)
    case ReloadLocked => LoadOld(t)
    case ReloadLoaded(_) => DeriveCtx(t)
    case ReloadDerived(_, _) => TakeId(t)
    case ReloadBuilding(_, _) => BuildSucceeds(t)
    case ReloadBuilt(_, _) => CompareAndSwap(t)
    case ReloadSwapped(_) => CancelOld(t)
    case ReloadCancelled(_) => StoreCancel(t)
    case ReloadFailing(_) => CancelOwn(t)
    case ReloadFailed(_) => Unlock(t)
    case ReloadDone(_) => Unlock(t)
    case StopLocked => StopCancel(t)
    case StopCancelled => StopClearCancel(t)
    case StopCleared => StopClearPointer(t)
    case StopDone => Unlock(t)
  }

  /** From any reachable state with the mutex taken, its holder alone can run on until it
      releases it: no step of Reload or Stop waits for anybody else. */
  lemma {:induction false} MutexCanBeReleased(states: seq<State>, steps: seq<Step>)
    returns (states': seq<State>, steps': seq<Step>)
    requires Run(states, steps)
    ensures Run(states', steps') && states <= states' && steps <= steps'
    ensures states'[|steps'|].mutex.None?
    decreases var s := states[|steps|]; if s.mutex.None? then 0 else Rank(At(s, s.mutex.value)) + 1
  {
    var s := states[|steps|];
    RunInv(states, steps, |steps|);
    if s.mutex.None? {
      states', steps' := states, steps;
    } else {
      HolderContinues(s);
      hide Inv, Apply, Enabled;
      states', steps' := Extend(states, steps, Continue(At(s, s.mutex.value), s.mutex.value));
      states', steps' := MutexCanBeReleased(states', steps');
    }
  }

  lemma HolderContinues(s: State)
    requires Inv(s) && s.mutex.Some?
    ensures var t := s.mutex.value;
            var step := Continue(At(s, t), t);
            && Enabled(s, step)
            && var s' := Apply(s, step);
               s'.mutex.None? || (s'.mutex == s.mutex && Rank(At(s', t)) < Rank(At(s, t)))
  {
    HolderInside(s);
    hide Inv;
    var pc := At(s, s.mutex.value);
    if pc.StopLocked? || pc.StopCancelled? || pc.StopCleared? || pc.StopDone? || pc.ReloadFailed? || pc.ReloadDone? {
      assert Enabled(s, Continue(pc, s.mutex.value));
    } else {
      ReloadContinues(s);
    }
  }

  lemma ReloadContinues(s: State)
    requires s.mutex.Some?
    requires var pc := At(s, s.mutex.value);
             pc.ReloadLocked? || pc.ReloadLoaded? || pc.ReloadDerived? || pc.ReloadBuilding? || pc.ReloadFailing? ||
             pc.ReloadBuilt? || pc.ReloadSwapped? || pc.ReloadCancelled?
    ensures var t := s.mutex.value;
            var step := Continue(At(s, t), t);
            && Enabled(s, step)
            && var s' := Apply(s, step);
               s'.mutex == s.mutex && Rank(At(s', t)) < Rank(At(s, t))
  {
  }

  lemma HolderInside(s: State)
    requires Inv(s) && s.mutex.Some?
    ensures !At(s, s.mutex.value).Idle?
  {
  }

  // ----- A request in flight during a Reload can be turned away -----

  lemma Extend(states: seq<State>, steps: seq<Step>, step: Step) returns (states': seq<State>, steps': seq<Step>)
    requires Run(states, steps) && Enabled(states[|steps|], step)
    ensures Run(states', steps') && states <= states' && |states'| == |steps'| + 1
    ensures steps' == steps + [step]
    ensures states'[|steps'|] == Apply(states[|steps|], step)
  {
    states', steps' := states + [Apply(states[|steps|], step)], steps + [step];
  }

  lemma UndisturbedBuild(states: seq<State>, steps: seq<Step>, t: Thread)
    returns (states': seq<State>, steps': seq<Step>)
    requires Run(states, steps)
    requires states[|steps|].mutex.None? && At(states[|steps|], t).Idle?
    ensures Run(states', steps') && states <= states'
    ensures var s, s' := states[|steps|], states'[|steps'|];
            && At(s', t) == ReloadBuilt(s.instance, Instance(s.nextId + 1, s.nextCtx))
            && s'.root == s.root && s'.requests == s.requests && s'.instance == s.instance
            && s'.log == s.log && s'.cancelled == s.cancelled && s'.cancel == s.cancel
  {
    assert |states| == |steps| + 1;
    hide Run;
    states', steps' := UndisturbedLoad(states, steps, t);
    states', steps' := Extend(states', steps', DeriveCtx(t));
    states', steps' := Extend(states', steps', TakeId(t));
    states', steps' := Extend(states', steps', BuildSucceeds(t));
  }

  lemma UndisturbedLoad(states: seq<State>, steps: seq<Step>, t: Thread)
    returns (states': seq<State>, steps': seq<Step>)
    requires Run(states, steps)
    requires states[|steps|].mutex.None? && At(states[|steps|], t).Idle?
    ensures Run(states', steps') && states <= states' && |states'| == |steps'| + 1
    ensures var s, s' := states[|steps|], states'[|steps'|];
            && At(s', t) == ReloadLoaded(s.instance) && s'.nextId == s.nextId && s'.nextCtx == s.nextCtx
            && s'.root == s.root && s'.requests == s.requests && s'.instance == s.instance
            && s'.log == s.log && s'.cancelled == s.cancelled && s'.cancel == s.cancel
  {
    assert |states| == |steps| + 1;
    hide Run;
    states', steps' := Extend(states, steps, LockForReload(t));
    states', steps' := Extend(states', steps', LoadOld(t));
  }

  lemma UndisturbedSwap(states: seq<State>, steps: seq<Step>, t: Thread)
    returns (states': seq<State>, steps': seq<Step>)
    requires Run(states, steps)
    requires At(states[|steps|], t).ReloadBuilt? && states[|steps|].instance == At(states[|steps|], t).prev
    ensures Run(states', steps') && states <= states'
    ensures var s, s' := states[|steps|], states'[|steps'|];
            var next := At(s, t).next;
            && s'.mutex.None? && At(s', t).Idle? && s'.root == s.root && s'.requests == s.requests
            && s'.instance == Some(next) && s'.log == s.log + [Published(next)]
            && s'.cancelled == s.cancelled + Funcs(s.cancel) && s'.cancel == Some(next.ctx)
  {
    assert |states| == |steps| + 1;
    hide Run;
    states', steps' := Extend(states, steps, CompareAndSwap(t));
    states', steps' := Extend(states', steps', CancelOld(t));
    states', steps' := Extend(states', steps', StoreCancel(t));
    states', steps' := Extend(states', steps', Unlock(t));
  }

  /** From any reachable state with the mutex free, an undisturbed Reload publishes a new
      instance and cancels the one before. */
  lemma UndisturbedReload(states: seq<State>, steps: seq<Step>, t: Thread)
    returns (states': seq<State>, steps': seq<Step>)
    requires Run(states, steps)
    requires states[|steps|].mutex.None? && At(states[|steps|], t).Idle?
    ensures Run(states', steps') && states <= states'
    ensures var s, s' := states[|steps|], states'[|steps'|];
            var next := Instance(s.nextId + 1, s.nextCtx);
            && s'.mutex.None? && At(s', t).Idle? && s'.root == s.root && s'.requests == s.requests
            && s'.instance == Some(next) && s'.log == s.log + [Published(next)]
            && s'.cancelled == s.cancelled + Funcs(s.cancel) && s'.cancel == Some(next.ctx)
  {
    states', steps' := UndisturbedBuild(states, steps, t);
    states', steps' := UndisturbedSwap(states', steps', t);
  }

  /** No Stop ever begins and the root context is never cancelled, and still a request that
      loaded the pointer just before a Reload gets "server stopped". */
  lemma RefusedWithoutStop() returns (states: seq<State>, steps: seq<Step>)
    ensures Run(states, steps)
    ensures var s := states[|steps|];
            0 in s.requests && s.requests[0].Refused? && !s.root && StopBegun !in s.log
  {
    states, steps := [Init], [];
    assert Run(states, steps);
    states, steps := UndisturbedReload(states, steps, 0);
    states, steps := Extend(states, steps, RequestLoads(0));
    states, steps := UndisturbedReload(states, steps, 0);
    states, steps := Extend(states, steps, RequestChecks(0));
  }
}

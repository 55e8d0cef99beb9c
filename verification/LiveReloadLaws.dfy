/** What the steps of Reload and Stop leave alone, what a Stop does, and what becomes of the
    requests that are being served meanwhile. */
module LiveReloadLaws {
  import opened LiveReload

  // ----- Which steps change what -----

  predicate OfRequest(step: Step, r: RequestId) {
    step == RequestLoads(r) || step == RequestChecks(r) || step == RequestEnds(r)
  }

  /** A request is changed by its own steps only: no Reload, Stop or other request touches it. */
  lemma RequestsApart(s: State, step: Step, r: RequestId)
    requires Enabled(s, step) && !OfRequest(step, r)
    ensures r in Apply(s, step).requests <==> r in s.requests
    ensures r in s.requests ==> Apply(s, step).requests[r] == s.requests[r]
  {
  }

  predicate OfThread(step: Step) {
    !(step.CancelRoot? || step.OtherInstance? || step.RequestLoads? || step.RequestChecks? || step.RequestEnds?)
  }

  /** A goroutine is moved by its own steps only. */
  lemma ThreadsApart(s: State, step: Step, t: Thread)
    requires Enabled(s, step) && (OfThread(step) ==> step.t != t)
    ensures At(Apply(s, step), t) == At(s, t)
  {
  }

  /** Each shared variable is written by the steps that write it in the source, and no others. */
  lemma SharedApart(s: State, step: Step)
    requires Enabled(s, step)
    ensures var s' := Apply(s, step);
            && (s'.root == s.root || step.CancelRoot?)
            && (s'.mutex == s.mutex || step.LockForReload? || step.LockForStop? || step.Unlock?)
            && (s'.instance == s.instance || step.CompareAndSwap? || step.StopClearPointer?)
            && (s'.cancel == s.cancel || step.StoreCancel? || step.StopClearCancel?)
            && (s'.made == s.made || step.DeriveCtx?)
            && (s'.cancelled == s.cancelled || step.CancelOwn? || step.CancelOld? || step.StopCancel?)
            && (s'.nextId == s.nextId || step.TakeId? || step.OtherInstance?)
  {
  }

  // ----- Requests being served -----

  /** A request that passed the check is served until its handler returns, whatever Reloads and
      Stops happen meanwhile; a refused one stays refused. */
  lemma {:induction false} AnswerStands(states: seq<State>, steps: seq<Step>, i: nat, j: nat, r: RequestId)
    requires Run(states, steps) && i <= j <= |steps|
    requires r in states[i].requests && !states[i].requests[r].Loaded?
    requires forall k :: i <= k < j ==> steps[k] != RequestEnds(r)
    ensures r in states[j].requests && states[j].requests[r] == states[i].requests[r]
    decreases j - i
  {
    if i < j {
      AnswerStands(states, steps, i, j - 1, r);
      assert Enabled(states[j - 1], steps[j - 1]) && states[j] == Apply(states[j - 1], steps[j - 1]);
      assert !OfRequest(steps[j - 1], r);
      RequestsApart(states[j - 1], steps[j - 1], r);
    }
  }

  // ----- Stop and a failing Reload, run alone -----

  /** From any reachable state with the mutex free, an undisturbed Stop cancels the context of
      the published instance and leaves pointer and cancel function nil; it touches no request. */
  lemma UndisturbedStop(states: seq<State>, steps: seq<Step>, t: Thread)
    returns (states': seq<State>, steps': seq<Step>)
    requires Run(states, steps)
    requires states[|steps|].mutex.None? && At(states[|steps|], t).Idle?
    ensures Run(states', steps') && states <= states' && |states'| == |steps'| + 1
    ensures var s, s' := states[|steps|], states'[|steps'|];
            && s'.mutex.None? && At(s', t).Idle? && s'.root == s.root && s'.requests == s.requests
            && s'.instance.None? && s'.cancel.None? && s'.log == s.log + [StopBegun]
            && s'.made == s.made && s'.cancelled == s.cancelled + Funcs(s.cancel)
  {
    assert |states| == |steps| + 1;
    hide Run;
    states', steps' := Extend(states, steps, LockForStop(t));
    states', steps' := Extend(states', steps', StopCancel(t));
    states', steps' := ClearAndUnlock(states', steps', t);
  }

  lemma ClearAndUnlock(states: seq<State>, steps: seq<Step>, t: Thread)
    returns (states': seq<State>, steps': seq<Step>)
    requires Run(states, steps) && At(states[|steps|], t).StopCancelled?
    ensures Run(states', steps') && states <= states' && |states'| == |steps'| + 1
    ensures var s, s' := states[|steps|], states'[|steps'|];
            && s'.mutex.None? && At(s', t).Idle? && s'.root == s.root && s'.requests == s.requests
            && s'.instance.None? && s'.cancel.None? && s'.log == s.log
            && s'.made == s.made && s'.cancelled == s.cancelled
  {
    assert |states| == |steps| + 1;
    hide Run;
    states', steps' := Extend(states, steps, StopClearCancel(t));
    states', steps' := Extend(states', steps', StopClearPointer(t));
    states', steps' := Extend(states', steps', Unlock(t));
  }

  /** An undisturbed Reload whose build fails leaves everything as it was, but for an id taken
      and a context derived and cancelled. */
  lemma UndisturbedFailure(states: seq<State>, steps: seq<Step>, t: Thread)
    returns (states': seq<State>, steps': seq<Step>)
    requires Run(states, steps)
    requires states[|steps|].mutex.None? && At(states[|steps|], t).Idle?
    ensures Run(states', steps') && states <= states' && |states'| == |steps'| + 1
    ensures var s, s' := states[|steps|], states'[|steps'|];
            && s'.mutex.None? && At(s', t).Idle? && s'.root == s.root && s'.requests == s.requests
            && s'.instance == s.instance && s'.cancel == s.cancel && s'.log == s.log
            && s'.made == s.made + {s.nextCtx} && s'.cancelled == s.cancelled + {s.nextCtx} && s'.nextId == s.nextId + 1
  {
    assert |states| == |steps| + 1;
    hide Run;
    states', steps' := Extend(states, steps, LockForReload(t));
    states', steps' := Extend(states', steps', LoadOld(t));
    states', steps' := Extend(states', steps', DeriveCtx(t));
    states', steps' := Extend(states', steps', TakeId(t));
    states', steps' := FailAndUnlock(states', steps', t);
  }

  lemma FailAndUnlock(states: seq<State>, steps: seq<Step>, t: Thread)
    returns (states': seq<State>, steps': seq<Step>)
    requires Run(states, steps) && At(states[|steps|], t).ReloadBuilding?
    ensures Run(states', steps') && states <= states' && |states'| == |steps'| + 1
    ensures var s, s' := states[|steps|], states'[|steps'|];
            && s'.mutex.None? && At(s', t).Idle? && s'.root == s.root && s'.requests == s.requests
            && s'.instance == s.instance && s'.cancel == s.cancel && s'.log == s.log && s'.nextId == s.nextId
            && s'.made == s.made && s'.cancelled == s.cancelled + {At(s, t).next.ctx}
  {
    assert |states| == |steps| + 1;
    hide Run;
    states', steps' := Extend(states, steps, BuildFails(t));
    states', steps' := Extend(states', steps', CancelOwn(t));
    states', steps' := Extend(states', steps', Unlock(t));
  }

  /** A request that is being served outlives the instance it runs on: after a Reload and a Stop
      it is served still, and its handler returns. */
  lemma OutstandingCompletes(states: seq<State>, steps: seq<Step>, t: Thread, r: RequestId)
    returns (states': seq<State>, steps': seq<Step>)
    requires Run(states, steps) && states[|steps|].mutex.None? && At(states[|steps|], t).Idle?
    requires r in states[|steps|].requests && states[|steps|].requests[r].Serving?
    ensures Run(states', steps') && states <= states' && |states'| == |steps'| + 1 && |steps'| > |steps|
    ensures var before, last := states'[|steps'| - 1], states'[|steps'|];
            && r in before.requests && before.requests[r] == states[|steps|].requests[r]
            && before.instance.None? && Done(before, before.requests[r].on.ctx)
            && last.requests == states[|steps|].requests - {r}
  {
    assert |states| == |steps| + 1;
    hide Run;
    states', steps' := UndisturbedReload(states, steps, t);
    states', steps' := UndisturbedStop(states', steps', t);
    FinishedInstance(states', steps', r);
    states', steps' := Extend(states', steps', RequestEnds(r));
  }

  lemma FinishedInstance(states: seq<State>, steps: seq<Step>, r: RequestId)
    requires Run(states, steps) && states[|steps|].mutex.None? && states[|steps|].instance.None?
    requires r in states[|steps|].requests && states[|steps|].requests[r].Serving?
    ensures Done(states[|steps|], states[|steps|].requests[r].on.ctx)
  {
    RunInv(states, steps, |steps|);
    FreeMutexSettled(states, steps, |steps|);
  }

  // ----- The root context and the ids, over a whole run -----

  /** The root context is cancelled from the first CancelRoot on. */
  lemma {:induction false} RootIff(states: seq<State>, steps: seq<Step>, k: nat)
    requires Run(states, steps) && k <= |steps|
    ensures states[k].root <==> CancelRoot in steps[..k]
  {
    if k > 0 {
      RootIff(states, steps, k - 1);
      assert steps[..k] == steps[..k - 1] + [steps[k - 1]];
      assert Enabled(states[k - 1], steps[k - 1]) && states[k] == Apply(states[k - 1], steps[k - 1]);
      hide Run;
      RootStep(states[k - 1], steps[k - 1]);
      hide Apply, Enabled;
    }
  }

  lemma RootStep(s: State, step: Step)
    requires Enabled(s, step)
    ensures Apply(s, step).root == (s.root || step.CancelRoot?)
  {
  }

  /** After that every request is refused. */
  lemma RootRefusesAll(states: seq<State>, steps: seq<Step>, i: nat, k: nat, r: RequestId)
    requires Run(states, steps) && i < k < |steps| && steps[i] == CancelRoot && steps[k] == RequestChecks(r)
    ensures r in states[k + 1].requests && states[k + 1].requests[r] == Refused(states[k].requests[r].on)
  {
    RootIff(states, steps, k);
    assert steps[..k][i] == CancelRoot;
  }

  function IdsTaken(steps: seq<Step>): nat {
    if steps == [] then 0
    else
      var last := steps[|steps| - 1];
      IdsTaken(steps[..|steps| - 1]) + if last.TakeId? || last.OtherInstance? then 1 else 0
  }

  /** Every instance made, here or elsewhere in the process, takes one id. */
  lemma {:induction false} IdsCounted(states: seq<State>, steps: seq<Step>, k: nat)
    requires Run(states, steps) && k <= |steps|
    ensures states[k].nextId == IdsTaken(steps[..k])
  {
    if k > 0 {
      IdsCounted(states, steps, k - 1);
      assert steps[..k][..k - 1] == steps[..k - 1] && steps[..k][k - 1] == steps[k - 1];
      assert Enabled(states[k - 1], steps[k - 1]) && states[k] == Apply(states[k - 1], steps[k - 1]);
      hide Run;
      IdStep(states[k - 1], steps[k - 1]);
      hide Apply, Enabled;
    }
  }

  lemma IdStep(s: State, step: Step)
    requires Enabled(s, step)
    ensures Apply(s, step).nextId == s.nextId + if step.TakeId? || step.OtherInstance? then 1 else 0
  {
  }
}

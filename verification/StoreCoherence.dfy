/** When the cached value is what the backend would load: `reload` and `resolve` against `save` and installs. */
module StoreCoherence {
  import opened Wrappers
  import opened StoreMachine
  import opened StoreHistory
  import Locks = StoreLocks

  /** The cache holds what loading the backend would give. */
  ghost predicate Coherent(env: Env, g: Shared) { env.load(g.backend) == Some(g.current) }

  /** What is saved can be loaded again (see `ConfigStore.SaveThenLoad`). */
  ghost predicate RoundTrips(env: Env) {
    forall v :: env.encode(env.stamp(v)).Some? ==> env.load(env.encode(env.stamp(v)).value) == Some(env.stamp(v))
  }

  /** A call has its value and has not swapped it in yet. */
  predicate Holds(f: Frame, v: Value) { f.Call? && (f.phase == WantCurrent(v) || f.phase == HasCurrent(v)) }

  predicate Refreshing(f: Frame) { f.Call? && Refreshes(f.op) && (f.phase.WantCurrent? || f.phase.HasCurrent?) }

  /** Some refresh is between its read of the backend and its swap of the cache. */
  ghost predicate RefreshPending(s: State) { exists t :: Unfinished(s, t) && Refreshing(Top(s, t)) }

  /** The step of a save that writes the backend. */
  predicate Stores(s: State, step: Step) {
    step.Proceed? && Unfinished(s, step.t) && Top(s, step.t).Call?
    && Top(s, step.t).op.Save? && Top(s, step.t).phase.HasWriteLock?
  }

  /** No save writes the backend while a refresh is between its read and its swap. */
  ghost predicate NoOverlap(states: seq<State>, steps: seq<Step>)
    requires |states| == |steps| + 1
  {
    forall k :: 0 <= k < |steps| && Stores(states[k], steps[k]) ==> !RefreshPending(states[k])
  }

  // -------------------------------------------------------------------- the invariant

  predicate NoInstalls(stack: seq<Frame>) { forall i :: 0 <= i < |stack| && stack[i].Call? ==> !stack[i].op.SetCurrent? }

  /** The value a call is about to swap in is what the backend would load. */
  ghost predicate HoldsStored(env: Env, g: Shared, f: Frame) { forall v: Value :: Holds(f, v) ==> env.load(g.backend) == Some(v) }

  ghost predicate TopHolds(env: Env, s: State, t: Thread) {
    NoInstalls(Stack(s, t)) && (Unfinished(s, t) ==> HoldsStored(env, s.shared, Top(s, t)))
  }

  /** A save has written the backend and has its value still to swap in. */
  predicate SaveUnderWay(section: Option<Frame>) {
    section.Some? && section.value.Call? && (section.value.phase.WantCurrent? || section.value.phase.HasCurrent?)
  }

  ghost predicate CoherenceOk(env: Env, s: State) {
    (forall t :: TopHolds(env, s, t)) && (SaveUnderWay(Section(s)) || Coherent(env, s.shared))
  }

  /** What one step of a call does to the two contents and to the value in hand. */
  lemma {:induction false} AdvanceCoherence(env: Env, g: Shared, t: Thread, op: Op, phase: Phase, fails: bool)
    requires Ready(g, phase) && Locks.PhaseFits(op, phase) && ValueFits(env, Call(op, phase)) && RoundTrips(env)
    requires !op.SetCurrent? && HoldsStored(env, g, Call(op, phase))
    ensures var (h, action) := Advance(env, g, t, op, phase, fails);
            && (action.Goto? ==> HoldsStored(env, h, Call(op, action.phase)))
            && (h.backend != g.backend ==> op.Save? && phase.HasWriteLock? && action.Goto? && action.phase.WantCurrent?)
            && (phase.HasCurrent? ==> Coherent(env, h) && action.Goto? && action.phase.Assigned?)
            && (!phase.HasCurrent? ==> h.current == g.current)
            && (phase.WantCurrent? ==> action.Goto? && action.phase.HasCurrent?)
  {
    if phase.WantCurrent? || phase.HasCurrent? { assert Holds(Call(op, phase), phase.v); }
  }

  lemma {:induction false} ThreadsStep(env: Env, s: State, step: Step)
    requires Locks.Inv(s) && ValuesOk(env, s) && CoherenceOk(env, s) && RoundTrips(env) && Enabled(s, step)
    requires step.Invoke? ==> !step.op.SetCurrent?
    requires Stores(s, step) ==> !RefreshPending(s)
    ensures forall t :: TopHolds(env, Apply(env, s, step), t)
  {
    var u := Apply(env, s, step);
    assert Locks.ThreadOk(s, step.t) && TopHolds(env, s, step.t);
    forall t ensures TopHolds(env, u, t) {
      assert Locks.ThreadOk(s, t) && TopHolds(env, s, t);
      if t == step.t { OwnStep(env, s, step); } else { OtherStep(env, s, step, t); }
    }
  }

  lemma {:induction false} OwnStep(env: Env, s: State, step: Step)
    requires Locks.ThreadOk(s, step.t) && StackValuesOk(env, Stack(s, step.t)) && TopHolds(env, s, step.t)
    requires RoundTrips(env) && Enabled(s, step) && (step.Invoke? ==> !step.op.SetCurrent?)
    ensures TopHolds(env, Apply(env, s, step), step.t)
  {
    hide Advance, RoundTrips;
    var stack, next := Stack(s, step.t), Stack(Apply(env, s, step), step.t);
    assert stack != [] ==> ValueFits(env, stack[|stack| - 1]);
    if step.Proceed? {
      var Call(op, phase) := Last(stack);
      AdvanceCoherence(env, s.shared, step.t, op, phase, step.fails);
      Locks.ActionFits(env, s.shared, step.t, op, phase, step.fails);
      Locks.MoveKeepsStack(stack, op, Advance(env, s.shared, step.t, op, phase, step.fails).1);
    } else if step.Return? && next != [] {
      assert Locks.NestsAt(stack, |stack| - 2);
    }
  }

  lemma {:induction false} OtherStep(env: Env, s: State, step: Step, t: Thread)
    requires t != step.t && Locks.ThreadOk(s, t) && TopHolds(env, s, t) && Enabled(s, step) && Locks.ThreadOk(s, step.t)
    requires StackValuesOk(env, Stack(s, step.t)) && TopHolds(env, s, step.t) && RoundTrips(env)
    requires Stores(s, step) ==> !RefreshPending(s)
    ensures TopHolds(env, Apply(env, s, step), t)
  {
    hide Advance, RoundTrips, ValueFits;
    if step.Proceed? && Unfinished(s, t) {
      var stack := Stack(s, step.t);
      var Call(op, phase) := Last(stack);
      assert ValueFits(env, stack[|stack| - 1]);
      AdvanceCoherence(env, s.shared, step.t, op, phase, step.fails);
      var h := Advance(env, s.shared, step.t, op, phase, step.fails).0;
      if h.backend != s.shared.backend {
        assert Stores(s, step) && !Refreshing(Top(s, t));
        OnlyOneSaves(s, step.t, t);
      }
    }
  }

  /** While one thread has the write lock, nobody else saves; so nobody else who is not refreshing holds a value. */
  lemma {:induction false} OnlyOneSaves(s: State, t: Thread, u: Thread)
    requires u != t && Unfinished(s, t) && Unfinished(s, u) && Locks.ThreadOk(s, t) && Locks.ThreadOk(s, u)
    requires Locks.HoldsWriteLock(Top(s, t)) && NoInstalls(Stack(s, u)) && !Refreshing(Top(s, u))
    ensures forall v: Value :: !Holds(Top(s, u), v)
  {
    var f := Top(s, u);
    assert f == Stack(s, u)[|Stack(s, u)| - 1];
    assert !Locks.HoldsWriteLock(f);
    assert f.Call? ==> Locks.PhaseFits(f.op, f.phase) && !f.op.SetCurrent?;
  }

  lemma {:induction false} ContentsCohere(env: Env, s: State, step: Step)
    requires Locks.Inv(s) && ValuesOk(env, s) && CoherenceOk(env, s) && RoundTrips(env) && Enabled(s, step)
    ensures SaveUnderWay(Section(Apply(env, s, step))) || Coherent(env, Apply(env, s, step).shared)
  {
    hide Advance, RoundTrips;
    if !step.Proceed? {
      CallLeavesSection(env, s, step);
    } else {
      var stack := Stack(s, step.t);
      var Call(op, phase) := Last(stack);
      assert Locks.ThreadOk(s, step.t) && TopHolds(env, s, step.t) && StackValuesOk(env, stack);
      assert stack[|stack| - 1] == Call(op, phase);
      AdvanceCoherence(env, s.shared, step.t, op, phase, step.fails);
      ProceedLeavesSection(env, s, step);
      var (h, action) := Advance(env, s.shared, step.t, op, phase, step.fails);
      if Locks.HoldsWriteLock(Top(s, step.t)) {
        assert Section(s) == Some(Call(op, phase));
        SectionStaysOrEnds(env, s.shared, step.t, op, phase, step.fails);
        UnderWayInSection(env, s.shared, step.t, op, phase, step.fails);
      } else {
        AdvanceOutsideSection(env, s.shared, step.t, op, phase, step.fails);
      }
    }
  }

  lemma {:induction false} UnderWayInSection(env: Env, g: Shared, t: Thread, op: Op, phase: Phase, fails: bool)
    requires Ready(g, phase) && Locks.PhaseFits(op, phase) && Locks.HoldsWriteLock(Call(op, phase)) && g.writeLock == Some(t)
    ensures var (h, action) := Advance(env, g, t, op, phase, fails);
            (phase.WantCurrent? ==> SaveUnderWay(NextSection(op, h, t, action)))
            && (h.backend != g.backend ==> SaveUnderWay(NextSection(op, h, t, action)))
  {
  }

  lemma {:induction false} StepCoheres(env: Env, s: State, step: Step)
    requires Locks.Inv(s) && ValuesOk(env, s) && CoherenceOk(env, s) && RoundTrips(env) && Enabled(s, step)
    requires step.Invoke? ==> !step.op.SetCurrent?
    requires Stores(s, step) ==> !RefreshPending(s)
    ensures CoherenceOk(env, Apply(env, s, step))
  {
    ThreadsStep(env, s, step);
    ContentsCohere(env, s, step);
  }

  // ---------------------------------------------------------------------- whole runs

  predicate NoInstallInvoked(steps: seq<Step>) { forall k :: 0 <= k < |steps| && steps[k].Invoke? ==> !steps[k].op.SetCurrent? }

  lemma {:induction false} RunCoheres(env: Env, s: State, steps: seq<Step>, k: nat)
    requires Init(s) && IsRun(env, s, steps) && k <= |steps| && RoundTrips(env) && Coherent(env, s.shared)
    requires NoInstallInvoked(steps) && NoOverlap(States(env, s, steps), steps)
    ensures var u := States(env, s, steps)[k]; Locks.Inv(u) && ValuesOk(env, u) && CoherenceOk(env, u)
    decreases k
  {
    var states := States(env, s, steps);
    if k == 0 {
      InitHistory(env, s);
    } else {
      RunCoheres(env, s, steps, k - 1);
      StatesStep(env, s, steps, k - 1);
      hide Enabled, Apply, CoherenceOk, ValuesOk, Locks.Inv, RefreshPending, Stores;
      Locks.StepKeepsInv(env, states[k - 1], steps[k - 1]);
      ValuesStep(env, states[k - 1], steps[k - 1]);
      StepCoheres(env, states[k - 1], steps[k - 1]);
    }
  }

  /**
   * Without installs, from a coherent start: if no save writes the backend between the read and the swap of
   * a refresh, the cache is what the backend would load whenever the write lock is free.
   */
  lemma {:induction false} CoherentWithoutOverlap(env: Env, s: State, steps: seq<Step>)
    requires Init(s) && IsRun(env, s, steps) && RoundTrips(env) && Coherent(env, s.shared)
    requires NoInstallInvoked(steps) && NoOverlap(States(env, s, steps), steps)
    ensures After(env, s, steps).shared.writeLock.None? ==> Coherent(env, After(env, s, steps).shared)
  {
    RunCoheres(env, s, steps, |steps|);
  }

  // ----------------------------------------------------------------- menus of operations

  predicate InvokesOnly(menu: Op -> bool, steps: seq<Step>) {
    forall k :: 0 <= k < |steps| && steps[k].Invoke? ==> menu(steps[k].op)
  }

  ghost predicate AtRest(s: State) { forall t :: !Unfinished(s, t) }

  /** Programs that use only these operations, from a coherent start, find the store coherent whenever it is at rest. */
  ghost predicate KeepsCoherent(menu: Op -> bool) {
    forall env, s, steps ::
      (Init(s) && RoundTrips(env) && Coherent(env, s.shared) && IsRun(env, s, steps) && InvokesOnly(menu, steps)
       && AtRest(After(env, s, steps)))
      ==> Coherent(env, After(env, s, steps).shared)
  }

  ghost predicate SafeMenu(menu: Op -> bool) {
    (forall v: Value :: !menu(SetCurrent(v))) && ((forall v: Value :: !menu(Save(v))) || (!menu(Reload) && !menu(Resolve)))
  }

  /** Whenever the write lock is free the cache is the value of the last committed section. */
  ghost predicate KeepsSections(menu: Op -> bool) {
    forall env, s, steps ::
      Init(s) && IsRun(env, s, steps) && InvokesOnly(menu, steps) && After(env, s, steps).shared.writeLock.None?
      ==> After(env, s, steps).shared.current == CachedBy(s.shared.current, After(env, s, steps).shared.commits)
  }

  /** No frame of any thread performs an operation that is not on the menu. */
  ghost predicate OnMenu(menu: Op -> bool, s: State) {
    forall t, i :: 0 <= i < |Stack(s, t)| && Stack(s, t)[i].Call? ==> menu(Stack(s, t)[i].op)
  }

  lemma {:induction false} StaysOnMenu(menu: Op -> bool, env: Env, s: State, step: Step)
    requires OnMenu(menu, s) && Enabled(s, step) && (step.Invoke? ==> menu(step.op))
    ensures OnMenu(menu, Apply(env, s, step))
  {
    hide Advance;
    var u := Apply(env, s, step);
    forall t, i | 0 <= i < |Stack(u, t)| && Stack(u, t)[i].Call? ensures menu(Stack(u, t)[i].op) {
      if i < |Stack(s, t)| && Stack(s, t)[i].Call? { assert menu(Stack(s, t)[i].op); }
    }
  }

  lemma {:induction false} RunOnMenu(menu: Op -> bool, env: Env, s: State, steps: seq<Step>, k: nat)
    requires Init(s) && IsRun(env, s, steps) && InvokesOnly(menu, steps) && k <= |steps|
    ensures OnMenu(menu, States(env, s, steps)[k])
    decreases k
  {
    if k > 0 {
      RunOnMenu(menu, env, s, steps, k - 1);
      StatesStep(env, s, steps, k - 1);
      hide Enabled, Apply, OnMenu;
      StaysOnMenu(menu, env, States(env, s, steps)[k - 1], steps[k - 1]);
    }
  }

  /** On a safe menu there is no overlap, because there are no saves or no refreshes. */
  lemma {:induction false} SafeMenuNoOverlap(menu: Op -> bool, env: Env, s: State, steps: seq<Step>)
    requires SafeMenu(menu) && Init(s) && IsRun(env, s, steps) && InvokesOnly(menu, steps)
    ensures NoInstallInvoked(steps) && NoOverlap(States(env, s, steps), steps)
  {
    var states := States(env, s, steps);
    forall k | 0 <= k < |steps| && Stores(states[k], steps[k]) ensures !RefreshPending(states[k]) {
      RunOnMenu(menu, env, s, steps, k);
      SafeStateNoOverlap(menu, states[k], steps[k]);
    }
    forall k | 0 <= k < |steps| && steps[k].Invoke? ensures !steps[k].op.SetCurrent? {
      assert menu(steps[k].op);
    }
  }

  lemma {:induction false} SafeStateNoOverlap(menu: Op -> bool, s: State, step: Step)
    requires SafeMenu(menu) && OnMenu(menu, s) && Stores(s, step)
    ensures !RefreshPending(s)
  {
    var f := Top(s, step.t);
    assert f == Stack(s, step.t)[|Stack(s, step.t)| - 1];
    assert menu(f.op) && f.op == Save(f.op.v);
    forall t | Unfinished(s, t) ensures !Refreshing(Top(s, t)) {
      assert Top(s, t) == Stack(s, t)[|Stack(s, t)| - 1];
    }
  }
}

/** What subscribers of the configuration store have heard last, against what the cache holds. */
module StoreTold {
  import opened Wrappers
  import opened StoreMachine
  import opened StoreHistory
  import opened StoreCoherence
  import Locks = StoreLocks

  /** What the step calls subscriber f with, if it does. */
  function TellsNow(env: Env, s: State, step: Step, f: Subscriber): Option<Value>
    requires Enabled(s, step)
  {
    if !step.Proceed? then None
    else match Advance(env, s.shared, step.t, Top(s, step.t).op, Top(s, step.t).phase, step.fails).1
      case CallOut(g, v) => if g == f then Some(v) else None
      case _ => None
  }

  /** The value f was last called with, after having heard `heard` before the run. */
  function Told(env: Env, s: State, steps: seq<Step>, f: Subscriber, heard: Option<Value>): Option<Value>
    requires IsRun(env, s, steps)
    decreases |steps|
  {
    if steps == [] then heard
    else
      var now := TellsNow(env, s, steps[0], f);
      Told(env, Apply(env, s, steps[0]), steps[1..], f, if now.Some? then now else heard)
  }

  /** Programs that use only these operations: whoever has been told anything was told last what the cache holds. */
  ghost predicate TellsLatest(menu: Op -> bool) {
    forall env, s, steps, f ::
      (Init(s) && IsRun(env, s, steps) && InvokesOnly(menu, steps) && AtRest(After(env, s, steps))
       && Told(env, s, steps, f, None).Some?)
      ==> Told(env, s, steps, f, None).value == After(env, s, steps).shared.current
  }

  ghost predicate NoSave(menu: Op -> bool) { forall v: Value :: !menu(Save(v)) }

  ghost predicate NoInstall(menu: Op -> bool) { forall v: Value :: !menu(SetCurrent(v)) }

  ghost predicate OneInstall(menu: Op -> bool) {
    forall v: Value, w: Value :: menu(SetCurrent(v)) && menu(SetCurrent(w)) ==> v == w
  }

  /** Nobody listens, nothing is announced, or there is only one value that could ever be announced or cached. */
  ghost predicate SafeToTell(menu: Op -> bool) {
    || NoListener(menu)
    || (NoInstall(menu) && !menu(Reload))
    || (NoSave(menu) && NoInstall(menu))
    || (NoSave(menu) && !menu(Reload) && !menu(Resolve) && OneInstall(menu))
  }

  ghost predicate NoListener(menu: Op -> bool) { forall f: Subscriber :: !menu(Subscribe(f)) }

  // ------------------------------------------------------------------- nobody is told

  /** All rounds so far have nobody to call, and if nobody can subscribe then nobody has. */
  ghost predicate Silent(menu: Op -> bool, g: Shared) {
    (forall i :: 0 <= i < |g.rounds| ==> g.rounds[i].snapshot == []) && (NoListener(menu) ==> g.subscribers == [])
  }

  lemma {:induction false} AdvanceSilent(menu: Op -> bool, env: Env, g: Shared, t: Thread, op: Op, phase: Phase, fails: bool)
    requires Ready(g, phase) && Locks.PhaseFits(op, phase) && menu(op) && Silent(menu, g)
    requires NoListener(menu) || (NoInstall(menu) && !menu(Reload))
    ensures var (h, action) := Advance(env, g, t, op, phase, fails); Silent(menu, h) && !action.CallOut?
  {
    assert op.SetCurrent? ==> op == SetCurrent(op.v);
    assert op.Subscribe? ==> op == Subscribe(op.f);
  }

  lemma {:induction false} RunSilent(menu: Op -> bool, env: Env, s: State, steps: seq<Step>, f: Subscriber)
    requires Locks.Inv(s) && OnMenu(menu, s) && Silent(menu, s.shared) && IsRun(env, s, steps) && InvokesOnly(menu, steps)
    requires NoListener(menu) || (NoInstall(menu) && !menu(Reload))
    ensures Told(env, s, steps, f, None) == None
    decreases |steps|
  {
    if steps != [] {
      var step, u := steps[0], Apply(env, s, steps[0]);
      if step.Proceed? { ProceedSilent(menu, env, s, step); }
      assert step.Invoke? ==> menu(step.op);
      StaysOnMenu(menu, env, s, step);
      Locks.StepKeepsInv(env, s, step);
      assert InvokesOnly(menu, steps[1..]);
      hide Advance, Locks.Inv, OnMenu, Silent;
      RunSilent(menu, env, u, steps[1..], f);
    }
  }

  lemma {:induction false} ProceedSilent(menu: Op -> bool, env: Env, s: State, step: Step)
    requires Locks.Inv(s) && OnMenu(menu, s) && Silent(menu, s.shared) && Enabled(s, step) && step.Proceed?
    requires NoListener(menu) || (NoInstall(menu) && !menu(Reload))
    ensures Silent(menu, Apply(env, s, step).shared) && forall f :: TellsNow(env, s, step, f) == None
  {
    hide Advance, Silent;
    var stack := Stack(s, step.t);
    assert Locks.ThreadOk(s, step.t) && stack[|stack| - 1] == Last(stack);
    AdvanceSilent(menu, env, s.shared, step.t, Last(stack).op, Last(stack).phase, step.fails);
  }

  // ---------------------------------------------------------------- only one value

  /** A value in hand is V, and once it has been swapped in the cache holds V. */
  predicate FrameSingle(g: Shared, f: Frame, V: Value) {
    f.Call? && !f.op.Subscribe? ==>
      match f.phase
      case WantCurrent(v) => v == V
      case HasCurrent(v) => v == V
      case Assigned(v) => v == V == g.current
      case ReleaseWriteLock(i) => i.Some? ==> i.value == V == g.current
      case WantSubscribers(v) => v == V == g.current
      case HasSubscribers(v) => v == V == g.current
      case _ => true
  }

  ghost predicate RoundsSingle(g: Shared, V: Value) {
    (forall i :: 0 <= i < |g.rounds| ==> g.rounds[i].value == V) && (g.rounds != [] ==> g.current == V)
  }

  /** Nothing the operation can get hold of is anything but V. */
  predicate OnlySource(env: Env, document: Document, op: Op, V: Value) {
    && !op.Save? && (op.SetCurrent? ==> op.v == V)
    && (Refreshes(op) ==> env.load(document).None? || env.load(document) == Some(V))
  }

  lemma {:induction false} AdvanceSingle(env: Env, g: Shared, t: Thread, op: Op, phase: Phase, fails: bool, V: Value)
    requires Ready(g, phase) && Locks.PhaseFits(op, phase) && OnlySource(env, g.backend, op, V)
    requires FrameSingle(g, Call(op, phase), V) && RoundsSingle(g, V)
    ensures var (h, action) := Advance(env, g, t, op, phase, fails);
            && h.backend == g.backend && RoundsSingle(h, V) && (g.current == V ==> h.current == V)
            && (action.Goto? ==> FrameSingle(h, Call(op, action.phase), V))
            && (action.CallOut? ==> action.v == V && h.current == V && FrameSingle(h, Call(op, phase), V))
  {
  }

  ghost predicate Sources(menu: Op -> bool, env: Env, document: Document, V: Value) {
    forall op :: menu(op) ==> OnlySource(env, document, op, V)
  }

  ghost predicate StackSingle(g: Shared, stack: seq<Frame>, V: Value) {
    forall i :: 0 <= i < |stack| ==> FrameSingle(g, stack[i], V)
  }

  ghost predicate Single(s: State, V: Value) {
    RoundsSingle(s.shared, V) && forall t :: StackSingle(s.shared, Stack(s, t), V)
  }

  lemma {:induction false} StepSingle(menu: Op -> bool, env: Env, s: State, step: Step, f: Subscriber, V: Value)
    requires Locks.Inv(s) && OnMenu(menu, s) && Enabled(s, step) && Single(s, V) && Sources(menu, env, s.shared.backend, V)
    ensures var u := Apply(env, s, step);
            && u.shared.backend == s.shared.backend && Single(u, V)
            && (TellsNow(env, s, step, f).Some? ==> TellsNow(env, s, step, f) == Some(V) && u.shared.current == V)
            && (s.shared.current == V ==> u.shared.current == V)
  {
    hide Advance, RoundsSingle, OnlySource;
    var u, stack := Apply(env, s, step), Stack(s, step.t);
    assert StackSingle(s.shared, stack, V) && Locks.ThreadOk(s, step.t);
    if step.Proceed? {
      var Call(op, phase) := Last(stack);
      assert stack[|stack| - 1] == Call(op, phase);
      AdvanceSingle(env, s.shared, step.t, op, phase, step.fails, V);
    }
    forall t ensures StackSingle(u.shared, Stack(u, t), V) {
      assert StackSingle(s.shared, Stack(s, t), V);
    }
  }

  lemma {:induction false} RunSingle(menu: Op -> bool, env: Env, s: State, steps: seq<Step>, f: Subscriber, heard: Option<Value>, V: Value)
    requires Locks.Inv(s) && OnMenu(menu, s) && Single(s, V) && Sources(menu, env, s.shared.backend, V)
    requires IsRun(env, s, steps) && InvokesOnly(menu, steps) && (heard.Some? ==> heard == Some(V) && s.shared.current == V)
    ensures Told(env, s, steps, f, heard).Some? ==> Told(env, s, steps, f, heard) == Some(After(env, s, steps).shared.current)
    decreases |steps|
  {
    if steps != [] {
      var step, u := steps[0], Apply(env, s, steps[0]);
      assert step.Invoke? ==> menu(step.op);
      StepSingle(menu, env, s, step, f, V);
      StaysOnMenu(menu, env, s, step);
      Locks.StepKeepsInv(env, s, step);
      assert InvokesOnly(menu, steps[1..]);
      hide Enabled, Apply, TellsNow, Locks.Inv, OnMenu, Single, Sources;
      var now := TellsNow(env, s, step, f);
      RunSingle(menu, env, u, steps[1..], f, if now.Some? then now else heard, V);
    }
  }

  /** On a safe menu subscribers have always heard last what the cache holds, at rest or not. */
  lemma {:induction false} SafeMenuTellsLatest(menu: Op -> bool, env: Env, s: State, steps: seq<Step>, f: Subscriber)
    requires SafeToTell(menu) && Init(s) && IsRun(env, s, steps) && InvokesOnly(menu, steps)
    ensures Told(env, s, steps, f, None).Some? ==> Told(env, s, steps, f, None) == Some(After(env, s, steps).shared.current)
  {
    InitHistory(env, s);
    hide Told, IsRun, After;
    if NoListener(menu) || (NoInstall(menu) && !menu(Reload)) {
      RunSilent(menu, env, s, steps, f);
    } else if NoInstall(menu) {
      RunSingle(menu, env, s, steps, f, None, env.load(s.shared.backend).UnwrapOr(0));
    } else {
      var v: Value :| menu(SetCurrent(v));
      RunSingle(menu, env, s, steps, f, None, v);
    }
  }
}

/** Lock discipline of the configuration store: deadlock freedom, and callbacks run lock-free. */
module StoreLocks {
  import opened Wrappers
  import opened StoreMachine

  predicate PhaseFits(op: Op, phase: Phase) {
    match phase
    case Start => op.Save? || op.Reload? || op.Resolve? || op.Load?
    case WantWriteLock => TakesWriteLock(op)
    case HasWriteLock => op.Save?
    case WantCurrent(_) => TakesWriteLock(op) || op.Reload? || op.Resolve?
    case HasCurrent(_) => TakesWriteLock(op) || op.Reload? || op.Resolve?
    case Assigned(_) => TakesWriteLock(op) || op.Reload? || op.Resolve?
    case ReleaseWriteLock(installed) => op.Save? || (op.SetCurrent? && installed.Some?)
    case WantSubscribers(_) => op.SetCurrent? || op.Reload? || op.Subscribe?
    case HasSubscribers(_) => op.SetCurrent? || op.Reload? || op.Subscribe?
    case Notifying(_) => op.SetCurrent? || op.Reload?
    case WantRead => op.Current?
    case HasRead => op.Current?
  }

  predicate HoldsWriteLock(f: Frame) {
    f.Call? && TakesWriteLock(f.op)
    && (f.phase.HasWriteLock? || f.phase.WantCurrent? || f.phase.HasCurrent? || f.phase.Assigned? || f.phase.ReleaseWriteLock?)
  }

  predicate HoldsCurrent(f: Frame) { f.Call? && (f.phase.HasCurrent? || f.phase.Assigned?) }

  predicate HoldsRead(f: Frame) { f.Call? && f.phase.HasRead? }

  predicate HoldsSubscribers(f: Frame) { f.Call? && f.phase.HasSubscribers? }

  /** Calls and callbacks alternate, and a call with something above it is between two callbacks. */
  ghost predicate StackOk(stack: seq<Frame>) {
    && (stack != [] ==> stack[0].Call?)
    && (forall i :: 0 <= i < |stack| && stack[i].Call? ==> PhaseFits(stack[i].op, stack[i].phase))
    && (forall i :: NestsAt(stack, i))
  }

  predicate NestsAt(stack: seq<Frame>, i: int) {
    0 <= i < |stack| - 1 ==>
      if stack[i].Call? then stack[i].phase.Notifying? && stack[i + 1].Callback? else stack[i + 1].Call?
  }

  /** The locks that thread `t` owns are exactly those of the critical section its innermost frame is in. */
  ghost predicate Owns(g: Shared, t: Thread, stack: seq<Frame>) {
    && (g.writeLock == Some(t) <==> stack != [] && HoldsWriteLock(Last(stack)))
    && (g.currentWriter == Some(t) <==> stack != [] && HoldsCurrent(Last(stack)))
    && (t in g.currentReaders <==> stack != [] && HoldsRead(Last(stack)))
    && (g.subscribersLock == Some(t) <==> stack != [] && HoldsSubscribers(Last(stack)))
  }

  ghost predicate RoundsKnown(g: Shared, stack: seq<Frame>) {
    forall i :: 0 <= i < |stack| && stack[i].Call? && stack[i].phase.Notifying? ==> stack[i].phase.round < |g.rounds|
  }

  ghost predicate ThreadOk(s: State, t: Thread) {
    StackOk(Stack(s, t)) && Owns(s.shared, t, Stack(s, t)) && RoundsKnown(s.shared, Stack(s, t))
  }

  ghost predicate Inv(s: State) {
    (forall t :: ThreadOk(s, t)) && (s.shared.currentWriter.Some? ==> s.shared.currentReaders == {})
  }

  // ----------------------------------------------------------- the invariant

  /** A call only moves to phases its operation has, and only a notifying call calls out. */
  lemma {:induction false} ActionFits(env: Env, g: Shared, t: Thread, op: Op, phase: Phase, fails: bool)
    requires Ready(g, phase) && PhaseFits(op, phase)
    ensures var (h, action) := Advance(env, g, t, op, phase, fails);
            && (action.Goto? ==> PhaseFits(op, action.phase)
                                 && (action.phase.Notifying? ==> action.phase.round < |h.rounds|))
            && (action.CallOut? ==> phase.Notifying?)
            && |g.rounds| <= |h.rounds|
  {
  }

  lemma {:induction false} MoveKeepsStack(stack: seq<Frame>, op: Op, action: Action)
    requires stack != [] && StackOk(stack) && Last(stack).Call? && Last(stack).op == op
    requires action.Goto? ==> PhaseFits(op, action.phase)
    requires action.CallOut? ==> Last(stack).phase.Notifying?
    ensures StackOk(Move(stack, op, action))
    ensures action.Finish? && Move(stack, op, action) != [] ==> Last(Move(stack, op, action)).Callback?
  {
    var after := Move(stack, op, action);
    forall i ensures NestsAt(after, i) { assert NestsAt(stack, i); }
    assert NestsAt(stack, |stack| - 2);
  }

  /** One step of the innermost call leaves it owning exactly the locks its next phase needs. */
  lemma {:induction false} AdvanceOwns(env: Env, g: Shared, t: Thread, stack: seq<Frame>, fails: bool)
    requires stack != [] && Last(stack).Call? && StackOk(stack) && Owns(g, t, stack)
    requires Ready(g, Last(stack).phase)
    ensures var Call(op, phase) := Last(stack);
            var (h, action) := Advance(env, g, t, op, phase, fails);
            Owns(h, t, Move(stack, op, action))
  {
    var Call(op, phase) := Last(stack);
    var (h, action) := Advance(env, g, t, op, phase, fails);
    ActionFits(env, g, t, op, phase, fails);
    MoveKeepsStack(stack, op, action);
    hide StackOk;
  }

  /** ... and takes nothing away from anyone else. */
  lemma {:induction false} AdvanceSparesOthers(env: Env, g: Shared, t: Thread, op: Op, phase: Phase, fails: bool, u: Thread)
    requires Ready(g, phase) && PhaseFits(op, phase) && u != t
    requires HoldsWriteLock(Call(op, phase)) ==> g.writeLock == Some(t)
    requires HoldsCurrent(Call(op, phase)) ==> g.currentWriter == Some(t)
    requires HoldsSubscribers(Call(op, phase)) ==> g.subscribersLock == Some(t)
    ensures var h := Advance(env, g, t, op, phase, fails).0;
            && (h.writeLock == Some(u) <==> g.writeLock == Some(u))
            && (h.currentWriter == Some(u) <==> g.currentWriter == Some(u))
            && (u in h.currentReaders <==> u in g.currentReaders)
            && (h.subscribersLock == Some(u) <==> g.subscribersLock == Some(u))
  {
  }

  lemma {:induction false} AdvanceReaders(env: Env, g: Shared, t: Thread, op: Op, phase: Phase, fails: bool)
    requires Ready(g, phase) && PhaseFits(op, phase)
    requires g.currentWriter.Some? ==> g.currentReaders == {}
    ensures var h := Advance(env, g, t, op, phase, fails).0; h.currentWriter.Some? ==> h.currentReaders == {}
  {
  }

  lemma {:induction false} CallStep(s: State, step: Step)
    requires !step.Proceed? && Enabled(s, step) && ThreadOk(s, step.t)
    ensures forall env :: ThreadOk(Apply(env, s, step), step.t)
  {
    var stack := Stack(s, step.t);
    if step.Invoke? {
      var more := stack + [Call(step.op, FirstPhase(step.op))];
      forall i ensures NestsAt(more, i) { assert NestsAt(stack, i); }
    } else {
      var less := stack[..|stack| - 1];
      forall i ensures NestsAt(less, i) { assert NestsAt(stack, i); }
      assert NestsAt(stack, |stack| - 2);
    }
  }

  lemma {:induction false} ProceedStep(env: Env, s: State, step: Step)
    requires step.Proceed? && Enabled(s, step) && ThreadOk(s, step.t)
    ensures ThreadOk(Apply(env, s, step), step.t)
  {
    hide Advance;
    var stack := Stack(s, step.t);
    var Call(op, phase) := Last(stack);
    var (h, action) := Advance(env, s.shared, step.t, op, phase, step.fails);
    ActionFits(env, s.shared, step.t, op, phase, step.fails);
    MoveKeepsStack(stack, op, action);
    AdvanceOwns(env, s.shared, step.t, stack, step.fails);
  }

  lemma {:induction false} OtherThreadsStep(env: Env, s: State, step: Step, u: Thread)
    requires Enabled(s, step) && ThreadOk(s, step.t) && ThreadOk(s, u) && u != step.t
    ensures ThreadOk(Apply(env, s, step), u)
  {
    hide Advance;
    if step.Proceed? {
      var Call(op, phase) := Top(s, step.t);
      AdvanceSparesOthers(env, s.shared, step.t, op, phase, step.fails, u);
      ActionFits(env, s.shared, step.t, op, phase, step.fails);
    }
  }

  lemma {:induction false} ReadersStep(env: Env, s: State, step: Step)
    requires Enabled(s, step) && Inv(s)
    ensures Apply(env, s, step).shared.currentWriter.Some? ==> Apply(env, s, step).shared.currentReaders == {}
  {
    hide Advance;
    assert ThreadOk(s, step.t);
    if step.Proceed? {
      AdvanceReaders(env, s.shared, step.t, Top(s, step.t).op, Top(s, step.t).phase, step.fails);
    }
  }

  lemma {:induction false} StepKeepsInv(env: Env, s: State, step: Step)
    requires Inv(s) && Enabled(s, step)
    ensures Inv(Apply(env, s, step))
  {
    ReadersStep(env, s, step);
    hide Apply, Enabled, ThreadOk;
    forall t ensures ThreadOk(Apply(env, s, step), t) {
      if t != step.t {
        OtherThreadsStep(env, s, step, t);
      } else if step.Proceed? {
        ProceedStep(env, s, step);
      } else {
        CallStep(s, step);
      }
    }
  }

  lemma {:induction false} RunKeepsInv(env: Env, s: State, steps: seq<Step>)
    requires Inv(s) && IsRun(env, s, steps)
    ensures Inv(After(env, s, steps))
    decreases |steps|
  {
    hide Inv, Enabled, Apply;
    if steps != [] {
      StepKeepsInv(env, s, steps[0]);
      RunKeepsInv(env, Apply(env, s, steps[0]), steps[1..]);
    }
  }

  // ---------------------------------------------------------------- theorems

  /** Some thread that is in the middle of a call or a callback can move on. */
  ghost predicate SomeoneCanStep(s: State) {
    exists step: Step :: !step.Invoke? && Unfinished(s, step.t) && Enabled(s, step)
  }

  predicate CanProceed(s: State, t: Thread) { Enabled(s, Proceed(t, false)) }

  /** Whoever owns the current-value lock or the subscriber lock is never waiting. */
  lemma {:induction false} OwnersOfInnerLocksProceed(s: State, t: Thread)
    requires ThreadOk(s, t)
    requires s.shared.currentWriter == Some(t) || t in s.shared.currentReaders || s.shared.subscribersLock == Some(t)
    ensures CanProceed(s, t)
  {
  }

  /** Waiting for `current` ends: the owner, or one of the readers, can proceed. */
  lemma {:induction false} CurrentIsReleased(s: State)
    requires Inv(s) && (s.shared.currentWriter.Some? || s.shared.currentReaders != {})
    ensures exists t :: Unfinished(s, t) && CanProceed(s, t)
  {
    var t := if s.shared.currentWriter.Some? then s.shared.currentWriter.value else var r :| r in s.shared.currentReaders; r;
    assert ThreadOk(s, t);
    OwnersOfInnerLocksProceed(s, t);
  }

  lemma {:induction false} StepFrom(s: State, t: Thread)
    requires Unfinished(s, t) && CanProceed(s, t)
    ensures SomeoneCanStep(s)
  {
    assert Enabled(s, Proceed(t, false)) && Proceed(t, false).t == t;
  }

  lemma {:induction false} InvMeansProgress(s: State, t: Thread)
    requires Inv(s) && Unfinished(s, t)
    ensures SomeoneCanStep(s)
  {
    assert ThreadOk(s, t);
    if Top(s, t).Callback? {
      assert Enabled(s, Return(t)) && Return(t).t == t;
    } else if CanProceed(s, t) {
      StepFrom(s, t);
    } else if Top(s, t).phase.WantSubscribers? {
      var owner := s.shared.subscribersLock.value;
      assert ThreadOk(s, owner);
      OwnersOfInnerLocksProceed(s, owner);
      StepFrom(s, owner);
    } else if s.shared.currentWriter.Some? || s.shared.currentReaders != {} {
      CurrentIsReleased(s);
      var owner :| Unfinished(s, owner) && CanProceed(s, owner);
      StepFrom(s, owner);
    } else {
      var owner := s.shared.writeLock.value;
      assert ThreadOk(s, owner);
      StepFrom(s, owner);
    }
  }

  /** No run of any number of threads and re-entrant callbacks ever deadlocks. */
  lemma {:induction false} DeadlockFree(env: Env, s: State, steps: seq<Step>, t: Thread)
    requires Init(s) && IsRun(env, s, steps) && Unfinished(After(env, s, steps), t)
    ensures SomeoneCanStep(After(env, s, steps))
  {
    RunKeepsInv(env, s, steps);
    InvMeansProgress(After(env, s, steps), t);
  }

  ghost predicate OwnsNothing(s: State, t: Thread) {
    s.shared.writeLock != Some(t) && s.shared.currentWriter != Some(t) && t !in s.shared.currentReaders && s.shared.subscribersLock != Some(t)
  }

  predicate AwaitsFirstLock(f: Frame) {
    f.Call? && (f.phase.WantWriteLock? || f.phase.WantSubscribers? || f.phase.WantRead? || (f.phase.WantCurrent? && !TakesWriteLock(f.op)))
  }

  /** While a thread runs subscriber code, or waits for a first lock, it owns no lock of the store. */
  lemma {:induction false} CallbacksRunUnlocked(env: Env, s: State, steps: seq<Step>, t: Thread)
    requires Init(s) && IsRun(env, s, steps) && Unfinished(After(env, s, steps), t)
    ensures Top(After(env, s, steps), t).Callback? || AwaitsFirstLock(Top(After(env, s, steps), t))
            ==> OwnsNothing(After(env, s, steps), t)
  {
    RunKeepsInv(env, s, steps);
    assert ThreadOk(After(env, s, steps), t);
  }
}

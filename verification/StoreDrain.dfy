/** Once nobody makes new calls, the configuration store comes to rest: every call and callback finishes. */
module StoreDrain {
  import opened StoreMachine
  import Locks = StoreLocks

  // ----------------------------------------------------------- sums over threads

  ghost function Pick(m: map<Thread, seq<Frame>>): (t: Thread)
    requires m != map[]
    ensures t in m
  {
    var t :| t in m;
    t
  }

  ghost function Sum(m: map<Thread, seq<Frame>>, f: seq<Frame> -> nat): nat
    decreases m.Keys
  {
    if m == map[] then 0 else var t := Pick(m); f(m[t]) + Sum(m - {t}, f)
  }

  lemma {:induction false} SumPick(m: map<Thread, seq<Frame>>, f: seq<Frame> -> nat, t: Thread)
    requires t in m
    ensures Sum(m, f) == f(m[t]) + Sum(m - {t}, f)
    decreases m.Keys
  {
    var u := Pick(m);
    if u != t {
      SumPick(m - {u}, f, t);
      SumPick(m - {t}, f, u);
      assert m - {u} - {t} == m - {t} - {u};
    }
  }

  /** Changing one thread changes the sum by that thread's part. */
  lemma {:induction false} SumUpdate(m: map<Thread, seq<Frame>>, f: seq<Frame> -> nat, t: Thread, v: seq<Frame>)
    requires t in m
    ensures Sum(m[t := v], f) + f(m[t]) == Sum(m, f) + f(v)
  {
    SumPick(m, f, t);
    SumPick(m[t := v], f, t);
    assert m[t := v] - {t} == m - {t};
  }

  lemma {:induction false} SumMonotone(m: map<Thread, seq<Frame>>, f: seq<Frame> -> nat, g: seq<Frame> -> nat)
    requires forall t :: t in m ==> f(m[t]) <= g(m[t])
    ensures Sum(m, f) <= Sum(m, g)
    decreases m.Keys
  {
    if m != map[] { SumMonotone(m - {Pick(m)}, f, g); }
  }

  // -------------------------------------------------------- how much is left to do

  function CallsLeft(r: Round): nat { if |r.calls| < |r.snapshot| then |r.snapshot| - |r.calls| else 0 }

  /** A bound on the steps of one frame while there are at most n subscribers. */
  function FrameWork(rounds: seq<Round>, n: nat, f: Frame): nat {
    match f
    case Callback(_, _) => 1
    case Call(_, phase) =>
      match phase
      case Start => 2 * n + 12
      case WantWriteLock => 2 * n + 11
      case HasWriteLock => 2 * n + 10
      case WantCurrent(_) => 2 * n + 9
      case HasCurrent(_) => 2 * n + 8
      case Assigned(_) => 2 * n + 7
      case ReleaseWriteLock(_) => 2 * n + 6
      case WantSubscribers(_) => 2 * n + 5
      case HasSubscribers(_) => 2 * n + 4
      case Notifying(r) => if r < |rounds| then 2 * CallsLeft(rounds[r]) + 1 else 2 * n + 3
      case WantRead => 2
      case HasRead => 1
  }

  function StackWork(rounds: seq<Round>, n: nat, stack: seq<Frame>): nat {
    if stack == [] then 0 else StackWork(rounds, n, stack[..|stack| - 1]) + FrameWork(rounds, n, Last(stack))
  }

  function WorkOf(rounds: seq<Round>, n: nat): seq<Frame> -> nat { stack => StackWork(rounds, n, stack) }

  /** A bound on the steps left in a state, if nobody starts a new call. */
  ghost function Work(s: State, n: nat): nat { Sum(s.threads, WorkOf(s.shared.rounds, n)) }

  function StackSubscribes(stack: seq<Frame>): nat {
    if stack == [] then 0
    else StackSubscribes(stack[..|stack| - 1]) + if Last(stack).Call? && Last(stack).op.Subscribe? then 1 else 0
  }

  function Subscribes(): seq<Frame> -> nat { stack => StackSubscribes(stack) }

  /** The subscribers there are and those whose `subscribe` is still running. */
  ghost function Growth(s: State): nat { |s.shared.subscribers| + Sum(s.threads, Subscribes()) }

  // ------------------------------------------------------------------- one step

  /** `h` has the rounds of `g`, none with more calls left, and new ones of at most n calls. */
  ghost predicate RoundsShrink(g: seq<Round>, h: seq<Round>, n: nat) {
    && |g| <= |h|
    && (forall i :: 0 <= i < |g| ==> CallsLeft(h[i]) <= CallsLeft(g[i]))
    && (forall i :: |g| <= i < |h| ==> CallsLeft(h[i]) <= n)
  }

  lemma {:induction false} StackWorkShrinks(g: seq<Round>, h: seq<Round>, n: nat, stack: seq<Frame>)
    requires RoundsShrink(g, h, n)
    ensures StackWork(h, n, stack) <= StackWork(g, n, stack)
  {
    if stack != [] {
      StackWorkShrinks(g, h, n, stack[..|stack| - 1]);
      FrameWorkShrinks(g, h, n, Last(stack));
    }
  }

  lemma {:induction false} FrameWorkShrinks(g: seq<Round>, h: seq<Round>, n: nat, f: Frame)
    requires RoundsShrink(g, h, n)
    ensures FrameWork(h, n, f) <= FrameWork(g, n, f)
  {
  }

  lemma {:induction false} AdvanceShrinks(env: Env, g: Shared, t: Thread, op: Op, phase: Phase, fails: bool, n: nat)
    requires Ready(g, phase) && |g.subscribers| <= n
    ensures RoundsShrink(g.rounds, Advance(env, g, t, op, phase, fails).0.rounds, n)
  {
  }

  /** What a step leaves of its own frame, callback included, is less than the frame was. */
  lemma {:induction false} AdvanceWorks(env: Env, g: Shared, t: Thread, op: Op, phase: Phase, fails: bool, n: nat)
    requires Ready(g, phase) && |g.subscribers| <= n
    ensures var (h, action) := Advance(env, g, t, op, phase, fails);
            match action
            case Goto(p) => FrameWork(h.rounds, n, Call(op, p)) < FrameWork(g.rounds, n, Call(op, phase))
            case Finish => 0 < FrameWork(g.rounds, n, Call(op, phase))
            case CallOut(_, _) => FrameWork(h.rounds, n, Call(op, phase)) + 1 < FrameWork(g.rounds, n, Call(op, phase))
  {
  }

  lemma {:induction false} AdvanceSubscribes(env: Env, g: Shared, t: Thread, op: Op, phase: Phase, fails: bool)
    requires Ready(g, phase)
    ensures var (h, action) := Advance(env, g, t, op, phase, fails);
            |h.subscribers| <= |g.subscribers| + if op.Subscribe? && action.Finish? then 1 else 0
  {
  }

  lemma {:induction false} MoveWorks(env: Env, g: Shared, t: Thread, stack: seq<Frame>, fails: bool, n: nat)
    requires stack != [] && Last(stack).Call? && Ready(g, Last(stack).phase) && |g.subscribers| <= n
    ensures var (h, action) := Advance(env, g, t, Last(stack).op, Last(stack).phase, fails);
            && StackWork(h.rounds, n, Move(stack, Last(stack).op, action)) < StackWork(g.rounds, n, stack)
            && |h.subscribers| + StackSubscribes(Move(stack, Last(stack).op, action)) <= |g.subscribers| + StackSubscribes(stack)
  {
    var Call(op, phase) := Last(stack);
    AdvanceShrinks(env, g, t, op, phase, fails, n);
    AdvanceWorks(env, g, t, op, phase, fails, n);
    AdvanceSubscribes(env, g, t, op, phase, fails);
    var (h, action) := Advance(env, g, t, op, phase, fails);
    var below := stack[..|stack| - 1];
    hide Advance, Ready, FrameWork;
    StackWorkShrinks(g.rounds, h.rounds, n, below);
    match action {
      case Goto(p) =>
        assert (below + [Call(op, p)])[..|below|] == below;
      case Finish =>
      case CallOut(f, v) =>
        assert (stack + [Callback(f, v)])[..|stack|] == stack;
        CallbackWork(h.rounds, n, f, v);
    }
  }

  lemma {:induction false} CallbackWork(rounds: seq<Round>, n: nat, f: Subscriber, v: Value)
    ensures FrameWork(rounds, n, Callback(f, v)) == 1
  {
  }

  /** Every step but a new call uses up work, and the subscribers to come are already counted. */
  lemma {:induction false} StepDrains(env: Env, s: State, step: Step, n: nat)
    requires Enabled(s, step) && !step.Invoke? && Growth(s) <= n
    ensures Work(Apply(env, s, step), n) < Work(s, n)
    ensures Growth(Apply(env, s, step)) <= Growth(s)
  {
    var u, t, stack := Apply(env, s, step), step.t, Stack(s, step.t);
    var next := u.threads[t];
    if step.Return? {
      ReturnWorks(s.shared.rounds, n, stack);
    } else {
      MoveWorks(env, s.shared, t, stack, step.fails, n);
      AdvanceShrinks(env, s.shared, t, Last(stack).op, Last(stack).phase, step.fails, n);
    }
    ThreadDrains(s, u, t, next, n);
  }

  lemma {:induction false} ReturnWorks(rounds: seq<Round>, n: nat, stack: seq<Frame>)
    requires stack != [] && Last(stack).Callback?
    ensures StackWork(rounds, n, stack[..|stack| - 1]) < StackWork(rounds, n, stack)
    ensures StackSubscribes(stack[..|stack| - 1]) == StackSubscribes(stack)
    ensures RoundsShrink(rounds, rounds, n)
  {
  }

  lemma {:induction false} ThreadDrains(s: State, u: State, t: Thread, next: seq<Frame>, n: nat)
    requires t in s.threads && u.threads == s.threads[t := next] && RoundsShrink(s.shared.rounds, u.shared.rounds, n)
    requires StackWork(u.shared.rounds, n, next) < StackWork(s.shared.rounds, n, s.threads[t])
    requires |u.shared.subscribers| + StackSubscribes(next) <= |s.shared.subscribers| + StackSubscribes(s.threads[t])
    ensures Work(u, n) < Work(s, n) && Growth(u) <= Growth(s)
  {
    var f, g := WorkOf(u.shared.rounds, n), WorkOf(s.shared.rounds, n);
    forall x | x in s.threads ensures f(s.threads[x]) <= g(s.threads[x]) {
      StackWorkShrinks(s.shared.rounds, u.shared.rounds, n, s.threads[x]);
    }
    SumMonotone(s.threads - {t}, f, g);
    SumPick(s.threads, g, t);
    SumPick(u.threads, f, t);
    assert u.threads - {t} == s.threads - {t};
    SumUpdate(s.threads, Subscribes(), t, next);
  }

  // -------------------------------------------------------------------- theorems

  predicate NoNewCalls(steps: seq<Step>) { forall k :: 0 <= k < |steps| ==> !steps[k].Invoke? }

  lemma {:induction false} RunDrains(env: Env, s: State, steps: seq<Step>, n: nat)
    requires IsRun(env, s, steps) && NoNewCalls(steps) && Growth(s) <= n
    ensures |steps| <= Work(s, n)
    decreases |steps|
  {
    if steps != [] {
      hide Enabled, Apply, Work, Growth;
      StepDrains(env, s, steps[0], n);
      RunDrains(env, Apply(env, s, steps[0]), steps[1..], n);
    }
  }

  lemma {:induction false} RunConcat(env: Env, s: State, a: seq<Step>, b: seq<Step>)
    requires IsRun(env, s, a) && IsRun(env, After(env, s, a), b)
    ensures IsRun(env, s, a + b) && After(env, s, a + b) == After(env, After(env, s, a), b)
    decreases |a|
  {
    if a == [] {
      assert a + b == b;
    } else {
      assert (a + b)[1..] == a[1..] + b;
      RunConcat(env, Apply(env, s, a[0]), a[1..], b);
    }
  }

  /**
   * From every reachable state: without new calls the store takes at most a number of steps fixed in advance,
   * whatever the subscribers did before, and it only stops when every call and callback has finished.
   */
  lemma {:induction false} ComesToRest(env: Env, first: State, before: seq<Step>, steps: seq<Step>)
    requires Init(first) && IsRun(env, first, before)
    requires IsRun(env, After(env, first, before), steps) && NoNewCalls(steps)
    ensures var s := After(env, first, before); |steps| <= Work(s, Growth(s))
    ensures var end := After(env, After(env, first, before), steps);
            !Locks.SomeoneCanStep(end) <==> forall t :: !Unfinished(end, t)
  {
    var s := After(env, first, before);
    RunDrains(env, s, steps, Growth(s));
    RunConcat(env, first, before, steps);
    var end := After(env, s, steps);
    if t :| Unfinished(end, t) { Locks.DeadlockFree(env, first, before + steps, t); }
  }
}

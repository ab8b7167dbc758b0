/** Where every notification round comes from: who was subscribed at its moment, and whose value it announces. */
module StoreRounds {
  import opened Wrappers
  import opened StoreMachine
  import opened StoreCalls
  import Locks = StoreLocks
  import History = StoreHistory

  /** Step k is thread t's own step of the call on top of d frames, which performs `op` and is in phase `p`. */
  predicate Moves(states: seq<State>, steps: seq<Step>, k: int, t: Thread, d: nat, op: Op, p: Phase) {
    && 0 <= k < |steps| && |states| == |steps| + 1
    && steps[k].Proceed? && steps[k].t == t
    && Depth(states[k], t) == d + 1 && Stack(states[k], t)[d] == Call(op, p)
  }

  /** The call reads the backend and finds `v`. */
  predicate Reads(env: Env, states: seq<State>, steps: seq<Step>, k: int, t: Thread, d: nat, op: Op, v: Value) {
    Moves(states, steps, k, t, d, op, Start) && env.load(states[k].shared.backend) == Some(v)
  }

  /** The call puts `v` into the cache. */
  predicate Swaps(states: seq<State>, steps: seq<Step>, k: int, t: Thread, d: nat, op: Op, v: Value) {
    Moves(states, steps, k, t, d, op, HasCurrent(v)) && states[k + 1].shared.current == v
  }

  /** Since step b the call has installed `v`; a refresh has read it from the backend before that. */
  predicate Installs(env: Env, states: seq<State>, steps: seq<Step>, b: int, read: int, swap: int, t: Thread, d: nat, op: Op, v: Value) {
    && b < swap && Swaps(states, steps, swap, t, d, op, v)
    && (History.Refreshes(op) ==> b < read < swap && Reads(env, states, steps, read, t, d, op, v))
  }

  /** The call starts round i: its snapshot is the whole list of subscribers of that moment. */
  predicate Snaps(states: seq<State>, steps: seq<Step>, k: int, t: Thread, d: nat, i: nat, r: Round) {
    && Moves(states, steps, k, t, d, r.op, HasSubscribers(r.value))
    && |states[k].shared.rounds| == i && |states[k + 1].shared.rounds| == i + 1
    && states[k].shared.subscribers == r.snapshot
  }

  // --------------------------------------------------------------- what frames remember

  ghost predicate HasRead(env: Env, states: seq<State>, steps: seq<Step>, b: int, k: int, t: Thread, d: nat, op: Op, v: Value) {
    History.Refreshes(op) ==> exists read :: b < read < k && Reads(env, states, steps, read, t, d, op, v)
  }

  ghost predicate HasInstalled(env: Env, states: seq<State>, steps: seq<Step>, b: int, k: int, t: Thread, d: nat, op: Op, v: Value) {
    exists read, swap :: swap < k && Installs(env, states, steps, b, read, swap, t, d, op, v)
  }

  /** The value in a frame has been read, or read and installed, by its own call since it was made at step b. */
  ghost predicate ValueExplained(env: Env, states: seq<State>, steps: seq<Step>, b: int, k: int, t: Thread, d: nat, op: Op, p: Phase) {
    !op.Subscribe? ==>
      match p
      case WantCurrent(v) => HasRead(env, states, steps, b, k, t, d, op, v)
      case HasCurrent(v) => HasRead(env, states, steps, b, k, t, d, op, v)
      case Assigned(v) => HasInstalled(env, states, steps, b, k, t, d, op, v)
      case ReleaseWriteLock(i) => i.Some? ==> HasInstalled(env, states, steps, b, k, t, d, op, i.value)
      case WantSubscribers(v) => HasInstalled(env, states, steps, b, k, t, d, op, v)
      case HasSubscribers(v) => HasInstalled(env, states, steps, b, k, t, d, op, v)
      case _ => true
  }

  ghost predicate Since(env: Env, states: seq<State>, steps: seq<Step>, b: int, k: int, t: Thread, d: nat, op: Op, p: Phase) {
    Runs(states, steps, b, k, t, op, d) && ValueExplained(env, states, steps, b, k, t, d, op, p)
  }

  /** Before step k: the frame on top of d others belongs to a call that has been running since it was made. */
  ghost predicate FrameExplained(env: Env, states: seq<State>, steps: seq<Step>, k: int, t: Thread, d: nat, f: Frame) {
    f.Call? ==> exists b :: Since(env, states, steps, b, k, t, d, f.op, f.phase)
  }

  ghost predicate FramesExplained(env: Env, states: seq<State>, steps: seq<Step>, k: int)
    requires 0 <= k < |states|
  {
    forall t, d: nat :: d < |Stack(states[k], t)| ==> FrameExplained(env, states, steps, k, t, d, Stack(states[k], t)[d])
  }

  /** One call, made at step b and running until it starts the round, has installed the value and then announces it. */
  ghost predicate Announced(env: Env, states: seq<State>, steps: seq<Step>, i: nat, r: Round, t: Thread, d: nat, b: int, read: int, swap: int, snap: int) {
    && Runs(states, steps, b, snap, t, r.op, d) && swap < snap
    && Installs(env, states, steps, b, read, swap, t, d, r.op, r.value) && Snaps(states, steps, snap, t, d, i, r)
  }

  ghost predicate RoundExplained(env: Env, states: seq<State>, steps: seq<Step>, k: int, i: nat, r: Round) {
    exists t, d, b, read, swap, snap :: snap < k && Announced(env, states, steps, i, r, t, d, b, read, swap, snap)
  }

  ghost predicate RoundsExplained(env: Env, states: seq<State>, steps: seq<Step>, k: int)
    requires 0 <= k < |states|
  {
    forall i :: 0 <= i < |states[k].shared.rounds| ==> RoundExplained(env, states, steps, k, i, states[k].shared.rounds[i])
  }

  // ------------------------------------------------------------------------ one step

  /** Where the value of the next phase comes from. */
  lemma {:induction false} AdvanceCarries(env: Env, g: Shared, t: Thread, op: Op, phase: Phase, fails: bool)
    requires Ready(g, phase) && Locks.PhaseFits(op, phase)
    ensures var (h, action) := Advance(env, g, t, op, phase, fails);
            action.Goto? ==>
              match action.phase
              case WantCurrent(v) => History.Refreshes(op) ==> phase.Start? && env.load(g.backend) == Some(v)
              case HasCurrent(v) => phase == WantCurrent(v)
              case Assigned(v) => phase == HasCurrent(v) && h.current == v
              case ReleaseWriteLock(i) => i.Some? ==> phase == Assigned(i.value)
              case WantSubscribers(v) => phase == Assigned(v) || phase == ReleaseWriteLock(Some(v))
              case HasSubscribers(v) => phase == WantSubscribers(v)
              case _ => true
  {
  }

  /** The same announcement to the same people, with the same or more of them called. */
  predicate SameRound(r: Round, q: Round) {
    q.op == r.op && q.value == r.value && q.snapshot == r.snapshot && r.calls <= q.calls && (r.over ==> q.over)
  }

  /** Subscribers and rounds are only added; a new round announces the value in hand to everyone subscribed. */
  lemma {:induction false} AdvanceStartsRounds(env: Env, g: Shared, t: Thread, op: Op, phase: Phase, fails: bool)
    requires Ready(g, phase)
    ensures var h := Advance(env, g, t, op, phase, fails).0;
            && g.subscribers <= h.subscribers
            && |g.rounds| <= |h.rounds| <= |g.rounds| + 1
            && (forall i :: 0 <= i < |g.rounds| ==> SameRound(g.rounds[i], h.rounds[i]))
            && (|h.rounds| == |g.rounds| + 1 ==>
                  var r := h.rounds[|g.rounds|];
                  !op.Subscribe? && r.op == op && phase == HasSubscribers(r.value) && r.snapshot == g.subscribers)
  {
  }

  /** What was explained stays explained while the call runs. */
  lemma {:induction false} ExplainedLater(env: Env, states: seq<State>, steps: seq<Step>, b: int, k: int, t: Thread, d: nat, op: Op, p: Phase)
    requires Since(env, states, steps, b, k, t, d, op, p) && k + 1 < |states| && Depth(states[k + 1], t) > d
    ensures Since(env, states, steps, b, k + 1, t, d, op, p)
  {
    hide Reads, Installs;
  }

  lemma {:induction false} MovedValue(env: Env, states: seq<State>, steps: seq<Step>, b: int, k: int, t: Thread, d: nat, op: Op, phase: Phase)
    requires Moves(states, steps, k, t, d, op, phase) && Enabled(states[k], steps[k]) && states[k + 1] == Apply(env, states[k], steps[k])
    requires Locks.PhaseFits(op, phase) && Since(env, states, steps, b, k, t, d, op, phase) && Depth(states[k + 1], t) > d
    ensures var action := Advance(env, states[k].shared, t, op, phase, steps[k].fails).1;
            action.Goto? ==> Since(env, states, steps, b, k + 1, t, d, op, action.phase)
  {
    AdvanceCarries(env, states[k].shared, t, op, phase, steps[k].fails);
    ExplainedLater(env, states, steps, b, k, t, d, op, phase);
    hide Advance, HasInstalled, HasRead, Runs;
    var action := Advance(env, states[k].shared, t, op, phase, steps[k].fails).1;
    if action.Goto? && !op.Subscribe? {
      match action.phase {
        case WantCurrent(v) => ReadNow(env, states, steps, b, k, t, d, op, phase, v);
        case Assigned(v) => InstalledNow(env, states, steps, b, k, t, d, op, v);
        case _ =>
      }
    }
  }

  lemma {:induction false} ReadNow(env: Env, states: seq<State>, steps: seq<Step>, b: int, k: int, t: Thread, d: nat, op: Op, phase: Phase, v: Value)
    requires Moves(states, steps, k, t, d, op, phase) && Runs(states, steps, b, k, t, op, d)
    requires History.Refreshes(op) ==> phase.Start? && env.load(states[k].shared.backend) == Some(v)
    ensures HasRead(env, states, steps, b, k + 1, t, d, op, v)
  {
    assert History.Refreshes(op) ==> Reads(env, states, steps, k, t, d, op, v);
  }

  lemma {:induction false} InstalledNow(env: Env, states: seq<State>, steps: seq<Step>, b: int, k: int, t: Thread, d: nat, op: Op, v: Value)
    requires Swaps(states, steps, k, t, d, op, v) && Runs(states, steps, b, k, t, op, d) && HasRead(env, states, steps, b, k, t, d, op, v)
    ensures HasInstalled(env, states, steps, b, k + 1, t, d, op, v)
  {
    if History.Refreshes(op) {
      var read :| b < read < k && Reads(env, states, steps, read, t, d, op, v);
      assert Installs(env, states, steps, b, read, k, t, d, op, v);
    } else {
      assert Installs(env, states, steps, b, k, k, t, d, op, v);
    }
  }

  /** A frame that the step does not touch. */
  lemma {:induction false} KeptFrame(env: Env, states: seq<State>, steps: seq<Step>, k: int, t: Thread, d: nat, f: Frame)
    requires 0 <= k < |steps| && |states| == |steps| + 1 && Depth(states[k + 1], t) > d
    requires FrameExplained(env, states, steps, k, t, d, f)
    ensures FrameExplained(env, states, steps, k + 1, t, d, f)
  {
    if f.Call? {
      var b :| Since(env, states, steps, b, k, t, d, f.op, f.phase);
      ExplainedLater(env, states, steps, b, k, t, d, f.op, f.phase);
      assert Since(env, states, steps, b, k + 1, t, d, f.op, f.phase);
    }
  }

  /** A frame that moves on to its next phase. */
  lemma {:induction false} MovedFrame(env: Env, states: seq<State>, steps: seq<Step>, k: int, t: Thread, d: nat, op: Op, phase: Phase)
    requires Moves(states, steps, k, t, d, op, phase) && Enabled(states[k], steps[k]) && states[k + 1] == Apply(env, states[k], steps[k])
    requires Locks.PhaseFits(op, phase) && FrameExplained(env, states, steps, k, t, d, Call(op, phase)) && Depth(states[k + 1], t) > d
    ensures var action := Advance(env, states[k].shared, t, op, phase, steps[k].fails).1;
            action.Goto? ==> FrameExplained(env, states, steps, k + 1, t, d, Call(op, action.phase))
  {
    hide Advance, Since;
    var b :| Since(env, states, steps, b, k, t, d, op, phase);
    MovedValue(env, states, steps, b, k, t, d, op, phase);
  }

  /** The frame of a call just made. */
  lemma {:induction false} MadeFrame(env: Env, states: seq<State>, steps: seq<Step>, k: int, t: Thread, op: Op)
    requires 0 <= k < |steps| && |states| == |steps| + 1 && steps[k] == Invoke(t, op)
    requires Enabled(states[k], steps[k]) && states[k + 1] == Apply(env, states[k], steps[k])
    ensures FrameExplained(env, states, steps, k + 1, t, Depth(states[k], t), Call(op, FirstPhase(op)))
  {
    assert Since(env, states, steps, k, k + 1, t, Depth(states[k], t), op, FirstPhase(op));
  }

  lemma {:induction false} FramesStep(env: Env, states: seq<State>, steps: seq<Step>, k: int)
    requires 0 <= k < |steps| && |states| == |steps| + 1 && Locks.Inv(states[k])
    requires Enabled(states[k], steps[k]) && states[k + 1] == Apply(env, states[k], steps[k])
    requires FramesExplained(env, states, steps, k)
    ensures FramesExplained(env, states, steps, k + 1)
  {
    hide Advance, FrameExplained;
    var step, s, u := steps[k], states[k], states[k + 1];
    forall t, d: nat | d < |Stack(u, t)| ensures FrameExplained(env, states, steps, k + 1, t, d, Stack(u, t)[d]) {
      if d < |Stack(s, t)| && Stack(u, t)[d] == Stack(s, t)[d] {
        KeptFrame(env, states, steps, k, t, d, Stack(s, t)[d]);
      } else if step.Proceed? {
        assert Locks.ThreadOk(s, t);
        var Call(op, phase) := Top(s, t);
        assert Stack(s, t)[|Stack(s, t)| - 1] == Call(op, phase);
        var action := Advance(env, s.shared, t, op, phase, step.fails).1;
        if action.CallOut? { CallbackFrame(env, states, steps, k + 1, t, d, Stack(u, t)[d]); }
        else { MovedFrame(env, states, steps, k, t, d, op, phase); }
      } else {
        MadeFrame(env, states, steps, k, t, step.op);
      }
    }
  }

  lemma {:induction false} CallbackFrame(env: Env, states: seq<State>, steps: seq<Step>, k: int, t: Thread, d: nat, f: Frame)
    requires f.Callback?
    ensures FrameExplained(env, states, steps, k, t, d, f)
  {
  }

  lemma {:induction false} RoundsStep(env: Env, states: seq<State>, steps: seq<Step>, k: int)
    requires 0 <= k < |steps| && |states| == |steps| + 1
    requires Enabled(states[k], steps[k]) && states[k + 1] == Apply(env, states[k], steps[k])
    requires FramesExplained(env, states, steps, k) && RoundsExplained(env, states, steps, k)
    ensures RoundsExplained(env, states, steps, k + 1)
  {
    var step, g, h := steps[k], states[k].shared, states[k + 1].shared;
    if step.Proceed? {
      var t, stack := step.t, Stack(states[k], step.t);
      var Call(op, phase) := Last(stack);
      AdvanceStartsRounds(env, g, t, op, phase, step.fails);
      hide Advance, Apply, Enabled, RoundExplained;
      assert FrameExplained(env, states, steps, k, t, |stack| - 1, stack[|stack| - 1]);
      forall i | 0 <= i < |h.rounds| ensures RoundExplained(env, states, steps, k + 1, i, h.rounds[i]) {
        if i < |g.rounds| {
          RoundLater(env, states, steps, k, i, g.rounds[i], h.rounds[i]);
        } else {
          RoundNow(env, states, steps, k, t, |stack| - 1, h.rounds[i]);
        }
      }
    } else {
      assert h == g;
      hide Advance, Apply, Enabled, RoundExplained;
      forall i | 0 <= i < |h.rounds| ensures RoundExplained(env, states, steps, k + 1, i, h.rounds[i]) {
        RoundLater(env, states, steps, k, i, g.rounds[i], h.rounds[i]);
      }
    }
  }

  lemma {:induction false} RoundLater(env: Env, states: seq<State>, steps: seq<Step>, k: int, i: nat, r: Round, q: Round)
    requires RoundExplained(env, states, steps, k, i, r) && SameRound(r, q)
    ensures RoundExplained(env, states, steps, k + 1, i, q)
  {
    hide Installs, Runs;
    var t, d, b, read, swap, snap :| snap < k && Announced(env, states, steps, i, r, t, d, b, read, swap, snap);
    assert Announced(env, states, steps, i, q, t, d, b, read, swap, snap);
  }

  lemma {:induction false} RoundNow(env: Env, states: seq<State>, steps: seq<Step>, k: int, t: Thread, d: nat, r: Round)
    requires Moves(states, steps, k, t, d, r.op, HasSubscribers(r.value)) && !r.op.Subscribe?
    requires FrameExplained(env, states, steps, k, t, d, Call(r.op, HasSubscribers(r.value)))
    requires states[k].shared.subscribers == r.snapshot && |states[k + 1].shared.rounds| == |states[k].shared.rounds| + 1
    ensures RoundExplained(env, states, steps, k + 1, |states[k].shared.rounds|, r)
  {
    hide Installs, Runs;
    var b :| Since(env, states, steps, b, k, t, d, r.op, HasSubscribers(r.value));
    var read, swap :| swap < k && Installs(env, states, steps, b, read, swap, t, d, r.op, r.value);
    assert Announced(env, states, steps, |states[k].shared.rounds|, r, t, d, b, read, swap, k);
  }

  // ---------------------------------------------------------------------- whole runs

  lemma {:induction false} RunExplains(env: Env, s: State, steps: seq<Step>, k: nat)
    requires Init(s) && IsRun(env, s, steps) && k <= |steps|
    ensures var states := States(env, s, steps);
            Locks.Inv(states[k]) && FramesExplained(env, states, steps, k) && RoundsExplained(env, states, steps, k)
    decreases k
  {
    var states := States(env, s, steps);
    if k == 0 {
      History.InitHistory(env, s);
    } else {
      hide Enabled, Apply, Locks.Inv, FramesExplained, RoundsExplained, Init;
      RunExplains(env, s, steps, k - 1);
      StatesStep(env, s, steps, k - 1);
      Locks.StepKeepsInv(env, states[k - 1], steps[k - 1]);
      FramesStep(env, states, steps, k - 1);
      RoundsStep(env, states, steps, k - 1);
    }
  }

  /**
   * In every run, every notification round was started by a call that had, since it was made, installed its
   * value (and, for a reload, read that value from the backend before); its snapshot is exactly the
   * subscribers of the moment it started; and it has called a prefix of them, in order, once each, with that
   * value, and all of them when it is over, whatever has been subscribed since.
   */
  lemma {:induction false} RoundsFollowSnapshots(env: Env, s: State, steps: seq<Step>)
    requires Init(s) && IsRun(env, s, steps)
    ensures History.RoundsOk(After(env, s, steps).shared)
    ensures RoundsExplained(env, States(env, s, steps), steps, |steps|)
  {
    History.RunKeepsRounds(env, s, steps);
    RunExplains(env, s, steps, |steps|);
  }

  // --------------------------------------------------------------- nothing is taken back

  /** Later, the same subscribers and perhaps more, and the same rounds, further along, and perhaps more. */
  ghost predicate Extends(g: Shared, h: Shared) {
    && g.subscribers <= h.subscribers && |g.rounds| <= |h.rounds| && g.commits <= h.commits
    && forall i :: 0 <= i < |g.rounds| ==> SameRound(g.rounds[i], h.rounds[i])
  }

  lemma {:induction false} StepExtends(env: Env, s: State, step: Step)
    requires Locks.Inv(s) && History.ValuesOk(env, s) && Enabled(s, step)
    ensures Extends(s.shared, Apply(env, s, step).shared)
  {
    StepCommits(env, s, step);
    hide Advance;
    if step.Proceed? {
      var Call(op, phase) := Top(s, step.t);
      AdvanceStartsRounds(env, s.shared, step.t, op, phase, step.fails);
    }
  }

  lemma {:induction false} ExtendsTwice(f: Shared, g: Shared, h: Shared)
    requires Extends(f, g) && Extends(g, h)
    ensures Extends(f, h)
  {
    forall i | 0 <= i < |f.rounds| ensures SameRound(f.rounds[i], h.rounds[i]) {
      assert SameRound(f.rounds[i], g.rounds[i]) && SameRound(g.rounds[i], h.rounds[i]);
    }
  }

  /** In every run subscriptions, commits, rounds and the calls they have made are never taken back or changed. */
  lemma {:induction false} RunsExtend(env: Env, s: State, steps: seq<Step>, a: nat, b: nat)
    requires Init(s) && IsRun(env, s, steps) && a <= b <= |steps|
    ensures Extends(States(env, s, steps)[a].shared, States(env, s, steps)[b].shared)
    decreases b
  {
    if a < b {
      hide Enabled, Apply, Locks.Inv, History.ValuesOk, Extends, Init, IsRun, States;
      var states := States(env, s, steps);
      RunsExtend(env, s, steps, a, b - 1);
      StatesStep(env, s, steps, b - 1);
      StatesOk(env, s, steps, b - 1);
      StepExtends(env, states[b - 1], steps[b - 1]);
      ExtendsTwice(states[a].shared, states[b - 1].shared, states[b].shared);
    }
  }
}

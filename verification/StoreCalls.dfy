/** What a caller of `save` or `set_current_and_notify` gets: one commit, between the call and its return. */
module StoreCalls {
  import opened Wrappers
  import opened StoreMachine
  import Locks = StoreLocks
  import History = StoreHistory

  function Depth(s: State, t: Thread): nat { |Stack(s, t)| }

  /** The call that thread t made at step b, on top of d frames, is still running before step k. */
  predicate Runs(states: seq<State>, steps: seq<Step>, b: int, k: int, t: Thread, op: Op, d: nat) {
    && 0 <= b < k < |states| == |steps| + 1 && steps[b] == Invoke(t, op) && Depth(states[b], t) == d
    && forall j :: b < j <= k ==> Depth(states[j], t) > d
  }

  /** ... and it returns in step e. */
  predicate Returns(states: seq<State>, steps: seq<Step>, b: int, e: int, t: Thread, op: Op, d: nat) {
    e < |steps| && Runs(states, steps, b, e, t, op, d) && Depth(states[e + 1], t) == d
  }

  /** Step j is the call's own step, not one of a callback's calls, and commits a section. */
  predicate Commits(states: seq<State>, steps: seq<Step>, j: int, t: Thread, d: nat) {
    && 0 <= j < |steps| && |states| == |steps| + 1
    && steps[j].t == t && Depth(states[j], t) == d + 1 && states[j + 1].shared.commits != states[j].shared.commits
  }

  ghost predicate NotCommitted(states: seq<State>, steps: seq<Step>, b: int, k: int, t: Thread, d: nat) {
    forall j :: b < j < k ==> !Commits(states, steps, j, t, d)
  }

  /** Step c is the only one of the call to commit, and it commits `commit`. */
  ghost predicate CommitsAt(states: seq<State>, steps: seq<Step>, b: int, k: int, t: Thread, d: nat, c: int, commit: Commit) {
    && b < c < k && Commits(states, steps, c, t, d)
    && states[c + 1].shared.commits == states[c].shared.commits + [commit]
    && forall j :: b < j < k && Commits(states, steps, j, t, d) ==> j == c
  }

  ghost predicate CommittedOnce(states: seq<State>, steps: seq<Step>, b: int, k: int, t: Thread, d: nat, commit: Commit) {
    exists c :: CommitsAt(states, steps, b, k, t, d, c, commit)
  }

  // ----------------------------------------------------------------- inside a call

  /** The phases in which an install has given its lock back. */
  predicate Announcing(p: Phase) { p.WantSubscribers? || p.HasSubscribers? || p.Notifying? }

  /** The commit a section ends with. */
  function CommitOf(env: Env, op: Op, installed: Option<Value>): Commit {
    match op
    case Save(v) => if installed.Some? then Saved(env.stamp(v)) else SaveFailed
    case SetCurrent(v) => Installed(v)
    case _ => SaveFailed
  }

  lemma {:induction false} AdvanceCommits(env: Env, g: Shared, t: Thread, op: Op, phase: Phase, fails: bool)
    requires Ready(g, phase) && Locks.PhaseFits(op, phase) && History.ValueFits(env, Call(op, phase))
    ensures var (h, action) := Advance(env, g, t, op, phase, fails);
            && h.commits == g.commits + (if phase.ReleaseWriteLock? then [CommitOf(env, op, phase.installed)] else [])
            && (op.Save? && action.Finish? ==> phase.Start? || phase.ReleaseWriteLock?)
            && (op.Save? && phase.ReleaseWriteLock? ==> action.Finish?)
            && (op.SetCurrent? && action.Goto? ==>
                  (Announcing(action.phase) <==> phase.ReleaseWriteLock? || Announcing(phase)))
            && (op.SetCurrent? && action.Finish? ==> Announcing(phase))
  {
  }

  /** Where the call stands: the frame it started is still there, and has committed exactly if it says so. */
  ghost predicate Stands(states: seq<State>, steps: seq<Step>, b: int, k: int, t: Thread, op: Op, d: nat) {
    && Runs(states, steps, b, k, t, op, d) && Stack(states[k], t)[d].Call? && Stack(states[k], t)[d].op == op
    && if op.SetCurrent? && Announcing(Stack(states[k], t)[d].phase)
       then CommittedOnce(states, steps, b, k, t, d, Installed(op.v))
       else NotCommitted(states, steps, b, k, t, d)
  }

  lemma {:induction false} NothingNew(states: seq<State>, steps: seq<Step>, b: int, k: int, t: Thread, d: nat, commit: Commit)
    requires !Commits(states, steps, k, t, d)
    ensures NotCommitted(states, steps, b, k, t, d) ==> NotCommitted(states, steps, b, k + 1, t, d)
    ensures CommittedOnce(states, steps, b, k, t, d, commit) ==> CommittedOnce(states, steps, b, k + 1, t, d, commit)
  {
    hide Commits;
    if CommittedOnce(states, steps, b, k, t, d, commit) {
      var c :| CommitsAt(states, steps, b, k, t, d, c, commit);
      assert CommitsAt(states, steps, b, k + 1, t, d, c, commit);
    }
  }

  lemma {:induction false} FirstCommit(states: seq<State>, steps: seq<Step>, b: int, k: int, t: Thread, d: nat, commit: Commit)
    requires b < k && NotCommitted(states, steps, b, k, t, d) && Commits(states, steps, k, t, d)
    requires states[k + 1].shared.commits == states[k].shared.commits + [commit]
    ensures CommitsAt(states, steps, b, k + 1, t, d, k, commit)
  {
    hide Commits;
  }

  /** A step that is not the call's own leaves its frame alone. */
  lemma {:induction false} OthersLeaveFrame(env: Env, states: seq<State>, steps: seq<Step>, b: int, k: int, t: Thread, op: Op, d: nat)
    requires Stands(states, steps, b, k, t, op, d) && k < |steps|
    requires Enabled(states[k], steps[k]) && states[k + 1] == Apply(env, states[k], steps[k])
    requires steps[k].t != t || Depth(states[k], t) > d + 1
    requires Runs(states, steps, b, k + 1, t, op, d)
    ensures Stands(states, steps, b, k + 1, t, op, d)
  {
    hide Advance, CommittedOnce, NotCommitted;
    assert Stack(states[k + 1], t)[d] == Stack(states[k], t)[d];
    NothingNew(states, steps, b, k, t, d, if op.SetCurrent? then Installed(op.v) else SaveFailed);
  }

  /** The call's own step. */
  lemma {:induction false} OwnStep(env: Env, states: seq<State>, steps: seq<Step>, b: int, k: int, t: Thread, op: Op, d: nat)
    requires Stands(states, steps, b, k, t, op, d) && k < |steps| && Locks.ThreadOk(states[k], t)
    requires History.StackValuesOk(env, Stack(states[k], t))
    requires Enabled(states[k], steps[k]) && states[k + 1] == Apply(env, states[k], steps[k])
    requires steps[k].t == t && Depth(states[k], t) == d + 1
    ensures var phase := Stack(states[k], t)[d].phase;
            && steps[k].Proceed? && Locks.PhaseFits(op, phase)
            && (phase.ReleaseWriteLock? ==>
                  CommitsAt(states, steps, b, k + 1, t, d, k, CommitOf(env, op, phase.installed)))
            && (!phase.ReleaseWriteLock? ==> !Commits(states, steps, k, t, d))
            && (op.Save? && Depth(states[k + 1], t) == d ==> phase.Start? || phase.ReleaseWriteLock?)
            && (op.SetCurrent? && Depth(states[k + 1], t) == d ==> Announcing(phase))
            && (Depth(states[k + 1], t) > d ==> Stands(states, steps, b, k + 1, t, op, d))
  {
    hide Advance, CommittedOnce, NotCommitted, CommitsAt;
    var stack := Stack(states[k], t);
    var Call(_, phase) := stack[d];
    assert Last(stack) == stack[d];
    assert History.ValueFits(env, stack[d]);
    AdvanceCommits(env, states[k].shared, t, op, phase, steps[k].fails);
    Locks.ActionFits(env, states[k].shared, t, op, phase, steps[k].fails);
    var action := Advance(env, states[k].shared, t, op, phase, steps[k].fails).1;
    if phase.ReleaseWriteLock? {
      FirstCommit(states, steps, b, k, t, d, CommitOf(env, op, phase.installed));
    }
    if Depth(states[k + 1], t) > d {
      assert Runs(states, steps, b, k + 1, t, op, d);
      OwnStepStands(env, states, steps, b, k, t, op, d, action);
    }
  }

  lemma {:induction false} OwnStepStands(env: Env, states: seq<State>, steps: seq<Step>, b: int, k: int, t: Thread, op: Op, d: nat, action: Action)
    requires Stands(states, steps, b, k, t, op, d) && k < |steps| && Runs(states, steps, b, k + 1, t, op, d)
    requires Depth(states[k], t) == d + 1 && !action.Finish?
    requires Stack(states[k + 1], t) == Move(Stack(states[k], t), op, action)
    requires var phase := Stack(states[k], t)[d].phase;
             && Locks.PhaseFits(op, phase) && (action.CallOut? ==> phase.Notifying?)
             && (phase.ReleaseWriteLock? ==>
                   CommitsAt(states, steps, b, k + 1, t, d, k, CommitOf(env, op, phase.installed)))
             && (!phase.ReleaseWriteLock? ==> !Commits(states, steps, k, t, d))
             && (op.Save? && phase.ReleaseWriteLock? ==> action.Finish?)
             && (op.SetCurrent? && action.Goto? ==>
                   (Announcing(action.phase) <==> phase.ReleaseWriteLock? || Announcing(phase)))
    ensures Stands(states, steps, b, k + 1, t, op, d)
  {
    var phase := Stack(states[k], t)[d].phase;
    if phase.ReleaseWriteLock? {
      assert op.SetCurrent?;
      assert CommittedOnce(states, steps, b, k + 1, t, d, Installed(op.v));
    } else {
      hide Commits, CommittedOnce, NotCommitted;
      NothingNew(states, steps, b, k, t, d, if op.SetCurrent? then Installed(op.v) else SaveFailed);
    }
  }

  // ------------------------------------------------------------------------ whole runs

  /** The two invariants a step of a call relies on, everywhere along a run. */
  lemma {:induction false} StatesOk(env: Env, s: State, steps: seq<Step>, k: nat)
    requires Init(s) && IsRun(env, s, steps) && k <= |steps|
    ensures Locks.Inv(States(env, s, steps)[k]) && History.ValuesOk(env, States(env, s, steps)[k])
    decreases k
  {
    if k == 0 {
      History.InitHistory(env, s);
    } else {
      hide Enabled, Apply, Locks.Inv, History.ValuesOk, Init;
      StatesOk(env, s, steps, k - 1);
      StatesStep(env, s, steps, k - 1);
      Locks.StepKeepsInv(env, States(env, s, steps)[k - 1], steps[k - 1]);
      History.ValuesStep(env, States(env, s, steps)[k - 1], steps[k - 1]);
    }
  }

  lemma {:induction false} JustCalled(env: Env, states: seq<State>, steps: seq<Step>, b: int, t: Thread, op: Op, d: nat)
    requires Runs(states, steps, b, b + 1, t, op, d)
    requires Enabled(states[b], steps[b]) && states[b + 1] == Apply(env, states[b], steps[b])
    ensures Stands(states, steps, b, b + 1, t, op, d)
  {
    assert Stack(states[b + 1], t)[d] == Call(op, FirstPhase(op));
  }

  lemma {:induction false} RunsBefore(states: seq<State>, steps: seq<Step>, b: int, k: int, t: Thread, op: Op, d: nat)
    requires Runs(states, steps, b, k, t, op, d) && b < k - 1
    ensures Runs(states, steps, b, k - 1, t, op, d)
  {
  }

  lemma {:induction false} CallStands(env: Env, s: State, steps: seq<Step>, b: int, k: int, t: Thread, op: Op, d: nat)
    requires Init(s) && IsRun(env, s, steps) && Runs(States(env, s, steps), steps, b, k, t, op, d)
    ensures Stands(States(env, s, steps), steps, b, k, t, op, d)
    decreases k
  {
    hide Locks.Inv, History.ValuesOk, Stands, IsRun, States, Enabled, Apply, Init;
    var states := States(env, s, steps);
    StatesStep(env, s, steps, k - 1);
    StatesOk(env, s, steps, k - 1);
    if k > b + 1 { RunsBefore(states, steps, b, k, t, op, d); }
    hide Runs;
    if k == b + 1 {
      JustCalled(env, states, steps, b, t, op, d);
    } else {
      CallStands(env, s, steps, b, k - 1, t, op, d);
      StandsOn(env, states, steps, b, k - 1, t, op, d);
    }
  }

  lemma {:induction false} StandsOn(env: Env, states: seq<State>, steps: seq<Step>, b: int, k: int, t: Thread, op: Op, d: nat)
    requires Stands(states, steps, b, k, t, op, d) && Runs(states, steps, b, k + 1, t, op, d)
    requires Locks.Inv(states[k]) && History.ValuesOk(env, states[k])
    requires Enabled(states[k], steps[k]) && states[k + 1] == Apply(env, states[k], steps[k])
    ensures Stands(states, steps, b, k + 1, t, op, d)
  {
    assert Depth(states[k], t) > d && Depth(states[k + 1], t) > d;
    hide Stands, Enabled, Apply, Locks.ThreadOk, History.StackValuesOk;
    if steps[k].t == t && Depth(states[k], t) == d + 1 {
      assert Locks.ThreadOk(states[k], t) && History.StackValuesOk(env, Stack(states[k], t));
      OwnStep(env, states, steps, b, k, t, op, d);
    } else {
      OthersLeaveFrame(env, states, steps, b, k, t, op, d);
    }
  }

  /** A save answers Ok when it returns from a section that has installed its value. */
  predicate SavedOk(states: seq<State>, e: int, t: Thread, d: nat)
    requires 0 <= e < |states| && Depth(states[e], t) > d
  {
    var f := Stack(states[e], t)[d];
    f.Call? && f.phase.ReleaseWriteLock? && f.phase.installed.Some?
  }

  /** It answers ReadOnly when it returns without having taken the lock. */
  predicate Refused(states: seq<State>, e: int, t: Thread, d: nat)
    requires 0 <= e < |states| && Depth(states[e], t) > d
  {
    var f := Stack(states[e], t)[d];
    f.Call? && f.phase.Start?
  }

  lemma {:induction false} LastStepIsOwn(env: Env, s: State, steps: seq<Step>, b: int, e: int, t: Thread, op: Op, d: nat)
    requires Init(s) && IsRun(env, s, steps) && Returns(States(env, s, steps), steps, b, e, t, op, d)
    ensures steps[e].t == t && Depth(States(env, s, steps)[e], t) == d + 1
  {
    StatesStep(env, s, steps, e);
    hide Advance;
  }

  /**
   * Every save that returns has committed once, in its last step: its stamped value exactly if it answers
   * Ok, a failure if it does not, and nothing at all exactly if it was refused without the lock.
   */
  lemma {:induction false} SavesCommitOnce(env: Env, s: State, steps: seq<Step>, b: int, e: int, t: Thread, v: Value, d: nat)
    requires Init(s) && IsRun(env, s, steps) && Returns(States(env, s, steps), steps, b, e, t, Save(v), d)
    ensures var states := States(env, s, steps);
            if Refused(states, e, t, d) then NotCommitted(states, steps, b, e + 1, t, d)
            else CommitsAt(states, steps, b, e + 1, t, d, e, if SavedOk(states, e, t, d) then Saved(env.stamp(v)) else SaveFailed)
  {
    var states := States(env, s, steps);
    LastStepIsOwn(env, s, steps, b, e, t, Save(v), d);
    CallStands(env, s, steps, b, e, t, Save(v), d);
    StatesOk(env, s, steps, e);
    StatesStep(env, s, steps, e);
    assert Locks.ThreadOk(states[e], t) && History.StackValuesOk(env, Stack(states[e], t));
    hide Locks.Inv, Locks.ThreadOk, History.StackValuesOk, IsRun, States, CommitsAt, NotCommitted, Commits;
    OwnStep(env, states, steps, b, e, t, Save(v), d);
    if !Commits(states, steps, e, t, d) { NothingNew(states, steps, b, e, t, d, SaveFailed); }
  }

  /** Every install that returns has committed its value exactly once. */
  lemma {:induction false} InstallsCommitOnce(env: Env, s: State, steps: seq<Step>, b: int, e: int, t: Thread, v: Value, d: nat)
    requires Init(s) && IsRun(env, s, steps) && Returns(States(env, s, steps), steps, b, e, t, SetCurrent(v), d)
    ensures CommittedOnce(States(env, s, steps), steps, b, e + 1, t, d, Installed(v))
  {
    var states := States(env, s, steps);
    LastStepIsOwn(env, s, steps, b, e, t, SetCurrent(v), d);
    CallStands(env, s, steps, b, e, t, SetCurrent(v), d);
    StatesOk(env, s, steps, e);
    StatesStep(env, s, steps, e);
    assert Locks.ThreadOk(states[e], t) && History.StackValuesOk(env, Stack(states[e], t));
    hide Locks.Inv, Locks.ThreadOk, History.StackValuesOk, IsRun, States, CommitsAt, CommittedOnce, NotCommitted, Commits;
    OwnStep(env, states, steps, b, e, t, SetCurrent(v), d);
    NothingNew(states, steps, b, e, t, d, Installed(v));
  }

  // ------------------------------------------------------------------ real-time order

  lemma {:induction false} CommitsGrow(env: Env, s: State, steps: seq<Step>, a: nat, b: nat)
    requires Init(s) && IsRun(env, s, steps) && a <= b <= |steps|
    ensures States(env, s, steps)[a].shared.commits <= States(env, s, steps)[b].shared.commits
    decreases b
  {
    if a < b {
      var states := States(env, s, steps);
      CommitsGrow(env, s, steps, a, b - 1);
      StatesStep(env, s, steps, b - 1);
      StatesOk(env, s, steps, b - 1);
      StepCommits(env, states[b - 1], steps[b - 1]);
    }
  }

  lemma {:induction false} StepCommits(env: Env, s: State, step: Step)
    requires Locks.Inv(s) && History.ValuesOk(env, s) && Enabled(s, step)
    ensures s.shared.commits <= Apply(env, s, step).shared.commits
  {
    hide Advance;
    var stack := Stack(s, step.t);
    assert Locks.ThreadOk(s, step.t) && History.StackValuesOk(env, stack);
    if step.Proceed? {
      assert History.ValueFits(env, stack[|stack| - 1]);
      AdvanceCommits(env, s.shared, step.t, Last(stack).op, Last(stack).phase, step.fails);
    }
  }

  /**
   * Writers linearise: if one call has returned before another is made, its commit stands before the other's
   * in the history that backend and cache follow.
   */
  lemma {:induction false} RealTimeOrder(env: Env, s: State, steps: seq<Step>,
                                         b: int, e: int, t: Thread, d: nat, c: int, commit: Commit,
                                         b': int, e': int, t': Thread, d': nat, c': int, commit': Commit)
    requires Init(s) && IsRun(env, s, steps) && 0 <= b && e < b' && e' < |steps|
    requires CommitsAt(States(env, s, steps), steps, b, e + 1, t, d, c, commit)
    requires CommitsAt(States(env, s, steps), steps, b', e' + 1, t', d', c', commit')
    ensures var states := States(env, s, steps);
            var commits, p, q := After(env, s, steps).shared.commits, |states[c].shared.commits|, |states[c'].shared.commits|;
            p < q < |commits| && commits[p] == commit && commits[q] == commit'
  {
    CommitsGrow(env, s, steps, c + 1, c');
    CommitsGrow(env, s, steps, c' + 1, |steps|);
    CommitsGrow(env, s, steps, c + 1, |steps|);
  }
}

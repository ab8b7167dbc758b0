/** What can, and what cannot, reach the stored document. */
module StorePolicy {
  import opened Wrappers
  import opened StoreMachine
  import opened StoreHistory
  import Locks = StoreLocks
  import Calls = StoreCalls

  /** Every save in progress was asked to save an allowed value. */
  predicate SavesAllowed(allowed: set<Value>, stack: seq<Frame>) {
    forall i :: 0 <= i < |stack| && stack[i].Call? && stack[i].op.Save? ==> stack[i].op.v in allowed
  }

  /** `v` is an allowed value with the store's schema version stamped on it, and it has an encoding. */
  predicate StampedFrom(env: Env, allowed: set<Value>, v: Value) {
    env.encode(v).Some? && exists x :: x in allowed && v == env.stamp(x)
  }

  predicate CommitsAllowed(env: Env, allowed: set<Value>, commits: seq<Commit>) {
    forall i :: 0 <= i < |commits| && commits[i].Saved? ==> StampedFrom(env, allowed, commits[i].v)
  }

  ghost predicate AllowedOk(env: Env, allowed: set<Value>, s: State) {
    (forall t :: SavesAllowed(allowed, Stack(s, t))) && CommitsAllowed(env, allowed, s.shared.commits)
  }

  lemma {:induction false} AllowedStep(env: Env, allowed: set<Value>, s: State, step: Step)
    requires Locks.Inv(s) && ValuesOk(env, s) && Enabled(s, step) && AllowedOk(env, allowed, s)
    requires step.Invoke? && step.op.Save? ==> step.op.v in allowed
    ensures AllowedOk(env, allowed, Apply(env, s, step))
  {
    hide Advance;
    var stack, next := Stack(s, step.t), Apply(env, s, step);
    assert SavesAllowed(allowed, stack) && StackValuesOk(env, stack) && Locks.ThreadOk(s, step.t);
    forall t ensures SavesAllowed(allowed, Stack(next, t)) { assert SavesAllowed(allowed, Stack(s, t)); }
    if step.Proceed? {
      var Call(op, phase) := Last(stack);
      Calls.AdvanceCommits(env, s.shared, step.t, op, phase, step.fails);
      var commits := next.shared.commits;
      forall i | 0 <= i < |commits| && commits[i].Saved? ensures StampedFrom(env, allowed, commits[i].v) {
        if i < |s.shared.commits| { assert commits[i] == s.shared.commits[i]; }
      }
    }
  }

  lemma {:induction false} RunKeepsAllowed(env: Env, allowed: set<Value>, s: State, steps: seq<Step>)
    requires Locks.Inv(s) && ValuesOk(env, s) && AllowedOk(env, allowed, s) && IsRun(env, s, steps)
    requires forall k :: 0 <= k < |steps| && steps[k].Invoke? && steps[k].op.Save? ==> steps[k].op.v in allowed
    ensures AllowedOk(env, allowed, After(env, s, steps))
    decreases |steps|
  {
    if steps != [] {
      AllowedStep(env, allowed, s, steps[0]);
      Locks.StepKeepsInv(env, s, steps[0]);
      ValuesStep(env, s, steps[0]);
      hide Locks.Inv, ValuesOk, AllowedOk, Enabled, Apply;
      RunKeepsAllowed(env, allowed, Apply(env, s, steps[0]), steps[1..]);
    }
  }

  /** The document is the first one, or the encoding of an allowed value. */
  ghost predicate FromSaves(env: Env, allowed: set<Value>, first: Document, doc: Document) {
    doc == first || exists x :: x in allowed && env.encode(env.stamp(x)) == Some(doc)
  }

  lemma {:induction false} StoredFromSaves(env: Env, allowed: set<Value>, first: Document, commits: seq<Commit>)
    requires CommitsAllowed(env, allowed, commits)
    ensures FromSaves(env, allowed, first, StoredBy(env, first, commits))
  {
    if commits != [] {
      var last := commits[|commits| - 1];
      if last.Saved? {
        assert StampedFrom(env, allowed, last.v);
      } else {
        StoredFromSaves(env, allowed, first, commits[..|commits| - 1]);
      }
    }
  }

  lemma {:induction false} BackendFromSaves(env: Env, allowed: set<Value>, first: Shared, s: State)
    requires Locks.Inv(s) && HistoryOk(env, first, s) && AllowedOk(env, allowed, s)
    ensures FromSaves(env, allowed, first.backend, s.shared.backend)
  {
    var section := Section(s);
    if section.Some? && exists v :: HasStored(section.value, v) {
      var v :| HasStored(section.value, v);
      var t := s.shared.writeLock.value;
      assert StackValuesOk(env, Stack(s, t)) && SavesAllowed(allowed, Stack(s, t));
      assert ValueFits(env, Top(s, t));
    } else {
      StoredFromSaves(env, allowed, first.backend, s.shared.commits);
    }
  }

  /**
   * In every reachable state the stored document is the one the store started with or the encoding of a
   * value some `save` was asked to store: a value handed to `set_current_and_notify` never reaches it.
   */
  lemma {:induction false} OnlySavesReachTheBackend(env: Env, allowed: set<Value>, s: State, steps: seq<Step>)
    requires Init(s) && IsRun(env, s, steps)
    requires forall k :: 0 <= k < |steps| && steps[k].Invoke? && steps[k].op.Save? ==> steps[k].op.v in allowed
    ensures FromSaves(env, allowed, s.shared.backend, After(env, s, steps).shared.backend)
  {
    InitHistory(env, s);
    RunKeepsHistory(env, s.shared, s, steps);
    RunKeepsAllowed(env, allowed, s, steps);
    BackendFromSaves(env, allowed, s.shared, After(env, s, steps));
  }

  /** With no save at all, what `load` (and so `backend_json`) returns never changes, whatever is installed. */
  lemma {:induction false} FoldingStartsFromTheSameDocument(env: Env, s: State, steps: seq<Step>)
    requires Init(s) && IsRun(env, s, steps)
    requires forall k :: 0 <= k < |steps| && steps[k].Invoke? ==> !steps[k].op.Save?
    ensures env.load(After(env, s, steps).shared.backend) == env.load(s.shared.backend)
  {
    OnlySavesReachTheBackend(env, {}, s, steps);
  }
}

/** What a reader of the configuration store gets after a writer has returned. */
module StoreReads {
  import opened Wrappers
  import opened StoreMachine
  import opened StoreHistory
  import opened StoreCalls
  import Locks = StoreLocks

  /** The value a committed section left in the cache, and the one it left in the backend. */
  function Cached(c: Commit): Option<Value> {
    match c
    case Saved(v) => Some(v)
    case Installed(v) => Some(v)
    case SaveFailed => None
  }

  function Stored(c: Commit): Option<Value> { if c.Saved? then Some(c.v) else None }

  /** The open section has `v` in hand and only swapping and unlocking before it. */
  ghost predicate Pending(s: State, save: bool, v: Value) {
    Section(s).Some? && InHand(Section(s).value, save, v)
  }

  predicate InHand(f: Frame, save: bool, v: Value) {
    f.Call? && (if save then f.op.Save? else TakesWriteLock(f.op))
    && (f.phase == WantCurrent(v) || f.phase == HasCurrent(v) || f.phase == Assigned(v) || f.phase == ReleaseWriteLock(Some(v)))
  }

  predicate Left(save: bool, c: Commit, v: Value) { (if save then Stored(c) else Cached(c)) == Some(v) }

  // ------------------------------------------------------------- what the histories hold

  /** If some section left a value, the cache follows it or a later one. */
  lemma {:induction false} CachedFrom(first: Value, commits: seq<Commit>, p: nat) returns (q: nat)
    requires p < |commits| && Cached(commits[p]).Some?
    ensures p <= q < |commits| && Cached(commits[q]) == Some(CachedBy(first, commits))
  {
    q := |commits| - 1;
    if Cached(commits[q]).None? { q := CachedFrom(first, commits[..q], p); }
  }

  lemma {:induction false} StoredFrom(env: Env, first: Document, commits: seq<Commit>, p: nat) returns (q: nat)
    requires p < |commits| && commits[p].Saved?
    ensures p <= q < |commits| && commits[q].Saved?
    ensures env.encode(commits[q].v).Some? ==> env.encode(commits[q].v) == Some(StoredBy(env, first, commits))
  {
    q := |commits| - 1;
    if !commits[q].Saved? { q := StoredFrom(env, first, commits[..q], p); }
  }

  // ---------------------------------------------------------- a section that will commit

  lemma {:induction false} OwnPending(env: Env, g: Shared, t: Thread, op: Op, phase: Phase, fails: bool, save: bool, v: Value)
    requires Ready(g, phase) && Locks.PhaseFits(op, phase) && ValueFits(env, Call(op, phase)) && InHand(Call(op, phase), save, v)
    requires Locks.HoldsWriteLock(Call(op, phase)) && g.writeLock == Some(t)
    ensures var (h, action) := Advance(env, g, t, op, phase, fails);
            var next := NextSection(op, h, t, action);
            || (h.commits == g.commits && next.Some? && InHand(next.value, save, v))
            || (|h.commits| == |g.commits| + 1 && h.commits[..|g.commits|] == g.commits && Left(save, h.commits[|g.commits|], v))
  {
  }

  lemma {:induction false} PendingStep(env: Env, s: State, step: Step, save: bool, v: Value)
    requires Locks.Inv(s) && ValuesOk(env, s) && Enabled(s, step) && Pending(s, save, v)
    ensures var u := Apply(env, s, step);
            || (u.shared.commits == s.shared.commits && Pending(u, save, v))
            || (|u.shared.commits| == |s.shared.commits| + 1 && Left(save, u.shared.commits[|s.shared.commits|], v))
  {
    hide Advance;
    if !step.Proceed? {
      CallLeavesSection(env, s, step);
    } else {
      var stack := Stack(s, step.t);
      var Call(op, phase) := Last(stack);
      assert Locks.ThreadOk(s, step.t) && StackValuesOk(env, stack) && stack[|stack| - 1] == Call(op, phase);
      ProceedLeavesSection(env, s, step);
      if Locks.HoldsWriteLock(Top(s, step.t)) {
        assert Section(s) == Some(Call(op, phase));
        OwnPending(env, s.shared, step.t, op, phase, step.fails, save, v);
      } else {
        AdvanceOutsideSection(env, s.shared, step.t, op, phase, step.fails);
      }
    }
  }

  /** What such a section leaves is the next commit, if the run goes on to one. */
  lemma {:induction false} PendingCommits(env: Env, s: State, steps: seq<Step>, k: nat, e: nat, save: bool, v: Value)
    requires Init(s) && IsRun(env, s, steps) && k <= e <= |steps| && Pending(States(env, s, steps)[k], save, v)
    ensures var g, h := States(env, s, steps)[k].shared, States(env, s, steps)[e].shared;
            if |h.commits| > |g.commits| then Left(save, h.commits[|g.commits|], v)
            else h.commits == g.commits && Pending(States(env, s, steps)[e], save, v)
    decreases e
  {
    if k < e {
      hide Enabled, Apply, Locks.Inv, ValuesOk, Pending, Left, Init, IsRun, States;
      var states := States(env, s, steps);
      PendingCommits(env, s, steps, k, e - 1, save, v);
      StatesStep(env, s, steps, e - 1);
      StatesOk(env, s, steps, e - 1);
      CommitsGrow(env, s, steps, e - 1, e);
      CommitsGrow(env, s, steps, k, e);
      if |states[e - 1].shared.commits| == |states[k].shared.commits| {
        PendingStep(env, states[e - 1], steps[e - 1], save, v);
      }
    }
  }

  // --------------------------------------------------------------------- at every step

  lemma {:induction false} HistoryAt(env: Env, s: State, steps: seq<Step>, k: nat)
    requires Init(s) && IsRun(env, s, steps) && k <= |steps|
    ensures var u := States(env, s, steps)[k];
            && Locks.Inv(u) && HistoryOk(env, s.shared, u)
            && (NoRefreshInvoked(steps) ==> NobodyRefreshes(u) && CacheOk(s.shared.current, u.shared, Section(u)))
    decreases k
  {
    if k == 0 {
      InitHistory(env, s);
    } else {
      hide Enabled, Apply, Locks.Inv, ValuesOk, RoundsOk, BackendOk, CacheOk, NobodyRefreshes, Init, IsRun, States;
      var before, step := States(env, s, steps)[k - 1], steps[k - 1];
      HistoryAt(env, s, steps, k - 1);
      StatesStep(env, s, steps, k - 1);
      Locks.StepKeepsInv(env, before, step);
      ValuesStep(env, before, step);
      RoundsStep(env, before, step);
      ContentsStep(env, s.shared, before, step);
    }
  }

  /** Commit q, made by step k or to be made next by the section open then, left `v`. */
  ghost predicate CommittedOrNext(states: seq<State>, steps: seq<Step>, k: int, q: nat, save: bool, v: Value)
    requires 0 <= k < |states| == |steps| + 1
  {
    var now, end := states[k].shared.commits, states[|steps|].shared.commits;
    if q < |now| then Left(save, now[q], v)
    else q == |now| && Pending(states[k], save, v) && (q < |end| ==> Left(save, end[q], v))
  }

  /**
   * Without refreshes, at every step after a section has committed a value, the cache holds that value or one
   * committed later, or the value that the open section is about to commit.
   */
  lemma {:induction false} CacheIsFresh(env: Env, s: State, steps: seq<Step>, c: nat, k: nat) returns (q: nat)
    requires Init(s) && IsRun(env, s, steps) && NoRefreshInvoked(steps) && c < k <= |steps|
    requires var states := States(env, s, steps);
             var p := |states[c].shared.commits|;
             p < |states[c + 1].shared.commits| && Cached(states[c + 1].shared.commits[p]).Some?
    ensures var states := States(env, s, steps);
            |states[c].shared.commits| <= q && CommittedOrNext(states, steps, k, q, false, states[k].shared.current)
  {
    var states := States(env, s, steps);
    var now, p := states[k].shared, |states[c].shared.commits|;
    HistoryAt(env, s, steps, k);
    CommitsGrow(env, s, steps, c + 1, k);
    hide Init, IsRun, States, After, Locks.Inv, HistoryOk, NobodyRefreshes;
    if section :| Section(states[k]) == Some(section) && HasCached(section, now.current) {
      q := |now.commits|;
      SectionIsInHand(env, states[k], now.current);
      PendingCommits(env, s, steps, k, |steps|, false, now.current);
      CommitsGrow(env, s, steps, k, |steps|);
    } else {
      assert now.commits[p] == states[c + 1].shared.commits[p];
      q := CachedFrom(s.shared.current, now.commits, p);
    }
  }

  lemma {:induction false} SectionIsInHand(env: Env, s: State, v: Value)
    requires Locks.Inv(s) && Section(s).Some? && (HasCached(Section(s).value, v) || HasStored(Section(s).value, v))
    ensures HasCached(Section(s).value, v) ==> Pending(s, false, v)
    ensures HasStored(Section(s).value, v) ==> Pending(s, true, v)
  {
    var t := s.shared.writeLock.value;
    assert Locks.ThreadOk(s, t);
  }

  /**
   * At every step after a save has committed, the backend holds the encoding of that value, of one saved later,
   * or of the value that the open section is about to commit.
   */
  lemma {:induction false} BackendIsFresh(env: Env, s: State, steps: seq<Step>, c: nat, k: nat) returns (q: nat, v: Value)
    requires Init(s) && IsRun(env, s, steps) && c < k <= |steps|
    requires var states := States(env, s, steps);
             var p := |states[c].shared.commits|;
             p < |states[c + 1].shared.commits| && states[c + 1].shared.commits[p].Saved?
    ensures var states := States(env, s, steps);
            && |states[c].shared.commits| <= q && CommittedOrNext(states, steps, k, q, true, v)
            && env.encode(v) == Some(states[k].shared.backend)
  {
    var states := States(env, s, steps);
    var now, p := states[k].shared, |states[c].shared.commits|;
    HistoryAt(env, s, steps, k);
    CommitsGrow(env, s, steps, c + 1, k);
    if x :| Section(states[k]).Some? && HasStored(Section(states[k]).value, x) {
      hide Init, IsRun, States, After;
      q, v := |now.commits|, x;
      SectionIsInHand(env, states[k], x);
      PendingCommits(env, s, steps, k, |steps|, true, x);
      CommitsGrow(env, s, steps, k, |steps|);
    } else {
      assert now.commits[p] == states[c + 1].shared.commits[p];
      q := StoredFrom(env, s.shared.backend, now.commits, p);
      v := now.commits[q].v;
      SavedIsEncodable(env, s, steps, k, q);
    }
  }

  /** Every saved value has an encoding. */
  lemma {:induction false} SavedIsEncodable(env: Env, s: State, steps: seq<Step>, k: nat, q: nat)
    requires Init(s) && IsRun(env, s, steps) && k <= |steps|
    requires var commits := States(env, s, steps)[k].shared.commits; q < |commits| && commits[q].Saved?
    ensures env.encode(States(env, s, steps)[k].shared.commits[q].v).Some?
    decreases k
  {
    if k > 0 {
      hide Enabled, Apply, Locks.Inv, ValuesOk, Init, IsRun, States;
      var states := States(env, s, steps);
      StatesStep(env, s, steps, k - 1);
      StatesOk(env, s, steps, k - 1);
      CommitsGrow(env, s, steps, k - 1, k);
      if q < |states[k - 1].shared.commits| {
        assert states[k].shared.commits[q] == states[k - 1].shared.commits[q];
        SavedIsEncodable(env, s, steps, k - 1, q);
      } else {
        StepSavesEncodable(env, states[k - 1], steps[k - 1], q);
      }
    }
  }

  lemma {:induction false} StepSavesEncodable(env: Env, s: State, step: Step, q: nat)
    requires Locks.Inv(s) && ValuesOk(env, s) && Enabled(s, step)
    requires |s.shared.commits| <= q < |Apply(env, s, step).shared.commits| && Apply(env, s, step).shared.commits[q].Saved?
    ensures env.encode(Apply(env, s, step).shared.commits[q].v).Some?
  {
    hide Advance;
    assert Locks.ThreadOk(s, step.t) && StackValuesOk(env, Stack(s, step.t));
    if step.Proceed? {
      var stack := Stack(s, step.t);
      assert ValueFits(env, stack[|stack| - 1]);
      AdvanceCommits(env, s.shared, step.t, Last(stack).op, Last(stack).phase, step.fails);
    }
  }

  // --------------------------------------------------------------------------- calls

  /** `current` copies the cache in its last step, under the read lock. */
  lemma {:induction false} CurrentReadsLocked(env: Env, s: State, steps: seq<Step>, b: int, e: int, t: Thread, d: nat)
    requires Init(s) && IsRun(env, s, steps) && Returns(States(env, s, steps), steps, b, e, t, Current, d)
    ensures var u := States(env, s, steps)[e];
            Stack(u, t)[d] == Call(Current, Phase.HasRead) && t in u.shared.currentReaders && u.shared.currentWriter.None?
  {
    var states := States(env, s, steps);
    LastStepIsOwn(env, s, steps, b, e, t, Current, d);
    CallStands(env, s, steps, b, e, t, Current, d);
    StatesOk(env, s, steps, e);
    StatesStep(env, s, steps, e);
    assert Locks.ThreadOk(states[e], t);
    hide Init, IsRun, States, After;
    assert Last(Stack(states[e], t)) == Stack(states[e], t)[d];
  }

  /**
   * Without refreshes: a `current` made after a save or an install has returned yields its value or one
   * committed later, or the one about to be committed.
   */
  lemma {:induction false} CurrentIsFresh(env: Env, s: State, steps: seq<Step>, b: int, e: int, t: Thread, d: nat, c: int, commit: Commit,
                                          b': int, e': int, t': Thread, d': nat) returns (q: nat)
    requires Init(s) && IsRun(env, s, steps) && NoRefreshInvoked(steps)
    requires 0 <= b && CommitsAt(States(env, s, steps), steps, b, e + 1, t, d, c, commit) && Cached(commit).Some?
    requires e < b' && Returns(States(env, s, steps), steps, b', e', t', Current, d')
    ensures var states := States(env, s, steps);
            |states[c].shared.commits| <= q && CommittedOrNext(states, steps, e', q, false, states[e'].shared.current)
  {
    q := CacheIsFresh(env, s, steps, c, e');
  }

  /** A `load` made after a save has returned Ok reads its document, one saved later, or the one about to be committed. */
  lemma {:induction false} LoadIsFresh(env: Env, s: State, steps: seq<Step>, b: int, e: int, t: Thread, d: nat, c: int, commit: Commit,
                                       b': int, e': int, t': Thread, d': nat) returns (q: nat, v: Value)
    requires Init(s) && IsRun(env, s, steps)
    requires 0 <= b && CommitsAt(States(env, s, steps), steps, b, e + 1, t, d, c, commit) && commit.Saved?
    requires e < b' && Returns(States(env, s, steps), steps, b', e', t', Load, d')
    ensures var states := States(env, s, steps);
            && Stack(states[e'], t')[d'] == Call(Load, Start) && |states[c].shared.commits| <= q
            && CommittedOrNext(states, steps, e', q, true, v) && env.encode(v) == Some(states[e'].shared.backend)
  {
    q, v := BackendIsFresh(env, s, steps, c, e');
    CallStands(env, s, steps, b', e', t', Load, d');
    StatesOk(env, s, steps, e');
    assert Locks.ThreadOk(States(env, s, steps)[e'], t');
  }
}

/** What the configuration store holds, remembers and announces over every interleaving. */
module StoreHistory {
  import opened Wrappers
  import opened StoreMachine
  import Locks = StoreLocks

  /** The cached value after a history of write-lock sections: that of the last one that installed anything. */
  function CachedBy(first: Value, commits: seq<Commit>): Value {
    if commits == [] then first
    else match commits[|commits| - 1]
      case Saved(v) => v
      case Installed(v) => v
      case SaveFailed => CachedBy(first, commits[..|commits| - 1])
  }

  /** The stored document after that history: the encoding of the last successful save. */
  function StoredBy(env: Env, first: Document, commits: seq<Commit>): Document {
    if commits == [] then first
    else match commits[|commits| - 1]
      case Saved(v) => if env.encode(v).Some? then env.encode(v).value else []
      case _ => StoredBy(env, first, commits[..|commits| - 1])
  }

  predicate Refreshes(op: Op) { op.Reload? || op.Resolve? }

  /** The value a phase carries is the one its operation was given, stamped if it is being saved. */
  predicate ValueFits(env: Env, f: Frame) {
    f.Call? ==>
      match f.phase
      case WantCurrent(v) => CarriedBy(env, f.op, v)
      case HasCurrent(v) => CarriedBy(env, f.op, v)
      case Assigned(v) => CarriedBy(env, f.op, v)
      case ReleaseWriteLock(i) => i.Some? ==> CarriedBy(env, f.op, i.value)
      case WantSubscribers(v) => CarriedBy(env, f.op, v)
      case HasSubscribers(v) => CarriedBy(env, f.op, v)
      case _ => true
  }

  predicate CarriedBy(env: Env, op: Op, v: Value) {
    match op
    case Save(x) => v == env.stamp(x) && env.encode(v).Some?
    case SetCurrent(x) => v == x
    case _ => true
  }

  predicate StackValuesOk(env: Env, stack: seq<Frame>) {
    forall i :: 0 <= i < |stack| ==> ValueFits(env, stack[i])
  }

  ghost predicate ValuesOk(env: Env, s: State) {
    forall t :: StackValuesOk(env, Stack(s, t))
  }

  predicate NoRefreshing(stack: seq<Frame>) {
    forall i :: 0 <= i < |stack| && stack[i].Call? ==> !Refreshes(stack[i].op)
  }

  ghost predicate NobodyRefreshes(s: State) {
    forall t :: NoRefreshing(Stack(s, t))
  }

  /** The innermost frame of the thread inside the write lock, if any. */
  function Section(s: State): Option<Frame> {
    match s.shared.writeLock
    case None => None
    case Some(t) => if Unfinished(s, t) then Some(Top(s, t)) else None
  }

  /** The value the open section has put into the backend, and the one it has put into the cache. */
  predicate HasStored(f: Frame, v: Value) {
    f.Call? && f.op.Save?
    && (f.phase == WantCurrent(v) || f.phase == HasCurrent(v) || f.phase == Assigned(v) || f.phase == ReleaseWriteLock(Some(v)))
  }

  predicate HasCached(f: Frame, v: Value) {
    f.Call? && (f.phase == Assigned(v) || f.phase == ReleaseWriteLock(Some(v)))
  }

  ghost predicate BackendOk(env: Env, first: Document, g: Shared, section: Option<Frame>) {
    if section.Some? && exists v :: HasStored(section.value, v)
    then forall v :: HasStored(section.value, v) ==> env.encode(v) == Some(g.backend)
    else g.backend == StoredBy(env, first, g.commits)
  }

  ghost predicate CacheOk(first: Value, g: Shared, section: Option<Frame>) {
    if section.Some? && exists v :: HasCached(section.value, v)
    then forall v :: HasCached(section.value, v) ==> g.current == v
    else g.current == CachedBy(first, g.commits)
  }

  /** A round calls the subscribers of its snapshot, once each, in order, with its value. */
  predicate RoundOk(g: Shared, r: Round) {
    && r.snapshot <= g.subscribers
    && |r.calls| <= |r.snapshot|
    && (forall i :: 0 <= i < |r.calls| ==> r.calls[i] == (r.snapshot[i], r.value))
    && (r.over ==> |r.calls| == |r.snapshot|)
    && (r.op.SetCurrent? ==> r.value == r.op.v)
  }

  ghost predicate RoundsOk(g: Shared) {
    forall i :: 0 <= i < |g.rounds| ==> RoundOk(g, g.rounds[i])
  }

  // --------------------------------------------------------- one step of one call

  lemma {:induction false} AdvanceValues(env: Env, g: Shared, t: Thread, op: Op, phase: Phase, fails: bool)
    requires Ready(g, phase) && Locks.PhaseFits(op, phase) && ValueFits(env, Call(op, phase))
    ensures var action := Advance(env, g, t, op, phase, fails).1;
            action.Goto? ==> ValueFits(env, Call(op, action.phase))
  {
  }

  lemma {:induction false} AdvanceRounds(env: Env, g: Shared, t: Thread, op: Op, phase: Phase, fails: bool)
    requires Ready(g, phase) && Locks.PhaseFits(op, phase) && ValueFits(env, Call(op, phase)) && RoundsOk(g)
    ensures RoundsOk(Advance(env, g, t, op, phase, fails).0)
  {
    var h := Advance(env, g, t, op, phase, fails).0;
    forall i | 0 <= i < |h.rounds| ensures RoundOk(h, h.rounds[i]) {
      if i < |g.rounds| { assert RoundOk(g, g.rounds[i]); }
    }
  }

  /** The section that results when a call with the write lock takes one more step. */
  function NextSection(op: Op, h: Shared, t: Thread, action: Action): Option<Frame> {
    if h.writeLock == Some(t) && action.Goto? then Some(Call(op, action.phase)) else None
  }

  lemma {:induction false} AdvanceInSection(env: Env, first: Document, firstValue: Value, g: Shared, t: Thread, op: Op, phase: Phase, fails: bool)
    requires Ready(g, phase) && Locks.PhaseFits(op, phase) && ValueFits(env, Call(op, phase))
    requires Locks.HoldsWriteLock(Call(op, phase)) && g.writeLock == Some(t)
    requires BackendOk(env, first, g, Some(Call(op, phase)))
    ensures var (h, action) := Advance(env, g, t, op, phase, fails);
            && BackendOk(env, first, h, NextSection(op, h, t, action))
            && (CacheOk(firstValue, g, Some(Call(op, phase))) ==> CacheOk(firstValue, h, NextSection(op, h, t, action)))
  {
    var (h, action) := Advance(env, g, t, op, phase, fails);
    var was := Call(op, phase);
    if phase.WantCurrent? || phase.HasCurrent? || phase.Assigned? {
      assert op.Save? ==> HasStored(was, phase.v);
      assert phase.Assigned? ==> HasCached(was, phase.v);
      assert action.Goto?;
      var next := Call(op, action.phase);
      assert op.Save? ==> HasStored(next, phase.v);
      assert !phase.WantCurrent? ==> HasCached(next, phase.v);
    } else if phase.ReleaseWriteLock? {
      assert phase.installed.Some? ==> HasCached(was, phase.installed.value);
      assert phase.installed.Some? && op.Save? ==> HasStored(was, phase.installed.value);
      assert h.commits[..|g.commits|] == g.commits;
    } else {
      assert action.Goto? && action.phase.WantCurrent? ==> HasStored(Call(op, action.phase), action.phase.v);
    }
  }

  /** A call outside the write lock writes neither the backend nor, unless it refreshes, the cache. */
  lemma {:induction false} AdvanceOutsideSection(env: Env, g: Shared, t: Thread, op: Op, phase: Phase, fails: bool)
    requires Ready(g, phase) && Locks.PhaseFits(op, phase) && !Locks.HoldsWriteLock(Call(op, phase))
    ensures var (h, action) := Advance(env, g, t, op, phase, fails);
            && h.backend == g.backend && h.commits == g.commits
            && (!Refreshes(op) ==> h.current == g.current)
            && (h.writeLock == g.writeLock || (g.writeLock.None? && h.writeLock == Some(t)))
            && (g.writeLock.None? && h.writeLock == Some(t) ==>
                  action.Goto? && forall v :: !HasStored(Call(op, action.phase), v) && !HasCached(Call(op, action.phase), v))
  {
  }

  // ------------------------------------------------------------ whole states

  /** Everything the store guarantees about its contents, given what it held at first. */
  ghost predicate HistoryOk(env: Env, first: Shared, s: State) {
    ValuesOk(env, s) && RoundsOk(s.shared) && BackendOk(env, first.backend, s.shared, Section(s))
  }

  lemma {:induction false} ValuesStep(env: Env, s: State, step: Step)
    requires Locks.Inv(s) && Enabled(s, step) && ValuesOk(env, s)
    ensures ValuesOk(env, Apply(env, s, step))
    ensures NobodyRefreshes(s) && (step.Invoke? ==> !Refreshes(step.op)) ==> NobodyRefreshes(Apply(env, s, step))
  {
    hide Advance;
    var stack, next := Stack(s, step.t), Apply(env, s, step);
    assert StackValuesOk(env, stack) && Locks.ThreadOk(s, step.t);
    if step.Proceed? {
      AdvanceValues(env, s.shared, step.t, Last(stack).op, Last(stack).phase, step.fails);
    }
    forall t ensures StackValuesOk(env, Stack(next, t)) {
      assert StackValuesOk(env, Stack(s, t));
    }
    if NobodyRefreshes(s) && (step.Invoke? ==> !Refreshes(step.op)) {
      assert NoRefreshing(stack);
      forall t ensures NoRefreshing(Stack(next, t)) { assert NoRefreshing(Stack(s, t)); }
    }
  }

  lemma {:induction false} RoundsStep(env: Env, s: State, step: Step)
    requires Locks.Inv(s) && Enabled(s, step) && ValuesOk(env, s) && RoundsOk(s.shared)
    ensures RoundsOk(Apply(env, s, step).shared)
  {
    hide Advance;
    var stack := Stack(s, step.t);
    assert StackValuesOk(env, stack) && Locks.ThreadOk(s, step.t);
    if step.Proceed? {
      AdvanceRounds(env, s.shared, step.t, Last(stack).op, Last(stack).phase, step.fails);
    }
  }

  /** Starting an operation or leaving a callback touches neither the shared state nor the open section. */
  lemma {:induction false} CallLeavesSection(env: Env, s: State, step: Step)
    requires Locks.Inv(s) && Enabled(s, step) && !step.Proceed?
    ensures Apply(env, s, step).shared == s.shared && Section(Apply(env, s, step)) == Section(s)
  {
    assert Locks.ThreadOk(s, step.t);
  }

  lemma {:induction false} ProceedLeavesSection(env: Env, s: State, step: Step)
    requires Locks.Inv(s) && Enabled(s, step) && step.Proceed?
    ensures var Call(op, phase) := Top(s, step.t);
            var (h, action) := Advance(env, s.shared, step.t, op, phase, step.fails);
            var next := Section(Apply(env, s, step));
            if Locks.HoldsWriteLock(Top(s, step.t)) then next == NextSection(op, h, step.t, action)
            else if h.writeLock == s.shared.writeLock then next == Section(s)
            else action.Goto? && next == Some(Call(op, action.phase))
  {
    hide Advance;
    var Call(op, phase) := Top(s, step.t);
    var (h, action) := Advance(env, s.shared, step.t, op, phase, step.fails);
    assert Locks.ThreadOk(s, step.t) && Locks.ThreadOk(Apply(env, s, step), step.t) by {
      assert Locks.ThreadOk(s, step.t);
      Locks.ProceedStep(env, s, step);
    }
    Locks.ActionFits(env, s.shared, step.t, op, phase, step.fails);
    if Locks.HoldsWriteLock(Top(s, step.t)) {
      SectionStaysOrEnds(env, s.shared, step.t, op, phase, step.fails);
    } else {
      AdvanceOutsideSection(env, s.shared, step.t, op, phase, step.fails);
    }
  }

  lemma {:induction false} SectionStaysOrEnds(env: Env, g: Shared, t: Thread, op: Op, phase: Phase, fails: bool)
    requires Ready(g, phase) && Locks.PhaseFits(op, phase) && Locks.HoldsWriteLock(Call(op, phase)) && g.writeLock == Some(t)
    ensures var (h, action) := Advance(env, g, t, op, phase, fails);
            h.writeLock.None? || (h.writeLock == Some(t) && action.Goto?)
  {
  }

  lemma {:induction false} ContentsStep(env: Env, first: Shared, s: State, step: Step)
    requires Locks.Inv(s) && Enabled(s, step) && HistoryOk(env, first, s)
    ensures BackendOk(env, first.backend, Apply(env, s, step).shared, Section(Apply(env, s, step)))
    ensures NobodyRefreshes(s) && CacheOk(first.current, s.shared, Section(s))
            ==> CacheOk(first.current, Apply(env, s, step).shared, Section(Apply(env, s, step)))
  {
    hide Advance, BackendOk, CacheOk;
    if !step.Proceed? {
      CallLeavesSection(env, s, step);
    } else {
      var Call(op, phase) := Top(s, step.t);
      var (h, action) := Advance(env, s.shared, step.t, op, phase, step.fails);
      assert Locks.ThreadOk(s, step.t) && StackValuesOk(env, Stack(s, step.t));
      ProceedLeavesSection(env, s, step);
      if Locks.HoldsWriteLock(Top(s, step.t)) {
        AdvanceInSection(env, first.backend, first.current, s.shared, step.t, op, phase, step.fails);
      } else {
        AdvanceOutsideSection(env, s.shared, step.t, op, phase, step.fails);
        OutsideKeepsContents(env, first, s, h, Section(Apply(env, s, step)), op);
        if NobodyRefreshes(s) {
          assert NoRefreshing(Stack(s, step.t));
        }
      }
    }
  }

  /** The same contents, with the same section or a section that has not stored or cached anything yet. */
  lemma {:induction false} OutsideKeepsContents(env: Env, first: Shared, s: State, h: Shared, next: Option<Frame>, op: Op)
    requires h.backend == s.shared.backend && h.commits == s.shared.commits
    requires next == Section(s)
             || (Section(s).None? && next.Some? && forall v :: !HasStored(next.value, v) && !HasCached(next.value, v))
    ensures BackendOk(env, first.backend, s.shared, Section(s)) ==> BackendOk(env, first.backend, h, next)
    ensures h.current == s.shared.current && CacheOk(first.current, s.shared, Section(s)) ==> CacheOk(first.current, h, next)
  {
  }

  // ---------------------------------------------------------------- theorems

  predicate NoRefreshInvoked(steps: seq<Step>) {
    forall k :: 0 <= k < |steps| && steps[k].Invoke? ==> !Refreshes(steps[k].op)
  }

  lemma {:induction false} RunKeepsHistory(env: Env, first: Shared, s: State, steps: seq<Step>)
    requires Locks.Inv(s) && HistoryOk(env, first, s) && IsRun(env, s, steps)
    ensures HistoryOk(env, first, After(env, s, steps)) && Locks.Inv(After(env, s, steps))
    ensures NoRefreshInvoked(steps) && NobodyRefreshes(s) && CacheOk(first.current, s.shared, Section(s))
            ==> CacheOk(first.current, After(env, s, steps).shared, Section(After(env, s, steps)))
    decreases |steps|
  {
    if steps != [] {
      var step := steps[0];
      Locks.StepKeepsInv(env, s, step);
      ValuesStep(env, s, step);
      RoundsStep(env, s, step);
      ContentsStep(env, first, s, step);
      assert NoRefreshInvoked(steps) ==> NoRefreshInvoked(steps[1..]);
      hide Locks.Inv, Enabled, Apply, ValuesOk, RoundsOk, BackendOk, CacheOk, NobodyRefreshes;
      RunKeepsHistory(env, first, Apply(env, s, step), steps[1..]);
    }
  }

  lemma {:induction false} InitHistory(env: Env, s: State)
    requires Init(s)
    ensures Locks.Inv(s) && HistoryOk(env, s.shared, s) && NobodyRefreshes(s) && CacheOk(s.shared.current, s.shared, Section(s))
  {
  }

  /**
   * Whenever the write lock is free, the backend holds the encoding of the last successful save in lock
   * order, in every run; and if nothing reloads or resolves, the cached value is that of the last section
   * that installed one. A failed save leaves no trace in either.
   */
  lemma {:induction false} WriterSectionsSerialize(env: Env, s: State, steps: seq<Step>)
    requires Init(s) && IsRun(env, s, steps)
    ensures var g := After(env, s, steps).shared;
            g.writeLock.None? ==>
              && g.backend == StoredBy(env, s.shared.backend, g.commits)
              && (NoRefreshInvoked(steps) ==> g.current == CachedBy(s.shared.current, g.commits))
  {
    InitHistory(env, s);
    RunKeepsHistory(env, s.shared, s, steps);
  }

  lemma {:induction false} RunKeepsRounds(env: Env, s: State, steps: seq<Step>)
    requires Init(s) && IsRun(env, s, steps)
    ensures RoundsOk(After(env, s, steps).shared)
  {
    InitHistory(env, s);
    RunKeepsHistory(env, s.shared, s, steps);
  }
}

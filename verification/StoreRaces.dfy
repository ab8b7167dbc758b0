/** Runs in which cache, backend and subscribers part, and so exactly which programs may rely on them. */
module StoreRaces {
  import opened Wrappers
  import opened StoreMachine
  import opened StoreHistory
  import opened StoreCoherence
  import opened StoreTold
  import Locks = StoreLocks

  function Zeros(v: Value): Document { seq(v, _ => 0) }

  /** A codec that stores a number as that many zero bytes, and whose stamp changes `raw` and nothing else. */
  function Unary(raw: Value): Env {
    Env(d => Some(|d|), (v: Value) => Some(Zeros(v)), (v: Value) => if v == raw then raw + 1 else v)
  }

  lemma {:induction false} UnaryRoundTrips(raw: Value)
    ensures RoundTrips(Unary(raw))
    ensures forall v: Value :: Unary(raw).load(Zeros(v)) == Some(v) && Unary(raw).encode(v) == Some(Zeros(v))
  {
    assert forall v: Value :: |Zeros(v)| == v;
  }

  /** A store at rest, with `stored` in the backend and `cached` in the cache. */
  function Fresh(stored: Value, cached: Value): State {
    State(Shared(None, None, {}, None, Zeros(stored), cached, [], [], []), map[])
  }

  // ----------------------------------------------------------------- runs of two threads

  /** Programs on a menu, the values `Unary(raw)` stamps, a subscriber to watch, and the state at first. */
  datatype Scene = Scene(menu: Op -> bool, raw: Value, f: Subscriber, start: State)

  /** Thread t is doing `mine`, the other of threads 0 and 1 `other`, and nobody else anything. */
  ghost predicate Doing(u: State, g: Shared, t: Thread, mine: seq<Frame>, other: seq<Frame>) {
    t <= 1 && u.shared == g && forall x :: Stack(u, x) == if x == t then mine else if x <= 1 then other else []
  }

  ghost predicate Witnesses(sc: Scene, steps: seq<Step>, g: Shared, t: Thread, mine: seq<Frame>, other: seq<Frame>, told: Option<Value>) {
    && IsRun(Unary(sc.raw), sc.start, steps) && InvokesOnly(sc.menu, steps)
    && Doing(After(Unary(sc.raw), sc.start, steps), g, t, mine, other)
    && Told(Unary(sc.raw), sc.start, steps, sc.f, None) == told
  }

  /** Some run of operations on the menu leads there, and the subscriber was last told `told`. */
  ghost predicate Leads(sc: Scene, g: Shared, t: Thread, mine: seq<Frame>, other: seq<Frame>, told: Option<Value>) {
    exists steps :: Witnesses(sc, steps, g, t, mine, other, told)
  }

  lemma {:induction false} RunExtends(env: Env, s: State, steps: seq<Step>, step: Step, f: Subscriber, heard: Option<Value>)
    requires IsRun(env, s, steps) && Enabled(After(env, s, steps), step)
    ensures IsRun(env, s, steps + [step]) && After(env, s, steps + [step]) == Apply(env, After(env, s, steps), step)
    ensures var now := TellsNow(env, After(env, s, steps), step, f);
            Told(env, s, steps + [step], f, heard) == if now.Some? then now else Told(env, s, steps, f, heard)
    decreases |steps|
  {
    hide Enabled, Apply, TellsNow;
    if steps == [] {
      assert (steps + [step])[1..] == [];
    } else {
      assert (steps + [step])[1..] == steps[1..] + [step];
      var now := TellsNow(env, s, steps[0], f);
      RunExtends(env, Apply(env, s, steps[0]), steps[1..], step, f, if now.Some? then now else heard);
    }
  }

  lemma {:induction false} LeadsNowhere(sc: Scene)
    requires sc.start.threads == map[]
    ensures Leads(sc, sc.start.shared, 0, [], [], None)
  {
    assert Witnesses(sc, [], sc.start.shared, 0, [], [], None);
  }

  /** The other thread's turn. */
  lemma {:induction false} Turn(sc: Scene, g: Shared, t: Thread, mine: seq<Frame>, other: seq<Frame>, told: Option<Value>)
    requires Leads(sc, g, t, mine, other, told)
    ensures t <= 1 && Leads(sc, g, 1 - t, other, mine, told)
  {
    var steps :| Witnesses(sc, steps, g, t, mine, other, told);
    assert Witnesses(sc, steps, g, 1 - t, other, mine, told);
  }

  /** What a step of thread t does, in every state that looks like this. */
  ghost predicate Does(sc: Scene, g: Shared, t: Thread, mine: seq<Frame>, other: seq<Frame>, step: Step, h: Shared, next: seq<Frame>, now: Option<Value>) {
    forall u :: Doing(u, g, t, mine, other) ==>
      Enabled(u, step) && Doing(Apply(Unary(sc.raw), u, step), h, t, next, other) && TellsNow(Unary(sc.raw), u, step, sc.f) == now
  }

  lemma {:induction false} LeadsOn(sc: Scene, g: Shared, t: Thread, mine: seq<Frame>, other: seq<Frame>, told: Option<Value>,
                                   step: Step, h: Shared, next: seq<Frame>, now: Option<Value>)
    requires Leads(sc, g, t, mine, other, told) && (step.Invoke? ==> sc.menu(step.op))
    requires Does(sc, g, t, mine, other, step, h, next, now)
    ensures Leads(sc, h, t, next, other, if now.Some? then now else told)
  {
    var steps :| Witnesses(sc, steps, g, t, mine, other, told);
    hide Enabled, Apply, Doing, TellsNow;
    RunExtends(Unary(sc.raw), sc.start, steps, step, sc.f, None);
    assert Witnesses(sc, steps + [step], h, t, next, other, if now.Some? then now else told);
  }

  lemma {:induction false} OthersAsBefore(u: State, w: State, g: Shared, t: Thread, mine: seq<Frame>, other: seq<Frame>, h: Shared, next: seq<Frame>)
    requires Doing(u, g, t, mine, other) && w == State(h, u.threads[t := next])
    ensures Doing(w, h, t, next, other)
  {
    forall x ensures Stack(w, x) == if x == t then next else if x <= 1 then other else [] {
      assert Stack(u, x) == if x == t then mine else if x <= 1 then other else [];
    }
  }

  /** `Move` on a stack of one frame. */
  function MoveOne(op: Op, p: Phase, action: Action): (stack: seq<Frame>)
    ensures stack == Move([Call(op, p)], op, action)
  {
    match action
    case Goto(q) => [Call(op, q)]
    case Finish => []
    case CallOut(f, v) => [Call(op, p), Callback(f, v)]
  }

  /** The thread makes a call. */
  lemma {:induction false} Begins(sc: Scene, g: Shared, t: Thread, other: seq<Frame>, told: Option<Value>, op: Op)
    requires Leads(sc, g, t, [], other, told) && sc.menu(op)
    ensures Leads(sc, g, t, [Call(op, FirstPhase(op))], other, told)
  {
    var step, call := Invoke(t, op), [Call(op, FirstPhase(op))];
    forall u | Doing(u, g, t, [], other)
      ensures Enabled(u, step) && Doing(Apply(Unary(sc.raw), u, step), g, t, call, other) && TellsNow(Unary(sc.raw), u, step, sc.f) == None
    {
      assert Stack(u, t) == [] && [] + call == call;
      OthersAsBefore(u, Apply(Unary(sc.raw), u, step), g, t, [], other, g, call);
    }
    hide Leads, Doing, Enabled, Apply, TellsNow;
    LeadsOn(sc, g, t, [], other, told, step, g, call, None);
  }

  function Heard(sc: Scene, action: Action, told: Option<Value>): Option<Value> {
    if action.CallOut? && action.f == sc.f then Some(action.v) else told
  }

  /** The thread takes one step of the call it is in. */
  lemma {:induction false} Goes(sc: Scene, g: Shared, t: Thread, op: Op, p: Phase, other: seq<Frame>, told: Option<Value>)
    requires Leads(sc, g, t, [Call(op, p)], other, told) && Ready(g, p)
    ensures var (h, action) := Advance(Unary(sc.raw), g, t, op, p, false);
            Leads(sc, h, t, MoveOne(op, p, action), other, Heard(sc, action, told))
  {
    hide Leads, Advance, Ready, Unary;
    var (h, action) := Advance(Unary(sc.raw), g, t, op, p, false);
    var step, next, now := Proceed(t, false), MoveOne(op, p, action), Heard(sc, action, None);
    forall u | Doing(u, g, t, [Call(op, p)], other)
      ensures Enabled(u, step) && Doing(Apply(Unary(sc.raw), u, step), h, t, next, other) && TellsNow(Unary(sc.raw), u, step, sc.f) == now
    {
      assert Stack(u, t) == [Call(op, p)];
      OthersAsBefore(u, Apply(Unary(sc.raw), u, step), g, t, [Call(op, p)], other, h, next);
    }
    hide Doing, Enabled, Apply, TellsNow;
    LeadsOn(sc, g, t, [Call(op, p)], other, told, step, h, next, now);
  }

  /** The thread's callback returns. */
  lemma {:induction false} Comes(sc: Scene, g: Shared, t: Thread, op: Op, p: Phase, f: Subscriber, v: Value, other: seq<Frame>, told: Option<Value>)
    requires Leads(sc, g, t, [Call(op, p), Callback(f, v)], other, told)
    ensures Leads(sc, g, t, [Call(op, p)], other, told)
  {
    var step, mine, next := Return(t), [Call(op, p), Callback(f, v)], [Call(op, p)];
    forall u | Doing(u, g, t, mine, other)
      ensures Enabled(u, step) && Doing(Apply(Unary(sc.raw), u, step), g, t, next, other) && TellsNow(Unary(sc.raw), u, step, sc.f) == None
    {
      assert Stack(u, t) == mine && mine[..1] == next;
      OthersAsBefore(u, Apply(Unary(sc.raw), u, step), g, t, mine, other, g, next);
    }
    hide Leads, Doing, Enabled, Apply, TellsNow;
    LeadsOn(sc, g, t, mine, other, told, step, g, next, None);
  }

  // ------------------------------------------------------------------ runs of one call

  /** All locks are free. */
  predicate Quiet(g: Shared) {
    g.writeLock.None? && g.currentWriter.None? && g.currentReaders == {} && g.subscribersLock.None?
  }

  /** The thread saves `v` from lock to unlock, whatever the other one is waiting for: first the backend ... */
  lemma {:induction false} SaveStores(sc: Scene, g: Shared, t: Thread, other: seq<Frame>, told: Option<Value>, v: Value)
    requires sc.menu(Save(v)) && Quiet(g) && Leads(sc, g, t, [], other, told)
    ensures var w := Unary(sc.raw).stamp(v);
            Leads(sc, g.(writeLock := Some(t), backend := Zeros(w)), t, [Call(Save(v), WantCurrent(w))], other, told)
  {
    UnaryRoundTrips(sc.raw);
    hide Leads, Zeros, Unary;
    var op := Save(v);
    Begins(sc, g, t, other, told, op);
    Goes(sc, g, t, op, Start, other, told);
    Goes(sc, g, t, op, WantWriteLock, other, told);
    Goes(sc, g.(writeLock := Some(t)), t, op, HasWriteLock, other, told);
  }

  /** ... and then the cache. */
  lemma {:induction false} SaveSwaps(sc: Scene, g: Shared, t: Thread, other: seq<Frame>, told: Option<Value>, v: Value, w: Value)
    requires Quiet(g) && Leads(sc, g.(writeLock := Some(t)), t, [Call(Save(v), WantCurrent(w))], other, told)
    ensures Leads(sc, g.(current := w, commits := g.commits + [Saved(w)]), t, [], other, told)
  {
    hide Leads, Unary;
    var op, held := Save(v), g.(writeLock := Some(t));
    Goes(sc, held, t, op, WantCurrent(w), other, told);
    Goes(sc, held.(currentWriter := Some(t)), t, op, HasCurrent(w), other, told);
    Goes(sc, held.(currentWriter := Some(t), current := w), t, op, Assigned(w), other, told);
    Goes(sc, held.(current := w), t, op, ReleaseWriteLock(Some(w)), other, told);
  }

  lemma {:induction false} SaveRuns(sc: Scene, g: Shared, t: Thread, other: seq<Frame>, told: Option<Value>, v: Value) returns (end: Shared)
    requires sc.menu(Save(v)) && Quiet(g) && Leads(sc, g, t, [], other, told)
    ensures var w := Unary(sc.raw).stamp(v);
            end == g.(backend := Zeros(w), current := w, commits := g.commits + [Saved(w)]) && Leads(sc, end, t, [], other, told)
  {
    hide Leads, Zeros, Unary;
    var w := Unary(sc.raw).stamp(v);
    var stored := g.(backend := Zeros(w));
    SaveStores(sc, g, t, other, told, v);
    assert g.(writeLock := Some(t), backend := Zeros(w)) == stored.(writeLock := Some(t));
    SaveSwaps(sc, stored, t, other, told, v, w);
    end := stored.(current := w, commits := g.commits + [Saved(w)]);
  }

  /** The thread starts a refresh and reads ... */
  lemma {:induction false} RefreshReads(sc: Scene, g: Shared, t: Thread, other: seq<Frame>, told: Option<Value>, op: Op, v: Value)
    requires Refreshes(op) && sc.menu(op) && g.backend == Zeros(v) && Leads(sc, g, t, [], other, told)
    ensures Leads(sc, g, t, [Call(op, WantCurrent(v))], other, told)
  {
    UnaryRoundTrips(sc.raw);
    hide Leads, Zeros;
    Begins(sc, g, t, other, told, op);
    Goes(sc, g, t, op, Start, other, told);
  }

  /** ... swaps in what it has read ... */
  lemma {:induction false} RefreshSwaps(sc: Scene, g: Shared, t: Thread, other: seq<Frame>, told: Option<Value>, op: Op, v: Value)
    requires Refreshes(op) && Quiet(g) && Leads(sc, g, t, [Call(op, WantCurrent(v))], other, told)
    ensures Leads(sc, g.(currentWriter := Some(t), current := v), t, [Call(op, Assigned(v))], other, told)
  {
    hide Leads, Unary;
    Goes(sc, g, t, op, WantCurrent(v), other, told);
    Goes(sc, g.(currentWriter := Some(t)), t, op, HasCurrent(v), other, told);
  }

  /** ... and lets go of the cache. */
  lemma {:induction false} RefreshReleases(sc: Scene, g: Shared, t: Thread, other: seq<Frame>, told: Option<Value>, op: Op, v: Value)
    requires Refreshes(op) && Quiet(g) && Leads(sc, g, t, [Call(op, WantCurrent(v))], other, told)
    ensures Leads(sc, g.(current := v), t, if op.Resolve? then [] else [Call(op, WantSubscribers(v))], other, told)
  {
    RefreshSwaps(sc, g, t, other, told, op, v);
    hide Leads, Unary;
    Goes(sc, g.(currentWriter := Some(t), current := v), t, op, Assigned(v), other, told);
    assert g.(currentWriter := Some(t), current := v).(currentWriter := None) == g.(current := v);
  }

  /** An install, up to where it has given its lock back. */
  lemma {:induction false} InstallReleases(sc: Scene, g: Shared, t: Thread, other: seq<Frame>, told: Option<Value>, v: Value) returns (end: Shared)
    requires sc.menu(SetCurrent(v)) && Quiet(g) && Leads(sc, g, t, [], other, told)
    ensures end == g.(current := v, commits := g.commits + [Installed(v)])
    ensures Leads(sc, end, t, [Call(SetCurrent(v), WantSubscribers(v))], other, told)
  {
    hide Leads, Unary;
    var op, held := SetCurrent(v), g.(writeLock := Some(t));
    Begins(sc, g, t, other, told, op);
    Goes(sc, g, t, op, WantWriteLock, other, told);
    Goes(sc, held, t, op, WantCurrent(v), other, told);
    Goes(sc, held.(currentWriter := Some(t)), t, op, HasCurrent(v), other, told);
    Goes(sc, held.(currentWriter := Some(t), current := v), t, op, Assigned(v), other, told);
    Goes(sc, held.(current := v), t, op, ReleaseWriteLock(Some(v)), other, told);
    end := g.(current := v, commits := g.commits + [Installed(v)]);
  }

  lemma {:induction false} SubscribeRuns(sc: Scene, g: Shared, t: Thread, other: seq<Frame>, told: Option<Value>) returns (end: Shared)
    requires sc.menu(Subscribe(sc.f)) && Quiet(g) && Leads(sc, g, t, [], other, told)
    ensures end == g.(subscribers := g.subscribers + [sc.f]) && Leads(sc, end, t, [], other, told)
  {
    hide Leads, Unary;
    var op := Subscribe(sc.f);
    Begins(sc, g, t, other, told, op);
    Goes(sc, g, t, op, WantSubscribers(0), other, told);
    Goes(sc, g.(subscribersLock := Some(t)), t, op, HasSubscribers(0), other, told);
    end := g.(subscribers := g.subscribers + [sc.f]);
  }

  // -------------------------------------------------------------------- announcements

  function RoundOf(op: Op, v: Value, g: Shared, calls: seq<(Subscriber, Value)>, over: bool): Round {
    Round(op, v, g.subscribers, calls, over)
  }

  function WithRound(g: Shared, r: Round): Shared { g.(rounds := g.rounds + [r]) }

  /** The thread takes its snapshot and starts a round. */
  lemma {:induction false} RoundBegins(sc: Scene, g: Shared, t: Thread, other: seq<Frame>, told: Option<Value>, op: Op, v: Value)
    requires Quiet(g) && (op.Reload? || op.SetCurrent?) && Leads(sc, g, t, [Call(op, WantSubscribers(v))], other, told)
    ensures Leads(sc, WithRound(g, RoundOf(op, v, g, [], false)), t, [Call(op, Notifying(|g.rounds|))], other, told)
  {
    hide Leads, Unary;
    Goes(sc, g, t, op, WantSubscribers(v), other, told);
    Goes(sc, g.(subscribersLock := Some(t)), t, op, HasSubscribers(v), other, told);
  }

  lemma {:induction false} NotifyingStep(env: Env, g: Shared, t: Thread, op: Op, r: Round)
    ensures Advance(env, WithRound(g, r), t, op, Notifying(|g.rounds|), false) ==
            if |r.calls| < |r.snapshot|
            then (WithRound(g, r.(calls := r.calls + [(r.snapshot[|r.calls|], r.value)])), CallOut(r.snapshot[|r.calls|], r.value))
            else (WithRound(g, r.(over := true)), Finish)
  {
    assert forall q: Round :: WithRound(g, r).rounds[|g.rounds| := q] == WithRound(g, q).rounds;
  }

  /** One subscriber is called and comes back. */
  lemma {:induction false} OneCalled(sc: Scene, g: Shared, t: Thread, other: seq<Frame>, told: Option<Value>, op: Op, v: Value)
    requires g.subscribers == [sc.f]
    requires Leads(sc, WithRound(g, RoundOf(op, v, g, [], false)), t, [Call(op, Notifying(|g.rounds|))], other, told)
    ensures Leads(sc, WithRound(g, RoundOf(op, v, g, [(sc.f, v)], false)), t, [Call(op, Notifying(|g.rounds|))], other, Some(v))
  {
    var r := RoundOf(op, v, g, [], false);
    NotifyingStep(Unary(sc.raw), g, t, op, r);
    hide Leads, Unary, Advance;
    assert r.calls + [(sc.f, v)] == [(sc.f, v)];
    Goes(sc, WithRound(g, r), t, op, Notifying(|g.rounds|), other, told);
    Comes(sc, WithRound(g, RoundOf(op, v, g, [(sc.f, v)], false)), t, op, Notifying(|g.rounds|), sc.f, v, other, Some(v));
  }

  lemma {:induction false} RoundEnds(sc: Scene, g: Shared, t: Thread, other: seq<Frame>, told: Option<Value>, op: Op, r: Round)
    requires |r.calls| == |r.snapshot| && Leads(sc, WithRound(g, r), t, [Call(op, Notifying(|g.rounds|))], other, told)
    ensures Leads(sc, WithRound(g, r.(over := true)), t, [], other, told)
  {
    NotifyingStep(Unary(sc.raw), g, t, op, r);
    hide Leads, Unary, Advance;
    Goes(sc, WithRound(g, r), t, op, Notifying(|g.rounds|), other, told);
  }

  /** The thread announces `v`: a subscriber that is there hears it, and nothing else changes. */
  lemma {:induction false} Announces(sc: Scene, g: Shared, t: Thread, other: seq<Frame>, told: Option<Value>, op: Op, v: Value) returns (end: Shared)
    requires Quiet(g) && (op.Reload? || op.SetCurrent?) && Leads(sc, g, t, [Call(op, WantSubscribers(v))], other, told)
    requires g.subscribers == [] || g.subscribers == [sc.f]
    ensures Quiet(end) && end.backend == g.backend && end.current == g.current && end.subscribers == g.subscribers
    ensures Leads(sc, end, t, [], other, if g.subscribers == [] then told else Some(v))
  {
    hide Leads;
    RoundBegins(sc, g, t, other, told, op, v);
    if g.subscribers == [] {
      RoundEnds(sc, g, t, other, told, op, RoundOf(op, v, g, [], false));
      end := WithRound(g, RoundOf(op, v, g, [], true));
    } else {
      OneCalled(sc, g, t, other, told, op, v);
      RoundEnds(sc, g, t, other, Some(v), op, RoundOf(op, v, g, [(sc.f, v)], false));
      end := WithRound(g, RoundOf(op, v, g, [(sc.f, v)], true));
    }
  }

  // ------------------------------------------------------------------ cache and backend

  /** A whole refresh. */
  lemma {:induction false} RefreshRuns(sc: Scene, g: Shared, t: Thread, other: seq<Frame>, told: Option<Value>, op: Op, v: Value) returns (end: Shared)
    requires Refreshes(op) && Quiet(g) && Leads(sc, g, t, [Call(op, WantCurrent(v))], other, told)
    requires g.subscribers == [] || g.subscribers == [sc.f]
    ensures Quiet(end) && end.backend == g.backend && end.current == v && end.subscribers == g.subscribers
    ensures Leads(sc, end, t, [], other, if op.Resolve? || g.subscribers == [] then told else Some(v))
  {
    RefreshReleases(sc, g, t, other, told, op, v);
    end := g.(current := v);
    if op.Reload? { end := Announces(sc, end, t, other, told, op, v); }
  }

  /**
   * `reload` and `resolve` read the backend and swap the cache without the write lock. One that has already
   * read can install its old value after a save has come and gone: the store is at rest with the saved value
   * in the backend and another one in the cache.
   */
  lemma {:induction false} RefreshOvertakesSave(menu: Op -> bool, op: Op, v: Value) returns (end: Shared)
    requires Refreshes(op) && menu(op) && menu(Save(v))
    ensures Leads(Scene(menu, v, 0, Fresh(v, v)), end, 0, [], [], None) && end.backend == Zeros(v + 1) && end.current == v
  {
    var sc := Scene(menu, v, 0, Fresh(v, v));
    var g := sc.start.shared;
    LeadsNowhere(sc);
    hide Leads, Zeros;
    RefreshReads(sc, g, 0, [], None, op, v);
    Turn(sc, g, 0, [Call(op, WantCurrent(v))], [], None);
    var saved := SaveRuns(sc, g, 1, [Call(op, WantCurrent(v))], None, v);
    Turn(sc, saved, 1, [], [Call(op, WantCurrent(v))], None);
    end := RefreshRuns(sc, saved, 0, [], None, op, v);
  }

  /** A run that ends at rest with cache and backend apart. */
  lemma {:induction false} ApartAtRest(sc: Scene, v: Value, end: Shared, told: Option<Value>, stored: Value)
    requires sc.start == Fresh(v, v) && Leads(sc, end, 0, [], [], told) && end.backend == Zeros(stored) && end.current != stored
    ensures !KeepsCoherent(sc.menu)
  {
    UnaryRoundTrips(sc.raw);
    var env, s := Unary(sc.raw), sc.start;
    var steps :| Witnesses(sc, steps, end, 0, [], [], told);
    hide IsRun, After, InvokesOnly, Zeros, Unary, Told;
    assert AtRest(After(env, s, steps));
    assert Init(s) && Coherent(env, s.shared);
    assert !Coherent(env, After(env, s, steps).shared);
  }

  /**
   * Programs that start coherent can rely on the cache being what the backend would load, whenever the store
   * is at rest, exactly when they install nothing and do not both save and refresh.
   */
  lemma {:induction false} KeepsCoherentIff(menu: Op -> bool)
    ensures KeepsCoherent(menu) <==> SafeMenu(menu)
  {
    if SafeMenu(menu) {
      forall env, s, steps |
        Init(s) && RoundTrips(env) && Coherent(env, s.shared) && IsRun(env, s, steps) && InvokesOnly(menu, steps)
        && AtRest(After(env, s, steps))
        ensures Coherent(env, After(env, s, steps).shared)
      {
        SafeMenuNoOverlap(menu, env, s, steps);
        CoherentWithoutOverlap(env, s, steps);
        RestFreesTheLock(env, s, steps);
      }
    } else if v: Value :| menu(SetCurrent(v)) {
      InstallParts(menu, v);
    } else {
      var v: Value :| menu(Save(v));
      var op := if menu(Reload) then Reload else Resolve;
      var end := RefreshOvertakesSave(menu, op, v);
      ApartAtRest(Scene(menu, v, 0, Fresh(v, v)), v, end, None, v + 1);
    }
  }

  /** An install alone leaves the backend behind. */
  lemma {:induction false} InstallParts(menu: Op -> bool, v: Value)
    requires menu(SetCurrent(v))
    ensures !KeepsCoherent(menu)
  {
    var sc := Scene(menu, 0, 0, Fresh(v + 1, v + 1));
    LeadsNowhere(sc);
    hide Leads, Zeros, KeepsCoherent;
    var swapped := InstallReleases(sc, sc.start.shared, 0, [], None, v);
    var end := Announces(sc, swapped, 0, [], None, SetCurrent(v), v);
    ApartAtRest(sc, v + 1, end, None, v + 1);
  }

  lemma {:induction false} RestFreesTheLock(env: Env, s: State, steps: seq<Step>)
    requires Init(s) && IsRun(env, s, steps) && AtRest(After(env, s, steps))
    ensures After(env, s, steps).shared.writeLock.None?
  {
    var u := After(env, s, steps);
    InitHistory(env, s);
    Locks.RunKeepsInv(env, s, steps);
    var t := u.shared.writeLock.UnwrapOr(0);
    assert Locks.ThreadOk(u, t) && !Unfinished(u, t);
  }

  /** The cache is that of the last committed section, at every free write lock, exactly when nothing refreshes. */
  lemma {:induction false} KeepsSectionsIff(menu: Op -> bool)
    ensures KeepsSections(menu) <==> !menu(Reload) && !menu(Resolve)
  {
    if !menu(Reload) && !menu(Resolve) {
      forall env, s, steps |
        Init(s) && IsRun(env, s, steps) && InvokesOnly(menu, steps) && After(env, s, steps).shared.writeLock.None?
        ensures After(env, s, steps).shared.current == CachedBy(s.shared.current, After(env, s, steps).shared.commits)
      {
        assert NoRefreshInvoked(steps);
        WriterSectionsSerialize(env, s, steps);
      }
    } else {
      RefreshMovesTheCache(menu, if menu(Reload) then Reload else Resolve);
    }
  }

  lemma {:induction false} RefreshMovesTheCache(menu: Op -> bool, op: Op)
    requires Refreshes(op) && menu(op)
    ensures !KeepsSections(menu)
  {
    var sc := Scene(menu, 0, 0, Fresh(1, 0));
    var s := sc.start;
    var end := s.shared.(currentWriter := Some(0), current := 1);
    LeadsNowhere(sc);
    RefreshReads(sc, s.shared, 0, [], None, op, 1);
    RefreshSwaps(sc, s.shared, 0, [], None, op, 1);
    var steps :| Witnesses(sc, steps, end, 0, [Call(op, Assigned(1))], [], None);
    assert Init(s) && After(Unary(0), s, steps).shared == end;
    assert CachedBy(0, end.commits) == 0;
  }

  // ---------------------------------------------------------------- cache and subscribers

  /** A run that ends at rest with the subscriber having heard last something the cache does not hold. */
  lemma {:induction false} ToldOtherwise(sc: Scene, stored: Value, end: Shared, heard: Value)
    requires sc.start == Fresh(stored, stored) && Leads(sc, end, 0, [], [], Some(heard)) && end.current != heard
    ensures !TellsLatest(sc.menu)
  {
    var env, s := Unary(sc.raw), sc.start;
    var steps :| Witnesses(sc, steps, end, 0, [], [], Some(heard));
    hide IsRun, After, InvokesOnly, Zeros, Unary, Told;
    assert AtRest(After(env, s, steps)) && Init(s);
    assert Told(env, s, steps, sc.f, None).Some?;
  }

  /** The subscriber is there. */
  lemma {:induction false} Listening(sc: Scene, stored: Value) returns (g: Shared)
    requires sc.start == Fresh(stored, stored) && sc.menu(Subscribe(sc.f))
    ensures Quiet(g) && g.subscribers == [sc.f] && g.backend == Zeros(stored) && g.current == stored
    ensures Leads(sc, g, 0, [], [], None)
  {
    LeadsNowhere(sc);
    hide Leads, Zeros;
    g := SubscribeRuns(sc, sc.start.shared, 0, [], None);
  }

  /** A save tells nobody: what was installed and announced before is what they go on believing. */
  lemma {:induction false} SaveTellsNobody(menu: Op -> bool, f: Subscriber, u: Value, v: Value)
    requires menu(Subscribe(f)) && menu(Save(u)) && menu(SetCurrent(v))
    ensures !TellsLatest(menu)
  {
    var sc := Scene(menu, v, f, Fresh(0, 0));
    var g := Listening(sc, 0);
    hide Leads, Zeros, TellsLatest;
    var swapped := InstallReleases(sc, g, 0, [], None, v);
    var told := Announces(sc, swapped, 0, [], None, SetCurrent(v), v);
    var end := SaveRuns(sc, told, 0, [], Some(v), u);
    assert Unary(v).stamp(u) != v;
    ToldOtherwise(sc, 0, end, v);
  }

  lemma {:induction false} SaveAfterReload(menu: Op -> bool, f: Subscriber, u: Value)
    requires menu(Subscribe(f)) && menu(Save(u)) && menu(Reload)
    ensures !TellsLatest(menu)
  {
    var sc := Scene(menu, u, f, Fresh(u, u));
    var g := Listening(sc, u);
    hide Leads, Zeros, TellsLatest;
    RefreshReads(sc, g, 0, [], None, Reload, u);
    var told := RefreshRuns(sc, g, 0, [], None, Reload, u);
    var end := SaveRuns(sc, told, 0, [], Some(u), u);
    assert Unary(u).stamp(u) == u + 1;
    ToldOtherwise(sc, u, end, u);
  }

  /** Nor does a resolve. */
  lemma {:induction false} ResolveTellsNobody(menu: Op -> bool, f: Subscriber, v: Value)
    requires menu(Subscribe(f)) && menu(SetCurrent(v)) && menu(Resolve)
    ensures !TellsLatest(menu)
  {
    var sc := Scene(menu, 0, f, Fresh(v + 1, v + 1));
    var g := Listening(sc, v + 1);
    hide Leads, Zeros, TellsLatest;
    var swapped := InstallReleases(sc, g, 0, [], None, v);
    var told := Announces(sc, swapped, 0, [], None, SetCurrent(v), v);
    RefreshReads(sc, told, 0, [], Some(v), Resolve, v + 1);
    var end := RefreshRuns(sc, told, 0, [], Some(v), Resolve, v + 1);
    ToldOtherwise(sc, v + 1, end, v);
  }

  /**
   * Announcements are made after the locks are given back, so they may come in the other order: an install
   * announces its value after a reload has replaced it, and announced that.
   */
  lemma {:induction false} InstallAnnouncesAfterReload(menu: Op -> bool, f: Subscriber, v: Value)
    requires menu(Subscribe(f)) && menu(SetCurrent(v)) && menu(Reload)
    ensures !TellsLatest(menu)
  {
    var sc, late := Scene(menu, 0, f, Fresh(v + 1, v + 1)), [Call(SetCurrent(v), WantSubscribers(v))];
    var g := Listening(sc, v + 1);
    hide Leads, Zeros, TellsLatest;
    var swapped := InstallReleases(sc, g, 0, [], None, v);
    Turn(sc, swapped, 0, late, [], None);
    RefreshReads(sc, swapped, 1, late, None, Reload, v + 1);
    var reloaded := RefreshRuns(sc, swapped, 1, late, None, Reload, v + 1);
    Turn(sc, reloaded, 1, [], late, Some(v + 1));
    var end := Announces(sc, reloaded, 0, [], Some(v + 1), SetCurrent(v), v);
    ToldOtherwise(sc, v + 1, end, v);
  }

  /** Two installs commit in one order and announce in the other. */
  lemma {:induction false} InstallsAnnounceBackwards(menu: Op -> bool, f: Subscriber, v: Value, w: Value)
    requires menu(Subscribe(f)) && menu(SetCurrent(v)) && menu(SetCurrent(w)) && v != w
    ensures !TellsLatest(menu)
  {
    var sc, late := Scene(menu, 0, f, Fresh(0, 0)), [Call(SetCurrent(v), WantSubscribers(v))];
    var g := Listening(sc, 0);
    hide Leads, Zeros, TellsLatest;
    var first := InstallReleases(sc, g, 0, [], None, v);
    Turn(sc, first, 0, late, [], None);
    var second := InstallReleases(sc, first, 1, late, None, w);
    var told := Announces(sc, second, 1, late, None, SetCurrent(w), w);
    Turn(sc, told, 1, [], late, Some(w));
    var end := Announces(sc, told, 0, [], Some(w), SetCurrent(v), v);
    ToldOtherwise(sc, 0, end, v);
  }

  /**
   * Subscribers can rely on having heard last what the cache holds, whenever the store is at rest, exactly
   * when nobody listens, nothing announces, or only one value can ever be cached: the stored one, or the one
   * that is installed.
   */
  lemma {:induction false} TellsLatestIff(menu: Op -> bool)
    ensures TellsLatest(menu) <==> SafeToTell(menu)
  {
    if SafeToTell(menu) {
      forall env, s, steps, f |
        Init(s) && IsRun(env, s, steps) && InvokesOnly(menu, steps) && AtRest(After(env, s, steps)) && Told(env, s, steps, f, None).Some?
        ensures Told(env, s, steps, f, None).value == After(env, s, steps).shared.current
      {
        SafeMenuTellsLatest(menu, env, s, steps, f);
      }
    } else {
      hide TellsLatest;
      var f: Subscriber :| menu(Subscribe(f));
      UnsafeToTell(menu, f);
    }
  }

  lemma {:induction false} UnsafeToTell(menu: Op -> bool, f: Subscriber)
    requires menu(Subscribe(f)) && !SafeToTell(menu)
    ensures !TellsLatest(menu)
  {
    hide TellsLatest;
    if !NoSave(menu) {
      var u: Value :| menu(Save(u));
      if v: Value :| menu(SetCurrent(v)) { SaveTellsNobody(menu, f, u, v); } else { SaveAfterReload(menu, f, u); }
    } else {
      var v: Value :| menu(SetCurrent(v));
      if menu(Resolve) {
        ResolveTellsNobody(menu, f, v);
      } else if menu(Reload) {
        InstallAnnouncesAfterReload(menu, f, v);
      } else {
        var x: Value, y: Value :| menu(SetCurrent(x)) && menu(SetCurrent(y)) && x != y;
        InstallsAnnounceBackwards(menu, f, x, y);
      }
    }
  }
}

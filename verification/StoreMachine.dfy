/**
 * src/config/store.rs as threads see it: every lock operation, backend access and callback of
 * `save`, `set_current_and_notify`, `reload`, `resolve`, `subscribe`, `current` and `load` is one
 * atomic step. Any number of threads run them, and a subscriber called by the store may itself
 * call any of them, so a thread is a stack of calls and callbacks (innermost last).
 *
 * The backend, the codec and the migrations do not call the store, and no callback panics.
 */
module StoreMachine {
  import opened Wrappers

  type Thread = nat
  type Subscriber = nat
  type Value = nat
  type Document = seq<bv8>

  /** The code the store calls out to; `None` is a failure. */
  datatype Env = Env(
    load: Document -> Option<Value>,
    encode: Value -> Option<Document>,
    stamp: Value -> Value)

  datatype Op =
    | Save(v: Value)
    | SetCurrent(v: Value)
    | Reload
    | Resolve
    | Subscribe(f: Subscriber)
    | Current
    | Load

  datatype Phase =
    | Start
    | WantWriteLock
    | HasWriteLock
    | WantCurrent(v: Value)
    | HasCurrent(v: Value)
    | Assigned(v: Value)
    | ReleaseWriteLock(installed: Option<Value>)
    | WantSubscribers(v: Value)
    | HasSubscribers(v: Value)
    | Notifying(round: nat)
    | WantRead
    | HasRead

  datatype Frame = Call(op: Op, phase: Phase) | Callback(f: Subscriber, v: Value)

  /** One notification round: who was subscribed at its snapshot and who has been called so far. */
  datatype Round = Round(op: Op, value: Value, snapshot: seq<Subscriber>, calls: seq<(Subscriber, Value)>, over: bool)

  /** A critical section of the write lock, recorded as it ends. */
  datatype Commit = Saved(v: Value) | Installed(v: Value) | SaveFailed

  /** Everything the threads share: the three locks, what they guard, and the history kept for reasoning. */
  datatype Shared = Shared(
    writeLock: Option<Thread>,
    currentWriter: Option<Thread>,
    currentReaders: set<Thread>,
    subscribersLock: Option<Thread>,
    backend: Document,
    current: Value,
    subscribers: seq<Subscriber>,
    rounds: seq<Round>,
    commits: seq<Commit>)

  datatype State = State(shared: Shared, threads: map<Thread, seq<Frame>>)

  datatype Step =
    | Invoke(t: Thread, op: Op)
    | Proceed(t: Thread, fails: bool)
    | Return(t: Thread)

  /** What the innermost call of a thread does next with its own frame. */
  datatype Action = Goto(phase: Phase) | Finish | CallOut(f: Subscriber, v: Value)

  function Stack(s: State, t: Thread): seq<Frame> {
    if t in s.threads then s.threads[t] else []
  }

  predicate Unfinished(s: State, t: Thread) { Stack(s, t) != [] }

  function Last(stack: seq<Frame>): Frame
    requires stack != []
  {
    stack[|stack| - 1]
  }

  function Top(s: State, t: Thread): Frame
    requires Unfinished(s, t)
  {
    Last(Stack(s, t))
  }

  function FirstPhase(op: Op): Phase {
    match op
    case SetCurrent(_) => WantWriteLock
    case Subscribe(_) => WantSubscribers(0)
    case Current => WantRead
    case _ => Start
  }

  predicate TakesWriteLock(op: Op) { op.Save? || op.SetCurrent? }

  /** Locks are the only thing a call ever waits for. */
  predicate Ready(g: Shared, phase: Phase) {
    match phase
    case WantWriteLock => g.writeLock.None?
    case WantCurrent(_) => g.currentWriter.None? && g.currentReaders == {}
    case WantRead => g.currentWriter.None?
    case WantSubscribers(_) => g.subscribersLock.None?
    case Notifying(r) => r < |g.rounds|
    case _ => true
  }

  predicate Enabled(s: State, step: Step) {
    match step
    case Invoke(t, op) => Unfinished(s, t) ==> Top(s, t).Callback?
    case Return(t) => Unfinished(s, t) && Top(s, t).Callback?
    case Proceed(t, _) => Unfinished(s, t) && Top(s, t).Call? && Ready(s.shared, Top(s, t).phase)
  }

  function LoadNow(env: Env, g: Shared, op: Op, fails: bool): (Shared, Action) {
    match if fails then None else env.load(g.backend)
    case None => (g, Finish)
    case Some(v) => (g, if op.Load? then Finish else Goto(WantCurrent(v)))
  }

  function WriteNow(env: Env, g: Shared, v: Value, fails: bool): (Shared, Action) {
    match if fails then None else env.encode(env.stamp(v))
    case None => (g, Goto(ReleaseWriteLock(None)))
    case Some(doc) => (g.(backend := doc), Goto(WantCurrent(env.stamp(v))))
  }

  function Release(g: Shared, op: Op, installed: Option<Value>): (Shared, Action) {
    var free := g.(writeLock := None);
    match installed
    case None => (free.(commits := g.commits + [SaveFailed]), Finish)
    case Some(v) =>
      if op.Save? then (free.(commits := g.commits + [Saved(v)]), Finish)
      else (free.(commits := g.commits + [Installed(v)]), Goto(WantSubscribers(v)))
  }

  function UseSubscribers(g: Shared, op: Op, v: Value): (Shared, Action) {
    var free := g.(subscribersLock := None);
    if op.Subscribe? then (free.(subscribers := g.subscribers + [op.f]), Finish)
    else (free.(rounds := g.rounds + [Round(op, v, g.subscribers, [], false)]), Goto(Notifying(|g.rounds|)))
  }

  function CallNext(g: Shared, r: nat): (Shared, Action)
    requires r < |g.rounds|
  {
    var round := g.rounds[r];
    if |round.calls| < |round.snapshot| then
      var f := round.snapshot[|round.calls|];
      (g.(rounds := g.rounds[r := round.(calls := round.calls + [(f, round.value)])]), CallOut(f, round.value))
    else
      (g.(rounds := g.rounds[r := round.(over := true)]), Finish)
  }

  /** One atomic step of a call of thread `t`. `fails` lets the backend or a read-only check refuse. */
  function Advance(env: Env, g: Shared, t: Thread, op: Op, phase: Phase, fails: bool): (Shared, Action)
    requires Ready(g, phase)
  {
    match phase
    case Start =>
      if !op.Save? then LoadNow(env, g, op, fails) else (g, if fails then Finish else Goto(WantWriteLock))
    case WantWriteLock => (g.(writeLock := Some(t)), Goto(if op.SetCurrent? then WantCurrent(op.v) else HasWriteLock))
    case HasWriteLock => if op.Save? then WriteNow(env, g, op.v, fails) else (g, Goto(ReleaseWriteLock(None)))
    case WantCurrent(v) => (g.(currentWriter := Some(t)), Goto(HasCurrent(v)))
    case HasCurrent(v) => (g.(current := v), Goto(Assigned(v)))
    case Assigned(v) =>
      (g.(currentWriter := None),
       if TakesWriteLock(op) then Goto(ReleaseWriteLock(Some(v)))
       else if op.Reload? then Goto(WantSubscribers(v))
       else Finish)
    case ReleaseWriteLock(installed) => Release(g, op, installed)
    case WantSubscribers(v) => (g.(subscribersLock := Some(t)), Goto(HasSubscribers(v)))
    case HasSubscribers(v) => UseSubscribers(g, op, v)
    case Notifying(r) => CallNext(g, r)
    case WantRead => (g.(currentReaders := g.currentReaders + {t}), Goto(HasRead))
    case HasRead => (g.(currentReaders := g.currentReaders - {t}), Finish)
  }

  function Move(stack: seq<Frame>, op: Op, action: Action): seq<Frame>
    requires stack != []
  {
    match action
    case Goto(p) => stack[..|stack| - 1] + [Call(op, p)]
    case Finish => stack[..|stack| - 1]
    case CallOut(f, v) => stack + [Callback(f, v)]
  }

  function Apply(env: Env, s: State, step: Step): State
    requires Enabled(s, step)
  {
    var stack := Stack(s, step.t);
    match step
    case Invoke(t, op) => s.(threads := s.threads[t := stack + [Call(op, FirstPhase(op))]])
    case Return(t) => s.(threads := s.threads[t := stack[..|stack| - 1]])
    case Proceed(t, fails) =>
      var Call(op, phase) := Top(s, t);
      var (shared, action) := Advance(env, s.shared, t, op, phase, fails);
      State(shared, s.threads[t := Move(stack, op, action)])
  }

  predicate IsRun(env: Env, s: State, steps: seq<Step>)
    decreases |steps|
  {
    steps == [] || (Enabled(s, steps[0]) && IsRun(env, Apply(env, s, steps[0]), steps[1..]))
  }

  function After(env: Env, s: State, steps: seq<Step>): State
    requires IsRun(env, s, steps)
    decreases |steps|
  {
    if steps == [] then s else After(env, Apply(env, s, steps[0]), steps[1..])
  }

  predicate Init(s: State) {
    var g := s.shared;
    g.writeLock.None? && g.currentWriter.None? && g.currentReaders == {} && g.subscribersLock.None?
    && g.subscribers == [] && g.rounds == [] && g.commits == [] && s.threads == map[]
  }

  // ------------------------------------------------------------- runs, state by state

  /** The states a run goes through: `States(env, s, steps)[k]` is the one before step k. */
  function States(env: Env, s: State, steps: seq<Step>): (states: seq<State>)
    requires IsRun(env, s, steps)
    ensures |states| == |steps| + 1 && states[0] == s && states[|steps|] == After(env, s, steps)
    decreases |steps|
  {
    if steps == [] then [s] else [s] + States(env, Apply(env, s, steps[0]), steps[1..])
  }

  lemma {:induction false} StatesStep(env: Env, s: State, steps: seq<Step>, k: nat)
    requires IsRun(env, s, steps) && k < |steps|
    ensures var states := States(env, s, steps);
            Enabled(states[k], steps[k]) && states[k + 1] == Apply(env, states[k], steps[k])
    decreases k
  {
    hide Enabled, Apply;
    if k > 0 { StatesStep(env, Apply(env, s, steps[0]), steps[1..], k - 1); }
  }
}

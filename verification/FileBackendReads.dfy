/** What a read of the file backend returns, and when: the document of the moment it was opened. */
module FileBackendReads {
  import opened Wrappers
  import opened FileBackend
  import opened FileBackendProofs

  /** The states a run goes through: the one before step k is at index k. */
  ghost function States(s: State, steps: seq<Step>): (states: seq<State>)
    requires IsRun(s, steps)
    ensures |states| == |steps| + 1 && states[0] == s && states[|steps|] == After(s, steps)
    decreases |steps|
  {
    if steps == [] then [s] else [s] + States(Apply(s, steps[0]), steps[1..])
  }

  lemma {:induction false} StatesStep(s: State, steps: seq<Step>, k: nat)
    requires IsRun(s, steps) && k < |steps|
    ensures var states := States(s, steps); Enabled(states[k], steps[k]) && states[k + 1] == Apply(states[k], steps[k])
    decreases k
  {
    hide Enabled, Apply;
    if k > 0 { StatesStep(Apply(s, steps[0]), steps[1..], k - 1); }
  }

  lemma {:induction false} StatesOk(s: State, steps: seq<Step>, k: nat)
    requires Init(s) && IsRun(s, steps) && k <= |steps|
    ensures Inv(States(s, steps)[k])
    decreases k
  {
    hide Enabled, Apply, Inv, Init;
    if k == 0 {
      InitInv(s);
    } else {
      StatesOk(s, steps, k - 1);
      StatesStep(s, steps, k - 1);
      StepKeepsInv(States(s, steps)[k - 1], steps[k - 1]);
    }
  }

  // ------------------------------------------------------------------- opening and reading

  /** Read r was opened at step o, and what it has is of the document that was there then. */
  ghost predicate OpenedAt(states: seq<State>, steps: seq<Step>, k: int, o: int, r: Call)
    requires 0 <= k < |states| == |steps| + 1 && r in states[k].readers
  {
    && 0 <= o < k && steps[o] == Open(r)
    && match states[k].readers[r]
       case Reading(fd, _) => Published(states[k], fd) && fd in states[k].data && Content(states[o]) == Some(states[k].data[fd])
       case Finished(bytes) => Returns(states[o], bytes)
  }

  /** What `read` makes of the target: its bytes, or nothing when it is missing. */
  ghost predicate Returns(s: State, bytes: Bytes) { bytes == Content(s).UnwrapOr([]) }

  ghost predicate Opened(states: seq<State>, steps: seq<Step>, k: int, r: Call)
    requires 0 <= k < |states| == |steps| + 1 && r in states[k].readers
  {
    exists o :: OpenedAt(states, steps, k, o, r)
  }

  ghost predicate ReadsOpened(states: seq<State>, steps: seq<Step>, k: int)
    requires 0 <= k < |states| == |steps| + 1
  {
    forall r :: r in states[k].readers ==> Opened(states, steps, k, r)
  }

  /** The step that opens, extends or finishes a read. */
  lemma {:induction false} OwnStep(states: seq<State>, steps: seq<Step>, k: int, r: Call)
    requires 0 <= k < |steps| && |states| == |steps| + 1 && Inv(states[k])
    requires Enabled(states[k], steps[k]) && states[k + 1] == Apply(states[k], steps[k])
    requires steps[k].Open? || steps[k].ReadChunk? || steps[k].ReadEnd?
    requires steps[k].r == r && (r in states[k].readers ==> Opened(states, steps, k, r))
    ensures r in states[k + 1].readers && Opened(states, steps, k + 1, r)
  {
    var s := states[k];
    if steps[k].Open? {
      if s.target in s.dir { TargetPublished(s); }
      assert OpenedAt(states, steps, k + 1, k, r);
    } else {
      var o :| OpenedAt(states, steps, k, o, r);
      assert ReaderOk(s, r);
      assert steps[k].ReadEnd? ==> s.readers[r].got == s.data[s.readers[r].fd];
      assert OpenedAt(states, steps, k + 1, o, r);
    }
  }

  lemma {:induction false} TargetPublished(s: State)
    requires Inv(s) && s.target in s.dir
    ensures Published(s, s.dir[s.target]) && s.dir[s.target] in s.data
  {
  }

  /** Any other step leaves an open read its document, or ends it. */
  lemma {:induction false} OtherStep(states: seq<State>, steps: seq<Step>, k: int, r: Call)
    requires 0 <= k < |steps| && |states| == |steps| + 1 && Inv(states[k])
    requires Enabled(states[k], steps[k]) && states[k + 1] == Apply(states[k], steps[k])
    requires !((steps[k].Open? || steps[k].ReadChunk? || steps[k].ReadEnd?) && steps[k].r == r)
    requires r in states[k + 1].readers
    requires r in states[k].readers ==> Opened(states, steps, k, r)
    ensures Opened(states, steps, k + 1, r)
  {
    var s, t := states[k], states[k + 1];
    OtherReaders(s, steps[k], r);
    var o :| OpenedAt(states, steps, k, o, r);
    if s.readers[r].Reading? {
      var fd := s.readers[r].fd;
      assert OnDisk(s, fd);
      PublishedBytesStep(s, steps[k]);
    }
    assert OpenedAt(states, steps, k + 1, o, r);
  }

  lemma {:induction false} ReadsStep(states: seq<State>, steps: seq<Step>, k: int)
    requires 0 <= k < |steps| && |states| == |steps| + 1 && Inv(states[k]) && ReadsOpened(states, steps, k)
    requires Enabled(states[k], steps[k]) && states[k + 1] == Apply(states[k], steps[k])
    ensures ReadsOpened(states, steps, k + 1)
  {
    hide Enabled, Apply, Inv, Opened;
    var step, next := steps[k], k + 1;
    forall r | r in states[next].readers ensures Opened(states, steps, next, r) {
      if (step.Open? || step.ReadChunk? || step.ReadEnd?) && step.r == r {
        OwnStep(states, steps, k, r);
      } else {
        OtherStep(states, steps, k, r);
      }
    }
  }

  lemma {:induction false} NothingOpened(states: seq<State>, steps: seq<Step>)
    requires |states| == |steps| + 1 && Init(states[0])
    ensures ReadsOpened(states, steps, 0)
  {
  }

  lemma {:induction false} RunOpens(s: State, steps: seq<Step>, k: nat)
    requires Init(s) && IsRun(s, steps) && k <= |steps|
    ensures ReadsOpened(States(s, steps), steps, k)
    decreases k
  {
    hide Init, Enabled, Apply, Inv, ReadsOpened, IsRun, After, States;
    if k == 0 {
      NothingOpened(States(s, steps), steps);
    } else {
      RunOpens(s, steps, k - 1);
      StatesStep(s, steps, k - 1);
      StatesOk(s, steps, k - 1);
      ReadsStep(States(s, steps), steps, k - 1);
    }
  }

  /**
   * In every run, with crashes and concurrent writers: a finished read returns the target as it was at the
   * step that opened it, whatever has been renamed over it since.
   */
  lemma {:induction false} ReadsSeeTheirOpening(s: State, steps: seq<Step>, r: Call) returns (o: nat)
    requires Init(s) && IsRun(s, steps) && r in After(s, steps).readers && After(s, steps).readers[r].Finished?
    ensures o < |steps| && steps[o] == Open(r) && Returns(States(s, steps)[o], After(s, steps).readers[r].bytes)
  {
    RunOpens(s, steps, |steps|);
    hide Init, IsRun, After, States;
    var k :| OpenedAt(States(s, steps), steps, |steps|, k, r);
    o := k;
  }

  // ------------------------------------------------------------------------ fresh reads

  predicate NoPowerLoss(steps: seq<Step>) { forall k :: 0 <= k < |steps| ==> !steps[k].PowerLoss? }

  /** Without a power loss nothing is taken back: not a rename, a returned call or an opened read. */
  ghost predicate Grows(s: State, t: State) {
    s.log <= t.log && s.readers.Keys <= t.readers.Keys && KeepsReturned(s, t)
  }

  lemma {:induction false} StepGrows(s: State, step: Step)
    requires Enabled(s, step) && !step.PowerLoss?
    ensures Grows(s, Apply(s, step))
  {
    ReturnedStep(s, step);
  }

  lemma {:induction false} GrowsTwice(s: State, t: State, u: State)
    requires Grows(s, t) && Grows(t, u)
    ensures Grows(s, u)
  {
  }

  lemma {:induction false} RunGrows(s: State, steps: seq<Step>, a: nat, b: nat)
    requires IsRun(s, steps) && NoPowerLoss(steps) && a <= b <= |steps|
    ensures Grows(States(s, steps)[a], States(s, steps)[b])
    decreases b
  {
    if a < b {
      hide Enabled, Apply, Grows;
      RunGrows(s, steps, a, b - 1);
      StatesStep(s, steps, b - 1);
      StepGrows(States(s, steps)[b - 1], steps[b - 1]);
      GrowsTwice(States(s, steps)[a], States(s, steps)[b - 1], States(s, steps)[b]);
    } else {
      assert Grows(States(s, steps)[a], States(s, steps)[b]);
    }
  }

  lemma {:induction false} RunLogs(s: State, steps: seq<Step>, k: nat)
    requires Init(s) && IsRun(s, steps) && NoPowerLoss(steps) && k <= |steps|
    ensures LogOk(States(s, steps)[k]) && AllLogged(States(s, steps)[k])
    decreases k
  {
    if k == 0 {
      assert States(s, steps)[0] == s;
    } else {
      hide Enabled, Apply, LogOk, AllLogged, IsRun, After, States, Init;
      RunLogs(s, steps, k - 1);
      StatesStep(s, steps, k - 1);
      LogStep(States(s, steps)[k - 1], steps[k - 1]);
    }
  }

  /**
   * Without a power loss: a read that is opened after a write has returned Ok returns that document or one
   * renamed over it later, by the position of their renames.
   */
  lemma {:induction false} ReadsAreFresh(s: State, steps: seq<Step>, k: nat, w: Call, r: Call) returns (p: nat, j: nat)
    requires Init(s) && IsRun(s, steps) && NoPowerLoss(steps) && k <= |steps|
    requires w in States(s, steps)[k].writers && States(s, steps)[k].writers[w].phase == Returned(true)
    requires r !in States(s, steps)[k].readers
    requires r in After(s, steps).readers && After(s, steps).readers[r].Finished?
    ensures var end := After(s, steps);
            && p <= j < |end.log| && end.log[p] == w && end.log[j] in end.writers
            && end.readers[r].bytes == end.writers[end.log[j]].bytes
  {
    hide Inv, Enabled, Apply;
    var states, end := States(s, steps), After(s, steps);
    var o := ReadsSeeTheirOpening(s, steps, r);
    RunLogs(s, steps, k);
    p :| 0 <= p < |states[k].log| && states[k].log[p] == w;
    OpenedLater(s, steps, k, o, r);
    RunGrows(s, steps, k, o);
    RunGrows(s, steps, o, |steps|);
    StatesOk(s, steps, o);
    InvMeansWhole(states[o]);
    hide Init, IsRun, After, States, NoPowerLoss, Inv;
    j := LastDocument(states[k], states[o], end, p, end.readers[r].bytes);
  }

  /** What is read at `t` after the p-th rename was in force at `s`, seen from later on. */
  lemma {:induction false} LastDocument(s: State, t: State, end: State, p: nat, bytes: Bytes) returns (j: nat)
    requires p < |s.log| && Grows(s, t) && Grows(t, end) && TargetWhole(t) && Returns(t, bytes)
    ensures p <= j < |end.log| && end.log[p] == s.log[p]
    ensures end.log[j] in end.writers && bytes == end.writers[end.log[j]].bytes
  {
    j := |t.log| - 1;
  }

  lemma {:induction false} OpenedLater(s: State, steps: seq<Step>, k: nat, o: nat, r: Call)
    requires IsRun(s, steps) && NoPowerLoss(steps) && k <= |steps| && o < |steps| && steps[o] == Open(r)
    requires r !in States(s, steps)[k].readers
    ensures k <= o
  {
    if o < k {
      StatesStep(s, steps, o);
      RunGrows(s, steps, o + 1, k);
    }
  }
}

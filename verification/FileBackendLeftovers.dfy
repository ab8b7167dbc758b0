/** What failed and finished writes leave behind in the directory. */
module FileBackendLeftovers {
  import opened FileBackend

  /** No process dies, the power stays on, and every clean-up finds what it removes. */
  predicate Tidy(step: Step) {
    !step.ProcessCrash? && !step.PowerLoss? && (step.Cleanup? ==> step.removed)
  }

  predicate AllTidy(steps: seq<Step>) { forall k :: 0 <= k < |steps| ==> Tidy(steps[k]) }

  /** Some call that has not returned is using the name. */
  ghost predicate InUse(s: State, name: string) {
    exists w :: w in s.writers && Live(s.writers[w].phase) && NameOf(s, s.writers[w]) == name
  }

  /** Every name but the target's was there at first or is in use. */
  ghost predicate NothingLeft(before: set<string>, s: State) {
    forall n :: n in s.dir && n != s.target && n !in before ==> InUse(s, n)
  }

  /** A step keeps the names of the other calls and, unless it ends the call, its own. */
  lemma {:induction false} NamesInUse(s: State, step: Step, name: string)
    requires Enabled(s, step) && Tidy(step) && InUse(s, name) && name in Apply(s, step).dir
    ensures InUse(Apply(s, step), name)
  {
    var t := Apply(s, step);
    var w :| w in s.writers && Live(s.writers[w].phase) && NameOf(s, s.writers[w]) == name;
    assert t.target == s.target;
    assert w in t.writers && t.writers[w].pid == s.writers[w].pid && t.writers[w].attempt == s.writers[w].attempt;
    assert (step.Rename? || step.Cleanup?) && step.w == w ==> name !in t.dir;
    assert Live(t.writers[w].phase);
  }

  lemma {:induction false} NewNames(s: State, step: Step, name: string)
    requires Enabled(s, step) && Tidy(step) && name in Apply(s, step).dir && name !in s.dir && name != s.target
    ensures InUse(Apply(s, step), name)
  {
    var t := Apply(s, step);
    assert step.Create? && name == NameOf(s, s.writers[step.w]);
    assert Live(t.writers[step.w].phase) && NameOf(t, t.writers[step.w]) == name;
  }

  lemma {:induction false} StepLeavesNothing(before: set<string>, s: State, step: Step)
    requires Enabled(s, step) && Tidy(step) && NothingLeft(before, s)
    ensures NothingLeft(before, Apply(s, step)) && Apply(s, step).target == s.target
  {
    assert Apply(s, step).target == s.target;
    hide Enabled, Apply, Tidy, InUse;
    forall n | n in Apply(s, step).dir && n != s.target && n !in before ensures InUse(Apply(s, step), n) {
      if n in s.dir { NamesInUse(s, step, n); } else { NewNames(s, step, n); }
    }
  }

  lemma {:induction false} RunLeavesNothing(before: set<string>, s: State, steps: seq<Step>)
    requires IsRun(s, steps) && AllTidy(steps) && NothingLeft(before, s)
    ensures NothingLeft(before, After(s, steps)) && After(s, steps).target == s.target
    decreases |steps|
  {
    hide Enabled, Apply, Tidy, NothingLeft;
    if steps != [] {
      StepLeavesNothing(before, s, steps[0]);
      RunLeavesNothing(before, Apply(s, steps[0]), steps[1..]);
    }
  }

  /**
   * Over every run without a crash in which clean-ups succeed: a name in the directory is the target's, was there
   * at first, or belongs to a call that has not returned. Once all calls have returned, failed ones included,
   * nothing but the target has been added.
   */
  lemma {:induction false} NoTemporaryFileSurvives(s: State, steps: seq<Step>)
    requires Init(s) && IsRun(s, steps) && AllTidy(steps)
    ensures forall n :: n in After(s, steps).dir && n != s.target && n !in s.dir ==> InUse(After(s, steps), n)
    ensures (forall w :: w in After(s, steps).writers ==> !Live(After(s, steps).writers[w].phase))
            ==> After(s, steps).dir.Keys <= s.dir.Keys + {s.target}
  {
    hide Enabled, Apply, Tidy;
    RunLeavesNothing(s.dir.Keys, s, steps);
  }
}

/** Atomicity of `FileBackend::write` over every interleaving, failure and crash. */
module FileBackendProofs {
  import opened Wrappers
  import opened TempNames
  import opened FileBackend

  // ------------------------------------------------------- exclusive ownership

  /** Two live calls never use the same temporary name. */
  lemma {:induction false} LiveNamesDistinct(s: State, v: Call, w: Call)
    requires AttemptsOk(s) && v in s.writers && w in s.writers && v != w
    requires Live(s.writers[v].phase) && Live(s.writers[w].phase)
    ensures NameOf(s, s.writers[v]) != NameOf(s, s.writers[w])
  {
    var a, b := s.writers[v], s.writers[w];
    if NameOf(s, a) == NameOf(s, b) {
      assert AttemptsApart(s, v, w) && AttemptsApart(s, w, v);
      TempNamesDistinct(s.target, a.pid, a.attempt, b.pid, b.attempt);
    }
  }

  /** A live writer's open file is no other live writer's file, and is not and never was the target. */
  lemma {:induction false} WritersFileIsPrivate(s: State, w: Call)
    requires Inv(s) && w in s.writers && HasFile(s.writers[w].phase)
    ensures !Published(s, s.writers[w].phase.fd)
    ensures forall v :: v in s.writers && v != w && HasFile(s.writers[v].phase)
                        ==> s.writers[v].phase.fd != s.writers[w].phase.fd
  {
    assert WriterOk(s, w);
    forall v | v in s.writers && v != w && HasFile(s.writers[v].phase)
      ensures s.writers[v].phase.fd != s.writers[w].phase.fd
    {
      assert WriterOk(s, v);
      LiveNamesDistinct(s, v, w);
      assert NamesApart(s.dir, NameOf(s, s.writers[v]), NameOf(s, s.writers[w]));
    }
  }

  // --------------------------------------------------------------- frame lemmas

  /** Records of completed writes are kept. */
  ghost predicate KeepsReturned(s: State, t: State) {
    s.initial == t.initial && s.target == t.target
    && forall w :: w in s.writers && s.writers[w].phase == Returned(true)
                   ==> w in t.writers && t.writers[w] == s.writers[w]
  }

  /** Everything that was ever the target keeps its bytes, in memory and on disk. */
  ghost predicate KeepsPublished(s: State, t: State) {
    forall i :: Published(s, i) && OnDisk(s, i) ==> OnDisk(t, i) && t.data[i] == s.data[i]
  }

  lemma {:induction false} PublishedKept(s: State, t: State)
    requires PublishedOk(s) && KeepsReturned(s, t) && KeepsPublished(s, t)
    requires t.log == s.log && t.installed == s.installed && t.base == s.base && t.flushed <= |t.log|
    requires forall n :: n in t.dir && n != t.target ==> (n in s.dir && t.dir[n] == s.dir[n]) || t.dir[n] !in s.data
    requires s.target in t.dir <==> s.target in s.dir
    requires s.target in s.dir ==> t.dir[s.target] == s.dir[s.target]
    ensures PublishedOk(t)
  {
    forall i | Published(t, i) ensures OnDisk(t, i) { assert Published(s, i); }
    forall k | 0 <= k < |t.log|
      ensures t.installed[k] in t.data && t.data[t.installed[k]] == t.writers[t.log[k]].bytes
    {
      assert Published(s, s.installed[k]);
    }
    if s.base.Some? { assert Published(s, s.base.value); }
    forall n | n in t.dir && n != t.target ensures !Published(t, t.dir[n]) {
      assert Published(t, t.dir[n]) ==> Published(s, t.dir[n]);
    }
  }

  lemma {:induction false} ReaderKept(s: State, t: State, r: Call)
    requires PublishedOk(s) && KeepsReturned(s, t) && KeepsPublished(s, t)
    requires r in s.readers && ReaderOk(s, r) && r in t.readers && t.readers[r] == s.readers[r]
    requires s.readers[r].Reading? && Published(s, s.readers[r].fd) ==> Published(t, s.readers[r].fd)
    ensures ReaderOk(t, r)
  {
    CompleteKept(s, t);
    if s.readers[r].Reading? { assert OnDisk(s, s.readers[r].fd); }
  }

  lemma {:induction false} CompleteKept(s: State, t: State)
    requires KeepsReturned(s, t)
    ensures forall b :: Complete(s, b) ==> Complete(t, b)
  {
  }

  /** A writer whose own record, name and file are as before is still consistent. */
  lemma {:induction false} WriterKept(s: State, t: State, w: Call)
    requires w in s.writers && WriterOk(s, w) && w in t.writers && s.target == t.target
    requires t.writers[w] == s.writers[w] || !HasFile(t.writers[w].phase)
    requires HasFile(s.writers[w].phase) ==>
               var n, fd := NameOf(s, s.writers[w]), s.writers[w].phase.fd;
               && n in t.dir && n in s.dir && t.dir[n] == s.dir[n]
               && fd in s.data && fd in t.data && t.data[fd] == s.data[fd]
               && (OnDisk(s, fd) ==> OnDisk(t, fd))
    ensures WriterOk(t, w)
  {
  }

  /** A step of call `w` that touches only its own name, its own file and the target spares every other call. */
  lemma {:induction false} OtherWritersKept(s: State, t: State, w: Call)
    requires DirectoryOk(s) && WritersOk(s) && AttemptsOk(s) && s.target == t.target
    requires w in s.writers && Live(s.writers[w].phase)
    requires forall v :: v in t.writers && v != w ==> v in s.writers && t.writers[v] == s.writers[v]
    requires forall n :: n in s.dir && n != NameOf(s, s.writers[w]) && n != s.target
                         ==> n in t.dir && t.dir[n] == s.dir[n]
    requires forall n :: n in s.dir && n != NameOf(s, s.writers[w])
                         ==> FileKept(s, t, s.dir[n])
    ensures forall v :: v in t.writers && v != w ==> WriterOk(t, v)
  {
    forall v | v in t.writers && v != w ensures WriterOk(t, v) {
      assert WriterOk(s, v);
      if HasFile(s.writers[v].phase) {
        LiveNamesDistinct(s, v, w);
        assert FileKept(s, t, s.dir[NameOf(s, s.writers[v])]);
      }
      WriterKept(s, t, v);
    }
  }

  ghost predicate FileKept(s: State, t: State, i: Inode) {
    i in s.data ==> i in t.data && t.data[i] == s.data[i] && (OnDisk(s, i) ==> OnDisk(t, i))
  }

  // ------------------------------------- every step keeps each part of the invariant

  lemma {:induction false} DirectoryStep(s: State, step: Step)
    requires DirectoryOk(s) && Enabled(s, step)
    ensures DirectoryOk(Apply(s, step))
  {
    var t := Apply(s, step);
    if step.PowerLoss? {
    } else if step.Rename? {
      var name := NameOf(s, s.writers[step.w]);
      forall n, m ensures NamesApart(t.dir, n, m) {
        assert NamesApart(s.dir, n, m) && NamesApart(s.dir, n, name) && NamesApart(s.dir, name, m);
      }
    } else {
      forall n, m ensures NamesApart(t.dir, n, m) { assert NamesApart(s.dir, n, m); }
    }
  }

  lemma {:induction false} AttemptsStep(s: State, step: Step)
    requires AttemptsOk(s) && Enabled(s, step)
    ensures AttemptsOk(Apply(s, step))
  {
    var t := Apply(s, step);
    if step.Begin? {
      forall v, w ensures AttemptsApart(t, v, w) { assert AttemptsApart(s, v, w); }
    } else {
      StepKeepsLiveCalls(s, step);
      forall v, w ensures AttemptsApart(t, v, w) { assert AttemptsApart(s, v, w); }
    }
  }

  /** Only `Begin` starts a call; a counter goes down only when its process is gone. */
  lemma {:induction false} StepKeepsLiveCalls(s: State, step: Step)
    requires Enabled(s, step) && !step.Begin?
    ensures var t := Apply(s, step);
            forall w :: w in t.writers && Live(t.writers[w].phase) ==>
              && w in s.writers && Live(s.writers[w].phase)
              && t.writers[w].pid == s.writers[w].pid && t.writers[w].attempt == s.writers[w].attempt
              && Counter(s, s.writers[w].pid) <= Counter(t, s.writers[w].pid)
  {
  }

  lemma {:induction false} WritersStep(s: State, step: Step)
    requires DirectoryOk(s) && WritersOk(s) && AttemptsOk(s) && Enabled(s, step)
    ensures WritersOk(Apply(s, step))
  {
    var t := Apply(s, step);
    if step.Create? || step.WriteChunk? || step.WriteDone? || step.Sync? || step.Rename? || step.Fail? || step.Cleanup? {
      OwnWriterStep(s, step);
      OtherWritersStep(s, step);
    } else {
      forall w | w in t.writers ensures WriterOk(t, w) {
        if w in s.writers { assert WriterOk(s, w); }
      }
    }
  }

  lemma {:induction false} OwnWriterStep(s: State, step: Step)
    requires WritersOk(s) && Enabled(s, step)
    requires step.Create? || step.WriteChunk? || step.WriteDone? || step.Sync? || step.Rename? || step.Fail? || step.Cleanup?
    ensures WriterOk(Apply(s, step), step.w)
  {
    assert WriterOk(s, step.w);
  }

  lemma {:induction false} OtherWritersStep(s: State, step: Step)
    requires DirectoryOk(s) && WritersOk(s) && AttemptsOk(s) && Enabled(s, step)
    requires step.Create? || step.WriteChunk? || step.WriteDone? || step.Sync? || step.Rename? || step.Fail? || step.Cleanup?
    ensures forall v :: v in Apply(s, step).writers && v != step.w ==> WriterOk(Apply(s, step), v)
  {
    var t := Apply(s, step);
    var name := NameOf(s, s.writers[step.w]);
    assert WriterOk(s, step.w);
    forall n | n in s.dir && n != name ensures FileKept(s, t, s.dir[n]) {
      assert NamesApart(s.dir, n, name);
    }
    OtherWritersKept(s, t, step.w);
  }

  /** No step, not even a crash, loses or alters the record of a completed write. */
  lemma {:induction false} ReturnedStep(s: State, step: Step)
    requires Enabled(s, step)
    ensures KeepsReturned(s, Apply(s, step))
  {
  }

  /** No inode is written after its rename. */
  lemma {:induction false} PublishedBytesStep(s: State, step: Step)
    requires DirectoryOk(s) && PublishedOk(s) && WritersOk(s) && Enabled(s, step)
    ensures KeepsPublished(s, Apply(s, step))
  {
    if step.Create? || step.WriteChunk? || step.Sync? {
      WritePublishesNothing(s, step);
    } else if step.PowerLoss? {
    } else {
      assert Apply(s, step).data == s.data && Apply(s, step).durable == s.durable;
    }
  }

  lemma {:induction false} WritePublishesNothing(s: State, step: Step)
    requires DirectoryOk(s) && PublishedOk(s) && WritersOk(s) && Enabled(s, step)
    requires step.Create? || step.WriteChunk? || step.Sync?
    ensures KeepsPublished(s, Apply(s, step))
  {
    assert WriterOk(s, step.w);
  }

  lemma {:induction false} PublishedStep(s: State, step: Step)
    requires DirectoryOk(s) && PublishedOk(s) && WritersOk(s) && Enabled(s, step)
    ensures PublishedOk(Apply(s, step))
  {
    hide Enabled, Apply, DirectoryOk, WritersOk, KeepsReturned, KeepsPublished;
    PublishedBytesStep(s, step);
    ReturnedStep(s, step);
    if step.Rename? {
      RenamePublishes(s, step);
    } else if step.PowerLoss? {
      PowerLossPublishes(s, step);
    } else {
      NamesStep(s, step);
      PublishedKept(s, Apply(s, step));
    }
  }

  /** Apart from a rename and a power loss, a step leaves the target name and the log alone. */
  lemma {:induction false} NamesStep(s: State, step: Step)
    requires Enabled(s, step) && !step.Rename? && !step.PowerLoss? && s.flushed <= |s.log|
    ensures var t := Apply(s, step);
            && t.log == s.log && t.installed == s.installed && t.base == s.base && t.flushed <= |t.log|
            && (forall n :: n in t.dir && n != t.target
                            ==> (n in s.dir && t.dir[n] == s.dir[n]) || t.dir[n] !in s.data)
            && (s.target in t.dir <==> s.target in s.dir)
            && (s.target in s.dir ==> t.dir[s.target] == s.dir[s.target])
  {
  }

  lemma {:induction false} RenamePublishes(s: State, step: Step)
    requires DirectoryOk(s) && PublishedOk(s) && WritersOk(s) && Enabled(s, step) && step.Rename?
    ensures PublishedOk(Apply(s, step))
  {
    var t := Apply(s, step);
    var fd := s.writers[step.w].phase.fd;
    assert WriterOk(s, step.w);
    forall i | Published(t, i) ensures OnDisk(t, i) { assert i == fd || Published(s, i); }
    forall n | n in t.dir && n != t.target ensures !Published(t, t.dir[n]) {
      assert NamesApart(s.dir, n, NameOf(s, s.writers[step.w]));
      assert !Published(s, s.dir[n]);
    }
    forall k | 0 <= k < |t.log|
      ensures t.log[k] in t.writers && t.writers[t.log[k]].phase == Returned(true)
      ensures t.installed[k] in t.data && t.data[t.installed[k]] == t.writers[t.log[k]].bytes
    {
      if k < |s.log| {
        assert t.log[k] == s.log[k] && t.installed[k] == s.installed[k];
        assert s.log[k] in s.writers && s.writers[s.log[k]].phase == Returned(true);
      }
    }
  }

  lemma {:induction false} PowerLossPublishes(s: State, step: Step)
    requires PublishedOk(s) && Enabled(s, step) && step.PowerLoss?
    ensures PublishedOk(Apply(s, step))
  {
    var t := Apply(s, step);
    forall i | Published(t, i) ensures OnDisk(t, i) && t.data[i] == s.data[i] { assert Published(s, i); }
    forall k | 0 <= k < |t.log|
      ensures t.log[k] in t.writers && t.writers[t.log[k]].phase == Returned(true)
      ensures t.installed[k] in t.data && t.data[t.installed[k]] == t.writers[t.log[k]].bytes
    {
      assert t.log[k] == s.log[k] && t.installed[k] == s.installed[k];
      assert Published(t, t.installed[k]);
    }
    if s.base.Some? { assert Published(t, s.base.value); }
  }

  lemma {:induction false} ReadersStep(s: State, step: Step)
    requires DirectoryOk(s) && PublishedOk(s) && WritersOk(s) && ReadersOk(s) && Enabled(s, step)
    ensures ReadersOk(Apply(s, step))
  {
    var t := Apply(s, step);
    PublishedBytesStep(s, step);
    ReturnedStep(s, step);
    hide Apply, Enabled, KeepsPublished, KeepsReturned, DirectoryOk, PublishedOk, WritersOk, ReaderOk;
    forall r | r in t.readers ensures ReaderOk(t, r) {
      if (step.Open? || step.ReadChunk? || step.ReadEnd?) && r == step.r {
        OwnReadStep(s, step);
      } else {
        OtherReaders(s, step, r);
        assert ReaderOk(s, r);
        ReaderKept(s, t, r);
      }
    }
  }

  /** A step of anything else leaves a read as it is, or ends it without a result. */
  lemma {:induction false} OtherReaders(s: State, step: Step, r: Call)
    requires Enabled(s, step) && r in Apply(s, step).readers
    requires !((step.Open? || step.ReadChunk? || step.ReadEnd?) && step.r == r)
    ensures r in s.readers && Apply(s, step).readers[r] == s.readers[r]
    ensures s.readers[r].Reading? && Published(s, s.readers[r].fd) ==> Published(Apply(s, step), s.readers[r].fd)
  {
  }

  /** Opening, extending and finishing a read keep that read's part of the invariant. */
  lemma {:induction false} OwnReadStep(s: State, step: Step)
    requires DirectoryOk(s) && PublishedOk(s) && ReadersOk(s) && Enabled(s, step)
    requires step.Open? || step.ReadChunk? || step.ReadEnd?
    ensures ReaderOk(Apply(s, step), step.r)
  {
    var t := Apply(s, step);
    CompleteKept(s, t);
    if step.Open? {
      if s.target in s.dir {
        assert Published(s, s.dir[s.target]);
      } else {
        assert s.base.None?;
      }
    } else {
      assert ReaderOk(s, step.r);
      PublishedIsComplete(s, s.readers[step.r].fd);
      if step.ReadEnd? {
        assert s.readers[step.r].got == s.data[s.readers[step.r].fd];
      }
    }
  }

  /** Whatever was ever the target holds a complete document. */
  lemma {:induction false} PublishedIsComplete(s: State, i: Inode)
    requires PublishedOk(s) && Published(s, i)
    ensures i in s.data && Complete(s, Some(s.data[i]))
  {
    assert OnDisk(s, i);
    if s.base != Some(i) {
      var k :| 0 <= k < |s.installed| && s.installed[k] == i;
      assert s.log[k] in s.writers;
    }
  }

  lemma {:induction false} StepKeepsInv(s: State, step: Step)
    requires Inv(s) && Enabled(s, step)
    ensures Inv(Apply(s, step)) && KeepsReturned(s, Apply(s, step))
  {
    hide Enabled, Apply, DirectoryOk, PublishedOk, WritersOk, AttemptsOk, ReadersOk, KeepsReturned;
    DirectoryStep(s, step);
    AttemptsStep(s, step);
    WritersStep(s, step);
    PublishedStep(s, step);
    ReadersStep(s, step);
    ReturnedStep(s, step);
  }

  // ------------------------------------------------------------ main theorems

  lemma {:induction false} InitInv(s: State)
    requires Init(s)
    ensures Inv(s)
  {
    if s.target in s.dir {
      forall n | n in s.dir && n != s.target ensures !Published(s, s.dir[n]) {
        assert NamesApart(s.dir, n, s.target);
      }
    }
  }

  lemma {:induction false} RunKeepsInv(s: State, steps: seq<Step>)
    requires Inv(s) && IsRun(s, steps)
    ensures Inv(After(s, steps)) && After(s, steps).initial == s.initial
    decreases |steps|
  {
    hide Inv, Enabled, Apply;
    if steps != [] {
      StepKeepsInv(s, steps[0]);
      RunKeepsInv(Apply(s, steps[0]), steps[1..]);
    }
  }

  /** The target is the document of the last rename in force, or the one it started with; it is on disk. */
  ghost predicate TargetWhole(t: State) {
    && (t.log == [] ==> Content(t) == t.initial)
    && (t.log != [] ==>
          var last := t.log[|t.log| - 1];
          last in t.writers && t.writers[last].phase == Returned(true) && Content(t) == Some(t.writers[last].bytes))
    && (t.target in t.dir ==> OnDisk(t, t.dir[t.target]))
  }

  /** Every finished read returned the first document or all the bytes of one call that reached its rename. */
  ghost predicate ReadsWhole(t: State) {
    forall r :: r in t.readers && t.readers[r].Finished? ==>
      Complete(t, Some(t.readers[r].bytes)) || (t.readers[r].bytes == [] && Complete(t, None))
  }

  lemma {:induction false} InvMeansWhole(t: State)
    requires Inv(t)
    ensures TargetWhole(t) && ReadsWhole(t)
  {
    forall r | r in t.readers && t.readers[r].Finished?
      ensures Complete(t, Some(t.readers[r].bytes)) || (t.readers[r].bytes == [] && Complete(t, None))
    {
      assert ReaderOk(t, r);
    }
    if t.log != [] {
      assert t.log[|t.log| - 1] in t.writers;
    }
    if t.target in t.dir { assert Published(t, t.dir[t.target]); }
  }

  /** Over every run: failed, dead and unfinished writes are never seen, by any reader or after any crash. */
  lemma {:induction false} WritesAreAtomic(s: State, steps: seq<Step>)
    requires Init(s) && IsRun(s, steps)
    ensures TargetWhole(After(s, steps)) && ReadsWhole(After(s, steps))
    ensures After(s, steps).initial == s.initial == Content(s)
  {
    hide Inv, Enabled, Apply, TargetWhole, ReadsWhole;
    InitInv(s);
    RunKeepsInv(s, steps);
    InvMeansWhole(After(s, steps));
  }

  /** The renames in force are distinct successful calls. */
  ghost predicate LogOk(s: State) {
    && (forall k :: 0 <= k < |s.log| ==> s.log[k] in s.writers && s.writers[s.log[k]].phase == Returned(true))
    && (forall j, k :: 0 <= j < k < |s.log| ==> s.log[j] != s.log[k])
  }

  ghost predicate AllLogged(s: State) {
    forall w :: w in s.writers && s.writers[w].phase == Returned(true) ==> w in s.log
  }

  lemma {:induction false} LogStep(s: State, step: Step)
    requires Enabled(s, step) && LogOk(s)
    ensures LogOk(Apply(s, step))
    ensures !step.PowerLoss? && AllLogged(s) ==> AllLogged(Apply(s, step))
  {
    hide Enabled, Apply;
    var t := Apply(s, step);
    LogShape(s, step);
    ReturnedStep(s, step);
  }

  lemma {:induction false} LogShape(s: State, step: Step)
    requires Enabled(s, step)
    ensures var t := Apply(s, step);
            && (step.Rename? ==> t.log == s.log + [step.w] && step.w in s.writers && Live(s.writers[step.w].phase)
                                 && t.writers == s.writers[step.w := s.writers[step.w].(phase := Returned(true))])
            && (!step.Rename? ==> t.log <= s.log)
            && (!step.Rename? ==> forall w :: w in t.writers && t.writers[w].phase == Returned(true)
                                              ==> w in s.writers && s.writers[w].phase == Returned(true))
            && (!step.Rename? && !step.PowerLoss? ==> t.log == s.log)
  {
  }

  /** Without a power loss no successful write is lost: the log is exactly the calls that returned Ok, once each. */
  lemma {:induction false} SuccessfulWritesAreKept(s: State, steps: seq<Step>)
    requires IsRun(s, steps) && LogOk(s) && AllLogged(s)
    requires forall k :: 0 <= k < |steps| ==> !steps[k].PowerLoss?
    ensures LogOk(After(s, steps)) && AllLogged(After(s, steps))
    decreases |steps|
  {
    hide Enabled, Apply, LogOk, AllLogged;
    if steps != [] {
      LogStep(s, steps[0]);
      SuccessfulWritesAreKept(Apply(s, steps[0]), steps[1..]);
    }
  }
}

/** `FileBackend::write` and `read` as the source runs them: one call, step after step, on the mutable file system. */
module FileBackendCalls {
  import opened Wrappers
  import opened FileBackend
  import opened FileBackendProofs

  lemma {:induction false} RunExtends(s: State, steps: seq<Step>, step: Step)
    requires IsRun(s, steps) && Enabled(After(s, steps), step)
    ensures IsRun(s, steps + [step]) && After(s, steps + [step]) == Apply(After(s, steps), step)
    decreases |steps|
  {
    hide Enabled, Apply;
    var all := steps + [step];
    if steps == [] {
      assert all[1..] == [];
    } else {
      assert all[1..] == steps[1..] + [step];
      RunExtends(Apply(s, steps[0]), steps[1..], step);
    }
  }

  /** What the invariant says about one open file. */
  lemma {:induction false} OpenFile(s: State, w: Call)
    requires Inv(s) && w in s.writers && HasFile(s.writers[w].phase)
    ensures NameOf(s, s.writers[w]) in s.dir && s.writers[w].phase.fd in s.data
  {
    assert WriterOk(s, w);
  }

  /** What the invariant says about one read in progress. */
  lemma {:induction false} OpenRead(s: State, r: Call)
    requires Inv(s) && r in s.readers && s.readers[r].Reading?
    ensures s.readers[r].fd in s.data && s.readers[r].got <= s.data[s.readers[r].fd]
  {
    assert ReaderOk(s, r);
  }

  lemma {:induction false} TargetExists(s: State)
    requires Inv(s) && s.target in s.dir
    ensures s.dir[s.target] in s.data
  {
  }

  /** Which system calls of one write fail; `full` is the number of bytes the disk still takes. */
  datatype Faults = Faults(create: bool, full: Option<nat>, sync: bool, rename: bool, remove: bool)

  class Disk {
    var s: State
    /** The state this machine started in and every step taken since. */
    ghost const start: State
    ghost var steps: seq<Step>

    ghost predicate Valid()
      reads this
    {
      Inv(s) && IsRun(start, steps) && After(start, steps) == s
    }

    constructor (initial: State)
      requires Init(initial)
      ensures s == start == initial && steps == [] && Valid()
    {
      s, start, steps := initial, initial, [];
      new;
      InitInv(s);
    }

    /** One system call. */
    method Do(step: Step)
      requires Valid() && Enabled(s, step)
      modifies this
      ensures Valid() && s == Apply(old(s), step) && steps == old(steps) + [step] && KeepsReturned(old(s), s)
    {
      hide Inv, Enabled, Apply, KeepsReturned;
      StepKeepsInv(s, step);
      RunExtends(start, steps, step);
      s := Apply(s, step);
      steps := steps + [step];
    }

    /**
     * `write`: it answers Ok exactly when no system call fails. On Ok the target is exactly `bytes`, on disk, and
     * the temporary name is gone; on Err the target is as it was, and the temporary name is gone unless
     * removing it fails too.
     */
    method Write(w: Call, pid: nat, bytes: Bytes, faults: Faults) returns (ok: bool)
      requires Valid() && Enabled(s, Begin(w, pid, bytes))
      modifies this
      ensures Valid() && old(steps) <= steps
      ensures ok <==> !faults.create && !faults.sync && !faults.rename && (faults.full.Some? ==> |bytes| <= faults.full.value)
      ensures w in s.writers && s.writers[w].bytes == bytes && s.writers[w].phase == Returned(ok)
      ensures s.log == if ok then old(s.log) + [w] else old(s.log)
      ensures Content(s) == if ok then Some(bytes) else old(Content(s))
      ensures ok || !faults.remove ==> NameOf(s, s.writers[w]) !in s.dir
      ensures ok ==> s.target in s.dir && OnDisk(s, s.dir[s.target])
    {
      hide Inv, IsRun, After;
      InvMeansWhole(s);
      Do(Begin(w, pid, bytes));
      ok := WriteAndRename(w, faults);
      if !ok { Do(Cleanup(w, !faults.remove)); }
      InvMeansWhole(s);
    }

    /** The part that `write` cleans up after: create, write all the chunks, sync, rename. */
    method WriteAndRename(w: Call, faults: Faults) returns (ok: bool)
      requires Valid() && w in s.writers && s.writers[w].phase.Creating?
      modifies this
      ensures Valid() && old(steps) <= steps && KeepsReturned(old(s), s)
      ensures ok <==> !faults.create && !faults.sync && !faults.rename
                      && (faults.full.Some? ==> |old(s.writers[w]).bytes| <= faults.full.value)
      ensures w in s.writers && s.writers[w] == old(s.writers[w]).(phase := if ok then Returned(true) else Cleaning)
      ensures s.log == if ok then old(s.log) + [w] else old(s.log)
      ensures ok ==> NameOf(s, s.writers[w]) !in s.dir
    {
      hide Inv, IsRun, After;
      if faults.create { Do(Fail(w)); return false; }
      var spare := SpareInode();
      Do(Create(w, spare));
      ok := WriteAll(w, faults.full);
      if ok { ok := SyncAndRename(w, faults.sync, faults.rename); }
    }

    method SyncAndRename(w: Call, syncFails: bool, renameFails: bool) returns (ok: bool)
      requires Valid() && w in s.writers && s.writers[w].phase.Syncing?
      modifies this
      ensures Valid() && old(steps) <= steps && KeepsReturned(old(s), s)
      ensures ok <==> !syncFails && !renameFails
      ensures w in s.writers && s.writers[w] == old(s.writers[w]).(phase := if ok then Returned(true) else Cleaning)
      ensures s.log == if ok then old(s.log) + [w] else old(s.log)
      ensures ok ==> NameOf(s, s.writers[w]) !in s.dir
    {
      hide Inv, IsRun, After;
      OpenFile(s, w);
      if syncFails { Do(Fail(w)); return false; }
      Do(Sync(w));
      OpenFile(s, w);
      if renameFails { Do(Fail(w)); return false; }
      Do(Rename(w));
      ok := true;
    }

    /** `write_all`: the kernel takes the bytes in chunks of its own choosing, until the disk is full. */
    method WriteAll(w: Call, full: Option<nat>) returns (ok: bool)
      requires Valid() && w in s.writers && s.writers[w].phase.Writing? && s.writers[w].phase.done == 0
      modifies this
      ensures Valid() && old(steps) <= steps && KeepsReturned(old(s), s)
      ensures ok <==> (full.Some? ==> |old(s.writers[w]).bytes| <= full.value)
      ensures w in s.writers && s.log == old(s.log)
      ensures s.writers[w] == old(s.writers[w]).(phase := if ok then Syncing(old(s.writers[w].phase.fd)) else Cleaning)
    {
      hide Inv, IsRun, After;
      var done := 0;
      while done < |s.writers[w].bytes|
        invariant Valid() && old(steps) <= steps && KeepsReturned(old(s), s)
        invariant w in s.writers && s.log == old(s.log) && done <= |s.writers[w].bytes|
        invariant full.Some? ==> done <= full.value
        invariant s.writers[w] == old(s.writers[w]).(phase := Writing(old(s.writers[w].phase.fd), done))
        decreases |s.writers[w].bytes| - done
      {
        OpenFile(s, w);
        if full == Some(done) { Do(Fail(w)); return false; }
        var n: nat :| 0 < n <= |s.writers[w].bytes| - done && (full.Some? ==> done + n <= full.value);
        Do(WriteChunk(w, n));
        done := done + n;
      }
      Do(WriteDone(w));
      ok := true;
    }

    /** An inode number not in use. */
    method SpareInode() returns (i: Inode)
      ensures i !in s.data
    {
      i := 0;
      var left := s.data.Keys;
      while left != {}
        invariant forall j :: j in s.data && j !in left ==> j < i
        decreases left
      {
        var j :| j in left;
        left := left - {j};
        i := if j < i then i else j + 1;
      }
    }

    /** `std::fs::read` in chunks, a missing file reading as nothing: the whole document or nothing at all. */
    method Read(r: Call) returns (bytes: Bytes)
      requires Valid() && r !in s.readers
      modifies this
      ensures Valid() && old(steps) <= steps
      ensures bytes == match old(Content(s)) case Some(b) => b case None => []
      ensures Content(s) == old(Content(s))
    {
      hide Inv, IsRun, After;
      if s.target in s.dir { TargetExists(s); }
      Do(Open(r));
      while s.readers[r].Reading? && |s.readers[r].got| < |s.data[s.readers[r].fd]|
        invariant Valid() && old(steps) <= steps && r in s.readers
        invariant s.dir == old(s.dir) && s.data == old(s.data) && s.target == old(s.target)
        invariant s.readers[r].Reading? ==> s.target in s.dir && s.readers[r].fd == s.dir[s.target] && s.readers[r].fd in s.data
        invariant s.readers[r].Finished? ==> s.target !in s.dir && s.readers[r].bytes == []
        decreases if s.readers[r].Reading? then |s.data[s.readers[r].fd]| - |s.readers[r].got| else 0
      {
        var n: nat :| 0 < n <= |s.data[s.readers[r].fd]| - |s.readers[r].got|;
        Do(ReadChunk(r, n));
      }
      if s.readers[r].Reading? {
        OpenRead(s, r);
        Do(ReadEnd(r));
      }
      bytes := s.readers[r].bytes;
    }
  }
}

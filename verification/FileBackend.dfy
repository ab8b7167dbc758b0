/**
 * src/config/file_backend.rs: write-temp / fsync / rename, as a state machine over the
 * system calls of any number of concurrent writers and readers in any number of processes.
 * A process may die, and the machine may lose power, between any two steps.
 *
 * The file system is two maps, names to inodes and inodes to bytes. `durable` holds the
 * inodes whose bytes have reached the disk since they were last changed; `flushed` says how
 * many of the renames have. The code syncs the file and never its directory, so a power
 * loss may take back any rename that the system had not flushed on its own.
 */
module FileBackend {
  import opened Wrappers
  import opened TempNames

  type Bytes = seq<bv8>
  type Inode = nat
  type Call = nat

  /** Where one `write` call stands inside `write_and_rename` and its clean-up. */
  datatype Phase =
    | Creating
    | Writing(fd: Inode, done: nat)
    | Syncing(fd: Inode)
    | Renaming(fd: Inode)
    | Cleaning
    | Returned(ok: bool)
    | Killed

  datatype Writer = Writer(pid: nat, attempt: nat, bytes: Bytes, phase: Phase)

  datatype Reader = Reading(fd: Inode, got: Bytes) | Finished(bytes: Bytes)

  datatype State = State(
    target: string,
    initial: Option<Bytes>,
    base: Option<Inode>,
    dir: map<string, Inode>,
    data: map<Inode, Bytes>,
    durable: map<Inode, Bytes>,
    log: seq<Call>,
    installed: seq<Inode>,
    flushed: nat,
    counters: map<nat, nat>,
    writers: map<Call, Writer>,
    readers: map<Call, Reader>)

  datatype Step =
    | Begin(w: Call, pid: nat, bytes: Bytes)
    | WriteElsewhere(pid: nat)
    | Create(w: Call, spare: Inode)
    | WriteChunk(w: Call, n: nat)
    | WriteDone(w: Call)
    | Sync(w: Call)
    | Rename(w: Call)
    | Fail(w: Call)
    | Cleanup(w: Call, removed: bool)
    | Open(r: Call)
    | ReadChunk(r: Call, n: nat)
    | ReadEnd(r: Call)
    | FlushDirectory(upTo: nat)
    | ProcessCrash(pid: nat)
    | PowerLoss(kept: nat, dirAfter: map<string, Inode>, dataAfter: map<Inode, Bytes>)

  predicate Live(p: Phase) { !p.Returned? && !p.Killed? }

  predicate HasFile(p: Phase) { p.Writing? || p.Syncing? || p.Renaming? }

  function NameOf(s: State, w: Writer): (name: string)
    ensures name != s.target
  {
    TempName(s.target, w.pid, w.attempt)
  }

  function Counter(s: State, pid: nat): nat {
    if pid in s.counters then s.counters[pid] else 0
  }

  /** pwrite(2): overwrite from `offset`, filling any hole before it with zero bytes. */
  function WriteAt(content: Bytes, offset: nat, chunk: Bytes): Bytes {
    var head := if offset <= |content| then content[..offset] else content + seq(offset - |content|, _ => 0);
    var end := offset + |chunk|;
    head + chunk + (if end <= |content| then content[end..] else [])
  }

  function SetPhase(s: State, w: Call, p: Phase): State
    requires w in s.writers
  {
    s.(writers := s.writers[w := s.writers[w].(phase := p)])
  }

  /** The inode behind the target name once the first `k` renames are in force. */
  function TargetAfter(s: State, k: nat): Option<Inode>
    requires k <= |s.installed|
  {
    if k == 0 then s.base else Some(s.installed[k - 1])
  }

  /** What a reader that opens the target now would see. */
  function Content(s: State): Option<Bytes> {
    if s.target in s.dir && s.dir[s.target] in s.data then Some(s.data[s.dir[s.target]]) else None
  }

  ghost predicate Published(s: State, i: Inode) {
    s.base == Some(i) || i in s.installed
  }

  // ---------------------------------------------------------------- the steps

  ghost predicate Enabled(s: State, step: Step) {
    match step
    case Begin(w, pid, _) =>
      && w !in s.writers
      && forall v :: v in s.writers && Live(s.writers[v].phase) && s.writers[v].pid == pid
                     ==> Counter(s, pid) - s.writers[v].attempt < COUNTER_MODULUS
    case WriteElsewhere(_) => true
    case Create(w, spare) => w in s.writers && s.writers[w].phase.Creating? && spare !in s.data
    case WriteChunk(w, n) =>
      w in s.writers && s.writers[w].phase.Writing? && s.writers[w].phase.fd in s.data
      && 0 < n <= |s.writers[w].bytes| - s.writers[w].phase.done
    case WriteDone(w) =>
      w in s.writers && s.writers[w].phase.Writing? && s.writers[w].phase.done == |s.writers[w].bytes|
    case Sync(w) => w in s.writers && s.writers[w].phase.Syncing? && s.writers[w].phase.fd in s.data
    case Rename(w) => w in s.writers && s.writers[w].phase.Renaming? && NameOf(s, s.writers[w]) in s.dir
    case Fail(w) => w in s.writers && Live(s.writers[w].phase) && !s.writers[w].phase.Cleaning?
    case Cleanup(w, _) => w in s.writers && s.writers[w].phase.Cleaning?
    case Open(r) => r !in s.readers
    case ReadChunk(r, n) =>
      r in s.readers && s.readers[r].Reading? && s.readers[r].fd in s.data
      && 0 < n <= |s.data[s.readers[r].fd]| - |s.readers[r].got|
    case ReadEnd(r) =>
      r in s.readers && s.readers[r].Reading? && s.readers[r].fd in s.data
      && |s.data[s.readers[r].fd]| <= |s.readers[r].got|
    case FlushDirectory(k) => s.flushed <= k <= |s.log|
    case ProcessCrash(_) => true
    case PowerLoss(k, dirAfter, dataAfter) =>
      && s.flushed <= k <= |s.log| == |s.installed|
      && dataAfter.Keys == s.data.Keys
      && (forall i :: i in s.durable && i in s.data ==> dataAfter[i] == s.durable[i])
      && (match TargetAfter(s, k)
          case None => s.target !in dirAfter
          case Some(i) => s.target in dirAfter && dirAfter[s.target] == i)
      && (forall n :: n in dirAfter ==> dirAfter[n] in s.data)
      && (forall n, m :: NamesApart(dirAfter, n, m))
      && (forall n :: n in dirAfter && n != s.target
                      ==> s.base != Some(dirAfter[n]) && dirAfter[n] !in s.installed[..k])
  }

  function Kill(s: State, pid: Option<nat>): map<Call, Writer> {
    map w | w in s.writers ::
      if Live(s.writers[w].phase) && (pid.None? || s.writers[w].pid == pid.value)
      then s.writers[w].(phase := Killed) else s.writers[w]
  }

  function Apply(s: State, step: Step): State
    requires Enabled(s, step)
  {
    match step
    case Begin(w, pid, bytes) =>
      s.(writers := s.writers[w := Writer(pid, Counter(s, pid), bytes, Creating)],
         counters := s.counters[pid := Counter(s, pid) + 1])
    case WriteElsewhere(pid) => s.(counters := s.counters[pid := Counter(s, pid) + 1])
    case Create(w, spare) =>
      var name := NameOf(s, s.writers[w]);
      var i := if name in s.dir then s.dir[name] else spare;
      SetPhase(s.(dir := s.dir[name := i], data := s.data[i := []], durable := s.durable - {i}),
               w, Writing(i, 0))
    case WriteChunk(w, n) =>
      var Writer(_, _, bytes, Writing(fd, done)) := s.writers[w];
      SetPhase(s.(data := s.data[fd := WriteAt(s.data[fd], done, bytes[done..done + n])],
                  durable := s.durable - {fd}),
               w, Writing(fd, done + n))
    case WriteDone(w) => SetPhase(s, w, Syncing(s.writers[w].phase.fd))
    case Sync(w) =>
      var fd := s.writers[w].phase.fd;
      SetPhase(s.(durable := s.durable[fd := s.data[fd]]), w, Renaming(fd))
    case Rename(w) =>
      var name := NameOf(s, s.writers[w]);
      SetPhase(s.(dir := (s.dir - {name})[s.target := s.dir[name]],
                  log := s.log + [w], installed := s.installed + [s.dir[name]]),
               w, Returned(true))
    case Fail(w) => SetPhase(s, w, Cleaning)
    case Cleanup(w, removed) =>
      var name := NameOf(s, s.writers[w]);
      SetPhase(if removed then s.(dir := s.dir - {name}) else s, w, Returned(false))
    case Open(r) =>
      s.(readers := s.readers[r := if s.target in s.dir then Reading(s.dir[s.target], []) else Finished([])])
    case ReadChunk(r, n) =>
      var Reading(fd, got) := s.readers[r];
      s.(readers := s.readers[r := Reading(fd, got + s.data[fd][|got|..|got| + n])])
    case ReadEnd(r) => s.(readers := s.readers[r := Finished(s.readers[r].got)])
    case FlushDirectory(k) => s.(flushed := k)
    case ProcessCrash(pid) => s.(writers := Kill(s, Some(pid)), counters := s.counters - {pid})
    case PowerLoss(k, dirAfter, dataAfter) =>
      s.(dir := dirAfter, data := dataAfter, log := s.log[..k], installed := s.installed[..k],
         flushed := k, counters := map[], writers := Kill(s, None),
         readers := map r | r in s.readers && s.readers[r].Finished? :: s.readers[r])
  }

  ghost predicate IsRun(s: State, steps: seq<Step>)
    decreases |steps|
  {
    steps == [] || (Enabled(s, steps[0]) && IsRun(Apply(s, steps[0]), steps[1..]))
  }

  ghost function After(s: State, steps: seq<Step>): State
    requires IsRun(s, steps)
    decreases |steps|
  {
    if steps == [] then s else After(Apply(s, steps[0]), steps[1..])
  }

  /** No call in progress; the target, if there, is on disk; stale temporary files may be lying about. */
  ghost predicate Init(s: State) {
    && s.writers == map[] && s.readers == map[] && s.counters == map[]
    && s.log == [] && s.installed == [] && s.flushed == 0
    && s.base == (if s.target in s.dir then Some(s.dir[s.target]) else None)
    && s.initial == Content(s)
    && DirectoryOk(s)
    && (s.target in s.dir ==> s.dir[s.target] in s.durable
                              && s.durable[s.dir[s.target]] == s.data[s.dir[s.target]])
  }

  // ------------------------------------------------------------ the invariant

  ghost predicate DirectoryOk(s: State) {
    && (forall n :: n in s.dir ==> s.dir[n] in s.data)
    && (forall n, m :: NamesApart(s.dir, n, m))
  }

  /** No inode has two names: nothing here makes hard links. */
  ghost predicate NamesApart(dir: map<string, Inode>, n: string, m: string) {
    n in dir && m in dir && dir[n] == dir[m] ==> n == m
  }

  ghost predicate OnDisk(s: State, i: Inode) {
    i in s.data && i in s.durable && s.durable[i] == s.data[i]
  }

  /** Every inode that has ever been the target is complete, synced and out of any writer's reach. */
  ghost predicate PublishedOk(s: State) {
    && |s.log| == |s.installed| && s.flushed <= |s.log|
    && (forall i :: Published(s, i) ==> OnDisk(s, i))
    && (s.base.Some? ==> s.base.value in s.data && s.initial == Some(s.data[s.base.value]))
    && (s.base.None? ==> s.initial.None?)
    && (forall k :: 0 <= k < |s.log| ==>
          && s.log[k] in s.writers && s.writers[s.log[k]].phase == Returned(true)
          && s.installed[k] in s.data && s.data[s.installed[k]] == s.writers[s.log[k]].bytes)
    && (forall n :: n in s.dir && n != s.target ==> !Published(s, s.dir[n]))
    && (TargetAfter(s, |s.log|) == if s.target in s.dir then Some(s.dir[s.target]) else None)
  }

  ghost predicate WriterOk(s: State, w: Call)
    requires w in s.writers
  {
    var wr := s.writers[w];
    HasFile(wr.phase) ==>
      && NameOf(s, wr) in s.dir && s.dir[NameOf(s, wr)] == wr.phase.fd
      && wr.phase.fd in s.data
      && match wr.phase
         case Writing(fd, done) => done <= |wr.bytes| && s.data[fd] == wr.bytes[..done]
         case Syncing(fd) => s.data[fd] == wr.bytes
         case Renaming(fd) => s.data[fd] == wr.bytes && OnDisk(s, fd)
  }

  ghost predicate WritersOk(s: State) {
    forall w :: w in s.writers ==> WriterOk(s, w)
  }

  /** Live calls of one process hold counter values that are distinct modulo 2^64. */
  ghost predicate AttemptsOk(s: State) {
    && (forall w :: w in s.writers && Live(s.writers[w].phase)
                    ==> s.writers[w].attempt < Counter(s, s.writers[w].pid))
    && (forall v, w :: AttemptsApart(s, v, w))
  }

  ghost predicate AttemptsApart(s: State, v: Call, w: Call) {
    v in s.writers && w in s.writers && v != w
    && Live(s.writers[v].phase) && Live(s.writers[w].phase) && s.writers[v].pid == s.writers[w].pid
    ==> s.writers[v].attempt != s.writers[w].attempt
        && s.writers[v].attempt - s.writers[w].attempt < COUNTER_MODULUS
  }

  /** The bytes are those the target started with, or all the bytes of a call that renamed its file. */
  ghost predicate Complete(s: State, b: Option<Bytes>) {
    b == s.initial
    || exists w :: w in s.writers && s.writers[w].phase == Returned(true) && b == Some(s.writers[w].bytes)
  }

  ghost predicate ReaderOk(s: State, r: Call)
    requires r in s.readers
  {
    match s.readers[r]
    case Reading(fd, got) => Published(s, fd) && fd in s.data && got <= s.data[fd]
    case Finished(bytes) => Complete(s, Some(bytes)) || (bytes == [] && Complete(s, None))
  }

  ghost predicate ReadersOk(s: State) {
    forall r :: r in s.readers ==> ReaderOk(s, r)
  }

  ghost predicate Inv(s: State) {
    DirectoryOk(s) && PublishedOk(s) && WritersOk(s) && AttemptsOk(s) && ReadersOk(s)
  }
}

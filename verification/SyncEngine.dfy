/** The transfer and delete phases of a sync run as a transition system.

    A job is what planning hands over: the tasks in list order, the destination names seen,
    the source names to keep. Workers take tasks from the closed channel and move them
    through check, compare, backup, read, write and count, one driver call or shared-counter update
    per step, in any interleaving; then the main routine joins them and deletes orphans. Any
    driver call may return an error, whether or not it had its effect. A schedule is any
    sequence of actions; an action that cannot happen changes nothing. */
module SyncEngine {
  import opened Prelude
  import opened Keys
  import opened Listing
  import opened MockStore
  import opened Comparator
  import opened Names

  datatype Options = Options(checksum: bool, delete: bool, dryRun: bool, noBackup: bool, conflictDir: string)

  datatype Task = Task(obj: ObjectInfo, rel: string, destPath: string)

  datatype Job = Job(
    src: Store, dst: Store,
    tasks: seq<Task>, destMap: map<string, ObjectInfo>, srcNames: set<string>,
    opts: Options, hash: bytes -> string,
    stamps: set<string>,   // what the clock may show during the run
    workers: nat,          // how many workers are started
    cancellable: bool,     // whether the context can be cancelled at all
    wraps: bool            // whether a conversion out of the 64-bit range wraps
  )

  // ---------------------------------------------------------------- state

  datatype Outcome = Skipped | Updated | Transferred

  /** Where a task stands, that is, the program counter of the worker that holds it with the
      local variables live there. Once taken from the channel, a task is dropped if the worker
      then finds the context cancelled. From the backup on it carries the stamp of the backup. */
  datatype Phase =
    | Pending
    | Checking
    | Comparing
    | HashingDest(srcHash: string)
    | Skipping
    | Statting
    | BackupReading(ts: string)
    | BackupWriting(ts: string, data: bytes)
    | NotingConflict(ts: string)
    | CountingConflict(stamp: Option<string>)
    | Reading(stamp: Option<string>)
    | Writing(stamp: Option<string>, data: bytes)
    | CountingFiles(stamp: Option<string>)
    | CountingBytes(stamp: Option<string>)
    | Finished(outcome: Outcome, stamp: Option<string>)
    | Dropped
    | Failed(stamp: Option<string>, written: bool)

  datatype Stats = Stats(
    transferredFiles: int, transferredBytes: int,
    updatedFiles: int, updatedBytes: int,
    conflictFiles: int, skippedFiles: int, deletedFiles: int,
    conflicts: seq<string>)

  const NO_STATS := Stats(0, 0, 0, 0, 0, 0, 0, [])

  datatype Worker = Idle | Busy(task: nat) | Exited

  datatype Main = Working | Deleting | Returned(ok: bool)

  datatype State = State(
    dst: Store,
    next: nat,             // tasks taken from the channel so far
    workers: seq<Worker>, phase: seq<Phase>,
    stats: Stats,
    failed: bool,          // some worker recorded an error
    cancelled: bool,
    main: Main,
    left: set<string>      // names the delete loop has not come to
  )

  function Init(j: Job): State {
    State(j.dst, 0, seq(j.workers, _ => Idle), seq(|j.tasks|, _ => Pending), NO_STATS, false, false, Working,
          j.destMap.Keys)
  }

  // ---------------------------------------------------------------- one step of one task

  function BackupKey(j: Job, i: nat, ts: string): string
    requires i < |j.tasks|
  {
    BackupPath(j.opts.conflictDir, j.tasks[i].destPath, ts)
  }

  function Transfer(j: Job, stamp: Option<string>): Phase {
    if j.opts.dryRun then CountingFiles(stamp) else Reading(stamp)
  }

  function AfterCompare(j: Job, i: nat, status: DiffStatus): Phase
    requires i < |j.tasks|
  {
    if status == Identical then Skipping
    else if j.tasks[i].rel in j.destMap && (status == Conflict || status == Modified) && !j.opts.noBackup then
      if j.opts.dryRun then CountingConflict(None) else Statting
    else Transfer(j, None)
  }

  datatype Move = Move(phase: Phase, dst: Store, stats: Stats)

  /** What the worker holding task `i` does next when the driver call succeeds. Reading a
      missing object is a failure. */
  function Advance(j: Job, i: nat, p: Phase, dst: Store, stats: Stats, ts: string): Move
    requires i < |j.tasks|
  {
    var t := j.tasks[i];
    var listed := t.rel in j.destMap;
    match p
    case Pending => Move(p, dst, stats)
    case Checking => Move(Comparing, dst, stats)
    case Comparing =>
      if !listed then Move(AfterCompare(j, i, New), dst, stats)
      else if j.opts.checksum then
        match Get(j.src, t.obj.path)
        case Some(d) => Move(HashingDest(j.hash(d)), dst, stats)
        case None => Move(Failed(None, false), dst, stats)
      else Move(AfterCompare(j, i, CompareMeta(t.obj, j.destMap[t.rel], j.wraps)), dst, stats)
    case HashingDest(h) =>
      var there := if listed then Get(dst, j.destMap[t.rel].path) else None;
      (match there
       case Some(d) => Move(AfterCompare(j, i, CompareHash(h, j.hash(d))), dst, stats)
       case None => Move(Failed(None, false), dst, stats))
    case Skipping => Move(Finished(Skipped, None), dst, stats.(skippedFiles := stats.skippedFiles + 1))
    case Statting =>
      if Get(dst, t.destPath).Some? then Move(BackupReading(ts), dst, stats) else Move(Failed(None, false), dst, stats)
    case BackupReading(s) =>
      (match Get(dst, t.destPath)
       case Some(d) => Move(BackupWriting(s, d), dst, stats)
       case None => Move(Failed(None, false), dst, stats))
    case BackupWriting(s, d) => Move(NotingConflict(s), Put(dst, BackupKey(j, i, s), d), stats)
    case NotingConflict(s) =>
      Move(CountingConflict(Some(s)), dst, stats.(conflicts := stats.conflicts + [BackupKey(j, i, s)]))
    case CountingConflict(st) =>
      Move(Transfer(j, st), dst, stats.(conflictFiles := stats.conflictFiles + 1))
    case Reading(st) =>
      (match Get(j.src, t.obj.path)
       case Some(d) => Move(Writing(st, d), dst, stats)
       case None => Move(Failed(st, false), dst, stats))
    case Writing(st, d) => Move(CountingFiles(st), Put(dst, t.destPath, d), stats)
    case CountingFiles(st) =>
      Move(CountingBytes(st), dst,
        if listed then stats.(updatedFiles := stats.updatedFiles + 1)
        else stats.(transferredFiles := stats.transferredFiles + 1))
    case CountingBytes(st) =>
      Move(Finished(if listed then Updated else Transferred, st), dst,
        if listed then stats.(updatedBytes := stats.updatedBytes + t.obj.size)
        else stats.(transferredBytes := stats.transferredBytes + t.obj.size))
    case Finished(_, _) => Move(p, dst, stats)
    case Dropped => Move(p, dst, stats)
    case Failed(_, _) => Move(p, dst, stats)
  }

  predicate InFlight(p: Phase) {
    !p.Pending? && !p.Finished? && !p.Dropped? && !p.Failed?
  }

  /** The phases whose next step calls a driver, and so may return an error. */
  predicate CallsDriver(p: Phase) {
    p.Comparing? || p.HashingDest? || p.Statting? || p.BackupReading? || p.BackupWriting? || p.Reading? || p.Writing?
  }

  /** Where a driver call that returns an error leaves a task and the destination. A write may
      have taken effect all the same; it is whole or not there. */
  function Break(j: Job, i: nat, p: Phase, dst: Store, landed: bool): (Phase, Store)
    requires i < |j.tasks|
  {
    if landed && p.BackupWriting? then (Failed(Some(p.ts), false), Put(dst, BackupKey(j, i, p.ts), p.data))
    else if landed && p.Writing? then (Failed(p.stamp, true), Put(dst, j.tasks[i].destPath, p.data))
    else (Failed(Stamp(p), false), dst)
  }

  /** The stamp of the backup already made for a task. */
  function Stamp(p: Phase): Option<string> {
    match p
    case NotingConflict(ts) => Some(ts)
    case CountingConflict(st) => st
    case Reading(st) => st
    case Writing(st, _) => st
    case CountingFiles(st) => st
    case CountingBytes(st) => st
    case Finished(_, st) => st
    case Failed(st, _) => st
    case _ => None
  }

  // ---------------------------------------------------------------- one step of a run

  datatype Action =
    | Step(w: nat, ts: string)              // worker w takes a task or moves its task on
    | Fail(w: nat, landed: bool)            // the driver call of worker w returns an error
    | Cancel                                // the context is cancelled
    | Join                                  // all workers are done; the main routine goes on
    | DeleteNext(rel: string, fails: bool, landed: bool)  // one round of the delete loop
    | EndDelete

  function Work(j: Job, s: State, w: nat, ts: string): State
    requires w < |s.workers|
  {
    match s.workers[w]
    case Exited => s
    case Idle =>
      if s.next >= |j.tasks| || s.next >= |s.phase| then s.(workers := s.workers[w := Exited])
      else
        s.(next := s.next + 1, phase := s.phase[s.next := Checking], workers := s.workers[w := Busy(s.next)])
    case Busy(i) =>
      if i >= |j.tasks| || i >= |s.phase| then s
      else if s.phase[i] == Checking && s.cancelled then
        s.(phase := s.phase[i := Dropped], workers := s.workers[w := Exited])
      else
        var m := Advance(j, i, s.phase[i], s.dst, s.stats, ts);
        s.(dst := m.dst, stats := m.stats, phase := s.phase[i := m.phase],
           failed := s.failed || m.phase.Failed?,
           workers := s.workers[w := if m.phase.Failed? then Exited else if m.phase.Finished? then Idle else Busy(i)])
  }

  predicate AllExited(s: State) {
    forall w :: 0 <= w < |s.workers| ==> s.workers[w] == Exited
  }

  function Next(j: Job, s: State, a: Action): State {
    match a
    case Step(w, ts) =>
      if s.main == Working && w < |s.workers| && ts in j.stamps then Work(j, s, w, ts) else s
    case Fail(w, landed) =>
      if s.main == Working && w < |s.workers| && s.workers[w].Busy? && s.workers[w].task < |s.phase|
         && s.workers[w].task < |j.tasks| && CallsDriver(s.phase[s.workers[w].task]) then
        var i := s.workers[w].task;
        var b := Break(j, i, s.phase[i], s.dst, landed);
        s.(failed := true, phase := s.phase[i := b.0], dst := b.1, workers := s.workers[w := Exited])
      else s
    case Cancel => if j.cancellable then s.(cancelled := true) else s
    case Join =>
      if s.main == Working && AllExited(s) then
        s.(main := if s.failed then Returned(false) else if j.opts.delete then Deleting else Returned(true))
      else s
    case DeleteNext(rel, fails, landed) =>
      if s.main == Deleting && rel in s.left && rel in j.destMap then
        if s.cancelled then s.(main := Returned(false))
        else if rel in j.srcNames then s.(left := s.left - {rel})
        else if fails && !j.opts.dryRun then
          if landed then s.(main := Returned(false), left := s.left - {rel}, dst := Remove(s.dst, j.destMap[rel].path))
          else s.(main := Returned(false))
        else
          s.(left := s.left - {rel},
             dst := if j.opts.dryRun then s.dst else Remove(s.dst, j.destMap[rel].path),
             stats := s.stats.(deletedFiles := s.stats.deletedFiles + 1))
      else s
    case EndDelete =>
      if s.main == Deleting && s.left == {} then s.(main := Returned(true)) else s
  }

  /** The state a schedule leads to. */
  function Run(j: Job, schedule: seq<Action>): State
    decreases |schedule|
  {
    if schedule == [] then Init(j)
    else Next(j, Run(j, schedule[..|schedule| - 1]), schedule[|schedule| - 1])
  }

  // ---------------------------------------------------------------- what the tasks call for

  function Listed(j: Job, i: nat): bool
    requires i < |j.tasks|
  {
    j.tasks[i].rel in j.destMap
  }

  function Source(j: Job, i: nat): Option<bytes>
    requires i < |j.tasks|
  {
    Lookup(j.src, j.tasks[i].obj.path)
  }

  /** What the destination held under a task's path when the run began. */
  function Before(j: Job, i: nat): Option<bytes>
    requires i < |j.tasks|
  {
    Lookup(j.dst, j.tasks[i].destPath)
  }

  /** The verdict on a task, from the source and the destination as the run found them. */
  function Decide(j: Job, i: nat): DiffStatus
    requires i < |j.tasks|
  {
    if !Listed(j, i) then New
    else if j.opts.checksum then
      if Source(j, i).Some? && Before(j, i).Some?
      then CompareHash(j.hash(Source(j, i).value), j.hash(Before(j, i).value))
      else Conflict
    else CompareMeta(j.tasks[i].obj, j.destMap[j.tasks[i].rel], j.wraps)
  }

  function OutcomeOf(j: Job, i: nat): Outcome
    requires i < |j.tasks|
  {
    if Decide(j, i) == Identical then Skipped else if Listed(j, i) then Updated else Transferred
  }

  predicate CountsConflict(j: Job, i: nat)
    requires i < |j.tasks|
  {
    Listed(j, i) && Decide(j, i) != Identical && !j.opts.noBackup
  }

  predicate NeedsBackup(j: Job, i: nat)
    requires i < |j.tasks|
  {
    CountsConflict(j, i) && !j.opts.dryRun
  }

  // ---------------------------------------------------------------- sound jobs

  /** What planning guarantees about a job. */
  ghost predicate JobOk(j: Job) {
    && j.workers >= 1
    && j.stamps != {}
    && (forall i :: 0 <= i < |j.tasks| ==> TaskOk(j, i))
    && (forall i, k :: 0 <= i < k < |j.tasks| ==> j.tasks[i].destPath != j.tasks[k].destPath)
    && (forall i, k, ts :: 0 <= i < |j.tasks| && 0 <= k < |j.tasks| && ts in j.stamps ==>
          BackupKey(j, i, ts) != j.tasks[k].destPath)
    && (forall i, k, ts, us :: 0 <= i < k < |j.tasks| && ts in j.stamps && us in j.stamps ==>
          BackupKey(j, i, ts) != BackupKey(j, k, us))
    && (forall i, ts :: 0 <= i < |j.tasks| && ts in j.stamps ==>
          NormalizeKey(BackupKey(j, i, ts)) == BackupKey(j, i, ts) != "")
    && (forall rel :: rel in j.destMap ==> OrphanOk(j, rel))
    && (forall r, q :: r in j.destMap && q in j.destMap && j.destMap[r].path == j.destMap[q].path ==> r == q)
  }

  predicate TaskOk(j: Job, i: nat)
    requires i < |j.tasks|
  {
    var t := j.tasks[i];
    && NormalizeKey(t.destPath) == t.destPath != ""
    && NormalizeKey(t.obj.path) == t.obj.path
    && t.obj.path in j.src && t.obj.size == |j.src[t.obj.path]|
    && t.rel in j.srcNames
    && (t.rel in j.destMap ==> j.destMap[t.rel].path == t.destPath && t.destPath in j.dst)
  }

  predicate OrphanOk(j: Job, rel: string)
    requires rel in j.destMap
  {
    var key := j.destMap[rel].path;
    && key in j.dst && NormalizeKey(key) == key
    && (forall i, ts :: 0 <= i < |j.tasks| && ts in j.stamps ==> BackupKey(j, i, ts) != key)
    && (rel !in j.srcNames ==> forall i :: 0 <= i < |j.tasks| ==> j.tasks[i].destPath != key)
  }
}

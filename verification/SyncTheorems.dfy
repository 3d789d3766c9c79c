/** What every schedule of a sound job comes to. */
module SyncTheorems {
  import opened Prelude
  import opened MockStore
  import opened Comparator
  import opened SyncEngine
  import opened SyncInvariant
  import opened SyncSequential

  // ---------------------------------------------------------------- completed runs

  /** A run that returned no error and lost no task to a cancelled context. */
  predicate Complete(s: State) {
    s.main == Returned(true) && !HasDropped(s)
  }

  /** The stamps a completed run used, task by task. */
  function UsedStamps(j: Job, s: State, spare: string): seq<string>
    requires |s.phase| == |j.tasks|
  {
    seq(|j.tasks|, i requires 0 <= i < |j.tasks| => if Stamp(s.phase[i]).Some? then Stamp(s.phase[i]).value else spare)
  }

  lemma NoneInFlight(s: State, i: nat)
    requires HandsOk(s) && AllExited(s) && i < |s.phase|
    ensures !InFlight(s.phase[i])
  {
  }

  lemma AllTaken(j: Job, s: State)
    requires j.workers >= 1 && ControlOk(j, s) && Complete(s)
    ensures forall i :: 0 <= i < |s.phase| ==> s.phase[i].Finished?
  {
    assert s.workers[0] == Exited;
    forall i | 0 <= i < |s.phase| ensures s.phase[i].Finished? {
      NoneInFlight(s, i);
    }
  }

  lemma FinishedIsDone(j: Job, i: nat, p: Phase, spare: string)
    requires i < |j.tasks| && PhaseOk(j, i, p) && p.Finished? && spare in j.stamps
    ensures var ts := if Stamp(p).Some? then Stamp(p).value else spare;
            ts in j.stamps && p == DonePhase(j, i, ts)
  {
  }

  /** In a completed run every task is finished, each with the outcome it called for. */
  lemma AllFinished(j: Job, s: State, spare: string)
    requires JobOk(j) && Inv(j, s) && Complete(s) && spare in j.stamps
    ensures var stamps := UsedStamps(j, s, spare);
            && (forall i :: 0 <= i < |stamps| ==> stamps[i] in j.stamps)
            && s.phase == DoneFirst(j, |j.tasks|, stamps)
  {
    var stamps := UsedStamps(j, s, spare);
    AllTaken(j, s);
    forall i | 0 <= i < |s.phase|
      ensures stamps[i] in j.stamps && s.phase[i] == DonePhase(j, i, stamps[i])
    {
      FinishedIsDone(j, i, s.phase[i], spare);
    }
  }

  // ---------------------------------------------------------------- schedule independence

  predicate SameStats(a: Stats, b: Stats) {
    && TallyOf(a) == TallyOf(b)
    && a.deletedFiles == b.deletedFiles
    && multiset(a.conflicts) == multiset(b.conflicts)
  }

  /** For any number of workers and any interleaving, a completed run leaves exactly the
      destination and the counters that processing the tasks one after another leaves, given
      the same backup timestamps; only the order of the conflict list may differ. */
  lemma ScheduleIndependence(j: Job, schedule: seq<Action>)
    requires JobOk(j) && Complete(Run(j, schedule))
    ensures exists stamps: seq<string> ::
              && |stamps| == |j.tasks| && (forall i :: 0 <= i < |stamps| ==> stamps[i] in j.stamps)
              && Run(j, schedule).dst == Sequential(j, stamps).dst
              && SameStats(Run(j, schedule).stats, Sequential(j, stamps).stats)
  {
    var s := Run(j, schedule);
    RunInv(j, schedule);
    var spare :| spare in j.stamps;
    AllFinished(j, s, spare);
    var stamps := UsedStamps(j, s, spare);
    CompleteIsSequential(j, s, stamps);
  }

  lemma CompleteIsSequential(j: Job, s: State, stamps: seq<string>)
    requires JobOk(j) && Inv(j, s) && Complete(s)
    requires |stamps| == |j.tasks| && forall i :: 0 <= i < |stamps| ==> stamps[i] in j.stamps
    requires s.phase == DoneFirst(j, |j.tasks|, stamps)
    ensures s.dst == Sequential(j, stamps).dst
    ensures SameStats(s.stats, Sequential(j, stamps).stats)
  {
    ProcessFirstOk(j, |j.tasks|, stamps);
    SequentialDst(j, stamps, s.left);
    CompleteDst(j, s, ProcessFirst(j, |j.tasks|, stamps).dst);
  }

  lemma SequentialDst(j: Job, stamps: seq<string>, left: set<string>)
    requires |stamps| == |j.tasks|
    requires if j.opts.delete then left == {} else left == j.destMap.Keys
    ensures OrphanNames(j) == Orphans(j, left)
    ensures Sequential(j, stamps).dst == ProcessFirst(j, |j.tasks|, stamps).dst - Gone(j, left)
  {
    assert OrphanNames(j) == Orphans(j, left);
    var dst := ProcessFirst(j, |j.tasks|, stamps).dst;
    assert dst - {} == dst;
  }

  lemma CompleteDst(j: Job, s: State, dst: Store)
    requires JobOk(j) && PhasesOk(j, s.phase) && DstOk(j, dst, s.phase, {})
    requires DstOk(j, s.dst, s.phase, Gone(j, s.left))
    requires if j.opts.delete then s.left == {} else s.left == j.destMap.Keys
    ensures s.dst == dst - Gone(j, s.left)
  {
    var gone := Gone(j, s.left);
    if j.opts.delete && !j.opts.dryRun {
      DeleteAll(j, dst, s.phase);
    } else {
      assert gone == {};
      assert dst - {} == dst;
    }
    DstUnique(j, s.dst, dst - gone, s.phase, gone);
  }

  // ---------------------------------------------------------------- no error, then complete

  /** Without cancellation, a run that returns no error is complete. */
  lemma UncancelledIsComplete(j: Job, schedule: seq<Action>)
    requires JobOk(j) && Run(j, schedule).main == Returned(true)
    requires !Run(j, schedule).cancelled || (j.opts.delete && j.destMap != map[])
    ensures Complete(Run(j, schedule))
  {
    RunInv(j, schedule);
    var s := Run(j, schedule);
    assert j.destMap.Keys == {} ==> j.destMap == map[];
  }

  /** Every source object has its bytes at the destination. */
  predicate Mirrored(j: Job, dst: Store) {
    forall i :: 0 <= i < |j.tasks| ==> Lookup(dst, j.tasks[i].destPath) == Source(j, i)
  }

  lemma IdenticalMeansEqual(j: Job, i: nat)
    requires JobOk(j) && i < |j.tasks| && j.opts.checksum && Injective(j.hash)
    requires Decide(j, i) == Identical
    ensures Before(j, i) == Source(j, i)
  {
    assert TaskOk(j, i);
  }

  /** After a completed run each task's path holds the source bytes, or what it held before if
      the comparison found nothing to do. */
  lemma CompleteTask(j: Job, s: State, i: nat)
    requires JobOk(j) && Inv(j, s) && Complete(s) && !j.opts.dryRun && i < |j.tasks|
    ensures Lookup(s.dst, j.tasks[i].destPath) == if Decide(j, i) == Identical then Before(j, i) else Source(j, i)
  {
    var spare :| spare in j.stamps;
    AllFinished(j, s, spare);
    assert s.phase[i] == DonePhase(j, i, UsedStamps(j, s, spare)[i]);
  }

  lemma CompleteIsMirrored(j: Job, s: State)
    requires JobOk(j) && Inv(j, s) && Complete(s)
    requires j.opts.checksum && Injective(j.hash) && !j.opts.dryRun
    ensures Mirrored(j, s.dst)
  {
    forall i | 0 <= i < |j.tasks| ensures Lookup(s.dst, j.tasks[i].destPath) == Source(j, i) {
      CompleteTask(j, s, i);
      if Decide(j, i) == Identical { IdenticalMeansEqual(j, i); }
    }
  }

  // ---------------------------------------------------------------- nothing is lost

  /** Task `i` has made a backup of `key`, and it holds what `key` held at the start. */
  predicate SavedAt(j: Job, s: State, i: int, key: string) {
    && 0 <= i < |j.tasks| && i < |s.phase| && j.tasks[i].destPath == key && Stamp(s.phase[i]).Some?
    && Lookup(s.dst, BackupKey(j, i, Stamp(s.phase[i]).value)) == Lookup(j.dst, key)
  }

  /** The object `key` held at the start is still there, or its bytes are in a backup this
      run made of it. */
  predicate Kept(j: Job, s: State, key: string) {
    || Lookup(s.dst, key) == Lookup(j.dst, key)
    || exists i | 0 <= i < |j.tasks| :: SavedAt(j, s, i, key)
  }

  /** A task that cannot overwrite differing bytes without saving them first. */
  predicate Protected(j: Job, i: nat)
    requires i < |j.tasks|
  {
    || j.opts.dryRun
    || Before(j, i) == Source(j, i)
    || (Listed(j, i) && (!j.opts.noBackup || Decide(j, i) == Identical))
  }

  predicate AllProtected(j: Job) {
    forall i :: 0 <= i < |j.tasks| && Before(j, i).Some? ==> Protected(j, i)
  }

  /** At time `ts` the backup of task `i` would replace an object with other bytes, such as a
      backup made in the same second by an earlier run. */
  predicate Clashes(j: Job, i: nat, ts: string)
    requires i < |j.tasks|
  {
    NeedsBackup(j, i) && BackupKey(j, i, ts) in j.dst && Lookup(j.dst, BackupKey(j, i, ts)) != Before(j, i)
  }

  predicate NoClash(j: Job) {
    forall i, ts :: 0 <= i < |j.tasks| && ts in j.stamps ==> !Clashes(j, i, ts)
  }

  /** Until the delete phase begins, in every state of every schedule, with workers failing
      or stopping wherever they may, no object of a protected job is lost. */
  lemma NothingLost(j: Job, schedule: seq<Action>, key: string)
    requires JobOk(j) && AllProtected(j) && NoClash(j) && key in j.dst
    requires Run(j, schedule).main == Working || !j.opts.delete
    ensures Kept(j, Run(j, schedule), key)
  {
    RunInv(j, schedule);
    var s := Run(j, schedule);
    LeftAlone(j, schedule);
    assert Orphans(j, s.left) == {};
    if key in TaskKeys(j) {
      var i :| 0 <= i < |j.tasks| && j.tasks[i].destPath == key;
      TaskKept(j, s, i);
    } else {
      IrreplaceableStays(j, s.dst, s.phase, {}, key);
    }
  }

  lemma TaskKept(j: Job, s: State, i: nat)
    requires PhasesOk(j, s.phase) && DstOk(j, s.dst, s.phase, {})
    requires i < |s.phase| && Protected(j, i) && Before(j, i).Some?
    ensures Kept(j, s, j.tasks[i].destPath)
  {
    assert PhaseOk(j, i, s.phase[i]);
    if Written(j, s.phase[i]) && Before(j, i) != Source(j, i) {
      assert SavedAt(j, s, i, j.tasks[i].destPath);
    }
  }

  /** A new backup can fall on `key` and bring other bytes. */
  predicate Replaceable(j: Job, key: string) {
    exists i, ts :: 0 <= i < |j.tasks| && ts in j.stamps && BackupKey(j, i, ts) == key && Clashes(j, i, ts)
  }

  /** What is no task's path, was not deleted and can have no other backup fall on it is as
      it was. */
  lemma IrreplaceableStays(j: Job, dst: Store, phase: seq<Phase>, gone: set<string>, key: string)
    requires PhasesOk(j, phase) && DstOk(j, dst, phase, gone)
    requires key in j.dst && key !in TaskKeys(j) && key !in gone && !Replaceable(j, key)
    ensures Lookup(dst, key) == Lookup(j.dst, key)
  {
    if key in BackupKeys(j, phase) {
      var i :| 0 <= i < |phase| && Stamp(phase[i]).Some? && BackupKey(j, i, Stamp(phase[i]).value) == key;
      assert PhaseOk(j, i, phase[i]);
      assert !Clashes(j, i, Stamp(phase[i]).value);
    }
  }

  /** Without `--delete` the delete loop never runs. */
  lemma {:induction false} LeftAlone(j: Job, schedule: seq<Action>)
    requires Run(j, schedule).main == Working || !j.opts.delete
    ensures Run(j, schedule).left == j.destMap.Keys && Run(j, schedule).main != Deleting
    decreases |schedule|
  {
    if schedule != [] {
      var front := schedule[..|schedule| - 1];
      LeftAlone(j, front);
    }
  }

  // ---------------------------------------------------------------- failures stop workers

  function LostTasks(s: State): set<int> {
    set i | 0 <= i < |s.phase| && (s.phase[i].Failed? || s.phase[i].Dropped?)
  }

  function StoppedWorkers(s: State): set<int> {
    set w | 0 <= w < |s.workers| && s.workers[w] == Exited
  }

  /** A step either loses no task, or loses one and stops the worker that had it. */
  lemma StepLoses(j: Job, s: State, a: Action)
    ensures var s' := Next(j, s, a);
      && |s'.workers| == |s.workers| && StoppedWorkers(s) <= StoppedWorkers(s')
      && (LostTasks(s') <= LostTasks(s)
          || exists i, w :: LostTasks(s') <= LostTasks(s) + {i} && w !in StoppedWorkers(s) && w in StoppedWorkers(s'))
  {
    var s' := Next(j, s, a);
    if a.Step? && s.main == Working && a.w < |s.workers| && a.ts in j.stamps && s.workers[a.w].Busy? {
      WorkLoses(j, s, a.w, a.ts);
    } else if a.Fail? && s' != s {
      assert a.w in StoppedWorkers(s') && a.w !in StoppedWorkers(s);
      assert LostTasks(s') <= LostTasks(s) + {s.workers[a.w].task as int};
    } else {
      forall i ensures i in LostTasks(s') ==> i in LostTasks(s) {}
    }
  }

  lemma WorkLoses(j: Job, s: State, w: nat, ts: string)
    requires w < |s.workers| && s.workers[w].Busy?
    ensures var s' := Work(j, s, w, ts);
      && |s'.workers| == |s.workers| && StoppedWorkers(s) <= StoppedWorkers(s')
      && (LostTasks(s') <= LostTasks(s)
          || (LostTasks(s') <= LostTasks(s) + {s.workers[w].task as int}
              && w !in StoppedWorkers(s) && w in StoppedWorkers(s')))
  {
  }

  /** A worker that fails, or finds the context cancelled, takes no further task: no more tasks
      are lost than workers have stopped. */
  lemma {:induction false} FailuresBounded(j: Job, schedule: seq<Action>)
    ensures |LostTasks(Run(j, schedule))| <= |StoppedWorkers(Run(j, schedule))| <= j.workers
    decreases |schedule|
  {
    if schedule == [] {
      assert LostTasks(Init(j)) == {} && StoppedWorkers(Init(j)) == {};
    } else {
      var front, a := schedule[..|schedule| - 1], schedule[|schedule| - 1];
      FailuresBounded(j, front);
      StepLoses(j, Run(j, front), a);
      GrowsAlike(Run(j, front), Run(j, schedule));
    }
    RunWorkers(j, schedule);
    Within(StoppedWorkers(Run(j, schedule)), j.workers);
  }

  lemma GrowsAlike(s: State, s': State)
    requires |LostTasks(s)| <= |StoppedWorkers(s)| && StoppedWorkers(s) <= StoppedWorkers(s')
    requires || LostTasks(s') <= LostTasks(s)
             || exists i, w :: LostTasks(s') <= LostTasks(s) + {i} && w !in StoppedWorkers(s) && w in StoppedWorkers(s')
    ensures |LostTasks(s')| <= |StoppedWorkers(s')|
  {
    if LostTasks(s') <= LostTasks(s) {
      NoLarger(LostTasks(s'), LostTasks(s));
      NoLarger(StoppedWorkers(s), StoppedWorkers(s'));
    } else {
      var i, w :| LostTasks(s') <= LostTasks(s) + {i} && w !in StoppedWorkers(s) && w in StoppedWorkers(s');
      NoLarger(LostTasks(s'), LostTasks(s) + {i});
      NoLarger(StoppedWorkers(s) + {w}, StoppedWorkers(s'));
    }
  }

  lemma NoLarger(a: set<int>, b: set<int>)
    requires a <= b
    ensures |a| <= |b|
  {
    assert b == a + (b - a) && a * (b - a) == {};
  }

  lemma {:induction false} RunWorkers(j: Job, schedule: seq<Action>)
    ensures |Run(j, schedule).workers| == j.workers
    decreases |schedule|
  {
    if schedule != [] {
      RunWorkers(j, schedule[..|schedule| - 1]);
      StepLoses(j, Run(j, schedule[..|schedule| - 1]), schedule[|schedule| - 1]);
    }
  }

  lemma {:induction false} Within(s: set<int>, n: nat)
    requires forall w :: w in s ==> 0 <= w < n
    ensures |s| <= n
  {
    if n > 0 {
      Within(s - {n - 1}, n - 1);
      if n - 1 in s { assert s == s - {n - 1} + {n - 1}; } else { assert s == s - {n - 1}; }
    } else {
      forall w ensures w !in s {}
      assert s == {};
    }
  }

  // ---------------------------------------------------------------- dry runs

  /** A dry run never touches the destination. */
  lemma DryRunTouchesNothing(j: Job, schedule: seq<Action>)
    requires JobOk(j) && j.opts.dryRun
    ensures Run(j, schedule).dst == j.dst
  {
    RunInv(j, schedule);
    DryDst(j, Run(j, schedule).dst, Run(j, schedule).phase);
  }

  lemma DryDst(j: Job, dst: Store, phase: seq<Phase>)
    requires PhasesOk(j, phase) && DstOk(j, dst, phase, {}) && j.opts.dryRun
    ensures dst == j.dst
  {
    forall n | 0 <= n < |phase| ensures Stamp(phase[n]) == None {
      assert PhaseOk(j, n, phase[n]);
    }
    assert BackupKeys(j, phase) == {};
    forall k ensures Lookup(dst, k) == Lookup(j.dst, k) {
      if k in TaskKeys(j) {
        var i :| 0 <= i < |j.tasks| && j.tasks[i].destPath == k;
      }
    }
    SameLookups(dst, j.dst);
  }

  function Dry(j: Job): Job {
    j.(opts := j.opts.(dryRun := true))
  }

  lemma DryJobOk(j: Job)
    requires JobOk(j)
    ensures JobOk(Dry(j))
  {
    var d := Dry(j);
    forall i | 0 <= i < |d.tasks| ensures TaskOk(d, i) { assert TaskOk(j, i); }
    forall i, ts | 0 <= i < |d.tasks| ensures BackupKey(d, i, ts) == BackupKey(j, i, ts) {}
    forall rel | rel in d.destMap ensures OrphanOk(d, rel) { assert OrphanOk(j, rel); }
  }

  /** The counters a completed run ends with, read off the tasks. */
  function FinalShare(j: Job, i: nat): Tally
    requires i < |j.tasks|
  {
    var o, size := OutcomeOf(j, i), j.tasks[i].obj.size;
    Tally(One(o == Transferred), if o == Transferred then size else 0,
          One(o == Updated), if o == Updated then size else 0,
          One(o == Updated && !j.opts.noBackup), One(o == Skipped))
  }

  function FinalShares(j: Job): seq<Tally> {
    seq(|j.tasks|, i requires 0 <= i < |j.tasks| => FinalShare(j, i))
  }

  lemma DoneShare(j: Job, i: nat, ts: string)
    requires i < |j.tasks|
    ensures Share(j, i, DonePhase(j, i, ts)) == FinalShare(j, i)
  {
  }

  lemma DoneShares(j: Job, stamps: seq<string>)
    requires |stamps| == |j.tasks|
    ensures Shares(j, DoneFirst(j, |j.tasks|, stamps)) == FinalShares(j)
  {
    var phase := DoneFirst(j, |j.tasks|, stamps);
    forall i | 0 <= i < |j.tasks| ensures Shares(j, phase)[i] == FinalShare(j, i) {
      DoneShare(j, i, stamps[i]);
    }
  }

  lemma FinalCounts(j: Job, s: State)
    requires JobOk(j) && Inv(j, s) && Complete(s)
    ensures TallyOf(s.stats) == Sum(FinalShares(j))
    ensures s.stats.deletedFiles == |OrphanNames(j)|
  {
    var spare :| spare in j.stamps;
    AllFinished(j, s, spare);
    DoneShares(j, UsedStamps(j, s, spare));
    assert OrphanNames(j) == Orphans(j, s.left);
  }

  /** A dry run reports what the real run, under any schedule and with any number of workers,
      then does. */
  lemma DryRunPredicts(j: Job, rehearsal: seq<Action>, schedule: seq<Action>)
    requires JobOk(j)
    requires Complete(Run(Dry(j), rehearsal)) && Complete(Run(j, schedule))
    ensures var told, done := Run(Dry(j), rehearsal).stats, Run(j, schedule).stats;
            TallyOf(told) == TallyOf(done) && told.deletedFiles == done.deletedFiles
  {
    DryJobOk(j);
    RunInv(Dry(j), rehearsal);
    RunInv(j, schedule);
    FinalCounts(Dry(j), Run(Dry(j), rehearsal));
    FinalCounts(j, Run(j, schedule));
    SameShares(j);
  }

  lemma SameShares(j: Job)
    ensures FinalShares(Dry(j)) == FinalShares(j)
  {
    forall i | 0 <= i < |j.tasks| ensures FinalShare(j, i) == FinalShare(Dry(j), i) {
      assert Decide(Dry(j), i) == Decide(j, i);
    }
  }

  // ---------------------------------------------------------------- conservation

  /** The first `n` tasks that are not skipped, those listed at the destination or the others. */
  function Moved(j: Job, n: nat, listed: bool): set<int>
    requires n <= |j.tasks|
  {
    set i | 0 <= i < n && Decide(j, i) != Identical && (j.tasks[i].rel in j.destMap) == listed
  }

  function Unchanged(j: Job, n: nat): set<int>
    requires n <= |j.tasks|
  {
    set i | 0 <= i < n && Decide(j, i) == Identical
  }

  /** The sizes of those tasks, added up. */
  function MovedBytes(j: Job, n: nat, listed: bool): int
    requires n <= |j.tasks|
  {
    if n == 0 then 0
    else MovedBytes(j, n - 1, listed) + if n - 1 in Moved(j, n, listed) then j.tasks[n - 1].obj.size else 0
  }

  lemma OneTask(j: Job, i: nat)
    requires i < |j.tasks|
    ensures Moved(j, i + 1, true) == Moved(j, i, true) + if OutcomeOf(j, i) == Updated then {i} else {}
    ensures Moved(j, i + 1, false) == Moved(j, i, false) + if OutcomeOf(j, i) == Transferred then {i} else {}
    ensures Unchanged(j, i + 1) == Unchanged(j, i) + if OutcomeOf(j, i) == Skipped then {i} else {}
  {
  }

  lemma OneTaskSizes(j: Job, i: nat)
    requires i < |j.tasks|
    ensures |Moved(j, i + 1, true)| == |Moved(j, i, true)| + One(OutcomeOf(j, i) == Updated)
    ensures |Moved(j, i + 1, false)| == |Moved(j, i, false)| + One(OutcomeOf(j, i) == Transferred)
    ensures |Unchanged(j, i + 1)| == |Unchanged(j, i)| + One(OutcomeOf(j, i) == Skipped)
  {
    OneTask(j, i);
  }

  function CountsOf(j: Job, n: nat): Tally
    requires n <= |j.tasks|
  {
    Tally(|Moved(j, n, false)|, MovedBytes(j, n, false), |Moved(j, n, true)|, MovedBytes(j, n, true),
          if j.opts.noBackup then 0 else |Moved(j, n, true)|, |Unchanged(j, n)|)
  }

  lemma CountsNext(j: Job, i: nat)
    requires i < |j.tasks|
    ensures CountsOf(j, i + 1) == Add(CountsOf(j, i), FinalShare(j, i))
  {
    OneTaskSizes(j, i);
    assert i in Moved(j, i + 1, true) <==> OutcomeOf(j, i) == Updated;
    assert i in Moved(j, i + 1, false) <==> OutcomeOf(j, i) == Transferred;
  }

  lemma {:induction false} SumConserves(j: Job, n: nat)
    requires n <= |j.tasks|
    ensures Sum(FinalShares(j)[..n]) == CountsOf(j, n)
  {
    if n > 0 {
      SumConserves(j, n - 1);
      CountsNext(j, n - 1);
      assert FinalShares(j)[..n][..n - 1] == FinalShares(j)[..n - 1];
    } else {
      assert Moved(j, 0, true) == {} && Moved(j, 0, false) == {} && Unchanged(j, 0) == {};
    }
  }

  /** On completion, whatever the schedule: the tasks skipped are those found unchanged, those
      updated are the others listed at the destination, and those transferred the others not
      listed there; the bytes are their sizes; every update had its conflict counted when
      backups are on, none otherwise; and the deletions are the orphaned names. */
  lemma StatsConservation(j: Job, schedule: seq<Action>)
    requires JobOk(j) && Complete(Run(j, schedule))
    ensures var st, n := Run(j, schedule).stats, |j.tasks|;
            && st.skippedFiles == |Unchanged(j, n)|
            && st.updatedFiles == |Moved(j, n, true)| && st.updatedBytes == MovedBytes(j, n, true)
            && st.transferredFiles == |Moved(j, n, false)| && st.transferredBytes == MovedBytes(j, n, false)
            && st.conflictFiles == (if j.opts.noBackup then 0 else st.updatedFiles)
            && st.deletedFiles == if j.opts.delete then |j.destMap.Keys - j.srcNames| else 0
  {
    RunInv(j, schedule);
    FinalCounts(j, Run(j, schedule));
    SumConserves(j, |j.tasks|);
    assert FinalShares(j)[..|j.tasks|] == FinalShares(j);
  }

  lemma {:induction false} UnionHolds(s: seq<multiset<string>>, i: nat, k: string)
    requires i < |s| && k in s[i]
    ensures k in Union(s)
    decreases |s|
  {
    if i < |s| - 1 { UnionHolds(s[..|s| - 1], i, k); }
  }

  lemma NotedSize(j: Job, i: nat, p: Phase)
    requires i < |j.tasks| && p.Finished? && (p.stamp.Some? <==> NeedsBackup(j, i))
    ensures |Noted(j, i, p)|
            == if j.opts.dryRun || j.opts.noBackup || OutcomeOf(j, i) != Updated then 0 else 1
  {
  }

  /** Every task finished, with a backup exactly where one is called for. */
  predicate AllStamped(j: Job, phase: seq<Phase>) {
    && |phase| == |j.tasks|
    && forall i :: 0 <= i < |phase| ==> phase[i].Finished? && (phase[i].stamp.Some? <==> NeedsBackup(j, i))
  }

  lemma {:induction false} UnionSize(j: Job, phase: seq<Phase>, n: nat)
    requires AllStamped(j, phase) && n <= |phase|
    ensures |Union(AllNoted(j, phase)[..n])| == if j.opts.dryRun || j.opts.noBackup then 0 else |Moved(j, n, true)|
  {
    var s := AllNoted(j, phase);
    if n > 0 {
      UnionSize(j, phase, n - 1);
      OneTaskSizes(j, n - 1);
      NotedSize(j, n - 1, phase[n - 1]);
      assert s[..n][..n - 1] == s[..n - 1] && s[..n][n - 1] == Noted(j, n - 1, phase[n - 1]);
    } else {
      assert Moved(j, 0, true) == {};
    }
  }

  lemma CompleteIsStamped(j: Job, s: State)
    requires JobOk(j) && Inv(j, s) && Complete(s)
    ensures AllStamped(j, s.phase) && forall i :: 0 <= i < |s.phase| ==> PhaseOk(j, i, s.phase[i])
  {
    AllTaken(j, s);
    forall i | 0 <= i < |s.phase| ensures s.phase[i].stamp.Some? <==> NeedsBackup(j, i) {
      assert PhaseOk(j, i, s.phase[i]);
    }
  }

  lemma ConflictsSize(j: Job, s: State)
    requires AllStamped(j, s.phase) && StatsOk(j, s.stats, s.phase)
    ensures |s.stats.conflicts| == if j.opts.dryRun || j.opts.noBackup then 0 else |Moved(j, |j.tasks|, true)|
  {
    UnionSize(j, s.phase, |s.phase|);
    assert AllNoted(j, s.phase)[..|s.phase|] == AllNoted(j, s.phase);
    assert |multiset(s.stats.conflicts)| == |s.stats.conflicts|;
  }

  lemma ConflictFound(j: Job, s: State, i: nat)
    requires AllStamped(j, s.phase) && StatsOk(j, s.stats, s.phase) && BackupKeysOk(j, s.dst, s.phase)
    requires i < |s.phase| && PhaseOk(j, i, s.phase[i]) && NeedsBackup(j, i)
    ensures var ts := s.phase[i].stamp.value;
            && ts in j.stamps && BackupKey(j, i, ts) in s.stats.conflicts
            && Lookup(s.dst, BackupKey(j, i, ts)) == Before(j, i)
  {
    UnionHolds(AllNoted(j, s.phase), i, BackupKey(j, i, s.phase[i].stamp.value));
    assert BackupKey(j, i, s.phase[i].stamp.value) in multiset(s.stats.conflicts);
  }

  /** On completion the conflict list has one entry for each update that was backed up and no
      other, and among them, for each such update, the backup made of it, which holds what the
      destination had there. */
  lemma ConflictsAreBackups(j: Job, schedule: seq<Action>, i: nat)
    requires JobOk(j) && Complete(Run(j, schedule)) && i < |j.tasks|
    ensures var s := Run(j, schedule);
      && |s.stats.conflicts| == (if j.opts.dryRun || j.opts.noBackup then 0 else s.stats.updatedFiles)
      && (j.tasks[i].rel in j.destMap && Decide(j, i) != Identical && !j.opts.noBackup && !j.opts.dryRun ==>
            exists ts :: ts in j.stamps && BackupKey(j, i, ts) in s.stats.conflicts
                         && Lookup(s.dst, BackupKey(j, i, ts)) == Lookup(j.dst, j.tasks[i].destPath))
  {
    var s := Run(j, schedule);
    RunInv(j, schedule);
    CompleteIsStamped(j, s);
    StatsConservation(j, schedule);
    ConflictsSize(j, s);
    if NeedsBackup(j, i) { ConflictFound(j, s, i); }
  }
}

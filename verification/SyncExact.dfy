/** Runs that exist, and with them the exact conditions under which a job keeps its promises. */
module SyncExact {
  import opened Prelude
  import opened MockStore
  import opened Comparator
  import opened SyncEngine
  import opened SyncInvariant
  import opened SyncTheorems

  lemma RunSnoc(j: Job, schedule: seq<Action>, a: Action)
    ensures Run(j, schedule + [a]) == Next(j, Run(j, schedule), a)
  {
    assert (schedule + [a])[..|schedule|] == schedule;
  }

  // ---------------------------------------------------------------- one time only

  /** The clock shows `ts` throughout. */
  predicate OneTime(schedule: seq<Action>, ts: string) {
    forall a :: a in schedule && a.Step? ==> a.ts == ts
  }

  /** Whatever backup the phase tells of is of time `ts`. */
  predicate Shows(p: Phase, ts: string) {
    && (p.BackupReading? ==> p.ts == ts) && (p.BackupWriting? ==> p.ts == ts)
    && (Stamp(p).Some? ==> Stamp(p).value == ts)
  }

  predicate AllShow(s: State, ts: string) {
    forall i :: 0 <= i < |s.phase| ==> Shows(s.phase[i], ts)
  }

  lemma AdvanceShows(j: Job, i: nat, p: Phase, dst: Store, stats: Stats, ts: string)
    requires i < |j.tasks| && Shows(p, ts)
    ensures Shows(Advance(j, i, p, dst, stats, ts).phase, ts)
  {
  }

  lemma BreakShows(j: Job, i: nat, p: Phase, dst: Store, ts: string, landed: bool)
    requires i < |j.tasks| && Shows(p, ts)
    ensures Shows(Break(j, i, p, dst, landed).0, ts)
  {
  }

  lemma WorkShows(j: Job, s: State, w: nat, ts: string)
    requires AllShow(s, ts) && w < |s.workers|
    ensures AllShow(Work(j, s, w, ts), ts)
  {
    if s.workers[w].Busy? {
      var i := s.workers[w].task;
      if i < |j.tasks| && i < |s.phase| { AdvanceShows(j, i, s.phase[i], s.dst, s.stats, ts); }
    }
  }

  lemma NextShows(j: Job, s: State, a: Action, ts: string)
    requires AllShow(s, ts) && (a.Step? ==> a.ts == ts)
    ensures AllShow(Next(j, s, a), ts)
  {
    match a
    case Step(w, _) =>
      if w < |s.workers| { WorkShows(j, s, w, ts); }
    case Fail(w, landed) =>
      if w < |s.workers| && s.workers[w].Busy? {
        var i := s.workers[w].task;
        if i < |j.tasks| && i < |s.phase| { BreakShows(j, i, s.phase[i], s.dst, ts, landed); }
      }
    case _ =>
  }

  lemma {:induction false} RunShows(j: Job, schedule: seq<Action>, ts: string)
    requires OneTime(schedule, ts)
    ensures AllShow(Run(j, schedule), ts)
    decreases |schedule|
  {
    if schedule != [] {
      var front := schedule[..|schedule| - 1];
      assert forall a :: a in front ==> a in schedule;
      RunShows(j, front, ts);
      NextShows(j, Run(j, front), schedule[|schedule| - 1], ts);
    }
  }

  // ---------------------------------------------------------------- one worker does it all

  /** The first `n` tasks are done and nobody is at work. */
  predicate Calm(j: Job, s: State, n: nat) {
    && s.main == Working && !s.failed && !s.cancelled && s.next == n
    && s.workers == seq(j.workers, _ => Idle)
  }

  /** Worker 0 holds task `i`; the others wait. */
  predicate Driving(j: Job, s: State, i: nat) {
    && s.main == Working && !s.failed && !s.cancelled && s.next == i + 1
    && j.workers >= 1
    && s.workers == seq(j.workers, _ => Idle)[0 := Busy(i)]
  }

  function RankAt(s: State, i: nat): nat {
    if i < |s.phase| then Rank(s.phase[i]) else 0
  }

  /** A step that succeeds brings the task closer to being finished. */
  lemma DriveOne(j: Job, s: State, i: nat, ts: string)
    requires JobOk(j) && Inv(j, s) && ts in j.stamps && i < |j.tasks| && Driving(j, s, i)
    ensures var s' := Next(j, s, Step(0, ts));
            Calm(j, s', i + 1) || (Driving(j, s', i) && RankAt(s', i) < RankAt(s, i))
  {
    assert s.workers[0] == Busy(i);
    AdvancePhase(j, s.dst, s.phase, Gone(j, s.left), i, s.stats, ts);
    FirstWorker(j.workers, i);
  }

  lemma FirstWorker(n: nat, i: nat)
    requires n >= 1
    ensures var idle := seq(n, _ => Idle);
            idle[0 := Busy(i)][0 := Idle] == idle && idle[0 := Busy(i)][0 := Busy(i)] == idle[0 := Busy(i)]
  {
  }

  /** A task taken by a worker whose driver calls succeed is finished in a few steps. */
  lemma {:induction false} FinishTask(j: Job, schedule: seq<Action>, i: nat, ts: string) returns (longer: seq<Action>)
    requires JobOk(j) && ts in j.stamps && i < |j.tasks| && OneTime(schedule, ts)
    requires Driving(j, Run(j, schedule), i)
    ensures Calm(j, Run(j, longer), i + 1) && OneTime(longer, ts)
    decreases RankAt(Run(j, schedule), i)
  {
    RunInv(j, schedule);
    longer := schedule + [Step(0, ts)];
    RunSnoc(j, schedule, Step(0, ts));
    DriveOne(j, Run(j, schedule), i, ts);
    if Driving(j, Run(j, longer), i) {
      longer := FinishTask(j, longer, i, ts);
    }
  }

  lemma TakeFirst(j: Job, s: State, i: nat, ts: string)
    requires ShapeOk(j, s) && Calm(j, s, i) && i < |j.tasks| && j.workers >= 1 && ts in j.stamps
    ensures Driving(j, Next(j, s, Step(0, ts)), i)
  {
  }

  lemma DoTask(j: Job, schedule: seq<Action>, i: nat, ts: string) returns (longer: seq<Action>)
    requires JobOk(j) && ts in j.stamps && i < |j.tasks| && OneTime(schedule, ts)
    requires Calm(j, Run(j, schedule), i)
    ensures Calm(j, Run(j, longer), i + 1) && OneTime(longer, ts)
  {
    RunShape(j, schedule);
    RunSnoc(j, schedule, Step(0, ts));
    TakeFirst(j, Run(j, schedule), i, ts);
    longer := FinishTask(j, schedule + [Step(0, ts)], i, ts);
  }

  lemma {:induction false} ProcessTasks(j: Job, n: nat, ts: string) returns (schedule: seq<Action>)
    requires JobOk(j) && ts in j.stamps && n <= |j.tasks|
    ensures Calm(j, Run(j, schedule), n) && OneTime(schedule, ts)
  {
    if n == 0 {
      schedule := [];
    } else {
      schedule := ProcessTasks(j, n - 1, ts);
      schedule := DoTask(j, schedule, n - 1, ts);
    }
  }

  lemma RunShape(j: Job, schedule: seq<Action>)
    requires JobOk(j)
    ensures ShapeOk(j, Run(j, schedule))
  {
    RunInv(j, schedule);
  }

  // ---------------------------------------------------------------- closing down

  /** The first `w` workers have stopped, the others wait; there is nothing left to start. */
  predicate Stopping(j: Job, s: State, w: nat) {
    && s.main == Working && !s.failed && (s.next == |j.tasks| || s.cancelled)
    && s.workers == seq(j.workers, v => if v < w then Exited else Idle)
  }

  /** One step if the channel is drained; otherwise the worker takes a task and drops it. */
  lemma StopOne(j: Job, s: State, w: nat, ts: string)
    requires ShapeOk(j, s) && Stopping(j, s, w) && w < j.workers && ts in j.stamps
    ensures var once := Next(j, s, Step(w, ts));
            var s' := if s.next == |j.tasks| then once else Next(j, once, Step(w, ts));
            Stopping(j, s', w + 1) && s'.dst == s.dst && s'.cancelled == s.cancelled
  {
    assert s.workers[w := Exited] == seq(j.workers, v => if v < w + 1 then Exited else Idle);
    assert s.workers[w := Busy(s.next)][w := Exited] == s.workers[w := Exited];
  }

  /** With the channel drained or the context cancelled, every waiting worker stops without
      touching the destination. */
  lemma {:induction false} StopWorkers(j: Job, schedule: seq<Action>, w: nat, ts: string) returns (longer: seq<Action>)
    requires JobOk(j) && ts in j.stamps && w <= j.workers && OneTime(schedule, ts)
    requires Stopping(j, Run(j, schedule), w)
    ensures OneTime(longer, ts)
    ensures var s, s' := Run(j, schedule), Run(j, longer);
      && s'.main == Working && AllExited(s') && !s'.failed
      && s'.dst == s.dst && s'.cancelled == s.cancelled
    decreases j.workers - w
  {
    longer := schedule;
    if w < j.workers {
      RunShape(j, schedule);
      StopOne(j, Run(j, schedule), w, ts);
      longer := schedule + [Step(w, ts)];
      RunSnoc(j, schedule, Step(w, ts));
      if Run(j, schedule).next < |j.tasks| {
        RunSnoc(j, longer, Step(w, ts));
        longer := longer + [Step(w, ts)];
      }
      longer := StopWorkers(j, longer, w + 1, ts);
    }
  }

  lemma DeleteOne(j: Job, s: State, rel: string)
    requires ShapeOk(j, s) && s.main == Deleting && !s.cancelled && rel in s.left
    ensures var s' := Next(j, s, DeleteNext(rel, false, false));
            s'.main == Deleting && !s'.cancelled && s'.left == s.left - {rel}
  {
  }

  lemma {:induction false} DeleteOrphans(j: Job, schedule: seq<Action>) returns (longer: seq<Action>)
    requires JobOk(j)
    requires Run(j, schedule).main == Deleting && !Run(j, schedule).cancelled
    ensures Run(j, longer).main == Returned(true) && !Run(j, longer).cancelled
    decreases Run(j, schedule).left
  {
    RunShape(j, schedule);
    if Run(j, schedule).left == {} {
      RunSnoc(j, schedule, EndDelete);
      longer := schedule + [EndDelete];
    } else {
      var rel :| rel in Run(j, schedule).left;
      DeleteOne(j, Run(j, schedule), rel);
      longer := schedule + [DeleteNext(rel, false, false)];
      RunSnoc(j, schedule, DeleteNext(rel, false, false));
      longer := DeleteOrphans(j, longer);
    }
  }

  /** All tasks done, every backup made at the one time `ts`. */
  lemma AllProcessed(j: Job, ts: string) returns (schedule: seq<Action>)
    requires JobOk(j) && ts in j.stamps
    ensures OneTime(schedule, ts)
    ensures var s := Run(j, schedule);
            s.main == Working && AllExited(s) && !s.failed && !s.cancelled
  {
    schedule := ProcessTasks(j, |j.tasks|, ts);
    assert seq(j.workers, _ => Idle) == seq(j.workers, v => if v < 0 then Exited else Idle);
    schedule := StopWorkers(j, schedule, 0, ts);
  }

  /** Every sound job can be run to completion: when no driver call returns an error and the
      context lives, the engine itself never gets stuck and never fails. */
  lemma CompletedRunExists(j: Job) returns (schedule: seq<Action>)
    requires JobOk(j)
    ensures Complete(Run(j, schedule)) && !Run(j, schedule).cancelled
  {
    var ts :| ts in j.stamps;
    schedule := AllProcessed(j, ts);
    RunSnoc(j, schedule, Join);
    schedule := schedule + [Join];
    if j.opts.delete {
      schedule := DeleteOrphans(j, schedule);
    }
    UncancelledIsComplete(j, schedule);
  }

  /** A context cancelled before the first task is taken stops every worker at once. */
  lemma StoppedAtOnce(j: Job) returns (schedule: seq<Action>)
    requires JobOk(j) && j.cancellable
    ensures var s := Run(j, schedule); s.main == Working && AllExited(s) && !s.failed && s.dst == j.dst
  {
    var ts :| ts in j.stamps;
    RunSnoc(j, [], Cancel);
    StartCancelled(j);
    schedule := StopWorkers(j, [] + [Cancel], 0, ts);
  }

  lemma RunMain(j: Job, schedule: seq<Action>)
    requires JobOk(j)
    ensures MainOk(j, Run(j, schedule))
  {
    RunInv(j, schedule);
  }

  /** Such a run, if it has nothing to delete, ends without an error and without having done
      anything. */
  lemma CancelledRunReportsSuccess(j: Job) returns (schedule: seq<Action>)
    requires JobOk(j) && j.cancellable && (!j.opts.delete || j.destMap == map[])
    ensures Run(j, schedule).main == Returned(true) && Run(j, schedule).dst == j.dst
  {
    schedule := StoppedAtOnce(j);
    RunMain(j, schedule);
    NothingToDelete(j, Run(j, schedule));
    RunSnoc(j, schedule, Join);
    schedule := schedule + [Join];
    if j.opts.delete {
      RunSnoc(j, schedule, EndDelete);
      schedule := schedule + [EndDelete];
    }
  }

  lemma NothingToDelete(j: Job, s: State)
    requires MainOk(j, s) && s.main == Working && AllExited(s) && !s.failed && (!j.opts.delete || j.destMap == map[])
    ensures var joined := Next(j, s, Join);
            var ended := if j.opts.delete then Next(j, joined, EndDelete) else joined;
            ended.main == Returned(true) && ended.dst == s.dst
  {
  }

  lemma StartCancelled(j: Job)
    requires j.cancellable
    ensures var s := Next(j, Run(j, []), Cancel);
            Stopping(j, s, 0) && s.dst == j.dst
  {
    assert seq(j.workers, _ => Idle) == seq(j.workers, v => if v < 0 then Exited else Idle);
  }

  // ---------------------------------------------------------------- exact conditions

  /** Every schedule that ends without an error leaves the source bytes at the destination. */
  ghost predicate SuccessMirrors(j: Job) {
    forall schedule :: Run(j, schedule).main == Returned(true) ==> Mirrored(j, Run(j, schedule).dst)
  }

  /** "No error" means "mirrored" exactly when the context cannot be cancelled, or the delete
      loop has a name to look at (it alone reports a cancelled context), or the destination
      already had every source object. */
  lemma NoErrorMeansMirrored(j: Job)
    requires JobOk(j) && j.opts.checksum && Injective(j.hash) && !j.opts.dryRun
    ensures SuccessMirrors(j)
       <==> (!j.cancellable || (j.opts.delete && j.destMap != map[]) || Mirrored(j, j.dst))
  {
    if !j.cancellable || (j.opts.delete && j.destMap != map[]) || Mirrored(j, j.dst) {
      forall schedule | Run(j, schedule).main == Returned(true) ensures Mirrored(j, Run(j, schedule).dst) {
        RunInv(j, schedule);
        if Mirrored(j, j.dst) {
          StaysMirrored(j, Run(j, schedule));
        } else {
          UncancelledIsComplete(j, schedule);
          CompleteIsMirrored(j, Run(j, schedule));
        }
      }
    } else {
      var schedule := CancelledRunReportsSuccess(j);
      assert !Mirrored(j, Run(j, schedule).dst);
    }
  }

  lemma StaysMirrored(j: Job, s: State)
    requires Inv(j, s) && Mirrored(j, j.dst)
    ensures Mirrored(j, s.dst)
  {
  }

  /** In no state of any schedule before the delete phase has an object been lost. */
  ghost predicate NeverLoses(j: Job) {
    forall schedule, key :: key in j.dst && Run(j, schedule).main == Working ==> Kept(j, Run(j, schedule), key)
  }

  /** Before the delete phase nothing is ever lost exactly when every task that meets an
      object with other bytes was listed at the destination and, unless the comparison skips
      it, backed up, and no backup can fall on an object with other bytes. */
  lemma NothingLostExactly(j: Job)
    requires JobOk(j)
    ensures NeverLoses(j) <==> AllProtected(j) && NoClash(j)
  {
    if AllProtected(j) && NoClash(j) {
      forall schedule, key | key in j.dst && Run(j, schedule).main == Working
        ensures Kept(j, Run(j, schedule), key)
      {
        NothingLost(j, schedule, key);
      }
    } else if !AllProtected(j) {
      UnprotectedLoses(j);
    } else {
      ClashLoses(j);
    }
  }

  lemma UnprotectedLoses(j: Job)
    requires JobOk(j) && !AllProtected(j)
    ensures !NeverLoses(j)
  {
    var i :| 0 <= i < |j.tasks| && Before(j, i).Some? && !Protected(j, i);
    var ts :| ts in j.stamps;
    var schedule := AllProcessed(j, ts);
    RunInv(j, schedule);
    Overwritten(j, Run(j, schedule), i);
    assert !Kept(j, Run(j, schedule), j.tasks[i].destPath);
  }

  lemma ClashLoses(j: Job)
    requires JobOk(j) && !NoClash(j)
    ensures !NeverLoses(j)
  {
    var i, ts :| 0 <= i < |j.tasks| && ts in j.stamps && Clashes(j, i, ts);
    var schedule := AllProcessed(j, ts);
    RunInv(j, schedule);
    RunShows(j, schedule, ts);
    BackupReplaced(j, Run(j, schedule), i, ts);
    assert !Kept(j, Run(j, schedule), BackupKey(j, i, ts));
  }

  lemma DoneWithStamp(j: Job, s: State, i: nat)
    requires JobOk(j) && Inv(j, s) && AllExited(s) && !s.failed && !s.cancelled && i < |s.phase|
    ensures s.phase[i].Finished? && PhaseOk(j, i, s.phase[i])
  {
    assert s.workers[0] == Exited;
    NoneInFlight(s, i);
    assert PhaseOk(j, i, s.phase[i]);
  }

  /** Once all tasks are done, the bytes an unprotected task met are gone. */
  lemma Overwritten(j: Job, s: State, i: nat)
    requires JobOk(j) && Inv(j, s) && AllExited(s) && !s.failed && !s.cancelled
    requires i < |j.tasks| && Before(j, i).Some? && !Protected(j, i)
    ensures !Kept(j, s, j.tasks[i].destPath)
  {
    DoneWithStamp(j, s, i);
    assert Written(j, s.phase[i]) && Stamp(s.phase[i]) == None;
    forall k ensures !SavedAt(j, s, k, j.tasks[i].destPath) { OnlyTask(j, i, k); }
  }

  lemma OnlyTask(j: Job, i: nat, k: int)
    requires JobOk(j) && i < |j.tasks|
    ensures 0 <= k < |j.tasks| && j.tasks[k].destPath == j.tasks[i].destPath ==> k == i
  {
  }

  /** Once all tasks are done at time `ts`, the backup of task `i` has replaced what was in
      its place. */
  lemma BackupReplaced(j: Job, s: State, i: nat, ts: string)
    requires JobOk(j) && Inv(j, s) && AllExited(s) && !s.failed && !s.cancelled && AllShow(s, ts)
    requires i < |j.tasks| && ts in j.stamps && NeedsBackup(j, i)
    ensures Lookup(s.dst, BackupKey(j, i, ts)) == Before(j, i)
    ensures Clashes(j, i, ts) ==> !Kept(j, s, BackupKey(j, i, ts))
  {
    DoneWithStamp(j, s, i);
    assert Shows(s.phase[i], ts);
    forall k ensures !SavedAt(j, s, k, BackupKey(j, i, ts)) { BackupIsNoTask(j, i, ts, k); }
  }

  lemma BackupIsNoTask(j: Job, i: nat, ts: string, k: int)
    requires JobOk(j) && i < |j.tasks| && ts in j.stamps
    ensures 0 <= k < |j.tasks| ==> j.tasks[k].destPath != BackupKey(j, i, ts)
  {
  }
}

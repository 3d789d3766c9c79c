/** The reference a sync run is measured against: the tasks processed one after another, in
    list order, each compared, backed up and written before the next begins. */
module SyncSequential {
  import opened Prelude
  import opened MockStore
  import opened Comparator
  import opened SyncEngine
  import opened SyncInvariant

  datatype Acc = Acc(dst: Store, stats: Stats)

  function Bytes(d: Option<bytes>): bytes {
    if d.Some? then d.value else []
  }

  function Verdict(j: Job, i: nat, dst: Store): DiffStatus
    requires i < |j.tasks|
  {
    var t := j.tasks[i];
    if t.rel !in j.destMap then New
    else if j.opts.checksum then
      CompareHash(j.hash(Bytes(Get(j.src, t.obj.path))), j.hash(Bytes(Get(dst, j.destMap[t.rel].path))))
    else CompareMeta(t.obj, j.destMap[t.rel], j.wraps)
  }

  /** The conflict step: count it and, outside a dry run, copy what is there aside. */
  function Saved(j: Job, i: nat, a: Acc, ts: string): Acc
    requires i < |j.tasks|
  {
    if j.tasks[i].rel !in j.destMap || j.opts.noBackup then a
    else if j.opts.dryRun then Acc(a.dst, a.stats.(conflictFiles := a.stats.conflictFiles + 1))
    else Acc(Put(a.dst, BackupKey(j, i, ts), Bytes(Get(a.dst, j.tasks[i].destPath))),
             a.stats.(conflictFiles := a.stats.conflictFiles + 1,
                      conflicts := a.stats.conflicts + [BackupKey(j, i, ts)]))
  }

  function Copied(j: Job, i: nat, dst: Store): Store
    requires i < |j.tasks|
  {
    if j.opts.dryRun then dst else Put(dst, j.tasks[i].destPath, Bytes(Get(j.src, j.tasks[i].obj.path)))
  }

  function Counted(j: Job, i: nat, st: Stats): Stats
    requires i < |j.tasks|
  {
    var t := j.tasks[i];
    if t.rel in j.destMap then
      st.(updatedFiles := st.updatedFiles + 1, updatedBytes := st.updatedBytes + t.obj.size)
    else
      st.(transferredFiles := st.transferredFiles + 1, transferredBytes := st.transferredBytes + t.obj.size)
  }

  /** One task from start to finish; `ts` is what the clock shows if it needs a backup. */
  function ProcessTask(j: Job, i: nat, a: Acc, ts: string): Acc
    requires i < |j.tasks|
  {
    if Verdict(j, i, a.dst) == Identical then Acc(a.dst, a.stats.(skippedFiles := a.stats.skippedFiles + 1))
    else
      var saved := Saved(j, i, a, ts);
      Acc(Copied(j, i, saved.dst), Counted(j, i, saved.stats))
  }

  function ProcessFirst(j: Job, n: nat, stamps: seq<string>): Acc
    requires n <= |j.tasks| == |stamps|
  {
    if n == 0 then Acc(j.dst, NO_STATS)
    else ProcessTask(j, n - 1, ProcessFirst(j, n - 1, stamps), stamps[n - 1])
  }

  /** The names `--delete` removes: listed at the destination, absent from the source. */
  function OrphanNames(j: Job): set<string> {
    if j.opts.delete then j.destMap.Keys - j.srcNames else {}
  }

  function Sequential(j: Job, stamps: seq<string>): Acc
    requires |stamps| == |j.tasks|
  {
    var a := ProcessFirst(j, |j.tasks|, stamps);
    var orphans := OrphanNames(j);
    Acc(if j.opts.dryRun then a.dst else a.dst - (set rel | rel in orphans && rel in j.destMap :: j.destMap[rel].path),
        a.stats.(deletedFiles := |orphans|))
  }

  // ---------------------------------------------------------------- where it leaves the tasks

  function DonePhase(j: Job, i: nat, ts: string): Phase
    requires i < |j.tasks|
  {
    Finished(OutcomeOf(j, i), if NeedsBackup(j, i) then Some(ts) else None)
  }

  /** The first `n` tasks finished, the others still waiting. */
  function DoneFirst(j: Job, n: nat, stamps: seq<string>): seq<Phase>
    requires n <= |j.tasks| == |stamps|
  {
    seq(|j.tasks|, i requires 0 <= i < |j.tasks| => if i < n then DonePhase(j, i, stamps[i]) else Pending)
  }

  lemma DonePhaseOk(j: Job, i: nat, ts: string)
    requires i < |j.tasks| && ts in j.stamps
    ensures PhaseOk(j, i, DonePhase(j, i, ts))
  {
  }

  lemma VerdictIsDecision(j: Job, dst: Store, phase: seq<Phase>, gone: set<string>, i: nat)
    requires JobOk(j) && PhasesOk(j, phase) && DstOk(j, dst, phase, gone)
    requires i < |phase| && phase[i] == Pending
    ensures Verdict(j, i, dst) == Decide(j, i)
  {
    Untouched(j, dst, phase, gone, i);
  }

  lemma ProcessDst(j: Job, a: Acc, phase: seq<Phase>, i: nat, ts: string)
    requires JobOk(j) && PhasesOk(j, phase) && DstOk(j, a.dst, phase, {})
    requires i < |phase| && phase[i] == Pending && ts in j.stamps
    ensures DstOk(j, ProcessTask(j, i, a, ts).dst, phase[i := DonePhase(j, i, ts)], {})
  {
    VerdictIsDecision(j, a.dst, phase, {}, i);
    Untouched(j, a.dst, phase, {}, i);
    var done := DonePhase(j, i, ts);
    if NeedsBackup(j, i) {
      var was := Before(j, i).value;
      DstBackup(j, a.dst, phase, {}, i, NotingConflict(ts), ts, was);
      assert phase[i := NotingConflict(ts)][i := done] == phase[i := done];
      DstWrite(j, Put(a.dst, BackupKey(j, i, ts), was), phase[i := NotingConflict(ts)], {}, i, done,
               Source(j, i).value);
    } else if Written(j, done) {
      DstWrite(j, a.dst, phase, {}, i, done, Source(j, i).value);
    } else {
      DstQuiet(j, a.dst, phase, {}, i, done);
    }
  }

  lemma ProcessStats(j: Job, a: Acc, phase: seq<Phase>, i: nat, ts: string)
    requires StatsOk(j, a.stats, phase) && i < |phase| && phase[i] == Pending
    requires Verdict(j, i, a.dst) == Decide(j, i)
    ensures StatsOk(j, ProcessTask(j, i, a, ts).stats, phase[i := DonePhase(j, i, ts)])
  {
    NoShare(j, i, Pending);
    ProcessShare(j, a, i, ts);
    StatsMove(j, a.stats, phase, i, DonePhase(j, i, ts), ProcessTask(j, i, a, ts).stats);
  }

  lemma ProcessShare(j: Job, a: Acc, i: nat, ts: string)
    requires i < |j.tasks| && Verdict(j, i, a.dst) == Decide(j, i)
    ensures var st := ProcessTask(j, i, a, ts).stats;
            && TallyOf(st) == Add(TallyOf(a.stats), Share(j, i, DonePhase(j, i, ts)))
            && multiset(st.conflicts) == multiset(a.stats.conflicts) + Noted(j, i, DonePhase(j, i, ts))
  {
  }

  /** The counters and the destination agree with where each task stands. */
  ghost predicate AccOk(j: Job, a: Acc, phase: seq<Phase>) {
    PhasesOk(j, phase) && DstOk(j, a.dst, phase, {}) && StatsOk(j, a.stats, phase)
  }

  lemma ProcessOneOk(j: Job, a: Acc, phase: seq<Phase>, i: nat, ts: string)
    requires JobOk(j) && AccOk(j, a, phase) && i < |phase| && phase[i] == Pending && ts in j.stamps
    ensures AccOk(j, ProcessTask(j, i, a, ts), phase[i := DonePhase(j, i, ts)])
  {
    DonePhaseOk(j, i, ts);
    VerdictIsDecision(j, a.dst, phase, {}, i);
    ProcessDst(j, a, phase, i, ts);
    ProcessStats(j, a, phase, i, ts);
  }

  lemma DoneSnoc(j: Job, i: nat, stamps: seq<string>)
    requires i < |j.tasks| == |stamps|
    ensures DoneFirst(j, i, stamps)[i] == Pending
    ensures DoneFirst(j, i + 1, stamps) == DoneFirst(j, i, stamps)[i := DonePhase(j, i, stamps[i])]
    ensures ProcessFirst(j, i + 1, stamps) == ProcessTask(j, i, ProcessFirst(j, i, stamps), stamps[i])
  {
  }

  lemma ProcessNextOk(j: Job, i: nat, n: nat, stamps: seq<string>)
    requires JobOk(j) && i < |j.tasks| == |stamps| && stamps[i] in j.stamps && n == i + 1
    requires AccOk(j, ProcessFirst(j, i, stamps), DoneFirst(j, i, stamps))
    ensures AccOk(j, ProcessFirst(j, n, stamps), DoneFirst(j, n, stamps))
  {
    var a, phase, ts := ProcessFirst(j, i, stamps), DoneFirst(j, i, stamps), stamps[i];
    DoneSnoc(j, i, stamps);
    ProcessOneOk(j, a, phase, i, ts);
  }

  lemma NothingDone(j: Job, stamps: seq<string>)
    requires |stamps| == |j.tasks|
    ensures AccOk(j, ProcessFirst(j, 0, stamps), DoneFirst(j, 0, stamps))
  {
    InitDst(j);
    InitStats(j, DoneFirst(j, 0, stamps));
    assert DoneFirst(j, 0, stamps) == Init(j).phase;
  }

  /** The reference after `n` tasks agrees with `n` tasks being done. */
  ghost predicate FirstOk(j: Job, stamps: seq<string>, n: nat) {
    n <= |j.tasks| == |stamps| && AccOk(j, ProcessFirst(j, n, stamps), DoneFirst(j, n, stamps))
  }

  lemma {:induction false} FirstByFirst(j: Job, stamps: seq<string>, n: nat)
    requires n <= |j.tasks| == |stamps| && FirstOk(j, stamps, 0)
    requires forall k: nat {:trigger FirstOk(j, stamps, k)} ::
               0 < k <= |j.tasks| && FirstOk(j, stamps, k - 1) ==> FirstOk(j, stamps, k)
    ensures FirstOk(j, stamps, n)
  {
    if n > 0 {
      FirstByFirst(j, stamps, n - 1);
      assert FirstOk(j, stamps, n);
    }
  }

  lemma FirstStep(j: Job, stamps: seq<string>, k: nat)
    requires JobOk(j) && 0 < k <= |j.tasks| == |stamps| && stamps[k - 1] in j.stamps
    ensures FirstOk(j, stamps, k - 1) ==> FirstOk(j, stamps, k)
  {
    if FirstOk(j, stamps, k - 1) { ProcessNextOk(j, k - 1, k, stamps); }
  }

  lemma AllFirst(j: Job, stamps: seq<string>, n: nat)
    requires JobOk(j) && n <= |j.tasks| == |stamps|
    requires forall i :: 0 <= i < |stamps| ==> stamps[i] in j.stamps
    ensures FirstOk(j, stamps, n)
  {
    NothingDone(j, stamps);
    forall k: nat {:trigger FirstOk(j, stamps, k)} | 0 < k <= |j.tasks|
      ensures FirstOk(j, stamps, k - 1) ==> FirstOk(j, stamps, k)
    {
      FirstStep(j, stamps, k);
    }
    FirstByFirst(j, stamps, n);
  }

  lemma ProcessFirstOk(j: Job, n: nat, stamps: seq<string>)
    requires JobOk(j) && n <= |j.tasks| == |stamps|
    requires forall i :: 0 <= i < |stamps| ==> stamps[i] in j.stamps
    ensures AccOk(j, ProcessFirst(j, n, stamps), DoneFirst(j, n, stamps))
  {
    AllFirst(j, stamps, n);
  }

  lemma GoneIsApart(j: Job, phase: seq<Phase>, k: string)
    requires JobOk(j) && PhasesOk(j, phase) && k in Gone(j, {})
    ensures k !in TaskKeys(j) && k !in BackupKeys(j, phase)
  {
    var rel :| rel in Orphans(j, {}) && rel in j.destMap && j.destMap[rel].path == k;
    assert OrphanOk(j, rel);
    forall n | 0 <= n < |phase| && Stamp(phase[n]).Some?
      ensures BackupKey(j, n, Stamp(phase[n]).value) != k
    {
      assert PhaseOk(j, n, phase[n]);
    }
  }

  /** Removing all orphans at once is what the delete loop amounts to. */
  lemma DeleteAll(j: Job, dst: Store, phase: seq<Phase>)
    requires JobOk(j) && PhasesOk(j, phase) && DstOk(j, dst, phase, {}) && !j.opts.dryRun
    ensures DstOk(j, dst - Gone(j, {}), phase, Gone(j, {}))
  {
    var gone := Gone(j, {});
    forall k | k in gone ensures k !in TaskKeys(j) && k !in BackupKeys(j, phase) { GoneIsApart(j, phase, k); }
    forall n | 0 <= n < |phase| ensures j.tasks[n].destPath !in gone {
      assert j.tasks[n].destPath in TaskKeys(j);
    }
    forall n | 0 <= n < |phase| && Stamp(phase[n]).Some?
      ensures BackupKey(j, n, Stamp(phase[n]).value) !in gone
    {
      assert BackupKey(j, n, Stamp(phase[n]).value) in BackupKeys(j, phase);
    }
  }
}

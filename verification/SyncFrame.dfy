/** What a run can do to one object of the destination, and what it leaves alone for certain. */
module SyncFrame {
  import opened Prelude
  import opened Text
  import opened MockStore
  import opened Comparator
  import opened Names
  import opened SyncEngine
  import opened SyncInvariant
  import opened SyncSequential
  import opened SyncTheorems
  import opened SyncExact
  import opened SyncPlan
  import opened SyncPromises

  // ---------------------------------------------------------------- one object of a job

  /** A task will write other bytes over the object. */
  predicate Rewritten(j: Job, key: string) {
    exists i :: 0 <= i < |j.tasks| && j.tasks[i].destPath == key && Overwrites(j, i)
  }

  predicate Overwrites(j: Job, i: nat)
    requires i < |j.tasks|
  {
    !j.opts.dryRun && Decide(j, i) != Identical && Source(j, i) != Before(j, i)
  }

  /** The delete loop has the object on its list. */
  predicate Doomed(j: Job, key: string) {
    && j.opts.delete && !j.opts.dryRun
    && exists rel :: rel in j.destMap && rel !in j.srcNames && j.destMap[rel].path == key
  }

  /** No state of any schedule has changed the object. */
  ghost predicate AlwaysKeeps(j: Job, key: string) {
    forall schedule :: Lookup(Run(j, schedule).dst, key) == Lookup(j.dst, key)
  }

  lemma GoneIsDoomed(j: Job, schedule: seq<Action>, key: string)
    requires key in Gone(j, Run(j, schedule).left)
    ensures Doomed(j, key)
  {
    if !j.opts.delete { LeftAlone(j, schedule); }
  }

  lemma TaskKeyStays(j: Job, dst: Store, phase: seq<Phase>, gone: set<string>, i: nat)
    requires PhasesOk(j, phase) && DstOk(j, dst, phase, gone) && i < |phase| && !Overwrites(j, i)
    ensures Lookup(dst, j.tasks[i].destPath) == Before(j, i)
  {
    assert PhaseOk(j, i, phase[i]);
  }

  lemma StaysAsItWas(j: Job, schedule: seq<Action>, key: string)
    requires JobOk(j) && key in j.dst && !Replaceable(j, key) && !Doomed(j, key) && !Rewritten(j, key)
    ensures Lookup(Run(j, schedule).dst, key) == Lookup(j.dst, key)
  {
    var s := Run(j, schedule);
    RunInv(j, schedule);
    if key in TaskKeys(j) {
      var i :| 0 <= i < |j.tasks| && j.tasks[i].destPath == key;
      TaskKeyStays(j, s.dst, s.phase, Gone(j, s.left), i);
    } else {
      if key in Gone(j, s.left) { GoneIsDoomed(j, schedule, key); }
      IrreplaceableStays(j, s.dst, s.phase, Gone(j, s.left), key);
    }
  }

  lemma DoomedGoes(j: Job, key: string) returns (schedule: seq<Action>)
    requires JobOk(j) && Doomed(j, key)
    ensures key !in Run(j, schedule).dst
  {
    schedule := CompletedRunExists(j);
    var s := Run(j, schedule);
    RunInv(j, schedule);
    assert s.left == {};
    assert key in Gone(j, s.left) by {
      var rel :| rel in j.destMap && rel !in j.srcNames && j.destMap[rel].path == key;
      assert rel in Orphans(j, s.left);
    }
    GoneLeaves(j, s);
  }

  lemma GoneLeaves(j: Job, s: State)
    requires JobOk(j) && PhasesOk(j, s.phase) && DstOk(j, s.dst, s.phase, Gone(j, s.left)) && s.left == {}
    ensures forall key :: key in Gone(j, {}) ==> key !in s.dst
  {
    forall key | key in Gone(j, {}) ensures key !in s.dst {
      GoneIsApart(j, s.phase, key);
      assert Lookup(s.dst, key) == None;
    }
  }

  lemma RewrittenChanges(j: Job, key: string) returns (schedule: seq<Action>)
    requires JobOk(j) && Rewritten(j, key)
    ensures Lookup(Run(j, schedule).dst, key) != Lookup(j.dst, key)
  {
    var i :| 0 <= i < |j.tasks| && j.tasks[i].destPath == key && Overwrites(j, i);
    var ts :| ts in j.stamps;
    schedule := AllProcessed(j, ts);
    RunInv(j, schedule);
    DoneWithStamp(j, Run(j, schedule), i);
    assert Written(j, Run(j, schedule).phase[i]);
  }

  lemma ReplaceableChanges(j: Job, key: string) returns (schedule: seq<Action>)
    requires JobOk(j) && Replaceable(j, key)
    ensures Lookup(Run(j, schedule).dst, key) != Lookup(j.dst, key)
  {
    var i, ts :| 0 <= i < |j.tasks| && ts in j.stamps && BackupKey(j, i, ts) == key && Clashes(j, i, ts);
    schedule := AllProcessed(j, ts);
    RunInv(j, schedule);
    RunShows(j, schedule, ts);
    BackupReplaced(j, Run(j, schedule), i, ts);
  }

  /** An object is the same in every state of every schedule exactly when no task will write
      other bytes over it, no new backup of other bytes can take its name, and the delete loop
      does not have it on its list. */
  lemma KeptExactly(j: Job, key: string)
    requires JobOk(j) && key in j.dst
    ensures AlwaysKeeps(j, key) <==> !Rewritten(j, key) && !Replaceable(j, key) && !Doomed(j, key)
  {
    var schedule: seq<Action>;
    if Rewritten(j, key) {
      schedule := RewrittenChanges(j, key);
    } else if Replaceable(j, key) {
      schedule := ReplaceableChanges(j, key);
    } else if Doomed(j, key) {
      schedule := DoomedGoes(j, key);
    } else {
      forall schedule ensures Lookup(Run(j, schedule).dst, key) == Lookup(j.dst, key) {
        StaysAsItWas(j, schedule, key);
      }
    }
  }

  /** Some schedule makes away with the object. */
  ghost predicate CanRemove(j: Job, key: string) {
    exists schedule :: key !in Run(j, schedule).dst
  }

  /** Objects go by the delete loop only. */
  lemma RemovedExactly(j: Job, key: string)
    requires JobOk(j) && key in j.dst
    ensures CanRemove(j, key) <==> Doomed(j, key)
  {
    if Doomed(j, key) {
      var schedule := DoomedGoes(j, key);
    } else {
      forall schedule ensures key in Run(j, schedule).dst { NotRemoved(j, schedule, key); }
    }
  }

  lemma NotRemoved(j: Job, schedule: seq<Action>, key: string)
    requires JobOk(j) && key in j.dst && !Doomed(j, key)
    ensures key in Run(j, schedule).dst
  {
    RunInv(j, schedule);
    if key in Gone(j, Run(j, schedule).left) { GoneIsDoomed(j, schedule, key); }
    forall i | 0 <= i < |j.tasks| ensures TaskOk(j, i) {}
    NotGoneIsThere(j, Run(j, schedule).dst, Run(j, schedule).phase, Gone(j, Run(j, schedule).left), key);
  }

  lemma NotGoneIsThere(j: Job, dst: Store, phase: seq<Phase>, gone: set<string>, key: string)
    requires PhasesOk(j, phase) && DstOk(j, dst, phase, gone) && key in j.dst && key !in gone
    requires forall i :: 0 <= i < |j.tasks| ==> TaskOk(j, i)
    ensures key in dst
  {
    if key in TaskKeys(j) {
      var i :| 0 <= i < |j.tasks| && j.tasks[i].destPath == key;
      assert TaskOk(j, i);
    } else if key in BackupKeys(j, phase) {
      var i :| 0 <= i < |phase| && Stamp(phase[i]).Some? && BackupKey(j, i, Stamp(phase[i]).value) == key;
      BackupHolds(j, i, phase[i]);
      assert Lookup(dst, key) == Before(j, i);
    } else {
      assert Lookup(dst, key) == Lookup(j.dst, key);
    }
  }

  lemma BackupHolds(j: Job, i: nat, p: Phase)
    requires i < |j.tasks| && PhaseOk(j, i, p) && Stamp(p).Some? && TaskOk(j, i)
    ensures Before(j, i).Some?
  {
  }

  // ---------------------------------------------------------------- the delete list of a request

  /** A live listed source object strips to this name. */
  ghost predicate SrcNamed(r: Request, rel: string) {
    exists o :: Entry(r.srcList, SrcPrefix(r), r.opts.conflictDir, rel, o)
  }

  /** With `--delete`, outside a dry run: the destination listing shows the object, as the last
      of its stripped name, that name is live, and no source object bears it. */
  ghost predicate OnDeleteList(r: Request, key: string) {
    && r.opts.delete && !r.opts.dryRun && r.dstListed && !SrcNamed(r, Strip(key, DstPrefix(r)))
    && exists n :: 0 <= n < |r.dstList| && r.dstList[n].path == key
                   && LastOfName(r.dstList, DstPrefix(r), r.opts.conflictDir, n)
  }

  lemma SrcNames(r: Request, rel: string)
    ensures rel in Plan(r).srcNames <==> SrcNamed(r, rel)
  {
    TasksFacts(r.srcList, SrcPrefix(r), DstPrefix(r), r.opts.conflictDir);
    if o :| Entry(r.srcList, SrcPrefix(r), r.opts.conflictDir, rel, o) {
      assert TaskFor(o, SrcPrefix(r), DstPrefix(r)) in Plan(r).tasks;
    }
    if rel in Plan(r).srcNames {
      var t :| t in Plan(r).tasks && t.rel == rel;
      assert Entry(r.srcList, SrcPrefix(r), r.opts.conflictDir, rel, t.obj);
    }
  }

  lemma MapIsLast(r: Request, rel: string) returns (n: nat)
    requires Sane(r) && rel in Plan(r).destMap
    ensures r.dstListed && n < |r.dstList| && r.dstList[n].path == Plan(r).destMap[rel].path
    ensures LastOfName(r.dstList, DstPrefix(r), r.opts.conflictDir, n)
  {
    MapFacts(r, rel);
    DestMapFacts(r.dstList, DstPrefix(r), r.opts.conflictDir);
    assert Entry(r.dstList, DstPrefix(r), r.opts.conflictDir, rel, Plan(r).destMap[rel]);
    n :| 0 <= n < |r.dstList| && r.dstList[n] == Plan(r).destMap[rel];
    MapHoldsLast(r.dstList, DstPrefix(r), r.opts.conflictDir, n);
  }

  lemma DoomedIsListed(r: Request, key: string)
    requires Sane(r)
    ensures Doomed(Plan(r), key) <==> OnDeleteList(r, key)
  {
    SrcNames(r, Strip(key, DstPrefix(r)));
    if Doomed(Plan(r), key) {
      var rel :| rel in Plan(r).destMap && rel !in Plan(r).srcNames && Plan(r).destMap[rel].path == key;
      MapFacts(r, rel);
      var n := MapIsLast(r, rel);
    }
    if OnDeleteList(r, key) {
      var n :| 0 <= n < |r.dstList| && r.dstList[n].path == key
               && LastOfName(r.dstList, DstPrefix(r), r.opts.conflictDir, n);
      MapHoldsLast(r.dstList, DstPrefix(r), r.opts.conflictDir, n);
    }
  }

  /** Which objects a sync can remove at all. */
  lemma DeletedExactly(r: Request, key: string)
    requires Sane(r) && Separate(r) && key in r.dst
    ensures CanRemove(Plan(r), key) <==> OnDeleteList(r, key)
  {
    SeparateIsSound(r);
    RemovedExactly(Plan(r), key);
    DoomedIsListed(r, key);
  }

  // ---------------------------------------------------------------- outside the destination

  /** Neither below the destination prefix nor under the backup directory. */
  predicate Outside(r: Request, key: string) {
    && DstPrefix(r) != "" && !UnderDir(DstPrefix(r), key)
    && !UnderDir(BackupDir(r.opts.conflictDir), key)
  }

  lemma OutsideIsNoTask(r: Request, key: string)
    requires Sane(r) && Outside(r, key)
    ensures key !in TaskKeys(Plan(r))
  {
    forall t | t in Plan(r).tasks ensures t.destPath != key {
      TaskFacts(r, t);
      PrefixesOfOne(DstPrefix(r) + "/", t.rel, t.destPath);
    }
  }

  /** No state of any run has changed, made or removed anything outside the destination prefix
      and the backup directory. */
  lemma OutsideStays(r: Request, schedule: seq<Action>, key: string)
    requires WellFormed(r) && Outside(r, key)
    ensures Lookup(After(r, schedule).dst, key) == Lookup(r.dst, key)
  {
    OutsideIsNoTask(r, key);
    forall rel | rel in Plan(r).destMap ensures Plan(r).destMap[rel].path != key {
      DestName(r, rel);
      PrefixesOfOne(DstPrefix(r) + "/", rel, DestPath(DstPrefix(r), rel));
    }
    NotTouched(r, schedule, key);
  }

  lemma OutsideIsNoBackup(r: Request, key: string)
    requires Sane(r) && Separate(r) && !UnderDir(BackupDir(r.opts.conflictDir), key)
    ensures !Replaceable(Plan(r), key)
  {
    forall i, ts | 0 <= i < |Plan(r).tasks| && ts in r.stamps ensures BackupKey(Plan(r), i, ts) != key {
      SeparateTask(r, i);
      PlannedBackup(r, i, ts);
    }
  }

  /** Where keys may lie beside the prefix, an object outside the destination is left alone by
      every run exactly when it is not on the delete list. */
  lemma OutsideKeptExactly(r: Request, key: string)
    requires Sane(r) && Separate(r) && key in r.dst && Outside(r, key)
    ensures AlwaysKeeps(Plan(r), key) <==> !OnDeleteList(r, key)
  {
    SeparateIsSound(r);
    OutsideIsNoTask(r, key);
    OutsideIsNoBackup(r, key);
    KeptExactly(Plan(r), key);
    DoomedIsListed(r, key);
  }

  // ---------------------------------------------------------------- filtered names

  /** Whatever the conflict directory is called, an object of the destination whose name starts
      with ".conflicts", or with the cleaned name of that directory, is left alone by every run
      exactly when no new backup of other bytes can take its place; none is ever removed. */
  lemma FilteredKeptExactly(r: Request, rel: string)
    requires WellFormed(r) && DestPath(DstPrefix(r), rel) in r.dst
    requires ".conflicts" <= rel || (Clean(r.opts.conflictDir) != "" && Clean(r.opts.conflictDir) <= rel)
    ensures var j, key := Plan(r), DestPath(DstPrefix(r), rel);
            (AlwaysKeeps(j, key) <==> !Replaceable(j, key)) && !CanRemove(j, key)
  {
    var j, key := Plan(r), DestPath(DstPrefix(r), rel);
    PlanIsSound(r);
    LiveExactly(rel, r.opts.conflictDir);
    forall t | t in j.tasks ensures t.destPath != key {
      PlannedTask(r, t);
      if t.destPath == key { JoinInjective(DstPrefix(r), rel, t.rel); }
    }
    forall q | q in j.destMap ensures j.destMap[q].path != key {
      DestName(r, q);
      if j.destMap[q].path == key { JoinInjective(DstPrefix(r), rel, q); }
    }
    KeptExactly(j, key);
    RemovedExactly(j, key);
  }

  // ---------------------------------------------------------------- under the backup directory

  /** An object under the backup directory is the same in every state of every run exactly when
      no new backup of other bytes can take its name, it is not on the delete list and no task
      writes over it; the last two happen only where the backup directory is in the way of the
      destination. */
  lemma BackupKeptExactly(r: Request, key: string)
    requires Sane(r) && Separate(r) && key in r.dst && UnderDir(BackupDir(r.opts.conflictDir), key)
    ensures AlwaysKeeps(Plan(r), key)
            <==> !Replaceable(Plan(r), key) && !OnDeleteList(r, key) && !Rewritten(Plan(r), key)
    ensures Tidy(r) ==> !OnDeleteList(r, key) && !Rewritten(Plan(r), key)
  {
    SeparateIsSound(r);
    KeptExactly(Plan(r), key);
    DoomedIsListed(r, key);
    if Tidy(r) { UnderDirIsLeftAlone(r, key); }
  }
}

/** What a sync promises its caller, over one run and over many. */
module SyncPromises {
  import opened Prelude
  import opened Text
  import opened Keys
  import opened MockStore
  import opened Comparator
  import opened Names
  import opened SyncEngine
  import opened SyncInvariant
  import opened SyncSequential
  import opened SyncTheorems
  import opened SyncExact
  import opened SyncPlan

  /** The destination after `schedule`, at whatever point that leaves the run. */
  function After(r: Request, schedule: seq<Action>): State {
    Run(Plan(r), schedule)
  }

  function SrcAt(r: Request, rel: string): Option<bytes> {
    Lookup(r.src, DestPath(SrcPrefix(r), rel))
  }

  function DstAt(r: Request, dst: Store, rel: string): Option<bytes> {
    Lookup(dst, DestPath(DstPrefix(r), rel))
  }

  // ---------------------------------------------------------------- where keys come from

  /** A planned backup is in no listing of the destination prefix. */
  lemma BackupUnlisted(r: Request, key: string)
    requires DirName(r.opts.conflictDir) && Apart(DstPrefix(r), r.opts.conflictDir)
    requires UnderDir(BackupDir(r.opts.conflictDir), key) && DstPrefix(r) != ""
    ensures !(DstPrefix(r) <= key)
  {
    PrefixesOfOne(DstPrefix(r), BackupDir(r.opts.conflictDir) + "/", key);
  }

  /** A backup made by this run, by its name. */
  ghost predicate StampedBackup(r: Request, key: string) {
    && UnderDir(BackupDir(r.opts.conflictDir), key) && Canonical(key)
    && exists ts :: ts in r.stamps && EndsWithStamp(key, ts)
  }

  predicate TaskPath(r: Request, key: string) {
    exists t :: t in Plan(r).tasks && t.destPath == key
  }

  lemma BackupNamed(r: Request, i: nat, ts: string)
    requires Sane(r) && i < |Plan(r).tasks| && ts in r.stamps && Canonical(Plan(r).tasks[i].destPath)
    ensures StampedBackup(r, BackupKey(Plan(r), i, ts))
  {
    PlannedBackup(r, i, ts);
  }

  lemma StampShown(j: Job, i: nat, p: Phase)
    requires i < |j.tasks| && PhaseOk(j, i, p) && Stamp(p).Some?
    ensures Stamp(p).value in j.stamps
  {
  }

  lemma BackupKeyNamed(r: Request, phase: seq<Phase>, key: string)
    requires Sane(r) && Separate(r) && PhasesOk(Plan(r), phase) && key in BackupKeys(Plan(r), phase)
    ensures StampedBackup(r, key)
  {
    var j := Plan(r);
    var i :| 0 <= i < |phase| && Stamp(phase[i]).Some? && BackupKey(j, i, Stamp(phase[i]).value) == key;
    StampShown(j, i, phase[i]);
    SeparateTask(r, i);
    BackupNamed(r, i, Stamp(phase[i]).value);
  }

  /** Every new key in a reachable destination is the path of a task or a stamped backup. */
  lemma KeysOfRun(r: Request, schedule: seq<Action>, key: string)
    requires WellFormed(r) && key in After(r, schedule).dst && key !in r.dst
    ensures TaskPath(r, key) || StampedBackup(r, key)
  {
    var j, s := Plan(r), After(r, schedule);
    PlanIsSound(r);
    RunInv(j, schedule);
    NewKey(j, s, key);
    if key in TaskKeys(j) {
      var i :| 0 <= i < |j.tasks| && j.tasks[i].destPath == key;
      assert j.tasks[i] in j.tasks;
    } else {
      BackupKeyNamed(r, s.phase, key);
    }
  }

  lemma NewKey(j: Job, s: State, key: string)
    requires DstOk(j, s.dst, s.phase, Gone(j, s.left)) && key in s.dst && key !in j.dst
    ensures key in TaskKeys(j) || key in BackupKeys(j, s.phase)
  {
    assert Lookup(s.dst, key).Some? && Lookup(j.dst, key) == None;
  }

  /** A run keeps the destination on canonical keys, with nothing beside its prefix. */
  lemma DestinationStaysNamed(r: Request, schedule: seq<Action>)
    requires WellFormed(r)
    ensures CanonicalKeys(After(r, schedule).dst) && Below(After(r, schedule).dst, DstPrefix(r))
  {
    forall key | key in After(r, schedule).dst
      ensures Canonical(key) && (DstPrefix(r) != "" && DstPrefix(r) <= key ==> DstPrefix(r) + "/" <= key)
    {
      if key !in r.dst {
        KeysOfRun(r, schedule, key);
        if StampedBackup(r, key) {
          if DstPrefix(r) != "" { BackupUnlisted(r, key); }
        } else {
          var t :| t in Plan(r).tasks && t.destPath == key;
          PlannedTask(r, t);
          PrefixesOfOne(DstPrefix(r) + "/", t.rel, key);
        }
      }
    }
  }

  /** No state of any run touches a key that is no task's path, on no delete list and not
      under the conflict directory. */
  lemma NotTouched(r: Request, schedule: seq<Action>, key: string)
    requires WellFormed(r) && !UnderDir(BackupDir(r.opts.conflictDir), key)
    requires key !in TaskKeys(Plan(r))
    requires key in Gone(Plan(r), {}) ==> !r.opts.delete
    ensures Lookup(After(r, schedule).dst, key) == Lookup(r.dst, key)
  {
    var j, s := Plan(r), After(r, schedule);
    PlanIsSound(r);
    RunInv(j, schedule);
    if key in BackupKeys(j, s.phase) {
      BackupKeyNamed(r, s.phase, key);
    }
    if !r.opts.delete { LeftAlone(j, schedule); }
    assert Gone(j, s.left) <= Gone(j, {});
    assert !r.opts.delete ==> Gone(j, s.left) == {};
  }

  // ---------------------------------------------------------------- nothing lost

  lemma TaskSides(r: Request, i: nat)
    requires WellFormed(r) && i < |Plan(r).tasks|
    ensures var j, rel := Plan(r), Plan(r).tasks[i].rel;
      && Live(rel, r.opts.conflictDir) && SrcSeen(r, rel)
      && Source(j, i) == SrcAt(r, rel) && SrcAt(r, rel).Some?
      && Before(j, i) == DstAt(r, r.dst, rel)
      && (Listed(j, i) <==> DstSeen(r, rel)) && (DstSeen(r, rel) ==> Before(j, i).Some?)
  {
    PlannedTask(r, Plan(r).tasks[i]);
    DestName(r, Plan(r).tasks[i].rel);
  }

  lemma TaskIndex(r: Request, rel: string) returns (i: nat)
    requires WellFormed(r) && Live(rel, r.opts.conflictDir) && SrcSeen(r, rel)
    ensures i < |Plan(r).tasks| && Plan(r).tasks[i].rel == rel
  {
    var t := TaskPlanned(r, rel);
    i :| 0 <= i < |Plan(r).tasks| && Plan(r).tasks[i] == t;
  }

  /** The source listing shows the name, the destination listing does not, and the object
      there holds other bytes: the run takes it for new and overwrites it. */
  predicate Exposed(r: Request, rel: string) {
    && Live(rel, r.opts.conflictDir) && SrcSeen(r, rel) && !DstSeen(r, rel)
    && DstAt(r, r.dst, rel).Some? && DstAt(r, r.dst, rel) != SrcAt(r, rel)
  }

  lemma ExposedIsUnprotected(r: Request, rel: string)
    requires WellFormed(r) && !r.opts.dryRun && Exposed(r, rel)
    ensures !AllProtected(Plan(r))
  {
    var i := TaskIndex(r, rel);
    TaskSides(r, i);
    assert !Protected(Plan(r), i);
  }

  lemma ProtectedUnlessExposed(r: Request)
    requires WellFormed(r) && (!r.opts.noBackup || !r.dstListed)
    requires forall rel :: !Exposed(r, rel)
    ensures AllProtected(Plan(r))
  {
    var j := Plan(r);
    forall i | 0 <= i < |j.tasks| && Before(j, i).Some? ensures Protected(j, i) {
      TaskSides(r, i);
      assert !Exposed(r, j.tasks[i].rel);
    }
  }

  /** With backups on, nothing is lost before the delete phase exactly when no backup can fall
      on an object with other bytes and the destination listing, if it stops short or fails,
      hides no object that is about to be overwritten with other bytes. */
  lemma BackupsSufficeExactly(r: Request)
    requires WellFormed(r) && !r.opts.noBackup && !r.opts.dryRun
    ensures NeverLoses(Plan(r)) <==> NoClash(Plan(r)) && forall rel :: !Exposed(r, rel)
  {
    PlanIsSound(r);
    NothingLostExactly(Plan(r));
    if rel :| Exposed(r, rel) {
      ExposedIsUnprotected(r, rel);
    } else {
      ProtectedUnlessExposed(r);
    }
  }

  /** A complete listing hides nothing. */
  lemma SeenIfThere(r: Request, rel: string)
    requires WellFormed(r)
    ensures SrcSeen(r, rel) ==> SrcAt(r, rel).Some?
    ensures SeesAll(r) ==> (DstSeen(r, rel) <==> DstAt(r, r.dst, rel).Some?)
    ensures Covers(r.srcList, r.src, SrcPrefix(r)) ==> (SrcSeen(r, rel) <==> SrcAt(r, rel).Some?)
  {
    if SrcPrefix(r) != "" { KeyHasPrefix(SrcPrefix(r), rel); }
    if DstPrefix(r) != "" { KeyHasPrefix(DstPrefix(r), rel); }
  }

  /** No backup made earlier carries a time the clock can show now. */
  predicate Fresh(st: Store, conflictDir: string, stamps: set<string>) {
    forall k, ts :: k in st && ts in stamps && UnderDir(BackupDir(conflictDir), k) ==> !EndsWithStamp(k, ts)
  }

  lemma FreshNeverClashes(r: Request)
    requires WellFormed(r) && Fresh(r.dst, r.opts.conflictDir, r.stamps)
    ensures NoClash(Plan(r))
  {
    forall i, ts | 0 <= i < |Plan(r).tasks| && ts in r.stamps ensures !Clashes(Plan(r), i, ts) {
      PlannedTask(r, Plan(r).tasks[i]);
      PlannedBackup(r, i, ts);
    }
  }

  /** With the destination listed in full, backups on and a fresh clock, in every state of
      every schedule up to the delete phase, after any failure or cancellation, every object
      the destination held is still there or saved under a name that tells where it was. */
  lemma NoLossBeforeDelete(r: Request, schedule: seq<Action>, key: string)
    requires WellFormed(r) && SeesAll(r) && !r.opts.noBackup && key in r.dst
    requires Fresh(r.dst, r.opts.conflictDir, r.stamps)
    requires After(r, schedule).main == Working || !r.opts.delete
    ensures Kept(Plan(r), After(r, schedule), key)
  {
    PlanIsSound(r);
    forall rel ensures !Exposed(r, rel) { SeenIfThere(r, rel); }
    ProtectedUnlessExposed(r);
    FreshNeverClashes(r);
    NothingLost(Plan(r), schedule, key);
  }

  /** No live name the source shows holds different bytes on the two sides. */
  ghost predicate NothingDiffers(r: Request) {
    forall rel :: Live(rel, r.opts.conflictDir) && SrcSeen(r, rel) && DstAt(r, r.dst, rel).Some?
                  ==> SrcAt(r, rel) == DstAt(r, r.dst, rel)
  }

  /** When the destination listing fails it is taken to be empty, and then nothing is backed
      up: the run is safe exactly when it meets no object with other bytes. */
  lemma FailedListingLoses(r: Request)
    requires WellFormed(r) && !r.dstListed && !r.opts.dryRun
    ensures NeverLoses(Plan(r)) <==> NothingDiffers(r)
  {
    PlanIsSound(r);
    NothingLostExactly(Plan(r));
    forall i, ts | 0 <= i < |Plan(r).tasks| && ts in r.stamps ensures !Clashes(Plan(r), i, ts) {
      TaskSides(r, i);
    }
    assert NoClash(Plan(r));
    if rel :| Exposed(r, rel) {
      ExposedIsUnprotected(r, rel);
    } else {
      forall rel | Live(rel, r.opts.conflictDir) && SrcSeen(r, rel) && DstAt(r, r.dst, rel).Some?
        ensures SrcAt(r, rel) == DstAt(r, r.dst, rel)
      {
        assert !Exposed(r, rel);
      }
      ProtectedUnlessExposed(r);
    }
  }

  // ---------------------------------------------------------------- mirror

  predicate Succeeded(s: State) {
    s.main == Returned(true) && !s.cancelled
  }

  /** Names the conflict filter lets through, spelled out. */
  predicate Unfiltered(r: Request, rel: string) {
    !(".conflicts" <= rel) && (Clean(r.opts.conflictDir) == "" || !(Clean(r.opts.conflictDir) <= rel))
  }

  /** The listings show objects of this name that pass for the same by size and time. */
  predicate LooksSame(r: Request, rel: string) {
    r.dstListed
    && exists o, d :: o in r.srcList && !o.isDir && o.path == DestPath(SrcPrefix(r), rel)
                      && d in r.dstList && !d.isDir && d.path == DestPath(DstPrefix(r), rel)
                      && SameByTime(o, d, r.wraps)
  }

  /** What a live name ends up with: the source bytes if the source listing shows it, unless size
      and time are compared and look the same; nothing if it is then deleted; what it had
      otherwise. */
  function EndsAs(r: Request, rel: string): Option<bytes> {
    if SrcSeen(r, rel) then
      if !r.opts.checksum && LooksSame(r, rel) then DstAt(r, r.dst, rel) else SrcAt(r, rel)
    else if r.opts.delete && DstSeen(r, rel) then None
    else DstAt(r, r.dst, rel)
  }

  /** The task of a name compares just the two objects that the listings show under it. */
  lemma LooksSameExactly(r: Request, i: nat)
    requires WellFormed(r) && i < |Plan(r).tasks|
    ensures var j, t := Plan(r), Plan(r).tasks[i];
            LooksSame(r, t.rel) <==> t.rel in j.destMap && SameByTime(t.obj, j.destMap[t.rel], r.wraps)
  {
    var j, t := Plan(r), Plan(r).tasks[i];
    PlannedTask(r, t);
    TasksFacts(r.srcList, SrcPrefix(r), DstPrefix(r), r.opts.conflictDir);
    DestName(r, t.rel);
    if t.rel in j.destMap {
      DestMapFacts(DstShown(r), DstPrefix(r), r.opts.conflictDir);
      assert Entry(DstShown(r), DstPrefix(r), r.opts.conflictDir, t.rel, j.destMap[t.rel]);
    }
    if r.dstListed {
      forall o, d | o in r.srcList && !o.isDir && o.path == DestPath(SrcPrefix(r), t.rel)
                    && d in r.dstList && !d.isDir && d.path == DestPath(DstPrefix(r), t.rel)
        ensures o == t.obj && t.rel in j.destMap && d == j.destMap[t.rel]
      {
        OneListing(r.srcList, o, t.obj);
        assert ListsKey(r.dstList, DestPath(DstPrefix(r), t.rel));
        OneListing(r.dstList, d, j.destMap[t.rel]);
      }
    }
  }

  lemma SeenNameEnds(r: Request, schedule: seq<Action>, rel: string)
    requires WellFormed(r) && (r.opts.checksum ==> Injective(r.hash)) && !r.opts.dryRun
    requires Succeeded(After(r, schedule)) && Live(rel, r.opts.conflictDir) && SrcSeen(r, rel)
    ensures DstAt(r, After(r, schedule).dst, rel) == EndsAs(r, rel)
  {
    var j, s := Plan(r), After(r, schedule);
    PlanIsSound(r);
    RunInv(j, schedule);
    UncancelledIsComplete(j, schedule);
    var i := TaskIndex(r, rel);
    TaskSides(r, i);
    PlannedTask(r, j.tasks[i]);
    CompleteTask(j, s, i);
    if r.opts.checksum {
      if Decide(j, i) == Identical { IdenticalMeansEqual(j, i); }
    } else {
      LooksSameExactly(r, i);
      if Listed(j, i) { MetaExactly(j.tasks[i].obj, j.destMap[rel], r.wraps); }
    }
  }

  /** A run that returns no error and was not cancelled leaves each name that the filter lets
      through with exactly that. */
  lemma FinalName(r: Request, schedule: seq<Action>, rel: string)
    requires WellFormed(r) && (r.opts.checksum ==> Injective(r.hash)) && !r.opts.dryRun
    requires Succeeded(After(r, schedule)) && Unfiltered(r, rel)
    ensures DstAt(r, After(r, schedule).dst, rel) == EndsAs(r, rel)
  {
    LiveExactly(rel, r.opts.conflictDir);
    LiveNameEnds(r, schedule, rel);
  }

  lemma LiveNameEnds(r: Request, schedule: seq<Action>, rel: string)
    requires WellFormed(r) && (r.opts.checksum ==> Injective(r.hash)) && !r.opts.dryRun
    requires Succeeded(After(r, schedule)) && Live(rel, r.opts.conflictDir)
    ensures DstAt(r, After(r, schedule).dst, rel) == EndsAs(r, rel)
  {
    if SrcSeen(r, rel) {
      SeenNameEnds(r, schedule, rel);
    } else if r.opts.delete && DstSeen(r, rel) {
      PlanIsSound(r);
      RunInv(Plan(r), schedule);
      OrphanGone(r, After(r, schedule), rel);
    } else {
      UnseenStays(r, schedule, rel);
    }
  }

  lemma OrphanGone(r: Request, s: State, rel: string)
    requires WellFormed(r) && !r.opts.dryRun && Inv(Plan(r), s) && s.left == {}
    requires Live(rel, r.opts.conflictDir) && !SrcSeen(r, rel) && DstSeen(r, rel)
    ensures DstAt(r, s.dst, rel) == None
  {
    var j, key := Plan(r), DestPath(DstPrefix(r), rel);
    DestName(r, rel);
    NotATask(r, rel);
    LiveIsNoBackup(DstPrefix(r), r.opts.conflictDir, rel);
    if key in BackupKeys(j, s.phase) {
      BackupKeyNamed(r, s.phase, key);
    }
    assert rel in Orphans(j, {});
    assert key in Gone(j, {});
    assert Lookup(s.dst, key) == None;
  }

  lemma NotATask(r: Request, rel: string)
    requires WellFormed(r) && !SrcSeen(r, rel)
    ensures rel !in Plan(r).srcNames && DestPath(DstPrefix(r), rel) !in TaskKeys(Plan(r))
  {
    var j := Plan(r);
    forall t | t in j.tasks ensures t.rel != rel && t.destPath != DestPath(DstPrefix(r), rel) {
      PlannedTask(r, t);
      if t.destPath == DestPath(DstPrefix(r), rel) { JoinInjective(DstPrefix(r), rel, t.rel); }
    }
  }

  /** A live name neither listing shows, or that only the destination shows when nothing is
      to be deleted, is left alone. */
  lemma UnseenStays(r: Request, schedule: seq<Action>, rel: string)
    requires WellFormed(r) && Live(rel, r.opts.conflictDir) && !SrcSeen(r, rel)
    requires !(r.opts.delete && DstSeen(r, rel))
    ensures DstAt(r, After(r, schedule).dst, rel) == DstAt(r, r.dst, rel)
  {
    NotATask(r, rel);
    LiveIsNoBackup(DstPrefix(r), r.opts.conflictDir, rel);
    if r.opts.delete { NotOnList(r, rel); }
    NotTouched(r, schedule, DestPath(DstPrefix(r), rel));
  }

  lemma NotOnList(r: Request, rel: string)
    requires WellFormed(r) && !(Live(rel, r.opts.conflictDir) && DstSeen(r, rel))
    ensures DestPath(DstPrefix(r), rel) !in Gone(Plan(r), {})
  {
    forall q | q in Plan(r).destMap ensures Plan(r).destMap[q].path != DestPath(DstPrefix(r), rel) {
      DestName(r, q);
      if Plan(r).destMap[q].path == DestPath(DstPrefix(r), rel) { JoinInjective(DstPrefix(r), rel, q); }
    }
  }

  /** With complete listings: every live source object is at the destination; with `--delete`
      the two sides hold the same live names with the same bytes. */
  lemma MirrorPostcondition(r: Request, schedule: seq<Action>, rel: string)
    requires WellFormed(r) && r.opts.checksum && Injective(r.hash) && !r.opts.dryRun
    requires Covers(r.srcList, r.src, SrcPrefix(r)) && Succeeded(After(r, schedule)) && Live(rel, r.opts.conflictDir)
    ensures SrcAt(r, rel).Some? || (r.opts.delete && SeesAll(r)) ==>
              DstAt(r, After(r, schedule).dst, rel) == SrcAt(r, rel)
  {
    LiveNameEnds(r, schedule, rel);
    SeenIfThere(r, rel);
  }

  // ---------------------------------------------------------------- running it again

  /** The same request made once more, with the destination as the first run left it. */
  ghost predicate Repeats(r: Request, schedule: seq<Action>, again: Request) {
    && again.dst == After(r, schedule).dst
    && again.src == r.src && SrcPrefix(again) == SrcPrefix(r) && again.srcList == r.srcList
    && DstPrefix(again) == DstPrefix(r) && again.opts == r.opts && again.hash == r.hash
  }

  lemma SameTasks(r: Request, schedule: seq<Action>, again: Request)
    requires Repeats(r, schedule, again)
    ensures Plan(again).tasks == Plan(r).tasks && Plan(again).srcNames == Plan(r).srcNames
  {
  }

  lemma NothingToDo(r: Request, schedule: seq<Action>, again: Request, i: nat)
    requires WellFormed(r) && WellFormed(again) && Repeats(r, schedule, again) && SeesAll(again)
    requires r.opts.checksum && !r.opts.dryRun && Complete(After(r, schedule)) && Injective(r.hash)
    requires i < |Plan(again).tasks|
    ensures Decide(Plan(again), i) == Identical
  {
    SameTasks(r, schedule, again);
    PlanIsSound(r);
    RunInv(Plan(r), schedule);
    CompleteIsMirrored(Plan(r), After(r, schedule));
    TaskSides(again, i);
    SeenIfThere(again, Plan(again).tasks[i].rel);
    assert Before(Plan(again), i) == Source(Plan(again), i) by {
      assert Source(Plan(again), i) == Source(Plan(r), i);
    }
  }

  lemma NoNamesToDelete(r: Request, schedule: seq<Action>, again: Request)
    requires WellFormed(r) && WellFormed(again) && Repeats(r, schedule, again)
    requires r.opts.delete && SeesAll(r) && !r.opts.dryRun && Complete(After(r, schedule))
    ensures OrphanNames(Plan(again)) == {}
  {
    SameTasks(r, schedule, again);
    PlanIsSound(r);
    RunInv(Plan(r), schedule);
    forall rel | rel in Plan(again).destMap ensures rel in Plan(again).srcNames {
      DestName(again, rel);
      if SrcSeen(r, rel) {
        var i := TaskIndex(r, rel);
        PlannedTask(r, Plan(r).tasks[i]);
      } else {
        NotLeftOver(r, schedule, rel);
      }
    }
  }

  /** After a complete `--delete` run no live name is left that the source does not show. */
  lemma NotLeftOver(r: Request, schedule: seq<Action>, rel: string)
    requires WellFormed(r) && r.opts.delete && SeesAll(r) && !r.opts.dryRun && Complete(After(r, schedule))
    requires Live(rel, r.opts.conflictDir) && !SrcSeen(r, rel)
    ensures DstAt(r, After(r, schedule).dst, rel) == None
  {
    PlanIsSound(r);
    RunInv(Plan(r), schedule);
    SeenIfThere(r, rel);
    if DstSeen(r, rel) {
      OrphanGone(r, After(r, schedule), rel);
    } else {
      UnseenStays(r, schedule, rel);
    }
  }

  predicate AllIdentical(j: Job) {
    forall i :: 0 <= i < |j.tasks| ==> Decide(j, i) == Identical
  }

  lemma IdleDst(j: Job, dst: Store, phase: seq<Phase>)
    requires PhasesOk(j, phase) && DstOk(j, dst, phase, {}) && AllIdentical(j)
    ensures dst == j.dst
  {
    forall i | 0 <= i < |phase| ensures Stamp(phase[i]) == None && !Written(j, phase[i]) {
      assert PhaseOk(j, i, phase[i]);
    }
    assert BackupKeys(j, phase) == {};
    forall k ensures Lookup(dst, k) == Lookup(j.dst, k) {
      if k in TaskKeys(j) {
        var i :| 0 <= i < |j.tasks| && j.tasks[i].destPath == k;
      }
    }
    SameLookups(dst, j.dst);
  }

  lemma NoOrphans(j: Job, schedule: seq<Action>)
    requires OrphanNames(j) == {}
    ensures Orphans(j, Run(j, schedule).left) == {}
  {
    if !j.opts.delete { LeftAlone(j, schedule); }
  }

  lemma IdleRun(j: Job, schedule: seq<Action>)
    requires JobOk(j) && OrphanNames(j) == {} && AllIdentical(j)
    ensures Run(j, schedule).dst == j.dst
  {
    RunInv(j, schedule);
    NoOrphans(j, schedule);
    assert Gone(j, Run(j, schedule).left) == {};
    IdleDst(j, Run(j, schedule).dst, Run(j, schedule).phase);
  }

  lemma {:induction false} IdleCounts(j: Job, n: nat)
    requires n <= |j.tasks| && AllIdentical(j)
    ensures Sum(FinalShares(j)[..n]) == Tally(0, 0, 0, 0, 0, n)
  {
    if n > 0 {
      IdleCounts(j, n - 1);
      assert FinalShares(j)[..n][..n - 1] == FinalShares(j)[..n - 1];
      assert FinalShare(j, n - 1) == Tally(0, 0, 0, 0, 0, 1);
    }
  }

  lemma IdleSum(j: Job)
    requires AllIdentical(j)
    ensures Sum(FinalShares(j)) == Tally(0, 0, 0, 0, 0, |j.tasks|)
  {
    IdleCounts(j, |j.tasks|);
    assert FinalShares(j)[..|j.tasks|] == FinalShares(j);
  }

  lemma IdleStats(j: Job, s: State)
    requires JobOk(j) && Inv(j, s) && Complete(s) && OrphanNames(j) == {} && AllIdentical(j)
    ensures TallyOf(s.stats) == Tally(0, 0, 0, 0, 0, |j.tasks|) && s.stats.deletedFiles == 0
  {
    FinalCounts(j, s);
    IdleSum(j);
  }

  lemma AgainIsIdle(r: Request, schedule: seq<Action>, again: Request)
    requires WellFormed(r) && WellFormed(again) && Repeats(r, schedule, again)
    requires SeesAll(again) && (r.opts.delete ==> SeesAll(r))
    requires r.opts.checksum && !r.opts.dryRun && Complete(After(r, schedule)) && Injective(r.hash)
    ensures AllIdentical(Plan(again)) && OrphanNames(Plan(again)) == {}
  {
    forall i | 0 <= i < |Plan(again).tasks| ensures Decide(Plan(again), i) == Identical {
      NothingToDo(r, schedule, again, i);
    }
    if r.opts.delete { NoNamesToDelete(r, schedule, again); }
  }

  /** After a completed checksum sync the same sync again finds nothing to do: at no point of
      any schedule does it change the destination, and on completion every task is skipped
      and every other counter is zero. */
  lemma SecondRunIsIdle(r: Request, schedule: seq<Action>, again: Request, schedule2: seq<Action>)
    requires WellFormed(r) && WellFormed(again) && Repeats(r, schedule, again)
    requires SeesAll(again) && (r.opts.delete ==> SeesAll(r))
    requires r.opts.checksum && !r.opts.dryRun && Complete(After(r, schedule)) && Injective(r.hash)
    ensures After(again, schedule2).dst == again.dst
    ensures Complete(After(again, schedule2)) ==>
              var st := After(again, schedule2).stats;
              TallyOf(st) == Tally(0, 0, 0, 0, 0, |Plan(r).tasks|) && st.deletedFiles == 0
  {
    PlanIsSound(again);
    SameTasks(r, schedule, again);
    AgainIsIdle(r, schedule, again);
    IdleRun(Plan(again), schedule2);
    RunInv(Plan(again), schedule2);
    if Complete(After(again, schedule2)) {
      IdleStats(Plan(again), After(again, schedule2));
    }
  }

  // ---------------------------------------------------------------- backups over many runs

  /** What is under the conflict directory is no task's path and not on the delete loop's
      list. */
  lemma UnderDirIsLeftAlone(r: Request, key: string)
    requires WellFormed(r) && UnderDir(BackupDir(r.opts.conflictDir), key)
    ensures key !in TaskKeys(Plan(r))
    ensures forall rel :: rel in Plan(r).destMap ==> Plan(r).destMap[rel].path != key
  {
    var j := Plan(r);
    forall t | t in j.tasks ensures t.destPath != key {
      PlannedTask(r, t);
      LiveIsNoBackup(DstPrefix(r), r.opts.conflictDir, t.rel);
    }
    forall rel | rel in j.destMap ensures j.destMap[rel].path != key {
      DestName(r, rel);
      LiveIsNoBackup(DstPrefix(r), r.opts.conflictDir, rel);
    }
  }

  lemma NotReplaced(r: Request, schedule: seq<Action>, key: string)
    requires WellFormed(r) && key in r.dst && UnderDir(BackupDir(r.opts.conflictDir), key)
    requires !Replaceable(Plan(r), key)
    ensures Lookup(After(r, schedule).dst, key) == Lookup(r.dst, key)
  {
    var j, s := Plan(r), After(r, schedule);
    PlanIsSound(r);
    RunInv(j, schedule);
    UnderDirIsLeftAlone(r, key);
    assert key !in Gone(j, s.left);
    IrreplaceableStays(j, s.dst, s.phase, Gone(j, s.left), key);
  }

  /** With a fresh clock no state of a run has touched a backup that was there before, and
      the delete loop has none on its list. */
  lemma BackupsUntouched(r: Request, schedule: seq<Action>, key: string)
    requires WellFormed(r) && key in r.dst && UnderDir(BackupDir(r.opts.conflictDir), key)
    requires Fresh(r.dst, r.opts.conflictDir, r.stamps)
    ensures Lookup(After(r, schedule).dst, key) == Lookup(r.dst, key)
    ensures forall rel :: rel in Plan(r).destMap ==> Plan(r).destMap[rel].path != key
  {
    FreshNeverClashes(r);
    UnderDirIsLeftAlone(r, key);
    NotReplaced(r, schedule, key);
  }

  datatype SyncRun = SyncRun(request: Request, schedule: seq<Action>)

  function EndOf(x: SyncRun): Store {
    After(x.request, x.schedule).dst
  }

  /** Everything a run is asked to satisfy except what concerns the destination's content. */
  ghost predicate Callable(r: Request) {
    && CleanName(SrcPrefix(r)) && CleanName(DstPrefix(r)) && DirName(r.opts.conflictDir)
    && Apart(DstPrefix(r), r.opts.conflictDir)
    && CanonicalKeys(r.src) && Below(r.src, SrcPrefix(r))
    && r.stamps != {} && (forall ts :: ts in r.stamps ==> IsStamp(ts))
    && Lists(r.srcList, r.src, SrcPrefix(r))
    && (r.dstListed ==> Lists(r.dstList, r.dst, DstPrefix(r)))
  }

  /** Runs one after another on one destination prefix with one conflict directory, from any
      sources, each run finished, failed or abandoned anywhere; the clock never shows the
      same time in two of them. */
  ghost predicate Chain(runs: seq<SyncRun>) {
    && (forall n :: 0 <= n < |runs| ==> Callable(runs[n].request))
    && (forall n :: 0 < n < |runs| ==>
          && runs[n].request.dst == EndOf(runs[n - 1])
          && DstPrefix(runs[n].request) == DstPrefix(runs[0].request)
          && runs[n].request.opts.conflictDir == runs[0].request.opts.conflictDir)
    && (forall n, m :: 0 <= n < m < |runs| ==> runs[n].request.stamps !! runs[m].request.stamps)
    && (runs != [] ==>
          && CanonicalKeys(runs[0].request.dst) && Below(runs[0].request.dst, DstPrefix(runs[0].request))
          && forall n :: 0 <= n < |runs| ==>
               Fresh(runs[0].request.dst, runs[0].request.opts.conflictDir, runs[n].request.stamps))
  }

  /** What one run leaves keeps later clock readings fresh. */
  lemma StaysFresh(x: SyncRun, stamps: set<string>)
    requires WellFormed(x.request)
    requires Fresh(x.request.dst, x.request.opts.conflictDir, stamps) && stamps !! x.request.stamps
    requires forall ts :: ts in stamps ==> IsStamp(ts)
    ensures Fresh(EndOf(x), x.request.opts.conflictDir, stamps)
  {
    var r := x.request;
    forall key, ts | key in EndOf(x) && ts in stamps && UnderDir(BackupDir(r.opts.conflictDir), key)
      ensures !EndsWithStamp(key, ts)
    {
      if key !in r.dst && EndsWithStamp(key, ts) {
        KeysOfRun(r, x.schedule, key);
        UnderDirIsLeftAlone(r, key);
        assert !TaskPath(r, key) by { TaskPathIsKey(r, key); }
        var us :| us in r.stamps && EndsWithStamp(key, us);
        StampUnique(key, ts, us);
      }
    }
  }

  lemma TaskPathIsKey(r: Request, key: string)
    ensures TaskPath(r, key) ==> key in TaskKeys(Plan(r))
  {
    if TaskPath(r, key) {
      var t :| t in Plan(r).tasks && t.destPath == key;
      var i :| 0 <= i < |Plan(r).tasks| && Plan(r).tasks[i] == t;
    }
  }

  /** Each run of a chain finds a destination it can work with, on which no later clock
      reading has been used. */
  lemma {:induction false} ChainAt(runs: seq<SyncRun>, n: nat)
    requires Chain(runs) && n < |runs|
    ensures WellFormed(runs[n].request)
    ensures forall m :: n <= m < |runs| ==>
              Fresh(runs[n].request.dst, runs[0].request.opts.conflictDir, runs[m].request.stamps)
  {
    if n > 0 {
      ChainAt(runs, n - 1);
      DestinationStaysNamed(runs[n - 1].request, runs[n - 1].schedule);
      forall m | n <= m < |runs|
        ensures Fresh(runs[n].request.dst, runs[0].request.opts.conflictDir, runs[m].request.stamps)
      {
        StaysFresh(runs[n - 1], runs[m].request.stamps);
      }
    }
  }

  lemma RunKeepsBackup(runs: seq<SyncRun>, n: nat, key: string)
    requires Chain(runs) && n < |runs|
    requires key in runs[n].request.dst && UnderDir(BackupDir(runs[0].request.opts.conflictDir), key)
    ensures Lookup(EndOf(runs[n]), key) == Lookup(runs[n].request.dst, key)
  {
    ChainAt(runs, n);
    BackupsUntouched(runs[n].request, runs[n].schedule, key);
  }

  /** Over any chain of runs, a backup present when some run begins is unchanged in every
      state of that run and of every later one. */
  lemma {:induction false} BackupsSurvive(runs: seq<SyncRun>, n: nat, m: nat, key: string)
    requires Chain(runs) && n <= m < |runs|
    requires key in runs[n].request.dst && UnderDir(BackupDir(runs[0].request.opts.conflictDir), key)
    ensures Lookup(EndOf(runs[m]), key) == Lookup(runs[n].request.dst, key)
    decreases m
  {
    if n < m {
      BackupsSurvive(runs, n, m - 1, key);
      assert Lookup(runs[m].request.dst, key).Some?;
    }
    RunKeepsBackup(runs, m, key);
  }
}

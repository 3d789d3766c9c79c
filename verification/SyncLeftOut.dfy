/** What a sync leaves alone: names the conflict filter takes for backups, and extra names
    after a failed listing. */
module SyncLeftOut {
  import opened Prelude
  import opened Text
  import opened Comparator
  import opened Names
  import opened SyncEngine
  import opened SyncExact
  import opened SyncPlan
  import opened SyncPromises

  // ---------------------------------------------------------------- names taken for backups

  /** The names the filter is for: those under the default or the given conflict directory. */
  predicate InConflictDir(rel: string, conflictDir: string) {
    UnderDir(DEFAULT_CONFLICT_DIR, rel) || UnderDir(FilteredDir(conflictDir), rel)
  }

  lemma NotUnderBackups(r: Request, rel: string)
    requires NamesOk(r) && Apart(DstPrefix(r), r.opts.conflictDir) && !InConflictDir(rel, r.opts.conflictDir)
    ensures !UnderDir(BackupDir(r.opts.conflictDir), DestPath(DstPrefix(r), rel))
  {
    BackupsAreFiltered(r.opts.conflictDir);
    if DstPrefix(r) != "" {
      KeyHasPrefix(DstPrefix(r), rel);
      PrefixesOfOne(DstPrefix(r), BackupDir(r.opts.conflictDir) + "/", DestPath(DstPrefix(r), rel));
    }
  }

  /** A name that starts like a conflict directory is left out, wherever it is: no state of
      any run changes it at the destination. */
  lemma LeftOut(r: Request, schedule: seq<Action>, rel: string)
    requires WellFormed(r) && !Live(rel, r.opts.conflictDir)
    requires !UnderDir(BackupDir(r.opts.conflictDir), DestPath(DstPrefix(r), rel))
    ensures DstAt(r, After(r, schedule).dst, rel) == DstAt(r, r.dst, rel)
  {
    var j, key := Plan(r), DestPath(DstPrefix(r), rel);
    forall t | t in j.tasks ensures t.destPath != key {
      PlannedTask(r, t);
      if t.destPath == key { JoinInjective(DstPrefix(r), rel, t.rel); }
    }
    NotOnList(r, rel);
    NotTouched(r, schedule, key);
  }

  /** Every uncancelled run without error brings over every source name that is not under a
      conflict directory. */
  ghost predicate MirrorsEveryName(r: Request) {
    forall schedule, rel ::
      Succeeded(After(r, schedule)) && !InConflictDir(rel, r.opts.conflictDir) && SrcAt(r, rel).Some? ==>
        DstAt(r, After(r, schedule).dst, rel) == SrcAt(r, rel)
  }

  /** A source name not under a conflict directory that a successful run fails: the filter
      skips it or the source listing stops short of it, and the destination does not hold the
      object, or is about to lose it to the delete loop. */
  predicate LeftBehind(r: Request, rel: string) {
    && !InConflictDir(rel, r.opts.conflictDir) && SrcAt(r, rel).Some?
    && if Live(rel, r.opts.conflictDir)
       then !SrcSeen(r, rel) && ((r.opts.delete && DstSeen(r, rel)) || DstAt(r, r.dst, rel) != SrcAt(r, rel))
       else DstAt(r, r.dst, rel) != SrcAt(r, rel)
  }

  lemma EveryNameEnds(r: Request, schedule: seq<Action>, rel: string)
    requires WellFormed(r) && r.opts.checksum && Injective(r.hash) && !r.opts.dryRun
    requires Succeeded(After(r, schedule)) && !InConflictDir(rel, r.opts.conflictDir)
    ensures DstAt(r, After(r, schedule).dst, rel)
            == if Live(rel, r.opts.conflictDir) then EndsAs(r, rel) else DstAt(r, r.dst, rel)
  {
    if Live(rel, r.opts.conflictDir) {
      LiveNameEnds(r, schedule, rel);
    } else {
      NotUnderBackups(r, rel);
      LeftOut(r, schedule, rel);
    }
  }

  /** "Success" means "every name mirrored" exactly when no source name is left behind, by the
      filter or by a listing that stops short. */
  lemma EveryNameExactly(r: Request)
    requires WellFormed(r) && r.opts.checksum && Injective(r.hash) && !r.opts.dryRun
    ensures MirrorsEveryName(r) <==> forall rel :: !LeftBehind(r, rel)
  {
    if rel :| LeftBehind(r, rel) {
      PlanIsSound(r);
      var schedule := CompletedRunExists(Plan(r));
      assert Succeeded(After(r, schedule));
      EveryNameEnds(r, schedule, rel);
    } else {
      forall schedule, rel
        | Succeeded(After(r, schedule)) && !InConflictDir(rel, r.opts.conflictDir) && SrcAt(r, rel).Some?
        ensures DstAt(r, After(r, schedule).dst, rel) == SrcAt(r, rel)
      {
        EveryNameEnds(r, schedule, rel);
        assert !LeftBehind(r, rel);
      }
    }
  }

  // ---------------------------------------------------------------- deletion and short listings

  /** Every uncancelled run without error leaves the two sides with the same live names and
      bytes. */
  ghost predicate DeleteMirrors(r: Request) {
    forall schedule, rel :: Succeeded(After(r, schedule)) && Live(rel, r.opts.conflictDir) ==>
      DstAt(r, After(r, schedule).dst, rel) == SrcAt(r, rel)
  }

  /** A live name the source listing does not show and on which the two sides will differ: it
      is in the source all the same and deleted at the destination, or it is not seen at the
      destination either and differs already. */
  predicate Strays(r: Request, rel: string) {
    && Live(rel, r.opts.conflictDir) && !SrcSeen(r, rel)
    && if DstSeen(r, rel) then SrcAt(r, rel).Some? else DstAt(r, r.dst, rel) != SrcAt(r, rel)
  }

  /** With `--delete`, success makes the live names equal exactly when no name strays: with
      complete listings always, after a failed destination listing when it had nothing extra. */
  lemma DeleteMirrorsExactly(r: Request)
    requires WellFormed(r) && r.opts.checksum && Injective(r.hash) && !r.opts.dryRun && r.opts.delete
    ensures DeleteMirrors(r) <==> forall rel :: !Strays(r, rel)
  {
    if rel :| Strays(r, rel) {
      PlanIsSound(r);
      var schedule := CompletedRunExists(Plan(r));
      assert Succeeded(After(r, schedule));
      LiveNameEnds(r, schedule, rel);
    } else {
      forall schedule, rel | Succeeded(After(r, schedule)) && Live(rel, r.opts.conflictDir)
        ensures DstAt(r, After(r, schedule).dst, rel) == SrcAt(r, rel)
      {
        LiveNameEnds(r, schedule, rel);
        assert !Strays(r, rel);
      }
    }
  }

  /** A live name the destination has and the source has not. */
  predicate Extra(r: Request, rel: string) {
    Live(rel, r.opts.conflictDir) && SrcAt(r, rel) == None && DstAt(r, r.dst, rel).Some?
  }

  /** With a complete source listing, a `--delete` run whose destination listing is complete or
      failed mirrors exactly when it is complete or there was nothing extra. */
  lemma DeleteNeedsListing(r: Request)
    requires WellFormed(r) && r.opts.checksum && Injective(r.hash) && !r.opts.dryRun && r.opts.delete
    requires Covers(r.srcList, r.src, SrcPrefix(r)) && (SeesAll(r) || !r.dstListed)
    ensures DeleteMirrors(r) <==> r.dstListed || forall rel :: !Extra(r, rel)
  {
    DeleteMirrorsExactly(r);
    forall rel ensures Strays(r, rel) <==> !r.dstListed && Extra(r, rel) {
      SeenIfThere(r, rel);
    }
  }
}

/** `Sync` itself over two in-memory drivers, with one worker: listing, planning, the task
    loop and the delete loop, step by step. */
module Sync {
  import opened Prelude
  import opened Text
  import opened Keys
  import opened Listing
  import opened MockStore
  import opened Comparator
  import opened Names
  import opened SyncEngine
  import opened SyncInvariant
  import opened SyncSequential
  import opened SyncPlan

  /** `BackupConflict` with a conflict directory on the destination driver: the file must be
      there, and its bytes are copied under the stamped name. The context is cancelled after
      `live` driver calls. */
  method BackupConflict(dst: MockDriver, relPath: string, conflictDir: string, stamp: string, now: int, live: nat)
    returns (r: Result<string, Error>)
    requires dst.Valid()
    modifies dst
    ensures dst.Valid()
    ensures r.Ok? <==> live >= 3 && old(Get(dst.objects, relPath)).Some?
                       && NormalizeKey(BackupPath(conflictDir, relPath, stamp)) != ""
    ensures r.Ok? ==> r.value == BackupPath(conflictDir, relPath, stamp)
                      && dst.objects == Put(old(dst.objects), r.value, old(Get(dst.objects, relPath)).value)
    ensures r.Err? ==> dst.objects == old(dst.objects)
    ensures r.Err? ==> r.error == if live < 1 then Cancelled
                                  else if old(Get(dst.objects, relPath)) == None then NotFound
                                  else if live < 3 then Cancelled
                                  else InvalidPath
  {
    var dir := if conflictDir == "" then DEFAULT_CONFLICT_DIR else conflictDir;
    var normalized := TrimPrefix(ReplaceBackslashes(relPath), "/");
    var info := dst.Stat(relPath, live < 1);
    if info.Err? { return Err(info.error); }
    var rc := dst.Read(relPath, live < 2);
    if rc.Err? { return Err(rc.error); }
    var conflictPath := Clean(dir) + "/" + (normalized + BackupTail(stamp));
    var w := dst.WriteWithOptions(conflictPath, rc.value, true, now, live < 3);
    if w.Err? { return Err(w.error); }
    return Ok(conflictPath);
  }

  /** `Comparator.Compare`: without a destination object the answer is New. */
  method Compare(src: MockDriver, srcInfo: ObjectInfo, dst: MockDriver, destInfo: Option<ObjectInfo>,
                 checksum: bool, hash: bytes -> string, wraps: bool) returns (r: Result<DiffStatus, Error>)
    requires src.Valid() && dst.Valid()
    ensures destInfo == None ==> r == Ok(New)
    ensures destInfo.Some? && !checksum ==> r == Ok(CompareMeta(srcInfo, destInfo.value, wraps))
    ensures destInfo.Some? && checksum ==>
              var s, d := Get(src.objects, srcInfo.path), Get(dst.objects, destInfo.value.path);
              r == if s.Some? && d.Some? then Ok(if hash(s.value) == hash(d.value) then Identical else Conflict)
                   else Err(NotFound)
  {
    if destInfo == None { return Ok(New); }
    if checksum {
      var s := src.Read(srcInfo.path, false);
      if s.Err? { return Err(s.error); }
      var d := dst.Read(destInfo.value.path, false);
      if d.Err? { return Err(d.error); }
      return Ok(CompareHash(hash(s.value), hash(d.value)));
    }
    return Ok(CompareMeta(srcInfo, destInfo.value, wraps));
  }

  /** The objects the comparison of a task reads are there. */
  predicate Comparable(j: Job, i: nat, dst: Store)
    requires i < |j.tasks|
  {
    var t := j.tasks[i];
    t.rel in j.destMap && j.opts.checksum ==> Get(j.src, t.obj.path).Some? && Get(dst, j.destMap[t.rel].path).Some?
  }

  /** The object to be backed up is there, and its backup has a name. */
  predicate Savable(j: Job, i: nat, ts: string, dst: Store)
    requires i < |j.tasks|
  {
    j.tasks[i].rel in j.destMap && !j.opts.noBackup && !j.opts.dryRun ==>
      Get(dst, j.tasks[i].destPath).Some? && NormalizeKey(BackupKey(j, i, ts)) != ""
  }

  predicate Copyable(j: Job, i: nat)
    requires i < |j.tasks|
  {
    !j.opts.dryRun ==> Get(j.src, j.tasks[i].obj.path).Some? && NormalizeKey(j.tasks[i].destPath) != ""
  }

  /** Whether a task can be carried through from here. */
  predicate Ready(j: Job, i: nat, ts: string, dst: Store)
    requires i < |j.tasks|
  {
    Comparable(j, i, dst) && (Verdict(j, i, dst) != Identical ==> Savable(j, i, ts, dst) && Copyable(j, i))
  }

  method CompareTask(j: Job, i: nat, src: MockDriver, dst: MockDriver) returns (r: Result<DiffStatus, Error>)
    requires i < |j.tasks| && src.Valid() && dst.Valid() && src.objects == j.src
    ensures r == if Comparable(j, i, dst.objects) then Ok(Verdict(j, i, dst.objects)) else Err(NotFound)
  {
    var t := j.tasks[i];
    var destInfo := if t.rel in j.destMap then Some(j.destMap[t.rel]) else None;
    r := Compare(src, t.obj, dst, destInfo, j.opts.checksum, j.hash, j.wraps);
  }

  class SyncStats {
    var transferredFiles: int
    var transferredBytes: int
    var updatedFiles: int
    var updatedBytes: int
    var conflictFiles: int
    var skippedFiles: int
    var deletedFiles: int
    var conflicts: seq<string>

    function Values(): Stats
      reads this
    {
      Stats(transferredFiles, transferredBytes, updatedFiles, updatedBytes,
            conflictFiles, skippedFiles, deletedFiles, conflicts)
    }

    constructor ()
      ensures Values() == NO_STATS
    {
      transferredFiles, transferredBytes, updatedFiles, updatedBytes := 0, 0, 0, 0;
      conflictFiles, skippedFiles, deletedFiles := 0, 0, 0;
      conflicts := [];
    }

    /** The conflict branch of the worker loop. */
    method SaveConflict(j: Job, i: nat, dst: MockDriver, ts: string, now: int) returns (error: Option<Error>)
      requires i < |j.tasks| && dst.Valid()
      modifies this, dst
      ensures dst.Valid() && (error.None? <==> Savable(j, i, ts, old(dst.objects)))
      ensures Acc(dst.objects, Values()) ==
                var was := Acc(old(dst.objects), old(Values())); if error.None? then Saved(j, i, was, ts) else was
    {
      if j.tasks[i].rel in j.destMap && !j.opts.noBackup {
        if !j.opts.dryRun {
          var saved := BackupConflict(dst, j.tasks[i].destPath, j.opts.conflictDir, ts, now, 3);
          if saved.Err? {
            return Some(saved.error);
          }
          conflicts := conflicts + [saved.value];
        }
        conflictFiles := conflictFiles + 1;
      }
      return None;
    }

    /** Reading the source object and writing it to the destination. */
    method CopyObject(j: Job, i: nat, src: MockDriver, dst: MockDriver, now: int) returns (error: Option<Error>)
      requires i < |j.tasks| && src != dst && src.Valid() && dst.Valid() && src.objects == j.src
      modifies dst
      ensures dst.Valid() && (error.None? <==> Copyable(j, i))
      ensures dst.objects == if error.None? then Copied(j, i, old(dst.objects)) else old(dst.objects)
    {
      if !j.opts.dryRun {
        var rc := src.Read(j.tasks[i].obj.path, false);
        if rc.Err? {
          return Some(rc.error);
        }
        var w := dst.WriteWithOptions(j.tasks[i].destPath, rc.value, true, now, false);
        if w.Err? {
          return Some(w.error);
        }
      }
      return None;
    }

    method CountObject(j: Job, i: nat)
      requires i < |j.tasks|
      modifies this
      ensures Values() == Counted(j, i, old(Values()))
    {
      var t := j.tasks[i];
      if t.rel in j.destMap {
        updatedFiles := updatedFiles + 1;
        updatedBytes := updatedBytes + t.obj.size;
      } else {
        transferredFiles := transferredFiles + 1;
        transferredBytes := transferredBytes + t.obj.size;
      }
    }

    /** One round of the worker loop. It succeeds exactly when the task can be carried through,
        and then destination and counters are what the reference says; when it fails, nothing
        has changed, or a backup was made and counted before the copy failed. */
    method ProcessOne(j: Job, i: nat, src: MockDriver, dst: MockDriver, ts: string, now: int)
      returns (error: Option<Error>)
      requires i < |j.tasks| && src != dst && src.Valid() && dst.Valid() && src.objects == j.src
      modifies this, dst
      ensures dst.Valid() && (error.None? <==> Ready(j, i, ts, old(dst.objects)))
      ensures error.None? ==>
                Acc(dst.objects, Values()) == ProcessTask(j, i, Acc(old(dst.objects), old(Values())), ts)
      ensures error.Some? ==>
                Acc(dst.objects, Values()) ==
                var was := Acc(old(dst.objects), old(Values()));
                if Comparable(j, i, was.dst) && Savable(j, i, ts, was.dst) then Saved(j, i, was, ts) else was
    {
      var status := CompareTask(j, i, src, dst);
      if status.Err? {
        return Some(status.error);
      }
      if status.value == Identical {
        skippedFiles := skippedFiles + 1;
        return None;
      }
      error := SaveConflict(j, i, dst, ts, now);
      if error.Some? {
        return;
      }
      error := CopyObject(j, i, src, dst, now);
      if error.Some? {
        return;
      }
      CountObject(j, i);
    }

    /** The destination and the counters once the first `i` tasks are processed. */
    ghost predicate At(j: Job, i: nat, stamps: seq<string>, src: MockDriver, dst: MockDriver)
      reads this, src, dst
    {
      && src != dst && src.Valid() && dst.Valid() && src.objects == j.src
      && i <= |j.tasks| == |stamps|
      && Acc(dst.objects, Values()) == ProcessFirst(j, i, stamps)
    }

    method Turn(j: Job, i: nat, src: MockDriver, dst: MockDriver, stamps: seq<string>, now: int)
      returns (error: Option<Error>)
      requires i < |stamps| && At(j, i, stamps, src, dst)
      modifies this, dst
      ensures error.None? ==> ReadyAt(j, i, stamps) && At(j, i + 1, stamps, src, dst)
      ensures error.Some? ==> dst.Valid() && StopsAt(j, i, stamps, Acc(dst.objects, Values()))
    {
      error := ProcessOne(j, i, src, dst, stamps[i], now);
    }

    /** The task loop leaves what the reference leaves, or ends with an error at the first task
        that does not find what it needs when its turn comes. */
    method ProcessTasks(j: Job, src: MockDriver, dst: MockDriver, stamps: seq<string>, now: int)
      returns (error: Option<Error>)
      requires At(j, 0, stamps, src, dst)
      modifies this, dst
      ensures dst.Valid() && (error.None? <==> InTurn(j, stamps))
      ensures error.None? ==> At(j, |j.tasks|, stamps, src, dst)
      ensures error.Some? ==> Stops(j, stamps, Acc(dst.objects, Values()))
    {
      var i, n := 0, |j.tasks|;
      while i < n
        invariant 0 <= i <= n && At(j, i, stamps, src, dst) && ReadyUpTo(j, i, stamps)
      {
        error := Turn(j, i, src, dst, stamps, now);
        if error.Some? {
          return;
        }
        i := i + 1;
      }
      return None;
    }

    /** One round of the delete loop. */
    method DeleteRound(destMap: map<string, ObjectInfo>, srcNames: set<string>, dryRun: bool, dst: MockDriver,
                       rel: string, ghost left: set<string>, ghost was: Store)
      requires dst.Valid() && rel in left && left <= destMap.Keys
      requires NormalizeKey(destMap[rel].path) == destMap[rel].path
      requires Round(was, destMap, srcNames, left, dryRun, dst.objects, deletedFiles)
      modifies this`deletedFiles, dst
      ensures dst.Valid() && Round(was, destMap, srcNames, left - {rel}, dryRun, dst.objects, deletedFiles)
    {
      NextRound(was, destMap, srcNames, left, dryRun, dst.objects, deletedFiles, rel);
      if rel !in srcNames {
        if !dryRun {
          var r := dst.Delete(destMap[rel].path, false);
        }
        deletedFiles := deletedFiles + 1;
      }
    }

    /** The delete loop, in whatever order the names come. */
    method DeleteExtraneous(destMap: map<string, ObjectInfo>, srcNames: set<string>, dryRun: bool, dst: MockDriver)
      requires dst.Valid() && deletedFiles == 0
      requires forall rel :: rel in destMap ==> NormalizeKey(destMap[rel].path) == destMap[rel].path
      modifies this`deletedFiles, dst
      ensures dst.Valid()
      ensures Round(old(dst.objects), destMap, srcNames, {}, dryRun, dst.objects, deletedFiles)
    {
      var left := destMap.Keys;
      ghost var was := dst.objects;
      FirstRound(was, destMap, srcNames, dryRun);
      while left != {}
        invariant left <= destMap.Keys && dst.Valid()
        invariant Round(was, destMap, srcNames, left, dryRun, dst.objects, deletedFiles)
        decreases left
      {
        var rel :| rel in left;
        DeleteRound(destMap, srcNames, dryRun, dst, rel, left, was);
        left := left - {rel};
      }
    }

    /** What follows the task loop. */
    method DeletePhase(j: Job, dst: MockDriver, stamps: seq<string>)
      requires dst.Valid() && |stamps| == |j.tasks|
      requires Acc(dst.objects, Values()) == ProcessFirst(j, |j.tasks|, stamps)
      requires forall rel :: rel in j.destMap ==> NormalizeKey(j.destMap[rel].path) == j.destMap[rel].path
      modifies this`deletedFiles, dst
      ensures dst.Valid() && Acc(dst.objects, Values()) == Sequential(j, stamps)
    {
      ProcessDeletes(j, |j.tasks|, stamps);
      if j.opts.delete {
        DeleteExtraneous(j.destMap, j.srcNames, j.opts.dryRun, dst);
      }
      FinishReference(j, stamps, dst.objects, deletedFiles);
    }
  }

  /** Store and counter when the names in `left` are still to come. */
  predicate Round(was: Store, destMap: map<string, ObjectInfo>, srcNames: set<string>, left: set<string>,
                  dryRun: bool, dst: Store, deleted: int)
  {
    && deleted == |destMap.Keys - left - srcNames|
    && dst == Without(was, destMap, destMap.Keys - left - srcNames, dryRun)
  }

  lemma FirstRound(was: Store, destMap: map<string, ObjectInfo>, srcNames: set<string>, dryRun: bool)
    ensures Round(was, destMap, srcNames, destMap.Keys, dryRun, was, 0)
  {
    assert destMap.Keys - destMap.Keys - srcNames == {};
    WithoutNone(was, destMap, dryRun);
  }

  lemma NextRound(was: Store, destMap: map<string, ObjectInfo>, srcNames: set<string>, left: set<string>,
                  dryRun: bool, dst: Store, deleted: int, rel: string)
    requires Round(was, destMap, srcNames, left, dryRun, dst, deleted) && rel in left && left <= destMap.Keys
    ensures rel in srcNames ==> Round(was, destMap, srcNames, left - {rel}, dryRun, dst, deleted)
    ensures rel !in srcNames ==>
              Round(was, destMap, srcNames, left - {rel}, dryRun,
                    if dryRun then dst else dst - {destMap[rel].path}, deleted + 1)
  {
    var gone := destMap.Keys - left - srcNames;
    assert destMap.Keys - (left - {rel}) - srcNames == gone + if rel in srcNames then {} else {rel};
    assert gone + {} == gone;
    WithoutOne(was, destMap, gone, rel, dryRun);
  }

  /** The store with the objects of some names removed, unless nothing is to be removed. */
  function Without(st: Store, destMap: map<string, ObjectInfo>, rels: set<string>, dryRun: bool): Store {
    st - if dryRun then {} else PathsOf(destMap, rels)
  }

  lemma WithoutNone(st: Store, destMap: map<string, ObjectInfo>, dryRun: bool)
    ensures Without(st, destMap, {}, dryRun) == st
  {
    assert PathsOf(destMap, {}) == {};
    assert st - {} == st;
  }

  lemma WithoutOne(st: Store, destMap: map<string, ObjectInfo>, rels: set<string>, rel: string, dryRun: bool)
    requires rel in destMap
    ensures Without(st, destMap, rels + {rel}, dryRun) ==
              if dryRun then Without(st, destMap, rels, dryRun)
              else Without(st, destMap, rels, dryRun) - {destMap[rel].path}
  {
    var paths, path := PathsOf(destMap, rels), destMap[rel].path;
    assert PathsOf(destMap, rels + {rel}) == paths + {path};
    assert st - (paths + {path}) == (st - paths) - {path};
  }

  function PathsOf(destMap: map<string, ObjectInfo>, rels: set<string>): set<string> {
    set rel | rel in rels && rel in destMap :: destMap[rel].path
  }

  /** What the in-memory driver lists is a complete listing of its objects. */
  lemma MockLists(objs: seq<ObjectInfo>, d: MockDriver, prefix: string)
    requires d.Valid() && InfosOf(objs, d.info, Matching(d.info, prefix))
    ensures Lists(objs, d.objects, prefix) && Covers(objs, d.objects, prefix)
  {
    var keys := Matching(d.info, prefix);
    forall o | o in objs ensures o.path in d.objects && prefix <= o.path && o.size == |d.objects[o.path]| {
      var n :| 0 <= n < |objs| && objs[n] == o;
      assert keys[n] in keys;
    }
    forall k | k in d.objects && prefix <= k ensures exists o :: o in objs && !o.isDir && o.path == k {
      assert k in keys;
      var n :| 0 <= n < |keys| && keys[n] == k;
      assert objs[n] in objs && objs[n].path == k;
    }
    forall n, m | 0 <= n < m < |objs| ensures objs[n].path != objs[m].path {
      LessIrreflexive(keys[n]);
      assert keys[n] in d.info && keys[m] in d.info;
    }
  }

  lemma ReadyInTurn(j: Job, i: nat, stamps: seq<string>)
    requires JobOk(j) && i < |j.tasks| == |stamps|
    requires forall n :: 0 <= n < |stamps| ==> stamps[n] in j.stamps
    ensures ReadyAt(j, i, stamps)
  {
    ProcessFirstOk(j, i, stamps);
    Untouched(j, ProcessFirst(j, i, stamps).dst, DoneFirst(j, i, stamps), {}, i);
    assert TaskOk(j, i);
  }

  predicate ReadyAt(j: Job, i: nat, stamps: seq<string>) {
    i < |j.tasks| == |stamps| && Ready(j, i, stamps[i], ProcessFirst(j, i, stamps).dst)
  }

  predicate ReadyUpTo(j: Job, n: nat, stamps: seq<string>) {
    forall i {:trigger ReadyAt(j, i, stamps)} :: 0 <= i < n ==> ReadyAt(j, i, stamps)
  }

  /** Each task finds what it needs when its turn comes. */
  predicate InTurn(j: Job, stamps: seq<string>) {
    |stamps| == |j.tasks| && ReadyUpTo(j, |stamps|, stamps)
  }

  /** Task `i` is the first that does not, with the tasks before it done and at most its own
      backup made and counted. */
  predicate StopsAt(j: Job, i: nat, stamps: seq<string>, a: Acc) {
    && i < |j.tasks| == |stamps| && !ReadyAt(j, i, stamps)
    && var was := ProcessFirst(j, i, stamps);
       a == if Comparable(j, i, was.dst) && Savable(j, i, stamps[i], was.dst) then Saved(j, i, was, stamps[i]) else was
  }

  predicate Stops(j: Job, stamps: seq<string>, a: Acc) {
    exists i :: 0 <= i < |j.tasks| && StopsAt(j, i, stamps, a) && ReadyUpTo(j, i, stamps)
  }

  lemma AllInTurn(r: Request, stamps: seq<string>)
    requires Sane(r) && Separate(r) && |stamps| == |Plan(r).tasks|
    requires forall n :: 0 <= n < |stamps| ==> stamps[n] in r.stamps
    ensures InTurn(Plan(r), stamps)
  {
    SeparateIsSound(r);
    forall i | 0 <= i < |stamps| ensures ReadyAt(Plan(r), i, stamps) {
      ReadyInTurn(Plan(r), i, stamps);
    }
  }

  /** The paths in the destination map are keys. */
  predicate OnKeys(destMap: map<string, ObjectInfo>) {
    forall rel :: rel in destMap ==> NormalizeKey(destMap[rel].path) == destMap[rel].path
  }

  lemma ListedOnKeys(list: seq<ObjectInfo>, st: Store, prefix: string, clean: string, conflictDir: string)
    requires CanonicalKeys(st) && Lists(list, st, prefix)
    ensures OnKeys(DestMapOf(list, clean, conflictDir))
  {
    DestMapFacts(list, clean, conflictDir);
    var m := DestMapOf(list, clean, conflictDir);
    forall rel | rel in m ensures NormalizeKey(m[rel].path) == m[rel].path {
      assert Entry(list, clean, conflictDir, rel, m[rel]);
      CanonicalFixed(m[rel].path);
    }
  }

  /** Timestamps of the right shape. */
  ghost predicate ClockOk(clock: nat -> string) {
    forall i: nat :: IsStamp(clock(i))
  }

  ghost predicate Asks(r: Request, src: Store, srcPrefix: string, dst: Store, dstPrefix: string, opts: Options,
                       destListable: bool, hash: bytes -> string)
  {
    && r.dstListed == destListable && r.src == src && r.dst == dst && r.opts == opts && r.hash == hash
    && r.srcPrefix == srcPrefix && r.dstPrefix == dstPrefix
  }

  /** Names a sync between two stores can work with. */
  predicate NamesFit(src: Store, srcPrefix: string, dst: Store, dstPrefix: string, conflictDir: string) {
    && CleanName(Clean(srcPrefix)) && CleanName(Clean(dstPrefix)) && DirName(conflictDir)
    && Apart(Clean(dstPrefix), conflictDir)
    && Below(src, Clean(srcPrefix)) && Below(dst, Clean(dstPrefix))
  }

  /** What listing both drivers comes to; with names a sync can work with, a well-formed request
      that lists the source, and the destination if that can be listed, in full. */
  ghost predicate Found(r: Request, src: MockDriver, dst: MockDriver, destListable: bool)
    reads src, dst
  {
    && src.Valid() && dst.Valid()
    && InfosOf(r.srcList, src.info, Matching(src.info, NormalizeKey(r.srcPrefix)))
    && (destListable ==> InfosOf(r.dstList, dst.info, Matching(dst.info, NormalizeKey(r.dstPrefix))))
    && (NamesFit(src.objects, r.srcPrefix, dst.objects, r.dstPrefix, r.opts.conflictDir) ==>
          WellFormed(r) && Covers(r.srcList, r.src, SrcPrefix(r)) && (destListable ==> SeesAll(r)))
  }

  lemma FoundIsWellFormed(r: Request, src: MockDriver, dst: MockDriver)
    requires src.Valid() && dst.Valid() && r.src == src.objects && r.dst == dst.objects
    requires NamesFit(src.objects, r.srcPrefix, dst.objects, r.dstPrefix, r.opts.conflictDir)
    requires r.stamps != {} && forall ts :: ts in r.stamps ==> IsStamp(ts)
    requires InfosOf(r.srcList, src.info, Matching(src.info, NormalizeKey(r.srcPrefix)))
    requires r.dstListed ==> InfosOf(r.dstList, dst.info, Matching(dst.info, NormalizeKey(r.dstPrefix)))
    ensures WellFormed(r) && Covers(r.srcList, r.src, SrcPrefix(r)) && (r.dstListed ==> SeesAll(r))
  {
    ListedPrefix(r.srcPrefix);
    ListedPrefix(r.dstPrefix);
    MockLists(r.srcList, src, SrcPrefix(r));
    if r.dstListed { MockLists(r.dstList, dst, DstPrefix(r)); }
  }

  /** Listing both sides and planning the run. A source that cannot be listed ends the sync
      with that error; a destination that cannot be listed counts as empty. */
  method MakePlan(src: MockDriver, srcPrefix: string, dst: MockDriver, dstPrefix: string, opts: Options,
                  srcFailure: Option<Error>, destListable: bool, hash: bytes -> string, clock: nat -> string,
                  wraps: bool)
    returns (r: Result<Job, Error>, ghost request: Request)
    requires src.Valid() && dst.Valid() && ClockOk(clock)
    ensures match srcFailure
            case Some(e) => r == Err(e)
            case None =>
              && r == Ok(Plan(request)) && Found(request, src, dst, destListable) && OnKeys(r.value.destMap)
              && Asks(request, src.objects, srcPrefix, dst.objects, dstPrefix, opts, destListable, hash)
              && forall i: nat :: i <= |r.value.tasks| ==> clock(i) in r.value.stamps
  {
    if srcFailure.Some? {
      request := Request(src.objects, srcPrefix, [], dst.objects, dstPrefix, false, [], opts, hash, {}, 1, false,
                         wraps);
      return Err(srcFailure.value), request;
    }
    var srcObjects := src.List(srcPrefix, false);
    var destObjects := dst.List(dstPrefix, false);
    var destList := if destListable then destObjects.value else [];
    var destMap := BuildDestMap(destList, dstPrefix, opts.conflictDir);
    var tasks, srcNames := BuildTasks(srcObjects.value, srcPrefix, dstPrefix, opts.conflictDir);
    var shown := Shown(clock, |tasks|);
    request := Request(src.objects, srcPrefix, srcObjects.value, dst.objects, dstPrefix, destListable, destList,
                       opts, hash, shown, 1, false, wraps);
    if NamesFit(src.objects, srcPrefix, dst.objects, dstPrefix, opts.conflictDir) {
      FoundIsWellFormed(request, src, dst);
    }
    MockLists(destObjects.value, dst, NormalizeKey(dstPrefix));
    ListedOnKeys(destList, dst.objects, NormalizeKey(dstPrefix), Clean(dstPrefix), opts.conflictDir);
    return Ok(Job(src.objects, dst.objects, tasks, destMap, srcNames, opts, hash, shown, 1, false, wraps)), request;
  }

  function StampsOf(clock: nat -> string, n: nat): seq<string> {
    seq(n, (i: nat) => clock(i))
  }

  /** A whole sync between any two drivers with any names: `request` is what it found. It
      succeeds exactly when each task finds what it needs in its turn, as it does when the names
      do not run into one another, and then the outcome is the sequential reference on the plan;
      otherwise it stops at the first task that does not. The clock shows `clock(i)` when the
      i-th task is backed up. */
  method Run(src: MockDriver, srcPrefix: string, dst: MockDriver, dstPrefix: string, opts: Options,
             srcFailure: Option<Error>, destListable: bool, hash: bytes -> string, clock: nat -> string, now: int,
             wraps: bool)
    returns (r: Result<SyncStats, Error>, ghost request: Request)
    requires src != dst && src.Valid() && dst.Valid() && ClockOk(clock)
    modifies dst
    ensures dst.Valid()
    ensures match srcFailure
            case Some(e) => r == Err(e) && dst.objects == old(dst.objects)
            case None =>
              && old(Found(request, src, dst, destListable))
              && Asks(request, src.objects, srcPrefix, old(dst.objects), dstPrefix, opts, destListable, hash)
              && Carried(Plan(request), StampsOf(clock, |Plan(request).tasks|), r, dst)
              && (Sane(request) && Separate(request) ==> r.Ok?)
  {
    var planned;
    planned, request := MakePlan(src, srcPrefix, dst, dstPrefix, opts, srcFailure, destListable, hash, clock, wraps);
    if planned.Err? {
      return Err(planned.error), request;
    }
    var j := planned.value;
    var stamps := StampsOf(clock, |j.tasks|);
    if Sane(request) && Separate(request) { AllInTurn(request, stamps); }
    r := Execute(j, src, dst, stamps, now);
  }

  /** The outcome of a job: the reference, or where it stops. */
  ghost predicate Carried(j: Job, stamps: seq<string>, r: Result<SyncStats, Error>, dst: MockDriver)
    reads dst, if r.Ok? then {r.value} else {}
  {
    && |stamps| == |j.tasks| && (r.Ok? <==> InTurn(j, stamps))
    && (r.Ok? ==> Acc(dst.objects, r.value.Values()) == Sequential(j, stamps))
    && (r.Err? ==> exists st :: Stops(j, stamps, Acc(dst.objects, st)))
  }

  /** The task loop, then the delete loop if asked for. */
  method Execute(j: Job, src: MockDriver, dst: MockDriver, stamps: seq<string>, now: int)
    returns (r: Result<SyncStats, Error>)
    requires src != dst && src.Valid() && dst.Valid() && src.objects == j.src && dst.objects == j.dst
    requires |stamps| == |j.tasks| && OnKeys(j.destMap)
    modifies dst
    ensures dst.Valid() && (r.Ok? ==> fresh(r.value)) && Carried(j, stamps, r, dst)
  {
    var stats := new SyncStats();
    var error := stats.ProcessTasks(j, src, dst, stamps, now);
    if error.Some? {
      return Err(error.value);
    }
    stats.DeletePhase(j, dst, stamps);
    return Ok(stats);
  }

  /** The reference, read as the task loop followed by the delete loop. */
  lemma FinishReference(j: Job, stamps: seq<string>, dst: Store, n: int)
    requires |stamps| == |j.tasks|
    ensures var a := ProcessFirst(j, |j.tasks|, stamps);
      && (!j.opts.delete ==> Sequential(j, stamps) == a)
      && (j.opts.delete && Round(a.dst, j.destMap, j.srcNames, {}, j.opts.dryRun, dst, n) ==>
            Sequential(j, stamps) == Acc(dst, a.stats.(deletedFiles := n)))
  {
    ProcessDeletes(j, |j.tasks|, stamps);
    var a := ProcessFirst(j, |j.tasks|, stamps);
    assert a.dst - {} == a.dst;
    assert a.stats.(deletedFiles := 0) == a.stats;
    assert j.destMap.Keys - {} - j.srcNames == j.destMap.Keys - j.srcNames;
  }

  /** What the clock can show while `n` tasks are processed. */
  function Shown(clock: nat -> string, n: nat): (r: set<string>)
    ensures r != {} && forall i: nat :: i <= n ==> clock(i) in r
    ensures forall ts :: ts in r ==> exists i: nat :: ts == clock(i)
  {
    if n == 0 then {clock(0)} else Shown(clock, n - 1) + {clock(n)}
  }

  lemma {:induction false} ProcessDeletes(j: Job, n: nat, stamps: seq<string>)
    requires n <= |j.tasks| == |stamps|
    ensures ProcessFirst(j, n, stamps).stats.deletedFiles == 0
  {
    if n > 0 { ProcessDeletes(j, n - 1, stamps); }
  }
}

/** Planning a run: from the two listings to the tasks and the destination names. */
module SyncPlan {
  import opened Prelude
  import opened Text
  import opened Keys
  import opened Listing
  import opened MockStore
  import opened Names
  import opened SyncEngine

  /** What `Sync` is called with, and what it finds. */
  datatype Request = Request(
    src: Store, srcPrefix: string, srcList: seq<ObjectInfo>,
    dst: Store, dstPrefix: string, dstListed: bool, dstList: seq<ObjectInfo>,
    opts: Options, hash: bytes -> string,
    stamps: set<string>, workers: int, cancellable: bool, wraps: bool)

  // ---------------------------------------------------------------- the listings, folded

  /** Whether a listed object takes part: no directory, no name under a conflict directory. */
  predicate Counts(o: ObjectInfo, prefix: string, conflictDir: string) {
    !o.isDir && Live(Strip(o.path, prefix), conflictDir)
  }

  function DestMapOf(list: seq<ObjectInfo>, prefix: string, conflictDir: string): map<string, ObjectInfo>
    decreases |list|
  {
    if list == [] then map[]
    else
      var m, o := DestMapOf(list[..|list| - 1], prefix, conflictDir), list[|list| - 1];
      if Counts(o, prefix, conflictDir) then m[Strip(o.path, prefix) := o] else m
  }

  function TaskFor(o: ObjectInfo, srcPrefix: string, dstPrefix: string): Task {
    Task(o, Strip(o.path, srcPrefix), DestPath(dstPrefix, Strip(o.path, srcPrefix)))
  }

  function TasksOf(list: seq<ObjectInfo>, srcPrefix: string, dstPrefix: string, conflictDir: string): seq<Task>
    decreases |list|
  {
    if list == [] then []
    else
      var ts, o := TasksOf(list[..|list| - 1], srcPrefix, dstPrefix, conflictDir), list[|list| - 1];
      if Counts(o, srcPrefix, conflictDir) then ts + [TaskFor(o, srcPrefix, dstPrefix)] else ts
  }

  function NamesOf(tasks: seq<Task>): set<string> {
    set t | t in tasks :: t.rel
  }

  method BuildDestMap(destObjects: seq<ObjectInfo>, destPrefix: string, conflictDir: string)
    returns (destMap: map<string, ObjectInfo>)
    ensures destMap == DestMapOf(destObjects, Clean(destPrefix), conflictDir)
  {
    var cleanDestPrefix := Clean(destPrefix);
    var cleanConflictDir := FilteredDir(conflictDir);
    destMap := map[];
    for n := 0 to |destObjects|
      invariant destMap == DestMapOf(destObjects[..n], cleanDestPrefix, conflictDir)
    {
      assert destObjects[..n + 1][..n] == destObjects[..n];
      var obj := destObjects[n];
      if obj.isDir { continue; }
      var rel := obj.path;
      if cleanDestPrefix != "" && cleanDestPrefix <= rel {
        rel := TrimPrefix(TrimPrefix(rel, cleanDestPrefix), "/");
      }
      if DEFAULT_CONFLICT_DIR <= rel || cleanConflictDir <= rel { continue; }
      destMap := destMap[rel := obj];
    }
    assert destObjects[..|destObjects|] == destObjects;
  }

  method BuildTasks(srcObjects: seq<ObjectInfo>, srcPrefix: string, destPrefix: string, conflictDir: string)
    returns (tasks: seq<Task>, srcNames: set<string>)
    ensures tasks == TasksOf(srcObjects, Clean(srcPrefix), Clean(destPrefix), conflictDir)
    ensures srcNames == NamesOf(tasks)
  {
    var cleanSrcPrefix, cleanDestPrefix := Clean(srcPrefix), Clean(destPrefix);
    var cleanConflictDir := FilteredDir(conflictDir);
    tasks, srcNames := [], {};
    for n := 0 to |srcObjects|
      invariant tasks == TasksOf(srcObjects[..n], cleanSrcPrefix, cleanDestPrefix, conflictDir)
      invariant srcNames == NamesOf(tasks)
    {
      assert srcObjects[..n + 1][..n] == srcObjects[..n];
      var obj := srcObjects[n];
      if obj.isDir { continue; }
      var rel := obj.path;
      if cleanSrcPrefix != "" && cleanSrcPrefix <= rel {
        rel := TrimPrefix(TrimPrefix(rel, cleanSrcPrefix), "/");
      }
      if DEFAULT_CONFLICT_DIR <= rel || cleanConflictDir <= rel { continue; }
      srcNames := srcNames + {rel};
      var destPath := rel;
      if cleanDestPrefix != "" {
        destPath := cleanDestPrefix + "/" + rel;
      }
      tasks := tasks + [Task(obj, rel, destPath)];
    }
    assert srcObjects[..|srcObjects|] == srcObjects;
  }

  /** `opts.Workers`, defaulted and cut to the number of tasks, but at least one. */
  function WorkerCount(workers: int, tasks: nat): (n: nat)
    ensures 1 <= n && (n == 1 || n <= tasks)
    ensures 0 < workers <= tasks ==> n == workers
    ensures workers > tasks ==> n == if tasks == 0 then 1 else tasks
    ensures workers <= 0 ==> n == if tasks == 0 then 1 else if tasks < 4 then tasks else 4
  {
    var wanted := if workers <= 0 then 4 else workers;
    var cut := if wanted > tasks then tasks else wanted;
    if cut <= 0 then 1 else cut
  }

  /** The prefixes as the engine cleans them. */
  function SrcPrefix(r: Request): string {
    Clean(r.srcPrefix)
  }

  function DstPrefix(r: Request): string {
    Clean(r.dstPrefix)
  }

  /** What is taken for the destination listing: nothing when it fails. */
  function DstShown(r: Request): seq<ObjectInfo> {
    if r.dstListed then r.dstList else []
  }

  function Plan(r: Request): Job {
    var tasks := TasksOf(r.srcList, SrcPrefix(r), DstPrefix(r), r.opts.conflictDir);
    Job(r.src, r.dst, tasks, DestMapOf(DstShown(r), DstPrefix(r), r.opts.conflictDir), NamesOf(tasks),
        r.opts, r.hash, r.stamps, WorkerCount(r.workers, |tasks|), r.cancellable, r.wraps)
  }

  // ---------------------------------------------------------------- premises

  predicate DistinctPaths(list: seq<ObjectInfo>) {
    forall n, m :: 0 <= n < m < |list| && !list[n].isDir && !list[m].isDir ==> list[n].path != list[m].path
  }

  predicate DistinctSources(ts: seq<Task>) {
    forall i, k :: 0 <= i < k < |ts| ==> ts[i].obj.path != ts[k].obj.path
  }

  predicate ListsKey(list: seq<ObjectInfo>, key: string) {
    exists o :: o in list && !o.isDir && o.path == key
  }

  /** A listing of objects under a prefix. It may stop short, as a first page does, and
      directories may be listed too. */
  predicate Lists(list: seq<ObjectInfo>, st: Store, prefix: string) {
    && (forall o :: o in list && !o.isDir ==> o.path in st && prefix <= o.path && o.size == |st[o.path]|)
    && DistinctPaths(list)
  }

  /** A listing that does not stop short. */
  predicate Covers(list: seq<ObjectInfo>, st: Store, prefix: string) {
    forall k :: k in st && prefix <= k ==> ListsKey(list, k)
  }

  /** Keys that start with the prefix lie below it, as `data/x` does and `database` does not. */
  predicate Below(st: Store, prefix: string) {
    prefix != "" ==> forall k :: k in st && prefix <= k ==> prefix + "/" <= k
  }

  /** Names in their proper form: prefixes and the conflict directory in any spelling of a
      canonical name, canonical keys, timestamps as they are formatted. */
  ghost predicate NamesOk(r: Request) {
    && CleanName(SrcPrefix(r)) && CleanName(DstPrefix(r)) && DirName(r.opts.conflictDir)
    && CanonicalKeys(r.src) && CanonicalKeys(r.dst)
    && r.stamps != {} && forall ts :: ts in r.stamps ==> IsStamp(ts)
  }

  /** Proper names, and listings of what is there. */
  ghost predicate Sane(r: Request) {
    && NamesOk(r)
    && Lists(r.srcList, r.src, SrcPrefix(r))
    && (r.dstListed ==> Lists(r.dstList, r.dst, DstPrefix(r)))
  }

  /** No key beside a prefix, and no conflict directory in the way of the destination. */
  ghost predicate Tidy(r: Request) {
    && Below(r.src, SrcPrefix(r)) && Below(r.dst, DstPrefix(r))
    && Apart(DstPrefix(r), r.opts.conflictDir)
  }

  ghost predicate WellFormed(r: Request) {
    Sane(r) && Tidy(r)
  }

  /** The source listing shows an object of this name. */
  predicate SrcSeen(r: Request, rel: string) {
    ListsKey(r.srcList, DestPath(SrcPrefix(r), rel))
  }

  predicate DstSeen(r: Request, rel: string) {
    r.dstListed && ListsKey(r.dstList, DestPath(DstPrefix(r), rel))
  }

  /** The destination listing came and is complete. */
  predicate SeesAll(r: Request) {
    r.dstListed && Covers(r.dstList, r.dst, DstPrefix(r))
  }

  // ---------------------------------------------------------------- what the folds contain

  /** `rel` stands for a live object of the listing. */
  predicate Entry(list: seq<ObjectInfo>, prefix: string, conflictDir: string, rel: string, o: ObjectInfo) {
    o in list && Counts(o, prefix, conflictDir) && rel == Strip(o.path, prefix)
  }

  predicate Entries(list: seq<ObjectInfo>, prefix: string, conflictDir: string, m: map<string, ObjectInfo>) {
    forall rel :: rel in m ==> Entry(list, prefix, conflictDir, rel, m[rel])
  }

  lemma {:induction false} DestMapFacts(list: seq<ObjectInfo>, prefix: string, conflictDir: string)
    ensures Entries(list, prefix, conflictDir, DestMapOf(list, prefix, conflictDir))
    ensures forall o :: o in list && Counts(o, prefix, conflictDir) ==>
              Strip(o.path, prefix) in DestMapOf(list, prefix, conflictDir)
    decreases |list|
  {
    if list != [] {
      var front, last := list[..|list| - 1], list[|list| - 1];
      DestMapFacts(front, prefix, conflictDir);
      assert list == front + [last];
      var m, was := DestMapOf(list, prefix, conflictDir), DestMapOf(front, prefix, conflictDir);
      forall rel | rel in m ensures Entry(list, prefix, conflictDir, rel, m[rel]) {
        if rel in was && m[rel] == was[rel] {
          assert Entry(front, prefix, conflictDir, rel, was[rel]);
        }
      }
    }
  }

  /** The object at place `n` is live, and none after it bears its name. */
  predicate LastOfName(list: seq<ObjectInfo>, prefix: string, conflictDir: string, n: nat) {
    && n < |list| && Counts(list[n], prefix, conflictDir)
    && forall m :: n < m < |list| && Counts(list[m], prefix, conflictDir) ==>
         Strip(list[m].path, prefix) != Strip(list[n].path, prefix)
  }

  /** Of objects that strip to one name, the map holds the one listed last. */
  lemma {:induction false} MapHoldsLast(list: seq<ObjectInfo>, prefix: string, conflictDir: string, n: nat)
    requires n < |list| && Counts(list[n], prefix, conflictDir) && DistinctPaths(list)
    ensures var m, rel := DestMapOf(list, prefix, conflictDir), Strip(list[n].path, prefix);
            rel in m && (m[rel].path == list[n].path <==> LastOfName(list, prefix, conflictDir, n))
    decreases |list|
  {
    var k := |list| - 1;
    var front := list[..k];
    var rel, m := Strip(list[n].path, prefix), DestMapOf(list, prefix, conflictDir);
    if n == k {
      assert LastOfName(list, prefix, conflictDir, n);
    } else {
      MapHoldsLast(front, prefix, conflictDir, n);
      assert list[n].path != list[k].path || list[k].isDir;
      if Counts(list[k], prefix, conflictDir) && Strip(list[k].path, prefix) == rel {
        assert m[rel] == list[k];
      } else {
        assert m[rel] == DestMapOf(front, prefix, conflictDir)[rel];
        LastInFront(list, prefix, conflictDir, n);
      }
    }
  }

  lemma LastInFront(list: seq<ObjectInfo>, prefix: string, conflictDir: string, n: nat)
    requires n < |list| - 1
    requires var last := list[|list| - 1];
             !(Counts(last, prefix, conflictDir) && Strip(last.path, prefix) == Strip(list[n].path, prefix))
    ensures LastOfName(list, prefix, conflictDir, n) <==> LastOfName(list[..|list| - 1], prefix, conflictDir, n)
  {
    var front := list[..|list| - 1];
    forall m | n < m < |front| ensures front[m] == list[m] {}
    if LastOfName(front, prefix, conflictDir, n) {
      forall m | n < m < |list| && Counts(list[m], prefix, conflictDir)
        ensures Strip(list[m].path, prefix) != Strip(list[n].path, prefix)
      {
        if m < |front| { assert front[m] == list[m]; }
      }
    }
  }

  lemma {:induction false} TasksFacts(list: seq<ObjectInfo>, srcPrefix: string, dstPrefix: string, conflictDir: string)
    ensures var ts := TasksOf(list, srcPrefix, dstPrefix, conflictDir);
      && (forall t :: t in ts ==>
            t.obj in list && Counts(t.obj, srcPrefix, conflictDir) && t == TaskFor(t.obj, srcPrefix, dstPrefix))
      && (forall o :: o in list && Counts(o, srcPrefix, conflictDir) ==> TaskFor(o, srcPrefix, dstPrefix) in ts)
    decreases |list|
  {
    if list != [] {
      TasksFacts(list[..|list| - 1], srcPrefix, dstPrefix, conflictDir);
      assert list == list[..|list| - 1] + [list[|list| - 1]];
    }
  }

  lemma {:induction false} TasksDistinct(list: seq<ObjectInfo>, srcPrefix: string, dstPrefix: string,
                                         conflictDir: string)
    requires DistinctPaths(list)
    ensures DistinctSources(TasksOf(list, srcPrefix, dstPrefix, conflictDir))
    decreases |list|
  {
    if list != [] {
      var front, last := list[..|list| - 1], list[|list| - 1];
      TasksDistinct(front, srcPrefix, dstPrefix, conflictDir);
      TasksFacts(front, srcPrefix, dstPrefix, conflictDir);
      forall t | t in TasksOf(front, srcPrefix, dstPrefix, conflictDir) && !last.isDir
        ensures t.obj.path != last.path
      {
        var n :| 0 <= n < |front| && front[n] == t.obj;
        assert list[n] == t.obj;
      }
    }
  }

  lemma OneListing(list: seq<ObjectInfo>, o: ObjectInfo, p: ObjectInfo)
    requires DistinctPaths(list) && o in list && p in list && !o.isDir && !p.isDir && o.path == p.path
    ensures o == p
  {
    var n :| 0 <= n < |list| && list[n] == o;
    var m :| 0 <= m < |list| && list[m] == p;
  }

  /** Stripping a key that lies below the prefix and joining it again gives the key back. */
  lemma JoinOfStrip(st: Store, prefix: string, k: string)
    requires CanonicalKeys(st) && CleanName(prefix) && Below(st, prefix) && k in st && prefix <= k
    ensures DestPath(prefix, Strip(k, prefix)) == k && Canonical(Strip(k, prefix))
  {
    if prefix != "" {
      var rel := k[|prefix| + 1..];
      assert k == prefix + "/" + rel;
      assert TrimPrefix(k, prefix) == "/" + rel;
      assert ("/" + rel)[1..] == rel;
      DestPathCanonical(prefix, rel);
    }
  }

  // ---------------------------------------------------------------- tasks and destination names

  /** Whatever lies beside the prefixes, a task stands for a live listed source object. */
  lemma TaskFacts(r: Request, t: Task)
    requires Sane(r) && t in Plan(r).tasks
    ensures t.obj.path in r.src && t.obj.size == |r.src[t.obj.path]| && NormalizeKey(t.obj.path) == t.obj.path
    ensures t.rel == Strip(t.obj.path, SrcPrefix(r)) && t.destPath == DestPath(DstPrefix(r), t.rel)
    ensures Live(t.rel, r.opts.conflictDir) && t.rel in Plan(r).srcNames
  {
    TasksFacts(r.srcList, SrcPrefix(r), DstPrefix(r), r.opts.conflictDir);
    assert t.obj in r.srcList && !t.obj.isDir;
    CanonicalFixed(t.obj.path);
  }

  /** A destination name stands for a live listed object, and leads back from its key. */
  lemma MapFacts(r: Request, rel: string)
    requires Sane(r) && rel in Plan(r).destMap
    ensures var key := Plan(r).destMap[rel].path;
            key in r.dst && DstPrefix(r) <= key && rel == Strip(key, DstPrefix(r)) && NormalizeKey(key) == key
    ensures r.dstListed && ListsKey(r.dstList, Plan(r).destMap[rel].path) && Live(rel, r.opts.conflictDir)
  {
    DestMapFacts(DstShown(r), DstPrefix(r), r.opts.conflictDir);
    assert Entry(DstShown(r), DstPrefix(r), r.opts.conflictDir, rel, Plan(r).destMap[rel]);
    CanonicalFixed(Plan(r).destMap[rel].path);
  }

  /** What the filter lets through, spelled out: the source names and the destination names are
      the stripped names of the listed objects, directories aside, that start neither with
      ".conflicts" nor with the cleaned name of the conflict directory. */
  lemma FilteredExactly(r: Request, rel: string)
    ensures rel in Plan(r).srcNames
      <==> && (exists o :: o in r.srcList && !o.isDir && Strip(o.path, SrcPrefix(r)) == rel)
           && !(".conflicts" <= rel) && (Clean(r.opts.conflictDir) == "" || !(Clean(r.opts.conflictDir) <= rel))
    ensures rel in Plan(r).destMap
      <==> && (exists o :: o in DstShown(r) && !o.isDir && Strip(o.path, DstPrefix(r)) == rel)
           && !(".conflicts" <= rel) && (Clean(r.opts.conflictDir) == "" || !(Clean(r.opts.conflictDir) <= rel))
  {
    LiveExactly(rel, r.opts.conflictDir);
    TasksFacts(r.srcList, SrcPrefix(r), DstPrefix(r), r.opts.conflictDir);
    DestMapFacts(DstShown(r), DstPrefix(r), r.opts.conflictDir);
    if rel in Plan(r).srcNames {
      var t :| t in Plan(r).tasks && t.rel == rel;
      assert Counts(t.obj, SrcPrefix(r), r.opts.conflictDir);
    }
    if o :| o in r.srcList && !o.isDir && Strip(o.path, SrcPrefix(r)) == rel && Live(rel, r.opts.conflictDir) {
      assert TaskFor(o, SrcPrefix(r), DstPrefix(r)) in Plan(r).tasks;
    }
    if rel in Plan(r).destMap {
      assert Entry(DstShown(r), DstPrefix(r), r.opts.conflictDir, rel, Plan(r).destMap[rel]);
    }
  }

  /** Each task belongs to one live listed source object. */
  lemma PlannedTask(r: Request, t: Task)
    requires WellFormed(r) && t in Plan(r).tasks
    ensures t.obj.path in r.src && t.obj.size == |r.src[t.obj.path]| && NormalizeKey(t.obj.path) == t.obj.path
    ensures Canonical(t.rel) && Live(t.rel, r.opts.conflictDir) && t.rel in Plan(r).srcNames && SrcSeen(r, t.rel)
    ensures t.obj.path == DestPath(SrcPrefix(r), t.rel) && t.destPath == DestPath(DstPrefix(r), t.rel)
    ensures Canonical(t.destPath)
  {
    TaskFacts(r, t);
    TasksFacts(r.srcList, SrcPrefix(r), DstPrefix(r), r.opts.conflictDir);
    JoinOfStrip(r.src, SrcPrefix(r), t.obj.path);
    DestPathCanonical(DstPrefix(r), t.rel);
  }

  /** A key below the prefix starts with it and strips to the name it was joined from. */
  lemma KeyOfName(prefix: string, rel: string)
    requires CleanName(prefix) && Canonical(DestPath(prefix, rel))
    ensures prefix <= DestPath(prefix, rel) && Strip(DestPath(prefix, rel), prefix) == rel
  {
    CanonicalName(prefix, rel);
    StripOfJoin(prefix, rel);
    if prefix != "" { KeyHasPrefix(prefix, rel); }
  }

  lemma CanonicalName(prefix: string, rel: string)
    requires CleanName(prefix) && Canonical(DestPath(prefix, rel))
    ensures rel != "" && rel[0] != '/'
  {
    DestPathCanonical(prefix, rel);
    CanonicalEnds(rel);
  }

  /** Each live listed source object has its task. */
  lemma TaskPlanned(r: Request, rel: string) returns (t: Task)
    requires Sane(r) && Live(rel, r.opts.conflictDir) && SrcSeen(r, rel)
    ensures t in Plan(r).tasks && t.rel == rel
  {
    KeyOfName(SrcPrefix(r), rel);
    var o :| o in r.srcList && !o.isDir && o.path == DestPath(SrcPrefix(r), rel);
    TasksFacts(r.srcList, SrcPrefix(r), DstPrefix(r), r.opts.conflictDir);
    t := TaskFor(o, SrcPrefix(r), DstPrefix(r));
  }

  /** The destination names are the live names the listing shows. */
  lemma DestName(r: Request, rel: string)
    requires WellFormed(r)
    ensures rel in Plan(r).destMap <==> Live(rel, r.opts.conflictDir) && DstSeen(r, rel)
    ensures DstSeen(r, rel) ==> DestPath(DstPrefix(r), rel) in r.dst
    ensures rel in Plan(r).destMap ==> Plan(r).destMap[rel].path == DestPath(DstPrefix(r), rel)
  {
    if r.dstListed {
      DestNameListed(r.dstList, r.dst, DstPrefix(r), r.opts.conflictDir, rel);
    }
  }

  lemma DestNameListed(list: seq<ObjectInfo>, st: Store, prefix: string, conflictDir: string, rel: string)
    requires CanonicalKeys(st) && CleanName(prefix) && Below(st, prefix) && Lists(list, st, prefix)
    ensures var m := DestMapOf(list, prefix, conflictDir);
      && (rel in m <==> Live(rel, conflictDir) && ListsKey(list, DestPath(prefix, rel)))
      && (rel in m ==> m[rel].path == DestPath(prefix, rel))
  {
    var m := DestMapOf(list, prefix, conflictDir);
    DestMapFacts(list, prefix, conflictDir);
    if rel in m {
      JoinOfStrip(st, prefix, m[rel].path);
    }
    if Live(rel, conflictDir) && ListsKey(list, DestPath(prefix, rel)) {
      KeyOfName(prefix, rel);
      var o :| o in list && !o.isDir && o.path == DestPath(prefix, rel);
      assert Counts(o, prefix, conflictDir);
    }
  }

  // ---------------------------------------------------------------- which plans are sound

  /** Every stripped name is a proper one; no two source objects strip to the same. */
  predicate NamesApart(r: Request) {
    var ts := Plan(r).tasks;
    && (forall t :: t in ts ==> Canonical(t.rel))
    && (forall i, k :: 0 <= i < k < |ts| ==> ts[i].rel != ts[k].rel)
  }

  /** The destination object found under a task's name is the one the task will write. */
  predicate Unshadowed(r: Request) {
    forall rel :: rel in Plan(r).srcNames && rel in Plan(r).destMap ==>
      Plan(r).destMap[rel].path == DestPath(DstPrefix(r), rel)
  }

  /** No backup takes the place of a task's object or of one on the destination's list. */
  predicate BackupsApart(r: Request) {
    forall t, ts :: t in Plan(r).tasks && ts in r.stamps ==>
      && (forall u :: u in Plan(r).tasks ==> BackupPath(r.opts.conflictDir, t.destPath, ts) != u.destPath)
      && (forall rel :: rel in Plan(r).destMap ==>
            BackupPath(r.opts.conflictDir, t.destPath, ts) != Plan(r).destMap[rel].path)
  }

  predicate Separate(r: Request) {
    NamesApart(r) && Unshadowed(r) && BackupsApart(r)
  }

  lemma PlannedTaskOk(r: Request, i: nat)
    requires Sane(r) && NamesApart(r) && Unshadowed(r) && i < |Plan(r).tasks|
    ensures TaskOk(Plan(r), i) && Canonical(Plan(r).tasks[i].destPath)
  {
    var t := Plan(r).tasks[i];
    TaskFacts(r, t);
    assert t in Plan(r).tasks;
    DestPathCanonical(DstPrefix(r), t.rel);
    CanonicalFixed(t.destPath);
    CanonicalEnds(t.destPath);
    if t.rel in Plan(r).destMap { MapFacts(r, t.rel); }
  }

  lemma SeparateTask(r: Request, i: nat)
    requires Sane(r) && Separate(r) && i < |Plan(r).tasks|
    ensures Canonical(Plan(r).tasks[i].destPath)
  {
    PlannedTaskOk(r, i);
  }

  lemma PlannedApart(r: Request, i: nat, k: nat)
    requires Sane(r) && i < |Plan(r).tasks| && k < |Plan(r).tasks|
    ensures Plan(r).tasks[i].destPath == Plan(r).tasks[k].destPath
            <==> Plan(r).tasks[i].rel == Plan(r).tasks[k].rel
  {
    var t, u := Plan(r).tasks[i], Plan(r).tasks[k];
    TaskFacts(r, t);
    TaskFacts(r, u);
    if t.destPath == u.destPath {
      JoinInjective(DstPrefix(r), t.rel, u.rel);
    }
  }

  /** Backups land on canonical keys under the conflict directory. */
  lemma PlannedBackup(r: Request, i: nat, ts: string)
    requires Sane(r) && i < |Plan(r).tasks| && ts in r.stamps && Canonical(Plan(r).tasks[i].destPath)
    ensures var key := BackupKey(Plan(r), i, ts);
      && UnderDir(BackupDir(r.opts.conflictDir), key) && Canonical(key)
      && NormalizeKey(key) == key != "" && EndsWithStamp(key, ts)
      && key == (if r.opts.conflictDir == "" then ".conflicts" else Clean(r.opts.conflictDir))
                + "/" + Plan(r).tasks[i].destPath + "." + ts + ".conflict"
  {
    var t := Plan(r).tasks[i];
    BackupSpelledOut(r.opts.conflictDir, t.destPath, ts);
    BackupPathShape(r.opts.conflictDir, t.destPath, ts);
    BackupPathCanonical(r.opts.conflictDir, t.destPath, ts);
    BackupEndsWithStamp(r.opts.conflictDir, t.destPath, ts);
    CanonicalFixed(BackupKey(Plan(r), i, ts));
    CanonicalEnds(BackupKey(Plan(r), i, ts));
  }

  lemma PlannedOrphan(r: Request, rel: string)
    requires Sane(r) && Separate(r) && rel in Plan(r).destMap
    ensures OrphanOk(Plan(r), rel)
  {
    MapFacts(r, rel);
    var key := Plan(r).destMap[rel].path;
    forall i | 0 <= i < |Plan(r).tasks| && Plan(r).tasks[i].destPath == key ensures rel in Plan(r).srcNames {
      PlannedTaskOk(r, i);
      TaskFacts(r, Plan(r).tasks[i]);
      KeyOfName(DstPrefix(r), Plan(r).tasks[i].rel);
    }
    forall i, ts | 0 <= i < |Plan(r).tasks| && ts in r.stamps ensures BackupKey(Plan(r), i, ts) != key {
      assert Plan(r).tasks[i] in Plan(r).tasks;
    }
  }

  lemma PlannedBackupsApart(r: Request, i: nat, k: nat, ts: string, us: string)
    requires Sane(r) && i < |Plan(r).tasks| && k < |Plan(r).tasks| && ts in r.stamps && us in r.stamps
    requires Canonical(Plan(r).tasks[i].destPath) && Canonical(Plan(r).tasks[k].destPath)
    requires Plan(r).tasks[i].destPath != Plan(r).tasks[k].destPath
    ensures BackupKey(Plan(r), i, ts) != BackupKey(Plan(r), k, us)
  {
    if BackupKey(Plan(r), i, ts) == BackupKey(Plan(r), k, us) {
      BackupInjective(r.opts.conflictDir, Plan(r).tasks[i].destPath, ts, Plan(r).tasks[k].destPath, us);
    }
  }

  lemma SeparateIsSound(r: Request)
    requires Sane(r) && Separate(r)
    ensures JobOk(Plan(r))
  {
    var j := Plan(r);
    forall i | 0 <= i < |j.tasks| ensures TaskOk(j, i) && Canonical(j.tasks[i].destPath) { PlannedTaskOk(r, i); }
    forall i, k | 0 <= i < k < |j.tasks| ensures j.tasks[i].destPath != j.tasks[k].destPath { PlannedApart(r, i, k); }
    forall i, ts | 0 <= i < |j.tasks| && ts in j.stamps
      ensures NormalizeKey(BackupKey(j, i, ts)) == BackupKey(j, i, ts) != ""
      ensures forall k :: 0 <= k < |j.tasks| ==> BackupKey(j, i, ts) != j.tasks[k].destPath
    {
      PlannedBackup(r, i, ts);
      assert j.tasks[i] in j.tasks;
    }
    forall i, k, ts, us | 0 <= i < k < |j.tasks| && ts in j.stamps && us in j.stamps
      ensures BackupKey(j, i, ts) != BackupKey(j, k, us)
    {
      PlannedBackupsApart(r, i, k, ts, us);
    }
    forall rel | rel in j.destMap ensures OrphanOk(j, rel) { PlannedOrphan(r, rel); }
    forall p, q | p in j.destMap && q in j.destMap && j.destMap[p].path == j.destMap[q].path ensures p == q {
      MapFacts(r, p);
      MapFacts(r, q);
    }
  }

  lemma SoundIsSeparate(r: Request)
    requires Sane(r) && JobOk(Plan(r))
    ensures Separate(r)
  {
    var j := Plan(r);
    forall t | t in j.tasks
      ensures Canonical(t.rel) && (t.rel in j.destMap ==> j.destMap[t.rel].path == DestPath(DstPrefix(r), t.rel))
    {
      var i :| 0 <= i < |j.tasks| && j.tasks[i] == t;
      assert TaskOk(j, i);
      TaskFacts(r, t);
      NormalizeCanonical(t.destPath);
      DestPathCanonical(DstPrefix(r), t.rel);
    }
    forall i, k | 0 <= i < k < |j.tasks| ensures j.tasks[i].rel != j.tasks[k].rel { PlannedApart(r, i, k); }
    forall t, ts | t in j.tasks && ts in r.stamps
      ensures forall u :: u in j.tasks ==> BackupPath(r.opts.conflictDir, t.destPath, ts) != u.destPath
      ensures forall rel :: rel in j.destMap ==>
                BackupPath(r.opts.conflictDir, t.destPath, ts) != j.destMap[rel].path
    {
      var i :| 0 <= i < |j.tasks| && j.tasks[i] == t;
      BackupFound(j, i, ts);
    }
  }

  lemma BackupFound(j: Job, i: nat, ts: string)
    requires JobOk(j) && i < |j.tasks| && ts in j.stamps
    ensures forall u :: u in j.tasks ==> BackupKey(j, i, ts) != u.destPath
    ensures forall rel :: rel in j.destMap ==> BackupKey(j, i, ts) != j.destMap[rel].path
  {
    forall rel | rel in j.destMap ensures BackupKey(j, i, ts) != j.destMap[rel].path {
      assert OrphanOk(j, rel);
    }
  }

  /** A request is planned into a sound job exactly when its names do not run into one another:
      stripping the prefixes gives each source object a proper name of its own, the destination
      object found under that name is the one to be written, and no backup the clock allows
      falls on either. */
  lemma PlanIsSoundExactly(r: Request)
    requires Sane(r)
    ensures JobOk(Plan(r)) <==> Separate(r)
  {
    if Separate(r) { SeparateIsSound(r); }
    if JobOk(Plan(r)) { SoundIsSeparate(r); }
  }

  lemma TidyTasks(r: Request, i: nat, k: nat)
    requires WellFormed(r) && i < k < |Plan(r).tasks|
    ensures Plan(r).tasks[i].rel != Plan(r).tasks[k].rel
  {
    PlannedTask(r, Plan(r).tasks[i]);
    PlannedTask(r, Plan(r).tasks[k]);
    TasksDistinct(r.srcList, SrcPrefix(r), DstPrefix(r), r.opts.conflictDir);
  }

  lemma TidyBackup(r: Request, t: Task, ts: string, rel: string)
    requires WellFormed(r) && t in Plan(r).tasks && ts in r.stamps && Live(rel, r.opts.conflictDir)
    ensures BackupPath(r.opts.conflictDir, t.destPath, ts) != DestPath(DstPrefix(r), rel)
  {
    PlannedTask(r, t);
    BackupPathShape(r.opts.conflictDir, t.destPath, ts);
    LiveIsNoBackup(DstPrefix(r), r.opts.conflictDir, rel);
  }

  lemma TidyIsSeparate(r: Request)
    requires WellFormed(r)
    ensures Separate(r)
  {
    var j := Plan(r);
    forall t | t in j.tasks ensures Canonical(t.rel) { PlannedTask(r, t); }
    forall i, k | 0 <= i < k < |j.tasks| ensures j.tasks[i].rel != j.tasks[k].rel { TidyTasks(r, i, k); }
    forall rel | rel in j.destMap ensures j.destMap[rel].path == DestPath(DstPrefix(r), rel) { DestName(r, rel); }
    forall t, ts | t in j.tasks && ts in r.stamps
      ensures forall u :: u in j.tasks ==> BackupPath(r.opts.conflictDir, t.destPath, ts) != u.destPath
      ensures forall rel :: rel in j.destMap ==>
                BackupPath(r.opts.conflictDir, t.destPath, ts) != j.destMap[rel].path
    {
      forall u | u in j.tasks ensures BackupPath(r.opts.conflictDir, t.destPath, ts) != u.destPath {
        PlannedTask(r, u);
        TidyBackup(r, t, ts, u.rel);
      }
      forall rel | rel in j.destMap ensures BackupPath(r.opts.conflictDir, t.destPath, ts) != j.destMap[rel].path {
        DestName(r, rel);
        TidyBackup(r, t, ts, rel);
      }
    }
  }

  /** Without keys beside the prefixes, and with the conflict directory out of the way, names
      never run into one another. */
  lemma PlanIsSound(r: Request)
    requires WellFormed(r)
    ensures Separate(r) && JobOk(Plan(r))
  {
    TidyIsSeparate(r);
    SeparateIsSound(r);
  }
}

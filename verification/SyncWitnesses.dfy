/** Concrete requests on which a sync does not do what one would expect. Each meets every
    premise, so the exact conditions are not empty on either side. */
module SyncWitnesses {
  import opened Prelude
  import opened Text
  import opened Keys
  import opened Listing
  import opened MockStore
  import opened Comparator
  import opened Names
  import opened SyncEngine
  import opened SyncTheorems
  import opened SyncExact
  import opened SyncFrame
  import opened SyncPlan
  import opened SyncPromises
  import opened SyncLeftOut

  const NOW := "20240101T000000Z"

  /** A hash without collisions: the contents themselves. */
  function AsText(b: bytes): string {
    seq(|b|, i requires 0 <= i < |b| => (b[i] as int) as char)
  }

  lemma AsTextInjective()
    ensures Injective(AsText)
  {
    forall a, b | AsText(a) == AsText(b) ensures a == b {
      assert |AsText(a)| == |a| && |AsText(b)| == |b|;
      forall i | 0 <= i < |a| ensures a[i] == b[i] {
        assert AsText(a)[i] == AsText(b)[i];
      }
    }
  }

  function ListingOf(st: Store, names: seq<string>): seq<ObjectInfo>
    requires forall n :: n in names ==> n in st
  {
    seq(|names|, i requires 0 <= i < |names| => ObjectInfo(names[i], |st[names[i]]|, 0, false))
  }

  /** A checksum sync without prefixes, started at `NOW`, with the listings given by name. */
  function Ask(src: Store, srcNames: seq<string>, dst: Store, dstNames: seq<string>, dstListed: bool,
               conflictDir: string, cancellable: bool, delete: bool := false): Request
    requires forall n :: n in srcNames ==> n in src
    requires forall n :: n in dstNames ==> n in dst
  {
    Request(src, "", ListingOf(src, srcNames), dst, "", dstListed, ListingOf(dst, dstNames),
            Options(true, delete, false, false, conflictDir), AsText, {NOW}, 1, cancellable, false)
  }

  predicate Distinct(names: seq<string>) {
    forall i, k :: 0 <= i < k < |names| ==> names[i] != names[k]
  }

  lemma ListedAll(st: Store, names: seq<string>, prefix: string)
    requires Distinct(names) && forall n :: n in names ==> n in st && prefix <= n
    ensures Lists(ListingOf(st, names), st, prefix)
    ensures forall k :: ListsKey(ListingOf(st, names), k) <==> k in names
  {
    var list := ListingOf(st, names);
    forall k ensures ListsKey(list, k) <==> k in names {
      if k in names {
        var i :| 0 <= i < |names| && names[i] == k;
        assert list[i] in list;
      }
      if ListsKey(list, k) {
        var o :| o in list && !o.isDir && o.path == k;
        var i :| 0 <= i < |list| && list[i] == o;
      }
    }
    forall o | o in list ensures o.path in st && prefix <= o.path && o.size == |st[o.path]| {
      var i :| 0 <= i < |list| && list[i] == o;
      assert names[i] in names;
    }
  }

  lemma AskIsWellFormed(src: Store, srcNames: seq<string>, dst: Store, dstNames: seq<string>, dstListed: bool,
                        conflictDir: string, cancellable: bool, delete: bool := false)
    requires CanonicalKeys(src) && CanonicalKeys(dst) && DirName(conflictDir)
    requires Distinct(srcNames) && forall n :: n in srcNames ==> n in src
    requires Distinct(dstNames) && forall n :: n in dstNames ==> n in dst
    ensures var r := Ask(src, srcNames, dst, dstNames, dstListed, conflictDir, cancellable, delete);
      && WellFormed(r)
      && (forall rel :: SrcSeen(r, rel) <==> rel in srcNames)
      && (forall rel :: DstSeen(r, rel) <==> dstListed && rel in dstNames)
  {
    ListedAll(src, srcNames, "");
    ListedAll(dst, dstNames, "");
  }

  // ---------------------------------------------------------------- a second run

  ghost function KeysBelow(st: Store, prefix: string): (names: seq<string>)
    ensures forall k :: k in names <==> k in st && prefix <= k
  {
    SortedKeys(set k | k in st && prefix <= k)
  }

  lemma ListedInFull(st: Store, prefix: string)
    ensures var list := ListingOf(st, KeysBelow(st, prefix));
            Lists(list, st, prefix) && Covers(list, st, prefix)
  {
    var names := KeysBelow(st, prefix);
    forall i, k | 0 <= i < k < |names| ensures names[i] != names[k] { LessIrreflexive(names[i]); }
    ListedAll(st, names, prefix);
  }

  /** Whatever a run leaves, the same sync can be asked for again at once, with the clock still
      showing the same and the destination listed in full. */
  lemma AgainExists(r: Request, schedule: seq<Action>) returns (again: Request)
    requires WellFormed(r)
    ensures WellFormed(again) && Repeats(r, schedule, again) && SeesAll(again) && again.stamps == r.stamps
  {
    var dst := SyncPromises.After(r, schedule).dst;
    DestinationStaysNamed(r, schedule);
    ListedInFull(dst, DstPrefix(r));
    again := r.(dst := dst, dstListed := true, dstList := ListingOf(dst, KeysBelow(dst, DstPrefix(r))));
  }

  lemma SegmentIsCanonical(s: string)
    requires PlainSegment(s) && '\\' !in s
    ensures Canonical(s)
  {
    SplitSegment(s);
  }

  /** Names that do not start with a dot are live under the default conflict directory. */
  lemma LiveByDefault(rel: string)
    requires rel != "" && rel[0] != '.'
    ensures Live(rel, "")
  {
    BackupsAreFiltered("");
    CleanIsIdentity("");
  }

  // ---------------------------------------------------------------- a failed listing

  const SOURCE: Store := map["a" := [1]]
  const CHANGED: Store := map["a" := [2]]

  /** The two sides hold different bytes under one name, and the destination listing fails:
      the run is well-formed and loses the destination's bytes. */
  lemma FailedListingWitness()
    ensures var r := Ask(SOURCE, ["a"], CHANGED, ["a"], false, "", false);
            WellFormed(r) && !r.dstListed && !NothingDiffers(r) && !NeverLoses(Plan(r))
  {
    var r := Ask(SOURCE, ["a"], CHANGED, ["a"], false, "", false);
    SegmentIsCanonical("a");
    AskIsWellFormed(SOURCE, ["a"], CHANGED, ["a"], false, "", false);
    LiveByDefault("a");
    assert SrcAt(r, "a") == Some([1]) && DstAt(r, r.dst, "a") == Some([2]);
    FailedListingLoses(r);
  }

  // ---------------------------------------------------------------- a cancelled run

  /** The same two sides, listed, with a context that can be cancelled and nothing to delete:
      some run returns no error and leaves the destination other than the source. */
  lemma CancelledWitness()
    ensures var r := Ask(SOURCE, ["a"], CHANGED, ["a"], true, "", true);
            WellFormed(r) && JobOk(Plan(r)) && !SuccessMirrors(Plan(r))
  {
    var r := Ask(SOURCE, ["a"], CHANGED, ["a"], true, "", true);
    SegmentIsCanonical("a");
    AskIsWellFormed(SOURCE, ["a"], CHANGED, ["a"], true, "", true);
    PlanIsSound(r);
    AsTextInjective();
    LiveByDefault("a");
    var i := TaskIndex(r, "a");
    TaskSides(r, i);
    assert Source(Plan(r), i) == Some([1]) && Before(Plan(r), i) == Some([2]);
    NoErrorMeansMirrored(Plan(r));
  }

  // ---------------------------------------------------------------- a name left out

  const BAKERY := "bakery" + "/" + "list.txt"

  /** A sync of `bakery/list.txt` to an empty destination, with the conflict directory `bak`. */
  function Bakery(): Request {
    Ask(map[BAKERY := [1]], [BAKERY], map[], [], true, "bak", false)
  }

  lemma BakeryIsCanonical()
    ensures Canonical(BAKERY)
  {
    SegmentIsCanonical("bakery");
    SegmentIsCanonical("list.txt");
    CanonicalJoin("bakery", "list.txt");
  }

  lemma BakIsDirName()
    ensures DirName("bak")
  {
    SegmentIsCanonical("bak");
    CleanIsIdentity("bak");
  }

  lemma BakeryIsWellFormed()
    ensures WellFormed(Bakery())
  {
    BakeryIsCanonical();
    BakIsDirName();
    AskIsWellFormed(map[BAKERY := [1]], [BAKERY], map[], [], true, "bak", false);
  }

  lemma BakeryLooksLikeBackup()
    ensures !Live(BAKERY, "bak") && !InConflictDir(BAKERY, "bak")
  {
    SegmentIsCanonical("bak");
    CleanIsIdentity("bak");
    assert FilteredDir("bak") == "bak";
    assert BAKERY[..3] == "bak" && BAKERY[3] == 'e' && ("bak" + "/")[3] == '/';
    assert BAKERY[0] == 'b' && (DEFAULT_CONFLICT_DIR + "/")[0] == '.';
  }

  /** `bakery/list.txt` never reaches the destination, and the sync succeeds all the same. */
  lemma BakeryWitness(schedule: seq<Action>)
    ensures WellFormed(Bakery()) && LeftBehind(Bakery(), BAKERY) && !MirrorsEveryName(Bakery())
    ensures DstAt(Bakery(), SyncPromises.After(Bakery(), schedule).dst, BAKERY) == None
  {
    var r := Bakery();
    BakeryIsWellFormed();
    BakeryLooksLikeBackup();
    AsTextInjective();
    assert SrcAt(r, BAKERY) == Some([1]) && DstAt(r, r.dst, BAKERY) == None;
    assert LeftBehind(r, BAKERY);
    NotUnderBackups(r, BAKERY);
    LeftOut(r, schedule, BAKERY);
    EveryNameExactly(r);
  }

  const OLD_BACKUP := ".conflicts" + "/" + "a"

  /** A `--delete` sync of an empty source with the conflict directory `bak`, where a backup from
      earlier runs lies in the default directory. */
  function OldBackups(): Request {
    Ask(map[], [], map[OLD_BACKUP := [1]], [OLD_BACKUP], true, "bak", false, true)
  }

  lemma OldBackupIsCanonical()
    ensures Canonical(OLD_BACKUP) && ".conflicts" <= OLD_BACKUP
  {
    SegmentIsCanonical(".conflicts");
    SegmentIsCanonical("a");
    CanonicalJoin(".conflicts", "a");
    assert OLD_BACKUP[..10] == ".conflicts";
  }

  lemma OldBackupsAreWellFormed()
    ensures WellFormed(OldBackups()) && Plan(OldBackups()).tasks == []
  {
    OldBackupIsCanonical();
    BakIsDirName();
    AskIsWellFormed(map[], [], map[OLD_BACKUP := [1]], [OLD_BACKUP], true, "bak", false, true);
  }

  /** The earlier backup is not deleted. */
  lemma OldBackupWitness()
    ensures WellFormed(OldBackups()) && OLD_BACKUP in OldBackups().dst
    ensures AlwaysKeeps(Plan(OldBackups()), OLD_BACKUP) && !CanRemove(Plan(OldBackups()), OLD_BACKUP)
  {
    OldBackupsAreWellFormed();
    OldBackupIsCanonical();
    FilteredKeptExactly(OldBackups(), OLD_BACKUP);
  }

  // ---------------------------------------------------------------- a listing that stops short

  const PAIR: Store := map["a" := [1], "b" := [2]]

  /** Both sides hold the same two objects; the source listing shows only the first. */
  function FirstPage(): Request {
    Ask(PAIR, ["a"], PAIR, ["a", "b"], true, "", false, true)
  }

  lemma FirstPageIsWellFormed()
    ensures WellFormed(FirstPage()) && !SrcSeen(FirstPage(), "b") && DstSeen(FirstPage(), "b")
  {
    SegmentIsCanonical("a");
    SegmentIsCanonical("b");
    AskIsWellFormed(PAIR, ["a"], PAIR, ["a", "b"], true, "", false, true);
  }

  /** With `--delete`, every successful run deletes at the destination an object that the
      source has and that was the same on both sides. */
  lemma FirstPageWitness(schedule: seq<Action>)
    ensures WellFormed(FirstPage()) && Strays(FirstPage(), "b") && !DeleteMirrors(FirstPage())
    ensures Succeeded(SyncPromises.After(FirstPage(), schedule)) ==>
              DstAt(FirstPage(), SyncPromises.After(FirstPage(), schedule).dst, "b") == None
              && SrcAt(FirstPage(), "b") == DstAt(FirstPage(), FirstPage().dst, "b") == Some([2])
  {
    FirstPageIsWellFormed();
    LiveByDefault("b");
    AsTextInjective();
    assert SrcAt(FirstPage(), "b") == Some([2]);
    assert Strays(FirstPage(), "b");
    DeleteMirrorsExactly(FirstPage());
    if Succeeded(SyncPromises.After(FirstPage(), schedule)) { LiveNameEnds(FirstPage(), schedule, "b"); }
  }

  /** The destination listing comes back empty although the object is there: the run takes the
      source object for new and overwrites the other one without a backup. */
  lemma HiddenWitness()
    ensures var r := Ask(SOURCE, ["a"], CHANGED, [], true, "", false);
            WellFormed(r) && r.dstListed && !r.opts.noBackup && Exposed(r, "a") && !NeverLoses(Plan(r))
  {
    var r := Ask(SOURCE, ["a"], CHANGED, [], true, "", false);
    SegmentIsCanonical("a");
    AskIsWellFormed(SOURCE, ["a"], CHANGED, [], true, "", false);
    LiveByDefault("a");
    assert SrcAt(r, "a") == Some([1]) && DstAt(r, r.dst, "a") == Some([2]);
    assert Exposed(r, "a") && !r.opts.dryRun;
    BackupsSufficeExactly(r);
  }

  // ---------------------------------------------------------------- an object of unknown age

  /** By size and time, on a machine where conversions wrap: the source listing gives no time
      for the object, so it passes for the same as the other one. */
  function UnknownAge(): Request {
    Ask(SOURCE, ["a"], CHANGED, ["a"], true, "", false)
    .(srcList := [ObjectInfo("a", 1, ZERO_TIME, false)], opts := Options(false, false, false, false, ""), wraps := true)
  }

  lemma UnknownAgeIsWellFormed()
    ensures WellFormed(UnknownAge())
  {
    SegmentIsCanonical("a");
    AskIsWellFormed(SOURCE, ["a"], CHANGED, ["a"], true, "", false);
  }

  /** No run ever brings the source bytes over. */
  lemma UnknownAgeWitness(schedule: seq<Action>)
    ensures WellFormed(UnknownAge()) && SyncPromises.After(UnknownAge(), schedule).dst == CHANGED
  {
    var r := UnknownAge();
    UnknownAgeIsWellFormed();
    PlanIsSound(r);
    forall i | 0 <= i < |Plan(r).tasks| ensures Decide(Plan(r), i) == Identical { UnknownAgeIsIdentical(i); }
    IdleRun(Plan(r), schedule);
  }

  lemma UnknownAgeIsIdentical(i: nat)
    requires WellFormed(UnknownAge()) && i < |Plan(UnknownAge()).tasks|
    ensures Decide(Plan(UnknownAge()), i) == Identical
  {
    var r := UnknownAge();
    var t := Plan(r).tasks[i];
    TasksFacts(r.srcList, SrcPrefix(r), DstPrefix(r), r.opts.conflictDir);
    assert t.obj == ObjectInfo("a", 1, ZERO_TIME, false);
    PlannedTask(r, t);
    AskIsWellFormed(SOURCE, ["a"], CHANGED, ["a"], true, "", false);
    DestName(r, "a");
    DestMapFacts(r.dstList, DstPrefix(r), r.opts.conflictDir);
    assert Entry(r.dstList, DstPrefix(r), r.opts.conflictDir, t.rel, Plan(r).destMap[t.rel]);
    ZeroTimeWitness(t.obj, Plan(r).destMap[t.rel]);
  }

  // ---------------------------------------------------------------- a key beside the prefix

  const DATABASE := "database" + "/" + "x"

  /** A `--delete` sync of an empty source to `data/`, next to which lies `database/x`. */
  function BesideData(): Request {
    Ask(map[], [], map[DATABASE := [1]], [DATABASE], true, "", false, true).(dstPrefix := "data/")
  }

  lemma DataIsClean()
    ensures Clean("data/") == "data" && Canonical("data")
  {
    SegmentIsCanonical("data");
    assert '\\' !in "data/";
    NoBackslashes("data/");
  }

  lemma DatabaseIsBeside()
    ensures "data" <= DATABASE && Strip(DATABASE, "data") == "base/x" && !UnderDir("data", DATABASE)
  {
    assert DATABASE == "data" + "base/x";
    assert DATABASE[4] == 'b' && "base/x"[0] == 'b';
  }

  lemma DefaultDir(conflictDir: string)
    requires conflictDir == ""
    ensures BackupDir(conflictDir) == DEFAULT_CONFLICT_DIR
  {
    BackupsAreFiltered(conflictDir);
    CleanIsIdentity(conflictDir);
  }

  lemma NotUnderDefault(key: string)
    requires key != "" && key[0] != '.'
    ensures !UnderDir(BackupDir(""), key)
  {
    DefaultDir("");
    assert (DEFAULT_CONFLICT_DIR + "/")[0] == '.';
  }

  lemma DatabaseIsCanonical()
    ensures Canonical(DATABASE)
  {
    SegmentIsCanonical("database");
    SegmentIsCanonical("x");
    CanonicalJoin("database", "x");
  }

  lemma BesideDataIsSane()
    ensures Sane(BesideData()) && Separate(BesideData()) && DstPrefix(BesideData()) == "data"
  {
    DataIsClean();
    DatabaseIsBeside();
    DatabaseIsCanonical();
    AskIsWellFormed(map[], [], map[DATABASE := [1]], [DATABASE], true, "", false, true);
    ListedAll(map[DATABASE := [1]], [DATABASE], "data");
    assert Plan(BesideData()).tasks == [];
  }

  /** `database/x` is outside the destination `data`, and the sync can delete it. */
  lemma DatabaseWitness()
    ensures Sane(BesideData()) && Separate(BesideData()) && Outside(BesideData(), DATABASE)
    ensures OnDeleteList(BesideData(), DATABASE) && CanRemove(Plan(BesideData()), DATABASE)
  {
    var r := BesideData();
    BesideDataIsSane();
    DatabaseIsBeside();
    NotUnderDefault(DATABASE);
    LiveByDefault("base/x");
    assert r.dstList[0].path == DATABASE;
    assert LastOfName(r.dstList, DstPrefix(r), r.opts.conflictDir, 0);
    DeletedExactly(r, DATABASE);
  }

  // ---------------------------------------------------------------- backups inside the destination

  const BAK := "data" + "/" + "bak"

  /** A `--delete` sync of an empty source to `data` with the conflict directory `data/bak`, in
      which there is an earlier backup. */
  function NestedBackups(key: string): Request {
    Ask(map[], [], map[key := [1]], [key], true, BAK, false, true).(dstPrefix := "data")
  }

  lemma BakNames()
    ensures Canonical("data") && Canonical(BAK) && DirName(BAK) && Clean("data") == "data" && BackupDir(BAK) == BAK
  {
    SegmentIsCanonical("data");
    SegmentIsCanonical("bak");
    CanonicalJoin("data", "bak");
    CleanIsIdentity(BAK);
    CleanIsIdentity("data");
  }

  lemma BelowBak(key: string) returns (rest: string)
    requires UnderDir(BAK, key)
    ensures key == DestPath("data", "bak" + rest)
  {
    rest := key[8..];
    assert key[..8] == BAK;
  }

  lemma BakIsLive(rest: string)
    ensures Live("bak" + rest, BAK)
  {
    BakNames();
    BackupsAreFiltered(BAK);
    assert ("bak" + rest)[0] == 'b' && BAK[0] == 'd' && DEFAULT_CONFLICT_DIR[0] == '.';
  }

  lemma NestedIsLive(key: string)
    requires UnderDir(BAK, key)
    ensures "data" <= key && Live(Strip(key, "data"), BAK)
  {
    var rest := BelowBak(key);
    StripOfJoin("data", "bak" + rest);
    KeyHasPrefix("data", "bak" + rest);
    BakIsLive(rest);
  }

  lemma NestedIsSane(key: string)
    requires UnderDir(BAK, key) && Canonical(key)
    ensures Sane(NestedBackups(key)) && Separate(NestedBackups(key)) && DstPrefix(NestedBackups(key)) == "data"
  {
    BakNames();
    NestedIsLive(key);
    AskIsWellFormed(map[], [], map[key := [1]], [key], true, BAK, false, true);
    ListedAll(map[key := [1]], [key], "data");
    assert Plan(NestedBackups(key)).tasks == [];
  }

  /** The backup has a live name below the destination prefix, and the sync can delete it. */
  lemma NestedWitness(key: string)
    requires UnderDir(BAK, key) && Canonical(key)
    ensures Sane(NestedBackups(key)) && Separate(NestedBackups(key)) && UnderDir(BackupDir(BAK), key)
    ensures OnDeleteList(NestedBackups(key), key) && CanRemove(Plan(NestedBackups(key)), key)
  {
    var r := NestedBackups(key);
    NestedIsSane(key);
    BakNames();
    NestedIsLive(key);
    assert r.dstList[0].path == key;
    assert LastOfName(r.dstList, DstPrefix(r), r.opts.conflictDir, 0);
    DeletedExactly(r, key);
  }

  // ---------------------------------------------------------------- two runs in one second

  const BACKUP := BackupPath("", "a", NOW)

  /** The destination holds "a" and a backup of it that is as old as the run. */
  function SameSecond(): Request {
    Ask(SOURCE, ["a"], map["a" := [2], BACKUP := [3]], ["a", BACKUP], true, "", false)
  }

  lemma SameSecondIsWellFormed()
    ensures WellFormed(SameSecond()) && SrcSeen(SameSecond(), "a") && DstSeen(SameSecond(), "a") && BACKUP != "a"
  {
    SegmentIsCanonical("a");
    BackupPathCanonical("", "a", NOW);
    BackupPathShape("", "a", NOW);
    AskIsWellFormed(SOURCE, ["a"], map["a" := [2], BACKUP := [3]], ["a", BACKUP], true, "", false);
  }

  lemma SameSecondClashes() returns (i: nat)
    requires WellFormed(SameSecond()) && SrcSeen(SameSecond(), "a") && DstSeen(SameSecond(), "a") && BACKUP != "a"
    ensures var j := Plan(SameSecond());
            i < |j.tasks| && NOW in j.stamps && BackupKey(j, i, NOW) == BACKUP && Clashes(j, i, NOW)
  {
    var r := SameSecond();
    LiveByDefault("a");
    AsTextInjective();
    i := TaskIndex(r, "a");
    TaskSides(r, i);
    PlannedTask(r, Plan(r).tasks[i]);
    assert Source(Plan(r), i) == Some([1]) && Before(Plan(r), i) == Some([2]);
  }

  /** A backup made earlier in the same second is replaced by the next one of that name. */
  lemma SameSecondWitness()
    ensures WellFormed(SameSecond()) && Replaceable(Plan(SameSecond()), BACKUP) && !NeverLoses(Plan(SameSecond()))
  {
    SameSecondIsWellFormed();
    var i := SameSecondClashes();
    assert !NoClash(Plan(SameSecond()));
    BackupsSufficeExactly(SameSecond());
  }
}

/** How a sync run names things: relative names, destination keys and conflict backups. */
module Names {
  import opened Text
  import opened Keys

  const DEFAULT_CONFLICT_DIR := ".conflicts"

  /** `strings.Trim(strings.ReplaceAll(p, "\\", "/"), "/")`. */
  function Clean(p: string): string {
    TrimSlashes(ReplaceBackslashes(p))
  }

  /** The directory the listing filter looks for. */
  function FilteredDir(conflictDir: string): string {
    if Clean(conflictDir) == "" then DEFAULT_CONFLICT_DIR else Clean(conflictDir)
  }

  /** The directory backups are written to. */
  function BackupDir(conflictDir: string): string {
    Clean(if conflictDir == "" then DEFAULT_CONFLICT_DIR else conflictDir)
  }

  /** The relative name of a listed path. */
  function Strip(path: string, prefix: string): string {
    if prefix != "" && prefix <= path then TrimPrefix(TrimPrefix(path, prefix), "/") else path
  }

  /** Names under the conflict directories take no part in a sync. */
  predicate Live(rel: string, conflictDir: string) {
    !(DEFAULT_CONFLICT_DIR <= rel) && !(FilteredDir(conflictDir) <= rel)
  }

  function DestPath(prefix: string, rel: string): string {
    if prefix == "" then rel else prefix + "/" + rel
  }

  function BackupTail(stamp: string): string {
    "." + stamp + ".conflict"
  }

  /** `<conflictDir>/<path>.<timestamp>.conflict`. */
  function BackupPath(conflictDir: string, path: string, stamp: string): string {
    BackupDir(conflictDir) + "/" + (TrimPrefix(ReplaceBackslashes(path), "/") + BackupTail(stamp))
  }

  // ---------------------------------------------------------------- premises on names

  /** A prefix or conflict directory given in its clean form, or left empty. */
  predicate CleanName(p: string) {
    p == "" || Canonical(p)
  }

  /** A conflict directory in any spelling: left empty, or relative with a canonical clean
      form. */
  predicate DirName(p: string) {
    p == "" || (p[0] != '/' && Canonical(Clean(p)))
  }

  /** The shape of a formatted timestamp, "20060102T150405Z": sixteen plain characters. */
  predicate IsStamp(s: string) {
    |s| == 16 && '/' !in s && '\\' !in s
  }

  predicate UnderDir(dir: string, key: string) {
    dir + "/" <= key
  }

  /** A destination prefix and the conflict directory that cannot be mistaken for another. */
  predicate Apart(prefix: string, conflictDir: string) {
    prefix != "" ==> !(prefix <= BackupDir(conflictDir) + "/") && !(BackupDir(conflictDir) + "/" <= prefix)
  }

  /** Which names take part: those that start neither with ".conflicts" nor with the cleaned name
      of the conflict directory, if it has one. */
  lemma LiveExactly(rel: string, conflictDir: string)
    ensures Live(rel, conflictDir)
            <==> !(".conflicts" <= rel) && (Clean(conflictDir) == "" || !(Clean(conflictDir) <= rel))
  {
  }

  lemma TrimClean(p: string)
    requires p == "" || (p[0] != '/' && p[|p| - 1] != '/')
    ensures TrimSlashes(p) == p
  {
  }

  /** A clean name is left alone by the cleaning the engine does. */
  lemma CleanIsIdentity(p: string)
    requires CleanName(p)
    ensures Clean(p) == p
  {
    if p != "" { CanonicalEnds(p); }
    NoBackslashes(p);
    TrimClean(p);
  }

  lemma DefaultIsCanonical()
    ensures Canonical(DEFAULT_CONFLICT_DIR)
  {
    DefaultIsPlain();
    SplitSegment(DEFAULT_CONFLICT_DIR);
  }

  lemma DefaultIsPlain()
    ensures PlainSegment(DEFAULT_CONFLICT_DIR) && '\\' !in DEFAULT_CONFLICT_DIR
  {
  }

  /** Backups go where the filter looks. */
  lemma BackupsAreFiltered(conflictDir: string)
    requires DirName(conflictDir)
    ensures BackupDir(conflictDir) == FilteredDir(conflictDir)
    ensures Canonical(BackupDir(conflictDir))
  {
    DefaultIsCanonical();
    CleanIsIdentity(DEFAULT_CONFLICT_DIR);
    CleanIsIdentity("");
    if conflictDir != "" { CanonicalEnds(Clean(conflictDir)); }
  }

  /** A prefix in any spelling with a clean form is listed under that form. */
  lemma ListedPrefix(p: string)
    requires CleanName(Clean(p))
    ensures NormalizeKey(p) == Clean(p)
  {
    var s := ReplaceBackslashes(p);
    TrimLeftCleans(s);
    TrimRightCleans(TrimLeft(s));
    if Clean(p) == "" {
      assert Split("") == [""];
      assert CleanOnto([], [""]) == CleanOnto([], [""][1..]);
    } else {
      CanonicalFixed(Clean(p));
      NoBackslashes(Clean(p));
    }
  }

  // ---------------------------------------------------------------- round trips

  /** Stripping the prefix a name was joined to gives the name back. */
  lemma StripOfJoin(prefix: string, rel: string)
    requires rel == "" || rel[0] != '/'
    ensures Strip(DestPath(prefix, rel), prefix) == rel
  {
    if prefix != "" {
      var path := prefix + "/" + rel;
      assert path[..|prefix|] == prefix;
      assert path[|prefix|..] == "/" + rel;
      assert ("/" + rel)[1..] == rel;
    }
  }

  /** Stripping a prefix from a listed path and joining it again gives the path back exactly
      when the path lies below the prefix; `database` folds into the prefix `data`. */
  lemma JoinOfStripExactly(prefix: string, path: string)
    requires prefix <= path
    ensures DestPath(prefix, Strip(path, prefix)) == path <==> prefix == "" || prefix + "/" <= path
    ensures Strip("database", "data") == "base" && DestPath("data", "base") != "database"
  {
    assert path == prefix + path[|prefix|..];
    assert "database"[..4] == "data" && "database"[4..] == "base" && "base"[0] != '/';
    if prefix != "" && prefix + "/" <= path {
      assert path[|prefix|] == '/' && TrimPrefix(path[|prefix|..], "/") == path[|prefix| + 1..];
      assert path == prefix + "/" + path[|prefix| + 1..];
    } else if prefix != "" && DestPath(prefix, Strip(path, prefix)) == path {
      PrefixesOfOne(prefix + "/", Strip(path, prefix), path);
    }
  }

  lemma JoinInjective(prefix: string, a: string, b: string)
    requires DestPath(prefix, a) == DestPath(prefix, b)
    ensures a == b
  {
    if prefix != "" {
      assert (prefix + "/" + a)[|prefix| + 1..] == a;
      assert (prefix + "/" + b)[|prefix| + 1..] == b;
    }
  }

  lemma DestPathCanonical(prefix: string, rel: string)
    requires CleanName(prefix)
    ensures Canonical(DestPath(prefix, rel)) <==> Canonical(rel)
  {
    if prefix != "" { CanonicalJoin(prefix, rel); }
  }

  // ---------------------------------------------------------------- backup names

  /** A backup of a canonical path, written out. */
  lemma BackupPathShape(conflictDir: string, path: string, stamp: string)
    requires Canonical(path)
    ensures BackupPath(conflictDir, path, stamp) == BackupDir(conflictDir) + "/" + (path + BackupTail(stamp))
    ensures UnderDir(BackupDir(conflictDir), BackupPath(conflictDir, path, stamp))
  {
    NoBackslashes(path);
    CanonicalEnds(path);
  }

  /** Where a backup goes: below ".conflicts", or below the directory given, under the path it
      saves, followed by the time and ".conflict". */
  lemma BackupSpelledOut(conflictDir: string, path: string, stamp: string)
    requires Canonical(path) && DirName(conflictDir)
    ensures BackupPath(conflictDir, path, stamp)
            == (if conflictDir == "" then ".conflicts" else Clean(conflictDir)) + "/" + path + "." + stamp + ".conflict"
  {
    BackupPathShape(conflictDir, path, stamp);
    BackupDirExactly(conflictDir);
    FourParts(BackupDir(conflictDir) + "/", path, "." + stamp, ".conflict");
    assert BackupDir(conflictDir) + "/" + path + ("." + stamp) == BackupDir(conflictDir) + "/" + path + "." + stamp;
  }

  lemma BackupDirExactly(conflictDir: string)
    ensures BackupDir(conflictDir) == if conflictDir == "" then ".conflicts" else Clean(conflictDir)
  {
    if conflictDir == "" {
      DefaultIsCanonical();
      CleanIsIdentity(DEFAULT_CONFLICT_DIR);
    }
  }

  lemma FourParts(a: string, b: string, c: string, d: string)
    ensures a + (b + (c + d)) == a + b + c + d
  {
  }

  /** Spellings that clean to one name. */
  lemma CleanWitness()
    ensures Clean("data/") == Clean("/data") == Clean("\\data\\") == "data" && Clean("/") == "" == Clean("")
  {
    assert ReplaceBackslashes("\\data\\") == "/data/";
    assert "/data/"[1..] == "data/" && "/data"[1..] == "data" && "data/"[..4] == "data" && "/"[1..] == "";
    NoBackslashes("data/");
    NoBackslashes("/data");
    NoBackslashes("/");
    NoBackslashes("");
    TrimClean("data");
    assert TrimLeft("data/") == "data/" && TrimRight("data/") == TrimRight("data") == "data";
  }

  lemma TailIsPlain(stamp: string)
    requires IsStamp(stamp)
    ensures '/' !in BackupTail(stamp) && '\\' !in BackupTail(stamp) && |BackupTail(stamp)| == 26
  {
  }

  lemma BackupPathCanonical(conflictDir: string, path: string, stamp: string)
    requires DirName(conflictDir) && Canonical(path) && IsStamp(stamp)
    ensures Canonical(BackupPath(conflictDir, path, stamp))
  {
    BackupsAreFiltered(conflictDir);
    BackupPathShape(conflictDir, path, stamp);
    TailIsPlain(stamp);
    CanonicalAppend(path, BackupTail(stamp));
    CanonicalJoin(BackupDir(conflictDir), path + BackupTail(stamp));
  }

  predicate EndsWithStamp(key: string, stamp: string) {
    |key| >= |BackupTail(stamp)| && key[|key| - |BackupTail(stamp)|..] == BackupTail(stamp)
  }

  lemma BackupEndsWithStamp(conflictDir: string, path: string, stamp: string)
    ensures EndsWithStamp(BackupPath(conflictDir, path, stamp), stamp)
  {
  }

  /** Timestamps have one width, so a name ends in at most one of them. */
  lemma StampUnique(key: string, a: string, b: string)
    requires IsStamp(a) && IsStamp(b)
    requires EndsWithStamp(key, a) && EndsWithStamp(key, b)
    ensures a == b
  {
    assert BackupTail(a)[1..17] == a && BackupTail(b)[1..17] == b;
  }

  lemma Middle(d: string, p: string, tail: string)
    ensures var k := d + (p + tail); k[|d|..|k| - |tail|] == p
  {
  }

  /** A backup name determines both the path it saves and the time it was made. */
  lemma BackupInjective(conflictDir: string, p: string, s: string, q: string, t: string)
    requires Canonical(p) && Canonical(q) && IsStamp(s) && IsStamp(t)
    requires BackupPath(conflictDir, p, s) == BackupPath(conflictDir, q, t)
    ensures p == q && s == t
  {
    BackupEndsWithStamp(conflictDir, p, s);
    BackupEndsWithStamp(conflictDir, q, t);
    StampUnique(BackupPath(conflictDir, p, s), s, t);
    BackupPathShape(conflictDir, p, s);
    BackupPathShape(conflictDir, q, t);
    Middle(BackupDir(conflictDir) + "/", p, BackupTail(s));
    Middle(BackupDir(conflictDir) + "/", q, BackupTail(t));
  }

  /** No key is both a live name below the destination prefix and a backup. */
  lemma LiveIsNoBackup(prefix: string, conflictDir: string, rel: string)
    requires DirName(conflictDir) && Apart(prefix, conflictDir) && Live(rel, conflictDir)
    ensures !UnderDir(BackupDir(conflictDir), DestPath(prefix, rel))
  {
    BackupsAreFiltered(conflictDir);
    var dir := BackupDir(conflictDir);
    if prefix == "" {
      UnderMeansPrefix(dir, rel);
    } else {
      KeyHasPrefix(prefix, rel);
      PrefixesOfOne(prefix, dir + "/", DestPath(prefix, rel));
    }
  }

  lemma UnderMeansPrefix(dir: string, key: string)
    ensures UnderDir(dir, key) ==> dir <= key
  {
    PrefixesOfOne(dir, "/", dir + "/");
    PrefixesOfOne(dir, dir + "/", key);
  }

  lemma KeyHasPrefix(prefix: string, rel: string)
    requires prefix != ""
    ensures prefix <= DestPath(prefix, rel)
  {
    assert prefix + "/" + rel == prefix + ("/" + rel);
  }
}

/** Symbolic links: how a path resolves, and the check that climbs from a path to the root. */
module Confinement {
  import opened Prelude
  import opened Text

  /** A path is the list of its segments; [] is "/". */
  type Path = seq<string>

  datatype Entry = File | Dir | Link(absolute: bool, target: Path)

  /** A fixed file system, by physical path; "/" itself is always a directory. */
  type FileSystem = map<Path, Entry>

  datatype ResolveError = NotExist | NotDir | TooManyLinks

  function Parent(p: Path): Path {
    if p == [] then [] else p[..|p| - 1]
  }

  /** Where `segs` leads from the physical directory `cwd`, following at most `limit` links. */
  function Resolve(fs: FileSystem, cwd: Path, segs: Path, limit: nat): Result<Path, ResolveError>
    decreases limit, |segs|
  {
    if segs == [] then Ok(cwd)
    else
      var rest := segs[1..];
      if segs[0] == "" || segs[0] == "." then Resolve(fs, cwd, rest, limit)
      else if segs[0] == ".." then Resolve(fs, Parent(cwd), rest, limit)
      else
        var p := cwd + [segs[0]];
        if p !in fs then Err(NotExist)
        else match fs[p]
          case File => if rest == [] then Ok(p) else Err(NotDir)
          case Dir => Resolve(fs, p, rest, limit)
          case Link(absolute, target) =>
            if limit == 0 then Err(TooManyLinks)
            else Resolve(fs, if absolute then [] else cwd, target + rest, limit - 1)
  }

  /** A higher limit changes nothing but "too many links". */
  lemma {:induction false} MoreLinks(fs: FileSystem, cwd: Path, segs: Path, a: nat, b: nat)
    requires a <= b && Resolve(fs, cwd, segs, a) != Err(TooManyLinks)
    ensures Resolve(fs, cwd, segs, b) == Resolve(fs, cwd, segs, a)
    decreases a, |segs|
  {
    if segs != [] {
      var rest, p := segs[1..], cwd + [segs[0]];
      if segs[0] == "" || segs[0] == "." {
        MoreLinks(fs, cwd, rest, a, b);
      } else if segs[0] == ".." {
        MoreLinks(fs, Parent(cwd), rest, a, b);
      } else if p in fs && fs[p].Dir? {
        MoreLinks(fs, p, rest, a, b);
      } else if p in fs && fs[p].Link? {
        MoreLinks(fs, if fs[p].absolute then [] else cwd, fs[p].target + rest, a - 1, b - 1);
      }
    }
  }

  /** Two limits that both suffice agree. */
  lemma LimitsAgree(fs: FileSystem, cwd: Path, segs: Path, a: nat, b: nat)
    requires Resolve(fs, cwd, segs, a) != Err(TooManyLinks)
    requires Resolve(fs, cwd, segs, b) != Err(TooManyLinks)
    ensures Resolve(fs, cwd, segs, a) == Resolve(fs, cwd, segs, b)
  {
    if a <= b { MoreLinks(fs, cwd, segs, a, b); } else { MoreLinks(fs, cwd, segs, b, a); }
  }

  ghost predicate GoesOnTo(fs: FileSystem, d: Path, segs: Path, limit: nat, loc: Path) {
    Resolve(fs, d, segs, limit) == Ok(loc)
  }

  /** A path that resolves does so by way of its directory. */
  lemma {:induction false} ByWayOf(fs: FileSystem, cwd: Path, a: Path, b: Path, limit: nat)
    requires Resolve(fs, cwd, a + b, limit).Ok?
    requires b != []
    ensures Resolve(fs, cwd, a, limit).Ok?
    ensures exists left: nat ::
              GoesOnTo(fs, Resolve(fs, cwd, a, limit).value, b, left, Resolve(fs, cwd, a + b, limit).value)
    decreases limit, |a|
  {
    if a == [] {
      assert a + b == b;
      assert GoesOnTo(fs, cwd, b, limit, Resolve(fs, cwd, b, limit).value);
    } else {
      var rest, p := a[1..], cwd + [a[0]];
      assert (a + b)[1..] == rest + b;
      if a[0] == "" || a[0] == "." {
        ByWayOf(fs, cwd, rest, b, limit);
      } else if a[0] == ".." {
        ByWayOf(fs, Parent(cwd), rest, b, limit);
      } else if fs[p].Dir? {
        ByWayOf(fs, p, rest, b, limit);
      } else {
        assert fs[p].target + (rest + b) == fs[p].target + rest + b;
        ByWayOf(fs, if fs[p].absolute then [] else cwd, fs[p].target + rest, b, limit - 1);
      }
    }
  }

  /** `os.Lstat`: every segment but the last is resolved. */
  function Lstat(fs: FileSystem, p: Path, limit: nat): Result<Entry, ResolveError> {
    if p == [] then Ok(Dir)
    else match Resolve(fs, [], Parent(p), limit)
      case Err(e) => Err(e)
      case Ok(d) =>
        var at := d + [p[|p| - 1]];
        if d != [] && d in fs && fs[d].File? then Err(NotDir)
        else if at in fs then Ok(fs[at])
        else Err(NotExist)
  }

  // ---------------------------------------------------------------- relative paths

  /** `filepath.Rel` between two clean absolute paths, before the segments are joined. */
  function RelSegments(base: Path, targ: Path): Path {
    if base != [] && targ != [] && base[0] == targ[0] then RelSegments(base[1..], targ[1..])
    else seq(|base|, _ => "..") + targ
  }

  function Rel(base: Path, targ: Path): string {
    if base == targ then "." else Join(RelSegments(base, targ))
  }

  predicate Escapes(rel: string) {
    rel == ".." || "../" <= rel
  }

  lemma {:induction false} RelStart(base: Path, targ: Path)
    ensures base <= targ ==> RelSegments(base, targ) == targ[|base|..]
    ensures !(base <= targ) ==> RelSegments(base, targ) != [] && RelSegments(base, targ)[0] == ".."
  {
    if base != [] && targ != [] && base[0] == targ[0] {
      RelStart(base[1..], targ[1..]);
      assert base == [base[0]] + base[1..] && targ == [targ[0]] + targ[1..];
      if base <= targ { assert base[1..] == base[1..|base|] == targ[1..|base|]; }
    }
  }

  /** The test on the relative path says whether the target lies outside the base. */
  lemma RelTest(base: Path, targ: Path)
    requires Plain(targ)
    ensures Escapes(Rel(base, targ)) <==> !(base <= targ)
  {
    RelStart(base, targ);
    var segs := RelSegments(base, targ);
    if base <= targ {
      if segs != [] {
        assert forall s :: s in segs ==> s in targ;
        NotDotDot(segs);
      }
    } else if |segs| > 1 {
      assert Join(segs) == ".." + "/" + Join(segs[1..]);
      assert "../" <= Join(segs) by { assert ".." + "/" == "../"; }
    }
  }

  lemma NotDotDot(segs: Path)
    requires Plain(segs) && segs != []
    ensures !Escapes(Join(segs))
  {
    assert segs[0] in segs;
    SplitJoin(segs);
    var s := Join(segs);
    if s == ".." {
      SplitSegment("..");
    } else if "../" <= s {
      assert s == ".." + "/" + s[3..];
      SplitConcat("..", s[3..]);
      SplitSegment("..");
    }
  }

  // ---------------------------------------------------------------- the climbing check

  /** A clean absolute path as a string. */
  function Render(p: Path): string {
    "/" + Join(p)
  }

  /** Up to the first `limit` links: the kernel's limit for Lstat, the library's for
      EvalSymlinks. */
  datatype Limits = Limits(lstat: nat, eval: nat)

  /** What the check demands of one path: it is absent, or not a link, or a link that
      resolves to a place inside the root. */
  predicate LinkOk(fs: FileSystem, root: Path, p: Path, limits: Limits) {
    match Lstat(fs, p, limits.lstat)
    case Err(e) => e == NotExist
    case Ok(entry) =>
      entry.Link? ==> Resolve(fs, [], p, limits.eval).Ok? && root <= Resolve(fs, [], p, limits.eval).value
  }

  /** Every path from the target up to the root passes. */
  predicate Confined(fs: FileSystem, root: Path, target: Path, limits: Limits) {
    forall n :: |root| <= n <= |target| ==> LinkOk(fs, root, target[..n], limits)
  }

  datatype LinkError = BadLink | BadStat

  /** Every place a path can resolve to is a physical one. */
  lemma {:induction false} ResolvedIsPlain(fs: FileSystem, cwd: Path, segs: Path, limit: nat)
    requires Plain(cwd) && (forall s :: s in segs ==> '/' !in s) && TargetsOk(fs)
    ensures Resolve(fs, cwd, segs, limit).Ok? ==> Plain(Resolve(fs, cwd, segs, limit).value)
    decreases limit, |segs|
  {
    if segs != [] {
      var rest, p := segs[1..], cwd + [segs[0]];
      if segs[0] == "" || segs[0] == "." {
        ResolvedIsPlain(fs, cwd, rest, limit);
      } else if segs[0] == ".." {
        ResolvedIsPlain(fs, Parent(cwd), rest, limit);
      } else if p in fs && fs[p].Dir? {
        ResolvedIsPlain(fs, p, rest, limit);
      } else if p in fs && fs[p].Link? && limit > 0 {
        ResolvedIsPlain(fs, if fs[p].absolute then [] else cwd, fs[p].target + rest, limit - 1);
      }
    }
  }

  /** Link targets come split at their slashes. */
  ghost predicate TargetsOk(fs: FileSystem) {
    forall p :: p in fs && fs[p].Link? ==> forall s :: s in fs[p].target ==> '/' !in s
  }

  lemma {:induction false} JoinLength(p: Path)
    requires p != []
    ensures |Join(p)| == |Join(p[..|p| - 1])| + |p[|p| - 1]| + if |p| > 1 then 1 else 0
  {
    if |p| > 1 {
      JoinLength(p[1..]);
      assert p[1..][..|p| - 2] == p[..|p| - 1][1..];
    }
  }

  /** Dropping segments below the root shortens the written path, but not below the root's. */
  lemma {:induction false} LengthTest(root: Path, p: Path)
    requires Plain(p) && root <= p && p != []
    ensures |Render(Parent(p))| < |Render(root)| <==> p == root
  {
    assert p[|p| - 1] in p;
    JoinLength(p);
    if p != root {
      assert root <= Parent(p);
      if Parent(p) != root {
        assert Plain(Parent(p));
        JoinLength(Parent(p));
        LengthTest(root, Parent(p));
      }
    }
  }

  // ---------------------------------------------------------------- links and plain ways, spelled out

  predicate DirAt(fs: FileSystem, p: Path) {
    p == [] || (p in fs && fs[p] == Dir)
  }

  /** Every directory on the way to `p`, from "/" down, is a plain one. */
  predicate StraightTo(fs: FileSystem, p: Path) {
    forall n :: 0 <= n < |p| ==> DirAt(fs, p[..n])
  }

  /** Walking from `cwd` by `segs`, "." and ".." taken as they are written, every place passed
      through before the last is a plain directory. */
  predicate StraightBy(fs: FileSystem, cwd: Path, segs: Path) {
    forall n :: 0 <= n < |segs| ==> DirAt(fs, CleanOnto(cwd, segs[..n]))
  }

  lemma CleanStep(cwd: Path, segs: Path, n: nat)
    requires segs != [] && n < |segs|
    ensures CleanOnto(CleanOnto(cwd, [segs[0]]), segs[1..][..n]) == CleanOnto(cwd, segs[..n + 1])
  {
    CleanConcat(cwd, [segs[0]], segs[1..][..n]);
    assert [segs[0]] + segs[1..][..n] == segs[..n + 1];
  }

  lemma StraightOn(fs: FileSystem, cwd: Path, segs: Path)
    requires StraightBy(fs, cwd, segs) && segs != []
    ensures StraightBy(fs, CleanOnto(cwd, [segs[0]]), segs[1..]) && DirAt(fs, cwd)
    ensures |segs| > 1 ==> DirAt(fs, CleanOnto(cwd, [segs[0]]))
    ensures CleanOnto(CleanOnto(cwd, [segs[0]]), segs[1..]) == CleanOnto(cwd, segs)
  {
    forall n | 0 <= n < |segs[1..]| ensures DirAt(fs, CleanOnto(CleanOnto(cwd, [segs[0]]), segs[1..][..n])) {
      CleanStep(cwd, segs, n);
    }
    assert segs[..0] == [] && CleanOnto(cwd, []) == cwd;
    if |segs| > 1 { CleanStep(cwd, segs, 0); }
    CleanConcat(cwd, [segs[0]], segs[1..]);
    assert [segs[0]] + segs[1..] == segs;
  }

  /** Where a straight way ends is where its spelling, cleaned, says. */
  lemma {:induction false} ResolveStraight(fs: FileSystem, cwd: Path, segs: Path, rest: Path, limit: nat)
    requires StraightBy(fs, cwd, segs) && DirAt(fs, CleanOnto(cwd, segs))
    ensures Resolve(fs, cwd, segs + rest, limit) == Resolve(fs, CleanOnto(cwd, segs), rest, limit)
    decreases |segs|
  {
    if segs == [] {
      assert segs + rest == rest;
    } else {
      StraightOn(fs, cwd, segs);
      OneSegment(cwd, segs[0]);
      assert (segs + rest)[1..] == segs[1..] + rest;
      if |segs| == 1 { assert segs == [segs[0]]; }
      ResolveStraight(fs, CleanOnto(cwd, [segs[0]]), segs[1..], rest, limit);
    }
  }

  /** Resolving a straight way that ends at a file, at a directory or nowhere. */
  lemma ResolveEnd(fs: FileSystem, cwd: Path, segs: Path, limit: nat)
    requires StraightBy(fs, cwd, segs)
    ensures var d := CleanOnto(cwd, segs);
      && (DirAt(fs, d) ==> Resolve(fs, cwd, segs, limit) == Ok(d))
      && (d in fs && fs[d] == File && segs != [] && PlainSegment(segs[|segs| - 1]) ==>
            Resolve(fs, cwd, segs, limit) == Ok(d))
      && (d != [] && d !in fs && segs != [] && PlainSegment(segs[|segs| - 1]) ==>
            Resolve(fs, cwd, segs, limit) == Err(NotExist))
  {
    if DirAt(fs, CleanOnto(cwd, segs)) {
      ResolveStraight(fs, cwd, segs, [], limit);
      assert segs + [] == segs;
    } else if segs != [] && PlainSegment(segs[|segs| - 1]) {
      LastStep(fs, cwd, segs, limit);
    }
  }

  lemma LastStep(fs: FileSystem, cwd: Path, segs: Path, limit: nat)
    requires StraightBy(fs, cwd, segs) && segs != [] && PlainSegment(segs[|segs| - 1])
    ensures var d := CleanOnto(cwd, segs);
      && d != []
      && (d in fs && fs[d] == File ==> Resolve(fs, cwd, segs, limit) == Ok(d))
      && (d !in fs ==> Resolve(fs, cwd, segs, limit) == Err(NotExist))
  {
    var front, last := segs[..|segs| - 1], segs[|segs| - 1];
    assert segs == front + [last];
    forall n | 0 <= n < |front| ensures DirAt(fs, CleanOnto(cwd, front[..n])) { assert front[..n] == segs[..n]; }
    assert StraightBy(fs, cwd, front);
    ResolveStraight(fs, cwd, front, [last], limit);
    CleanConcat(cwd, front, [last]);
    OneSegment(CleanOnto(cwd, front), last);
  }

  lemma StraightSpelled(fs: FileSystem, p: Path, n: nat)
    requires Plain(p) && StraightTo(fs, p) && n <= |p|
    ensures StraightBy(fs, [], p[..n]) && CleanOnto([], p[..n]) == p[..n]
  {
    forall m | 0 <= m <= n ensures CleanOnto([], p[..n][..m]) == p[..m] {
      assert p[..n][..m] == p[..m] && forall s :: s in p[..m] ==> s in p;
      CleanPlain([], p[..m]);
      assert [] + p[..m] == p[..m];
    }
    assert p[..n][..n] == p[..n];
  }

  lemma LstatStraight(fs: FileSystem, p: Path, n: nat, limit: nat)
    requires Plain(p) && StraightTo(fs, p) && n <= |p|
    ensures Lstat(fs, p[..n], limit)
            == if n == 0 then Ok(Dir) else if p[..n] in fs then Ok(fs[p[..n]]) else Err(NotExist)
  {
    if n > 0 {
      StraightSpelled(fs, p, n - 1);
      var q := p[..n];
      assert Parent(q) == p[..n - 1] && p[..n - 1] + [q[|q| - 1]] == q;
      assert DirAt(fs, p[..n - 1]);
      ResolveEnd(fs, [], p[..n - 1], limit);
    }
  }

  /** Where the link at `p` leads, by its text: an absolute target from "/", a relative one from
      the directory the link is in. */
  function LinkEnd(fs: FileSystem, p: Path): Path
    requires p in fs && fs[p].Link?
  {
    CleanOnto(if fs[p].absolute then [] else Parent(p), fs[p].target)
  }

  /** A link reached through plain directories, whose text leads through plain directories. */
  predicate StraightLink(fs: FileSystem, p: Path) {
    && p != [] && StraightTo(fs, p) && p in fs && fs[p].Link?
    && StraightBy(fs, if fs[p].absolute then [] else Parent(p), fs[p].target)
    && fs[p].target != [] && PlainSegment(fs[p].target[|fs[p].target| - 1])
  }

  lemma LinkResolves(fs: FileSystem, p: Path, limit: nat)
    requires Plain(p) && StraightLink(fs, p) && limit >= 1
    ensures var d := LinkEnd(fs, p);
      && (d in fs && !fs[d].Link? ==> Resolve(fs, [], p, limit) == Ok(d))
      && (d !in fs ==> Resolve(fs, [], p, limit) == Err(NotExist))
  {
    var front, last := Parent(p), p[|p| - 1];
    assert p == front + [last] && last in p;
    StraightSpelled(fs, p, |p| - 1);
    assert DirAt(fs, p[..|p| - 1]);
    ResolveStraight(fs, [], front, [last], limit);
    assert front + [last] == p && fs[p].target + [] == fs[p].target;
    var cwd, text := if fs[p].absolute then [] else Parent(p), fs[p].target;
    LastStep(fs, cwd, text, limit - 1);
    ResolveEnd(fs, cwd, text, limit - 1);
  }

  /** A link reached through plain directories is accepted exactly when the place its text leads
      to is there and lies below the root. */
  lemma StraightLinkJudged(fs: FileSystem, root: Path, target: Path, limits: Limits)
    requires Plain(target) && root <= target && StraightLink(fs, target) && limits.eval >= 1
    ensures LinkEnd(fs, target) in fs && !fs[LinkEnd(fs, target)].Link? ==>
              (Confined(fs, root, target, limits) <==> root <= LinkEnd(fs, target))
    ensures LinkEnd(fs, target) !in fs ==> !Confined(fs, root, target, limits)
  {
    LinkResolves(fs, target, limits.eval);
    forall n | |root| <= n < |target| ensures LinkOk(fs, root, target[..n], limits) {
      LstatStraight(fs, target, n, limits.lstat);
      assert DirAt(fs, target[..n]);
    }
    LstatStraight(fs, target, |target|, limits.lstat);
    assert target[..|target|] == target;
    assert Confined(fs, root, target, limits) <==> LinkOk(fs, root, target, limits);
  }

  /** No path from "/" down to the target is a link. */
  predicate NoLinks(fs: FileSystem, target: Path) {
    forall n :: 0 < n <= |target| && target[..n] in fs ==> !fs[target[..n]].Link?
  }

  /** Plain directories lead to a file at the first `m` segments. */
  predicate FileAt(fs: FileSystem, p: Path, m: int) {
    0 < m <= |p| && p[..m] in fs && fs[p[..m]] == File && StraightTo(fs, p[..m])
  }

  /** The way to the target runs into a file. */
  predicate ThroughFile(fs: FileSystem, target: Path) {
    exists m :: 0 < m < |target| && FileAt(fs, target, m)
  }

  lemma FilesOnWay(fs: FileSystem, p: Path, k: nat, m: int)
    requires k < |p| && StraightTo(fs, p[..k]) && DirAt(fs, p[..k])
    ensures m <= k ==> !FileAt(fs, p, m)
    ensures m > k + 1 && !DirAt(fs, p[..k + 1]) ==> !FileAt(fs, p, m)
  {
    if 0 < m < k { assert p[..k][..m] == p[..m]; }
    if k + 1 < m <= |p| { assert p[..m][..k + 1] == p[..k + 1]; }
  }

  lemma StraightOneMore(fs: FileSystem, p: Path, k: nat)
    requires k < |p| && StraightTo(fs, p[..k]) && DirAt(fs, p[..k])
    ensures StraightTo(fs, p[..k + 1])
  {
    var q := p[..k + 1];
    forall n | 0 <= n < |q| ensures DirAt(fs, q[..n]) {
      assert q[..n] == if n < k then p[..k][..n] else p[..k];
    }
  }

  /** Without links, resolving gets to the end, finds nothing where a directory should be, or
      runs into a file. */
  lemma {:induction false} NoLinksResolve(fs: FileSystem, p: Path, k: nat, n: nat, limit: nat)
    requires Plain(p) && NoLinks(fs, p) && k <= n <= |p| && StraightTo(fs, p[..k]) && DirAt(fs, p[..k])
    ensures var way := Resolve(fs, p[..k], p[k..n], limit);
      || (way == Ok(p[..n]) && forall m :: m < n ==> !FileAt(fs, p, m))
      || (way == Err(NotExist) && forall m :: m <= n ==> !FileAt(fs, p, m))
      || (way == Err(NotDir) && exists m :: m < n && FileAt(fs, p, m))
    ensures Resolve(fs, p[..k], p[k..n], limit) == Ok(p[..n]) ==>
              DirAt(fs, p[..n]) || FileAt(fs, p, n)
    decreases n - k
  {
    if k < n {
      var q := p[..k + 1];
      assert p[k] in p && p[k..n][0] == p[k] && p[k..n][1..] == p[k + 1..n] && p[..k] + [p[k]] == q;
      StraightOneMore(fs, p, k);
      if DirAt(fs, q) {
        NoLinksResolve(fs, p, k + 1, n, limit);
      } else {
        forall m ensures m != k + 1 ==> !FileAt(fs, p, m) { FilesOnWay(fs, p, k, m); }
        if q in fs { assert fs[q] == File && FileAt(fs, p, k + 1); }
      }
    } else {
      forall m | m < n ensures !FileAt(fs, p, m) {
        if 0 < m { assert p[..k][..m] == p[..m]; }
      }
    }
  }

  lemma NoLinksOk(fs: FileSystem, root: Path, p: Path, n: nat, limits: Limits)
    requires Plain(p) && NoLinks(fs, p) && n <= |p|
    ensures LinkOk(fs, root, p[..n], limits) <==> forall m :: m < n ==> !FileAt(fs, p, m)
  {
    if n > 0 {
      NoLinksResolve(fs, p, 0, n - 1, limits.lstat);
      var q := p[..n];
      assert p[0..n - 1] == Parent(q) && p[..n - 1] + [q[|q| - 1]] == q;
      assert n > 1 && p[..n - 1] in fs && fs[p[..n - 1]] == File ==> !DirAt(fs, p[..n - 1]);
    }
  }

  /** A target with no link on the way is accepted exactly when the way does not run into a
      file. */
  lemma NoLinksJudged(fs: FileSystem, root: Path, target: Path, limits: Limits)
    requires Plain(target) && root <= target && NoLinks(fs, target)
    ensures Confined(fs, root, target, limits) <==> !ThroughFile(fs, target)
  {
    forall n | |root| <= n <= |target|
      ensures LinkOk(fs, root, target[..n], limits) <==> forall m :: m < n ==> !FileAt(fs, target, m)
    {
      NoLinksOk(fs, root, target, n, limits);
    }
    assert Confined(fs, root, target, limits) ==> LinkOk(fs, root, target[..|target|], limits);
  }

  /** What is to be decided about links and paths that can be read off the tree: a link reached
      through plain directories passes exactly when the place its text leads to, an absolute one
      from "/", a relative one from the directory of the link, is there and lies below the root;
      a target without links on the way exactly when the way does not run into a file. */
  predicate JudgedByText(fs: FileSystem, root: Path, target: Path, limits: Limits, accepted: bool) {
    && (StraightLink(fs, target) && limits.eval >= 1 ==>
          var d := CleanOnto(if fs[target].absolute then [] else Parent(target), fs[target].target);
          if d in fs then fs[d].Link? || (accepted <==> root <= d) else !accepted)
    && (NoLinks(fs, target) ==> (accepted <==> !ThroughFile(fs, target)))
  }

  lemma ConfinedByText(fs: FileSystem, root: Path, target: Path, limits: Limits)
    requires Plain(target) && root <= target
    ensures JudgedByText(fs, root, target, limits, Confined(fs, root, target, limits))
  {
    if StraightLink(fs, target) && limits.eval >= 1 { StraightLinkJudged(fs, root, target, limits); }
    if NoLinks(fs, target) { NoLinksJudged(fs, root, target, limits); }
  }

  /** Two links of one text below `/srv`, where both `/etc/x` and `/srv/etc/x` are files. */
  const TWO_LINKS: FileSystem := map[
    ["srv"] := Dir, ["srv", "etc"] := Dir, ["srv", "etc", "x"] := File, ["etc"] := Dir, ["etc", "x"] := File,
    ["srv", "out"] := Link(true, ["etc", "x"]), ["srv", "in"] := Link(false, ["etc", "x"])]

  /** The absolute one leaves the root and is rejected, the relative one stays and is accepted. */
  lemma LinkWitnesses(limits: Limits)
    requires limits.eval >= 1
    ensures !Confined(TWO_LINKS, ["srv"], ["srv", "out"], limits)
    ensures Confined(TWO_LINKS, ["srv"], ["srv", "in"], limits)
  {
    TwoLinks("out", true);
    TwoLinks("in", false);
    StraightLinkJudged(TWO_LINKS, ["srv"], ["srv", "out"], limits);
    StraightLinkJudged(TWO_LINKS, ["srv"], ["srv", "in"], limits);
  }

  lemma TwoLinks(name: string, absolute: bool)
    requires if absolute then name == "out" else name == "in"
    ensures var p := ["srv", name];
            && Plain(p) && ["srv"] <= p && StraightLink(TWO_LINKS, p)
            && LinkEnd(TWO_LINKS, p) == if absolute then ["etc", "x"] else ["srv", "etc", "x"]
  {
    var p := ["srv", name];
    assert Parent(p) == ["srv"] && p[..1] == ["srv"] && p[..0] == [];
    assert TWO_LINKS[p] == Link(absolute, ["etc", "x"]);
    LinkTextWay(if absolute then [] else ["srv"]);
  }

  lemma LinkTextWay(base: Path)
    requires base == [] || base == ["srv"]
    ensures StraightBy(TWO_LINKS, base, ["etc", "x"])
    ensures CleanOnto(base, ["etc", "x"]) == if base == [] then ["etc", "x"] else ["srv", "etc", "x"]
  {
    var t := ["etc", "x"];
    CleanPlain(base, t);
    assert base + t == if base == [] then ["etc", "x"] else ["srv", "etc", "x"];
    forall n | 0 <= n < |t| ensures DirAt(TWO_LINKS, CleanOnto(base, t[..n])) {
      CleanPlain(base, t[..n]);
      if n == 0 {
        assert base + t[..n] == base;
      } else {
        assert base + t[..n] == if base == [] then ["etc"] else ["srv", "etc"];
      }
    }
  }

  /** `verifySymlinkConfinement`: climbs from the target by the length of the written path.
      It accepts exactly when every path from the target up to the root passes, having
      looked at each of them and at nothing above the root. */
  method VerifySymlinkConfinement(fs: FileSystem, root: Path, target: Path, limits: Limits)
    returns (error: Option<LinkError>, ghost visited: seq<Path>)
    requires TargetsOk(fs) && Plain(target) && root <= target
    ensures error.None? <==> Confined(fs, root, target, limits)
    ensures JudgedByText(fs, root, target, limits, error.None?)
    ensures |visited| <= |target| - |root| + 1 && (error.None? ==> |visited| == |target| - |root| + 1)
    ensures forall i :: 0 <= i < |visited| ==> visited[i] == target[..|target| - i]
  {
    ConfinedByText(fs, root, target, limits);
    var curr := target;
    visited := [];
    while true
      invariant root <= curr <= target && |visited| == |target| - |curr|
      invariant forall n :: |curr| < n <= |target| ==> LinkOk(fs, root, target[..n], limits)
      invariant forall i :: 0 <= i < |visited| ==> visited[i] == target[..|target| - i]
      decreases |curr|
    {
      assert curr == target[..|curr|];
      visited := visited + [curr];
      error := CheckLink(fs, root, curr, limits);
      if error.Some? {
        return;
      }
      var parent := Parent(curr);
      if curr != [] { LengthTest(root, curr); }
      if parent == curr || |Render(parent)| < |Render(root)| {
        break;
      }
      curr := parent;
    }
  }

  method CheckLink(fs: FileSystem, root: Path, curr: Path, limits: Limits) returns (error: Option<LinkError>)
    requires TargetsOk(fs) && Plain(curr)
    ensures error.None? <==> LinkOk(fs, root, curr, limits)
  {
    var info := Lstat(fs, curr, limits.lstat);
    if info.Ok? {
      if info.value.Link? {
        var resolved := Resolve(fs, [], curr, limits.eval);
        if resolved.Err? {
          return Some(BadLink);
        }
        ResolvedIsPlain(fs, [], curr, limits.eval);
        RelTest(root, resolved.value);
        if Escapes(Rel(root, resolved.value)) {
          return Some(BadLink);
        }
      }
    } else if info.error != NotExist {
      return Some(BadStat);
    }
    return None;
  }

  // ---------------------------------------------------------------- what acceptance means

  /** The root is canonical: if it resolves, it resolves to itself. */
  ghost predicate Canonical(fs: FileSystem, root: Path) {
    forall limit: nat :: Resolve(fs, [], root, limit).Ok? ==> Resolve(fs, [], root, limit) == Ok(root)
  }

  /** One step below a directory inside the root. */
  lemma StepInside(fs: FileSystem, root: Path, p: Path, d: Path, left: nat, limit: nat, limits: Limits)
    requires Plain(p) && p != [] && LinkOk(fs, root, p, limits)
    requires Resolve(fs, [], Parent(p), limit) == Ok(d) && root <= d
    requires Resolve(fs, d, [p[|p| - 1]], left) == Resolve(fs, [], p, limit)
    requires Resolve(fs, [], p, limit).Ok?
    ensures root <= Resolve(fs, [], p, limit).value
  {
    var name := p[|p| - 1];
    assert name in p;
    var at := d + [name];
    assert at in fs;
    if fs[at].Link? {
      if Resolve(fs, [], Parent(p), limits.lstat) != Err(TooManyLinks) {
        LimitsAgree(fs, [], Parent(p), limits.lstat, limit);
      }
      LimitsAgree(fs, [], p, limits.eval, limit);
    } else {
      assert root <= d <= at;
    }
  }

  /** An accepted path lies inside the root wherever its links lead: however many links are
      followed, if it resolves at all, it resolves to a place below the root. */
  lemma {:induction false} ConfinedMeansInside(fs: FileSystem, root: Path, target: Path, limits: Limits, limit: nat)
    requires Canonical(fs, root) && Plain(target) && root <= target
    requires Confined(fs, root, target, limits)
    requires Resolve(fs, [], target, limit).Ok?
    ensures root <= Resolve(fs, [], target, limit).value
    decreases |target|
  {
    if target == root {
    } else {
      var front, last := Parent(target), target[|target| - 1];
      assert target == front + [last] && target[..|target|] == target;
      ByWayOf(fs, [], front, [last], limit);
      forall n | |root| <= n <= |front| ensures LinkOk(fs, root, front[..n], limits) {
        assert front[..n] == target[..n];
      }
      ConfinedMeansInside(fs, root, front, limits, limit);
      var d := Resolve(fs, [], front, limit).value;
      var left: nat :| GoesOnTo(fs, d, [last], left, Resolve(fs, [], target, limit).value);
      StepInside(fs, root, target, d, left, limit, limits);
    }
  }
}

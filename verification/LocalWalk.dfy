/** The recursive listing of the local driver: a directory walk that skips subtrees which
    cannot hold a match, then the shared sorting and pagination. */
module LocalWalk {
  import opened Text
  import opened Listing

  /** A directory tree without links; the root's own entry is never listed. */
  datatype Node = File(size: nat, modTime: int) | Dir(size: nat, modTime: int, children: seq<Child>)

  datatype Child = Child(name: string, node: Node)

  function PathIn(dir: string, name: string): string {
    if dir == "" then name else dir + "/" + name
  }

  function InfoOf(path: string, node: Node): ObjectInfo {
    ObjectInfo(path, node.size, node.modTime, node.Dir?)
  }

  // ---------------------------------------------------------------- the naive listing

  /** Every entry at or below `path`. */
  function Entries(path: string, node: Node): seq<ObjectInfo>
    decreases node, 1
  {
    [InfoOf(path, node)] + match node case File(_, _) => [] case Dir(_, _, children) => ChildEntries(path, children)
  }

  function ChildEntries(dir: string, children: seq<Child>): seq<ObjectInfo>
    decreases children, 0
  {
    if children == [] then []
    else Entries(PathIn(dir, children[0].name), children[0].node) + ChildEntries(dir, children[1..])
  }

  /** The entries whose path starts with the prefix. */
  function Matches(s: seq<ObjectInfo>, prefix: string): seq<ObjectInfo> {
    if s == [] then []
    else (if prefix <= s[0].path then [s[0]] else []) + Matches(s[1..], prefix)
  }

  lemma Assoc(a: seq<ObjectInfo>, b: seq<ObjectInfo>, c: seq<ObjectInfo>)
    ensures (a + b) + c == a + (b + c)
    ensures a + [] == a
  {
  }

  lemma {:induction false} MatchesConcat(a: seq<ObjectInfo>, b: seq<ObjectInfo>, prefix: string)
    ensures Matches(a + b, prefix) == Matches(a, prefix) + Matches(b, prefix)
  {
    if a == [] {
      assert a + b == b;
    } else {
      MatchesConcat(a[1..], b, prefix);
      assert (a + b)[1..] == a[1..] + b;
      Assoc(if prefix <= a[0].path then [a[0]] else [], Matches(a[1..], prefix), Matches(b, prefix));
    }
  }

  lemma {:induction false} MatchesMembers(s: seq<ObjectInfo>, prefix: string)
    ensures forall o :: o in Matches(s, prefix) <==> o in s && prefix <= o.path
  {
    if s != [] { MatchesMembers(s[1..], prefix); }
  }

  // ---------------------------------------------------------------- where entries lie

  /** `p` is `path` itself or lies below it. */
  predicate AtOrBelow(path: string, p: string) {
    p == path || path + "/" <= p
  }

  lemma BelowTrans(dir: string, name: string, p: string)
    requires dir != "" && AtOrBelow(PathIn(dir, name), p)
    ensures dir + "/" <= p
  {
    var q := PathIn(dir, name);
    assert q[..|dir| + 1] == dir + "/";
    assert q <= p by { if p != q { assert p[..|q|] == (q + "/")[..|q|]; } }
    assert p[..|dir| + 1] == q[..|dir| + 1];
  }

  lemma {:induction false} EntriesBelow(path: string, node: Node)
    requires path != ""
    ensures forall o :: o in Entries(path, node) ==> AtOrBelow(path, o.path)
    decreases node, 1
  {
    if node.Dir? { ChildEntriesBelow(path, node.children); }
  }

  lemma {:induction false} ChildEntriesBelow(dir: string, children: seq<Child>)
    requires dir != ""
    ensures forall o :: o in ChildEntries(dir, children) ==> dir + "/" <= o.path
    decreases children, 0
  {
    if children != [] {
      var path := PathIn(dir, children[0].name);
      EntriesBelow(path, children[0].node);
      forall o | o in Entries(path, children[0].node) ensures dir + "/" <= o.path {
        BelowTrans(dir, children[0].name, o.path);
      }
      ChildEntriesBelow(dir, children[1..]);
    }
  }

  /** The walk's test: neither is a prefix of the other. */
  predicate Unrelated(path: string, prefix: string) {
    prefix != "" && !(prefix <= path) && !(path <= prefix)
  }

  /** A skipped subtree holds no match: whatever lies below a path unrelated to the prefix
      does not start with the prefix either. */
  lemma PrunedHoldsNothing(path: string, node: Node, prefix: string)
    requires path != "" && Unrelated(path, prefix)
    ensures Matches(Entries(path, node), prefix) == []
  {
    EntriesBelow(path, node);
    MatchesMembers(Entries(path, node), prefix);
    forall o | o in Entries(path, node) ensures !(prefix <= o.path) {
      PrefixesOfOne(path, "/", path + "/");
      PrefixesOfOne(path, path + "/", o.path);
      PrefixesOfOne(path, prefix, o.path);
    }
    FirstMember(Matches(Entries(path, node), prefix));
  }

  lemma FirstMember(s: seq<ObjectInfo>)
    ensures s == [] || s[0] in s
  {
  }

  // ---------------------------------------------------------------- the walk

  predicate NamesOk(children: seq<Child>)
    decreases children, 0
  {
    && (forall i :: 0 <= i < |children| ==> children[i].name != "" && '/' !in children[i].name)
    && (forall i, k :: 0 <= i < k < |children| ==> children[i].name != children[k].name)
    && (forall i :: 0 <= i < |children| ==> NodeOk(children[i].node))
  }

  /** Real directory entries: names are non-empty, without slashes, and unlike each other. */
  predicate NodeOk(node: Node)
    decreases node, 1
  {
    node.Dir? ==> NamesOk(node.children)
  }

  /** The walk callback on one entry, then on what lies below it unless it is skipped. */
  method Visit(path: string, node: Node, prefix: string, results: seq<ObjectInfo>) returns (found: seq<ObjectInfo>)
    requires path != ""
    ensures found == results + Matches(Entries(path, node), prefix)
    decreases node, 1
  {
    if prefix != "" && !(prefix <= path) && !(path <= prefix) {
      PrunedHoldsNothing(path, node, prefix);
      Assoc(results, [], []);
      return results;
    }
    EntriesSplit(path, node, prefix);
    ghost var own := if prefix <= path then [InfoOf(path, node)] else [];
    ghost var below := if node.Dir? then Matches(ChildEntries(path, node.children), prefix) else [];
    Assoc(results, own, below);
    found := results;
    if prefix == "" || prefix <= path {
      found := found + [InfoOf(path, node)];
    }
    if node.Dir? {
      found := Walk(path, node.children, prefix, found);
    } else {
      Assoc(results + own, [], []);
    }
  }

  /** The walk over the children of a directory, appending to `results`: it finds exactly
      what filtering the whole tree would, in the same order. */
  method Walk(dir: string, children: seq<Child>, prefix: string, results: seq<ObjectInfo>)
    returns (found: seq<ObjectInfo>)
    requires dir != "" || forall c :: c in children ==> c.name != ""
    ensures found == results + Matches(ChildEntries(dir, children), prefix)
    decreases children, 0
  {
    found := results;
    for i := 0 to |children|
      invariant found + Matches(ChildEntries(dir, children[i..]), prefix)
             == results + Matches(ChildEntries(dir, children), prefix)
    {
      SplitFirst(dir, children, i, prefix);
      Assoc(found, Matches(Entries(PathIn(dir, children[i].name), children[i].node), prefix),
            Matches(ChildEntries(dir, children[i + 1..]), prefix));
      found := Visit(PathIn(dir, children[i].name), children[i].node, prefix, found);
    }
    Assoc(found, [], []);
  }

  lemma SplitFirst(dir: string, children: seq<Child>, i: nat, prefix: string)
    requires i < |children|
    ensures Matches(ChildEntries(dir, children[i..]), prefix) ==
              Matches(Entries(PathIn(dir, children[i].name), children[i].node), prefix)
              + Matches(ChildEntries(dir, children[i + 1..]), prefix)
  {
    assert children[i..][1..] == children[i + 1..];
    var first := Entries(PathIn(dir, children[i].name), children[i].node);
    MatchesConcat(first, ChildEntries(dir, children[i + 1..]), prefix);
  }

  lemma EntriesSplit(path: string, node: Node, prefix: string)
    ensures Matches(Entries(path, node), prefix) ==
              (if prefix <= path then [InfoOf(path, node)] else [])
              + (if node.Dir? then Matches(ChildEntries(path, node.children), prefix) else [])
  {
    var rest := if node.Dir? then ChildEntries(path, node.children) else [];
    MatchesConcat([InfoOf(path, node)], rest, prefix);
    assert Entries(path, node) == [InfoOf(path, node)] + rest;
    assert Matches([InfoOf(path, node)], prefix) == if prefix <= path then [InfoOf(path, node)] else [];
  }

  // ---------------------------------------------------------------- no path twice

  predicate DistinctPaths(s: seq<ObjectInfo>) {
    forall i, k :: 0 <= i < k < |s| ==> s[i].path != s[k].path
  }

  lemma DistinctConcat(a: seq<ObjectInfo>, b: seq<ObjectInfo>)
    requires DistinctPaths(a) && DistinctPaths(b)
    requires forall o, p :: o in a && p in b ==> o.path != p.path
    ensures DistinctPaths(a + b)
  {
    forall i, k | 0 <= i < k < |a + b| ensures (a + b)[i].path != (a + b)[k].path {
      if i < |a| <= k { assert a[i] in a && b[k - |a|] in b; }
    }
  }

  /** A string up to its first slash. */
  function Head(s: string): string {
    if s == "" || s[0] == '/' then "" else [s[0]] + Head(s[1..])
  }

  lemma {:induction false} HeadOf(name: string, tail: string)
    requires '/' !in name && (tail != "" ==> tail[0] == '/')
    ensures Head(name + tail) == name
  {
    if name != "" {
      HeadOf(name[1..], tail);
      assert (name + tail)[1..] == name[1..] + tail;
    } else {
      assert name + tail == tail;
    }
  }

  /** The name of the child a path runs through can be read off the path. */
  lemma NameAt(dir: string, name: string, p: string)
    requires '/' !in name && AtOrBelow(PathIn(dir, name), p)
    ensures var d := if dir == "" then 0 else |dir| + 1;
            d <= |p| && Head(p[d..]) == name
  {
    var d, q := if dir == "" then 0 else |dir| + 1, PathIn(dir, name);
    var tail := p[|q|..];
    assert p == q + tail;
    assert p[d..] == name + tail;
    HeadOf(name, tail);
  }

  /** Sibling subtrees share no path. */
  lemma SiblingsApart(dir: string, m: string, n: string, p: string)
    requires m != n && '/' !in m && '/' !in n
    requires AtOrBelow(PathIn(dir, m), p)
    ensures !AtOrBelow(PathIn(dir, n), p)
  {
    NameAt(dir, m, p);
    if AtOrBelow(PathIn(dir, n), p) {
      NameAt(dir, n, p);
      assert false;
    }
  }

  lemma {:induction false} EntriesDistinct(path: string, node: Node)
    requires path != "" && NodeOk(node)
    ensures DistinctPaths(Entries(path, node))
    decreases node, 1
  {
    if node.Dir? {
      ChildEntriesDistinct(path, node.children);
      ChildEntriesBelow(path, node.children);
      DistinctConcat([InfoOf(path, node)], ChildEntries(path, node.children));
    }
  }

  lemma {:induction false} ChildEntriesDistinct(dir: string, children: seq<Child>)
    requires NamesOk(children)
    ensures DistinctPaths(ChildEntries(dir, children))
    decreases children, 0
  {
    if children != [] {
      var path := PathIn(dir, children[0].name);
      EntriesDistinct(path, children[0].node);
      ChildEntriesDistinct(dir, children[1..]);
      EntriesBelow(path, children[0].node);
      forall o, p | o in Entries(path, children[0].node) && p in ChildEntries(dir, children[1..])
        ensures o.path != p.path
      {
        var k := ChildOf(dir, children[1..], p);
        SiblingsApart(dir, children[0].name, children[1..][k].name, o.path);
      }
      DistinctConcat(Entries(path, children[0].node), ChildEntries(dir, children[1..]));
    }
  }

  lemma {:induction false} ChildOf(dir: string, children: seq<Child>, o: ObjectInfo) returns (k: nat)
    requires NamesOk(children) && o in ChildEntries(dir, children)
    ensures k < |children| && AtOrBelow(PathIn(dir, children[k].name), o.path)
  {
    if o in Entries(PathIn(dir, children[0].name), children[0].node) {
      EntriesBelow(PathIn(dir, children[0].name), children[0].node);
      k := 0;
    } else {
      k := ChildOf(dir, children[1..], o);
      k := k + 1;
    }
  }

  lemma {:induction false} MatchesDistinct(s: seq<ObjectInfo>, prefix: string)
    requires DistinctPaths(s)
    ensures DistinctPaths(Matches(s, prefix))
  {
    if s != [] {
      MatchesDistinct(s[1..], prefix);
      MatchesMembers(s[1..], prefix);
      forall o | o in Matches(s[1..], prefix) ensures s[0].path != o.path {
        var i :| 0 <= i < |s[1..]| && s[1..][i] == o;
        assert s[i + 1] == o;
      }
      DistinctConcat([s[0]], Matches(s[1..], prefix));
    }
  }

  // ---------------------------------------------------------------- entries are the tree's nodes

  /** Following a path of names down the tree. */
  ghost predicate Leads(children: seq<Child>, names: seq<string>, node: Node)
    decreases |names|
  {
    names != []
    && exists c :: c in children && c.name == names[0]
         && if |names| == 1 then c.node == node else c.node.Dir? && Leads(c.node.children, names[1..], node)
  }

  /** What is listed for a node: its path, size and time, and whether it is a directory. */
  predicate Records(o: ObjectInfo, path: string, node: Node) {
    && o.path == path
    && match node
       case File(size, modTime) => o.size == size && o.modTime == modTime && !o.isDir
       case Dir(size, modTime, _) => o.size == size && o.modTime == modTime && o.isDir
  }

  /** A path below `dir`, spelled from its names. */
  function Spell(dir: string, names: seq<string>): string
    decreases |names|
  {
    if names == [] then dir else Spell(PathIn(dir, names[0]), names[1..])
  }

  lemma {:induction false} SpellIsJoin(dir: string, names: seq<string>)
    requires names != [] && forall n :: n in names ==> n != ""
    ensures Spell(dir, names) == PathIn(dir, Join(names))
    decreases |names|
  {
    assert names[0] in names;
    if |names| > 1 {
      assert forall n :: n in names[1..] ==> n in names;
      SpellIsJoin(PathIn(dir, names[0]), names[1..]);
      if dir == "" {
        assert PathIn(names[0], Join(names[1..])) == Join(names);
      } else {
        assert dir + "/" + names[0] + "/" + Join(names[1..]) == dir + "/" + (names[0] + "/" + Join(names[1..]));
      }
    }
  }

  /** Every entry listed below a directory stands for the node its path leads to. */
  lemma {:induction false} EntryIsNode(dir: string, children: seq<Child>, o: ObjectInfo)
    returns (names: seq<string>, node: Node)
    requires NamesOk(children) && o in ChildEntries(dir, children)
    ensures Leads(children, names, node) && Records(o, Spell(dir, names), node)
    ensures forall n :: n in names ==> n != "" && '/' !in n
    decreases children, 0
  {
    var c := children[0];
    var path := PathIn(dir, c.name);
    if o == InfoOf(path, c.node) {
      names, node := [c.name], c.node;
    } else if o in Entries(path, c.node) {
      var below;
      below, node := EntryIsNode(path, c.node.children, o);
      names := [c.name] + below;
      assert names[1..] == below;
    } else {
      names, node := EntryIsNode(dir, children[1..], o);
      LeadsIn(children[1..], children, names, node);
    }
  }

  lemma LeadsIn(some: seq<Child>, all: seq<Child>, names: seq<string>, node: Node)
    requires Leads(some, names, node) && forall c :: c in some ==> c in all
    ensures Leads(all, names, node)
  {
  }

  /** Every node a path of names leads to is listed under that path. */
  lemma {:induction false} NodeIsEntry(dir: string, children: seq<Child>, names: seq<string>, node: Node)
    returns (o: ObjectInfo)
    requires Leads(children, names, node)
    ensures o in ChildEntries(dir, children) && Records(o, Spell(dir, names), node)
    decreases |names|
  {
    var c :| c in children && c.name == names[0]
             && if |names| == 1 then c.node == node else c.node.Dir? && Leads(c.node.children, names[1..], node);
    var path := PathIn(dir, c.name);
    if |names| == 1 {
      o := InfoOf(path, node);
    } else {
      o := NodeIsEntry(path, c.node.children, names[1..], node);
    }
    ChildListed(dir, children, c, o);
  }

  lemma {:induction false} ChildListed(dir: string, children: seq<Child>, c: Child, o: ObjectInfo)
    requires c in children && o in Entries(PathIn(dir, c.name), c.node)
    ensures o in ChildEntries(dir, children)
  {
    if c != children[0] { ChildListed(dir, children[1..], c, o); }
  }

  /** The entries of a tree are its nodes: what is listed under a path of names is the node the
      names lead to, with its size, its time and whether it is a directory; and every node is
      listed. */
  lemma ListedIsNode(children: seq<Child>, o: ObjectInfo)
    requires NamesOk(children)
    ensures o in ChildEntries("", children)
            <==> exists names, node :: Leads(children, names, node) && Records(o, Join(names), node)
  {
    if o in ChildEntries("", children) {
      var names, node := EntryIsNode("", children, o);
      SpellIsJoin("", names);
    }
    if names, node :| Leads(children, names, node) && Records(o, Join(names), node) {
      LeadingNames(children, names, node);
      SpellIsJoin("", names);
      var p := NodeIsEntry("", children, names, node);
      assert p == o;
    }
  }

  lemma {:induction false} LeadingNames(children: seq<Child>, names: seq<string>, node: Node)
    requires NamesOk(children) && Leads(children, names, node)
    ensures forall n :: n in names ==> n != "" && '/' !in n
    decreases |names|
  {
    var c :| c in children && c.name == names[0]
             && if |names| == 1 then c.node == node else c.node.Dir? && Leads(c.node.children, names[1..], node);
    var i :| 0 <= i < |children| && children[i] == c;
    assert NodeOk(children[i].node);
    if |names| > 1 { LeadingNames(c.node.children, names[1..], node); }
    assert names == [names[0]] + names[1..];
  }

  // ---------------------------------------------------------------- the listing

  ghost function MatchingPaths(children: seq<Child>, prefix: string): set<string> {
    set o | o in ChildEntries("", children) && prefix <= o.path :: o.path
  }

  lemma NoEmptyPath(children: seq<Child>, prefix: string)
    requires NamesOk(children)
    ensures "" !in MatchingPaths(children, prefix)
  {
    forall o | o in ChildEntries("", children) ensures o.path != "" {
      var k := ChildOf("", children, o);
      assert children[k].name != "";
    }
  }

  /** `ListWithOptions` of the local driver: a page of the sorted matching paths of the whole
      tree, with the record of each. */
  method ListWithOptions(children: seq<Child>, prefix: string, maxKeys: int, token: string)
    returns (objects: seq<ObjectInfo>, page: Page)
    requires NamesOk(children)
    ensures page == PageOf(SortedKeys(MatchingPaths(children, CleanRooted(prefix))), maxKeys, token)
    ensures IsPage((set k | k in MatchingPaths(children, CleanRooted(prefix)) && Past(token, k)), maxKeys, page)
    ensures |objects| == |page.keys|
    ensures forall i :: 0 <= i < |objects| ==>
              objects[i] in ChildEntries("", children) && objects[i].path == page.keys[i]
  {
    var cleanPrefix := CleanRooted(prefix);
    var results := Walk("", children, cleanPrefix, []);
    WalkedPaths(children, cleanPrefix, results);
    objects, page := SortAndCut(results, maxKeys, token);
    ghost var paths := MatchingPaths(children, cleanPrefix);
    PageIsRight(SortedKeys(paths), maxKeys, token);
    assert (set k | k in SortedKeys(paths) && Past(token, k)) == set k | k in paths && Past(token, k);
  }

  ghost function PathsIn(results: seq<ObjectInfo>): set<string> {
    set o | o in results :: o.path
  }

  lemma WalkedPaths(children: seq<Child>, prefix: string, results: seq<ObjectInfo>)
    requires NamesOk(children) && results == [] + Matches(ChildEntries("", children), prefix)
    ensures DistinctPaths(results)
    ensures forall o :: o in results ==> o in ChildEntries("", children)
    ensures PathsIn(results) == MatchingPaths(children, prefix)
  {
    assert results == Matches(ChildEntries("", children), prefix);
    ChildEntriesDistinct("", children);
    MatchesDistinct(ChildEntries("", children), prefix);
    MatchesMembers(ChildEntries("", children), prefix);
  }

  /** Sorting what the walk found and cutting the page out of it. */
  method SortAndCut(results: seq<ObjectInfo>, maxKeys: int, token: string)
    returns (objects: seq<ObjectInfo>, page: Page)
    requires DistinctPaths(results)
    ensures page == PageOf(SortedKeys(PathsIn(results)), maxKeys, token) && |objects| == |page.keys|
    ensures forall i :: 0 <= i < |objects| ==> objects[i] in results && objects[i].path == page.keys[i]
  {
    var paths := seq(|results|, i requires 0 <= i < |results| => results[i].path);
    SamePaths(results, paths);
    var sorted := SortKeys(paths);
    page := Paginate(sorted, maxKeys, token);
    PageRecords(results, maxKeys, token);
    objects := FetchAll(results, page.keys);
  }

  lemma SamePaths(results: seq<ObjectInfo>, paths: seq<string>)
    requires |paths| == |results| && forall i :: 0 <= i < |results| ==> paths[i] == results[i].path
    ensures (set k | k in paths) == PathsIn(results)
  {
    forall k | k in paths ensures k in PathsIn(results) {
      var i :| 0 <= i < |paths| && paths[i] == k;
      assert results[i] in results;
    }
    forall k | k in PathsIn(results) ensures k in paths {
      var i :| 0 <= i < |results| && results[i].path == k;
      assert paths[i] == k;
    }
  }

  lemma PageRecords(results: seq<ObjectInfo>, maxKeys: int, token: string)
    ensures var keys := PageOf(SortedKeys(PathsIn(results)), maxKeys, token).keys;
            forall n :: 0 <= n < |keys| ==> exists r :: r in results && r.path == keys[n]
  {
    var sorted := SortedKeys(PathsIn(results));
    AfterIsFilter(sorted, token);
    var keys := PageOf(sorted, maxKeys, token).keys;
    forall n | 0 <= n < |keys| ensures exists r :: r in results && r.path == keys[n] {
      assert keys[n] in After(sorted, token);
      assert keys[n] in PathsIn(results);
    }
  }

  method FetchAll(results: seq<ObjectInfo>, keys: seq<string>) returns (objects: seq<ObjectInfo>)
    requires forall n :: 0 <= n < |keys| ==> exists r :: r in results && r.path == keys[n]
    ensures |objects| == |keys|
    ensures forall n :: 0 <= n < |keys| ==> objects[n] in results && objects[n].path == keys[n]
  {
    objects := [];
    for i := 0 to |keys|
      invariant |objects| == i
      invariant forall n :: 0 <= n < i ==> objects[n] in results && objects[n].path == keys[n]
    {
      var o := RecordOf(results, keys[i]);
      objects := objects + [o];
    }
  }

  method RecordOf(results: seq<ObjectInfo>, path: string) returns (o: ObjectInfo)
    requires exists r :: r in results && r.path == path
    ensures o in results && o.path == path
  {
    var i := 0;
    while results[i].path != path
      invariant 0 <= i < |results|
      invariant exists k :: i <= k < |results| && results[k].path == path
      decreases |results| - i
    {
      i := i + 1;
    }
    return results[i];
  }
}

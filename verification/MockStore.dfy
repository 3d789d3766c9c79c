/** The in-memory driver, `MockDriver`: first the store it amounts to, then the class. */
module MockStore {
  import opened Prelude
  import opened Keys
  import opened Listing

  type Store = map<string, bytes>

  datatype Error = Cancelled | NotFound | InvalidPath | AlreadyExists

  // ---------------------------------------------------------------- the store as a map

  function Get(st: Store, key: string): Option<bytes> {
    Lookup(st, NormalizeKey(key))
  }

  /** Writing under a key that normalises to nothing is refused and changes nothing. */
  function Put(st: Store, key: string, data: bytes): Store {
    if NormalizeKey(key) == "" then st else st[NormalizeKey(key) := data]
  }

  function Remove(st: Store, key: string): Store {
    st - {NormalizeKey(key)}
  }

  datatype Op = Write(key: string, data: bytes) | Erase(key: string)

  function Apply(st: Store, op: Op): Store {
    match op
    case Write(key, data) => Put(st, key, data)
    case Erase(key) => Remove(st, key)
  }

  function ApplyAll(st: Store, ops: seq<Op>): Store
    decreases |ops|
  {
    if ops == [] then st else Apply(ApplyAll(st, ops[..|ops| - 1]), ops[|ops| - 1])
  }

  predicate CanonicalKeys(st: Store) {
    forall k :: k in st ==> Canonical(k)
  }

  /** What the latest operation on any spelling of `key` left behind. */
  function Latest(was: Option<bytes>, ops: seq<Op>, key: string): Option<bytes>
    decreases |ops|
  {
    if ops == [] then was
    else
      var op := ops[|ops| - 1];
      if NormalizeKey(op.key) != NormalizeKey(key) then Latest(was, ops[..|ops| - 1], key)
      else match op case Write(_, data) => Some(data) case Erase(_) => None
  }

  lemma NoEmptyKey(st: Store)
    requires CanonicalKeys(st)
    ensures "" !in st
  {
    if "" in st {
      CanonicalEnds("");
      assert false;
    }
  }

  /** Any sequence of writes and deletes, in whatever spellings, keeps the store on canonical
      keys, and reading any spelling of a key gives the last write to any spelling of it. */
  lemma {:induction false} ReadsLastWrite(st: Store, ops: seq<Op>, key: string)
    requires CanonicalKeys(st)
    ensures CanonicalKeys(ApplyAll(st, ops))
    ensures NormalizeKey(key) != "" ==> Get(ApplyAll(st, ops), key) == Latest(Get(st, key), ops, key)
    ensures NormalizeKey(key) == "" ==> Get(ApplyAll(st, ops), key) == None
    decreases |ops|
  {
    if ops != [] {
      ReadsLastWrite(st, ops[..|ops| - 1], key);
      NormalizeCanonical(ops[|ops| - 1].key);
    }
    NoEmptyKey(ApplyAll(st, ops));
  }

  // ---------------------------------------------------------------- the driver

  /** The listing of a store under a clean prefix. */
  ghost function Matching(info: map<string, ObjectInfo>, prefix: string): seq<string> {
    SortedKeys(set k | k in info && prefix <= k)
  }

  class MockDriver {
    var objects: map<string, bytes>
    var info: map<string, ObjectInfo>

    /** Both maps hold the same canonical keys, and every record describes its bytes. */
    ghost predicate Valid()
      reads this
    {
      && objects.Keys == info.Keys
      && CanonicalKeys(objects)
      && forall k :: k in info ==> info[k].path == k && info[k].size == |objects[k]| && !info[k].isDir
    }

    constructor ()
      ensures Valid() && objects == map[]
    {
      objects := map[];
      info := map[];
    }

    method Read(key: string, cancelled: bool) returns (r: Result<bytes, Error>)
      requires Valid()
      ensures r == if cancelled then Err(Cancelled)
                   else match Get(objects, key) case Some(d) => Ok(d) case None => Err(NotFound)
    {
      if cancelled { return Err(Cancelled); }
      var k := NormalizeKey(key);
      if k !in objects { return Err(NotFound); }
      return Ok(objects[k]);
    }

    method Stat(key: string, cancelled: bool) returns (r: Result<ObjectInfo, Error>)
      requires Valid()
      ensures cancelled ==> r == Err(Cancelled)
      ensures !cancelled ==>
                match Get(objects, key)
                case None => r == Err(NotFound)
                case Some(d) =>
                  && NormalizeKey(key) in info && r == Ok(info[NormalizeKey(key)])
                  && r.value.path == NormalizeKey(key) && r.value.size == |d| && !r.value.isDir
    {
      if cancelled { return Err(Cancelled); }
      var k := NormalizeKey(key);
      if k !in info { return Err(NotFound); }
      return Ok(info[k]);
    }

    /** A refused write leaves the store as it was. */
    method WriteWithOptions(key: string, data: bytes, overwrite: bool, now: int, cancelled: bool)
      returns (r: Result<(), Error>)
      requires Valid()
      modifies this
      ensures Valid()
      ensures r == if cancelled then Err(Cancelled)
                   else if NormalizeKey(key) == "" then Err(InvalidPath)
                   else if !overwrite && old(Get(objects, key)).Some? then Err(AlreadyExists)
                   else Ok(())
      ensures objects == if r.Ok? then Put(old(objects), key, data) else old(objects)
      ensures info == if r.Ok? then old(info)[NormalizeKey(key) := ObjectInfo(NormalizeKey(key), |data|, now, false)]
                      else old(info)
    {
      if cancelled { return Err(Cancelled); }
      var k := NormalizeKey(key);
      NormalizeCanonical(key);
      if k == "" { return Err(InvalidPath); }
      if !overwrite {
        if k in objects { return Err(AlreadyExists); }
      }
      objects := objects[k := data];
      info := info[k := ObjectInfo(k, |data|, now, false)];
      return Ok(());
    }

    method Delete(key: string, cancelled: bool) returns (r: Result<(), Error>)
      requires Valid()
      modifies this
      ensures Valid()
      ensures r == if cancelled then Err(Cancelled) else Ok(())
      ensures objects == if cancelled then old(objects) else Remove(old(objects), key)
      ensures info == if cancelled then old(info) else old(info) - {NormalizeKey(key)}
    {
      if cancelled { return Err(Cancelled); }
      var k := NormalizeKey(key);
      objects := objects - {k};
      info := info - {k};
      return Ok(());
    }

    /** The keys that start with the clean prefix, in whatever order the map yields them. */
    method MatchKeys(cleanPrefix: string) returns (matched: seq<string>)
      ensures forall k :: k in matched <==> k in info && cleanPrefix <= k
      ensures forall i, j :: 0 <= i < j < |matched| ==> matched[i] != matched[j]
    {
      matched := [];
      var left := info.Keys;
      while left != {}
        invariant left <= info.Keys
        invariant forall k :: k in matched <==> k in info && k !in left && cleanPrefix <= k
        invariant forall i, j :: 0 <= i < j < |matched| ==> matched[i] != matched[j]
        decreases left
      {
        var k :| k in left;
        left := left - {k};
        if cleanPrefix == "" || cleanPrefix <= k {
          assert k !in matched;
          matched := matched + [k];
        }
      }
    }

    /** One page of the sorted listing of the keys that start with the clean prefix. */
    method ListWithOptions(prefix: string, maxKeys: int, token: string, cancelled: bool)
      returns (r: Result<(seq<ObjectInfo>, Page), Error>)
      requires Valid()
      ensures cancelled ==> r == Err(Cancelled)
      ensures !cancelled ==>
                && r.Ok?
                && r.value.1 == PageOf(Matching(info, NormalizeKey(prefix)), maxKeys, token)
                && IsPage((set k | k in info && NormalizeKey(prefix) <= k && Past(token, k)), maxKeys, r.value.1)
                && |r.value.0| == |r.value.1.keys|
                && forall i :: 0 <= i < |r.value.0| ==>
                     r.value.1.keys[i] in info && r.value.0[i] == info[r.value.1.keys[i]]
    {
      if cancelled { return Err(Cancelled); }
      var cleanPrefix := NormalizeKey(prefix);
      var matched := MatchKeys(cleanPrefix);
      var sorted := SortKeys(matched);
      assert (set k | k in matched) == set k | k in info && cleanPrefix <= k;
      var page := Paginate(sorted, maxKeys, token);
      PageWithin(sorted, maxKeys, token);
      PageOfMatching(info, cleanPrefix, maxKeys, token);
      return Ok((RecordsOf(info, page.keys), page));
    }

    /** The recursive listing: everything under the prefix, on one page. */
    method List(prefix: string, cancelled: bool) returns (r: Result<seq<ObjectInfo>, Error>)
      requires Valid()
      ensures cancelled ==> r == Err(Cancelled)
      ensures !cancelled ==> r.Ok? && InfosOf(r.value, info, Matching(info, NormalizeKey(prefix)))
      ensures !cancelled ==>
                && InOrder(ListedPaths(r.value))
                && (forall k :: k in info && NormalizeKey(prefix) <= k ==> info[k] in r.value)
                && (forall o :: o in r.value ==> o.path in info && o == info[o.path] && NormalizeKey(prefix) <= o.path)
    {
      var page := this.ListWithOptions(prefix, 0, "", cancelled);
      if page.Err? { return Err(page.error); }
      ListedAll(page.value.0, info, NormalizeKey(prefix));
      return Ok(page.value.0);
    }
  }

  predicate InfosOf(objs: seq<ObjectInfo>, info: map<string, ObjectInfo>, keys: seq<string>) {
    |objs| == |keys| && forall i :: 0 <= i < |keys| ==> keys[i] in info && objs[i] == info[keys[i]]
  }

  function RecordsOf(info: map<string, ObjectInfo>, keys: seq<string>): (objs: seq<ObjectInfo>)
    requires forall i :: 0 <= i < |keys| ==> keys[i] in info
    ensures InfosOf(objs, info, keys)
  {
    seq(|keys|, i requires 0 <= i < |keys| => info[keys[i]])
  }

  lemma PageOfMatching(info: map<string, ObjectInfo>, prefix: string, maxKeys: int, token: string)
    ensures IsPage((set k | k in info && prefix <= k && Past(token, k)), maxKeys,
                   PageOf(Matching(info, prefix), maxKeys, token))
  {
    var keys := Matching(info, prefix);
    PageIsRight(keys, maxKeys, token);
    assert (set k | k in keys && Past(token, k)) == set k | k in info && prefix <= k && Past(token, k);
  }

  function ListedPaths(objs: seq<ObjectInfo>): seq<string> {
    seq(|objs|, i requires 0 <= i < |objs| => objs[i].path)
  }

  lemma ListedAll(objs: seq<ObjectInfo>, info: map<string, ObjectInfo>, prefix: string)
    requires InfosOf(objs, info, Matching(info, prefix)) && forall k :: k in info ==> info[k].path == k
    ensures InOrder(ListedPaths(objs))
    ensures forall k :: k in info && prefix <= k ==> info[k] in objs
    ensures forall o :: o in objs ==> o.path in info && o == info[o.path] && prefix <= o.path
  {
    var keys := Matching(info, prefix);
    assert ListedPaths(objs) == keys;
    SortedIsInOrder(keys);
    forall k | k in info && prefix <= k ensures info[k] in objs {
      assert k in keys;
      var i :| 0 <= i < |keys| && keys[i] == k;
      assert objs[i] == info[k];
    }
    forall o | o in objs ensures o.path in info && o == info[o.path] && prefix <= o.path {
      var i :| 0 <= i < |objs| && objs[i] == o;
      assert keys[i] in keys;
    }
  }

  lemma PageWithin(s: seq<string>, maxKeys: int, token: string)
    requires Sorted(s)
    ensures forall i :: 0 <= i < |PageOf(s, maxKeys, token).keys| ==> PageOf(s, maxKeys, token).keys[i] in s
  {
    AfterIsFilter(s, token);
    var keys := PageOf(s, maxKeys, token).keys;
    forall i | 0 <= i < |keys| ensures keys[i] in s {
      assert keys[i] in After(s, token);
    }
  }
}

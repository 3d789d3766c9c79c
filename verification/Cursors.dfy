/** Continuation tokens over a store or a directory tree that others keep changing. */
module Cursors {
  import opened Text
  import opened Keys
  import opened Listing
  import opened MockStore
  import LocalWalk

  ghost function MatchingKeys(st: Store, prefix: string): set<string> {
    set k | k in st && prefix <= k
  }

  /** `stores[i]` is the driver's content when the i-th page is asked for. */
  ghost function Pages(stores: seq<Store>, prefix: string, maxKeys: int, token: string): Walk {
    Follow(seq(|stores|, i requires 0 <= i < |stores| => MatchingKeys(stores[i], NormalizeKey(prefix))), maxKeys, token)
  }

  /** Any client that follows tokens from the start, at any page size, while the store
      changes arbitrarily between pages: the keys it gets are strictly increasing, each was
      in the store when its page was taken, and if the last page arrived then every matching
      key present throughout is among them. */
  lemma CursorsAreStable(stores: seq<Store>, prefix: string, maxKeys: int)
    requires forall st :: st in stores ==> CanonicalKeys(st)
    ensures var w := Pages(stores, prefix, maxKeys, "");
      && Sorted(w.keys)
      && (forall k :: k in w.keys ==> NormalizeKey(prefix) <= k && exists st :: st in stores && k in st)
      && (w.done ==> forall k :: NormalizeKey(prefix) <= k && (forall st :: st in stores ==> k in st) ==> k in w.keys)
  {
    var p := NormalizeKey(prefix);
    var views := seq(|stores|, i requires 0 <= i < |stores| => MatchingKeys(stores[i], p));
    forall v | v in views ensures exists st :: st in stores && v == MatchingKeys(st, p) {
      var i :| 0 <= i < |views| && views[i] == v;
      assert stores[i] in stores;
    }
    forall v | v in views ensures "" !in v {
      var st :| st in stores && v == MatchingKeys(st, p);
      NoEmptyKey(st);
    }
    FollowIsStable(views, maxKeys);
    forall k | Follow(views, maxKeys, "").done && p <= k && (forall st :: st in stores ==> k in st)
      ensures k in Follow(views, maxKeys, "").keys
    {
      assert Throughout(views, k);
    }
  }

  /** While nothing changes, a positive page size gives the unpaged listing after at most one
      request more than there are keys. */
  lemma PagesConcatenate(st: Store, stores: seq<Store>, prefix: string, maxKeys: int)
    requires CanonicalKeys(st)
    requires forall i :: 0 <= i < |stores| ==> stores[i] == st
    requires |stores| > |SortedKeys(MatchingKeys(st, NormalizeKey(prefix)))|
    ensures Pages(stores, prefix, maxKeys, "") == Walk(SortedKeys(MatchingKeys(st, NormalizeKey(prefix))), true)
  {
    var keys := MatchingKeys(st, NormalizeKey(prefix));
    NoEmptyKey(st);
    var views := seq(|stores|, i requires 0 <= i < |stores| => MatchingKeys(stores[i], NormalizeKey(prefix)));
    FollowUnchanged(keys, views, maxKeys, "");
    assert After(SortedKeys(keys), "") == SortedKeys(keys);
  }

  /** The same for the local driver: `trees[i]` is the directory tree when the i-th page is
      asked for. */
  lemma LocalCursorsAreStable(trees: seq<seq<LocalWalk.Child>>, prefix: string, maxKeys: int)
    requires forall t :: t in trees ==> LocalWalk.NamesOk(t)
    ensures var w := LocalPages(trees, prefix, maxKeys, "");
      && Sorted(w.keys)
      && (forall k :: k in w.keys ==> exists t :: t in trees && k in LocalWalk.MatchingPaths(t, CleanRooted(prefix)))
      && (w.done ==> forall k :: ListedThroughout(trees, prefix, k) ==> k in w.keys)
  {
    var p := CleanRooted(prefix);
    var views := seq(|trees|, i requires 0 <= i < |trees| => LocalWalk.MatchingPaths(trees[i], p));
    forall v | v in views ensures exists t :: t in trees && v == LocalWalk.MatchingPaths(t, p) {
      var i :| 0 <= i < |views| && views[i] == v;
      assert trees[i] in trees;
    }
    forall v | v in views ensures "" !in v {
      var t :| t in trees && v == LocalWalk.MatchingPaths(t, p);
      LocalWalk.NoEmptyPath(t, p);
    }
    FollowIsStable(views, maxKeys);
    forall k | Follow(views, maxKeys, "").done && ListedThroughout(trees, prefix, k)
      ensures k in Follow(views, maxKeys, "").keys
    {
      assert Throughout(views, k);
    }
  }

  ghost function LocalPages(trees: seq<seq<LocalWalk.Child>>, prefix: string, maxKeys: int, token: string): Walk {
    Follow(seq(|trees|, i requires 0 <= i < |trees| => LocalWalk.MatchingPaths(trees[i], CleanRooted(prefix))),
           maxKeys, token)
  }

  ghost predicate ListedThroughout(trees: seq<seq<LocalWalk.Child>>, prefix: string, k: string) {
    forall t :: t in trees ==> k in LocalWalk.MatchingPaths(t, CleanRooted(prefix))
  }
}

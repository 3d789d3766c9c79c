/** Sorted, token-paginated listings, as the in-memory and the local driver build them. */
module Listing {
  import opened Text

  datatype ObjectInfo = ObjectInfo(path: string, size: nat, modTime: int, isDir: bool)

  // ---------------------------------------------------------------- sorting

  predicate Sorted(s: seq<string>) {
    forall i, j :: 0 <= i < j < |s| ==> Less(s[i], s[j])
  }

  function Insert(k: string, s: seq<string>): seq<string> {
    if s == [] || Less(k, s[0]) then [k] + s else [s[0]] + Insert(k, s[1..])
  }

  lemma {:induction false} InsertSorted(k: string, s: seq<string>)
    requires Sorted(s) && k !in s
    ensures Sorted(Insert(k, s)) && |Insert(k, s)| == |s| + 1
    ensures forall x :: x in Insert(k, s) <==> x == k || x in s
  {
    if s == [] {
    } else if Less(k, s[0]) {
      forall j | 0 <= j < |s| ensures Less(k, s[j]) {
        if j > 0 { LessTransitive(k, s[0], s[j]); }
      }
    } else {
      InsertSorted(k, s[1..]);
      LessTotal(k, s[0]);
      var t := Insert(k, s[1..]);
      forall j | 0 <= j < |t| ensures Less(s[0], t[j]) {
        assert t[j] in t;
        if t[j] != k { var i :| 0 <= i < |s[1..]| && s[1..][i] == t[j]; assert s[i + 1] == t[j]; }
      }
      assert s == [s[0]] + s[1..];
    }
  }

  /** Every set of keys has one sorted listing. */
  ghost function SortedKeys(keys: set<string>): (s: seq<string>)
    ensures Sorted(s)
    ensures forall k :: k in s <==> k in keys
  {
    if keys == {} then []
    else
      var k :| k in keys;
      var rest := SortedKeys(keys - {k});
      InsertSorted(k, rest);
      Insert(k, rest)
  }

  lemma SortedHead(s: seq<string>)
    requires Sorted(s) && s != []
    ensures forall k :: k in s[1..] <==> k in s && k != s[0]
  {
    LessIrreflexive(s[0]);
    assert s == [s[0]] + s[1..];
  }

  lemma {:induction false} SortedUnique(s: seq<string>, t: seq<string>)
    requires Sorted(s) && Sorted(t)
    requires forall k :: k in s <==> k in t
    ensures s == t
  {
    if s == [] {
      assert forall i :: 0 <= i < |t| ==> t[i] in t;
    } else {
      assert s[0] in t && t[0] in s;
      var i :| 0 <= i < |t| && t[i] == s[0];
      var j :| 0 <= j < |s| && s[j] == t[0];
      if j > 0 {
        LessAsymmetric(s[0], s[j]);
      }
      SortedHead(s);
      SortedHead(t);
      SortedUnique(s[1..], t[1..]);
      assert s == [s[0]] + s[1..] && t == [t[0]] + t[1..];
    }
  }

  /** Stands in for `sort.Slice` and `sort.Strings`: keys come out in the one sorted order. */
  method SortKeys(s: seq<string>) returns (r: seq<string>)
    requires forall i, j :: 0 <= i < j < |s| ==> s[i] != s[j]
    ensures r == SortedKeys(set k | k in s)
    ensures InOrder(r) && |r| == |s| && forall k :: k in r <==> k in s
  {
    r := [];
    for i := 0 to |s|
      invariant Sorted(r) && |r| == i
      invariant forall k :: k in r <==> k in s[..i]
    {
      assert s[i] !in s[..i];
      InsertSorted(s[i], r);
      assert s[..i + 1] == s[..i] + [s[i]];
      r := Insert(s[i], r);
    }
    assert s[..|s|] == s;
    SortedUnique(r, SortedKeys(set k | k in s));
    SortedIsInOrder(r);
  }

  // ---------------------------------------------------------------- one page

  datatype Page = Page(keys: seq<string>, next: string, truncated: bool)

  /** What remains to be listed after `token`; an empty token asks for everything. */
  function After(s: seq<string>, token: string): seq<string> {
    if s == [] || token == "" || Less(token, s[0]) then s else After(s[1..], token)
  }

  /** A page: the first `maxKeys` keys after the token, or all of them when the limit is
      not positive; it is truncated exactly when keys are left over. */
  function PageOf(sorted: seq<string>, maxKeys: int, token: string): Page {
    var rest := After(sorted, token);
    if 0 < maxKeys < |rest| then Page(rest[..maxKeys], rest[maxKeys - 1], true)
    else Page(rest, "", false)
  }

  lemma {:induction false} AfterIsFilter(s: seq<string>, token: string)
    requires Sorted(s)
    ensures Sorted(After(s, token)) && |After(s, token)| <= |s|
    ensures After(s, token) == s[|s| - |After(s, token)|..]
    ensures forall k :: k in After(s, token) <==> k in s && (token == "" || Less(token, k))
  {
    if s == [] || token == "" || Less(token, s[0]) {
      forall i | 0 <= i < |s| && token != "" ensures Less(token, s[i]) {
        if i > 0 { LessTransitive(token, s[0], s[i]); }
      }
    } else {
      AfterIsFilter(s[1..], token);
      assert s == [s[0]] + s[1..];
    }
  }

  /** The scan for the first key past the token. */
  method FindStart(matched: seq<string>, token: string) returns (startIdx: nat)
    ensures startIdx <= |matched| && After(matched, token) == matched[startIdx..]
  {
    startIdx := 0;
    if token != "" {
      var i := 0;
      while i < |matched|
        invariant 0 <= i <= |matched|
        invariant After(matched, token) == After(matched[i..], token)
        invariant startIdx == if i == |matched| > 0 then i else 0
      {
        assert matched[i..][0] == matched[i] && matched[i..][1..] == matched[i + 1..];
        if Less(token, matched[i]) {
          startIdx := i;
          break;
        }
        if i == |matched| - 1 {
          startIdx := |matched|;
        }
        i := i + 1;
      }
    }
  }

  /** The cursor logic shared by both drivers: find the first key past the token, cut at the
      limit, and remember the last key of a page that leaves some behind. */
  method Paginate(matched: seq<string>, maxKeys: int, token: string) returns (page: Page)
    ensures page == PageOf(matched, maxKeys, token)
  {
    var startIdx := FindStart(matched, token);
    var limit := if maxKeys <= 0 then |matched| else maxKeys;
    var endIdx := startIdx + limit;
    var nextToken, truncated := "", false;
    if endIdx < |matched| {
      truncated := true;
      nextToken := matched[endIdx - 1];
    } else {
      endIdx := |matched|;
    }
    var objects := [];
    if startIdx < |matched| {
      objects := matched[startIdx..endIdx];
    }
    assert objects == After(matched, token)[..endIdx - startIdx];
    page := Page(objects, nextToken, truncated);
  }

  lemma {:induction false} SortedCount(s: seq<string>)
    requires Sorted(s)
    ensures |set k | k in s| == |s|
  {
    if s != [] {
      SortedHead(s);
      SortedCount(s[1..]);
      assert (set k | k in s) == (set k | k in s[1..]) + {s[0]};
      assert s[0] !in s[1..];
    }
  }

  /** Ascending, in the order of the strings themselves. */
  predicate InOrder(s: seq<string>) {
    forall i, j :: 0 <= i < j < |s| ==> Precedes(s[i], s[j])
  }

  lemma SortedIsInOrder(s: seq<string>)
    ensures Sorted(s) <==> InOrder(s)
  {
    forall i, j | 0 <= i < j < |s| ensures Less(s[i], s[j]) <==> Precedes(s[i], s[j]) {
      LessExactly(s[i], s[j]);
    }
  }

  /** A page of the keys `past` a token: the first `maxKeys` of them in order, all of them if
      there are no more or the limit is not positive. A page that leaves keys over says so and
      names its last key; the keys left over all come after that one. */
  ghost predicate IsPage(past: set<string>, maxKeys: int, page: Page) {
    && InOrder(page.keys)
    && (forall k :: k in page.keys ==> k in past)
    && |page.keys| == (if 0 < maxKeys < |past| then maxKeys else |past|)
    && (page.truncated <==> 0 < maxKeys < |past|)
    && (forall k :: k in past && k !in page.keys ==> page.truncated && Precedes(page.next, k))
    && (if page.truncated then page.keys != [] && page.next == page.keys[|page.keys| - 1] else page.next == "")
  }

  /** Whether a key comes after the token; an empty token comes before every key. */
  predicate Past(token: string, k: string) {
    token == "" || Precedes(token, k)
  }

  /** The recursion over the sorted keys yields just that page. */
  lemma PageIsRight(s: seq<string>, maxKeys: int, token: string)
    requires Sorted(s)
    ensures IsPage((set k | k in s && Past(token, k)), maxKeys, PageOf(s, maxKeys, token))
  {
    PastIsRest(s, token);
    CutIsPage(After(s, token), maxKeys);
  }

  lemma PastIsRest(s: seq<string>, token: string)
    requires Sorted(s)
    ensures Sorted(After(s, token)) && (set k | k in s && Past(token, k)) == set k | k in After(s, token)
  {
    AfterIsFilter(s, token);
    forall k ensures k in s && Past(token, k) <==> k in After(s, token) { LessExactly(token, k); }
  }

  lemma CutIsPage(rest: seq<string>, maxKeys: int)
    requires Sorted(rest)
    ensures IsPage((set k | k in rest), maxKeys,
                   if 0 < maxKeys < |rest| then Page(rest[..maxKeys], rest[maxKeys - 1], true)
                   else Page(rest, "", false))
  {
    SortedCount(rest);
    SortedIsInOrder(rest);
    if 0 < maxKeys < |rest| {
      SortedIsInOrder(rest[..maxKeys]);
      LeftOver(rest, maxKeys);
    }
  }

  /** What is cut off a sorted list comes after the last key kept. */
  lemma LeftOver(rest: seq<string>, n: nat)
    requires Sorted(rest) && 0 < n < |rest|
    ensures forall k :: k in rest && k !in rest[..n] ==> Precedes(rest[n - 1], k)
  {
    assert rest == rest[..n] + rest[n..];
    forall k | k in rest && k !in rest[..n] ensures Precedes(rest[n - 1], k) {
      var i :| 0 <= i < |rest[n..]| && rest[n..][i] == k;
      LessExactly(rest[n - 1], rest[n + i]);
    }
  }

  // ---------------------------------------------------------------- following tokens

  datatype Walk = Walk(keys: seq<string>, done: bool)

  /** A client following continuation tokens. The store may change between requests:
      `views[i]` is the set of matching keys when the i-th page is asked for. */
  ghost function Follow(views: seq<set<string>>, maxKeys: int, token: string): Walk {
    if views == [] then Walk([], false)
    else
      var page := PageOf(SortedKeys(views[0]), maxKeys, token);
      if !page.truncated then Walk(page.keys, true)
      else
        var rest := Follow(views[1..], maxKeys, page.next);
        Walk(page.keys + rest.keys, rest.done)
  }

  lemma {:induction false} AfterElement(s: seq<string>, i: nat)
    requires Sorted(s) && i < |s| && s[i] != ""
    ensures After(s, s[i]) == s[i + 1..]
  {
    LessIrreflexive(s[i]);
    if i > 0 {
      LessAsymmetric(s[0], s[i]);
      AfterElement(s[1..], i - 1);
    } else if |s| > 1 {
      assert Less(s[0], s[1]);
    }
  }

  /** Asking with an element of a suffix resumes right behind it. */
  lemma Resume(s: seq<string>, rest: seq<string>, n: nat)
    requires Sorted(s) && "" !in s && 0 < n < |rest| <= |s| && rest == s[|s| - |rest|..]
    ensures After(s, rest[n - 1]) == rest[n..]
  {
    var i := |s| - |rest| + n - 1;
    assert rest[n - 1] == s[i] && s[i] in s;
    AfterElement(s, i);
    assert rest[n..] == s[i + 1..];
  }

  lemma CutPage(rest: seq<string>, n: nat)
    requires 0 < n < |rest|
    ensures rest[..n] != [] && rest[..n][|rest[..n]| - 1] == rest[n - 1] && rest[n - 1] in rest
    ensures rest == rest[..n] + rest[n..]
  {
  }

  /** A truncated page hands out a usable token that lies past the one it was asked for,
      and asking with it resumes exactly where the page stopped. */
  lemma TokenAdvances(s: seq<string>, maxKeys: int, token: string)
    requires Sorted(s) && "" !in s
    ensures var page := PageOf(s, maxKeys, token);
            page.truncated ==>
              && page.keys != [] && page.next == page.keys[|page.keys| - 1]
              && page.next in s && page.next != "" && Less(token, page.next)
              && After(s, token) == page.keys + After(s, page.next)
  {
    var rest := After(s, token);
    if 0 < maxKeys < |rest| {
      TokenPast(s, maxKeys, token);
      TokenResumes(s, maxKeys, token);
      CutPage(rest, maxKeys);
    }
  }

  lemma TokenPast(s: seq<string>, n: nat, token: string)
    requires Sorted(s) && "" !in s && 0 < n < |After(s, token)|
    ensures var next := After(s, token)[n - 1]; next in s && next != "" && Less(token, next)
  {
    AfterIsFilter(s, token);
    var next := After(s, token)[n - 1];
    assert next in After(s, token);
  }

  lemma AfterIsSuffix(s: seq<string>, token: string)
    requires Sorted(s)
    ensures |After(s, token)| <= |s| && After(s, token) == s[|s| - |After(s, token)|..]
  {
    AfterIsFilter(s, token);
  }

  lemma TokenResumes(s: seq<string>, n: nat, token: string)
    requires Sorted(s) && "" !in s && 0 < n < |After(s, token)|
    ensures After(s, After(s, token)[n - 1]) == After(s, token)[n..]
  {
    AfterIsSuffix(s, token);
    Resume(s, After(s, token), n);
  }

  lemma SortedConcat(a: seq<string>, b: seq<string>)
    requires Sorted(a) && Sorted(b) && a != []
    requires forall k :: k in b ==> Less(a[|a| - 1], k)
    ensures Sorted(a + b)
  {
    forall i, j | 0 <= i < |a| && 0 <= j < |b| ensures Less(a[i], b[j]) {
      assert b[j] in b;
      if i < |a| - 1 { LessTransitive(a[i], a[|a| - 1], b[j]); }
    }
  }

  lemma PageSorted(s: seq<string>, maxKeys: int, token: string)
    requires Sorted(s) && "" !in s
    ensures var keys := PageOf(s, maxKeys, token).keys;
            Sorted(keys) && forall k :: k in keys ==> k in s && Less(token, k)
  {
    AfterIsFilter(s, token);
    var keys := PageOf(s, maxKeys, token).keys;
    forall k | k in keys ensures k in s && Less(token, k) {
      assert k in After(s, token);
    }
  }

  /** Whatever happens to the store between pages, no key is handed out twice: the pages
      taken together are strictly sorted and lie past the token they started from. */
  lemma {:induction false} FollowNeverRepeats(views: seq<set<string>>, maxKeys: int, token: string)
    requires forall v :: v in views ==> "" !in v
    ensures Sorted(Follow(views, maxKeys, token).keys)
    ensures forall k :: k in Follow(views, maxKeys, token).keys ==> Less(token, k)
  {
    if views != [] {
      var s := SortedKeys(views[0]);
      var page := PageOf(s, maxKeys, token);
      assert views[0] in views;
      PageSorted(s, maxKeys, token);
      if page.truncated {
        TokenAdvances(s, maxKeys, token);
        FollowNeverRepeats(views[1..], maxKeys, page.next);
        var rest := Follow(views[1..], maxKeys, page.next).keys;
        SortedConcat(page.keys, rest);
        forall k | k in rest ensures Less(token, k) { LessTransitive(token, page.next, k); }
      }
    }
  }

  lemma InPageOrAfter(s: seq<string>, maxKeys: int, token: string, k: string)
    requires Sorted(s) && k in s && (token == "" || Less(token, k))
    ensures var page := PageOf(s, maxKeys, token);
            k in page.keys || (page.truncated && Less(page.next, k))
  {
    AfterIsFilter(s, token);
    var rest := After(s, token);
    var i :| 0 <= i < |rest| && rest[i] == k;
    if 0 < maxKeys < |rest| && i < maxKeys { assert rest[..maxKeys][i] == k; }
  }

  ghost predicate Throughout(views: seq<set<string>>, k: string) {
    forall v :: v in views ==> k in v
  }

  /** Once the last page has come, every key that matched throughout has been handed out. */
  lemma {:induction false} FollowMissesNothing(views: seq<set<string>>, maxKeys: int, token: string, k: string)
    requires Follow(views, maxKeys, token).done && Throughout(views, k) && (token == "" || Less(token, k))
    ensures k in Follow(views, maxKeys, token).keys
  {
    if views != [] {
      assert views[0] in views;
      var s := SortedKeys(views[0]);
      var page := PageOf(s, maxKeys, token);
      InPageOrAfter(s, maxKeys, token, k);
      if page.truncated && k !in page.keys {
        FollowMissesNothing(views[1..], maxKeys, page.next, k);
      }
    }
  }

  /** Every key handed out matched when its page was taken. */
  lemma {:induction false} FollowInventsNothing(views: seq<set<string>>, maxKeys: int, token: string)
    ensures forall k :: k in Follow(views, maxKeys, token).keys ==> exists v :: v in views && k in v
  {
    if views != [] {
      var s := SortedKeys(views[0]);
      var page := PageOf(s, maxKeys, token);
      AfterIsFilter(s, token);
      assert views[0] in views;
      forall k | k in page.keys ensures k in views[0] {
        assert k in After(s, token);
      }
      if page.truncated { FollowInventsNothing(views[1..], maxKeys, page.next); }
    }
  }

  /** Any client that follows tokens from the start while the listing changes arbitrarily
      between pages: the keys it gets are strictly increasing, each was listed when its page
      was taken, and if the last page arrived then every key listed throughout is among them. */
  lemma FollowIsStable(views: seq<set<string>>, maxKeys: int)
    requires forall v :: v in views ==> "" !in v
    ensures var w := Follow(views, maxKeys, "");
      && Sorted(w.keys)
      && (forall k :: k in w.keys ==> exists v :: v in views && k in v)
      && (w.done ==> forall k :: Throughout(views, k) ==> k in w.keys)
  {
    FollowNeverRepeats(views, maxKeys, "");
    FollowInventsNothing(views, maxKeys, "");
    forall k | Follow(views, maxKeys, "").done && Throughout(views, k) ensures k in Follow(views, maxKeys, "").keys {
      FollowMissesNothing(views, maxKeys, "", k);
    }
  }

  /** With nothing changing in between, `|keys| + 1` requests are always enough and the
      pages put together are the unpaged listing. */
  lemma {:induction false} FollowUnchanged(keys: set<string>, views: seq<set<string>>, maxKeys: int, token: string)
    requires "" !in keys
    requires forall i :: 0 <= i < |views| ==> views[i] == keys
    requires |views| > |After(SortedKeys(keys), token)|
    ensures Follow(views, maxKeys, token) == Walk(After(SortedKeys(keys), token), true)
    decreases |views|
  {
    var s := SortedKeys(keys);
    var page := PageOf(s, maxKeys, token);
    if page.truncated {
      TokenAdvances(s, maxKeys, token);
      FollowUnchanged(keys, views[1..], maxKeys, page.next);
    }
  }
}

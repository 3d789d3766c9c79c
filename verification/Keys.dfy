/** Object keys: the in-memory driver's `normalizeKey` and the canonical keys it yields. */
module Keys {
  import opened Text

  /** `MockDriver.normalizeKey`: `path.Clean` of "/" and the key with its backslashes
      turned, less the leading slash. */
  function NormalizeKey(k: string): string {
    CleanRooted(ReplaceBackslashes(k))
  }

  /** A key in the one spelling the store files it under. */
  predicate Canonical(k: string) {
    && '\\' !in k
    && Plain(Split(k))
  }

  lemma EmptySegment(k: string)
    requires k == "" || k[0] == '/' || k[|k| - 1] == '/'
    ensures "" in Split(k)
  {
    if k == "" {
      SplitSegment(k);
    } else if k[0] == '/' {
      assert k == "/" + k[1..];
      LeadingSlash(k[1..]);
    } else {
      assert k == k[..|k| - 1] + "/";
      TrailingSlash(k[..|k| - 1]);
    }
  }

  lemma LeadingSlash(rest: string)
    ensures "" in Split("/" + rest)
  {
    SplitConcat("", rest);
    SplitSegment("");
    assert "" + "/" + rest == "/" + rest;
    var segs := [""] + Split(rest);
    assert segs[0] == "";
  }

  lemma TrailingSlash(front: string)
    ensures "" in Split(front + "/")
  {
    SplitConcat(front, "");
    SplitSegment("");
    assert front + "/" + "" == front + "/";
    var segs := Split(front) + [""];
    assert segs[|Split(front)|] == "";
  }

  /** A canonical key is non-empty and neither starts nor ends with a slash. */
  lemma CanonicalEnds(k: string)
    requires Canonical(k)
    ensures k != "" && k[0] != '/' && k[|k| - 1] != '/'
  {
    if k == "" || k[0] == '/' || k[|k| - 1] == '/' {
      EmptySegment(k);
      assert false;
    }
  }

  lemma CanonicalFixed(k: string)
    requires Canonical(k)
    ensures NormalizeKey(k) == k
  {
    NoBackslashes(k);
    CleanPlain([], Split(k));
    assert [] + Split(k) == Split(k);
    JoinSplit(k);
  }

  /** Every spelling is filed under a canonical key or, at the root, under none. */
  lemma NormalizeCanonical(k: string)
    ensures NormalizeKey(k) == "" || Canonical(NormalizeKey(k))
  {
    var s := ReplaceBackslashes(k);
    var segs := CleanOnto([], Split(s));
    CleanIsPlain([], Split(s));
    if segs != [] {
      SplitJoin(segs);
      SplitChars(s, '\\');
      assert forall seg :: seg in [] + Split(s) ==> seg in Split(s);
      CleanChars([], Split(s), '\\');
      JoinChars(segs, '\\');
    }
  }

  /** Normalising twice is normalising once. */
  lemma NormalizeIdempotent(k: string)
    ensures NormalizeKey(NormalizeKey(k)) == NormalizeKey(k)
  {
    NormalizeCanonical(k);
    if NormalizeKey(k) != "" {
      CanonicalFixed(NormalizeKey(k));
    } else {
      assert ReplaceBackslashes("") == "";
      assert Split("") == [""];
      assert CleanOnto([], [""]) == CleanOnto([], [""][1..]);
    }
  }

  /** Which spellings name one object: slashes either way, doubled slashes and "." segments
      make no difference, a segment and the ".." after it cancel, and ".." at the root goes. */
  lemma SpellingsOfOneKey(a: string, seg: string, b: string)
    ensures NormalizeKey(a + "\\" + b) == NormalizeKey(a + "/" + b)
    ensures NormalizeKey(a + "/" + "" + "/" + b) == NormalizeKey(a + "/" + b)
    ensures NormalizeKey(a + "/" + "." + "/" + b) == NormalizeKey(a + "/" + b)
    ensures PlainSegment(seg) && '\\' !in seg ==>
              NormalizeKey(a + "/" + (seg + "/" + ".." + "/" + b)) == NormalizeKey(a + "/" + b)
    ensures NormalizeKey(".." + "/" + b) == NormalizeKey("/" + b) == NormalizeKey(b)
  {
    var x, y := ReplaceBackslashes(a), ReplaceBackslashes(b);
    assert ReplaceBackslashes(a + "\\" + b) == ReplaceBackslashes(a + "/" + b) == x + "/" + y;
    MiddleSegment(a, "", b);
    MiddleSegment(a, ".", b);
    CleanRules(Split(x), seg, Split(y));
    SplitConcat(x, y);
    if PlainSegment(seg) && '\\' !in seg { CancelledSegment(a, seg, b); }
    LeadingSegments(b);
  }

  lemma MiddleSegment(a: string, m: string, b: string)
    requires '\\' !in m && '/' !in m
    ensures NormalizeKey(a + "/" + m + "/" + b)
            == Join(CleanOnto([], Split(ReplaceBackslashes(a)) + [m] + Split(ReplaceBackslashes(b))))
  {
    var x, y := ReplaceBackslashes(a), ReplaceBackslashes(b);
    assert ReplaceBackslashes(a + "/" + m + "/" + b) == x + "/" + m + "/" + y;
    SplitConcat(x + "/" + m, y);
    SplitConcat(x, m);
    SplitSegment(m);
  }

  lemma CancelledSegment(a: string, seg: string, b: string)
    requires PlainSegment(seg) && '\\' !in seg
    ensures NormalizeKey(a + "/" + (seg + "/" + ".." + "/" + b)) == NormalizeKey(a + "/" + b)
  {
    var x, y := ReplaceBackslashes(a), ReplaceBackslashes(b);
    assert ReplaceBackslashes(a + "/" + (seg + "/" + ".." + "/" + b)) == x + "/" + (seg + "/" + ".." + "/" + y);
    assert ReplaceBackslashes(a + "/" + b) == x + "/" + y;
    CancelledSplit(x, seg, y);
    SplitConcat(x, y);
    CleanRules(Split(x), seg, Split(y));
  }

  lemma CancelledSplit(x: string, seg: string, y: string)
    requires '/' !in seg
    ensures Split(x + "/" + (seg + "/" + ".." + "/" + y)) == Split(x) + [seg, ".."] + Split(y)
  {
    var two := seg + "/" + "..";
    SplitConcat(seg, "..");
    SplitSegment(seg);
    SplitSegment("..");
    SplitConcat(two, y);
    SplitConcat(x, two + "/" + y);
    assert Split(two) == [seg, ".."];
    assert Split(x) + ([seg, ".."] + Split(y)) == Split(x) + [seg, ".."] + Split(y);
  }

  lemma LeadingSegments(b: string)
    ensures NormalizeKey(".." + "/" + b) == NormalizeKey("/" + b) == NormalizeKey(b)
  {
    var y := ReplaceBackslashes(b);
    assert ReplaceBackslashes(".." + "/" + b) == ".." + "/" + y;
    assert ReplaceBackslashes("/" + b) == "" + "/" + y;
    SplitConcat("..", y);
    SplitConcat("", y);
    SplitSegment("..");
    CleanRules([], "", Split(y));
    assert [] + [""] + Split(y) == [""] + Split(y) && [] + Split(y) == Split(y);
  }

  /** A path is canonical exactly when the two sides of any slash in it are. */
  lemma CanonicalJoin(a: string, b: string)
    ensures Canonical(a + "/" + b) <==> Canonical(a) && Canonical(b)
  {
    var k := a + "/" + b;
    SplitConcat(a, b);
    assert forall seg :: seg in Split(k) <==> seg in Split(a) || seg in Split(b);
    assert '\\' in k <==> '\\' in a || '\\' in b by {
      assert forall c :: c in k <==> c in a || c in "/" || c in b;
    }
  }

  lemma CanonicalAppend(k: string, tail: string)
    requires Canonical(k)
    requires '/' !in tail && '\\' !in tail && |tail| >= 2
    ensures Canonical(k + tail)
  {
    SplitAppend(k, tail);
    var r := Split(k);
    var last := r[|r| - 1];
    assert last in r;
    assert |last + tail| >= 3;
    assert forall seg :: seg in r[..|r| - 1] ==> seg in r;
  }
}

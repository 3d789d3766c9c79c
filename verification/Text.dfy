/** The string operations the source takes from Go's `strings` and `path` packages,
    and the byte-wise order in which listings are sorted. */
module Text {

  // ---------------------------------------------------------------- slashes

  function ReplaceBackslashes(s: string): (r: string)
    ensures |r| == |s| && '\\' !in r
    ensures forall i :: 0 <= i < |s| ==> r[i] == if s[i] == '\\' then '/' else s[i]
  {
    seq(|s|, i requires 0 <= i < |s| => if s[i] == '\\' then '/' else s[i])
  }

  lemma NoBackslashes(s: string)
    requires '\\' !in s
    ensures ReplaceBackslashes(s) == s
  {
  }

  function TrimPrefix(s: string, p: string): string {
    if p <= s then s[|p|..] else s
  }

  function TrimLeft(s: string): (r: string)
    ensures r != "" ==> r[0] != '/'
  {
    if s != "" && s[0] == '/' then TrimLeft(s[1..]) else s
  }

  function TrimRight(s: string): (r: string)
    ensures r <= s && (r != "" ==> r[|r| - 1] != '/')
  {
    if s != "" && s[|s| - 1] == '/' then TrimRight(s[..|s| - 1]) else s
  }

  /** `strings.Trim(s, "/")`. */
  function TrimSlashes(s: string): string {
    TrimRight(TrimLeft(s))
  }

  /** Prefixes of one string are comparable, and being a prefix is transitive. */
  lemma PrefixesOfOne(a: string, b: string, s: string)
    ensures a <= s && b <= s ==> a <= b || b <= a
    ensures a <= b && b <= s ==> a <= s
    ensures a <= a + b
  {
    if a <= s && b <= s {
      assert a == s[..|a|] && b == s[..|b|];
    }
  }

  // ---------------------------------------------------------------- segments

  /** `strings.Split(s, "/")`. */
  function Split(s: string): (r: seq<string>)
    ensures |r| >= 1
    ensures forall seg :: seg in r ==> '/' !in seg
  {
    if s == "" then [""]
    else
      var r := Split(s[1..]);
      if s[0] == '/' then [""] + r else [[s[0]] + r[0]] + r[1..]
  }

  /** `strings.Join(segs, "/")`. */
  function Join(segs: seq<string>): string {
    if |segs| == 0 then ""
    else if |segs| == 1 then segs[0]
    else segs[0] + "/" + Join(segs[1..])
  }

  lemma {:induction false} SplitConcat(a: string, b: string)
    ensures Split(a + "/" + b) == Split(a) + Split(b)
  {
    var s := a + "/" + b;
    if a == "" {
      assert s[1..] == b;
    } else {
      assert s[1..] == a[1..] + "/" + b;
      SplitConcat(a[1..], b);
    }
  }

  lemma {:induction false} SplitSegment(s: string)
    requires '/' !in s
    ensures Split(s) == [s]
  {
    if s != "" {
      SplitSegment(s[1..]);
      assert [s[0]] + s[1..] == s;
    }
  }

  lemma {:induction false} SplitJoin(segs: seq<string>)
    requires |segs| >= 1
    requires forall seg :: seg in segs ==> '/' !in seg
    ensures Split(Join(segs)) == segs
  {
    if |segs| == 1 {
      SplitSegment(segs[0]);
    } else {
      SplitJoin(segs[1..]);
      SplitConcat(segs[0], Join(segs[1..]));
      SplitSegment(segs[0]);
      assert segs == [segs[0]] + segs[1..];
    }
  }

  lemma {:induction false} JoinSplit(s: string)
    ensures Join(Split(s)) == s
  {
    if s != "" {
      JoinSplit(s[1..]);
      var r := Split(s[1..]);
      if s[0] == '/' {
        assert ([""] + r)[1..] == r;
        assert s == "/" + s[1..];
      } else {
        var q := [[s[0]] + r[0]] + r[1..];
        assert q[1..] == r[1..];
        if |r| > 1 {
          assert Join(q) == [s[0]] + Join(r);
        }
        assert s == [s[0]] + s[1..];
      }
    }
  }

  lemma {:induction false} JoinAppend(front: seq<string>, last: string, tail: string)
    ensures Join(front + [last]) + tail == Join(front + [last + tail])
  {
    if front != [] {
      var rest := front[1..];
      JoinAppend(rest, last, tail);
      assert (front + [last])[1..] == rest + [last];
      assert (front + [last + tail])[1..] == rest + [last + tail];
      assert front[0] + "/" + Join(rest + [last]) + tail == front[0] + "/" + (Join(rest + [last]) + tail);
    }
  }

  /** Appending to a string extends only its last segment. */
  lemma SplitAppend(s: string, tail: string)
    requires '/' !in tail
    ensures var r := Split(s);
            Split(s + tail) == r[..|r| - 1] + [r[|r| - 1] + tail]
  {
    var r := Split(s);
    var front, last := r[..|r| - 1], r[|r| - 1];
    assert r == front + [last];
    JoinSplit(s);
    JoinAppend(front, last, tail);
    assert last in r && forall seg :: seg in front ==> seg in r;
    SplitJoin(front + [last + tail]);
  }

  /** Characters pass through splitting and joining unchanged. */
  lemma {:induction false} JoinChars(segs: seq<string>, c: char)
    requires c != '/'
    requires forall seg :: seg in segs ==> c !in seg
    ensures c !in Join(segs)
  {
    if |segs| > 1 {
      JoinChars(segs[1..], c);
    }
  }

  lemma {:induction false} SplitChars(s: string, c: char)
    requires c !in s
    ensures forall seg :: seg in Split(s) ==> c !in seg
  {
    if s != "" {
      SplitChars(s[1..], c);
    }
  }

  // ---------------------------------------------------------------- path.Clean

  /** The lexical rules of `path.Clean` on a rooted path, segment by segment: empty and
      "." segments go, ".." pops the last kept segment and is dropped at the root. */
  function CleanOnto(kept: seq<string>, segs: seq<string>): seq<string>
    decreases |segs|
  {
    if segs == [] then kept
    else if segs[0] == "" || segs[0] == "." then CleanOnto(kept, segs[1..])
    else if segs[0] == ".." then
      CleanOnto(if kept == [] then [] else kept[..|kept| - 1], segs[1..])
    else CleanOnto(kept + [segs[0]], segs[1..])
  }

  predicate PlainSegment(seg: string) {
    seg != "" && seg != "." && seg != ".." && '/' !in seg
  }

  predicate Plain(segs: seq<string>) {
    forall seg :: seg in segs ==> PlainSegment(seg)
  }

  /** `strings.TrimPrefix(path.Clean("/" + s), "/")`. */
  function CleanRooted(s: string): string {
    Join(CleanOnto([], Split(s)))
  }

  lemma {:induction false} CleanIsPlain(kept: seq<string>, segs: seq<string>)
    requires Plain(kept)
    requires forall seg :: seg in segs ==> '/' !in seg
    ensures Plain(CleanOnto(kept, segs))
    decreases |segs|
  {
    if segs != [] {
      if segs[0] == "" || segs[0] == "." {
        CleanIsPlain(kept, segs[1..]);
      } else if segs[0] == ".." {
        CleanIsPlain(if kept == [] then [] else kept[..|kept| - 1], segs[1..]);
      } else {
        CleanIsPlain(kept + [segs[0]], segs[1..]);
      }
    }
  }

  /** Cleaning keeps every plain segment: with nothing to drop it is the identity. */
  lemma {:induction false} CleanPlain(kept: seq<string>, segs: seq<string>)
    requires Plain(segs)
    ensures CleanOnto(kept, segs) == kept + segs
    decreases |segs|
  {
    if segs != [] {
      assert segs[0] in segs;
      CleanPlain(kept + [segs[0]], segs[1..]);
      assert kept + [segs[0]] + segs[1..] == kept + segs;
    } else {
      assert kept + segs == kept;
    }
  }

  lemma {:induction false} CleanConcat(kept: seq<string>, a: seq<string>, b: seq<string>)
    ensures CleanOnto(kept, a + b) == CleanOnto(CleanOnto(kept, a), b)
    decreases |a|
  {
    if a == [] {
      assert a + b == b;
    } else {
      assert (a + b)[1..] == a[1..] + b;
      if a[0] == "" || a[0] == "." {
        CleanConcat(kept, a[1..], b);
      } else if a[0] == ".." {
        CleanConcat(if kept == [] then [] else kept[..|kept| - 1], a[1..], b);
      } else {
        CleanConcat(kept + [a[0]], a[1..], b);
      }
    }
  }

  /** What cleaning does, rule by rule; a path to which no rule applies is left alone
      (`CleanPlain`). Empty segments and "." can be left out, a segment and the ".." after it
      cancel, and ".." at the root goes. */
  lemma CleanRules(a: seq<string>, seg: string, b: seq<string>)
    ensures CleanOnto([], a + [""] + b) == CleanOnto([], a + b)
    ensures CleanOnto([], a + ["."] + b) == CleanOnto([], a + b)
    ensures PlainSegment(seg) ==> CleanOnto([], a + [seg, ".."] + b) == CleanOnto([], a + b)
    ensures CleanOnto([], [".."] + b) == CleanOnto([], b)
  {
    var kept := CleanOnto([], a);
    CleanConcat([], a, b);
    OneSegment(kept, "");
    OneSegment(kept, ".");
    OneSegment([], "..");
    CleanMiddle(a, [""], b);
    CleanMiddle(a, ["."], b);
    CleanMiddle(a, [seg, ".."], b);
    CleanConcat([], [".."], b);
    if PlainSegment(seg) {
      assert [seg, ".."][1..] == [".."];
      OneSegment(kept + [seg], "..");
      assert (kept + [seg])[..|kept|] == kept;
    }
  }

  lemma CleanMiddle(a: seq<string>, m: seq<string>, b: seq<string>)
    ensures CleanOnto([], a + m + b) == CleanOnto(CleanOnto(CleanOnto([], a), m), b)
  {
    CleanConcat([], a + m, b);
    CleanConcat([], a, m);
  }

  lemma OneSegment(kept: seq<string>, seg: string)
    ensures CleanOnto(kept, [seg]) == if seg == "" || seg == "." then kept
                                      else if seg == ".." then (if kept == [] then [] else kept[..|kept| - 1])
                                      else kept + [seg]
  {
    assert [seg][1..] == [];
  }

  /** Leading and trailing slashes make no difference to cleaning. */
  lemma {:induction false} TrimLeftCleans(s: string)
    ensures CleanRooted(TrimLeft(s)) == CleanRooted(s)
  {
    if s != "" && s[0] == '/' {
      TrimLeftCleans(s[1..]);
      var segs := [""] + Split(s[1..]);
      assert segs[1..] == Split(s[1..]);
      assert CleanOnto([], segs) == CleanOnto([], segs[1..]);
    }
  }

  lemma {:induction false} TrimRightCleans(s: string)
    ensures CleanRooted(TrimRight(s)) == CleanRooted(s)
  {
    if s != "" && s[|s| - 1] == '/' {
      var front := s[..|s| - 1];
      TrimRightCleans(front);
      assert s == front + "/" + "";
      SplitConcat(front, "");
      CleanConcat([], Split(front), [""]);
      assert CleanOnto(CleanOnto([], Split(front)), [""]) == CleanOnto([], Split(front));
    }
  }

  lemma {:induction false} CleanChars(kept: seq<string>, segs: seq<string>, c: char)
    requires forall seg :: seg in kept + segs ==> c !in seg
    ensures forall seg :: seg in CleanOnto(kept, segs) ==> c !in seg
    decreases |segs|
  {
    assert forall seg :: seg in kept ==> seg in kept + segs;
    assert forall seg :: seg in segs ==> seg in kept + segs;
    if segs != [] {
      assert segs[0] in segs;
      if segs[0] == "" || segs[0] == "." {
        CleanChars(kept, segs[1..], c);
      } else if segs[0] == ".." {
        CleanChars(if kept == [] then [] else kept[..|kept| - 1], segs[1..], c);
      } else {
        CleanChars(kept + [segs[0]], segs[1..], c);
      }
    }
  }

  // ---------------------------------------------------------------- order

  /** Go's `<` on strings. */
  predicate Less(a: string, b: string) {
    if b == "" then false
    else if a == "" then true
    else a[0] < b[0] || (a[0] == b[0] && Less(a[1..], b[1..]))
  }

  /** The same order read off the two strings: a proper prefix comes first; otherwise the string
      with the smaller character at the first place where they differ. */
  predicate Precedes(a: string, b: string) {
    a < b || exists n :: 0 <= n < |a| && n < |b| && a[..n] == b[..n] && a[n] < b[n]
  }

  lemma {:induction false} LessPrecedes(a: string, b: string)
    requires Less(a, b)
    ensures Precedes(a, b)
  {
    if a != "" {
      if a[0] < b[0] {
        assert a[..0] == b[..0];
      } else {
        LessPrecedes(a[1..], b[1..]);
        assert a == [a[0]] + a[1..] && b == [b[0]] + b[1..];
        if !(a < b) {
          var n :| 0 <= n < |a[1..]| && n < |b[1..]| && a[1..][..n] == b[1..][..n] && a[1..][n] < b[1..][n];
          assert a[..n + 1] == [a[0]] + a[1..][..n] && b[..n + 1] == [b[0]] + b[1..][..n];
          assert a[n + 1] < b[n + 1];
        }
      }
    }
  }

  lemma {:induction false} PrecedesLess(a: string, b: string)
    requires Precedes(a, b)
    ensures Less(a, b)
  {
    if a != "" {
      if a < b {
        assert a[1..] < b[1..] by { assert a == b[..|a|]; }
        PrecedesLess(a[1..], b[1..]);
      } else {
        var n :| 0 <= n < |a| && n < |b| && a[..n] == b[..n] && a[n] < b[n];
        if n > 0 {
          assert a[0] == a[..n][0] == b[..n][0] == b[0];
          assert a[1..][..n - 1] == a[..n][1..] && b[1..][..n - 1] == b[..n][1..];
          assert a[1..][n - 1] < b[1..][n - 1];
          PrecedesLess(a[1..], b[1..]);
        }
      }
    }
  }

  /** The recursion decides just that order. */
  lemma LessExactly(a: string, b: string)
    ensures Less(a, b) <==> Precedes(a, b)
    ensures Less(a, b) <==> a < b || exists n :: 0 <= n < |a| && n < |b| && a[..n] == b[..n] && a[n] < b[n]
  {
    if Less(a, b) { LessPrecedes(a, b); }
    if Precedes(a, b) { PrecedesLess(a, b); }
  }

  lemma OrderWitness()
    ensures Precedes("a", "b") && !Precedes("b", "a") && Precedes("a", "a/b") && Precedes("a.b", "a/b")
  {
    assert "a"[0] < "b"[0] && "a"[..0] == "b"[..0];
    if Precedes("b", "a") { PrecedesLess("b", "a"); assert false; }
    assert "a.b"[..1] == "a/b"[..1] && "a.b"[1] < "a/b"[1];
  }

  lemma {:induction false} LessIrreflexive(a: string)
    ensures !Less(a, a)
  {
    if a != "" { LessIrreflexive(a[1..]); }
  }

  lemma {:induction false} LessTransitive(a: string, b: string, c: string)
    requires Less(a, b) && Less(b, c)
    ensures Less(a, c)
  {
    if a != "" && a[0] == b[0] && b[0] == c[0] {
      LessTransitive(a[1..], b[1..], c[1..]);
    }
  }

  lemma {:induction false} LessTotal(a: string, b: string)
    ensures a == b || Less(a, b) || Less(b, a)
  {
    if a != "" && b != "" && a[0] == b[0] {
      LessTotal(a[1..], b[1..]);
      if a[1..] == b[1..] {
        assert a == [a[0]] + a[1..] == [b[0]] + b[1..] == b;
      }
    }
  }

  lemma LessAsymmetric(a: string, b: string)
    requires Less(a, b)
    ensures !Less(b, a) && a != b
  {
    LessIrreflexive(a);
    if Less(b, a) { LessTransitive(a, b, a); }
  }
}

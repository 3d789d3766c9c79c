/** The path sanitiser of the local driver: decode once, judge the segments, clean, join with
    the root, and check the links on the way. */
module Sanitizer {
  import opened Prelude
  import opened Text
  import opened Confinement

  datatype SanitizeError =
    | NullByte | BadEncoding | EncodedTraversal | Colon | Traversal | DeviceName
    | OutsideRoot | Symlink(error: LinkError)

  // ---------------------------------------------------------------- percent decoding

  function HexValue(c: char): Option<int> {
    if '0' <= c <= '9' then Some(c as int - '0' as int)
    else if 'a' <= c <= 'f' then Some(c as int - 'a' as int + 10)
    else if 'A' <= c <= 'F' then Some(c as int - 'A' as int + 10)
    else None
  }

  /** `url.PathUnescape`: every "%" starts a two-digit escape (section 2.1 of RFC 3986). */
  function Unescape(s: string): Option<string>
    decreases |s|
  {
    if s == "" then Some("")
    else if s[0] != '%' then
      var rest := Unescape(s[1..]);
      if rest.None? then None else Some([s[0]] + rest.value)
    else if |s| < 3 || HexValue(s[1]).None? || HexValue(s[2]).None? then None
    else
      var rest := Unescape(s[3..]);
      var code := HexValue(s[1]).value * 16 + HexValue(s[2]).value;
      if rest.None? then None else Some([code as char] + rest.value)
  }

  /** The spelling that protects a name from decoding: "%" written as "%25". */
  function Escape(s: string): string {
    if s == "" then "" else (if s[0] == '%' then "%25" else [s[0]]) + Escape(s[1..])
  }

  /** Decoding happens once: a protected name comes back as it is, escapes in it and all. */
  lemma {:induction false} DecodedOnce(s: string)
    ensures Unescape(Escape(s)) == Some(s)
  {
    if s != "" {
      DecodedOnce(s[1..]);
      var e := Escape(s);
      if s[0] == '%' {
        assert e[0] == '%' && e[1] == '2' && e[2] == '5' && e[3..] == Escape(s[1..]);
      } else {
        assert e[0] == s[0] && e[1..] == Escape(s[1..]);
      }
      assert s == [s[0]] + s[1..];
    }
  }

  /** A hexadecimal digit and its value. */
  predicate IsHex(c: char, n: int) {
    0 <= n < 16 && (c == "0123456789abcdef"[n] || c == "0123456789ABCDEF"[n])
  }

  lemma HexExactly(c: char)
    ensures HexValue(c).Some? ==> IsHex(c, HexValue(c).value)
    ensures forall n :: IsHex(c, n) ==> HexValue(c) == Some(n)
  {
    forall n | IsHex(c, n) ensures HexValue(c) == Some(n) {
      if n < 10 {
        assert "0123456789abcdef"[n] as int == '0' as int + n == "0123456789ABCDEF"[n] as int;
      } else {
        assert "0123456789abcdef"[n] as int == 'a' as int + n - 10;
        assert "0123456789ABCDEF"[n] as int == 'A' as int + n - 10;
      }
    }
  }

  /** One way of writing a character: as it is, or, and "%" only so, by its two digits. */
  predicate Writes(piece: string, c: char) {
    || (piece == [c] && c != '%')
    || (|piece| == 3 && piece[0] == '%'
        && exists high, low | 0 <= high < 16 && 0 <= low < 16 ::
             IsHex(piece[1], high) && IsHex(piece[2], low) && c as int == 16 * high + low)
  }

  function Concat(pieces: seq<string>): string {
    if pieces == [] then "" else pieces[0] + Concat(pieces[1..])
  }

  /** Each piece writes the character at its place. */
  predicate WritesAll(pieces: seq<string>, r: string) {
    |pieces| == |r| && forall i :: 0 <= i < |r| ==> Writes(pieces[i], r[i])
  }

  lemma {:induction false} Taken(s: string) returns (pieces: seq<string>)
    requires Unescape(s).Some?
    ensures WritesAll(pieces, Unescape(s).value) && Concat(pieces) == s
    decreases |s|
  {
    if s == "" {
      pieces := [];
    } else {
      var n := if s[0] == '%' then 3 else 1;
      var rest := Taken(s[n..]);
      if n == 3 {
        HexExactly(s[1]);
        HexExactly(s[2]);
      }
      pieces := [s[..n]] + rest;
      assert pieces[1..] == rest && s == s[..n] + s[n..];
    }
  }

  lemma {:induction false} Written(pieces: seq<string>, r: string)
    requires WritesAll(pieces, r)
    ensures Unescape(Concat(pieces)) == Some(r)
    decreases |pieces|
  {
    if pieces != [] {
      Written(pieces[1..], r[1..]);
      PieceTaken(pieces[0], r[0], Concat(pieces[1..]));
      assert r == [r[0]] + r[1..];
    }
  }

  lemma PieceTaken(piece: string, c: char, rest: string)
    requires Writes(piece, c)
    ensures Unescape(piece + rest)
            == if Unescape(rest).Some? then Some([c] + Unescape(rest).value) else None
  {
    var s := piece + rest;
    assert s[|piece|..] == rest;
    if piece[0] == '%' {
      assert s[1] == piece[1] && s[2] == piece[2];
      HexExactly(s[1]);
      HexExactly(s[2]);
    }
  }

  /** Decoding yields a name exactly when the text writes that name piece by piece. */
  lemma UnescapeExactly(s: string, r: string)
    ensures Unescape(s) == Some(r) <==> exists pieces :: WritesAll(pieces, r) && Concat(pieces) == s
  {
    if Unescape(s) == Some(r) {
      var pieces := Taken(s);
    }
    if pieces :| WritesAll(pieces, r) && Concat(pieces) == s {
      Written(pieces, r);
    }
  }

  // ---------------------------------------------------------------- segments

  predicate DotsAt(s: string, i: int) {
    0 <= i < |s| - 1 && s[i] == '.' && s[i + 1] == '.'
  }

  /** The string has ".." in it. */
  predicate HasDots(s: string) {
    exists i | 0 <= i < |s| :: DotsAt(s, i)
  }

  function Upper(s: string): string {
    seq(|s|, i requires 0 <= i < |s| => if 'a' <= s[i] <= 'z' then (s[i] as int - 32) as char else s[i])
  }

  const DEVICES: set<string> := {
    "CON", "PRN", "AUX", "NUL",
    "COM1", "COM2", "COM3", "COM4", "COM5", "COM6", "COM7", "COM8", "COM9",
    "LPT1", "LPT2", "LPT3", "LPT4", "LPT5", "LPT6", "LPT7", "LPT8", "LPT9"}

  /** A segment up to its first dot. */
  function Stem(s: string): (r: string)
    ensures r <= s
  {
    if s == "" || s[0] == '.' then "" else [s[0]] + Stem(s[1..])
  }

  /** A reserved Windows name, in any case, alone or with an extension (which, the pattern
      being what it is, holds no line break). */
  predicate IsDevice(s: string) {
    Upper(Stem(s)) in DEVICES && '\n' !in s[|Stem(s)|..]
  }

  /** The name in capitals or small letters, each letter for itself. */
  predicate SameLetters(name: string, s: string) {
    |s| == |name| && forall i :: 0 <= i < |name| ==>
      s[i] == name[i] || ('A' <= name[i] <= 'Z' && s[i] as int == name[i] as int + 32)
  }

  lemma {:induction false} StemExactly(s: string)
    ensures '.' !in Stem(s) && (|Stem(s)| < |s| ==> s[|Stem(s)|] == '.')
  {
    if s != "" && s[0] != '.' { StemExactly(s[1..]); }
  }

  lemma UpperExactly(name: string, s: string)
    requires forall i :: 0 <= i < |name| ==> 'A' <= name[i] <= 'Z' || '1' <= name[i] <= '9'
    ensures Upper(s) == name <==> SameLetters(name, s)
  {
    if Upper(s) == name {
      forall i | 0 <= i < |name|
        ensures s[i] == name[i] || ('A' <= name[i] <= 'Z' && s[i] as int == name[i] as int + 32)
      {
        assert Upper(s)[i] == name[i];
      }
    }
  }

  lemma DeviceNames()
    ensures forall name :: name in DEVICES ==> '.' !in name
    ensures forall name, i :: name in DEVICES && 0 <= i < |name| ==> 'A' <= name[i] <= 'Z' || '1' <= name[i] <= '9'
    ensures forall name :: name in DEVICES <==> name in {"CON", "PRN", "AUX", "NUL"} || IsPort(name)
  {
    forall name | IsPort(name) ensures name in DEVICES {
      var c := name[3];
      assert c == '1' || c == '2' || c == '3' || c == '4' || c == '5' || c == '6' || c == '7' || c == '8' || c == '9';
      assert name == [name[0], name[1], name[2], c];
    }
  }

  /** COM1 to COM9 and LPT1 to LPT9. */
  predicate IsPort(name: string) {
    && |name| == 4 && '1' <= name[3] <= '9'
    && ((name[0] == 'C' && name[1] == 'O' && name[2] == 'M') || (name[0] == 'L' && name[1] == 'P' && name[2] == 'T'))
  }

  /** The segment is the name, in any case, alone or followed by a dot and anything but a line
      break. */
  predicate IsNamed(s: string, name: string) {
    |name| <= |s| && SameLetters(name, s[..|name|])
    && (|s| == |name| || (s[|name|] == '.' && '\n' !in s[|name|..]))
  }

  /** A segment is refused exactly when it is so named after CON, PRN, AUX, NUL, COM1 to COM9 or
      LPT1 to LPT9 (`DeviceNames`). */
  lemma DeviceExactly(s: string)
    ensures IsDevice(s) <==> exists name :: name in DEVICES && IsNamed(s, name)
  {
    DeviceNames();
    StemExactly(s);
    if IsDevice(s) {
      var name := Upper(Stem(s));
      UpperExactly(name, Stem(s));
      assert s[..|name|] == Stem(s);
      assert IsNamed(s, name);
    }
    if name :| name in DEVICES && IsNamed(s, name) {
      StemOf(s, name);
      UpperExactly(name, Stem(s));
    }
  }

  lemma StemOf(s: string, name: string)
    requires |name| <= |s| && SameLetters(name, s[..|name|]) && '.' !in name
    requires |s| == |name| || s[|name|] == '.'
    ensures Stem(s) == s[..|name|]
  {
    StemExactly(s);
    var k := |Stem(s)|;
    assert forall i :: 0 <= i < k ==> s[i] == Stem(s)[i] && s[i] in Stem(s);
    forall i | 0 <= i < |name| ensures s[i] != '.' {
      assert s[..|name|][i] == s[i] && name[i] in name;
    }
  }

  predicate OnlyDots(s: string) {
    forall c :: c in s ==> c == '.'
  }

  predicate SegmentOk(s: string) {
    !HasDots(s) && !IsDevice(s)
  }

  // ---------------------------------------------------------------- the normal form

  /** The path that is judged: decoded, once, if there is a "%" in it at all. */
  function Decoded(userPath: string): Option<string> {
    if '%' in userPath then Unescape(userPath) else Some(userPath)
  }

  /** The exception makes no difference: without a "%" decoding changes nothing. */
  lemma DecodedExactly(userPath: string)
    ensures Decoded(userPath) == Unescape(userPath)
  {
    if '%' !in userPath { NothingEscaped(userPath); }
  }

  lemma {:induction false} NothingEscaped(s: string)
    requires '%' !in s
    ensures Unescape(s) == Some(s)
  {
    if s != "" {
      NothingEscaped(s[1..]);
      assert s == [s[0]] + s[1..];
    }
  }

  function Segments(path: string): seq<string> {
    Split(ReplaceBackslashes(path))
  }

  /** A path whose text is accepted, links aside. */
  ghost predicate Acceptable(userPath: string) {
    && '\0' !in userPath && Decoded(userPath).Some?
    && var path := Decoded(userPath).value;
       '\0' !in path && ':' !in path && forall s :: s in Segments(path) ==> SegmentOk(s)
  }

  /** A path is acceptable exactly when it decodes to one without null bytes, without colons,
      without two dots in a row and without a device name for a segment. */
  lemma AcceptableExactly(userPath: string)
    ensures Acceptable(userPath)
      <==> && Unescape(userPath).Some?
           && var path := Unescape(userPath).value;
              && '\0' !in path && ':' !in path
              && (forall i :: 0 <= i < |path| - 1 && path[i] == '.' ==> path[i + 1] != '.')
              && forall s :: s in Split(ReplaceBackslashes(path)) ==> !IsDevice(s)
  {
    DecodedExactly(userPath);
    if Decoded(userPath).Some? {
      var path := Decoded(userPath).value;
      if '%' in userPath { KeepsNulls(userPath); }
      DotsExactly(path);
      DotsInSegments(path);
    }
  }

  lemma DotsExactly(path: string)
    ensures HasDots(path) <==> exists i :: 0 <= i < |path| - 1 && path[i] == '.' && path[i + 1] == '.'
  {
    if i :| 0 <= i < |path| - 1 && path[i] == '.' && path[i + 1] == '.' {
      assert DotsAt(path, i);
    }
  }

  lemma {:induction false} KeepsNulls(s: string)
    ensures Unescape(s).Some? && '\0' in s ==> '\0' in Unescape(s).value
    decreases |s|
  {
    if s != "" && Unescape(s).Some? {
      if s[0] != '%' {
        KeepsNulls(s[1..]);
        assert s == [s[0]] + s[1..];
      } else {
        KeepsNulls(s[3..]);
        assert s == [s[0], s[1], s[2]] + s[3..];
      }
    }
  }

  /** Dots are together in a path exactly when they are in one of its segments. */
  lemma DotsInSegments(path: string)
    ensures HasDots(path) <==> exists s :: s in Segments(path) && HasDots(s)
  {
    var turned := ReplaceBackslashes(path);
    forall i ensures DotsAt(turned, i) <==> DotsAt(path, i) {}
    if HasDots(path) {
      var i :| 0 <= i < |path| && DotsAt(path, i);
      assert DotsAt(turned, i);
    }
    if HasDots(turned) {
      var i :| 0 <= i < |turned| && DotsAt(turned, i);
      assert DotsAt(path, i);
    }
    if HasDots(turned) {
      if forall s :: s in Split(turned) ==> !HasDots(s) { DotlessSegments(turned); }
    } else {
      DotlessWhole(turned);
    }
  }

  lemma {:induction false} DotlessWhole(s: string)
    requires !HasDots(s)
    ensures forall seg :: seg in Split(s) ==> !HasDots(seg)
  {
    if s != "" {
      var c, t, r := s[0], s[1..], Split(s[1..]);
      assert s == [c] + t;
      DotsLater(c, t);
      DotlessWhole(t);
      DotsLater(c, r[0]);
      assert r[0] != "" ==> t != "" && t[0] == r[0][0];
      assert r == [r[0]] + r[1..];
    }
  }

  /** The segments that remain: all but the empty ones and ".". */
  function Kept(segs: seq<string>): seq<string> {
    if segs == [] then []
    else (if segs[0] == "" || segs[0] == "." then [] else [segs[0]]) + Kept(segs[1..])
  }

  lemma DotDotHasDots(s: string)
    ensures HasDots(s) || s != ".."
  {
    if s == ".." { assert DotsAt(s, 0); }
  }

  lemma {:induction false} KeptIsPlain(segs: seq<string>)
    requires forall s :: s in segs ==> !HasDots(s) && '/' !in s
    ensures Plain(Kept(segs))
  {
    if segs != [] {
      assert segs[0] in segs;
      DotDotHasDots(segs[0]);
      KeptIsPlain(segs[1..]);
    }
  }

  lemma Reassociate(a: seq<string>, x: string, b: seq<string>)
    ensures a + [x] + b == a + ([x] + b)
  {
  }

  lemma {:induction false} CleanDrops(kept: seq<string>, segs: seq<string>)
    requires ".." !in segs
    ensures CleanOnto(kept, segs) == kept + Kept(segs)
    decreases |segs|
  {
    if segs != [] {
      var seg, rest := segs[0], segs[1..];
      assert segs == [seg] + rest && seg in segs;
      if seg == "" || seg == "." {
        CleanDrops(kept, rest);
      } else {
        CleanDrops(kept + [seg], rest);
        Reassociate(kept, seg, Kept(rest));
      }
    }
  }

  /** Without ".." in any segment, cleaning never pops. */
  lemma CleanKeeps(kept: seq<string>, segs: seq<string>)
    requires forall s :: s in segs ==> !HasDots(s)
    ensures CleanOnto(kept, segs) == kept + Kept(segs)
  {
    DotDotHasDots("..");
    CleanDrops(kept, segs);
  }

  // ---------------------------------------------------------------- the checks that never fire

  predicate DotDotInside(rel: string, i: int) {
    0 <= i <= |rel| - 4 && rel[i..i + 4] == "/../"
  }

  /** The traversal tests on the cleaned path. */
  predicate LeavesRoot(rel: string) {
    rel == ".." || "../" <= rel || exists i | 0 <= i < |rel| :: DotDotInside(rel, i)
  }

  lemma NeverLeaves(segs: seq<string>)
    requires Plain(segs)
    ensures !LeavesRoot(Join(segs)) && Join(segs) != "."
  {
    var rel := Join(segs);
    if segs != [] {
      assert segs[0] in segs;
      SplitJoin(segs);
      NotDotDot(segs);
      SplitSegment(".");
      forall i ensures !DotDotInside(rel, i) { InsideIsSegment(rel, i); }
    }
  }

  lemma InsideIsSegment(rel: string, i: int)
    ensures DotDotInside(rel, i) ==> ".." in Split(rel)
  {
    if DotDotInside(rel, i) {
      assert rel == rel[..i] + "/../" + rel[i + 4..];
      InnerSegment(rel[..i], rel[i + 4..]);
    }
  }

  lemma InnerSegment(a: string, b: string)
    ensures ".." in Split(a + "/../" + b)
  {
    SplitConcat("..", b);
    SplitSegment("..");
    SplitConcat(a, "../" + b);
    assert a + "/../" + b == a + "/" + ("../" + b);
    assert "../" + b == ".." + "/" + b;
    var s := [".."] + Split(b);
    assert s[0] == ".." && (Split(a) + s)[|Split(a)|] == "..";
  }

  // ---------------------------------------------------------------- joining with the root

  lemma CleanJoined(kept: seq<string>, segs: seq<string>)
    requires Plain(segs)
    ensures CleanOnto(kept, Split(Join(segs))) == kept + segs
  {
    if segs == [] {
      assert kept + segs == kept;
    } else {
      SplitJoin(segs);
      CleanPlain(kept, segs);
    }
  }

  function PathSegments(path: string): Path {
    CleanOnto([], Split(path))
  }

  lemma RenderedSegments(p: Path)
    requires Plain(p)
    ensures PathSegments(Render(p)) == p
  {
    SplitConcat("", Join(p));
    assert Render(p) == "" + "/" + Join(p);
    assert Split(Render(p)) == [""] + Split(Join(p));
    CleanJoined([], p);
  }

  /** `filepath.Join` of an absolute path and a relative one. */
  function JoinPath(base: string, rel: string): string {
    if rel == "" then Render(PathSegments(base)) else Render(PathSegments(base + "/" + rel))
  }

  lemma JoinedSegments(root: Path, segs: Path)
    requires Plain(root) && Plain(segs)
    ensures JoinPath(Render(root), Join(segs)) == Render(root + segs)
  {
    RenderedSegments(root);
    if Join(segs) == "" {
      EmptyJoin(segs);
      assert root + segs == root;
    } else {
      SplitConcat(Render(root), Join(segs));
      CleanConcat([], Split(Render(root)), Split(Join(segs)));
      CleanJoined(root, segs);
    }
  }

  lemma EmptyJoin(segs: Path)
    requires Plain(segs)
    ensures segs == [] || Join(segs) != ""
  {
    if segs != [] { assert segs[0] in segs; }
  }

  // ---------------------------------------------------------------- the sanitiser

  lemma DotsShift(c: char, s: string, i: int)
    ensures DotsAt(s, i) ==> DotsAt([c] + s, i + 1)
    ensures DotsAt([c] + s, i) && i > 0 ==> DotsAt(s, i - 1)
  {
    var t := [c] + s;
    assert 0 <= i < |s| ==> t[i + 1] == s[i];
    assert 0 <= i + 1 < |s| ==> t[i + 2] == s[i + 1];
    assert 0 < i < |t| ==> t[i] == s[i - 1];
    assert 0 < i + 1 < |t| ==> t[i + 1] == s[i];
  }

  lemma DotsLater(c: char, s: string)
    ensures HasDots(s) ==> HasDots([c] + s)
    ensures HasDots([c] + s) ==> HasDots(s) || (c == '.' && s != "" && s[0] == '.')
    ensures c == '.' && s != "" && s[0] == '.' ==> HasDots([c] + s)
  {
    var t := [c] + s;
    assert DotsAt(t, 0) <==> c == '.' && s != "" && s[0] == '.' by { assert |s| > 0 ==> t[1] == s[0]; }
    forall i | DotsAt(s, i) ensures HasDots(t) { DotsShift(c, s, i); }
    forall i | DotsAt(t, i) && i > 0 ensures HasDots(s) { DotsShift(c, s, i); }
  }

  /** A slash between dots keeps them apart: dots together are together in one segment. */
  lemma {:induction false} DotlessSegments(s: string)
    requires forall seg :: seg in Split(s) ==> !HasDots(seg)
    ensures !HasDots(s)
  {
    if s != "" {
      var c, t, r := s[0], s[1..], Split(s[1..]);
      assert s == [c] + t;
      DotsLater(c, t);
      if c == '/' {
        assert forall seg :: seg in r ==> seg in [""] + r;
      } else {
        DotsLater(c, r[0]);
        var all := [[c] + r[0]] + r[1..];
        assert all[0] in all && forall seg :: seg in r[1..] ==> seg in all;
        assert r == [r[0]] + r[1..];
      }
      DotlessSegments(t);
      FirstOfSplit(t);
    }
  }

  lemma FirstOfSplit(s: string)
    ensures s != "" && s[0] != '/' ==> Split(s)[0] != "" && Split(s)[0][0] == s[0]
  {
  }

  method CheckSegments(segs: seq<string>) returns (error: Option<SanitizeError>)
    ensures error.None? <==> forall s :: s in segs ==> SegmentOk(s)
    ensures error.Some? ==>
              || (error.value == Traversal && exists s :: s in segs && HasDots(s))
              || (error.value == DeviceName && exists s :: s in segs && IsDevice(s))
  {
    for i := 0 to |segs|
      invariant forall s :: s in segs[..i] ==> SegmentOk(s)
    {
      var seg := segs[i];
      assert seg in segs;
      if OnlyDots(seg) && |seg| >= 2 {
        assert seg[0] in seg && seg[1] in seg;
        assert DotsAt(seg, 0);
        return Some(Traversal);
      }
      if seg == ".." || HasDots(seg) {
        DotDotHasDots(seg);
        return Some(Traversal);
      }
      if IsDevice(seg) {
        return Some(DeviceName);
      }
      assert segs[..i + 1] == segs[..i] + [seg];
    }
    assert segs[..|segs|] == segs;
    return None;
  }

  /** Where an acceptable path leads below the root. */
  function Target(root: Path, userPath: string): Path
    requires Decoded(userPath).Some?
  {
    root + Kept(Segments(Decoded(userPath).value))
  }

  lemma AcceptedSegments(root: Path, userPath: string)
    requires Plain(root) && Acceptable(userPath)
    ensures var segs := Segments(Decoded(userPath).value);
            && CleanOnto([], segs) == Kept(segs) && Plain(Kept(segs)) && Plain(Target(root, userPath))
            && !LeavesRoot(Join(Kept(segs))) && Join(Kept(segs)) != "."
            && JoinPath(Render(root), Join(Kept(segs))) == Render(Target(root, userPath))
  {
    var segs := Segments(Decoded(userPath).value);
    assert forall s :: s in segs ==> SegmentOk(s);
    CleanKeeps([], segs);
    assert [] + Kept(segs) == Kept(segs);
    KeptIsPlain(segs);
    NeverLeaves(Kept(segs));
    JoinedSegments(root, Kept(segs));
  }

  lemma NoDotsAtAll(path: string)
    requires forall s :: s in Segments(path) ==> SegmentOk(s)
    ensures !HasDots(path)
  {
    forall seg | seg in Split(ReplaceBackslashes(path)) ensures !HasDots(seg) {
      assert seg in Segments(path);
      assert SegmentOk(seg);
    }
    DotlessSegments(ReplaceBackslashes(path));
    forall i | 0 <= i < |path| ensures !DotsAt(path, i) {
      assert !DotsAt(ReplaceBackslashes(path), i);
    }
  }

  /** What is wrong with a text that is not accepted: the first of these that applies. */
  ghost predicate Faulty(userPath: string, e: SanitizeError) {
    match Unescape(userPath)
    case None => e == if '\0' in userPath then NullByte else BadEncoding
    case Some(path) =>
      var dots := exists i :: 0 <= i < |path| - 1 && path[i] == '.' && path[i + 1] == '.';
      if '\0' in userPath || '\0' in path then e == NullByte
      else if '%' in userPath && dots then e == EncodedTraversal
      else if ':' in path then e == Colon
      else
        || (e == Traversal && dots)
        || (e == DeviceName && exists s :: s in Split(ReplaceBackslashes(path)) && IsDevice(s))
  }

  /** The judgement of the text alone. */
  method JudgeText(userPath: string) returns (r: Result<string, SanitizeError>)
    ensures r.Ok? <==> Acceptable(userPath)
    ensures r.Ok? ==> r.value == Decoded(userPath).value
    ensures r.Err? ==> !r.error.Symlink? && r.error != OutsideRoot && Faulty(userPath, r.error)
  {
    DecodedExactly(userPath);
    if Decoded(userPath).Some? {
      DotsExactly(Decoded(userPath).value);
      DotsInSegments(Decoded(userPath).value);
      if '%' in userPath { KeepsNulls(userPath); }
    }
    var path := userPath;
    if '\0' in path {
      return Err(NullByte);
    }
    if '%' in path {
      var decoded := Unescape(path);
      if decoded.None? {
        return Err(BadEncoding);
      }
      if '\0' in decoded.value {
        return Err(NullByte);
      }
      if HasDots(decoded.value) {
        if Acceptable(userPath) { NoDotsAtAll(decoded.value); }
        return Err(EncodedTraversal);
      }
      path := decoded.value;
    }
    var normalized := ReplaceBackslashes(path);
    SameColons(path);
    if ':' in normalized {
      return Err(Colon);
    }
    var bad := CheckSegments(Split(normalized));
    if bad.Some? {
      return Err(bad.value);
    }
    return Ok(path);
  }

  lemma SameColons(path: string)
    ensures ':' in ReplaceBackslashes(path) <==> ':' in path
  {
    forall i | 0 <= i < |path| ensures path[i] == ':' <==> ReplaceBackslashes(path)[i] == ':' {}
  }

  /** `Sanitize`. A path is accepted exactly when its decoded text is acceptable and no link
      on the way to it leaves the root; what comes out is the root followed by the decoded
      segments, empty ones and "." dropped. The two later traversal tests never fire. */
  method Sanitize(root: Path, fs: FileSystem, limits: Limits, userPath: string)
    returns (r: Result<string, SanitizeError>)
    requires Plain(root) && TargetsOk(fs)
    ensures r.Ok? <==> Acceptable(userPath) && Confined(fs, root, Target(root, userPath), limits)
    ensures r.Ok? ==>
              && Unescape(userPath).Some?
              && r.value == "/" + Join(root + Kept(Split(ReplaceBackslashes(Unescape(userPath).value))))
    ensures r.Err? ==> r.error != OutsideRoot && (r.error.Symlink? <==> Acceptable(userPath))
    ensures r.Err? && !r.error.Symlink? ==> Faulty(userPath, r.error)
  {
    DecodedExactly(userPath);
    var text := JudgeText(userPath);
    if text.Err? {
      return Err(text.error);
    }
    AcceptedSegments(root, userPath);
    var normalized := ReplaceBackslashes(text.value);
    var cleanRel := CleanRooted(normalized);
    if cleanRel == "." {
      cleanRel := "";
    }
    if LeavesRoot(cleanRel) {
      return Err(OutsideRoot);
    }
    var fullPath := JoinPath(Render(root), cleanRel);
    RenderedSegments(Target(root, userPath));
    fullPath := Render(PathSegments(fullPath));
    RelTest(root, PathSegments(fullPath));
    if Escapes(Rel(root, PathSegments(fullPath))) {
      return Err(OutsideRoot);
    }
    var error, _ := VerifySymlinkConfinement(fs, root, PathSegments(fullPath), limits);
    if error.Some? {
      return Err(Symlink(error.value));
    }
    return Ok(fullPath);
  }

  /** Accepted paths stay inside a canonical root once their links are followed; and so does
      the directory of an accepted path that does not exist yet. */
  lemma SanitizedStaysInside(root: Path, fs: FileSystem, limits: Limits, userPath: string, limit: nat)
    requires Plain(root) && Acceptable(userPath) && Confined(fs, root, Target(root, userPath), limits)
    requires Canonical(fs, root)
    ensures var p := Target(root, userPath);
            && (Resolve(fs, [], p, limit).Ok? ==> root <= Resolve(fs, [], p, limit).value)
            && (p != root && Resolve(fs, [], Parent(p), limit).Ok? ==> root <= Resolve(fs, [], Parent(p), limit).value)
  {
    AcceptedSegments(root, userPath);
    var p := Target(root, userPath);
    StaysInside(root, fs, limits, p, limit);
    if p != root {
      ParentConfined(root, fs, limits, p);
      StaysInside(root, fs, limits, Parent(p), limit);
    }
  }

  lemma StaysInside(root: Path, fs: FileSystem, limits: Limits, p: Path, limit: nat)
    requires Plain(p) && root <= p && Confined(fs, root, p, limits) && Canonical(fs, root)
    ensures Resolve(fs, [], p, limit).Ok? ==> root <= Resolve(fs, [], p, limit).value
  {
    if Resolve(fs, [], p, limit).Ok? { ConfinedMeansInside(fs, root, p, limits, limit); }
  }

  lemma ParentConfined(root: Path, fs: FileSystem, limits: Limits, p: Path)
    requires Plain(p) && root <= p && p != root && Confined(fs, root, p, limits)
    ensures Plain(Parent(p)) && root <= Parent(p) && Confined(fs, root, Parent(p), limits)
  {
    forall n | |root| <= n <= |Parent(p)| ensures LinkOk(fs, root, Parent(p)[..n], limits) {
      assert Parent(p)[..n] == p[..n];
    }
  }
}

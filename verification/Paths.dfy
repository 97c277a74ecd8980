/** File paths as the store compares them: separators unified, `.` and `..` resolved, drive and
UNC paths lower-cased; and the test whether a document lies under a deleted path. */
module Paths {

  // ---------------------------------------------------------------- strings

  predicate StartsWith(s: string, prefix: string) {
    |prefix| <= |s| && s[..|prefix|] == prefix
  }

  function Lower(c: char): char {
    if 'A' <= c <= 'Z' then (c as int + 32) as char else c
  }

  function LowerAll(s: string): (r: string)
    ensures |r| == |s|
    ensures forall i :: 0 <= i < |s| ==> r[i] == Lower(s[i])
  {
    seq(|s|, i requires 0 <= i < |s| => Lower(s[i]))
  }

  /** Backslashes become slashes. */
  function Forward(s: string): (r: string)
    ensures |r| == |s|
    ensures forall i :: 0 <= i < |s| ==> r[i] == if s[i] == '\\' then '/' else s[i]
  {
    seq(|s|, i requires 0 <= i < |s| => if s[i] == '\\' then '/' else s[i])
  }

  /** Runs of slashes become one. */
  function Collapse(s: string): string {
    if |s| < 2 then s
    else if s[0] == '/' && s[1] == '/' then Collapse(s[1..])
    else [s[0]] + Collapse(s[1..])
  }

  function SplitSlash(s: string): (parts: seq<string>)
    ensures |parts| >= 1
  {
    if s == "" then [""]
    else if s[0] == '/' then [""] + SplitSlash(s[1..])
    else
      var rest := SplitSlash(s[1..]);
      [[s[0]] + rest[0]] + rest[1..]
  }

  function JoinSlash(parts: seq<string>): string {
    if |parts| == 0 then "" else if |parts| == 1 then parts[0] else parts[0] + "/" + JoinSlash(parts[1..])
  }

  predicate IsLetter(c: char) {
    'A' <= c <= 'Z' || 'a' <= c <= 'z'
  }

  // ---------------------------------------------------------------- normalisation

  datatype Root = Drive(letter: char) | Unc | Unix | Relative

  /** The two leading segments of a UNC path, server and share, cannot be climbed out of. */
  function Locked(root: Root): nat {
    if root.Unc? then 2 else 0
  }

  function Resolve1(root: Root, segments: seq<string>, part: string): seq<string> {
    if part == "" || part == "." then segments
    else if part == ".." then
      if |segments| > Locked(root) && segments[|segments| - 1] != ".." then segments[..|segments| - 1]
      else if root.Relative? then segments + [part]
      else segments
    else segments + [part]
  }

  function Resolve(root: Root, segments: seq<string>, parts: seq<string>): seq<string>
    decreases |parts|
  {
    if parts == [] then segments else Resolve(root, Resolve1(root, segments, parts[0]), parts[1..])
  }

  function Slashed(path: string): string {
    var s := Collapse(Forward(path));
    if (StartsWith(path, "\\\\") || StartsWith(path, "//")) && !StartsWith(s, "//") then "/" + s else s
  }

  function RootOf(s: string): Root {
    if |s| >= 2 && IsLetter(s[0]) && s[1] == ':' && (|s| == 2 || s[2] == '/') then Drive(s[0])
    else if StartsWith(s, "//") then Unc
    else if StartsWith(s, "/") then Unix
    else Relative
  }

  function AfterRoot(s: string): string {
    match RootOf(s)
    case Drive(_) => if |s| == 2 then "" else s[3..]
    case Unc => s[2..]
    case Unix => s[1..]
    case Relative => s
  }

  function Segments(path: string): seq<string> {
    var s := Slashed(path);
    Resolve(RootOf(s), [], SplitSlash(AfterRoot(s)))
  }

  function Print(root: Root, segments: seq<string>): string {
    match root
    case Unc => "//" + JoinSlash(segments)
    case Unix => "/" + JoinSlash(segments)
    case Drive(letter) => [letter, ':'] + if |segments| > 0 then "/" + JoinSlash(segments) else ""
    case Relative => JoinSlash(segments)
  }

  function Normalize(path: string): string {
    var root := RootOf(Slashed(path));
    var printed := Print(root, Segments(path));
    if root.Drive? || root.Unc? then LowerAll(printed) else printed
  }

  /** The loop over the segments. */
  method NormalizePath(path: string) returns (normalized: string)
    ensures normalized == Normalize(path)
  {
    var s := Slashed(path);
    var root := RootOf(s);
    var parts := SplitSlash(AfterRoot(s));
    var segments: seq<string> := [];
    var k := 0;
    while k < |parts|
      invariant 0 <= k <= |parts|
      invariant Resolve(root, segments, parts[k..]) == Segments(path)
    {
      var part := parts[k];
      assert parts[k..][1..] == parts[k + 1..];
      k := k + 1;
      if part == "" || part == "." {
        continue;
      }
      if part == ".." {
        if |segments| > Locked(root) && segments[|segments| - 1] != ".." {
          segments := segments[..|segments| - 1];
        } else if root == Relative {
          segments := segments + [part];
        }
        continue;
      }
      segments := segments + [part];
    }
    normalized := Print(root, segments);
    if root.Drive? || root == Unc {
      normalized := LowerAll(normalized);
    }
  }

  // ---------------------------------------------------------------- the deletion test

  predicate IsPathDeleted(documentId: string, deletedPath: string, isDirectory: bool) {
    var d, p := Normalize(documentId), Normalize(deletedPath);
    if p == "" then false
    else if d == p then true
    else if !isDirectory then false
    else if p == "/" then StartsWith(d, "/")
    else StartsWith(d, p + "/")
  }

  lemma PrefixTransitive(a: string, b: string, c: string)
    requires StartsWith(a, b) && StartsWith(b, c)
    ensures StartsWith(a, c)
  {
    assert a[..|c|] == a[..|b|][..|c|];
  }

  /** Lying under a directory is transitive, for any three paths. */
  lemma ContainmentTransitive(a: string, b: string, c: string)
    requires IsPathDeleted(a, b, true) && IsPathDeleted(b, c, true)
    ensures IsPathDeleted(a, c, true)
  {
    var x, y, z := Normalize(a), Normalize(b), Normalize(c);
    if x != y && y != z {
      assert StartsWith(x, y) by {
        if y != "/" {
          assert y == (y + "/")[..|y|];
          PrefixTransitive(x, y + "/", y);
        }
      }
      if z == "/" {
        PrefixTransitive(x, y, "/");
      } else {
        PrefixTransitive(x, y, z + "/");
      }
    }
  }

  // ---------------------------------------------------------------- clean segments

  predicate CleanSegment(s: string) {
    s != "" && s != "." && s != ".." && forall i :: 0 <= i < |s| ==> s[i] != '/' && s[i] != '\\'
  }

  predicate Clean(segments: seq<string>) {
    forall s :: s in segments ==> CleanSegment(s)
  }

  predicate NoBackslash(s: string) {
    forall i :: 0 <= i < |s| ==> s[i] != '\\'
  }

  predicate NoSlashes(s: string) {
    forall i :: 0 <= i < |s| ==> s[i] != '/' && s[i] != '\\'
  }

  lemma {:induction false} CollapseNoBackslash(s: string)
    requires NoBackslash(s)
    ensures NoBackslash(Collapse(s))
    decreases |s|
  {
    if |s| >= 2 {
      CollapseNoBackslash(s[1..]);
    }
  }

  lemma {:induction false} SplitSlashParts(s: string)
    requires NoBackslash(s)
    ensures forall p :: p in SplitSlash(s) ==> NoSlashes(p)
    decreases |s|
  {
    if s != "" {
      SplitSlashParts(s[1..]);
      var rest := SplitSlash(s[1..]);
      assert rest[0] in rest;
    }
  }

  lemma {:induction false} ResolveClean(root: Root, segments: seq<string>, parts: seq<string>)
    requires !root.Relative? && Clean(segments)
    requires forall p :: p in parts ==> NoSlashes(p)
    ensures Clean(Resolve(root, segments, parts))
    decreases |parts|
  {
    if parts != [] {
      assert parts[0] in parts;
      ResolveClean(root, Resolve1(root, segments, parts[0]), parts[1..]);
    }
  }

  /** A path with a root keeps no empty, `.` or `..` segment. */
  lemma SegmentsClean(path: string)
    requires !RootOf(Slashed(path)).Relative?
    ensures Clean(Segments(path))
  {
    CollapseNoBackslash(Forward(path));
    SplitSlashParts(AfterRoot(Slashed(path)));
    ResolveClean(RootOf(Slashed(path)), [], SplitSlash(AfterRoot(Slashed(path))));
  }

  lemma {:induction false} ResolveOfClean(root: Root, segments: seq<string>, parts: seq<string>)
    requires Clean(parts)
    ensures Resolve(root, segments, parts) == segments + parts
    decreases |parts|
  {
    if parts != [] {
      assert parts[0] in parts;
      ResolveOfClean(root, segments + [parts[0]], parts[1..]);
      assert segments + [parts[0]] + parts[1..] == segments + parts;
    }
  }

  // ---------------------------------------------------------------- printing and reading back

  lemma {:induction false} SplitOnePart(p: string, rest: string)
    requires NoSlashes(p)
    ensures SplitSlash(p + "/" + rest) == [p] + SplitSlash(rest)
    ensures SplitSlash(p) == [p]
    decreases |p|
  {
    if p == "" {
      assert p + "/" + rest == "/" + rest;
    } else {
      SplitOnePart(p[1..], rest);
      assert (p + "/" + rest)[1..] == p[1..] + "/" + rest;
      assert p == [p[0]] + p[1..];
    }
  }

  /** A segment that survives printing and splitting. */
  predicate Solid(s: string) {
    s != "" && NoSlashes(s)
  }

  predicate AllSolid(segments: seq<string>) {
    forall s :: s in segments ==> Solid(s)
  }

  lemma {:induction false} SplitOfJoin(parts: seq<string>)
    requires parts != [] && AllSolid(parts)
    ensures SplitSlash(JoinSlash(parts)) == parts
    decreases |parts|
  {
    assert parts[0] in parts;
    if |parts| > 1 {
      SplitOfJoin(parts[1..]);
      SplitOnePart(parts[0], JoinSlash(parts[1..]));
      assert parts == [parts[0]] + parts[1..];
    } else {
      SplitOnePart(parts[0], "");
    }
  }

  /** No two slashes in a row. */
  predicate Single(s: string) {
    forall i :: 0 <= i < |s| - 1 ==> !(s[i] == '/' && s[i + 1] == '/')
  }

  lemma {:induction false} CollapseSingle(s: string)
    requires Single(s)
    ensures Collapse(s) == s
    decreases |s|
  {
    if |s| >= 2 {
      assert !(s[0] == '/' && s[0 + 1] == '/');
      var tail := s[1..];
      forall i | 0 <= i < |tail| - 1 ensures !(tail[i] == '/' && tail[i + 1] == '/') {
        assert tail[i] == s[i + 1] && tail[i + 1] == s[i + 1 + 1];
      }
      CollapseSingle(tail);
    }
  }

  /** A printed list of solid segments: no backslash, no double slash, no slash at either end. */
  predicate Tidy(s: string) {
    NoBackslash(s) && Single(s) && (s != "" ==> s[0] != '/' && s[|s| - 1] != '/')
  }

  lemma {:induction false} JoinTidy(parts: seq<string>)
    requires AllSolid(parts)
    ensures Tidy(JoinSlash(parts))
    ensures parts != [] ==> JoinSlash(parts) != ""
    decreases |parts|
  {
    if parts != [] {
      assert Solid(parts[0]) by { assert parts[0] in parts; }
      if |parts| > 1 {
        JoinTidy(parts[1..]);
        TidyCons(parts[0], JoinSlash(parts[1..]));
      }
    }
  }

  lemma TidyCons(p: string, s: string)
    requires Solid(p) && Tidy(s) && s != ""
    ensures Tidy(p + "/" + s)
  {
    var r := p + "/" + s;
    forall i | 0 <= i < |r| - 1 ensures !(r[i] == '/' && r[i + 1] == '/') {
      if i > |p| {
        assert r[i] == s[i - |p| - 1] && r[i + 1] == s[i - |p| - 1 + 1];
      }
    }
  }

  lemma ForwardId(s: string)
    requires NoBackslash(s)
    ensures Forward(s) == s
  {
  }

  lemma SingleAfterSlash(s: string)
    requires Single(s) && (s != "" ==> s[0] != '/')
    ensures Single("/" + s)
  {
    var r := "/" + s;
    forall i | 0 <= i < |r| - 1 ensures !(r[i] == '/' && r[i + 1] == '/') {
      if i > 0 {
        assert r[i] == s[i - 1] && r[i + 1] == s[i - 1 + 1];
      }
    }
  }

  predicate GoodRoot(root: Root) {
    !root.Relative? && (root.Drive? ==> IsLetter(root.letter))
  }

  lemma SlashedUnc(s: string)
    requires NoBackslash(s) && Single("/" + s)
    ensures Slashed("//" + s) == "//" + s
  {
    ForwardId("//" + s);
    assert ("//" + s)[1..] == "/" + s;
    CollapseSingle("/" + s);
    assert "/" + ("/" + s) == "//" + s;
  }

  lemma SlashedUnix(s: string)
    requires NoBackslash(s) && Single("/" + s)
    ensures Slashed("/" + s) == "/" + s
  {
    ForwardId("/" + s);
    CollapseSingle("/" + s);
  }

  lemma SlashedPrint(root: Root, s: string)
    requires GoodRoot(root) && Tidy(s)
    ensures root.Unc? ==> Slashed("//" + s) == "//" + s
    ensures root.Unix? ==> Slashed("/" + s) == "/" + s
    ensures root.Drive? ==> Slashed([root.letter, ':']) == [root.letter, ':']
    ensures root.Drive? ==> Slashed([root.letter, ':'] + ("/" + s)) == [root.letter, ':'] + ("/" + s)
  {
    SingleAfterSlash(s);
    match root {
      case Unc => SlashedUnc(s);
      case Unix => SlashedUnix(s);
      case Drive(letter) => SlashedDrive(letter, s);
    }
  }

  lemma SlashedDrive(letter: char, s: string)
    requires IsLetter(letter) && NoBackslash(s) && Single("/" + s)
    ensures Slashed([letter, ':']) == [letter, ':']
    ensures Slashed([letter, ':'] + ("/" + s)) == [letter, ':'] + ("/" + s)
  {
    var bare := [letter, ':'];
    ForwardId(bare);
    CollapseSingle(bare);
    var r := bare + ("/" + s);
    ForwardId(r);
    forall i | 0 <= i < |r| - 1 ensures !(r[i] == '/' && r[i + 1] == '/') {
      if i >= 2 {
        assert r[i] == ("/" + s)[i - 2] && r[i + 1] == ("/" + s)[i - 2 + 1];
      }
    }
    CollapseSingle(r);
  }

  lemma RootOfPrint(root: Root, s: string)
    requires GoodRoot(root) && Tidy(s)
    ensures root.Unc? ==> RootOf("//" + s) == root && AfterRoot("//" + s) == s
    ensures root.Unix? ==> RootOf("/" + s) == root && AfterRoot("/" + s) == s
    ensures root.Drive? ==> RootOf([root.letter, ':']) == root && AfterRoot([root.letter, ':']) == ""
    ensures root.Drive? ==> RootOf([root.letter, ':'] + ("/" + s)) == root && AfterRoot([root.letter, ':'] + ("/" + s)) == s
  {
    assert s != "" ==> ("/" + s)[..2][1] == s[0];
    assert ("//" + s)[..2] == "//";
  }

  /** Reading a printed path back gives the root and the segments it was printed from. */
  lemma ReadBack(root: Root, segments: seq<string>)
    requires GoodRoot(root) && Clean(segments)
    ensures RootOf(Slashed(Print(root, segments))) == root
    ensures Segments(Print(root, segments)) == segments
  {
    var s := JoinSlash(segments);
    JoinTidy(segments);
    SlashedPrint(root, s);
    RootOfPrint(root, s);
    assert root.Drive? && segments == [] ==> Print(root, segments) == [root.letter, ':'] && s == "";
    assert AfterRoot(Slashed(Print(root, segments))) == s;
    if segments == [] {
      assert SplitSlash("") == [""];
      assert Resolve(root, [], [""]) == [];
    } else {
      SplitOfJoin(segments);
      ResolveOfClean(root, [], segments);
      assert [] + segments == segments;
    }
  }

  // ---------------------------------------------------------------- lower case

  function LowerSegments(segments: seq<string>): (r: seq<string>)
    ensures |r| == |segments|
    ensures forall i :: 0 <= i < |segments| ==> r[i] == LowerAll(segments[i])
  {
    seq(|segments|, i requires 0 <= i < |segments| => LowerAll(segments[i]))
  }

  lemma LowerConcat(a: string, b: string)
    ensures LowerAll(a + b) == LowerAll(a) + LowerAll(b)
  {
  }

  lemma {:induction false} LowerJoin(segments: seq<string>)
    ensures LowerAll(JoinSlash(segments)) == JoinSlash(LowerSegments(segments))
    decreases |segments|
  {
    if |segments| > 1 {
      LowerJoin(segments[1..]);
      LowerConcat(segments[0], "/");
      LowerConcat(segments[0] + "/", JoinSlash(segments[1..]));
      assert LowerSegments(segments)[1..] == LowerSegments(segments[1..]);
      assert LowerAll("/") == "/";
    }
  }

  lemma LowerKeepsDots(s: string)
    ensures LowerAll(s) == "." ==> s == "."
    ensures LowerAll(s) == ".." ==> s == ".."
  {
    if |s| == 1 {
      assert LowerAll(s)[0] == Lower(s[0]);
    } else if |s| == 2 {
      assert LowerAll(s)[0] == Lower(s[0]) && LowerAll(s)[1] == Lower(s[1]);
    }
  }

  lemma LowerClean(segments: seq<string>)
    requires Clean(segments)
    ensures Clean(LowerSegments(segments))
    ensures LowerSegments(LowerSegments(segments)) == LowerSegments(segments)
  {
    forall i | 0 <= i < |segments| ensures CleanSegment(LowerSegments(segments)[i]) && LowerAll(LowerAll(segments[i])) == LowerAll(segments[i]) {
      var s := segments[i];
      assert s in segments;
      var l := LowerAll(s);
      LowerKeepsDots(s);
    }
  }

  /** The root and segments a normalised path is the print of. */
  function CanonRoot(path: string): Root {
    match RootOf(Slashed(path))
    case Drive(c) => Drive(Lower(c))
    case r => r
  }

  function CanonSegments(path: string): seq<string> {
    var root := RootOf(Slashed(path));
    if root.Drive? || root.Unc? then LowerSegments(Segments(path)) else Segments(path)
  }

  lemma LowerPrint(root: Root, segments: seq<string>)
    requires root.Unc? || root.Drive?
    ensures LowerAll(Print(root, segments)) ==
            Print(if root.Drive? then Drive(Lower(root.letter)) else root, LowerSegments(segments))
  {
    var s := JoinSlash(segments);
    LowerJoin(segments);
    assert LowerAll("/") == "/" && LowerAll("//") == "//";
    match root
    case Unc => LowerConcat("//", s);
    case Drive(letter) =>
      assert LowerAll([letter, ':']) == [Lower(letter), ':'];
      LowerConcat([letter, ':'], if |segments| > 0 then "/" + s else "");
      LowerConcat("/", s);
  }

  lemma NormalizePrints(path: string)
    requires !RootOf(Slashed(path)).Relative?
    ensures GoodRoot(CanonRoot(path)) && Clean(CanonSegments(path))
    ensures Normalize(path) == Print(CanonRoot(path), CanonSegments(path))
  {
    var root := RootOf(Slashed(path));
    SegmentsClean(path);
    LowerClean(Segments(path));
    if root.Unc? || root.Drive? {
      LowerPrint(root, Segments(path));
    }
  }

  /** Main result: on drive, UNC and Unix-absolute paths normalising twice is normalising once, and the
      result has the same root and only clean segments. */
  lemma NormalizeIdempotent(path: string)
    requires !RootOf(Slashed(path)).Relative?
    ensures Normalize(Normalize(path)) == Normalize(path)
    ensures Segments(Normalize(path)) == CanonSegments(path) && Clean(CanonSegments(path))
  {
    NormalizePrints(path);
    ReadBack(CanonRoot(path), CanonSegments(path));
    NormalizePrints(Normalize(path));
    if CanonRoot(path).Drive? || CanonRoot(path).Unc? {
      SegmentsClean(path);
      LowerClean(Segments(path));
    }
  }

  // ---------------------------------------------------------------- prefix of text, prefix of segments

  predicate SegmentPrefix(a: seq<string>, b: seq<string>) {
    |a| <= |b| && b[..|a|] == a
  }

  lemma {:induction false} JoinAppend(a: seq<string>, b: seq<string>)
    requires a != [] && b != []
    ensures JoinSlash(a + b) == JoinSlash(a) + "/" + JoinSlash(b)
    decreases |a|
  {
    if |a| == 1 {
      assert (a + b)[1..] == b;
    } else {
      JoinAppend(a[1..], b);
      assert (a + b)[1..] == a[1..] + b;
      assert a[0] + "/" + (JoinSlash(a[1..]) + "/" + JoinSlash(b)) == (a[0] + "/" + JoinSlash(a[1..])) + "/" + JoinSlash(b);
    }
  }

  /** Among printed segment lists, extending the text by a slash and more means extending the list. */
  lemma TextPrefixIsSegmentPrefix(a: seq<string>, b: seq<string>)
    requires Clean(a) && Clean(b) && a != []
    ensures (JoinSlash(a) == JoinSlash(b) || StartsWith(JoinSlash(b), JoinSlash(a) + "/")) <==> SegmentPrefix(a, b)
  {
    if SegmentPrefix(a, b) {
      if |b| > |a| {
        JoinAppend(a, b[|a|..]);
        assert a + b[|a|..] == b;
      }
    }
    if StartsWith(JoinSlash(b), JoinSlash(a) + "/") {
      var rest := JoinSlash(b)[|JoinSlash(a)| + 1..];
      assert JoinSlash(b) == JoinSlash(a) + "/" + rest;
      SplitJoined(a, rest);
      SplitOfJoin(b);
    }
    if JoinSlash(a) == JoinSlash(b) {
      JoinTidy(a);
      SplitOfJoin(a);
      SplitOfJoin(b);
    }
  }

  lemma {:induction false} SplitJoined(a: seq<string>, rest: string)
    requires Clean(a) && a != []
    ensures SplitSlash(JoinSlash(a) + "/" + rest) == a + SplitSlash(rest)
    decreases |a|
  {
    assert a[0] in a;
    if |a| == 1 {
      SplitOnePart(a[0], rest);
    } else {
      SplitJoined(a[1..], rest);
      assert JoinSlash(a) + "/" + rest == a[0] + "/" + (JoinSlash(a[1..]) + "/" + rest);
      SplitOnePart(a[0], JoinSlash(a[1..]) + "/" + rest);
      assert a == [a[0]] + a[1..];
    }
  }

  /** Main result: for documents and deleted paths with a root, the deletion test is "same root and the
      deleted segments begin the document's segments". The one root it misses is a bare UNC root, which
      only matches itself; the one it overshoots is the Unix root, which also takes in every UNC path. */
  lemma DeletedMeansSegmentPrefix(documentId: string, deletedPath: string)
    requires !RootOf(Slashed(documentId)).Relative? && !RootOf(Slashed(deletedPath)).Relative?
    ensures var (r, d, q, p) := (CanonRoot(documentId), CanonSegments(documentId), CanonRoot(deletedPath), CanonSegments(deletedPath));
            IsPathDeleted(documentId, deletedPath, true) <==>
            if q.Unc? && p == [] then r.Unc? && d == []
            else if q.Unix? && p == [] then r.Unix? || r.Unc?
            else r == q && SegmentPrefix(p, d)
  {
    NormalizePrints(documentId);
    NormalizePrints(deletedPath);
    var r, d, q, p := CanonRoot(documentId), CanonSegments(documentId), CanonRoot(deletedPath), CanonSegments(deletedPath);
    JoinTidy(d);
    JoinTidy(p);
    if p != [] {
      TextPrefixIsSegmentPrefix(p, d);
      SameRootTest(r, d, q, p);
    } else {
      EmptyPathTest(r, d, q);
      assert q.Drive? ==> Print(q, p) + "/" == [q.letter, ':', '/'];
      assert q.Unc? ==> Print(q, p) == "//" && "//" + "/" == "///";
    }
  }

  lemma EmptyPathTest(r: Root, d: seq<string>, q: Root)
    requires GoodRoot(r) && GoodRoot(q) && Tidy(JoinSlash(d)) && (d != [] ==> JoinSlash(d) != "")
    ensures q.Unc? ==> ((Print(r, d) == "//" || StartsWith(Print(r, d), "///")) <==> r.Unc? && d == [])
    ensures q.Unix? ==> ((Print(r, d) == "/" || StartsWith(Print(r, d), "/")) <==> r.Unix? || r.Unc?)
    ensures q.Drive? ==> ((Print(r, d) == [q.letter, ':'] || StartsWith(Print(r, d), [q.letter, ':', '/'])) <==> r == q)
  {
    var x, s := Print(r, d), JoinSlash(d);
    if |x| >= 3 {
      assert x[..3][0] == x[0] && x[..3][1] == x[1] && x[..3][2] == x[2];
      assert x[..3] == [x[0], x[1], x[2]];
    }
    assert x != "" ==> x[..1] == [x[0]];
    match r {
      case Unc => assert x[0] == '/' && x[1] == '/' && (s != "" ==> x[2] == s[0]);
      case Unix => assert x[0] == '/' && (s != "" ==> x[1] == s[0]);
      case Drive(letter) => assert x[0] == letter && x[1] == ':' && (d != [] ==> x[2] == '/');
    }
  }

  function RootText(root: Root): string {
    match root
    case Unc => "//"
    case Unix => "/"
    case Drive(letter) => [letter, ':', '/']
    case Relative => ""
  }

  /** The first characters of a printed path give its root away. */
  lemma SameRoot(r: Root, d: seq<string>, q: Root, p: seq<string>)
    requires GoodRoot(r) && GoodRoot(q) && p != [] && JoinSlash(p) != ""
    requires Tidy(JoinSlash(d)) && Tidy(JoinSlash(p)) && (d != [] ==> JoinSlash(d) != "")
    requires StartsWith(Print(r, d), Print(q, p))
    ensures r == q && d != []
  {
    var x, y := Print(r, d), Print(q, p);
    assert y == RootText(q) + JoinSlash(p);
    assert x[..|y|][0] == x[0] && x[..|y|][1] == x[1];
    assert r.Unc? && d != [] ==> x[2] == JoinSlash(d)[0];
  }

  lemma SameRootTest(r: Root, d: seq<string>, q: Root, p: seq<string>)
    requires GoodRoot(r) && GoodRoot(q) && p != [] && JoinSlash(p) != ""
    requires Tidy(JoinSlash(d)) && Tidy(JoinSlash(p)) && (d != [] ==> JoinSlash(d) != "")
    ensures Print(q, p) != "/"
    ensures (Print(r, d) == Print(q, p) || StartsWith(Print(r, d), Print(q, p) + "/")) <==>
            r == q && (JoinSlash(p) == JoinSlash(d) || StartsWith(JoinSlash(d), JoinSlash(p) + "/"))
  {
    var x, y, t := Print(r, d), Print(q, p), RootText(q);
    assert y == t + JoinSlash(p) && y + "/" == t + (JoinSlash(p) + "/");
    if StartsWith(x, y + "/") {
      PrefixTransitive(x, y + "/", y);
    }
    if StartsWith(x, y) {
      SameRoot(r, d, q, p);
    }
    if r == q && d != [] {
      assert x == t + JoinSlash(d);
      CommonPrefix(t, JoinSlash(d), JoinSlash(p) + "/");
      assert x[|t|..] == JoinSlash(d) && y[|t|..] == JoinSlash(p);
    }
  }

  lemma CommonPrefix(t: string, a: string, b: string)
    ensures StartsWith(t + a, t + b) <==> StartsWith(a, b)
  {
    if StartsWith(t + a, t + b) {
      assert a[..|b|] == (t + a)[..|t + b|][|t|..] == (t + b)[|t|..] == b;
    }
    if StartsWith(a, b) {
      assert (t + a)[..|t + b|] == t + a[..|b|];
    }
  }
}

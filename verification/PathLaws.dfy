/** How normalizing a path goes with writing one: what a segment, a dot, a double dot or a slash behind a path does to its
normal form. Together with the roots alone these laws determine the normal form of every path. */
module PathLaws {
  import opened Paths
  import opened RelativePaths

  // ---------------------------------------------------------------- the parts of a path

  function NonEmpty(parts: seq<string>): seq<string> {
    if parts == [] then [] else (if parts[0] == "" then [] else [parts[0]]) + NonEmpty(parts[1..])
  }

  /** What stands between slashes of either kind. */
  function Parts(path: string): seq<string> {
    NonEmpty(SplitSlash(Forward(path)))
  }

  lemma {:induction false} NonEmptyAppend(a: seq<string>, b: seq<string>)
    ensures NonEmpty(a + b) == NonEmpty(a) + NonEmpty(b)
    decreases |a|
  {
    if a == [] {
      assert a + b == b;
    } else {
      assert (a + b)[1..] == a[1..] + b;
      NonEmptyAppend(a[1..], b);
      var head: seq<string> := if a[0] == "" then [] else [a[0]];
      assert head + (NonEmpty(a[1..]) + NonEmpty(b)) == (head + NonEmpty(a[1..])) + NonEmpty(b);
    }
  }

  lemma SplitCons(c: char, s: string)
    ensures c == '/' ==> SplitSlash([c] + s) == [""] + SplitSlash(s)
    ensures c != '/' ==> SplitSlash([c] + s) == [[c] + SplitSlash(s)[0]] + SplitSlash(s)[1..]
  {
    assert ([c] + s)[1..] == s;
  }

  lemma {:induction false} SplitAppend(a: string, b: string)
    ensures SplitSlash(a + "/" + b) == SplitSlash(a) + SplitSlash(b)
    decreases |a|
  {
    hide SplitSlash;
    if a == "" {
      assert a + "/" + b == ['/'] + b && SplitSlash("") == [""] by { NothingSplit(); }
      SplitCons('/', b);
    } else {
      var c, tail := a[0], a[1..];
      assert a + "/" + b == [c] + (tail + "/" + b) && a == [c] + tail;
      SplitAppend(tail, b);
      SplitCons(c, tail);
      SplitCons(c, tail + "/" + b);
      HeadGrows(c, SplitSlash(tail), SplitSlash(b));
    }
  }

  lemma NothingSplit()
    ensures SplitSlash("") == [""]
  {
  }

  lemma HeadGrows(c: char, t: seq<string>, u: seq<string>)
    requires t != []
    ensures [""] + (t + u) == ([""] + t) + u
    ensures [[c] + (t + u)[0]] + (t + u)[1..] == ([[c] + t[0]] + t[1..]) + u
  {
  }

  lemma EmptyHead(parts: seq<string>)
    ensures NonEmpty([""] + parts) == NonEmpty(parts)
    ensures parts != [] && parts[0] == "" ==> NonEmpty(parts) == NonEmpty(parts[1..])
  {
    assert ([""] + parts)[1..] == parts;
  }

  /** The same first part, and the same others but for empty ones. */
  predicate PartsAgree(s: string, t: string) {
    && NonEmpty(SplitSlash(s)) == NonEmpty(SplitSlash(t))
    && SplitSlash(s)[0] == SplitSlash(t)[0]
    && NonEmpty(SplitSlash(s)[1..]) == NonEmpty(SplitSlash(t)[1..])
  }

  lemma PartsAgreeCons(c: char, s: string, t: string)
    requires PartsAgree(s, t)
    ensures PartsAgree([c] + s, [c] + t)
  {
    SplitCons(c, s);
    SplitCons(c, t);
    var a, b := SplitSlash(s), SplitSlash(t);
    EmptyHead(a);
    EmptyHead(b);
    assert ([""] + a)[1..] == a && ([""] + b)[1..] == b;
    assert ([[c] + a[0]] + a[1..])[1..] == a[1..] && ([[c] + b[0]] + b[1..])[1..] == b[1..];
  }

  /** Collapsing runs of slashes loses empty parts only. */
  lemma {:induction false} CollapseKeepsParts(s: string)
    ensures PartsAgree(Collapse(s), s)
    decreases |s|
  {
    if |s| >= 2 {
      hide PartsAgree, NonEmpty, SplitSlash;
      var tail := s[1..];
      assert s == [s[0]] + tail;
      CollapseKeepsParts(tail);
      if s[0] == '/' && s[1] == '/' {
        DoubleSlash(Collapse(tail), tail);
      } else {
        PartsAgreeCons(s[0], Collapse(tail), tail);
      }
    } else {
      assert PartsAgree(s, s);
    }
  }

  lemma DoubleSlash(c: string, tail: string)
    requires PartsAgree(c, tail) && tail != "" && tail[0] == '/'
    ensures PartsAgree(c, ['/'] + tail)
  {
    SplitCons('/', tail);
    SplitCons('/', tail[1..]);
    assert tail == ['/'] + tail[1..];
    var a, b := SplitSlash(c), SplitSlash(tail);
    EmptyHead(b);
    EmptyHead(a);
    assert ([""] + b)[1..] == b;
  }

  /** Collapsing keeps the first character. */
  lemma {:induction false} CollapseHead(s: string)
    ensures s != "" ==> Collapse(s) != "" && Collapse(s)[0] == s[0]
    ensures s == "" ==> Collapse(s) == ""
    decreases |s|
  {
    if |s| >= 2 {
      CollapseHead(s[1..]);
    }
  }

  /** Empty parts resolve to nothing. */
  lemma {:induction false} ResolveNonEmpty(root: Root, segments: seq<string>, parts: seq<string>)
    ensures Resolve(root, segments, NonEmpty(parts)) == Resolve(root, segments, parts)
    decreases |parts|
  {
    if parts != [] {
      ResolveNonEmpty(root, Resolve1(root, segments, parts[0]), parts[1..]);
      var rest := NonEmpty(parts[1..]);
      if parts[0] == "" { assert [] + rest == rest; } else { assert ([parts[0]] + rest)[1..] == rest; }
    }
  }

  lemma {:induction false} ResolveAppend(root: Root, segments: seq<string>, a: seq<string>, b: seq<string>)
    ensures Resolve(root, segments, a + b) == Resolve(root, Resolve(root, segments, a), b)
    decreases |a|
  {
    if a == [] {
      assert a + b == b;
    } else {
      assert (a + b)[1..] == a[1..] + b;
      ResolveAppend(root, Resolve1(root, segments, a[0]), a[1..], b);
    }
  }

  // ---------------------------------------------------------------- root and segments of a longer path

  /** Neither empty nor a single slash: what is written behind such a path leaves its root alone. */
  predicate Extensible(path: string) {
    path != "" && path != "/"
  }

  function Body(root: Root, parts: seq<string>): seq<string> {
    if root.Drive? && parts != [] then parts[1..] else parts
  }

  lemma SlashedKeepsParts(path: string)
    ensures NonEmpty(SplitSlash(Slashed(path))) == Parts(path)
  {
    var s := Collapse(Forward(path));
    CollapseKeepsParts(Forward(path));
    if Slashed(path) != s {
      assert Slashed(path) == ['/'] + s;
      SplitCons('/', s);
      EmptyHead(SplitSlash(s));
    }
  }

  /** The segments are the parts, without the drive, resolved one by one. */
  lemma SegmentsAreParts(path: string)
    ensures Segments(path) == Resolve(RootOf(Slashed(path)), [], Body(RootOf(Slashed(path)), Parts(path)))
    ensures RootOf(Slashed(path)).Drive? ==> Parts(path) != []
  {
    var s := Slashed(path);
    var root, after := RootOf(s), SplitSlash(AfterRoot(s));
    SlashedKeepsParts(path);
    ResolveNonEmpty(root, [], after);
    match root {
      case Drive(letter) =>
        SplitOnePart(s[..2], AfterRoot(s));
        if |s| > 2 {
          assert s == s[..2] + "/" + AfterRoot(s);
          assert NonEmpty([s[..2]] + after) == [s[..2]] + NonEmpty(after) by { assert ([s[..2]] + after)[1..] == after; }
        } else {
          assert s == s[..2] && after == [""];
          assert NonEmpty([s[..2]]) == [s[..2]] by { assert [s[..2]][1..] == []; }
          assert NonEmpty(after) == [] by { assert [""][1..] == []; }
        }
      case Unc =>
        assert s == ['/'] + (['/'] + AfterRoot(s));
        SplitCons('/', ['/'] + AfterRoot(s));
        SplitCons('/', AfterRoot(s));
        EmptyHead(SplitSlash(['/'] + AfterRoot(s)));
        EmptyHead(after);
      case Unix =>
        assert s == ['/'] + AfterRoot(s);
        SplitCons('/', AfterRoot(s));
        EmptyHead(after);
      case Relative =>
    }
  }

  /** A collapsed text never starts with two slashes. */
  lemma {:induction false} NoDouble(s: string)
    ensures |Collapse(s)| >= 2 ==> !(Collapse(s)[0] == '/' && Collapse(s)[1] == '/')
    decreases |s|
  {
    if |s| >= 2 {
      NoDouble(s[1..]);
      CollapseHead(s[1..]);
    }
  }

  /** Collapsing a longer text: the shorter one, a slash unless it ends with one, and more. */
  lemma {:induction false} CollapseLonger(s: string, t: string)
    requires s != ""
    ensures var c, d := Collapse(s), Collapse(s + "/" + t);
            && c != "" && |d| >= |c| && d[..|c|] == c
            && (c[|c| - 1] != '/' ==> |d| > |c| && d[|c|] == '/')
    decreases |s|
  {
    var long := s + "/" + t;
    if |s| == 1 {
      assert long == [s[0]] + ("/" + t) && long[1..] == "/" + t;
      CollapseHead("/" + t);
      if s[0] == '/' {
        assert Collapse(long) == Collapse("/" + t);
      }
    } else {
      assert long[1..] == s[1..] + "/" + t && long[0] == s[0] && long[1] == s[1];
      CollapseLonger(s[1..], t);
      CollapseHead(s[1..]);
    }
  }

  predicate WithUncPrefix(path: string) {
    StartsWith(path, "\\\\") || StartsWith(path, "//")
  }

  predicate StartsSingle(s: string) {
    |s| >= 2 ==> !(s[0] == '/' && s[1] == '/')
  }

  lemma RootOfLonger(c: string, d: string)
    requires c != "" && |d| >= |c| && d[..|c|] == c && (c[|c| - 1] != '/' ==> |d| > |c| && d[|c|] == '/')
    requires StartsSingle(c) && StartsSingle(d)
    ensures RootOf(d) == RootOf(c)
    ensures c[0] == '/' ==> RootOf("/" + c) == Unc && RootOf("/" + d) == Unc
  {
    assert forall i :: 0 <= i < |c| ==> d[i] == c[i];
    if c[0] == '/' {
      assert ("/" + c)[..2] == "//" && ("/" + d)[..2] == "//";
    }
  }

  /** Writing more behind a path leaves its root as it is. */
  lemma RootStays(path: string, more: string)
    requires Extensible(path)
    ensures RootOf(Slashed(path + "/" + more)) == RootOf(Slashed(path))
  {
    hide RootOf, Collapse;
    var long := path + "/" + more;
    ForwardAppend(path, more);
    var c, d := Collapse(Forward(path)), Collapse(Forward(long));
    CollapseLonger(Forward(path), Forward(more));
    NoDouble(Forward(path));
    NoDouble(Forward(long));
    CollapseHead(Forward(path));
    RootOfLonger(c, d);
    PrefixStays(path, more);
  }

  lemma PrefixStays(path: string, more: string)
    requires Extensible(path)
    ensures WithUncPrefix(path + "/" + more) <==> WithUncPrefix(path)
  {
    var long := path + "/" + more;
    assert |path| >= 2 ==> path[..2] == long[..2];
    if |path| == 1 {
      assert long[..2] == [path[0], '/'] && path == [path[0]];
      assert ['\\', '/'][1] != "\\\\"[1];
    }
  }

  lemma ForwardAppend(a: string, b: string)
    ensures Forward(a + "/" + b) == Forward(a) + "/" + Forward(b)
  {
  }

  lemma PartsAppend(path: string, more: string)
    ensures Parts(path + "/" + more) == Parts(path) + Parts(more)
  {
    ForwardAppend(path, more);
    SplitAppend(Forward(path), Forward(more));
    NonEmptyAppend(SplitSlash(Forward(path)), SplitSlash(Forward(more)));
  }

  /** Main step: the parts written behind a path are resolved on top of its segments. */
  lemma SegmentsAppend(path: string, more: string)
    requires Extensible(path)
    ensures RootOf(Slashed(path + "/" + more)) == RootOf(Slashed(path))
    ensures Segments(path + "/" + more) == Resolve(RootOf(Slashed(path)), Segments(path), Parts(more))
  {
    hide Parts, Segments, Resolve, Slashed, RootOf;
    var root := RootOf(Slashed(path));
    RootStays(path, more);
    SegmentsAreParts(path);
    SegmentsAreParts(path + "/" + more);
    PartsAppend(path, more);
    ResolveAppend(root, [], Body(root, Parts(path)), Parts(more));
    assert Body(root, Parts(path) + Parts(more)) == Body(root, Parts(path)) + Parts(more);
  }

  lemma PartsOfOne(s: string)
    requires NoSlashes(s)
    ensures Parts(s) == if s == "" then [] else [s]
  {
    ForwardId(s);
    SplitOnePart(s, "");
    assert [s][1..] == [] && NonEmpty([]) == [];
  }

  lemma ResolveOne(root: Root, segments: seq<string>, part: string)
    ensures Resolve(root, segments, [part]) == Resolve1(root, segments, part)
  {
    assert [part][1..] == [];
  }

  /** One part behind a path. */
  lemma OneMore(path: string, part: string)
    requires Extensible(path) && NoSlashes(part)
    ensures RootOf(Slashed(path + "/" + part)) == RootOf(Slashed(path))
    ensures Segments(path + "/" + part) == Resolve1(RootOf(Slashed(path)), Segments(path), part)
  {
    hide Parts, Segments, Resolve1, Slashed, RootOf;
    SegmentsAppend(path, part);
    PartsOfOne(part);
    if part == "" {
      assert Resolve1(RootOf(Slashed(path)), Segments(path), "") == Segments(path) by { EmptyPart(RootOf(Slashed(path)), Segments(path)); }
    } else {
      ResolveOne(RootOf(Slashed(path)), Segments(path), part);
    }
  }

  lemma EmptyPart(root: Root, segments: seq<string>)
    ensures Resolve1(root, segments, "") == segments && Resolve(root, segments, []) == segments
  {
  }

  // ---------------------------------------------------------------- the laws

  lemma SameNormal(p: string, q: string)
    requires RootOf(Slashed(p)) == RootOf(Slashed(q)) && Segments(p) == Segments(q)
    ensures Normalize(p) == Normalize(q)
  {
  }

  lemma UncRoot(path: string)
    ensures RootOf(Slashed(path)).Unc? <==> WithUncPrefix(path)
  {
    NoDouble(Forward(path));
    CollapseHead(Forward(path));
  }

  /** A slash or a dot at the end changes nothing. */
  lemma DotStays(path: string)
    requires Extensible(path)
    ensures Normalize(path + "/") == Normalize(path) && Normalize(path + "/.") == Normalize(path)
  {
    hide Segments, Slashed, RootOf;
    assert path + "/" + "" == path + "/" && path + "/" + "." == path + "/.";
    OneMore(path, "");
    OneMore(path, ".");
    SameNormal(path + "/", path);
    SameNormal(path + "/.", path);
  }

  lemma SegmentIsPart(s: string)
    requires CleanSegment(s)
    ensures NoSlashes(s) && forall root, segments :: Resolve1(root, segments, s) == segments + [s]
  {
  }

  /** Main result: `..` takes back the segment before it. Only the two names of a UNC path cannot be taken back. */
  lemma DotDotTakesBack(path: string, s: string)
    requires Extensible(path) && CleanSegment(s)
    requires WithUncPrefix(path) ==> |Segments(path)| >= 2
    ensures Normalize(path + "/" + s + "/..") == Normalize(path)
  {
    hide Segments, Slashed, RootOf, Normalize;
    SegmentIsPart(s);
    OneMore(path, s);
    OneMore(path + "/" + s, "..");
    assert path + "/" + s + "/" + ".." == path + "/" + s + "/..";
    UncRoot(path);
    assert (Segments(path) + [s])[..|Segments(path)|] == Segments(path);
    SameNormal(path + "/" + s + "/..", path);
  }

  /** A UNC path that names server and share, with anything behind, has both among its segments for good. */
  lemma {:induction false} LockedStay(segments: seq<string>, parts: seq<string>)
    requires |segments| >= 2
    ensures |Resolve(Unc, segments, parts)| >= 2 && Resolve(Unc, segments, parts)[..2] == segments[..2]
    decreases |parts|
  {
    if parts != [] {
      LockedStay(Resolve1(Unc, segments, parts[0]), parts[1..]);
    }
  }

  lemma ServerAlone(server: string)
    requires CleanSegment(server)
    ensures var p := "//" + server; Extensible(p) && WithUncPrefix(p) && RootOf(Slashed(p)) == Unc && Segments(p) == [server]
  {
    var head := "//" + server;
    UncRoot(head);
    hide Slashed, RootOf, Segments, SplitSlash, Forward;
    SegmentsAreParts(head);
    assert head == "/" + "/" + server;
    PartsAppend("/", server);
    PartsOfOne(server);
    PartsOfSlash();
    SegmentIsPart(server);
    ResolveOne(Unc, [], server);
    assert [] + [server] == [server];
  }

  lemma PartsOfSlash()
    ensures Parts("/") == []
  {
    assert Forward("/") == "/" && "/"[1..] == "" && SplitSlash("/") == [""] + [""];
    EmptyHead([""]);
    EmptyHead([]);
    assert [""] + [] == [""];
  }

  lemma ServerAndShare(server: string, share: string)
    requires CleanSegment(server) && CleanSegment(share)
    ensures var p := "//" + server + "/" + share;
            Extensible(p) && WithUncPrefix(p) && RootOf(Slashed(p)) == Unc && Segments(p) == [server, share]
    ensures Extensible("//" + server) && Segments("//" + server) == [server] && RootOf(Slashed("//" + server)) == Unc
  {
    hide Slashed, RootOf, Segments;
    var head := "//" + server;
    ServerAlone(server);
    SegmentIsPart(share);
    OneMore(head, share);
    assert [server] + [share] == [server, share];
    assert (head + "/" + share)[..2] == "//";
  }

  /** Main result: directly behind server and share `..` changes nothing, nor behind the server alone; with anything behind
      them it takes the last segment back. */
  lemma UncDotDot(server: string, share: string, more: string, s: string)
    requires CleanSegment(server) && CleanSegment(share) && CleanSegment(s)
    ensures var p := "//" + server + "/" + share;
            && Normalize(p + "/..") == Normalize(p)
            && Normalize("//" + server + "/..") == Normalize("//" + server)
            && Normalize(p + "/" + more + "/" + s + "/..") == Normalize(p + "/" + more)
  {
    hide Segments, Slashed, RootOf, Normalize, Parts;
    var p := "//" + server + "/" + share;
    ServerAndShare(server, share);
    OneMore(p, "..");
    OneMore("//" + server, "..");
    assert p + "/" + ".." == p + "/.." && "//" + server + "/" + ".." == "//" + server + "/..";
    SameNormal(p + "/..", p);
    SameNormal("//" + server + "/..", "//" + server);
    SegmentsAppend(p, more);
    LockedStay([server, share], Parts(more));
    DotDotTakesBack(p + "/" + more, s);
  }

  /** The last segment printed behind the others. */
  lemma PrintSnoc(root: Root, segments: seq<string>, s: string)
    ensures var n := Print(root, segments);
            Print(root, segments + [s]) ==
              if segments != [] || root.Drive? then n + "/" + s else n + s
  {
    if segments != [] {
      JoinAppend(segments, [s]);
      assert JoinSlash([s]) == s;
      hide JoinSlash;
      var j := JoinSlash(segments);
      match root
      case Unc => Behind("//", j, s);
      case Unix => Behind("/", j, s);
      case Drive(letter) => Behind([letter, ':'] + "/", j, s); Behind([letter, ':'], "/" + j, s);
      case Relative =>
    } else {
      assert segments + [s] == [s];
    }
  }

  lemma Behind(root: string, j: string, s: string)
    ensures root + (j + "/" + s) == root + j + "/" + s
    ensures root + ("/" + (j + "/" + s)) == root + ("/" + j) + "/" + s
  {
  }

  /** Which normal forms end at their root: none, a slash, or two. */
  lemma BareForms(path: string)
    ensures var root, n := RootOf(Slashed(path)), Normalize(path);
            !root.Drive? ==> (Segments(path) == [] <==> n == "" || n == "/" || n == "//")
  {
    hide Slashed, Segments;
    var root, segments := RootOf(Slashed(path)), Segments(path);
    if !root.Drive? {
      assert AllSolid(segments) by { AllAreSolid(path); }
      JoinTidy(segments);
      assert LowerAll("//") == "//" && "//" + "" == "//" && "/" + "" == "/";
      if segments != [] {
        var j := JoinSlash(segments);
        assert |Normalize(path)| == |Print(root, segments)|;
        assert root.Unix? ==> Normalize(path) == "/" + j && ("/" + j)[1] == j[0];
      }
    }
  }

  lemma AllAreSolid(path: string)
    ensures AllSolid(Segments(path))
  {
    if RootOf(Slashed(path)).Relative? {
      SegmentsClimb(path);
      ClimbingSolid(Segments(path));
    } else {
      SegmentsClean(path);
    }
  }

  predicate Lowered(path: string) {
    RootOf(Slashed(path)).Drive? || RootOf(Slashed(path)).Unc?
  }

  lemma LowerBehind(n: string, s: string)
    ensures LowerAll(n + "/" + s) == LowerAll(n) + "/" + LowerAll(s) && LowerAll(n + s) == LowerAll(n) + LowerAll(s)
  {
  }

  /** Main result: a segment written behind a path stands behind its normal form, in lower case for a drive or UNC path. */
  lemma SegmentGoesBehind(path: string, s: string)
    requires Extensible(path) && CleanSegment(s)
    ensures var n, t := Normalize(path), if Lowered(path) then LowerAll(s) else s;
            Normalize(path + "/" + s) == if n == "" || n == "/" || n == "//" then n + t else n + "/" + t
  {
    var root, segments, n := RootOf(Slashed(path)), Segments(path), Normalize(path);
    BareForms(path);
    SegmentIsPart(s);
    OneMore(path, s);
    DriveForm(path);
    hide Segments, Slashed, RootOf;
    var printed := Print(root, segments);
    LowerBehind(printed, s);
    PrintSnoc(root, segments, s);
    hide Print, LowerAll;
  }

  lemma DriveForm(path: string)
    ensures RootOf(Slashed(path)).Drive? ==> Normalize(path) != "" && Normalize(path) != "/" && Normalize(path) != "//"
  {
    hide Slashed, Segments;
    var root := RootOf(Slashed(path));
    if root.Drive? {
      assert Print(root, Segments(path))[1] == ':' && Lower(':') == ':';
    }
  }

  /** In front of a relative path `..` stays, behind the root of a drive or Unix path it is lost. */
  lemma DotDotAtTheTop(path: string)
    requires Extensible(path) && !WithUncPrefix(path)
    ensures RootOf(Slashed(path)).Relative? && Normalize(path) == "" ==> Normalize(path + "/..") == ".."
    ensures RootOf(Slashed(path)).Relative? && Segments(path) != [] && Segments(path)[|Segments(path)| - 1] == ".." ==>
              Normalize(path + "/..") == Normalize(path) + "/.."
    ensures !RootOf(Slashed(path)).Relative? && Segments(path) == [] ==> Normalize(path + "/..") == Normalize(path)
  {
    hide Segments, Slashed, RootOf;
    OneMore(path, "..");
    assert path + "/" + ".." == path + "/..";
    UncRoot(path);
    BareForms(path);
    var root, segments := RootOf(Slashed(path)), Segments(path);
    if root.Relative? {
      if segments == [] { assert segments + [".."] == [".."]; } else { JoinAppend(segments, [".."]); assert JoinSlash(segments) + "/" + ".." == JoinSlash(segments) + "/.."; }
    } else if segments == [] {
      SameNormal(path + "/..", path);
    }
  }

  /** The kinds of slash are the same, except that a path starting with one of each is not a UNC path. */
  lemma BackslashIsSlash(path: string)
    ensures Normalize(Forward(path)) == Normalize(path) <==> !(StartsWith(path, "\\/") || StartsWith(path, "/\\"))
  {
    var f := Forward(path);
    assert Forward(f) == f;
    if StartsWith(path, "\\/") || StartsWith(path, "/\\") {
      assert f[..2] == "//";
      UncRoot(path);
      UncRoot(f);
      CollapseHead(f);
      UnixIsNoUnc(path, f);
    } else {
      assert |path| >= 2 ==> (f[..2] == "//" <==> path[0] in {'/', '\\'} && path[1] in {'/', '\\'});
      assert WithUncPrefix(path) <==> WithUncPrefix(f);
    }
  }

  lemma UnixIsNoUnc(path: string, f: string)
    requires RootOf(Slashed(path)).Unix? && RootOf(Slashed(f)).Unc?
    ensures Normalize(path) != Normalize(f)
  {
    hide Slashed, Segments;
    AllAreSolid(path);
    JoinTidy(Segments(path));
    var n, m := Normalize(path), Normalize(f);
    assert n == "/" + JoinSlash(Segments(path));
    assert m[1] == '/' by { assert Print(Unc, Segments(f))[1] == '/' && Lower('/') == '/'; }
  }

  lemma NothingResolved(root: Root)
    ensures SplitSlash("") == [""] && Resolve(root, [], [""]) == []
  {
    assert [""][1..] == [];
  }

  lemma DriveAlone(letter: char)
    requires IsLetter(letter)
    ensures Normalize([letter, ':']) == [Lower(letter), ':']
  {
    var d := [letter, ':'];
    assert d[1..] == [':'] && [d[0]] + [':'] == d;
    assert Forward(d) == d && Collapse(d) == d && Slashed(d) == d;
    assert RootOf(d) == Drive(letter) && AfterRoot(d) == "";
    NothingResolved(RootOf(d));
    hide Slashed;
    assert Print(Drive(letter), []) == d;
    assert LowerAll(d) == [Lower(letter), ':'];
  }

  lemma SlashesAlone()
    ensures Normalize("/") == "/" && Normalize("//") == "//" && Normalize("") == ""
  {
    assert "/"[1..] == "" && "//"[1..] == "/" && "//"[2..] == "";
    assert Forward("/") == "/" && Forward("//") == "//" && Forward("") == "";
    assert Slashed("//") == "//" && Slashed("/") == "/" && Slashed("") == "";
    hide Slashed;
    NothingResolved(Unix);
    NothingResolved(Unc);
    NothingResolved(Relative);
    assert LowerAll("//") == "//";
  }

  /** The roots themselves. */
  lemma Roots(letter: char)
    requires IsLetter(letter)
    ensures Normalize([letter, ':']) == [Lower(letter), ':'] && Normalize("/") == "/" && Normalize("//") == "//" && Normalize("") == ""
  {
    DriveAlone(letter);
    SlashesAlone();
  }

  /** The law fails behind a single slash, which together with the next one starts a UNC path. */
  lemma SingleSlash()
    ensures Normalize("/" + "/" + "s" + "/..") == "//s" && Normalize("/") == "/"
  {
    hide Segments, Slashed, RootOf, Normalize;
    Roots('c');
    assert CleanSegment("s");
    ServerAndShare("s", "s");
    OneMore("//" + "s", "..");
    assert "/" + "/" + "s" + "/.." == "//" + "s" + "/" + "..";
    SameNormal("//" + "s" + "/" + "..", "//" + "s");
    PrintedServer();
  }

  lemma PrintedServer()
    ensures Normalize("//" + "s") == "//s"
  {
    hide Slashed, Segments;
    assert CleanSegment("s");
    ServerAndShare("s", "s");
    assert LowerAll("//s") == "//s";
  }

  // ---------------------------------------------------------------- what a deletion reaches

  /** Deleting a file reaches that file only, however its path is written. A directory reaches itself and, behind a path that can
      be written on, every file below it. No deletion of an empty path reaches anything. */
  lemma DeletionReaches(document: string, path: string, below: string)
    ensures IsPathDeleted(document, path, false) <==> Normalize(path) != "" && Normalize(document) == Normalize(path)
    ensures IsPathDeleted(document, path, false) ==> IsPathDeleted(document, path, true)
    ensures Normalize(path) == "" ==> !IsPathDeleted(document, path, true)
    ensures Extensible(path) && CleanSegment(below) && Normalize(path) != "" && Normalize(path) != "//" ==>
              IsPathDeleted(path + "/" + below, path, true) && !IsPathDeleted(path + "/" + below, path, false)
  {
    hide Normalize;
    if Extensible(path) && CleanSegment(below) && Normalize(path) != "" && Normalize(path) != "//" {
      SegmentGoesBehind(path, below);
      var n, t := Normalize(path), if Lowered(path) then LowerAll(below) else below;
      if n == "/" {
        assert (n + t)[..1] == "/" && |n + t| > |n|;
      } else {
        assert (n + "/" + t)[..|n| + 1] == n + "/" && |n + "/" + t| > |n|;
      }
    }
  }
}

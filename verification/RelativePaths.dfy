/** Normalizing relative paths: `..` may stay in front, and a relative path can turn into one that looks like a drive
path. This is the one case in which normalizing twice is not normalizing once. */
module RelativePaths {
  import opened Paths

  /** Leading `..`, then clean segments. */
  predicate Climbing(segments: seq<string>) {
    segments != [] ==> (if segments[0] == ".." then Climbing(segments[1..]) else Clean(segments))
  }

  lemma {:induction false} ClimbingInit(segments: seq<string>)
    requires Climbing(segments) && segments != []
    ensures Climbing(segments[..|segments| - 1])
    decreases |segments|
  {
    var init := segments[..|segments| - 1];
    if segments[0] == ".." {
      ClimbingInit2(segments);
    } else {
      assert Clean(init);
    }
  }

  lemma {:induction false} ClimbingInit2(segments: seq<string>)
    requires Climbing(segments) && segments != [] && segments[0] == ".."
    ensures Climbing(segments[..|segments| - 1])
    decreases |segments|
  {
    if |segments| > 1 {
      var init := segments[..|segments| - 1];
      assert init[1..] == segments[1..][..|segments| - 2];
      if segments[1] == ".." { ClimbingInit2(segments[1..]); } else { assert Clean(init[1..]); }
    }
  }

  lemma {:induction false} ClimbingSnoc(segments: seq<string>, part: string)
    requires Climbing(segments)
    requires CleanSegment(part) || (part == ".." && (segments == [] || segments[|segments| - 1] == ".."))
    ensures Climbing(segments + [part])
    decreases |segments|
  {
    if segments != [] {
      assert (segments + [part])[1..] == segments[1..] + [part];
      if segments[0] == ".." {
        ClimbingSnoc(segments[1..], part);
      } else {
        assert segments[|segments| - 1] in segments;
        assert Clean(segments + [part]);
      }
    }
  }

  lemma {:induction false} ResolveClimbs(segments: seq<string>, parts: seq<string>)
    requires Climbing(segments) && forall p :: p in parts ==> NoSlashes(p)
    ensures Climbing(Resolve(Relative, segments, parts))
    decreases |parts|
  {
    if parts != [] {
      var part := parts[0];
      assert part in parts;
      if part == ".." && segments != [] && segments[|segments| - 1] != ".." {
        ClimbingInit(segments);
      } else if part != "" && part != "." {
        ClimbingSnoc(segments, part);
      }
      ResolveClimbs(Resolve1(Relative, segments, part), parts[1..]);
    }
  }

  lemma SegmentsClimb(path: string)
    requires RootOf(Slashed(path)).Relative?
    ensures Climbing(Segments(path))
  {
    CollapseNoBackslash(Forward(path));
    SplitSlashParts(AfterRoot(Slashed(path)));
    ResolveClimbs([], SplitSlash(AfterRoot(Slashed(path))));
  }

  lemma {:induction false} ClimbingSolid(segments: seq<string>)
    requires Climbing(segments)
    ensures AllSolid(segments)
    decreases |segments|
  {
    if segments != [] && segments[0] == ".." {
      ClimbingSolid(segments[1..]);
    }
  }

  /** Resolving segments that already climb changes nothing. */
  lemma {:induction false} ResolveOfClimbing(done: seq<string>, segments: seq<string>)
    requires Climbing(segments) && forall d :: d in done ==> d == ".."
    ensures Resolve(Relative, done, segments) == done + segments
    decreases |segments|
  {
    if segments == [] {
      assert done + [] == done;
    } else if segments[0] == ".." {
      assert done != [] ==> done[|done| - 1] in done;
      ResolveOfClimbing(done + [".."], segments[1..]);
      assert done + [".."] + segments[1..] == done + segments;
    } else {
      ResolveOfClean(Relative, done, segments);
    }
  }

  // ---------------------------------------------------------------- reading back

  predicate DriveName(s: string) {
    |s| == 2 && IsLetter(s[0]) && s[1] == ':'
  }

  lemma JoinStarts(segments: seq<string>)
    requires segments != [] && AllSolid(segments)
    ensures var s := JoinSlash(segments); |segments[0]| <= |s| && s[..|segments[0]|] == segments[0]
    ensures var s := JoinSlash(segments); if |segments| == 1 then s == segments[0] else |s| > |segments[0]| && s[|segments[0]|] == '/'
  {
  }

  lemma SlashedTidy(s: string)
    requires Tidy(s) && s != ""
    ensures Slashed(s) == s
  {
    ForwardId(s);
    CollapseSingle(s);
    hide Forward, Collapse;
  }

  lemma RootOfText(s: string, first: string)
    requires Solid(first) && |first| <= |s| && s[..|first|] == first && (|s| > |first| ==> s[|first|] == '/')
    ensures RootOf(s) == if DriveName(first) then Drive(first[0]) else Relative
  {
    assert s[0] == s[..|first|][0] == first[0];
    assert |first| >= 2 ==> s[1] == s[..|first|][1] == first[1];
    assert |first| >= 3 ==> s[2] == s[..|first|][2] == first[2];
  }

  /** A printed relative path reads as a drive path exactly when its first segment is a drive name. */
  lemma RootOfJoin(segments: seq<string>)
    requires segments != [] && AllSolid(segments)
    ensures Slashed(JoinSlash(segments)) == JoinSlash(segments)
    ensures RootOf(JoinSlash(segments)) == if DriveName(segments[0]) then Drive(segments[0][0]) else Relative
  {
    hide JoinSlash, Slashed, RootOf, Tidy;
    JoinTidy(segments);
    JoinStarts(segments);
    assert segments[0] in segments;
    SlashedTidy(JoinSlash(segments));
    RootOfText(JoinSlash(segments), segments[0]);
  }

  lemma NormalizeAgain(segments: seq<string>)
    requires Climbing(segments)
    ensures var n := JoinSlash(segments);
            Normalize(n) == if segments != [] && DriveName(segments[0]) then LowerAll(n) else n
  {
    var n := JoinSlash(segments);
    ClimbingSolid(segments);
    if segments == [] {
      assert Slashed("") == "" && Segments("") == [] by { assert SplitSlash("") == [""] && Resolve(Relative, [], [""]) == []; }
    } else {
      RootOfJoin(segments);
      if DriveName(segments[0]) {
        DriveReadBack(segments);
      } else {
        SplitOfJoin(segments);
        ResolveOfClimbing([], segments);
        assert [] + segments == segments;
      }
    }
  }

  lemma DriveReadBack(segments: seq<string>)
    requires segments != [] && Climbing(segments) && DriveName(segments[0])
    ensures Normalize(JoinSlash(segments)) == LowerAll(JoinSlash(segments))
  {
    var d, rest := segments[0], segments[1..];
    assert d != "..";
    var root := Drive(d[0]);
    assert Clean(rest);
    assert d == [d[0], ':'];
    assert Print(root, rest) == JoinSlash(segments) by {
      if rest != [] {
        assert [d[0], ':'] + ("/" + JoinSlash(rest)) == d + "/" + JoinSlash(rest);
      }
    }
    ReadBack(root, rest);
  }

  /** A relative path that comes out looking like a drive path with a capital letter in it. */
  predicate TurnsIntoDrive(path: string) {
    var segments := Segments(path);
    && RootOf(Slashed(path)).Relative? && segments != [] && DriveName(segments[0])
    && exists i :: 0 <= i < |JoinSlash(segments)| && Lower(JoinSlash(segments)[i]) != JoinSlash(segments)[i]
  }

  /** Main result: normalizing is idempotent on every path except those. */
  lemma IdempotentExactly(path: string)
    ensures Normalize(Normalize(path)) == Normalize(path) <==> !TurnsIntoDrive(path)
  {
    if RootOf(Slashed(path)).Relative? {
      SegmentsClimb(path);
      var segments := Segments(path);
      var n := JoinSlash(segments);
      assert Normalize(path) == n;
      NormalizeAgain(segments);
      LowerChanges(n);
    } else {
      NormalizeIdempotent(path);
    }
  }

  lemma LowerChanges(s: string)
    ensures LowerAll(s) != s <==> exists i :: 0 <= i < |s| && Lower(s[i]) != s[i]
  {
    if forall i :: 0 <= i < |s| ==> Lower(s[i]) == s[i] {
      assert LowerAll(s) == s;
    } else {
      var i :| 0 <= i < |s| && Lower(s[i]) != s[i];
      assert LowerAll(s)[i] != s[i];
    }
  }

  /** Such a path. */
  lemma DotSlashDrive()
    ensures Normalize("./C:/X") == "C:/X" && Normalize("C:/X") == "c:/x"
  {
    hide Normalize, Segments, Slashed, Climbing;
    FirstPass();
    SecondPass();
  }

  lemma DriveSegments()
    ensures JoinSlash(["C:", "X"]) == "C:/X" && Clean(["C:", "X"]) && Climbing(["C:", "X"])
  {
    assert ["C:", "X"][1..] == ["X"];
  }

  lemma FirstPass()
    ensures Normalize("./C:/X") == "C:/X"
  {
    var parts, segments := [".", "C:", "X"], ["C:", "X"];
    DriveSegments();
    assert parts[1..] == segments;
    assert JoinSlash(parts) == "./C:/X" && AllSolid(parts);
    hide JoinSlash, SplitSlash, Slashed, Climbing, Clean;
    RootOfJoin(parts);
    SplitOfJoin(parts);
    assert Resolve1(Relative, [], ".") == [];
    ResolveOfClean(Relative, [], segments);
  }

  lemma SecondPass()
    ensures Normalize("C:/X") == "c:/x"
  {
    hide Normalize, Climbing;
    DriveSegments();
    NormalizeAgain(["C:", "X"]);
    assert LowerAll("C:/X") == "c:/x";
  }
}

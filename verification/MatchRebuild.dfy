/** Rebuilding a file from its original text and the verdicts, by matched line ranges.

One forward pass copies the original lines and, at each block, either keeps the block's
original lines or writes its replacement. The pass is refined to independent splices. */
module MatchRebuild {
  import opened Lines
  import opened Modifications

  // ---------------------------------------------------------------- the pass, as a function

  /** The next original line to look at (it may leave the file at either end) and the lines written. */
  datatype Pass = Pass(cursor: int, out: seq<string>)

  function Clamp(i: int, n: nat): (r: nat)
    ensures r <= n
  {
    if i < 0 then 0 else if i > n then n else i
  }

  /** The lines from `lo` up to `hi`, cut to those that exist. */
  function Slice(lines: seq<string>, lo: int, hi: int): seq<string> {
    var l, h := Clamp(lo, |lines|), Clamp(hi, |lines|);
    if l <= h then lines[l..h] else []
  }

  /** Where a cursor that copies lines stops: it never moves back and never passes the last line. */
  function Advance(cursor: int, bound: int, n: nat): int {
    if cursor < bound && cursor < n then (if bound < n then bound else n) else cursor
  }

  function CopyTo(lines: seq<string>, p: Pass, bound: int): Pass {
    Pass(Advance(p.cursor, bound, |lines|), p.out + Slice(lines, p.cursor, bound))
  }

  /** One block: skipped when it starts before the cursor, else its lines are kept or replaced. */
  function Step(lines: seq<string>, p: Pass, m: Mod): Pass {
    if m.startLine - 1 < p.cursor then p
    else
      var q := CopyTo(lines, p, m.startLine - 1);
      if m.status.Rejected? then CopyTo(lines, q, m.endLine)
      else Pass(m.endLine, q.out + Replacement(m))
  }

  function Steps(lines: seq<string>, p: Pass, mods: seq<Mod>): Pass
    decreases |mods|
  {
    if mods == [] then p else Steps(lines, Step(lines, p, mods[0]), mods[1..])
  }

  function Finish(lines: seq<string>, p: Pass): seq<string> {
    CopyTo(lines, p, |lines|).out
  }

  // ---------------------------------------------------------------- filter and stable sort

  function PlacedOnly(mods: seq<Mod>): (r: seq<Mod>)
    ensures forall m :: m in r <==> m in mods && Placed(m)
  {
    if mods == [] then []
    else if Placed(mods[0]) then [mods[0]] + PlacedOnly(mods[1..])
    else PlacedOnly(mods[1..])
  }

  predicate SortedByStart(mods: seq<Mod>) {
    |mods| >= 2 ==> mods[0].startLine <= mods[1].startLine && SortedByStart(mods[1..])
  }

  /** Puts a block before the first one that starts no earlier, so equal starts keep their order. */
  function InsertByStart(m: Mod, mods: seq<Mod>): seq<Mod> {
    if mods == [] || m.startLine <= mods[0].startLine then [m] + mods
    else [mods[0]] + InsertByStart(m, mods[1..])
  }

  /** The stable ascending sort by start line. */
  function SortByStart(mods: seq<Mod>): seq<Mod> {
    if mods == [] then [] else InsertByStart(mods[0], SortByStart(mods[1..]))
  }

  lemma {:induction false} InsertSorts(m: Mod, mods: seq<Mod>)
    requires SortedByStart(mods)
    ensures SortedByStart(InsertByStart(m, mods))
    ensures multiset(InsertByStart(m, mods)) == multiset(mods) + multiset{m}
    decreases |mods|
  {
    if mods != [] && m.startLine > mods[0].startLine {
      assert mods == [mods[0]] + mods[1..];
      InsertSorts(m, mods[1..]);
    }
  }

  lemma {:induction false} SortSorts(mods: seq<Mod>)
    ensures SortedByStart(SortByStart(mods))
    ensures multiset(SortByStart(mods)) == multiset(mods)
    decreases |mods|
  {
    if mods != [] {
      assert mods == [mods[0]] + mods[1..];
      SortSorts(mods[1..]);
      InsertSorts(mods[0], SortByStart(mods[1..]));
    }
  }

  /** The blocks the pass walks over. */
  function InOrder(mods: seq<Mod>): seq<Mod> {
    SortByStart(PlacedOnly(mods))
  }

  function RebuiltLines(lines: seq<string>, mods: seq<Mod>): seq<string> {
    Finish(lines, Steps(lines, Pass(0, []), InOrder(mods)))
  }

  function Rebuilt(original: string, mods: seq<Mod>): string {
    Join(RebuiltLines(Split(original), mods), Ending(original))
  }

  // ---------------------------------------------------------------- the pass, as the loop

  lemma SliceSnoc(lines: seq<string>, lo: int, hi: int)
    requires lo <= hi < |lines|
    ensures Slice(lines, lo, hi + 1) == Slice(lines, lo, hi) + (if hi >= 0 then [lines[hi]] else [])
  {
  }

  /** Copies original lines until the cursor reaches the bound or the end. */
  method CopyUntil(lines: seq<string>, cursor: int, bound: int, out: seq<string>)
    returns (cursor': int, out': seq<string>)
    ensures Pass(cursor', out') == CopyTo(lines, Pass(cursor, out), bound)
  {
    cursor', out' := cursor, out;
    while cursor' < bound && cursor' < |lines|
      invariant cursor <= cursor' <= Advance(cursor, bound, |lines|)
      invariant out' == out + Slice(lines, cursor, cursor')
      decreases |lines| - cursor'
    {
      SliceSnoc(lines, cursor, cursor');
      if 0 <= cursor' {
        out' := out' + [lines[cursor']];
      }
      cursor' := cursor' + 1;
    }
    assert Slice(lines, cursor, cursor') == Slice(lines, cursor, bound);
  }

  method RebuildByMatchResult(original: string, mods: seq<Mod>) returns (text: string)
    ensures text == Rebuilt(original, mods)
  {
    var lines := Split(original);
    var sorted := InOrder(mods);
    var cursor, out := 0, [];
    var k := 0;
    while k < |sorted|
      invariant 0 <= k <= |sorted|
      invariant Steps(lines, Pass(cursor, out), sorted[k..]) == Steps(lines, Pass(0, []), sorted)
    {
      var m := sorted[k];
      assert sorted[k..][1..] == sorted[k + 1..];
      if m.startLine - 1 >= cursor {
        cursor, out := CopyUntil(lines, cursor, m.startLine - 1, out);
        if m.status == Rejected {
          cursor, out := CopyUntil(lines, cursor, m.endLine, out);
        } else {
          cursor, out := m.endLine, out + Replacement(m);
        }
      }
      k := k + 1;
    }
    cursor, out := CopyUntil(lines, cursor, |lines|, out);
    text := Join(out, Ending(original));
  }

  // ---------------------------------------------------------------- meaning: independent splices

  predicate InRange(m: Mod, n: nat) {
    1 <= m.startLine <= m.endLine <= n
  }

  predicate AllInRange(mods: seq<Mod>, n: nat) {
    forall m :: m in mods ==> InRange(m, n)
  }

  predicate Apart(a: Mod, b: Mod) {
    a.endLine < b.startLine || b.endLine < a.startLine
  }

  /** No block is listed twice and no two blocks share a line. */
  predicate PairwiseApart(mods: seq<Mod>) {
    && (forall m :: m in mods ==> multiset(mods)[m] == 1)
    && (forall a, b :: a in mods && b in mods && a != b ==> Apart(a, b))
  }

  /** Blocks in file order, none touching another's lines, all inside the file. */
  predicate Orderly(mods: seq<Mod>, n: nat) {
    mods != [] ==>
      && InRange(mods[0], n)
      && (|mods| >= 2 ==> mods[0].endLine < mods[1].startLine)
      && Orderly(mods[1..], n)
  }

  /** One block on its own: cut its lines out of the text and put the replacement there. */
  function Splice(lines: seq<string>, m: Mod): seq<string>
    requires InRange(m, |lines|)
  {
    if m.status.Rejected? then lines
    else lines[..m.startLine - 1] + Replacement(m) + lines[m.endLine..]
  }

  /** The lines before the first block. */
  function Head(mods: seq<Mod>, n: nat): (k: nat)
    requires Orderly(mods, n)
    ensures k <= n
  {
    if mods == [] then n else mods[0].startLine - 1
  }

  /** Every block spliced in, the lowest in the file first, so no splice moves a later one. */
  function SpliceAll(lines: seq<string>, mods: seq<Mod>): (r: seq<string>)
    requires Orderly(mods, |lines|)
    ensures Head(mods, |lines|) <= |r| && r[..Head(mods, |lines|)] == lines[..Head(mods, |lines|)]
  {
    if mods == [] then lines
    else
      var below := SpliceAll(lines, mods[1..]);
      PrefixKept(lines, mods, below);
      Splice(below, mods[0])
  }

  /** Splicing the later blocks leaves every line up to the end of the first block alone. */
  lemma PrefixKept(lines: seq<string>, mods: seq<Mod>, below: seq<string>)
    requires mods != [] && Orderly(mods, |lines|)
    requires var h := Head(mods[1..], |lines|); h <= |below| && below[..h] == lines[..h]
    ensures InRange(mods[0], |below|)
    ensures below[..mods[0].endLine] == lines[..mods[0].endLine]
    ensures below[..mods[0].startLine - 1] == lines[..mods[0].startLine - 1]
  {
    var h := Head(mods[1..], |lines|);
    assert mods[0].endLine <= h;
    assert below[..mods[0].endLine] == below[..h][..mods[0].endLine];
    assert below[..mods[0].startLine - 1] == below[..h][..mods[0].startLine - 1];
  }

  lemma SamePieces<T>(a: seq<T>, b: seq<T>, i: nat, j: nat, k: nat)
    requires i <= j <= k <= |a| && k <= |b| && a[..k] == b[..k]
    ensures a[i..j] == b[i..j] && a[j..k] == b[j..k]
    ensures b[i..j] + b[j..k] + b[k..] == b[i..]
  {
    assert a[i..j] == a[..k][i..j] && b[i..j] == b[..k][i..j];
    assert a[j..k] == a[..k][j..] && b[j..k] == b[..k][j..];
  }

  /** What the pass writes for one block and the lines before it, as a piece of the spliced text. */
  lemma OneBlock(lines: seq<string>, below: seq<string>, m: Mod, p: Pass)
    requires InRange(m, |lines|) && InRange(m, |below|) && 0 <= p.cursor < m.startLine
    requires below[..m.endLine] == lines[..m.endLine]
    ensures p.cursor <= |Splice(below, m)|
    ensures Step(lines, p, m).cursor == m.endLine
    ensures Step(lines, p, m).out + below[m.endLine..] == p.out + Splice(below, m)[p.cursor..]
  {
    var first := m.startLine - 1;
    SamePieces(lines, below, p.cursor, first, m.endLine);
    if m.status.Rejected? {
      assert Step(lines, p, m).out == p.out + below[p.cursor..first] + below[first..m.endLine];
      Regroup(p.out, below[p.cursor..first], below[first..m.endLine], below[m.endLine..]);
    } else {
      assert Step(lines, p, m).out == p.out + below[p.cursor..first] + Replacement(m);
      Regroup(p.out, below[p.cursor..first], Replacement(m), below[m.endLine..]);
      assert Splice(below, m)[p.cursor..] == below[p.cursor..first] + Replacement(m) + below[m.endLine..];
    }
  }

  lemma Regroup<T>(a: seq<T>, b: seq<T>, c: seq<T>, d: seq<T>)
    ensures a + b + c + d == a + (b + c + d)
  {
  }

  /** Core refinement: from any cursor before the first block, the pass yields the spliced text from there on. */
  lemma {:induction false} StepsAreSplices(lines: seq<string>, mods: seq<Mod>, p: Pass)
    requires Orderly(mods, |lines|)
    requires 0 <= p.cursor <= Head(mods, |lines|)
    ensures p.cursor <= |SpliceAll(lines, mods)|
    ensures Finish(lines, Steps(lines, p, mods)) == p.out + SpliceAll(lines, mods)[p.cursor..]
    decreases |mods|
  {
    if mods != [] {
      var below := SpliceAll(lines, mods[1..]);
      PrefixKept(lines, mods, below);
      OneBlock(lines, below, mods[0], p);
      StepsAreSplices(lines, mods[1..], Step(lines, p, mods[0]));
    }
  }

  // ---------------------------------------------------------------- overlap and order

  /** The blocks the overlap test lets through, in order: each starts after the last kept one ends. */
  function Greedy(mods: seq<Mod>, cursor: int): seq<Mod> {
    if mods == [] then []
    else if mods[0].startLine - 1 < cursor then Greedy(mods[1..], cursor)
    else [mods[0]] + Greedy(mods[1..], mods[0].endLine)
  }

  lemma {:induction false} GreedyIsOrderly(mods: seq<Mod>, cursor: int, n: nat)
    requires AllInRange(mods, n)
    ensures Orderly(Greedy(mods, cursor), n)
    ensures Greedy(mods, cursor) != [] ==> cursor < Greedy(mods, cursor)[0].startLine
    decreases |mods|
  {
    if mods != [] {
      assert InRange(mods[0], n);
      GreedyIsOrderly(mods[1..], if mods[0].startLine - 1 < cursor then cursor else mods[0].endLine, n);
    }
  }

  lemma {:induction false} StepsSkipOverlaps(lines: seq<string>, mods: seq<Mod>, p: Pass)
    requires AllInRange(mods, |lines|)
    requires 0 <= p.cursor <= |lines|
    ensures Steps(lines, p, mods) == Steps(lines, p, Greedy(mods, p.cursor))
    decreases |mods|
  {
    if mods != [] {
      assert InRange(mods[0], |lines|);
      StepsSkipOverlaps(lines, mods[1..], Step(lines, p, mods[0]));
    }
  }

  lemma {:induction false} GreedyKeepsOrderly(mods: seq<Mod>, cursor: int, n: nat)
    requires Orderly(mods, n)
    requires mods != [] ==> cursor < mods[0].startLine
    ensures Greedy(mods, cursor) == mods
    decreases |mods|
  {
    if mods != [] {
      GreedyKeepsOrderly(mods[1..], mods[0].endLine, n);
    }
  }

  lemma SameMembers<T>(a: seq<T>, b: seq<T>)
    requires multiset(a) == multiset(b)
    ensures forall x :: x in a <==> x in b
  {
    assert forall x :: x in a <==> x in multiset(a);
    assert forall x :: x in b <==> x in multiset(b);
  }

  /** Main result. For blocks inside the file, overlapping or not, the rebuilt lines are the
      original lines with the greedily kept blocks spliced in, each on its own. */
  lemma RebuildSplicesKeptBlocks(lines: seq<string>, mods: seq<Mod>)
    requires AllInRange(PlacedOnly(mods), |lines|)
    ensures var kept := Greedy(InOrder(mods), 0);
            Orderly(kept, |lines|) && RebuiltLines(lines, mods) == SpliceAll(lines, kept)
  {
    var sorted := InOrder(mods);
    SortSorts(PlacedOnly(mods));
    SameMembers(sorted, PlacedOnly(mods));
    var kept := Greedy(sorted, 0);
    GreedyIsOrderly(sorted, 0, |lines|);
    StepsSkipOverlaps(lines, sorted, Pass(0, []));
    StepsAreSplices(lines, kept, Pass(0, []));
  }

  lemma TailMultiset<T>(s: seq<T>)
    requires s != []
    ensures multiset(s[1..]) == multiset(s) - multiset{s[0]}
  {
    assert s == [s[0]] + s[1..];
  }

  lemma {:induction false} ApartSortedIsOrderly(mods: seq<Mod>, n: nat)
    requires SortedByStart(mods) && PairwiseApart(mods) && AllInRange(mods, n)
    ensures Orderly(mods, n)
    decreases |mods|
  {
    if mods != [] {
      TailMultiset(mods);
      var tail := mods[1..];
      assert forall m :: m in tail ==> m in mods;
      assert mods[0] in mods && multiset(tail)[mods[0]] == 0;
      forall m | m in tail ensures multiset(tail)[m] == 1 {
        assert m in multiset(tail);
      }
      ApartSortedIsOrderly(tail, n);
      if tail != [] {
        assert mods[1] == tail[0] && tail[0] in multiset(tail);
        assert Apart(mods[0], mods[1]);
      }
    }
  }

  /** When the blocks are pairwise apart none is dropped. */
  lemma RebuildSplicesAllBlocks(lines: seq<string>, mods: seq<Mod>)
    requires AllInRange(PlacedOnly(mods), |lines|) && PairwiseApart(PlacedOnly(mods))
    ensures Orderly(InOrder(mods), |lines|)
    ensures RebuiltLines(lines, mods) == SpliceAll(lines, InOrder(mods))
  {
    SortSorts(PlacedOnly(mods));
    SameMembers(InOrder(mods), PlacedOnly(mods));
    ApartSortedIsOrderly(InOrder(mods), |lines|);
    GreedyKeepsOrderly(InOrder(mods), 0, |lines|);
    RebuildSplicesKeptBlocks(lines, mods);
  }

  lemma {:induction false} FirstIsLowest(mods: seq<Mod>, n: nat, m: Mod)
    requires Orderly(mods, n) && m in mods
    ensures InRange(m, n)
    ensures m == mods[0] || mods[0].endLine < m.startLine
    decreases |mods|
  {
    if m != mods[0] {
      assert m in mods[1..];
      FirstIsLowest(mods[1..], n, m);
    }
  }

  /** Two orderly lists of the same blocks are the same list. */
  lemma {:induction false} OrderlyUnique(a: seq<Mod>, b: seq<Mod>, n: nat)
    requires Orderly(a, n) && Orderly(b, n) && multiset(a) == multiset(b)
    ensures a == b
    decreases |a|
  {
    SameMembers(a, b);
    assert |multiset(a)| == |a| == |b|;
    if a != [] {
      FirstIsLowest(a, n, b[0]);
      FirstIsLowest(b, n, a[0]);
      TailMultiset(a);
      TailMultiset(b);
      OrderlyUnique(a[1..], b[1..], n);
      assert a == [a[0]] + a[1..];
      assert b == [b[0]] + b[1..];
    }
  }

  lemma {:induction false} PlacedOnlyCounts(a: seq<Mod>, m: Mod)
    ensures multiset(PlacedOnly(a))[m] == if Placed(m) then multiset(a)[m] else 0
    decreases |a|
  {
    if a != [] {
      assert a == [a[0]] + a[1..];
      PlacedOnlyCounts(a[1..], m);
    }
  }

  /** The order in which the blocks are listed does not reach the file. */
  lemma RebuildIgnoresListOrder(lines: seq<string>, a: seq<Mod>, b: seq<Mod>)
    requires multiset(a) == multiset(b)
    requires AllInRange(PlacedOnly(a), |lines|) && PairwiseApart(PlacedOnly(a))
    ensures RebuiltLines(lines, a) == RebuiltLines(lines, b)
  {
    forall m ensures multiset(PlacedOnly(a))[m] == multiset(PlacedOnly(b))[m] {
      PlacedOnlyCounts(a, m);
      PlacedOnlyCounts(b, m);
    }
    assert multiset(PlacedOnly(a)) == multiset(PlacedOnly(b));
    SameMembers(PlacedOnly(a), PlacedOnly(b));
    RebuildSplicesAllBlocks(lines, a);
    RebuildSplicesAllBlocks(lines, b);
    SortSorts(PlacedOnly(a));
    SortSorts(PlacedOnly(b));
    OrderlyUnique(InOrder(a), InOrder(b), |lines|);
  }

  // ---------------------------------------------------------------- rejecting everything

  /** Rejected blocks only ever move the cursor over lines they copy. */
  lemma RejectedStepCopies(lines: seq<string>, p: Pass, m: Mod)
    requires m.status.Rejected?
    requires 0 <= p.cursor <= |lines| && p.out == lines[..p.cursor]
    ensures var q := Step(lines, p, m); 0 <= q.cursor <= |lines| && q.out == lines[..q.cursor]
  {
    if m.startLine - 1 >= p.cursor {
      var q := CopyTo(lines, p, m.startLine - 1);
      assert q.out == lines[..q.cursor];
      assert CopyTo(lines, q, m.endLine).out == lines[..CopyTo(lines, q, m.endLine).cursor];
    }
  }

  lemma {:induction false} RejectedStepsCopy(lines: seq<string>, mods: seq<Mod>, p: Pass)
    requires forall m :: m in mods ==> m.status.Rejected?
    requires 0 <= p.cursor <= |lines| && p.out == lines[..p.cursor]
    ensures Finish(lines, Steps(lines, p, mods)) == lines
    decreases |mods|
  {
    if mods != [] {
      RejectedStepCopies(lines, p, mods[0]);
      RejectedStepsCopy(lines, mods[1..], Step(lines, p, mods[0]));
    }
  }

  /** With every block rejected the original lines come back, whatever the ranges are: overlapping,
      empty, reversed or past the end of the file. The text comes back exactly when it does not mix
      line endings. */
  lemma RejectingAllRestores(original: string, mods: seq<Mod>)
    requires forall m :: m in mods ==> m.status.Rejected?
    ensures RebuiltLines(Split(original), mods) == Split(original)
    ensures Rebuilt(original, mods) == original <==> UniformEndings(original)
  {
    SortSorts(PlacedOnly(mods));
    SameMembers(InOrder(mods), PlacedOnly(mods));
    RejectedStepsCopy(Split(original), InOrder(mods), Pass(0, []));
    SplitJoinRoundTrip(original);
  }

  // ---------------------------------------------------------------- what a verdict can change

  /** A block as the rebuild sees it. */
  function Canon(m: Mod): Mod {
    m.(status := if m.status.Rejected? then Rejected else Applied, contentAtAccept := None)
  }

  function CanonAll(mods: seq<Mod>): seq<Mod> {
    if mods == [] then [] else [Canon(mods[0])] + CanonAll(mods[1..])
  }

  lemma {:induction false} CanonPlaced(mods: seq<Mod>)
    ensures PlacedOnly(CanonAll(mods)) == CanonAll(PlacedOnly(mods))
    decreases |mods|
  {
    if mods != [] {
      CanonPlaced(mods[1..]);
    }
  }

  lemma CanonCons(m: Mod, mods: seq<Mod>)
    ensures CanonAll([m] + mods) == [Canon(m)] + CanonAll(mods)
  {
    assert ([m] + mods)[1..] == mods;
  }

  lemma {:induction false} CanonInsert(m: Mod, mods: seq<Mod>)
    ensures InsertByStart(Canon(m), CanonAll(mods)) == CanonAll(InsertByStart(m, mods))
    decreases |mods|
  {
    CanonCons(m, mods);
    if mods != [] && m.startLine > mods[0].startLine {
      CanonInsert(m, mods[1..]);
      CanonCons(mods[0], InsertByStart(m, mods[1..]));
      assert CanonAll(mods)[1..] == CanonAll(mods[1..]);
    }
  }

  lemma {:induction false} CanonSort(mods: seq<Mod>)
    ensures SortByStart(CanonAll(mods)) == CanonAll(SortByStart(mods))
    decreases |mods|
  {
    if mods != [] {
      CanonSort(mods[1..]);
      CanonInsert(mods[0], SortByStart(mods[1..]));
      assert CanonAll(mods)[1..] == CanonAll(mods[1..]);
    }
  }

  lemma {:induction false} CanonSteps(lines: seq<string>, mods: seq<Mod>, p: Pass)
    ensures Steps(lines, p, CanonAll(mods)) == Steps(lines, p, mods)
    decreases |mods|
  {
    if mods != [] {
      assert CanonAll(mods)[1..] == CanonAll(mods[1..]);
      assert Step(lines, p, Canon(mods[0])) == Step(lines, p, mods[0]);
      CanonSteps(lines, mods[1..], Step(lines, p, mods[0]));
    }
  }

  lemma CanonRebuild(original: string, mods: seq<Mod>)
    ensures Rebuilt(original, CanonAll(mods)) == Rebuilt(original, mods)
  {
    CanonPlaced(mods);
    CanonSort(PlacedOnly(mods));
    CanonSteps(Split(original), InOrder(mods), Pass(0, []));
  }

  lemma {:induction false} CanonFromVerdicts(a: seq<Mod>, b: seq<Mod>)
    requires |a| == |b|
    requires forall i :: 0 <= i < |a| ==> Shape(a[i]) == Shape(b[i])
    requires forall i :: 0 <= i < |a| ==> (a[i].status.Rejected? <==> b[i].status.Rejected?)
    ensures CanonAll(a) == CanonAll(b)
    decreases |a|
  {
    if a != [] {
      CanonFromVerdicts(a[1..], b[1..]);
    }
  }

  /** Of all verdicts only "rejected or not" reaches the file: pending, applied and failed rebuild alike. */
  lemma RebuildSeesOnlyRejections(original: string, a: seq<Mod>, b: seq<Mod>)
    requires Shapes(a) == Shapes(b) && Verdicts(a) == Verdicts(b)
    ensures Rebuilt(original, a) == Rebuilt(original, b)
  {
    assert |a| == |Shapes(a)| == |b|;
    forall i | 0 <= i < |a| ensures Shape(a[i]) == Shape(b[i]) && (a[i].status.Rejected? <==> b[i].status.Rejected?) {
      assert Shapes(a)[i] == Shapes(b)[i] && Verdicts(a)[i] == Verdicts(b)[i];
    }
    CanonFromVerdicts(a, b);
    CanonRebuild(original, a);
    CanonRebuild(original, b);
  }
}

/** The fallback rebuild: an edit script from the original to the new text is grouped into blocks of changes, each
block goes to the first modification whose range it touches, and is written back old or new as a whole. */
module MyersRebuild {
  import opened Lines
  import opened Modifications
  import DiffContext
  import MatchRebuild

  /** One operation of the script. A removal knows the line it removes, counted from 0. */
  datatype EditOp = Context(text: string) | Add(text: string) | Remove(text: string, oldIdx: Option<nat>)

  /** The lines of the text before the script, and of the text after it. */
  function OldLines(ops: seq<EditOp>): seq<string> {
    if ops == [] then [] else (if ops[0].Add? then [] else [ops[0].text]) + OldLines(ops[1..])
  }

  function NewLines(ops: seq<EditOp>): seq<string> {
    if ops == [] then [] else (if ops[0].Remove? then [] else [ops[0].text]) + NewLines(ops[1..])
  }

  lemma {:induction false} OldLinesAppend(a: seq<EditOp>, b: seq<EditOp>)
    ensures OldLines(a + b) == OldLines(a) + OldLines(b)
    decreases |a|
  {
    if a == [] {
      assert a + b == b;
    } else {
      assert (a + b)[1..] == a[1..] + b;
      OldLinesAppend(a[1..], b);
      Associate(if a[0].Add? then [] else [a[0].text], OldLines(a[1..]), OldLines(b));
    }
  }

  lemma {:induction false} NewLinesAppend(a: seq<EditOp>, b: seq<EditOp>)
    ensures NewLines(a + b) == NewLines(a) + NewLines(b)
    decreases |a|
  {
    if a == [] {
      assert a + b == b;
    } else {
      assert (a + b)[1..] == a[1..] + b;
      NewLinesAppend(a[1..], b);
      Associate(if a[0].Remove? then [] else [a[0].text], NewLines(a[1..]), NewLines(b));
    }
  }

  lemma Associate<T>(a: seq<T>, b: seq<T>, c: seq<T>)
    ensures (a + b) + c == a + (b + c)
  {
  }

  // ---------------------------------------------------------------- blocks

  /** A maximal run of changes and the original lines it spans, 0 to 0 when it only adds. */
  datatype Block = Block(ops: seq<EditOp>, start: nat, firstLine: nat, lastLine: nat)

  /** Where the run of changes at `i` ends. */
  function RunEnd(ops: seq<EditOp>, i: nat): (n: nat)
    requires i <= |ops|
    ensures i <= n <= |ops|
    ensures forall k :: i <= k < n ==> !ops[k].Context?
    ensures n < |ops| ==> ops[n].Context?
    decreases |ops| - i
  {
    if i < |ops| && !ops[i].Context? then RunEnd(ops, i + 1) else i
  }

  function Removed(op: EditOp): Option<nat> {
    if op.Remove? then op.oldIdx else None
  }

  /** The lowest line removed so far, if any. */
  function Lowest(ops: seq<EditOp>): Option<nat> {
    if ops == [] then None
    else
      var before, here := Lowest(ops[..|ops| - 1]), Removed(ops[|ops| - 1]);
      if here == None then before else if before.Some? && before.value < here.value then before else here
  }

  function Highest(ops: seq<EditOp>): nat {
    if ops == [] then 0
    else
      var before, here := Highest(ops[..|ops| - 1]), Removed(ops[|ops| - 1]);
      if here.Some? && here.value > before then here.value else before
  }

  function BlockAt(ops: seq<EditOp>, i: nat, n: nat): Block
    requires i <= n <= |ops|
  {
    var run := ops[i..n];
    Block(run, i, if Lowest(run).Some? then Lowest(run).value else 0, Highest(run))
  }

  function BlocksFrom(ops: seq<EditOp>, i: nat): seq<Block>
    requires i <= |ops|
    decreases |ops| - i
  {
    if i == |ops| then []
    else if ops[i].Context? then BlocksFrom(ops, i + 1)
    else [BlockAt(ops, i, RunEnd(ops, i))] + BlocksFrom(ops, RunEnd(ops, i))
  }

  predicate Covers(b: Block, k: nat) {
    b.start <= k < b.start + |b.ops|
  }

  /** A run of changes that cannot be made longer. */
  predicate Maximal(ops: seq<EditOp>, b: Block) {
    var end := b.start + |b.ops|;
    && b.ops != [] && end <= |ops| && b.ops == ops[b.start..end]
    && (forall k :: b.start <= k < end ==> !ops[k].Context?)
    && (b.start > 0 ==> ops[b.start - 1].Context?)
    && (end < |ops| ==> ops[end].Context?)
  }

  lemma {:induction false} BlocksAreMaximal(ops: seq<EditOp>, i: nat)
    requires i <= |ops| && (0 < i < |ops| && !ops[i].Context? ==> ops[i - 1].Context?)
    ensures forall b :: b in BlocksFrom(ops, i) ==> Maximal(ops, b) && i <= b.start
    decreases |ops| - i
  {
    if i < |ops| {
      if ops[i].Context? {
        BlocksAreMaximal(ops, i + 1);
      } else {
        BlocksAreMaximal(ops, RunEnd(ops, i));
      }
    }
  }

  lemma {:induction false} ChangesAreCovered(ops: seq<EditOp>, i: nat, k: nat)
    requires i <= k < |ops| && !ops[k].Context?
    ensures exists b :: b in BlocksFrom(ops, i) && Covers(b, k)
    decreases |ops| - i
  {
    if ops[i].Context? {
      ChangesAreCovered(ops, i + 1, k);
    } else {
      var n := RunEnd(ops, i);
      var first := BlockAt(ops, i, n);
      if k < n {
        assert first in BlocksFrom(ops, i) && Covers(first, k);
      } else {
        ChangesAreCovered(ops, n, k);
      }
    }
  }

  /** Two maximal runs that share an operation are the same run. */
  lemma MaximalUnique(ops: seq<EditOp>, b: Block, c: Block, k: nat)
    requires Maximal(ops, b) && Maximal(ops, c) && Covers(b, k) && Covers(c, k)
    ensures b.start == c.start && |b.ops| == |c.ops|
  {
    assert Maximal(ops, b) && Maximal(ops, c);
  }

  /** Main result: the blocks partition the changes of the script into maximal runs. */
  lemma BlocksPartition(ops: seq<EditOp>, k: nat)
    requires k < |ops|
    ensures forall b :: b in BlocksFrom(ops, 0) ==> Maximal(ops, b)
    ensures !ops[k].Context? <==> exists b :: b in BlocksFrom(ops, 0) && Covers(b, k)
    ensures forall b, c :: b in BlocksFrom(ops, 0) && c in BlocksFrom(ops, 0) && Covers(b, k) && Covers(c, k) ==>
              b.start == c.start && |b.ops| == |c.ops|
  {
    BlocksAreMaximal(ops, 0);
    if !ops[k].Context? {
      ChangesAreCovered(ops, 0, k);
    }
    forall b, c | b in BlocksFrom(ops, 0) && c in BlocksFrom(ops, 0) && Covers(b, k) && Covers(c, k)
      ensures b.start == c.start && |b.ops| == |c.ops|
    {
      MaximalUnique(ops, b, c, k);
    }
  }

  // ---------------------------------------------------------------- owners

  /** The modifications with a position, in the order of their first lines. */
  function Located(mods: seq<Mod>): (r: seq<Mod>)
    ensures forall m :: m in r <==> m in mods && m.startLine > 0
  {
    if mods == [] then [] else (if mods[0].startLine > 0 then [mods[0]] else []) + Located(mods[1..])
  }

  function ByStart(mods: seq<Mod>): seq<Mod> {
    MatchRebuild.SortByStart(Located(mods))
  }

  predicate Touches(b: Block, m: Mod) {
    b.firstLine <= m.endLine - 1 && m.startLine - 1 <= b.lastLine && m.startLine <= m.endLine && b.firstLine <= b.lastLine
  }

  /** The first of the modifications that touches the block. */
  function Owner(b: Block, sorted: seq<Mod>): Option<Mod> {
    if sorted == [] then None else if Touches(b, sorted[0]) then Some(sorted[0]) else Owner(b, sorted[1..])
  }

  /** A block is put back when the modification it went to is rejected. The modification is found by its id, and
      an empty id counts as none. */
  predicate PutBack(b: Block, mods: seq<Mod>) {
    var owner := Owner(b, ByStart(mods));
    owner.Some? && owner.value.id != "" && IsRejected(mods, owner.value.id)
  }

  predicate IsRejected(mods: seq<Mod>, id: string) {
    var i := DiffContext.IndexOf(mods, id);
    i.Some? && mods[i.value].status.Rejected?
  }

  lemma {:induction false} HeadIsLowest(sorted: seq<Mod>)
    requires sorted != [] && MatchRebuild.SortedByStart(sorted)
    ensures forall m :: m in sorted ==> sorted[0].startLine <= m.startLine
    decreases |sorted|
  {
    if |sorted| > 1 {
      HeadIsLowest(sorted[1..]);
    }
  }

  lemma {:induction false} OwnerIsFirst(b: Block, sorted: seq<Mod>)
    ensures Owner(b, sorted).Some? <==> exists m :: m in sorted && Touches(b, m)
    ensures Owner(b, sorted).Some? ==> Owner(b, sorted).value in sorted && Touches(b, Owner(b, sorted).value)
    ensures MatchRebuild.SortedByStart(sorted) && Owner(b, sorted).Some? ==>
              forall m :: m in sorted && Touches(b, m) ==> Owner(b, sorted).value.startLine <= m.startLine
    decreases |sorted|
  {
    if sorted != [] {
      OwnerIsFirst(b, sorted[1..]);
      if MatchRebuild.SortedByStart(sorted) {
        HeadIsLowest(sorted);
      }
    }
  }

  /** Main result: a block goes to at most one modification, one with the lowest first line among those it touches;
      it stays unassigned exactly when it touches none. */
  lemma OwnerMeans(b: Block, mods: seq<Mod>)
    ensures var owner := Owner(b, ByStart(mods));
            && (owner == None <==> forall m :: m in mods && m.startLine > 0 ==> !Touches(b, m))
            && (owner.Some? ==> owner.value in mods && Touches(b, owner.value)
                                && forall m :: m in mods && m.startLine > 0 && Touches(b, m) ==> owner.value.startLine <= m.startLine)
  {
    var located, sorted := Located(mods), ByStart(mods);
    MatchRebuild.SortSorts(located);
    OwnerIsFirst(b, sorted);
    MatchRebuild.SameMembers(sorted, located);
  }

  // ---------------------------------------------------------------- the rebuilt lines

  function BlockLines(b: Block, mods: seq<Mod>): seq<string> {
    if PutBack(b, mods) then OldLines(b.ops) else NewLines(b.ops)
  }

  function RebuiltFrom(ops: seq<EditOp>, i: nat, mods: seq<Mod>): seq<string>
    requires i <= |ops|
    decreases |ops| - i
  {
    if i == |ops| then []
    else if ops[i].Context? then [ops[i].text] + RebuiltFrom(ops, i + 1, mods)
    else BlockLines(BlockAt(ops, i, RunEnd(ops, i)), mods) + RebuiltFrom(ops, RunEnd(ops, i), mods)
  }

  function RebuiltLines(ops: seq<EditOp>, mods: seq<Mod>): seq<string> {
    RebuiltFrom(ops, 0, mods)
  }

  function Rebuilt(original: string, ops: seq<EditOp>, mods: seq<Mod>): string {
    Join(RebuiltLines(ops, mods), Ending(original))
  }

  /** When every block is put back the lines are the old ones; when none is they are the new ones. */
  lemma {:induction false} UniformRebuild(ops: seq<EditOp>, i: nat, mods: seq<Mod>)
    requires i <= |ops|
    ensures (forall b :: b in BlocksFrom(ops, i) ==> PutBack(b, mods)) ==> RebuiltFrom(ops, i, mods) == OldLines(ops[i..])
    ensures (forall b :: b in BlocksFrom(ops, i) ==> !PutBack(b, mods)) ==> RebuiltFrom(ops, i, mods) == NewLines(ops[i..])
    decreases |ops| - i
  {
    hide PutBack;
    if i < |ops| {
      if ops[i].Context? {
        assert ops[i..][1..] == ops[i + 1..];
        UniformRebuild(ops, i + 1, mods);
      } else {
        var n := RunEnd(ops, i);
        assert BlockAt(ops, i, n) in BlocksFrom(ops, i);
        UniformRebuild(ops, n, mods);
        assert ops[i..] == ops[i..n] + ops[n..];
        OldLinesAppend(ops[i..n], ops[n..]);
        NewLinesAppend(ops[i..n], ops[n..]);
      }
    }
  }

  /** Main result: with nothing rejected the rebuild is the new text, line for line. The text itself comes back exactly
      when it uses no other line ending than the original. */
  lemma NothingRejectedKeepsNew(original: string, preApplied: string, ops: seq<EditOp>, mods: seq<Mod>)
    requires NewLines(ops) == Split(preApplied)
    requires forall m :: m in mods ==> !m.status.Rejected?
    ensures RebuiltLines(ops, mods) == Split(preApplied)
    ensures Rebuilt(original, ops, mods) == preApplied <==>
            if HasCrlf(original) then !HasBareLf(preApplied) else !HasCrlf(preApplied)
  {
    assert ops[0..] == ops;
    UniformRebuild(ops, 0, mods);
    JoinGivesBack(preApplied, Ending(original));
  }

  predicate TouchesOne(b: Block, mods: seq<Mod>) {
    exists m :: m in mods && m.startLine > 0 && Touches(b, m)
  }

  predicate RemovesLines(b: Block) {
    exists op :: op in b.ops && op.Remove?
  }

  /** When every modification is rejected a block is put back exactly when it touches one. */
  lemma PutBackWhenTouching(b: Block, mods: seq<Mod>)
    requires forall m :: m in mods ==> m.status.Rejected? && m.id != ""
    ensures PutBack(b, mods) <==> TouchesOne(b, mods)
  {
    hide Touches, ByStart, Owner;
    OwnerMeans(b, mods);
    var owner := Owner(b, ByStart(mods));
    if owner.Some? {
      KnownIsRejected(mods, owner.value);
    }
  }

  lemma KnownIsRejected(mods: seq<Mod>, m: Mod)
    requires m in mods && forall x :: x in mods ==> x.status.Rejected?
    ensures IsRejected(mods, m.id)
  {
  }

  lemma {:induction false} AddsOnly(ops: seq<EditOp>)
    requires forall op :: op in ops ==> op.Add?
    ensures OldLines(ops) == [] && |NewLines(ops)| == |ops|
    decreases |ops|
  {
    if ops != [] {
      AddsOnly(ops[1..]);
    }
  }

  /** A block that is kept although it only adds makes the result longer than the original. */
  lemma {:induction false} KeptInsertionsShow(ops: seq<EditOp>, i: nat, mods: seq<Mod>)
    requires i <= |ops|
    requires forall b :: b in BlocksFrom(ops, i) && !PutBack(b, mods) ==> !RemovesLines(b)
    ensures |RebuiltFrom(ops, i, mods)| >= |OldLines(ops[i..])|
    ensures (exists b :: b in BlocksFrom(ops, i) && !PutBack(b, mods)) ==> |RebuiltFrom(ops, i, mods)| > |OldLines(ops[i..])|
    decreases |ops| - i
  {
    hide PutBack, RemovesLines;
    if i < |ops| {
      if ops[i].Context? {
        assert ops[i..][1..] == ops[i + 1..];
        KeptInsertionsShow(ops, i + 1, mods);
      } else {
        var n := RunEnd(ops, i);
        var b := BlockAt(ops, i, n);
        assert b in BlocksFrom(ops, i) && BlocksFrom(ops, i) == [b] + BlocksFrom(ops, n);
        KeptInsertionsShow(ops, n, mods);
        assert ops[i..] == ops[i..n] + ops[n..];
        OldLinesAppend(ops[i..n], ops[n..]);
        if !PutBack(b, mods) {
          InsertionOnly(ops, i, n);
        }
      }
    }
  }

  lemma InsertionOnly(ops: seq<EditOp>, i: nat, n: nat)
    requires i < n <= |ops| && (forall k :: i <= k < n ==> !ops[k].Context?) && !RemovesLines(BlockAt(ops, i, n))
    ensures OldLines(ops[i..n]) == [] && |NewLines(BlockAt(ops, i, n).ops)| > 0
  {
    var run := ops[i..n];
    forall op | op in run ensures op.Add? {
      var k :| 0 <= k < |run| && run[k] == op;
      assert ops[i + k] == op;
    }
    AddsOnly(run);
  }

  /** Main result: when every modification is rejected and every block that removes lines touches one, the lines of
      the original come back if and only if every block touches one; the text then does exactly for uniform endings. */
  lemma AllRejectedRestoresOld(original: string, ops: seq<EditOp>, mods: seq<Mod>)
    requires OldLines(ops) == Split(original)
    requires forall m :: m in mods ==> m.status.Rejected? && m.id != ""
    requires forall b :: b in BlocksFrom(ops, 0) && RemovesLines(b) ==> TouchesOne(b, mods)
    ensures RebuiltLines(ops, mods) == Split(original) <==> forall b :: b in BlocksFrom(ops, 0) ==> TouchesOne(b, mods)
    ensures RebuiltLines(ops, mods) == Split(original) ==> (Rebuilt(original, ops, mods) == original <==> UniformEndings(original))
  {
    hide PutBack, TouchesOne, RemovesLines;
    assert ops[0..] == ops;
    forall b | b in BlocksFrom(ops, 0) ensures PutBack(b, mods) <==> TouchesOne(b, mods) {
      PutBackWhenTouching(b, mods);
    }
    UniformRebuild(ops, 0, mods);
    KeptInsertionsShow(ops, 0, mods);
    SplitJoinRoundTrip(original);
  }

  /** Why a block has to touch a modification: lines that are only added count as a change of the first line, so a
      rejected insertion further down stays in the text. The second modification was not placed, which is what sends
      the rebuild down this path at all. */
  lemma InsertionSurvivesRejection()
    ensures var ops := [Context("a"), Context("b"), Add("x")];
            var m := Mod("m", Insert, Some("x"), true, 2, 2, Status.Rejected, None);
            var f := Mod("f", Replace, Some("y"), false, 0, 0, Status.Rejected, None);
            && !AllPlaced([m, f])
            && RebuiltLines(ops, [m, f]) == ["a", "b", "x"] && OldLines(ops) == ["a", "b"]
            && DiffContext.RebuiltContent("a\nb", [m, f], Rebuilt("a\nb", ops, [m, f])) == "a\nb\nx"
  {
    var ops := [Context("a"), Context("b"), Add("x")];
    var m := Mod("m", Insert, Some("x"), true, 2, 2, Status.Rejected, None);
    var f := Mod("f", Replace, Some("y"), false, 0, 0, Status.Rejected, None);
    assert f in [m, f] && !Placed(f);
    var b := BlockAt(ops, 2, 3);
    assert b.ops == [Add("x")];
    assert Lowest([Add("x")]) == None && Highest([Add("x")]) == 0;
    OwnerMeans(b, [m, f]);
    assert !PutBack(b, [m, f]);
    assert RunEnd(ops, 2) == 3;
    assert RebuiltFrom(ops, 3, [m, f]) == [] && RebuiltFrom(ops, 2, [m, f]) == ["x"];
    assert RebuiltFrom(ops, 1, [m, f]) == ["b", "x"];
    assert ops[1..] == [Context("b"), Add("x")] && ops[1..][1..] == [Add("x")];
    ThreeLines();
  }

  lemma ThreeLines()
    ensures Join(["a", "b", "x"], Ending("a\nb")) == "a\nb\nx"
  {
    assert ["a", "b", "x"][1..] == ["b", "x"] && ["b", "x"][1..] == ["x"];
    assert !HasCrlf("a\nb");
  }

  /** A verdict reaches the text only through the blocks put back. */
  lemma {:induction false} RebuildSeesOnlyPutBack(ops: seq<EditOp>, i: nat, a: seq<Mod>, b: seq<Mod>)
    requires i <= |ops|
    requires forall c :: c in BlocksFrom(ops, i) ==> (PutBack(c, a) <==> PutBack(c, b))
    ensures RebuiltFrom(ops, i, a) == RebuiltFrom(ops, i, b)
    decreases |ops| - i
  {
    hide PutBack;
    if i < |ops| {
      if ops[i].Context? {
        RebuildSeesOnlyPutBack(ops, i + 1, a, b);
      } else {
        assert BlockAt(ops, i, RunEnd(ops, i)) in BlocksFrom(ops, i);
        RebuildSeesOnlyPutBack(ops, RunEnd(ops, i), a, b);
      }
    }
  }

  // ---------------------------------------------------------------- the loops

  lemma LowestSnoc(ops: seq<EditOp>, i: nat, k: nat)
    requires i <= k < |ops|
    ensures ops[i..k + 1] == ops[i..k] + [ops[k]]
    ensures Lowest(ops[i..k + 1]) == var here := Removed(ops[k]); var before := Lowest(ops[i..k]);
                                     if here == None then before else if before.Some? && before.value < here.value then before else here
    ensures Highest(ops[i..k + 1]) == var here := Removed(ops[k]); var before := Highest(ops[i..k]);
                                      if here.Some? && here.value > before then here.value else before
  {
    assert ops[i..k + 1][..k - i] == ops[i..k] && ops[i..k + 1][k - i] == ops[k];
  }

  /** Groups the changes into blocks, collecting the lines each removes on the way. */
  method GroupChanges(ops: seq<EditOp>) returns (blocks: seq<Block>)
    ensures blocks == BlocksFrom(ops, 0)
  {
    hide Lowest, Highest, Grouped, BlocksFrom, RunEnd;
    blocks := [];
    var i := 0;
    GroupingStarts(ops);
    while i < |ops|
      invariant i <= |ops| && Grouped(ops, i, blocks)
    {
      if ops[i].Context? {
        GroupContext(ops, i, blocks);
        i := i + 1;
        continue;
      }
      var start := i;
      var first: Option<nat> := None;
      var last := 0;
      assert ops[start..i] == [];
      EmptyRun();
      while i < |ops| && !ops[i].Context?
        invariant start <= i <= |ops|
        invariant forall k :: start <= k < i ==> !ops[k].Context?
        invariant first == Lowest(ops[start..i]) && last == Highest(ops[start..i])
      {
        LowestSnoc(ops, start, i);
        var removed := Removed(ops[i]);
        if removed.Some? {
          first := if first.Some? && first.value < removed.value then first else removed;
          last := if removed.value > last then removed.value else last;
        }
        i := i + 1;
      }
      GroupBlock(ops, start, i, blocks);
      blocks := blocks + [Block(ops[start..i], start, if first.Some? then first.value else 0, last)];
    }
    GroupingEnds(ops, blocks);
  }

  predicate Grouped(ops: seq<EditOp>, i: nat, blocks: seq<Block>) {
    i <= |ops| && BlocksFrom(ops, 0) == blocks + BlocksFrom(ops, i)
  }

  lemma GroupingStarts(ops: seq<EditOp>)
    ensures Grouped(ops, 0, [])
  {
    assert [] + BlocksFrom(ops, 0) == BlocksFrom(ops, 0);
  }

  lemma GroupContext(ops: seq<EditOp>, i: nat, blocks: seq<Block>)
    requires Grouped(ops, i, blocks) && i < |ops| && ops[i].Context?
    ensures Grouped(ops, i + 1, blocks)
  {
  }

  lemma GroupBlock(ops: seq<EditOp>, start: nat, end: nat, blocks: seq<Block>)
    requires Grouped(ops, start, blocks) && start < end <= |ops|
    requires (forall k :: start <= k < end ==> !ops[k].Context?) && (end < |ops| ==> ops[end].Context?)
    ensures Grouped(ops, end, blocks + [BlockAt(ops, start, end)])
  {
    RunEndIs(ops, start, end);
    hide BlockAt;
    var b, rest := BlockAt(ops, start, end), BlocksFrom(ops, end);
    assert BlocksFrom(ops, start) == [b] + rest;
    assert blocks + ([b] + rest) == blocks + [b] + rest;
  }

  lemma GroupingEnds(ops: seq<EditOp>, blocks: seq<Block>)
    requires Grouped(ops, |ops|, blocks)
    ensures blocks == BlocksFrom(ops, 0)
  {
    assert blocks + [] == blocks;
  }

  lemma EmptyRun()
    ensures Lowest([]) == None && Highest([]) == 0
  {
  }

  lemma {:induction false} RunEndIs(ops: seq<EditOp>, i: nat, n: nat)
    requires i <= n <= |ops| && (forall k :: i <= k < n ==> !ops[k].Context?) && (n < |ops| ==> ops[n].Context?)
    ensures RunEnd(ops, i) == n
    decreases n - i
  {
    if i < n {
      RunEndIs(ops, i + 1, n);
    }
  }

  /** One more modification takes a block only if no earlier one did. */
  lemma {:induction false} OwnerSnoc(b: Block, sorted: seq<Mod>, m: Mod)
    ensures Owner(b, sorted + [m]) == if Owner(b, sorted).Some? then Owner(b, sorted) else if Touches(b, m) then Some(m) else None
    decreases |sorted|
  {
    if sorted == [] {
      assert sorted + [m] == [m] && [m][1..] == [];
    } else {
      assert (sorted + [m])[1..] == sorted[1..] + [m];
      OwnerSnoc(b, sorted[1..], m);
    }
  }

  /** Every modification in turn takes the blocks it touches and nobody has taken. */
  method AssignBlocks(blocks: seq<Block>, mods: seq<Mod>) returns (owners: seq<Option<Mod>>)
    ensures |owners| == |blocks| && forall j :: 0 <= j < |blocks| ==> owners[j] == Owner(blocks[j], ByStart(mods))
  {
    hide Touches;
    var sorted := ByStart(mods);
    owners := seq(|blocks|, _ => None);
    var n := 0;
    while n < |sorted|
      invariant n <= |sorted| && |owners| == |blocks|
      invariant forall j :: 0 <= j < |blocks| ==> owners[j] == Owner(blocks[j], sorted[..n])
    {
      var m := sorted[n];
      assert sorted[..n + 1] == sorted[..n] + [m];
      var k := 0;
      while k < |blocks|
        invariant k <= |blocks| == |owners|
        invariant forall j :: 0 <= j < k ==> owners[j] == Owner(blocks[j], sorted[..n + 1])
        invariant forall j :: k <= j < |blocks| ==> owners[j] == Owner(blocks[j], sorted[..n])
      {
        OwnerSnoc(blocks[k], sorted[..n], m);
        if owners[k] == None && Touches(blocks[k], m) {
          owners := owners[k := Some(m)];
        }
        k := k + 1;
      }
      n := n + 1;
    }
    assert sorted[..n] == sorted;
  }

  /** Walks the script: context lines as they are, every block old or new as a whole. */
  method RebuildByMyersDiff(original: string, ops: seq<EditOp>, mods: seq<Mod>) returns (text: string)
    ensures text == Rebuilt(original, ops, mods)
  {
    hide Walked, Owner, IsRejected, OldLines, NewLines, BlocksFrom;
    var blocks := GroupChanges(ops);
    var owners := AssignBlocks(blocks, mods);
    var lines: seq<string> := [];
    var i, next := 0, 0;
    WalkStarts(ops, mods);
    while i < |ops|
      invariant i <= |ops| && next <= |blocks|
      invariant Walked(ops, mods, i, blocks[next..], lines)
    {
      if ops[i].Context? {
        WalkContext(ops, mods, i, blocks[next..], lines);
        lines := lines + [ops[i].text];
        i := i + 1;
        continue;
      }
      WalkBlock(ops, mods, i, blocks[next..], lines);
      var b := blocks[next];
      assert b == blocks[next..][0] && blocks[next..][1..] == blocks[next + 1..];
      var blockLines := if owners[next].Some? && owners[next].value.id != "" && IsRejected(mods, owners[next].value.id)
                        then OldLines(b.ops) else NewLines(b.ops);
      BlockLinesOf(b, mods);
      lines := lines + blockLines;
      i := i + |b.ops|;
      next := next + 1;
    }
    WalkEnds(ops, mods, blocks[next..], lines);
    text := Join(lines, Ending(original));
  }

  /** The walk has reached operation `i`: these blocks lie ahead, and these lines are written. */
  predicate Walked(ops: seq<EditOp>, mods: seq<Mod>, i: nat, ahead: seq<Block>, lines: seq<string>) {
    i <= |ops| && ahead == BlocksFrom(ops, i) && RebuiltLines(ops, mods) == lines + RebuiltFrom(ops, i, mods)
  }

  lemma WalkStarts(ops: seq<EditOp>, mods: seq<Mod>)
    ensures BlocksFrom(ops, 0)[0..] == BlocksFrom(ops, 0) && Walked(ops, mods, 0, BlocksFrom(ops, 0), [])
  {
    assert [] + RebuiltFrom(ops, 0, mods) == RebuiltFrom(ops, 0, mods);
  }

  lemma WalkContext(ops: seq<EditOp>, mods: seq<Mod>, i: nat, ahead: seq<Block>, lines: seq<string>)
    requires Walked(ops, mods, i, ahead, lines) && i < |ops| && ops[i].Context?
    ensures Walked(ops, mods, i + 1, ahead, lines + [ops[i].text])
  {
    hide BlockLines, RunEnd, BlockAt;
    Associate(lines, [ops[i].text], RebuiltFrom(ops, i + 1, mods));
  }

  lemma WalkBlock(ops: seq<EditOp>, mods: seq<Mod>, i: nat, ahead: seq<Block>, lines: seq<string>)
    requires Walked(ops, mods, i, ahead, lines) && i < |ops| && !ops[i].Context?
    ensures ahead != [] && |ahead[0].ops| > 0 && i + |ahead[0].ops| <= |ops|
    ensures Walked(ops, mods, i + |ahead[0].ops|, ahead[1..], lines + BlockLines(ahead[0], mods))
  {
    hide BlockLines;
    BlockExtent(ops, i);
    var b := BlockAt(ops, i, RunEnd(ops, i));
    var rest := RebuiltFrom(ops, RunEnd(ops, i), mods);
    assert ahead == [b] + BlocksFrom(ops, RunEnd(ops, i)) && ahead[1..] == BlocksFrom(ops, RunEnd(ops, i));
    Associate(lines, BlockLines(b, mods), rest);
  }

  lemma WalkEnds(ops: seq<EditOp>, mods: seq<Mod>, ahead: seq<Block>, lines: seq<string>)
    requires Walked(ops, mods, |ops|, ahead, lines)
    ensures RebuiltLines(ops, mods) == lines
  {
    assert lines + [] == lines;
  }

  lemma BlockLinesOf(b: Block, mods: seq<Mod>)
    ensures var owner := Owner(b, ByStart(mods));
            BlockLines(b, mods) == if owner.Some? && owner.value.id != "" && IsRejected(mods, owner.value.id)
                                   then OldLines(b.ops) else NewLines(b.ops)
  {
    hide Owner, IsRejected;
  }

  lemma BlockExtent(ops: seq<EditOp>, i: nat)
    requires i < |ops| && !ops[i].Context?
    ensures i + |BlockAt(ops, i, RunEnd(ops, i)).ops| == RunEnd(ops, i)
  {
  }

  /** The matched-range path when every block was placed, the edit script otherwise. */
  method RebuildContentByDiff(original: string, script: seq<EditOp>, mods: seq<Mod>) returns (text: string)
    ensures text == DiffContext.RebuiltContent(original, mods, Rebuilt(original, script, mods))
  {
    hide MatchRebuild.Rebuilt, Rebuilt;
    if AllPlaced(mods) {
      text := MatchRebuild.RebuildByMatchResult(original, mods);
    } else {
      text := RebuildByMyersDiff(original, script, mods);
    }
  }
}

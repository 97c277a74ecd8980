/** What the edit-script rebuild means, told from the line numbers in the script and the ranges of the modifications: which
lines a block of changes spans, which modification decides about it, and that a file given piece by piece comes out as it
does from the rebuild by line ranges. */
module MyersLaws {
  import opened Lines
  import opened Modifications
  import opened MyersRebuild
  import opened RebuildLaws
  import DiffContext
  import MatchRebuild

  // ---------------------------------------------------------------- the lines a block spans

  predicate Removes(op: EditOp, k: nat) {
    op.Remove? && op.oldIdx == Some(k)
  }

  /** `lo` and `hi` are the lowest and the highest of the lines removed. */
  ghost predicate Spans(ops: seq<EditOp>, lo: nat, hi: nat) {
    && (forall op, k: nat :: op in ops && Removes(op, k) ==> lo <= k <= hi)
    && (exists op :: op in ops && Removes(op, lo))
    && (exists op :: op in ops && Removes(op, hi))
  }

  lemma {:induction false} LowestIs(ops: seq<EditOp>)
    ensures Lowest(ops) == None ==> forall op, k: nat :: op in ops ==> !Removes(op, k)
    ensures Lowest(ops).Some? ==> (exists op :: op in ops && Removes(op, Lowest(ops).value))
                                  && forall op, k: nat :: op in ops && Removes(op, k) ==> Lowest(ops).value <= k
    decreases |ops|
  {
    if ops != [] {
      var before, last := ops[..|ops| - 1], ops[|ops| - 1];
      LowestIs(before);
      assert forall op :: op in ops <==> op in before || op == last;
      if Lowest(ops).Some? && Lowest(ops) != Lowest(before) {
        assert Removes(last, Lowest(ops).value);
      }
    }
  }

  lemma {:induction false} HighestIs(ops: seq<EditOp>)
    ensures forall op, k: nat :: op in ops && Removes(op, k) ==> k <= Highest(ops)
    ensures Highest(ops) == 0 || exists op :: op in ops && Removes(op, Highest(ops))
    decreases |ops|
  {
    if ops != [] {
      var before, last := ops[..|ops| - 1], ops[|ops| - 1];
      HighestIs(before);
      assert forall op :: op in ops <==> op in before || op == last;
      if Highest(ops) != Highest(before) {
        assert Removes(last, Highest(ops));
      }
    }
  }

  /** Main result: a block that removes lines spans from the lowest to the highest of them, and any other spans the first. */
  lemma BlockSpans(ops: seq<EditOp>, b: Block)
    requires b in BlocksFrom(ops, 0)
    ensures (exists op, k: nat :: op in b.ops && Removes(op, k)) ==> Spans(b.ops, b.firstLine, b.lastLine)
    ensures !(exists op, k: nat :: op in b.ops && Removes(op, k)) ==> b.firstLine == 0 && b.lastLine == 0
  {
    BlockIsBuilt(ops, 0, b);
    LowestIs(b.ops);
    HighestIs(b.ops);
    if op, k: nat :| op in b.ops && Removes(op, k) {
      if Highest(b.ops) == 0 {
        assert Removes(op, Highest(b.ops));
      }
    }
  }

  lemma {:induction false} BlockIsBuilt(ops: seq<EditOp>, i: nat, b: Block)
    requires i <= |ops| && b in BlocksFrom(ops, i)
    ensures b.firstLine == (if Lowest(b.ops).Some? then Lowest(b.ops).value else 0) && b.lastLine == Highest(b.ops)
    decreases |ops| - i
  {
    if ops[i].Context? {
      BlockIsBuilt(ops, i + 1, b);
    } else if b != BlockAt(ops, i, RunEnd(ops, i)) {
      BlockIsBuilt(ops, RunEnd(ops, i), b);
    }
  }

  // ---------------------------------------------------------------- the modification that decides

  /** Line `k`, counted from 0, lies in the range of the modification, counted from 1 with both ends included. */
  predicate HoldsLine(m: Mod, k: nat) {
    m.startLine <= k + 1 <= m.endLine
  }

  predicate Meets(m: Mod, lo: nat, hi: nat) {
    exists k :: lo <= k <= hi && HoldsLine(m, k)
  }

  lemma TouchesWhen(b: Block, m: Mod)
    requires m.startLine > 0
    ensures Touches(b, m) <==> Meets(m, b.firstLine, b.lastLine)
  {
    if Touches(b, m) {
      var k := if b.firstLine < m.startLine - 1 then m.startLine - 1 else b.firstLine;
      assert HoldsLine(m, k);
    }
  }

  predicate DistinctIds(mods: seq<Mod>) {
    && (forall m :: m in mods ==> m.id != "")
    && forall i, j :: 0 <= i < j < |mods| ==> mods[i].id != mods[j].id
  }

  lemma RejectedById(mods: seq<Mod>, m: Mod)
    requires DistinctIds(mods) && m in mods
    ensures IsRejected(mods, m.id) <==> m.status == Rejected
  {
    var i :| 0 <= i < |mods| && mods[i] == m;
    var j := DiffContext.IndexOf(mods, m.id).value;
    assert mods[j].id == mods[i].id;
  }

  /** Main result: a block of changes that removes lines belongs to nobody but a modification whose range holds one of the
      lines it spans; if that is one modification only, the block is written old exactly when it is rejected. */
  lemma OneModificationDecides(b: Block, mods: seq<Mod>, m: Mod)
    requires DistinctIds(mods) && m in mods && m.startLine > 0 && Meets(m, b.firstLine, b.lastLine)
    requires forall x :: x in mods && x != m && x.startLine > 0 ==> !Meets(x, b.firstLine, b.lastLine)
    ensures Owner(b, ByStart(mods)) == Some(m)
    ensures BlockLines(b, mods) == if m.status == Rejected then OldLines(b.ops) else NewLines(b.ops)
  {
    hide Touches, ByStart, Owner, Meets, OldLines, NewLines;
    OwnerMeans(b, mods);
    forall x | x in mods && x.startLine > 0 ensures Touches(b, x) <==> Meets(x, b.firstLine, b.lastLine) {
      TouchesWhen(b, x);
    }
    OwnerIsLocated(b, mods);
    RejectedById(mods, m);
  }

  lemma OwnerIsLocated(b: Block, mods: seq<Mod>)
    ensures var owner := Owner(b, ByStart(mods)); owner.Some? ==> owner.value in mods && owner.value.startLine > 0
  {
    var sorted := ByStart(mods);
    OwnerIsFirst(b, sorted);
    MatchRebuild.SortSorts(Located(mods));
    MatchRebuild.SameMembers(sorted, Located(mods));
  }

  lemma NobodyDecides(b: Block, mods: seq<Mod>)
    requires forall x :: x in mods && x.startLine > 0 ==> !Meets(x, b.firstLine, b.lastLine)
    ensures BlockLines(b, mods) == NewLines(b.ops)
  {
    hide Touches, ByStart, Owner, Meets, OldLines, NewLines;
    OwnerIsLocated(b, mods);
    OwnerMeans(b, mods);
    forall x | x in mods && x.startLine > 0 ensures Touches(b, x) <==> Meets(x, b.firstLine, b.lastLine) {
      TouchesWhen(b, x);
    }
  }

  // ---------------------------------------------------------------- a file given piece by piece

  function Contexts(lines: seq<string>): seq<EditOp> {
    if lines == [] then [] else [Context(lines[0])] + Contexts(lines[1..])
  }

  function Removals(lines: seq<string>, offset: nat): seq<EditOp> {
    if lines == [] then [] else [Remove(lines[0], Some(offset))] + Removals(lines[1..], offset + 1)
  }

  function Additions(lines: seq<string>): seq<EditOp> {
    if lines == [] then [] else [Add(lines[0])] + Additions(lines[1..])
  }

  function Put(p: Piece): seq<string>
    requires p.Change?
  {
    if p.operation == Delete then [] else p.now
  }

  function OpsOf(p: Piece, offset: nat): seq<EditOp> {
    match p
    case Stay(lines) => Contexts(lines)
    case Change(was, _, _, _, _, _) => Removals(was, offset) + Additions(Put(p))
  }

  /** The script that makes all changes. */
  function Script(pieces: seq<Piece>, offset: nat): seq<EditOp> {
    if pieces == [] then [] else OpsOf(pieces[0], offset) + Script(pieces[1..], offset + Width(pieces[0]))
  }

  /** Every change replaces some line, and lines that stay lie between two changes. */
  predicate Spaced(pieces: seq<Piece>) {
    pieces != [] ==>
      && Spaced(pieces[1..])
      && (pieces[0].Change? ==> pieces[0].was != [] && (|pieces| > 1 ==> pieces[1].Stay? && pieces[1].lines != []))
  }

  /** The modifications still ahead are the blocks of these pieces; the others end before them or were not placed. */
  predicate Ahead(mods: seq<Mod>, pieces: seq<Piece>, offset: nat) {
    && (forall m :: m in Blocks(pieces, offset) ==> m in mods)
    && forall m :: m in mods && m.startLine > 0 ==> m in Blocks(pieces, offset) || m.endLine <= offset
  }

  lemma {:induction false} RemovalsAre(lines: seq<string>, offset: nat)
    ensures var ops := Removals(lines, offset);
            && |ops| == |lines| && (forall i :: 0 <= i < |ops| ==> ops[i] == Remove(lines[i], Some(offset + i)))
            && OldLines(ops) == lines && NewLines(ops) == []
    decreases |lines|
  {
    if lines != [] {
      RemovalsAre(lines[1..], offset + 1);
    }
  }

  lemma {:induction false} AdditionsAre(lines: seq<string>)
    ensures var ops := Additions(lines);
            && |ops| == |lines| && (forall i :: 0 <= i < |ops| ==> ops[i] == Add(lines[i]))
            && OldLines(ops) == [] && NewLines(ops) == lines
    decreases |lines|
  {
    if lines != [] {
      AdditionsAre(lines[1..]);
    }
  }

  /** The block of one change. */
  lemma ChangeOps(p: Piece, offset: nat)
    requires p.Change? && p.was != []
    ensures var ops := OpsOf(p, offset);
            && |ops| == |p.was| + |Put(p)| && (forall i :: 0 <= i < |ops| ==> !ops[i].Context?)
            && OldLines(ops) == p.was && NewLines(ops) == Put(p)
            && Spans(ops, offset, offset + |p.was| - 1)
  {
    hide OldLines, NewLines, Put;
    var removed, added := Removals(p.was, offset), Additions(Put(p));
    RemovalsAre(p.was, offset);
    AdditionsAre(Put(p));
    OldLinesAppend(removed, added);
    NewLinesAppend(removed, added);
    var ops := removed + added;
    assert ops[0] == removed[0] && ops[|p.was| - 1] == removed[|p.was| - 1];
    assert forall i :: 0 <= i < |ops| ==> ops[i] == if i < |removed| then removed[i] else added[i - |removed|];
    assert Removes(ops[0], offset) && Removes(ops[|p.was| - 1], offset + |p.was| - 1);
    forall op, k: nat | op in ops && Removes(op, k) ensures offset <= k <= offset + |p.was| - 1 {
      var i :| 0 <= i < |ops| && ops[i] == op;
    }
  }

  lemma {:induction false} BlocksAheadStart(pieces: seq<Piece>, offset: nat)
    ensures forall m :: m in Blocks(pieces, offset) ==> m.startLine > offset
    decreases |pieces|
  {
    if pieces != [] {
      BlocksAheadStart(pieces[1..], offset + Width(pieces[0]));
    }
  }

  lemma SpansUnique(ops: seq<EditOp>, lo: nat, hi: nat, lo': nat, hi': nat)
    requires Spans(ops, lo, hi) && Spans(ops, lo', hi')
    ensures lo == lo' && hi == hi'
  {
  }

  /** The block of a change is decided by the change's own modification. */
  lemma ChangeIsDecided(mods: seq<Mod>, pieces: seq<Piece>, offset: nat, b: Block)
    requires DistinctIds(mods) && Ahead(mods, pieces, offset) && pieces != [] && pieces[0].Change? && pieces[0].was != []
    requires b.ops == OpsOf(pieces[0], offset) && b.firstLine == offset && b.lastLine == offset + |pieces[0].was| - 1
    ensures BlockLines(b, mods) == Verdict(pieces[0])
  {
    hide DistinctIds, BlockLines, Spans, Put, Owner;
    var p, next := pieces[0], offset + |pieces[0].was|;
    var m := BlockOf(p, offset);
    ChangeOps(p, offset);
    assert Blocks(pieces, offset) == [m] + Blocks(pieces[1..], next);
    assert m in Blocks(pieces, offset) && HoldsLine(m, offset);
    assert Meets(m, b.firstLine, b.lastLine);
    BlocksAheadStart(pieces[1..], next);
    forall x | x in mods && x != m && x.startLine > 0 ensures !Meets(x, b.firstLine, b.lastLine) {
      assert x in Blocks(pieces, offset) || x.endLine <= offset;
    }
    OneModificationDecides(b, mods, m);
    VerdictOf(p, offset);
  }

  lemma VerdictOf(p: Piece, offset: nat)
    requires p.Change?
    ensures Verdict(p) == if BlockOf(p, offset).status == Rejected then p.was else Put(p)
  {
    hide Join;
  }

  // ---------------------------------------------------------------- the walk over the pieces

  lemma AheadStays(mods: seq<Mod>, pieces: seq<Piece>, offset: nat)
    requires Ahead(mods, pieces, offset) && pieces != []
    ensures Ahead(mods, pieces[1..], offset + Width(pieces[0]))
  {
    var p, rest := pieces[0], Blocks(pieces[1..], offset + Width(pieces[0]));
    assert Blocks(pieces, offset) == (if p.Change? then [BlockOf(p, offset)] else []) + rest;
  }

  /** Lines that stay are written one by one. */
  lemma {:induction false} ContextsWritten(ops: seq<EditOp>, i: nat, lines: seq<string>, mods: seq<Mod>)
    requires i + |lines| <= |ops| && forall k :: 0 <= k < |lines| ==> ops[i + k] == Context(lines[k])
    ensures RebuiltFrom(ops, i, mods) == lines + RebuiltFrom(ops, i + |lines|, mods)
    decreases |lines|
  {
    hide RebuiltFrom;
    if lines != [] {
      assert ops[i + 0] == Context(lines[0]);
      forall k | 0 <= k < |lines[1..]| ensures ops[i + 1 + k] == Context(lines[1..][k]) {
        assert ops[i + (k + 1)] == Context(lines[k + 1]);
      }
      ContextsWritten(ops, i + 1, lines[1..], mods);
      OneContext(ops, i, lines[0], mods);
      InFront(lines, RebuiltFrom(ops, i, mods), RebuiltFrom(ops, i + 1, mods), RebuiltFrom(ops, i + |lines|, mods));
    }
  }

  lemma InFront(lines: seq<string>, a: seq<string>, b: seq<string>, c: seq<string>)
    requires lines != [] && a == [lines[0]] + b && b == lines[1..] + c
    ensures a == lines + c
  {
  }

  lemma OneContext(ops: seq<EditOp>, i: nat, line: string, mods: seq<Mod>)
    requires i < |ops| && ops[i] == Context(line)
    ensures RebuiltFrom(ops, i, mods) == [line] + RebuiltFrom(ops, i + 1, mods)
  {
    hide BlockLines, RunEnd, BlockAt;
  }

  lemma {:induction false} ContextsAre(lines: seq<string>)
    ensures |Contexts(lines)| == |lines| && forall i :: 0 <= i < |lines| ==> Contexts(lines)[i] == Context(lines[i])
  {
    if lines != [] {
      ContextsAre(lines[1..]);
    }
  }

  /** The change at `i` is one block. */
  lemma ChangeWritten(ops: seq<EditOp>, i: nat, mods: seq<Mod>, pieces: seq<Piece>, offset: nat)
    requires DistinctIds(mods) && Ahead(mods, pieces, offset) && pieces != [] && pieces[0].Change? && pieces[0].was != []
    requires i <= |ops| && ops[i..] == OpsOf(pieces[0], offset) + Script(pieces[1..], offset + Width(pieces[0]))
    requires Script(pieces[1..], offset + Width(pieces[0])) != [] ==> Script(pieces[1..], offset + Width(pieces[0]))[0].Context?
    ensures var n := i + |OpsOf(pieces[0], offset)|;
            n <= |ops| && ops[n..] == Script(pieces[1..], offset + Width(pieces[0]))
            && RebuiltFrom(ops, i, mods) == Verdict(pieces[0]) + RebuiltFrom(ops, n, mods)
  {
    hide DistinctIds, Ahead, Script, OpsOf, BlockLines, Verdict, OldLines, NewLines, RebuiltFrom;
    var p := pieces[0];
    var change, rest := OpsOf(p, offset), Script(pieces[1..], offset + Width(p));
    ChangeOps(p, offset);
    var n := i + |change|;
    TailOf(ops, i, change, rest);
    RunIsChange(ops, i, change, rest);
    var b := BlockAt(ops, i, n);
    OneBlock(ops, i, n, mods, offset, offset + |p.was| - 1);
    ChangeIsDecided(mods, pieces, offset, b);
  }

  lemma RunIsChange(ops: seq<EditOp>, i: nat, change: seq<EditOp>, rest: seq<EditOp>)
    requires i + |change| <= |ops| && ops[i..i + |change|] == change && ops[i + |change|..] == rest
    requires (forall k :: 0 <= k < |change| ==> !change[k].Context?) && (rest != [] ==> rest[0].Context?)
    ensures RunEnd(ops, i) == i + |change|
  {
    var n := i + |change|;
    forall k | i <= k < n ensures !ops[k].Context? {
      assert ops[i..n][k - i] == ops[k];
    }
    assert n < |ops| ==> ops[n..][0] == ops[n];
    RunEndIs(ops, i, n);
  }

  lemma OneBlock(ops: seq<EditOp>, i: nat, n: nat, mods: seq<Mod>, lo: nat, hi: nat)
    requires i < n <= |ops| && RunEnd(ops, i) == n && !ops[i].Context? && Spans(ops[i..n], lo, hi)
    ensures var b := BlockAt(ops, i, n);
            && b.ops == ops[i..n] && b.firstLine == lo && b.lastLine == hi
            && RebuiltFrom(ops, i, mods) == BlockLines(b, mods) + RebuiltFrom(ops, n, mods)
  {
    hide BlockLines, Lowest, Highest, Spans;
    SpanOfRun(BlockAt(ops, i, n), lo, hi);
  }

  lemma SpanOfRun(b: Block, lo: nat, hi: nat)
    requires b.firstLine == (if Lowest(b.ops).Some? then Lowest(b.ops).value else 0) && b.lastLine == Highest(b.ops)
    requires Spans(b.ops, lo, hi)
    ensures b.firstLine == lo && b.lastLine == hi
  {
    LowestIs(b.ops);
    HighestIs(b.ops);
  }

  /** The lines that stay behind a change keep the next change apart from it. */
  lemma StaysBetween(pieces: seq<Piece>, offset: nat)
    requires Spaced(pieces) && pieces != [] && pieces[0].Change?
    ensures var rest := Script(pieces[1..], offset); rest != [] ==> rest[0].Context?
  {
    if |pieces| > 1 {
      ContextsAre(pieces[1].lines);
    }
  }

  lemma StayWritten(ops: seq<EditOp>, i: nat, mods: seq<Mod>, p: Piece, offset: nat, rest: seq<EditOp>)
    requires p.Stay? && i <= |ops| && ops[i..] == OpsOf(p, offset) + rest
    ensures var n := i + |OpsOf(p, offset)|;
            n <= |ops| && ops[n..] == rest && RebuiltFrom(ops, i, mods) == Verdict(p) + RebuiltFrom(ops, n, mods)
  {
    hide RebuiltFrom, OpsOf;
    StayOps(p, offset);
    TailOf(ops, i, OpsOf(p, offset), rest);
    ContextsAre(p.lines);
    forall k | 0 <= k < |p.lines| ensures ops[i + k] == Context(p.lines[k]) {
      assert ops[i..i + |p.lines|][k] == ops[i + k];
    }
    ContextsWritten(ops, i, p.lines, mods);
  }

  lemma PieceWritten(ops: seq<EditOp>, i: nat, mods: seq<Mod>, pieces: seq<Piece>, offset: nat)
    requires DistinctIds(mods) && Ahead(mods, pieces, offset) && Spaced(pieces) && pieces != []
    requires i <= |ops| && ops[i..] == Script(pieces, offset)
    ensures var n, next := i + |OpsOf(pieces[0], offset)|, offset + Width(pieces[0]);
            && n <= |ops| && ops[n..] == Script(pieces[1..], next)
            && RebuiltFrom(ops, i, mods) == Verdict(pieces[0]) + RebuiltFrom(ops, n, mods)
  {
    hide DistinctIds, Ahead, RebuiltFrom, Verdict, OpsOf, Script, Spaced;
    var p, next := pieces[0], offset + Width(pieces[0]);
    PiecesSplit(pieces, offset);
    if p.Stay? {
      StayWritten(ops, i, mods, p, offset, Script(pieces[1..], next));
    } else {
      StaysBetween(pieces, next);
      ChangeWritten(ops, i, mods, pieces, offset);
    }
  }

  lemma {:induction false} WalkWrites(ops: seq<EditOp>, i: nat, mods: seq<Mod>, pieces: seq<Piece>, offset: nat)
    requires DistinctIds(mods) && Ahead(mods, pieces, offset) && Spaced(pieces)
    requires i <= |ops| && ops[i..] == Script(pieces, offset)
    ensures RebuiltFrom(ops, i, mods) == Under(pieces)
    decreases |pieces|
  {
    hide DistinctIds, Ahead, RebuiltFrom, Verdict, OpsOf, Script, Spaced, Under, Width;
    if pieces == [] {
      NothingLeft(ops, i, mods, offset);
    } else {
      AheadStays(mods, pieces, offset);
      PieceWritten(ops, i, mods, pieces, offset);
      PiecesSplit(pieces, offset);
      WalkWrites(ops, i + |OpsOf(pieces[0], offset)|, mods, pieces[1..], offset + Width(pieces[0]));
    }
  }

  lemma NothingLeft(ops: seq<EditOp>, i: nat, mods: seq<Mod>, offset: nat)
    requires i <= |ops| && ops[i..] == Script([], offset)
    ensures RebuiltFrom(ops, i, mods) == Under([])
  {
    assert i == |ops|;
  }

  lemma PiecesSplit(pieces: seq<Piece>, offset: nat)
    requires pieces != [] && Spaced(pieces)
    ensures Script(pieces, offset) == OpsOf(pieces[0], offset) + Script(pieces[1..], offset + Width(pieces[0]))
    ensures Under(pieces) == Verdict(pieces[0]) + Under(pieces[1..])
    ensures Spaced(pieces[1..]) && (pieces[0].Change? ==> pieces[0].was != [])
  {
  }

  lemma StayOps(p: Piece, offset: nat)
    requires p.Stay?
    ensures OpsOf(p, offset) == Contexts(p.lines) && |OpsOf(p, offset)| == |p.lines| && Verdict(p) == p.lines
  {
    ContextsAre(p.lines);
  }

  lemma TailOf<T>(s: seq<T>, i: nat, a: seq<T>, rest: seq<T>)
    requires i <= |s| && s[i..] == a + rest
    ensures i + |a| <= |s| && s[i..i + |a|] == a && s[i + |a|..] == rest
  {
    assert s[i..][..|a|] == a && s[i..][|a|..] == rest;
    assert s[i..][..|a|] == s[i..i + |a|] && s[i..][|a|..] == s[i + |a|..];
  }

  /** Main result: for changes that replace lines and lie apart the edit script gives the file under the verdicts, block by
      block the old lines or the new ones, however many modifications were not placed. */
  lemma ScriptIsThePieces(pieces: seq<Piece>, unplaced: seq<Mod>)
    requires Spaced(pieces) && DistinctIds(Blocks(pieces, 0) + unplaced) && forall m :: m in unplaced ==> m.startLine <= 0
    ensures MyersRebuild.RebuiltLines(Script(pieces, 0), Blocks(pieces, 0) + unplaced) == Under(pieces)
  {
    var ops, mods := Script(pieces, 0), Blocks(pieces, 0) + unplaced;
    assert ops[0..] == ops;
    assert Ahead(mods, pieces, 0);
    WalkWrites(ops, 0, mods, pieces, 0);
  }

  /** Main result: so both ways to rebuild a file agree, the line ranges where all blocks were placed and the edit script where
      some were not. */
  lemma BothRebuildsAgree(pieces: seq<Piece>, unplaced: seq<Mod>, ending: string)
    requires Spaced(pieces) && DistinctIds(Blocks(pieces, 0) + unplaced) && forall m :: m in unplaced ==> m.startLine <= 0
    requires forall p :: p in pieces ==> IsPiece(p)
    requires Before(pieces) != [] && (ending == LF || (ending == CRLF && |Before(pieces)| > 1))
    ensures var original := Join(Before(pieces), ending);
            MyersRebuild.Rebuilt(original, Script(pieces, 0), Blocks(pieces, 0) + unplaced) ==
            MatchRebuild.Rebuilt(original, Blocks(pieces, 0)) == Join(Under(pieces), ending)
  {
    hide MyersRebuild.RebuiltLines, MatchRebuild.Rebuilt;
    ScriptIsThePieces(pieces, unplaced);
    RebuildIsThePieces(pieces, ending);
    BeforeAreLines(pieces);
    EndingOfJoined(Before(pieces), ending);
  }

  // ---------------------------------------------------------------- which rebuild, which verdict

  /** One block that was not matched, or has no first line, sends the whole file to the edit script. */
  lemma UnplacedSendsToScript(original: string, mods: seq<Mod>, fallback: string)
    ensures (exists m :: m in mods && (!m.matched || m.startLine <= 0)) ==> DiffContext.RebuiltContent(original, mods, fallback) == fallback
    ensures (forall m :: m in mods ==> m.matched && m.startLine > 0) ==>
              DiffContext.RebuiltContent(original, mods, fallback) == MatchRebuild.Rebuilt(original, mods)
  {
    hide MatchRebuild.Rebuilt;
    if m :| m in mods && (!m.matched || m.startLine <= 0) {
      assert !Placed(m);
    }
  }

  /** A block is judged by the first modification with the id of its owner; an owner without an id leaves it as it is. */
  lemma FirstWithTheIdDecides(b: Block, mods: seq<Mod>, i: nat)
    requires Owner(b, ByStart(mods)).Some? && i < |mods| && mods[i].id == Owner(b, ByStart(mods)).value.id
    requires forall j :: 0 <= j < i ==> mods[j].id != mods[i].id
    ensures BlockLines(b, mods) == if mods[i].id != "" && mods[i].status == Rejected then OldLines(b.ops) else NewLines(b.ops)
  {
    hide Owner, ByStart, OldLines, NewLines;
    FirstIndex(mods, i);
  }

  lemma {:induction false} FirstIndex(mods: seq<Mod>, i: nat)
    requires i < |mods| && forall j :: 0 <= j < i ==> mods[j].id != mods[i].id
    ensures DiffContext.IndexOf(mods, mods[i].id) == Some(i)
    decreases i
  {
    if i > 0 {
      assert mods[0].id != mods[i].id;
      FirstIndex(mods[1..], i - 1);
    }
  }
}

/** What rebuilding by line ranges means for a file given piece by piece: lines that stay, and changes with their verdicts.
The rebuilt text is the pieces written out again, each change old or new, with the line ending of the file. */
module RebuildLaws {
  import opened Lines
  import opened Modifications
  import opened MatchRebuild

  /** A stretch of lines that stay, or a change: the lines it replaces, those it puts in their place (none for a change
      without replacement text), the line ending of its replacement text, and the rest of its block. */
  datatype Piece =
    | Stay(lines: seq<string>)
    | Change(was: seq<string>, now: seq<string>, ending: string, id: string, operation: Operation, status: Status)

  /** A line holds no line feed, and no carriage return where the next line feed would claim it. */
  predicate IsLine(line: string) {
    '\n' !in line && (line != "" ==> line[|line| - 1] != '\r')
  }

  predicate AreLines(lines: seq<string>) {
    forall l :: l in lines ==> IsLine(l)
  }

  predicate IsPiece(p: Piece) {
    match p
    case Stay(lines) => AreLines(lines)
    case Change(was, now, ending, _, _, _) => AreLines(was) && AreLines(now) && (ending == LF || ending == CRLF)
  }

  /** The replacement text of a change is read back as its lines. */
  predicate ReadsBack(p: Piece) {
    p.Change? && p.now != [] ==> Split(Join(p.now, p.ending)) == p.now
  }

  /** The file before the changes. */
  function Before(pieces: seq<Piece>): seq<string> {
    if pieces == [] then []
    else (match pieces[0] case Stay(lines) => lines case Change(was, _, _, _, _, _) => was) + Before(pieces[1..])
  }

  /** The file under the verdicts: a rejected change leaves its old lines, a deletion none, any other its new ones. */
  function Verdict(p: Piece): seq<string> {
    match p
    case Stay(lines) => lines
    case Change(was, now, _, _, operation, status) => if status == Rejected then was else if operation == Delete then [] else now
  }

  function Under(pieces: seq<Piece>): seq<string> {
    if pieces == [] then [] else Verdict(pieces[0]) + Under(pieces[1..])
  }

  /** The review block of a change that stands behind `offset` lines. */
  function BlockOf(p: Piece, offset: nat): Mod
    requires p.Change?
  {
    Mod(p.id, p.operation, if p.now == [] then None else Some(Join(p.now, p.ending)), true, offset + 1, offset + |p.was|, p.status, None)
  }

  function Width(p: Piece): nat {
    match p case Stay(lines) => |lines| case Change(was, _, _, _, _, _) => |was|
  }

  function Blocks(pieces: seq<Piece>, offset: nat): seq<Mod>
    decreases |pieces|
  {
    if pieces == [] then []
    else (if pieces[0].Change? then [BlockOf(pieces[0], offset)] else []) + Blocks(pieces[1..], offset + Width(pieces[0]))
  }

  // ---------------------------------------------------------------- splitting what was joined

  lemma {:induction false} SplitPlain(line: string)
    requires '\n' !in line
    ensures Split(line) == [line]
  {
    if line != "" {
      assert line == [line[0]] + line[1..];
      SplitPlain(line[1..]);
    }
  }

  /** A line, its ending, and the rest. */
  lemma {:induction false} SplitLine(line: string, ending: string, rest: string)
    requires IsLine(line) && (ending == LF || ending == CRLF)
    ensures Split(line + ending + rest) == [line] + Split(rest)
    decreases |line|
  {
    var text := line + ending + rest;
    if line == "" {
      assert text == ending + rest && text[|ending|..] == rest;
    } else {
      var tail := line[1..] + ending + rest;
      assert text == [line[0]] + tail && text[1..] == tail;
      assert line == [line[0]] + line[1..];
      SplitLine(line[1..], ending, rest);
      assert |line| == 1 ==> line[0] != '\r';
      assert |line| > 1 ==> text[1] == line[1];
      assert Split(text) == [[line[0]] + Split(tail)[0]] + Split(tail)[1..];
    }
  }

  lemma {:induction false} SplitJoined(lines: seq<string>, ending: string)
    requires lines != [] && AreLines(lines) && (ending == LF || ending == CRLF)
    ensures Split(Join(lines, ending)) == lines
    decreases |lines|
  {
    assert IsLine(lines[0]) by { assert lines[0] in lines; }
    if |lines| == 1 {
      SplitPlain(lines[0]);
    } else {
      SplitLine(lines[0], ending, Join(lines[1..], ending));
      SplitJoined(lines[1..], ending);
    }
  }

  /** Joining lines with LF makes no CRLF. */
  lemma {:induction false} NoCrlfJoined(lines: seq<string>)
    requires AreLines(lines)
    ensures !HasCrlf(Join(lines, LF))
    decreases |lines|
  {
    if |lines| > 1 {
      var line, rest := lines[0], Join(lines[1..], LF);
      var text := line + LF + rest;
      assert Join(lines, LF) == text && IsLine(line);
      NoCrlfJoined(lines[1..]);
      forall i | 0 < i < |text| && text[i] == '\n' ensures text[i - 1] != '\r' {
        if i > |line| + 1 {
          assert text[i] == rest[i - |line| - 1] && text[i - 1] == rest[i - |line| - 1 - 1];
        } else if i == |line| + 1 {
          assert text[i - 1] == '\n';
        } else {
          assert i == |line| && text[i - 1] == line[|line| - 1];
        }
      }
    } else if |lines| == 1 {
      assert IsLine(lines[0]);
    }
  }

  /** The ending a file was joined with is the one found in it, once there are two lines. */
  lemma EndingOfJoined(lines: seq<string>, ending: string)
    requires AreLines(lines) && (ending == LF || (ending == CRLF && |lines| > 1))
    ensures Ending(Join(lines, ending)) == ending
  {
    if ending == LF {
      NoCrlfJoined(lines);
    } else {
      var line, text := lines[0], Join(lines, ending);
      assert text == line + CRLF + Join(lines[1..], ending);
      assert text[|line| + 1] == '\n' && text[|line| + 1 - 1] == '\r';
    }
  }

  // ---------------------------------------------------------------- the sweep over the pieces

  lemma {:induction false} BeforeAreLines(pieces: seq<Piece>)
    requires forall p :: p in pieces ==> IsPiece(p)
    ensures AreLines(Before(pieces))
  {
    if pieces != [] {
      BeforeAreLines(pieces[1..]);
      assert IsPiece(pieces[0]);
    }
  }

  lemma {:induction false} BlocksAreOrdered(pieces: seq<Piece>, offset: nat)
    ensures var mods := Blocks(pieces, offset);
            && (forall m :: m in mods ==> Placed(m) && m.startLine > offset)
            && SortedByStart(mods) && PlacedOnly(mods) == mods && SortByStart(mods) == mods
    decreases |pieces|
  {
    if pieces != [] {
      var rest := Blocks(pieces[1..], offset + Width(pieces[0]));
      BlocksAreOrdered(pieces[1..], offset + Width(pieces[0]));
      if pieces[0].Change? {
        var m := BlockOf(pieces[0], offset);
        assert Blocks(pieces, offset) == [m] + rest && ([m] + rest)[1..] == rest;
        assert rest != [] ==> rest[0] in rest;
      } else {
        assert Blocks(pieces, offset) == rest;
      }
    }
  }

  /** From any state that has copied or written everything before the pieces except the lines from the cursor on. */
  lemma {:induction false} SweepWrites(lines: seq<string>, pieces: seq<Piece>, cursor: nat, offset: nat, out: seq<string>)
    requires cursor <= offset <= |lines| && lines[offset..] == Before(pieces)
    requires forall p :: p in pieces ==> ReadsBack(p)
    ensures Finish(lines, Steps(lines, Pass(cursor, out), Blocks(pieces, offset))) == out + lines[cursor..offset] + Under(pieces)
    decreases |pieces|
  {
    hide Split, Join, Step, Finish, Verdict, Width, Blocks, Under, Before, Steps, ReadsBack;
    if pieces == [] {
      NoPieces(offset);
      SweepEnds(lines, cursor, offset, out);
    } else {
      var p, rest, next := pieces[0], pieces[1..], offset + Width(pieces[0]);
      BeforeSplits(lines, pieces, offset);
      PiecesCons(pieces, offset);
      if p.Stay? {
        SweepWrites(lines, rest, cursor, next, out);
        StayGoesOn(lines, p, cursor, offset, out, Under(rest));
      } else {
        var written := out + lines[cursor..offset] + Verdict(p);
        OneStep(lines, p, cursor, offset, out);
        StepsCons(lines, Pass(cursor, out), BlockOf(p, offset), Blocks(rest, next));
        SweepWrites(lines, rest, next, next, written);
        ChangeGoesOn(out + lines[cursor..offset], Verdict(p), lines, next, Under(rest));
      }
    }
  }

  lemma NoPieces(offset: nat)
    ensures Blocks([], offset) == [] && Under([]) == [] && Before([]) == []
  {
  }

  lemma PiecesCons(pieces: seq<Piece>, offset: nat)
    requires pieces != []
    ensures Blocks(pieces, offset) == (if pieces[0].Change? then [BlockOf(pieces[0], offset)] else []) + Blocks(pieces[1..], offset + Width(pieces[0]))
    ensures Under(pieces) == Verdict(pieces[0]) + Under(pieces[1..])
    ensures pieces[0].Stay? ==> Blocks(pieces, offset) == Blocks(pieces[1..], offset + Width(pieces[0]))
    ensures pieces[0].Change? ==> Width(pieces[0]) == |pieces[0].was|
  {
  }

  lemma StepsCons(lines: seq<string>, p: Pass, m: Mod, mods: seq<Mod>)
    ensures Steps(lines, p, [m] + mods) == Steps(lines, Step(lines, p, m), mods)
  {
    hide Step;
    assert ([m] + mods)[1..] == mods;
  }

  lemma SweepEnds(lines: seq<string>, cursor: nat, offset: nat, out: seq<string>)
    requires cursor <= offset <= |lines| && lines[offset..] == []
    ensures Finish(lines, Steps(lines, Pass(cursor, out), [])) == out + lines[cursor..offset] + []
  {
    assert lines[cursor..] == lines[cursor..offset];
  }

  lemma StayGoesOn(lines: seq<string>, p: Piece, cursor: nat, offset: nat, out: seq<string>, rest: seq<string>)
    requires p.Stay? && cursor <= offset && offset + Width(p) <= |lines| && lines[offset..offset + Width(p)] == p.lines
    ensures out + lines[cursor..offset + Width(p)] + rest == out + lines[cursor..offset] + (Verdict(p) + rest)
  {
    assert lines[cursor..offset + Width(p)] == lines[cursor..offset] + p.lines;
  }

  lemma ChangeGoesOn(before: seq<string>, verdict: seq<string>, lines: seq<string>, next: nat, rest: seq<string>)
    requires next <= |lines|
    ensures before + verdict + lines[next..next] + rest == before + (verdict + rest)
  {
  }

  lemma BeforeSplits(lines: seq<string>, pieces: seq<Piece>, offset: nat)
    requires pieces != [] && offset <= |lines| && lines[offset..] == Before(pieces)
    ensures var next := offset + Width(pieces[0]);
            && next <= |lines| && lines[next..] == Before(pieces[1..])
            && lines[offset..next] == (match pieces[0] case Stay(ls) => ls case Change(was, _, _, _, _, _) => was)
  {
    var head := match pieces[0] case Stay(ls) => ls case Change(was, _, _, _, _, _) => was;
    assert lines[offset..] == head + Before(pieces[1..]);
    assert lines[offset..][|head|..] == lines[offset + |head|..];
    assert lines[offset..][..|head|] == lines[offset..offset + |head|];
  }

  lemma OneStep(lines: seq<string>, p: Piece, cursor: nat, offset: nat, out: seq<string>)
    requires p.Change? && ReadsBack(p) && cursor <= offset && offset + |p.was| <= |lines| && lines[offset..offset + |p.was|] == p.was
    ensures Step(lines, Pass(cursor, out), BlockOf(p, offset)) == Pass(offset + |p.was|, out + lines[cursor..offset] + Verdict(p))
  {
    hide Split, Join;
  }

  lemma RebuildWrites(pieces: seq<Piece>, ending: string)
    requires AreLines(Before(pieces)) && forall p :: p in pieces ==> ReadsBack(p)
    requires Before(pieces) != [] && (ending == LF || (ending == CRLF && |Before(pieces)| > 1))
    ensures Rebuilt(Join(Before(pieces), ending), Blocks(pieces, 0)) == Join(Under(pieces), ending)
  {
    var lines, mods := Before(pieces), Blocks(pieces, 0);
    SplitJoined(lines, ending);
    EndingOfJoined(lines, ending);
    BlocksAreOrdered(pieces, 0);
    SweepWrites(lines, pieces, 0, 0, []);
    assert lines[0..] == lines && [] + lines[0..0] + Under(pieces) == Under(pieces);
  }

  /** Main result: the rebuild of a file is the file under the verdicts, with its own line ending, whatever the line endings of
      the replacement texts. */
  lemma RebuildIsThePieces(pieces: seq<Piece>, ending: string)
    requires forall p :: p in pieces ==> IsPiece(p)
    requires Before(pieces) != [] && (ending == LF || (ending == CRLF && |Before(pieces)| > 1))
    ensures AllPlaced(Blocks(pieces, 0))
    ensures Rebuilt(Join(Before(pieces), ending), Blocks(pieces, 0)) == Join(Under(pieces), ending)
  {
    BeforeAreLines(pieces);
    BlocksAreOrdered(pieces, 0);
    forall p | p in pieces ensures ReadsBack(p) {
      assert IsPiece(p);
      if p.Change? && p.now != [] {
        SplitJoined(p.now, p.ending);
      }
    }
    RebuildWrites(pieces, ending);
  }

  // ---------------------------------------------------------------- one block

  lemma OneChange(a: seq<string>, p: Piece, c: seq<string>)
    requires p.Change?
    ensures var pieces := [Stay(a), p, Stay(c)];
            && Before(pieces) == a + p.was + c && Under(pieces) == a + Verdict(p) + c
            && Blocks(pieces, 0) == [BlockOf(p, |a|)]
  {
    var pieces := [Stay(a), p, Stay(c)];
    assert pieces[1..] == [p, Stay(c)] && [p, Stay(c)][1..] == [Stay(c)] && [Stay(c)][1..] == [];
    assert Blocks([], |a| + |p.was| + |c|) == [] && Before([]) == [] && Under([]) == [];
    assert Before([Stay(c)]) == c && Under([Stay(c)]) == c && Blocks([Stay(c)], |a| + |p.was|) == [];
    assert Before([p, Stay(c)]) == p.was + c && Under([p, Stay(c)]) == Verdict(p) + c;
    assert a + (p.was + c) == a + p.was + c && a + (Verdict(p) + c) == a + Verdict(p) + c;
  }

  /** A replacement text goes in as it is, every line of it and nothing else; without one the lines of the block go. */
  lemma ReplacementGoesIn(a: seq<string>, b: seq<string>, c: seq<string>, m: Mod, r: string)
    requires AreLines(a + b + c) && a + b + c != [] && !HasCrlf(r)
    requires Placed(m) && m.startLine == |a| + 1 && m.endLine == |a| + |b| && m.status != Rejected
    ensures m.operation != Delete && m.replace == Some(r) ==> Rebuilt(Join(a + b + c, LF), [m]) == Join(a + [r] + c, LF)
    ensures m.operation == Delete || m.replace == None ==> Rebuilt(Join(a + b + c, LF), [m]) == Join(a + c, LF)
  {
    hide Rebuilt, HasCrlf, Split, Join, AreLines;
    SplitJoinLf(r);
    if m.operation == Delete || m.replace == None {
      OneBlockWrites(a, b, c, m, [], LF, LF);
      assert a + [] + c == a + c;
    } else if m.replace == Some(r) {
      OneBlockWrites(a, b, c, m, Split(r), LF, LF);
      JoinNested(a, Split(r), c, LF);
    }
  }

  /** In a file that uses CRLF the lines of the replacement text go in with CRLF, whichever ending the text came with. */
  lemma ReplacementGoesInCrlf(a: seq<string>, b: seq<string>, c: seq<string>, m: Mod, rs: seq<string>, ending: string)
    requires AreLines(a + b + c) && |a + b + c| > 1 && AreLines(rs) && rs != [] && (ending == LF || ending == CRLF)
    requires Placed(m) && m.startLine == |a| + 1 && m.endLine == |a| + |b| && m.status != Rejected
    ensures m.operation != Delete && m.replace == Some(Join(rs, ending)) ==> Rebuilt(Join(a + b + c, CRLF), [m]) == Join(a + rs + c, CRLF)
    ensures m.operation == Delete || m.replace == None ==> Rebuilt(Join(a + b + c, CRLF), [m]) == Join(a + c, CRLF)
  {
    SplitJoined(rs, ending);
    if m.operation == Delete || m.replace == None {
      OneBlockWrites(a, b, c, m, [], ending, CRLF);
      assert a + [] + c == a + c;
    } else if m.replace == Some(Join(rs, ending)) {
      OneBlockWrites(a, b, c, m, rs, ending, CRLF);
    }
  }

  lemma OneBlockWrites(a: seq<string>, b: seq<string>, c: seq<string>, m: Mod, now: seq<string>, ending: string, own: string)
    requires AreLines(a + b + c) && a + b + c != [] && (own == LF || (own == CRLF && |a + b + c| > 1))
    requires Placed(m) && m.startLine == |a| + 1 && m.endLine == |a| + |b| && m.status != Rejected
    requires if m.operation == Delete || m.replace == None then now == []
             else now != [] && m.replace == Some(Join(now, ending)) && Split(Join(now, ending)) == now
    ensures Rebuilt(Join(a + b + c, own), [m]) == Join(a + now + c, own)
  {
    hide Split, Join;
    var operation := if m.replace == None then Replace else m.operation;
    var p := Change(b, now, ending, m.id, operation, m.status);
    OneChange(a, p, c);
    RebuildWrites([Stay(a), p, Stay(c)], own);
    SameWritten(Join(a + b + c, own), m, BlockOf(p, |a|));
  }

  /** Only the range of a block, whether it is rejected, and what it puts in reach the file. */
  lemma SameWritten(original: string, m: Mod, n: Mod)
    requires Placed(m) && Placed(n) && m.startLine == n.startLine && m.endLine == n.endLine
    requires m.status != Rejected && n.status != Rejected
    requires (m.operation == n.operation && m.replace == n.replace) || Replacement(m) == Replacement(n) == []
    ensures Rebuilt(original, [m]) == Rebuilt(original, [n])
  {
    var lines := Split(original);
    assert [m][1..] == [] && [n][1..] == [];
    assert PlacedOnly([m]) == [m] && PlacedOnly([n]) == [n] && SortByStart([]) == [];
    assert SortByStart([m]) == [m] && SortByStart([n]) == [n];
    assert Replacement(m) == Replacement(n);
    assert Step(lines, Pass(0, []), m) == Step(lines, Pass(0, []), n);
    assert Steps(lines, Pass(0, []), [m]) == Steps(lines, Pass(0, []), [n]);
  }

  /** Joining a joined text among other lines is joining all lines. */
  lemma {:induction false} JoinNested(a: seq<string>, b: seq<string>, c: seq<string>, ending: string)
    requires b != []
    ensures Join(a + b + c, ending) == Join(a + [Join(b, ending)] + c, ending)
    decreases |a| + |b|
  {
    if a == [] {
      if |b| == 1 {
        assert a + b + c == a + [Join(b, ending)] + c;
      } else {
        JoinNested([], b[1..], c, ending);
        JoinInner(b, c, ending);
      }
    } else {
      JoinNested(a[1..], b, c, ending);
      assert (a + b + c)[1..] == a[1..] + b + c && (a + [Join(b, ending)] + c)[1..] == a[1..] + [Join(b, ending)] + c;
    }
  }

  lemma JoinCons(x: string, c: seq<string>, ending: string)
    ensures Join([x] + c, ending) == if c == [] then x else x + ending + Join(c, ending)
  {
    assert ([x] + c)[1..] == c;
  }

  lemma JoinInner(b: seq<string>, c: seq<string>, ending: string)
    requires |b| > 1 && Join([] + b[1..] + c, ending) == Join([] + [Join(b[1..], ending)] + c, ending)
    ensures Join([] + b + c, ending) == Join([] + [Join(b, ending)] + c, ending)
  {
    hide Join;
    var rest, tail := Join(b[1..], ending), b[1..];
    JoinCons(b[0], tail, ending);
    JoinCons(b[0], tail + c, ending);
    JoinCons(rest, c, ending);
    JoinCons(b[0] + ending + rest, c, ending);
    assert [b[0]] + tail == b && [] + b + c == [b[0]] + (tail + c) && [] + tail + c == tail + c;
    assert [] + [rest] + c == [rest] + c && [] + [Join(b, ending)] + c == [Join(b, ending)] + c;
    assert b[0] + ending + (rest + ending + Join(c, ending)) == b[0] + ending + rest + ending + Join(c, ending);
  }

  // ---------------------------------------------------------------- blocks with one start

  function StartingAt(mods: seq<Mod>, line: int): seq<Mod> {
    if mods == [] then [] else (if mods[0].startLine == line then [mods[0]] else []) + StartingAt(mods[1..], line)
  }

  lemma {:induction false} InsertIsStable(m: Mod, mods: seq<Mod>, line: int)
    requires SortedByStart(mods)
    ensures StartingAt(InsertByStart(m, mods), line) == (if m.startLine == line then [m] else []) + StartingAt(mods, line)
    decreases |mods|
  {
    if mods == [] || m.startLine <= mods[0].startLine {
      assert ([m] + mods)[1..] == mods;
    } else {
      InsertIsStable(m, mods[1..], line);
      var r := InsertByStart(m, mods[1..]);
      assert ([mods[0]] + r)[1..] == r;
      if m.startLine == line {
        assert StartingAt(mods, line) == StartingAt(mods[1..], line);
      }
    }
  }

  /** Sorting keeps blocks that start at one line in the order of the list, so of two only the first can win a place. */
  lemma {:induction false} SortIsStable(mods: seq<Mod>, line: int)
    ensures StartingAt(SortByStart(mods), line) == StartingAt(mods, line)
  {
    if mods != [] {
      SortIsStable(mods[1..], line);
      SortSorts(mods[1..]);
      InsertIsStable(mods[0], SortByStart(mods[1..]), line);
    }
  }
}

/** Folder names are cleaned twice, once by the front end with four replacement passes and once by the back end with
a map, a split, a filter and a join. Both must name the same folder. */
module FolderNames {

  predicate Unsafe(c: char) {
    c in {'/', '\\', ':', '*', '?', '"', '<', '>', '|'}
  }

  predicate Underscore(c: char) {
    c == '_'
  }

  /** A character that ends a kept run, under whichever notion of white space. */
  predicate Separates(ws: char -> bool, c: char) {
    Unsafe(c) || ws(c) || c == '_'
  }

  const UNNAMED := "unnamed"

  // ---------------------------------------------------------------- the front end: four passes

  function ReplaceUnsafe(s: string): (r: string)
    ensures |r| == |s|
    ensures forall i :: 0 <= i < |s| ==> r[i] == if Unsafe(s[i]) then '_' else s[i]
  {
    seq(|s|, i requires 0 <= i < |s| => if Unsafe(s[i]) then '_' else s[i])
  }

  /** Puts one underscore for every maximal run of characters satisfying `p`. */
  function Collapse(s: string, p: char -> bool): string {
    if s == "" then ""
    else if !p(s[0]) then [s[0]] + Collapse(s[1..], p)
    else if |s| > 1 && p(s[1]) then Collapse(s[1..], p)
    else "_" + Collapse(s[1..], p)
  }

  /** Removes one underscore at the start and one at the end. */
  function TrimUnderscore(s: string): string {
    var t := if s != "" && s[0] == '_' then s[1..] else s;
    if t != "" && t[|t| - 1] == '_' then t[..|t| - 1] else t
  }

  function FrontEndName(name: string, ws: char -> bool): string {
    var passes := TrimUnderscore(Collapse(Collapse(ReplaceUnsafe(name), ws), Underscore));
    if passes == "" then UNNAMED else passes
  }

  // ---------------------------------------------------------------- the back end: map, split, filter, join

  function MapSeparators(s: string, ws: char -> bool): (r: string)
    ensures |r| == |s|
    ensures forall i :: 0 <= i < |s| ==> r[i] == if Unsafe(s[i]) || ws(s[i]) then '_' else s[i]
  {
    seq(|s|, i requires 0 <= i < |s| => if Unsafe(s[i]) || ws(s[i]) then '_' else s[i])
  }

  function SplitUnderscore(s: string): (parts: seq<string>)
    ensures |parts| >= 1
  {
    if s == "" then [""]
    else
      var rest := SplitUnderscore(s[1..]);
      if s[0] == '_' then [""] + rest else [[s[0]] + rest[0]] + rest[1..]
  }

  function NonEmpty(parts: seq<string>): seq<string> {
    if parts == [] then [] else (if parts[0] == "" then [] else [parts[0]]) + NonEmpty(parts[1..])
  }

  function JoinUnderscore(parts: seq<string>): string {
    if |parts| == 0 then "" else if |parts| == 1 then parts[0] else parts[0] + "_" + JoinUnderscore(parts[1..])
  }

  function BackEndName(name: string, ws: char -> bool): string {
    var collapsed := JoinUnderscore(NonEmpty(SplitUnderscore(MapSeparators(name, ws))));
    if collapsed == "" then UNNAMED else collapsed
  }

  // ---------------------------------------------------------------- meaning: the kept runs

  /** The maximal runs of characters that do not separate, in order. */
  function KeptRuns(s: string, ws: char -> bool): (runs: seq<string>)
    ensures s != "" && !Separates(ws, s[0]) ==> |runs| >= 1
  {
    if s == "" then []
    else
      var rest := KeptRuns(s[1..], ws);
      if Separates(ws, s[0]) then rest
      else if |s| > 1 && !Separates(ws, s[1]) then [[s[0]] + rest[0]] + rest[1..]
      else [[s[0]]] + rest
  }

  function NameOf(runs: seq<string>): string {
    if runs == [] then UNNAMED else JoinUnderscore(runs)
  }

  predicate KeptWord(run: string, ws: char -> bool) {
    run != "" && forall i :: 0 <= i < |run| ==> !Separates(ws, run[i])
  }

  predicate AllKept(runs: seq<string>, ws: char -> bool) {
    forall i :: 0 <= i < |runs| ==> KeptWord(runs[i], ws)
  }

  lemma {:induction false} RunsAreKept(s: string, ws: char -> bool)
    ensures AllKept(KeptRuns(s, ws), ws)
    ensures KeptRuns(s, ws) == [] <==> forall i :: 0 <= i < |s| ==> Separates(ws, s[i])
  {
    if s != "" {
      RunsAreKept(s[1..], ws);
      assert s[1..] == [] || s[1..][0] == s[1];
      if forall i :: 0 <= i < |s[1..]| ==> Separates(ws, s[1..][i]) {
        assert forall i :: 0 < i < |s| ==> s[i] == s[1..][i - 1];
      }
    }
  }

  lemma NonEmptyHead(c: char, rest: seq<string>)
    requires rest != []
    ensures NonEmpty([""] + rest) == NonEmpty(rest)
    ensures NonEmpty([[c] + rest[0]] + rest[1..]) == [[c] + rest[0]] + NonEmpty(rest[1..])
    ensures NonEmpty(rest) == (if rest[0] == "" then [] else [rest[0]]) + NonEmpty(rest[1..])
  {
    assert ([""] + rest)[1..] == rest && ([[c] + rest[0]] + rest[1..])[1..] == rest[1..];
  }

  lemma MapTail(s: string, ws: char -> bool)
    requires s != ""
    ensures MapSeparators(s, ws)[1..] == MapSeparators(s[1..], ws)
    ensures MapSeparators(s, ws)[0] == if Separates(ws, s[0]) then '_' else s[0]
  {
  }

  /** The front of the split is the unfinished run; the rest are the later runs. */
  lemma {:induction false} SplitFindsRuns(s: string, ws: char -> bool)
    ensures NonEmpty(SplitUnderscore(MapSeparators(s, ws))) == KeptRuns(s, ws)
    ensures SplitUnderscore(MapSeparators(s, ws))[0] == "" <==> s == "" || Separates(ws, s[0])
  {
    hide NonEmpty, Separates, MapSeparators, SplitUnderscore, KeptRuns;
    if s == "" {
      NothingToSplit(ws);
    } else {
      MapTail(s, ws);
      SplitFindsRuns(s[1..], ws);
      var t := MapSeparators(s, ws);
      var rest := SplitUnderscore(t[1..]);
      SplitStep(t);
      KeptStep(s, ws);
      NonEmptyHead(s[0], rest);
      if !Separates(ws, s[0]) {
        NotUnderscore(s[0], ws);
        if rest[0] == "" {
          assert [s[0]] + rest[0] == [s[0]];
        } else {
          InFront(s[0], rest[0], NonEmpty(rest[1..]));
        }
      }
    }
  }

  lemma InFront(c: char, run: string, more: seq<string>)
    ensures [[c] + ([run] + more)[0]] + ([run] + more)[1..] == [[c] + run] + more
  {
  }

  lemma NothingToSplit(ws: char -> bool)
    ensures SplitUnderscore(MapSeparators("", ws)) == [""] && NonEmpty([""]) == [] && KeptRuns("", ws) == []
  {
  }

  lemma SplitStep(t: string)
    requires t != ""
    ensures var rest := SplitUnderscore(t[1..]);
            SplitUnderscore(t) == if t[0] == '_' then [""] + rest else [[t[0]] + rest[0]] + rest[1..]
  {
  }

  lemma KeptStep(s: string, ws: char -> bool)
    requires s != ""
    ensures var rest := KeptRuns(s[1..], ws);
            KeptRuns(s, ws) == if Separates(ws, s[0]) then rest
                               else if s[1..] != "" && !Separates(ws, s[1..][0]) then [[s[0]] + rest[0]] + rest[1..]
                               else [[s[0]]] + rest
  {
    hide Separates;
  }

  lemma NotUnderscore(c: char, ws: char -> bool)
    requires !Separates(ws, c)
    ensures c != '_'
  {
  }

  lemma JoinIsEmpty(runs: seq<string>, ws: char -> bool)
    requires AllKept(runs, ws)
    ensures JoinUnderscore(runs) == "" <==> runs == []
  {
    if runs != [] {
      assert KeptWord(runs[0], ws);
    }
  }

  lemma BackEndNamesRuns(name: string, ws: char -> bool)
    ensures BackEndName(name, ws) == NameOf(KeptRuns(name, ws))
  {
    SplitFindsRuns(name, ws);
    RunsAreKept(name, ws);
    JoinIsEmpty(KeptRuns(name, ws), ws);
  }

  /** One underscore for every maximal run of separators. */
  function Squeeze(s: string, ws: char -> bool): string {
    if s == "" then ""
    else if !Separates(ws, s[0]) then [s[0]] + Squeeze(s[1..], ws)
    else if |s| > 1 && Separates(ws, s[1]) then Squeeze(s[1..], ws)
    else "_" + Squeeze(s[1..], ws)
  }

  lemma {:induction false} CollapseHead(s: string, p: char -> bool)
    ensures Collapse(s, p) == "" <==> s == ""
    ensures s != "" ==> (Collapse(s, p)[0] == '_' <==> p(s[0]) || s[0] == '_')
  {
    if s != "" {
      CollapseHead(s[1..], p);
    }
  }

  /** Collapsing white space first and underscores then is one squeeze of the separators. */
  lemma {:induction false} PassesSqueeze(s: string, ws: char -> bool)
    requires !ws('_')
    ensures Collapse(Collapse(ReplaceUnsafe(s), ws), Underscore) == Squeeze(s, ws)
  {
    var t := ReplaceUnsafe(s);
    if s == "" {
      assert t == "";
    } else {
      assert t[1..] == ReplaceUnsafe(s[1..]);
      PassesSqueeze(s[1..], ws);
      var rest := Collapse(t[1..], ws);
      CollapseHead(t[1..], ws);
      if ws(t[0]) && |t| > 1 && ws(t[1]) {
        assert Collapse(t, ws) == rest;
        WhitespaceKept(s, ws);
      } else {
        var c := if ws(t[0]) then '_' else t[0];
        assert Collapse(t, ws) == [c] + rest;
        assert ([c] + rest)[1..] == rest;
        WhitespaceKept(s, ws);
      }
    }
  }

  lemma WhitespaceKept(s: string, ws: char -> bool)
    requires !ws('_')
    ensures forall i :: 0 <= i < |s| ==>
              (Separates(ws, s[i]) <==> ws(ReplaceUnsafe(s)[i]) || ReplaceUnsafe(s)[i] == '_')
              && (!Separates(ws, s[i]) ==> ReplaceUnsafe(s)[i] == s[i])
  {
  }

  function Around(lead: bool, body: string, tail: bool): string {
    (if lead then "_" else "") + body + (if tail then "_" else "")
  }

  /** The runs joined, with an underscore before them if the text starts with a separator and one behind them if it
      ends with one; a single underscore when there is no run. */
  function Framed(s: string, ws: char -> bool): string {
    if s == "" then ""
    else if KeptRuns(s, ws) == [] then "_"
    else Around(Separates(ws, s[0]), JoinUnderscore(KeptRuns(s, ws)), Separates(ws, s[|s| - 1]))
  }

  lemma AroundGrows(c: char, body: string, tail: bool)
    ensures Around(false, [c] + body, tail) == [c] + Around(false, body, tail)
    ensures Around(true, body, tail) == "_" + Around(false, body, tail)
    ensures Around(false, [c] + "_" + body, tail) == [c] + Around(true, body, tail)
  {
  }

  lemma FramedSeparator(s: string, ws: char -> bool)
    requires s != "" && Separates(ws, s[0])
    ensures Framed(s, ws) == if |s| > 1 && Separates(ws, s[1]) then Framed(s[1..], ws) else "_" + Framed(s[1..], ws)
  {
    hide Separates, JoinUnderscore, Around;
    if |s| == 1 {
      assert s[1..] == "" && KeptRuns(s, ws) == [];
    } else {
      assert s[1..][0] == s[1] && s[1..][|s| - 2] == s[|s| - 1];
      AroundGrows(s[0], JoinUnderscore(KeptRuns(s, ws)), Separates(ws, s[|s| - 1]));
    }
  }

  lemma FramedKept(s: string, ws: char -> bool)
    requires s != "" && !Separates(ws, s[0])
    ensures Framed(s, ws) == [s[0]] + Framed(s[1..], ws)
  {
    hide Separates, Around, JoinUnderscore;
    var rest := KeptRuns(s[1..], ws);
    JoinOne([s[0]], rest);
    if |s| == 1 {
      AroundGrows(s[0], "", false);
      AroundEmpty();
      assert s[1..] == "" && KeptRuns(s, ws) == [[s[0]]];
      assert JoinUnderscore(KeptRuns(s, ws)) == [s[0]] + "";
    } else {
      assert s[1..][0] == s[1] && s[1..][|s| - 2] == s[|s| - 1];
      AroundGrows(s[0], JoinUnderscore(rest), Separates(ws, s[|s| - 1]));
      if !Separates(ws, s[1]) {
        JoinGrows(s[0], rest);
      } else if rest == [] {
        LastSeparates(s[1..], ws);
        AroundGrows(s[0], "", true);
        AroundEmpty();
        assert KeptRuns(s, ws) == [[s[0]]];
        assert JoinUnderscore(KeptRuns(s, ws)) == [s[0]] + "";
      }
    }
  }

  lemma AroundEmpty()
    ensures Around(false, "", false) == "" && Around(false, "", true) == "_"
  {
  }

  lemma JoinOne(run: string, rest: seq<string>)
    ensures JoinUnderscore([run]) == run
    ensures rest != [] ==> JoinUnderscore([run] + rest) == run + "_" + JoinUnderscore(rest)
  {
    assert ([run] + rest)[1..] == rest;
  }

  lemma LastSeparates(s: string, ws: char -> bool)
    requires s != "" && KeptRuns(s, ws) == []
    ensures Separates(ws, s[|s| - 1])
  {
    RunsAreKept(s, ws);
  }

  lemma {:induction false} SqueezeIsFramed(s: string, ws: char -> bool)
    ensures Squeeze(s, ws) == Framed(s, ws)
  {
    if s != "" {
      hide Framed, Separates;
      SqueezeIsFramed(s[1..], ws);
      if Separates(ws, s[0]) { FramedSeparator(s, ws); } else { FramedKept(s, ws); }
    }
  }

  lemma JoinGrows(c: char, runs: seq<string>)
    requires runs != []
    ensures JoinUnderscore([[c] + runs[0]] + runs[1..]) == [c] + JoinUnderscore(runs)
  {
    var longer := [[c] + runs[0]] + runs[1..];
    assert longer[1..] == runs[1..];
  }

  lemma {:induction false} JoinEnds(runs: seq<string>, ws: char -> bool)
    requires runs != [] && AllKept(runs, ws)
    ensures JoinUnderscore(runs) != "" && JoinUnderscore(runs)[0] != '_' && JoinUnderscore(runs)[|JoinUnderscore(runs)| - 1] != '_'
    decreases |runs|
  {
    assert KeptWord(runs[0], ws);
    assert !Separates(ws, runs[0][0]) && !Separates(ws, runs[0][|runs[0]| - 1]);
    if |runs| > 1 {
      JoinEnds(runs[1..], ws);
    }
  }

  lemma TrimSqueezed(lead: string, body: string, tail: string)
    requires lead == "" || lead == "_"
    requires tail == "" || tail == "_"
    requires body != "" && body[0] != '_' && body[|body| - 1] != '_'
    ensures TrimUnderscore(lead + body + tail) == body
  {
    assert lead + body + tail == lead + (body + tail);
    assert (lead + (body + tail))[|lead|..] == body + tail;
    assert (body + tail)[..|body|] == body;
  }

  /** Main result: the four passes name the folder by its kept runs. */
  lemma FrontEndNamesRuns(name: string, ws: char -> bool)
    requires !ws('_')
    ensures FrontEndName(name, ws) == NameOf(KeptRuns(name, ws))
  {
    PassesSqueeze(name, ws);
    SqueezeIsFramed(name, ws);
    RunsAreKept(name, ws);
    var runs := KeptRuns(name, ws);
    if runs != [] {
      JoinEnds(runs, ws);
      TrimSqueezed(if Separates(ws, name[0]) then "_" else "", JoinUnderscore(runs), if Separates(ws, name[|name| - 1]) then "_" else "");
    }
  }

  /** Main result: given one notion of white space, both ends name the same folder. */
  lemma SanitizersAgree(name: string, ws: char -> bool)
    requires !ws('_')
    ensures FrontEndName(name, ws) == BackEndName(name, ws)
  {
    FrontEndNamesRuns(name, ws);
    BackEndNamesRuns(name, ws);
  }

  // ---------------------------------------------------------------- idempotence

  lemma {:induction false} RunAlone(run: string, ws: char -> bool)
    requires KeptWord(run, ws)
    ensures KeptRuns(run, ws) == [run]
    decreases |run|
  {
    assert run == [run[0]] + run[1..] && !Separates(ws, run[0]);
    if |run| > 1 {
      assert !Separates(ws, run[1]);
      RunAlone(run[1..], ws);
    } else {
      assert run[1..] == "" && run == [run[0]] && KeptRuns(run, ws) == [[run[0]]];
    }
  }

  lemma {:induction false} RunBeforeUnderscore(run: string, rest: string, ws: char -> bool)
    requires KeptWord(run, ws)
    ensures KeptRuns(run + "_" + rest, ws) == [run] + KeptRuns(rest, ws)
    decreases |run|
  {
    var s := run + "_" + rest;
    assert !Separates(ws, s[0]);
    if |run| == 1 {
      assert s[1..] == "_" + rest && ("_" + rest)[1..] == rest;
      assert run == [s[0]];
    } else {
      assert s[1..] == run[1..] + "_" + rest;
      assert !Separates(ws, run[1]);
      RunBeforeUnderscore(run[1..], rest, ws);
      assert run == [s[0]] + run[1..];
    }
  }

  lemma {:induction false} RunsOfJoin(runs: seq<string>, ws: char -> bool)
    requires AllKept(runs, ws)
    ensures KeptRuns(JoinUnderscore(runs), ws) == runs
    decreases |runs|
  {
    if |runs| == 1 {
      RunAlone(runs[0], ws);
    } else if |runs| > 1 {
      RunsOfJoin(runs[1..], ws);
      RunBeforeUnderscore(runs[0], JoinUnderscore(runs[1..]), ws);
    }
  }

  /** Main result: cleaning a clean name changes nothing. */
  lemma SanitizingTwice(name: string, ws: char -> bool)
    requires forall c :: c in UNNAMED ==> !ws(c)
    ensures BackEndName(BackEndName(name, ws), ws) == BackEndName(name, ws)
  {
    var runs := KeptRuns(name, ws);
    BackEndNamesRuns(name, ws);
    RunsAreKept(name, ws);
    if runs == [] {
      assert forall c :: c in UNNAMED ==> !Separates(ws, c);
      RunAlone(UNNAMED, ws);
    } else {
      RunsOfJoin(runs, ws);
    }
    BackEndNamesRuns(NameOf(runs), ws);
  }

  // ---------------------------------------------------------------- two notions of white space

  /** The class \s of ECMAScript regular expressions, section 22.2.2.9 of ECMA-262. */
  predicate ScriptSpace(c: char) {
    || '\t' <= c <= '\r' || c == ' ' || c == '\U{00A0}' || c == '\U{1680}' || '\U{2000}' <= c <= '\U{200A}'
    || c == '\U{2028}' || c == '\U{2029}' || c == '\U{202F}' || c == '\U{205F}' || c == '\U{3000}' || c == '\U{FEFF}'
  }

  /** The Unicode property White_Space, which the back end asks for. */
  predicate UnicodeSpace(c: char) {
    || '\t' <= c <= '\r' || c == ' ' || c == '\U{0085}' || c == '\U{00A0}' || c == '\U{1680}' || '\U{2000}' <= c <= '\U{200A}'
    || c == '\U{2028}' || c == '\U{2029}' || c == '\U{202F}' || c == '\U{205F}' || c == '\U{3000}'
  }

  const NEXT_LINE := '\U{0085}'
  const BYTE_ORDER_MARK := '\U{FEFF}'

  lemma {:induction false} RunsSeeOnlyTheirCharacters(s: string, ws: char -> bool, ws': char -> bool)
    requires forall c :: c in s ==> ws(c) == ws'(c)
    ensures KeptRuns(s, ws) == KeptRuns(s, ws')
  {
    if s != "" {
      RunsSeeOnlyTheirCharacters(s[1..], ws, ws');
    }
  }

  lemma {:induction false} JoinHolds(runs: seq<string>, c: char)
    requires c != '_'
    ensures c in JoinUnderscore(runs) <==> exists run :: run in runs && c in run
    decreases |runs|
  {
    if |runs| > 1 {
      JoinHolds(runs[1..], c);
      assert runs == [runs[0]] + runs[1..];
    }
  }

  lemma {:induction false} RunsHold(s: string, ws: char -> bool, c: char)
    requires c in s && !Separates(ws, c)
    ensures exists run :: run in KeptRuns(s, ws) && c in run
  {
    var rest := KeptRuns(s[1..], ws);
    if c in s[1..] {
      RunsHold(s[1..], ws, c);
      var run :| run in rest && c in run;
      if !Separates(ws, s[0]) && |s| > 1 && !Separates(ws, s[1]) && run == rest[0] {
        assert c in KeptRuns(s, ws)[0];
      } else {
        assert run in KeptRuns(s, ws);
      }
    } else {
      assert c == s[0];
      assert c in KeptRuns(s, ws)[0];
    }
  }

  /** A name keeps every character that does not separate, and no other. */
  lemma NameHolds(name: string, ws: char -> bool, c: char)
    requires c in name && c != '_' && c !in UNNAMED
    ensures c in NameOf(KeptRuns(name, ws)) <==> !Separates(ws, c)
  {
    RunsAreKept(name, ws);
    JoinHolds(KeptRuns(name, ws), c);
    if !Separates(ws, c) {
      RunsHold(name, ws, c);
    }
  }

  /** Main result: as the two ends really read white space, they name the same folder exactly when the name holds
      neither a next-line character nor a byte-order mark. */
  lemma EndsAgreeExactly(name: string)
    ensures FrontEndName(name, ScriptSpace) == BackEndName(name, UnicodeSpace) <==> NEXT_LINE !in name && BYTE_ORDER_MARK !in name
  {
    FrontEndNamesRuns(name, ScriptSpace);
    BackEndNamesRuns(name, UnicodeSpace);
    if NEXT_LINE in name {
      NameHolds(name, ScriptSpace, NEXT_LINE);
      NameHolds(name, UnicodeSpace, NEXT_LINE);
    } else if BYTE_ORDER_MARK in name {
      NameHolds(name, ScriptSpace, BYTE_ORDER_MARK);
      NameHolds(name, UnicodeSpace, BYTE_ORDER_MARK);
    } else {
      RunsSeeOnlyTheirCharacters(name, ScriptSpace, UnicodeSpace);
    }
  }
}

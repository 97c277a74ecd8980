/** Splitting a text into lines and joining it back.

The store splits with the pattern "optional carriage return, then line feed" and joins
with one line ending for the whole text, so a round trip loses mixed line endings. */
module Lines {

  const LF := "\n"
  const CRLF := "\r\n"

  /** Every text has at least one line; the line ending itself is dropped. */
  function Split(text: string): (lines: seq<string>)
    ensures |lines| >= 1
  {
    if text == "" then
      [""]
    else if text[0] == '\n' then
      [""] + Split(text[1..])
    else if |text| >= 2 && text[0] == '\r' && text[1] == '\n' then
      [""] + Split(text[2..])
    else
      var rest := Split(text[1..]);
      [[text[0]] + rest[0]] + rest[1..]
  }

  function Join(lines: seq<string>, ending: string): string {
    if |lines| == 0 then "" else if |lines| == 1 then lines[0] else lines[0] + ending + Join(lines[1..], ending)
  }

  predicate HasCrlf(text: string) {
    exists i :: 0 < i < |text| && text[i] == '\n' && text[i - 1] == '\r'
  }

  predicate HasBareLf(text: string) {
    exists i :: 0 <= i < |text| && text[i] == '\n' && (i == 0 || text[i - 1] != '\r')
  }

  /** The ending the store writes back: CRLF as soon as the text holds one. */
  function Ending(text: string): string {
    if HasCrlf(text) then CRLF else LF
  }

  predicate UniformEndings(text: string) {
    !(HasCrlf(text) && HasBareLf(text))
  }

  function BareLfCount(text: string): nat {
    if text == "" then 0
    else if text[0] == '\n' then 1 + BareLfCount(text[1..])
    else if |text| >= 2 && text[0] == '\r' && text[1] == '\n' then BareLfCount(text[2..])
    else BareLfCount(text[1..])
  }

  /** Putting a character in front of the first line puts it in front of the text. */
  lemma JoinHead(c: char, lines: seq<string>, ending: string)
    requires |lines| >= 1
    ensures Join([[c] + lines[0]] + lines[1..], ending) == [c] + Join(lines, ending)
  {
    var longer := [[c] + lines[0]] + lines[1..];
    if |lines| > 1 {
      assert longer[1..] == lines[1..];
      assert [c] + lines[0] + ending + Join(lines[1..], ending) == [c] + (lines[0] + ending + Join(lines[1..], ending));
    }
  }

  lemma JoinEmptyLine(lines: seq<string>, ending: string)
    requires |lines| >= 1
    ensures Join([""] + lines, ending) == ending + Join(lines, ending)
  {
    assert ([""] + lines)[1..] == lines;
    assert "" + ending + Join(lines, ending) == ending + Join(lines, ending);
  }

  lemma CrlfInTail(text: string)
    requires text != ""
    ensures HasCrlf(text[1..]) ==> HasCrlf(text)
    ensures |text| >= 2 && text[0] == '\r' && text[1] == '\n' ==> HasCrlf(text)
  {
    var tail := text[1..];
    if HasCrlf(tail) {
      var i :| 0 < i < |tail| && tail[i] == '\n' && tail[i - 1] == '\r';
      assert text[i + 1] == '\n' && text[i + 1 - 1] == '\r';
    }
    if |text| >= 2 && text[0] == '\r' && text[1] == '\n' {
      assert text[1] == '\n' && text[1 - 1] == '\r';
    }
  }

  lemma {:induction false} SplitJoinLf(text: string)
    requires !HasCrlf(text)
    ensures Join(Split(text), LF) == text
  {
    if text != "" {
      CrlfInTail(text);
      SplitJoinLf(text[1..]);
      if text[0] == '\n' {
        JoinEmptyLine(Split(text[1..]), LF);
      } else {
        JoinHead(text[0], Split(text[1..]), LF);
      }
    }
  }

  /** Joining with CRLF lengthens the text by one character per bare line feed. */
  lemma {:induction false} SplitJoinCrlf(text: string)
    ensures |Join(Split(text), CRLF)| == |text| + BareLfCount(text)
    ensures BareLfCount(text) == 0 ==> Join(Split(text), CRLF) == text
  {
    if text == "" {
    } else if text[0] == '\n' {
      SplitJoinCrlf(text[1..]);
      JoinEmptyLine(Split(text[1..]), CRLF);
    } else if |text| >= 2 && text[0] == '\r' && text[1] == '\n' {
      SplitJoinCrlf(text[2..]);
      JoinEmptyLine(Split(text[2..]), CRLF);
      assert text == CRLF + text[2..];
    } else {
      SplitJoinCrlf(text[1..]);
      JoinHead(text[0], Split(text[1..]), CRLF);
    }
  }

  lemma {:induction false} BareLfCounted(text: string)
    ensures BareLfCount(text) > 0 <==> HasBareLf(text)
  {
    if text == "" {
    } else if text[0] == '\n' {
      assert HasBareLf(text);
    } else if |text| >= 2 && text[0] == '\r' && text[1] == '\n' {
      var rest := text[2..];
      BareLfCounted(rest);
      if HasBareLf(rest) {
        var i :| 0 <= i < |rest| && rest[i] == '\n' && (i == 0 || rest[i - 1] != '\r');
        assert text[i + 2] == '\n' && text[i + 2 - 1] != '\r';
      }
      if HasBareLf(text) {
        var i :| 0 <= i < |text| && text[i] == '\n' && (i == 0 || text[i - 1] != '\r');
        assert i >= 2 && rest[i - 2] == '\n' && (i - 2 == 0 || rest[i - 2 - 1] == text[i - 1]);
      }
    } else {
      var rest := text[1..];
      BareLfCounted(rest);
      if HasBareLf(rest) {
        var i :| 0 <= i < |rest| && rest[i] == '\n' && (i == 0 || rest[i - 1] != '\r');
        assert text[i + 1] == '\n' && text[i + 1 - 1] != '\r';
      }
      if HasBareLf(text) {
        var i :| 0 <= i < |text| && text[i] == '\n' && (i == 0 || text[i - 1] != '\r');
        assert i >= 1 && rest[i - 1] == '\n' && (i - 1 == 0 || rest[i - 1 - 1] == text[i - 1]);
      }
    }
  }

  function CrlfCount(text: string): nat {
    if text == "" then 0
    else if text[0] == '\n' then CrlfCount(text[1..])
    else if |text| >= 2 && text[0] == '\r' && text[1] == '\n' then 1 + CrlfCount(text[2..])
    else CrlfCount(text[1..])
  }

  /** Joining with LF shortens the text by one character per CRLF. */
  lemma {:induction false} JoinLfShortens(text: string)
    ensures |Join(Split(text), LF)| == |text| - CrlfCount(text)
  {
    if text == "" {
    } else if text[0] == '\n' {
      JoinLfShortens(text[1..]);
      JoinEmptyLine(Split(text[1..]), LF);
    } else if |text| >= 2 && text[0] == '\r' && text[1] == '\n' {
      JoinLfShortens(text[2..]);
      JoinEmptyLine(Split(text[2..]), LF);
    } else {
      JoinLfShortens(text[1..]);
      JoinHead(text[0], Split(text[1..]), LF);
    }
  }

  lemma {:induction false} CrlfCounted(text: string)
    requires HasCrlf(text)
    ensures CrlfCount(text) > 0
    decreases |text|
  {
    var i :| 0 < i < |text| && text[i] == '\n' && text[i - 1] == '\r';
    if !(|text| >= 2 && text[0] == '\r' && text[1] == '\n') {
      var rest := text[1..];
      assert rest[i - 1] == '\n' && rest[i - 1 - 1] == '\r';
      CrlfCounted(rest);
    }
  }

  /** Joining with an ending gives a text back exactly when the text uses that ending only. */
  lemma JoinGivesBack(text: string, ending: string)
    requires ending == LF || ending == CRLF
    ensures Join(Split(text), ending) == text <==> if ending == CRLF then !HasBareLf(text) else !HasCrlf(text)
  {
    if ending == CRLF {
      SplitJoinCrlf(text);
      BareLfCounted(text);
    } else if HasCrlf(text) {
      JoinLfShortens(text);
      CrlfCounted(text);
    } else {
      SplitJoinLf(text);
    }
  }

  /** The round trip gives the text back exactly when it does not mix line endings. */
  lemma SplitJoinRoundTrip(text: string)
    ensures Join(Split(text), Ending(text)) == text <==> UniformEndings(text)
  {
    JoinGivesBack(text, Ending(text));
  }

  /** A text that mixes them comes back with one of them throughout. */
  lemma MixedEndingsChange()
    ensures !UniformEndings("a\r\nb\nc") && Split("a\r\nb\nc") == ["a", "b", "c"]
    ensures Join(Split("a\r\nb\nc"), Ending("a\r\nb\nc")) == "a\r\nb\r\nc"
  {
    var text := "a\r\nb\nc";
    assert text[2] == '\n' && text[2 - 1] == '\r' && text[4] == '\n' && text[4 - 1] != '\r';
    assert text[1..] == "\r\nb\nc" && text[1..][2..] == "b\nc" && "b\nc"[1..] == "\nc" && "\nc"[1..] == "c" && "c"[1..] == "";
    assert [""][1..] == [] && ["", "c"][1..] == ["c"] && ["", "b", "c"][1..] == ["b", "c"];
    assert ['a'] + "" == "a" && ['b'] + "" == "b" && ['c'] + "" == "c";
    assert Split("c") == ["c"];
    assert Split("\nc") == ["", "c"];
    assert Split("b\nc") == ["b", "c"];
    assert Split("\r\nb\nc") == ["", "b", "c"];
    assert Split(text) == ["a", "b", "c"];
    assert ["a", "b", "c"][1..] == ["b", "c"] && ["b", "c"][1..] == ["c"];
    assert Join(["b", "c"], CRLF) == "b" + CRLF + "c" == "b\r\nc";
    assert "a" + CRLF + "b\r\nc" == "a\r\nb\r\nc";
  }
}

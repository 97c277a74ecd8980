/** What the text kernels put into their results: which part of a text is kept and where, which sections a progress text has,
which characters a folder name never has, what a written map looks like. */
module TextLaws {
  import opened Modifications
  import opened TextBudget
  import FolderNames
  import ImageSpans
  import MapCodec

  // ---------------------------------------------------------------- trimming

  predicate Blank(s: string) {
    forall c :: c in s ==> FolderNames.ScriptSpace(c)
  }

  predicate BlankAt(s: string, i: int) {
    0 <= i < |s| && FolderNames.ScriptSpace(s[i])
  }

  lemma BlankCons(c: char, s: string)
    requires FolderNames.ScriptSpace(c) && Blank(s)
    ensures Blank([c] + s)
  {
    hide FolderNames.ScriptSpace;
  }

  lemma {:induction false} TrimStartIs(s: string)
    ensures var r := TrimStart(s); Blank(s[..|s| - |r|]) && !BlankAt(r, 0)
  {
    hide FolderNames.ScriptSpace, Blank;
    if s != "" && FolderNames.ScriptSpace(s[0]) {
      var t := s[1..];
      TrimStartIs(t);
      var k := |t| - |TrimStart(t)|;
      BlankCons(s[0], t[..k]);
      assert s[..k + 1] == [s[0]] + t[..k];
    } else {
      NothingBlank();
      assert s[..0] == "";
    }
  }

  lemma NothingBlank()
    ensures Blank("")
  {
  }

  lemma {:induction false} TrimEndIs(s: string)
    ensures var r := TrimEnd(s); Blank(s[|r|..]) && !BlankAt(r, |r| - 1)
  {
    hide FolderNames.ScriptSpace;
    if s != "" && FolderNames.ScriptSpace(s[|s| - 1]) {
      var t := s[..|s| - 1];
      TrimEndIs(t);
      var r := TrimEnd(s);
      assert s[|r|..] == t[|r|..] + [s[|s| - 1]];
    }
  }

  /** Trimming takes blanks off both ends, all of them and nothing else. */
  lemma TrimIs(s: string)
    ensures exists i, j | 0 <= i <= j <= |s| :: Trim(s) == s[i..j] && Blank(s[..i]) && Blank(s[j..])
    ensures !BlankAt(Trim(s), 0) && !BlankAt(Trim(s), |Trim(s)| - 1)
  {
    hide FolderNames.ScriptSpace, TrimStart, TrimEnd;
    var t := TrimStart(s);
    TrimStartIs(s);
    TrimEndIs(t);
    var i, j := |s| - |t|, |s| - |t| + |TrimEnd(t)|;
    assert t == s[i..] && TrimEnd(t) == s[i..j] && s[j..] == t[|TrimEnd(t)|..];
  }

  // ---------------------------------------------------------------- head and tail

  /** Over the budget, three fifths of what the mark leaves go to the head, the rest to the tail. */
  lemma TruncationSplits(text: string, budget: int)
    ensures |text| <= budget ==> TruncateHeadAndTail(text, budget) == text
    ensures |text| > budget >= 19 ==>
              var head := (budget - 19) * 6 / 10;
              TruncateHeadAndTail(text, budget) == text[..head] + "... [truncated] ..." + text[|text| - (budget - 19 - head)..]
    ensures |text| > budget && budget < 19 ==> TruncateHeadAndTail(text, budget) == "... [truncated] ..."
  {
    if |text| > budget && budget >= 19 {
      var room := budget - |ELLIPSIS|;
      assert room * 3 / 5 == room * 6 / 10;
    }
  }

  // ---------------------------------------------------------------- keeping the tail

  lemma {:induction false} NewlineIsFirst(s: string)
    ensures var r := IndexOfNewline(s); if r >= 0 then '\n' !in s[..r] else '\n' !in s
  {
    if s != "" && s[0] != '\n' {
      NewlineIsFirst(s[1..]);
      var r := IndexOfNewline(s);
      if r >= 0 { assert s[..r] == [s[0]] + s[1..][..r - 1]; }
    }
  }

  /** What follows the first line break of the window starts at `i`, unless that would be nothing or everything. */
  predicate LineStart(window: string, i: nat) {
    && i <= |window|
    && (if '\n' in window && 0 < IndexOfNewline(window) < |window| - 1
        then i > 1 && window[i - 1] == '\n' && '\n' !in window[..i - 1] else i == 0)
  }

  /** `kept` is what is left of the window when a begun first line and leading blanks are taken off. */
  predicate KeptOf(window: string, kept: string) {
    exists i: nat, j: nat | i <= j <= |window| :: LineStart(window, i) && kept == window[j..] && Blank(window[i..j]) && !BlankAt(kept, 0)
  }

  lemma LineStartIs(window: string)
    ensures var n := IndexOfNewline(window); var i := if 0 < n < |window| - 1 then n + 1 else 0;
            LineStart(window, i) && FromLineStart(window) == window[i..]
  {
    hide IndexOfNewline;
    NewlineIsFirst(window);
    var n := IndexOfNewline(window);
    if 0 < n < |window| - 1 {
      assert window[n + 1 - 1] == '\n' && window[..n + 1 - 1] == window[..n];
    } else {
      assert window[0..] == window;
    }
  }

  lemma TrimmedLine(window: string, i: nat)
    requires i <= |window| && LineStart(window, i)
    ensures KeptOf(window, TrimStart(window[i..]))
  {
    hide FolderNames.ScriptSpace, TrimStart, Blank, LineStart;
    var lines := window[i..];
    TrimStartIs(lines);
    var kept := TrimStart(lines);
    var j := |window| - |kept|;
    assert kept == window[j..] && window[i..j] == lines[..|lines| - |kept|];
  }

  lemma NewestIs(text: string, budget: nat)
    requires 0 < budget < |text|
    ensures KeptOf(text[|text| - budget..], Newest(text, budget))
  {
    hide TrimStart, IndexOfNewline, FromLineStart, LineStart, KeptOf;
    var window := text[|text| - budget..];
    assert Last(text, budget) == window;
    LineStartIs(window);
    var n := IndexOfNewline(window);
    TrimmedLine(window, if 0 < n < |window| - 1 then n + 1 else 0);
  }

  /** Main result: a text over the budget keeps, behind the notice, exactly what the budget leaves for its newest characters,
      from a line start if one is in sight. */
  lemma TailKeepsTheNewest(content: string, maxChars: int, omitted: string)
    ensures |Trim(content)| <= maxChars ==> TrimFromTail(content, maxChars, omitted) == Trim(content)
    ensures |Trim(content)| > maxChars >= 1 && (Trim(omitted) == "" || |Trim(omitted)| + 2 <= maxChars) ==>
              var room := maxChars - |Trim(omitted)| - if Trim(omitted) == "" then 0 else 1;
              var window := Trim(content)[|Trim(content)| - room..];
              exists kept :: KeptOf(window, kept)
                && TrimFromTail(content, maxChars, omitted) == Trim(omitted) + (if Trim(omitted) != "" && kept != "" then "\n" else "") + kept
  {
    hide Trim, Newest, WithoutEmpty, Join, KeptOf;
    var normalized, notice := Trim(content), Trim(omitted);
    if |normalized| > maxChars >= 1 && (notice == "" || |notice| + 2 <= maxChars) {
      var room := maxChars - |notice| - if notice == "" then 0 else 1;
      NewestIs(normalized, room);
      JoinTwo(notice, Newest(normalized, room));
    }
  }

  // ---------------------------------------------------------------- the progress text

  /** The thoughts that are there, trimmed, in their order. */
  lemma ThoughtsTrimmed(analyzing: Option<string>, planning: Option<string>, decided: Option<string>)
    ensures Trimmed([analyzing, planning, decided]) == Thought(analyzing) + Thought(planning) + Thought(decided)
  {
    hide Thought, WithoutEmpty, Trim, Trimmed;
    ThoughtsCons(analyzing, [planning, decided]);
    ThoughtsCons(planning, [decided]);
    ThoughtsCons(decided, []);
    assert [analyzing] + [planning, decided] == [analyzing, planning, decided] && [planning] + [decided] == [planning, decided];
    assert [decided] + [] == [decided] && Trimmed([]) == [] by { NoThoughts(); }
    assert Thought(analyzing) + (Thought(planning) + (Thought(decided) + [])) == Thought(analyzing) + Thought(planning) + Thought(decided);
  }

  lemma NoThoughts()
    ensures Trimmed([]) == []
  {
  }

  lemma ThoughtsCons(t: Option<string>, rest: seq<Option<string>>)
    ensures Trimmed([t] + rest) == Thought(t) + Trimmed(rest)
  {
    hide Trim;
    OneThought(t);
    assert ([t] + rest)[1..] == rest;
  }

  function Thought(t: Option<string>): seq<string> {
    if t == None || Trim(t.value) == "" then [] else [Trim(t.value)]
  }

  lemma OneThought(t: Option<string>)
    ensures WithoutEmpty([if t.Some? then Trim(t.value) else ""]) == Thought(t)
  {
    hide Trim;
    var s := if t.Some? then Trim(t.value) else "";
    assert [s][1..] == [] && WithoutEmpty([]) == [];
  }

  /** The section of the main agent, when it fits: its header and its thoughts, a blank line between them. */
  lemma MbSectionShows(thoughts: seq<Option<string>>, labels: Labels, maxChars: int)
    ensures Trimmed(thoughts) == [] ==> MbSection(thoughts, labels, maxChars) == ""
    ensures var full := labels.mbHeader + "\n" + Join(Trimmed(thoughts), "\n\n");
            Trimmed(thoughts) != [] && |full| <= maxChars ==> MbSection(thoughts, labels, maxChars) == full
  {
    hide Trimmed, Join;
  }

  /** When it does not fit, each thought gets an equal share of what header and blank lines leave; if that fits, it is the section. */
  lemma MbSectionShares(thoughts: seq<Option<string>>, labels: Labels, maxChars: int, cut: seq<string>)
    requires var phases := Trimmed(thoughts); |cut| == |phases| > 0
    requires var phases := Trimmed(thoughts); var share := (maxChars - |labels.mbHeader| - 1 - 2 * (|phases| - 1)) / |phases|;
             forall i :: 0 <= i < |cut| ==> cut[i] == TrimFromTail(phases[i], if share < 1 then 1 else share, labels.omitted)
    ensures var full, part := labels.mbHeader + "\n" + Join(Trimmed(thoughts), "\n\n"), labels.mbHeader + "\n" + Join(cut, "\n\n");
            |full| > maxChars ==>
              MbSection(thoughts, labels, maxChars) == if |part| <= maxChars then part else TrimFromTail(part, maxChars, labels.omitted)
  {
    hide Trimmed, Join, TrimFromTail;
    var phases := Trimmed(thoughts);
    var overhead := |labels.mbHeader| + 1 + (|phases| - 1) * 2;
    var share := Max(1, (maxChars - overhead) / |phases|);
    assert TrimEach(phases, share, labels.omitted) == cut;
  }

  lemma {:induction false} LastingAppend(a: seq<Observation>, b: seq<Observation>)
    ensures Lasting(a + b) == Lasting(a) + Lasting(b)
    ensures forall o :: o in Lasting(a) ==> o in a && !o.transient
    decreases |a|
  {
    if a == [] {
      assert a + b == b;
    } else {
      assert (a + b)[1..] == a[1..] + b;
      LastingAppend(a[1..], b);
      var head: seq<Observation> := if a[0].transient then [] else [a[0]];
      assert head + (Lasting(a[1..]) + Lasting(b)) == (head + Lasting(a[1..])) + Lasting(b);
    }
  }

  lemma LastingOne(o: Observation)
    ensures Lasting([o]) == if o.transient then [] else [o]
  {
    assert [o][1..] == [];
  }

  function Cut(line: string): string {
    if |line| <= 1200 then line else line[..1200]
  }

  /** The section of the sub-agents: its header and a line for each of the last twelve lasting observations, cut to 1200
      characters; nothing when those lines are blank. */
  lemma SaSectionShows(observations: seq<Observation>, labels: Labels)
    ensures var all := Lasting(observations); var shown := if |all| <= 12 then all else all[|all| - 12..];
            exists lines: seq<string> :: |lines| == |shown| && (forall i :: 0 <= i < |shown| ==> lines[i] == Cut(shown[i].line))
              && SaSection(observations, labels, OBSERVATION_LIMIT) ==
                   if Trim(Join(lines, "\n")) == "" then "" else labels.saHeader + "\n" + Join(lines, "\n")
  {
    hide Trim, Join, Lasting;
    var shown := Recent(Lasting(observations), OBSERVATION_LIMIT);
    var lines := ObservationLines(shown);
    forall i | 0 <= i < |shown| ensures lines[i] == Cut(shown[i].line) {
      assert lines[i] == First(shown[i].line, EVENT_MAX_CHARS);
    }
  }

  /** A text holds something when trimming leaves something. */
  lemma NotBlank(s: string)
    ensures Trim(s) == "" <==> Blank(s)
  {
    hide FolderNames.ScriptSpace, Trim;
    TrimIs(s);
    var i, j :| 0 <= i <= j <= |s| && Trim(s) == s[i..j] && Blank(s[..i]) && Blank(s[j..]);
    if Trim(s) == "" {
      assert s == s[..i] + s[j..];
    } else {
      assert s[i] in s && !FolderNames.ScriptSpace(s[i]);
    }
  }

  lemma SaSectionHolds(observations: seq<Observation>, labels: Labels, limit: nat)
    ensures SaSection(observations, labels, limit) != "" ==> Trim(SaSection(observations, labels, limit)) != ""
  {
    hide Trim, Join, Lasting, Recent;
    var lines := Join(ObservationLines(Recent(Lasting(observations), limit)), "\n");
    var sa := labels.saHeader + "\n" + lines;
    NotBlank(lines);
    NotBlank(sa);
    if !Blank(lines) {
      var c :| c in lines && !FolderNames.ScriptSpace(c);
      assert c in sa;
    }
  }

  /** Main result: the progress text is the section of the main agent, then, behind a blank line, that of the sub-agents, cut
      from its older end to what the budget leaves; the main agent gets 1800 characters or 45 percent at most once the
      sub-agents have something to say. One section alone gets the whole budget, and none gives the fixed text. */
  lemma ProgressShowsBoth(thoughts: seq<Option<string>>, observations: seq<Observation>, labels: Labels, maxChars: int, limit: nat)
    ensures var sa := SaSection(observations, labels, limit);
            var most := if sa == "" then maxChars else Min(1800, Max(1, maxChars * 45 / 100));
            var mb, text := MbSection(thoughts, labels, most), ProgressText(thoughts, observations, labels, maxChars, limit);
            && (mb == "" && sa == "" ==> text == labels.nothing)
            && (mb == "" && sa != "" ==> text == TrimFromTail(sa, maxChars, labels.omitted))
            && (mb != "" && sa == "" ==> text == TrimFromTail(mb, maxChars, labels.omitted))
            && (mb != "" && sa != "" && |mb| + 2 + |Trim(sa)| <= maxChars ==> text == mb + "\n\n" + Trim(sa))
            && (mb != "" && sa != "" && |mb| + 2 < maxChars < |mb| + 2 + |Trim(sa)| ==>
                  var rest := TrimFromTail(sa, maxChars - |mb| - 2, labels.omitted);
                  text == if rest == "" then mb else mb + "\n\n" + rest)
  {
    hide Trim, MbSection, SaSection, TrimFromTail;
    var sa := SaSection(observations, labels, limit);
    var mb := MbSection(thoughts, labels, MbBudget(sa, maxChars));
    SaSectionHolds(observations, labels, limit);
    TailKeepsTheNewest(sa, maxChars - |mb| - 2, labels.omitted);
  }

  // ---------------------------------------------------------------- the attachment reminder

  lemma {:induction false} ItemsAppend(a: seq<Attachment>, x: Attachment)
    ensures Items(a + [x]) == Items(a) + [x.item]
    decreases |a|
  {
    if a == [] {
      assert a + [x] == [x] && [x][1..] == [];
    } else {
      assert (a + [x])[1..] == a[1..] + [x];
      ItemsAppend(a[1..], x);
    }
  }

  lemma {:induction false} ExcerptsAppend(a: seq<Attachment>, x: Attachment)
    ensures Excerpts(a + [x]) == Excerpts(a) + if x.excerpt.Some? then [x.excerpt.value] else []
    decreases |a|
  {
    if a == [] {
      assert a + [x] == [x] && [x][1..] == [];
    } else {
      assert (a + [x])[1..] == a[1..] + [x];
      ExcerptsAppend(a[1..], x);
    }
  }

  lemma {:induction false} StoredAppend(a: seq<Attachment>, x: Attachment)
    ensures Stored(a + [x]) == Stored(a) + if Trim(x.localPath) == "" then [] else [x]
    decreases |a|
  {
    hide Trim;
    if a == [] {
      assert a + [x] == [x] && [x][1..] == [];
    } else {
      assert (a + [x])[1..] == a[1..] + [x];
      StoredAppend(a[1..], x);
    }
  }

  /** Every attachment with a place has its item, and those with an excerpt that too, in their order. */
  lemma ItemsAndExcerpts(a: seq<Attachment>, x: Attachment)
    ensures Items(a + [x]) == Items(a) + [x.item]
    ensures Excerpts(a + [x]) == Excerpts(a) + if x.excerpt.Some? then [x.excerpt.value] else []
    ensures Stored(a + [x]) == Stored(a) + if Blank(x.localPath) then [] else [x]
  {
    hide Trim, Blank;
    NotBlank(x.localPath);
    ItemsAppend(a, x);
    ExcerptsAppend(a, x);
    StoredAppend(a, x);
  }

  /** The text of a reminder that fits: the header around the items, then the excerpts, blank lines between them; one that does
      not fit is cut behind and closed with the notice. */
  lemma ReminderShows(attachments: seq<Attachment>, message: string, header: string -> string, notice: string, maxTokens: nat, maxMessageChars: int)
    ensures var r := AttachmentContext(attachments, message, header, notice, maxTokens, maxMessageChars);
            var room := Min(maxTokens * 5 / 2, maxMessageChars - |message| - 122);
            var full := Join([header(Join(Items(Stored(attachments)), "\n"))] + Excerpts(Stored(attachments)), "\n\n");
            r.Some? ==> (
              room >= 320 &&
              if |full| <= room then r.value == full
              else exists n :: 0 <= n <= Max(1, room - |notice| - 2) && n <= |full| && r.value == full[..n] + "\n\n" + notice
                                && forall i :: n <= i < Max(1, room - |notice| - 2) ==> BlankAt(full, i))
  {
    hide Join, Items, Excerpts, Stored;
    var r := AttachmentContext(attachments, message, header, notice, maxTokens, maxMessageChars);
    if r.Some? {
      var room := Available(message, maxTokens, maxMessageChars);
      var full := Join([header(Join(Items(Stored(attachments)), "\n"))] + Excerpts(Stored(attachments)), "\n\n");
      if |full| > room {
        var cut := First(full, Max(1, room - |notice| - 2));
        TrimEndIs(cut);
        var kept := TrimEnd(cut);
        forall i | |kept| <= i < |cut| ensures BlankAt(full, i) {
          assert cut[i] in cut[|kept|..] && cut[i] == full[i];
        }
        assert kept == full[..|kept|];
      }
    }
  }

  // ---------------------------------------------------------------- folder names

  lemma {:induction false} RunsSplitAt(run: string, gap: string, rest: string, ws: char -> bool)
    requires FolderNames.KeptWord(run, ws) && gap != "" && forall c :: c in gap ==> FolderNames.Separates(ws, c)
    ensures FolderNames.KeptRuns(run + gap + rest, ws) == [run] + FolderNames.KeptRuns(rest, ws)
    decreases |run|
  {
    var s := run + gap + rest;
    assert s[0] == run[0] && !FolderNames.Separates(ws, s[0]);
    if |run| == 1 {
      assert s[1..] == gap + rest && s[1] == gap[0] && gap[0] in gap;
      GapIsNothing(gap, rest, ws);
      assert run == [s[0]];
    } else {
      assert s[1..] == run[1..] + gap + rest && s[1] == run[1];
      RunsSplitAt(run[1..], gap, rest, ws);
      assert run == [s[0]] + run[1..];
    }
  }

  lemma {:induction false} GapIsNothing(gap: string, rest: string, ws: char -> bool)
    requires forall c :: c in gap ==> FolderNames.Separates(ws, c)
    ensures FolderNames.KeptRuns(gap + rest, ws) == FolderNames.KeptRuns(rest, ws)
    decreases |gap|
  {
    if gap == "" {
      assert gap + rest == rest;
    } else {
      assert (gap + rest)[1..] == gap[1..] + rest && (gap + rest)[0] == gap[0] && gap[0] in gap;
      GapIsNothing(gap[1..], rest, ws);
    }
  }

  /** The nine characters a file system refuses, white space, and the underscore. */
  predicate Gap(c: char) {
    c == '/' || c == '\\' || c == ':' || c == '*' || c == '?' || c == '\"' || c == '<' || c == '>' || c == '|' || c == '_'
    || FolderNames.ScriptSpace(c)
  }

  predicate Word(w: string) {
    w != "" && forall c :: c in w ==> !Gap(c)
  }

  predicate Gaps(g: string) {
    forall c :: c in g ==> Gap(c)
  }

  lemma GapSeparates(c: char)
    ensures Gap(c) <==> FolderNames.Separates(FolderNames.ScriptSpace, c)
  {
  }

  /** Main result: a name is its words with one underscore between two of them, whatever lies between and around; a name without
      words is "unnamed". */
  lemma NameIsItsWords(g: string, w: string, h: string, v: string, k: string)
    requires Gaps(g) && Gaps(h) && Gaps(k) && Word(w) && Word(v) && h != ""
    ensures FolderNames.FrontEndName(g + w + h + v + k, FolderNames.ScriptSpace) == w + "_" + v
    ensures FolderNames.FrontEndName(g + w + k, FolderNames.ScriptSpace) == w
    ensures FolderNames.FrontEndName(g, FolderNames.ScriptSpace) == "unnamed"
  {
    hide FolderNames.FrontEndName, FolderNames.KeptRuns, FolderNames.Separates;
    var ws := FolderNames.ScriptSpace;
    forall c: char ensures Gap(c) <==> FolderNames.Separates(ws, c) { GapSeparates(c); }
    FolderNames.FrontEndNamesRuns(g + w + h + v + k, ws);
    FolderNames.FrontEndNamesRuns(g + w + k, ws);
    FolderNames.FrontEndNamesRuns(g, ws);
    NoRuns(ws);
    assert g + w + h + v + k == g + (w + h + (v + k)) && g + w + k == g + (w + k) && g == g + "";
    GapIsNothing(g, w + h + (v + k), ws);
    GapIsNothing(g, w + k, ws);
    GapIsNothing(g, "", ws);
    RunsSplitAt(w, h, v + k, ws);
    LastWord(v, k, ws);
    LastWord(w, k, ws);
    assert [w] + [v] == [w, v] && [w, v][1..] == [v];
    assert FolderNames.KeptRuns(g + w + h + v + k, ws) == [w, v] && FolderNames.KeptRuns(g + w + k, ws) == [w];
    assert FolderNames.KeptRuns(g, ws) == [];
    assert FolderNames.JoinUnderscore([v]) == v && FolderNames.JoinUnderscore([w]) == w;
    assert FolderNames.JoinUnderscore([w, v]) == w + "_" + v;
  }

  lemma NoRuns(ws: char -> bool)
    ensures FolderNames.KeptRuns("", ws) == []
  {
  }

  lemma LastWord(v: string, k: string, ws: char -> bool)
    requires FolderNames.KeptWord(v, ws) && forall c :: c in k ==> FolderNames.Separates(ws, c)
    ensures FolderNames.KeptRuns(v + k, ws) == [v]
  {
    if k == "" {
      assert v + k == v;
      FolderNames.RunAlone(v, ws);
    } else {
      assert v + k == v + k + "";
      RunsSplitAt(v, k, "", ws);
      NoRuns(ws);
    }
  }

  /** None of the nine characters, and no white space, is in a cleaned name of either end. */
  lemma CleanNamesAreSafe(name: string, c: char)
    requires Gap(c) && c != '_'
    ensures c !in FolderNames.FrontEndName(name, FolderNames.ScriptSpace)
    ensures c !in FolderNames.BackEndName(name, FolderNames.UnicodeSpace) || c == FolderNames.BYTE_ORDER_MARK
  {
    FolderNames.FrontEndNamesRuns(name, FolderNames.ScriptSpace);
    FolderNames.BackEndNamesRuns(name, FolderNames.UnicodeSpace);
    NotInRuns(name, FolderNames.ScriptSpace, c);
    if c != FolderNames.BYTE_ORDER_MARK {
      NotInRuns(name, FolderNames.UnicodeSpace, c);
    }
  }

  lemma NotInRuns(name: string, ws: char -> bool, c: char)
    requires FolderNames.Separates(ws, c) && c != '_' && c !in "unnamed"
    ensures c !in FolderNames.NameOf(FolderNames.KeptRuns(name, ws))
  {
    hide FolderNames.Separates;
    var runs := FolderNames.KeptRuns(name, ws);
    FolderNames.RunsAreKept(name, ws);
    FolderNames.JoinHolds(runs, c);
    forall run | run in runs ensures c !in run {
      var i :| 0 <= i < |runs| && runs[i] == run;
      assert FolderNames.KeptWord(runs[i], ws);
      assert forall j :: 0 <= j < |run| ==> !FolderNames.Separates(ws, run[j]);
    }
  }

  // ---------------------------------------------------------------- written maps

  /** What is written for a map: an object with the tag and the entries as pairs, in order. */
  lemma MapIsWritten(entries: seq<MapCodec.Field>)
    ensures var j := MapCodec.Encode(MapCodec.Dict(entries));
            && j.Object? && |j.fields| == 2 && j.fields[0] == MapCodec.Field("__type", MapCodec.Text("Map"))
            && j.fields[1].key == "entries" && j.fields[1].value.List? && |j.fields[1].value.items| == |entries|
            && forall i :: 0 <= i < |entries| ==>
                 j.fields[1].value.items[i] == MapCodec.List([MapCodec.Text(entries[i].key), MapCodec.Encode(entries[i].value)])
  {
  }

  /** Of two entries with one key a map read back has the later value in the earlier place. */
  lemma RepeatedKey(a: string, b: string, x: MapCodec.Value, y: MapCodec.Value, z: MapCodec.Value)
    requires a != b
    ensures var pairs := [MapCodec.List([MapCodec.Text(a), x]), MapCodec.List([MapCodec.Text(b), y]), MapCodec.List([MapCodec.Text(a), z])];
            var written := [MapCodec.Field("__type", MapCodec.Text("Map")), MapCodec.Field("entries", MapCodec.List(pairs))];
            MapCodec.Revive(written) == Some(MapCodec.Dict([MapCodec.Field(a, z), MapCodec.Field(b, y)]))
  {
    var pairs := [MapCodec.List([MapCodec.Text(a), x]), MapCodec.List([MapCodec.Text(b), y]), MapCodec.List([MapCodec.Text(a), z])];
    var written := [MapCodec.Field("__type", MapCodec.Text("Map")), MapCodec.Field("entries", MapCodec.List(pairs))];
    var one, two, three := MapCodec.Field(a, x), MapCodec.Field(b, y), MapCodec.Field(a, z);
    assert written[1..][0] == written[1] && MapCodec.Lookup(written, "entries") == Some(MapCodec.List(pairs));
    assert seq(|pairs|, i requires 0 <= i < |pairs| => MapCodec.EntryOf(pairs[i])) == [one, two, three];
    assert [one, two, three][1..] == [two, three] && [two, three][1..] == [three] && [three][1..] == [];
    assert MapCodec.Put([], one) == [one] && [one][1..] == [] && MapCodec.Put([one], two) == [one, two];
    assert [one, two][1..] == [two] && MapCodec.Put([one, two], three) == [three, two];
    assert MapCodec.PutAll([one, two], [three]) == [three, two] && MapCodec.PutAll([one], [two, three]) == [three, two];
    assert MapCodec.PutAll([], [one, two, three]) == [three, two];
  }

  // ---------------------------------------------------------------- images

  /** The types that come out of a data URL: the one written there, except that jpg is called jpeg. */
  lemma ImageTypes(extension: string, data: string)
    requires ImageSpans.IsExtension(extension) && ImageSpans.IsData(data)
    ensures ImageSpans.ParseDataUrl("data:image/" + extension + ";base64," + data) ==
            Some(ImageSpans.Image(if extension == "jpg" then "image/jpeg" else "image/" + extension, data))
  {
    ImageSpans.ParsesBack(extension, data);
    assert "image/" + "jpeg" == "image/jpeg";
  }

  /** One image between two texts: its markup gives way to the placeholder, its type and data are handed out. */
  lemma OneImageTakenOut(before: string, after: string, shot: ImageSpans.Shot)
    requires ImageSpans.Lacks(before, "](data:image/") && ImageSpans.Lacks(after, "](data:image/") && ImageSpans.Proper(shot)
    ensures var message := before + "![" + shot.alt + "](data:image/" + shot.extension + ";base64," + shot.data + ")" + after;
            var pieces := ImageSpans.Pieces(message, 0);
            && ImageSpans.AllWithin(message, pieces)
            && ImageSpans.Cleaned(message, pieces) == before + "[Generated image]" + after
            && ImageSpans.Images(pieces) == [ImageSpans.Image(if shot.extension == "jpg" then "image/jpeg" else "image/" + shot.extension, shot.data)]
  {
    hide ImageSpans.Lacks, ImageSpans.Proper, ImageSpans.Pieces, ImageSpans.AllWithin, ImageSpans.Cleaned, ImageSpans.Images;
    var texts, shots := [before, after], [shot];
    ImageSpans.ExtractionInvertsRendering(texts, shots);
    assert texts[1..] == [after] && shots[1..] == [];
    assert ImageSpans.Message([after], []) == after && ImageSpans.WithPlaceholders([after]) == after && ImageSpans.ImagesOf([]) == [];
    var url := "data:image/" + shot.extension + ";base64," + shot.data;
    assert ImageSpans.DataUrl(shot.extension, shot.data) == url;
    assert "](" + url == "](data:image/" + shot.extension + ";base64," + shot.data by { assert "](" + "data:image/" == "](data:image/"; }
    assert ImageSpans.Render(shot) == "![" + shot.alt + "](data:image/" + shot.extension + ";base64," + shot.data + ")";
    assert "image/" + "jpeg" == "image/jpeg";
    Markup(before, shot.alt, shot.extension, shot.data, after);
    assert ImageSpans.Message(texts, shots) == before + ImageSpans.Render(shot) + after;
    assert ImageSpans.WithPlaceholders(texts) == before + "[Generated image]" + after;
  }

  lemma Markup(before: string, alt: string, extension: string, data: string, after: string)
    ensures before + "![" + alt + "](data:image/" + extension + ";base64," + data + ")" + after ==
            before + ("![" + alt + "](data:image/" + extension + ";base64," + data + ")") + after
  {
  }
}

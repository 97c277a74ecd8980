/** Texts built to fit a character budget: head-and-tail truncation, the progress text of a checkpoint, and the
attachment reminder in front of a user message. Translations are parameters; fractions are exact. */
module TextBudget {
  import opened Modifications
  import FolderNames

  function Max(a: int, b: int): int {
    if a < b then b else a
  }

  function Min(a: int, b: int): int {
    if a < b then a else b
  }

  // ---------------------------------------------------------------- trimming and slicing

  predicate EndsWith(s: string, r: string) {
    |r| <= |s| && r == s[|s| - |r|..]
  }

  lemma EndsWithTransitive(a: string, b: string, c: string)
    requires EndsWith(a, b) && EndsWith(b, c)
    ensures EndsWith(a, c)
  {
    assert a[|a| - |b|..][|b| - |c|..] == a[|a| - |c|..];
  }

  function TrimStart(s: string): (r: string)
    ensures EndsWith(s, r)
  {
    if s != "" && FolderNames.ScriptSpace(s[0]) then TrimStart(s[1..]) else s
  }

  function TrimEnd(s: string): (r: string)
    ensures |r| <= |s| && r == s[..|r|]
  {
    if s != "" && FolderNames.ScriptSpace(s[|s| - 1]) then TrimEnd(s[..|s| - 1]) else s
  }

  function Trim(s: string): (r: string)
    ensures |r| <= |s|
  {
    TrimEnd(TrimStart(s))
  }

  function First(s: string, n: int): (r: string)
    ensures |r| == Max(0, Min(n, |s|)) && r <= s
  {
    s[..Max(0, Min(n, |s|))]
  }

  /** The last `n` characters, as slicing from a negative index does for positive `n`. */
  function Last(s: string, n: int): (r: string)
    ensures |r| == Max(0, Min(n, |s|)) && EndsWith(s, r)
  {
    s[|s| - Max(0, Min(n, |s|))..]
  }

  function Join(parts: seq<string>, separator: string): string {
    if |parts| == 0 then "" else if |parts| == 1 then parts[0] else parts[0] + separator + Join(parts[1..], separator)
  }

  function WithoutEmpty(parts: seq<string>): seq<string> {
    if parts == [] then [] else (if parts[0] == "" then [] else [parts[0]]) + WithoutEmpty(parts[1..])
  }

  // ---------------------------------------------------------------- head and tail

  const ELLIPSIS := "... [truncated] ..."

  /** Three fifths of the room go to the head. */
  function TruncateHeadAndTail(text: string, budget: int): string {
    if |text| <= budget then text
    else
      var room := Max(0, budget - |ELLIPSIS|);
      var headChars := room * 3 / 5;
      First(text, headChars) + ELLIPSIS + Last(text, room - headChars)
  }

  /** Main result: text over the budget becomes a true head, the mark and a true tail, all that fits and no more:
      its length is the budget, or that of the mark alone when the budget is smaller. Head and tail do not overlap. */
  lemma TruncationIsExact(text: string, budget: int)
    requires |text| > budget
    ensures var r := TruncateHeadAndTail(text, budget);
            && |r| == Max(budget, 19)
            && exists i, j | 0 <= i <= j <= |text| :: r == text[..i] + ELLIPSIS + text[j..]
  {
    var room := Max(0, budget - |ELLIPSIS|);
    var headChars := room * 3 / 5;
    assert 0 <= headChars <= room <= |text|;
    var i, j := headChars, |text| - (room - headChars);
    assert First(text, headChars) == text[..i] && Last(text, room - headChars) == text[j..];
  }

  // ---------------------------------------------------------------- keeping the tail

  function IndexOfNewline(s: string): (r: int)
    ensures -1 <= r < |s|
    ensures r >= 0 ==> s[r] == '\n'
  {
    if s == "" then -1
    else if s[0] == '\n' then 0
    else if IndexOfNewline(s[1..]) < 0 then -1 else IndexOfNewline(s[1..]) + 1
  }

  /** The newest characters within the budget, from a line start if one is in sight. */
  function Newest(text: string, budget: int): (r: string)
    ensures EndsWith(text, r) && |r| <= Max(0, budget)
  {
    var suffix := Last(text, budget);
    var lines := FromLineStart(suffix);
    var r := TrimStart(lines);
    EndsWithTransitive(text, suffix, lines);
    EndsWithTransitive(text, lines, r);
    r
  }

  /** What follows the first line break, unless that is nothing or everything. */
  function FromLineStart(s: string): (r: string)
    ensures EndsWith(s, r)
  {
    var newline := IndexOfNewline(s);
    if 0 < newline < |s| - 1 then s[newline + 1..] else s
  }

  /** Keeps the newest part behind a notice. */
  function TrimFromTail(content: string, maxChars: int, omitted: string): string {
    var normalized := Trim(content);
    if |normalized| <= maxChars then normalized
    else
      var notice := Trim(omitted);
      var budget := Max(1, maxChars - |notice| - if notice == "" then 0 else 1);
      Join(WithoutEmpty([notice, Newest(normalized, budget)]), "\n")
  }

  /** The budget has room for the notice, a line break and some text. */
  predicate Fits(omitted: string, budget: int) {
    budget >= 1 && (Trim(omitted) != "" ==> |Trim(omitted)| + 2 <= budget)
  }

  lemma JoinTwo(a: string, b: string)
    ensures Join(WithoutEmpty([a, b]), "\n") == a + (if a != "" && b != "" then "\n" else "") + b
  {
    assert [a, b][1..] == [b] && [b][1..] == [];
    assert WithoutEmpty([b]) == if b == "" then [] else [b];
    if a != "" && b != "" {
      assert WithoutEmpty([a, b]) == [a, b];
      assert Join([a, b], "\n") == a + "\n" + Join([b], "\n");
    }
  }

  /** The kept part is the notice, if any, and a true suffix of the trimmed text; when the notice fits, the whole
      stays within the budget. */
  lemma TailFits(content: string, maxChars: int, omitted: string)
    ensures Fits(omitted, maxChars) ==> |TrimFromTail(content, maxChars, omitted)| <= maxChars
    ensures |Trim(content)| > maxChars ==>
              exists j | 0 <= j <= |Trim(content)| ::
                var kept := Trim(content)[j..];
                TrimFromTail(content, maxChars, omitted) ==
                Trim(omitted) + (if Trim(omitted) != "" && kept != "" then "\n" else "") + kept
  {
    hide Trim, Newest, WithoutEmpty, Join;
    var normalized, notice := Trim(content), Trim(omitted);
    if |normalized| > maxChars {
      var kept := Newest(normalized, Max(1, maxChars - |notice| - if notice == "" then 0 else 1));
      JoinTwo(notice, kept);
      assert kept == normalized[|normalized| - |kept|..];
    }
  }

  // ---------------------------------------------------------------- the progress text of a checkpoint

  const PERSIST_MAX_CHARS: nat := 4200
  const MB_MAX_CHARS: nat := 1800
  const EVENT_MAX_CHARS: nat := 1200
  const OBSERVATION_LIMIT: nat := 12

  datatype Labels = Labels(mbHeader: string, saHeader: string, omitted: string, nothing: string)

  /** One sub-agent observation and its line as it is formatted. */
  datatype Observation = Observation(transient: bool, line: string)

  function Trimmed(texts: seq<Option<string>>): seq<string> {
    if texts == [] then []
    else WithoutEmpty([if texts[0].Some? then Trim(texts[0].value) else ""]) + Trimmed(texts[1..])
  }

  function TrimEach(phases: seq<string>, budget: int, omitted: string): (r: seq<string>)
    ensures |r| == |phases|
  {
    seq(|phases|, i requires 0 <= i < |phases| => TrimFromTail(phases[i], budget, omitted))
  }

  function Section(header: string, phases: seq<string>): string {
    header + "\n" + Join(phases, "\n\n")
  }

  /** The thoughts of the main agent; each is cut to its share first, then the whole if that was not enough. */
  function MbSection(thoughts: seq<Option<string>>, labels: Labels, maxChars: int): string {
    var phases := Trimmed(thoughts);
    if phases == [] then ""
    else
      var raw := Section(labels.mbHeader, phases);
      if |raw| <= maxChars then raw
      else
        var overhead := |labels.mbHeader| + 1 + (|phases| - 1) * 2;
        var share := Max(1, (maxChars - overhead) / |phases|);
        var trimmed := Section(labels.mbHeader, TrimEach(phases, share, labels.omitted));
        if |trimmed| <= maxChars then trimmed else TrimFromTail(trimmed, maxChars, labels.omitted)
  }

  function Lasting(observations: seq<Observation>): seq<Observation> {
    if observations == [] then []
    else (if observations[0].transient then [] else [observations[0]]) + Lasting(observations[1..])
  }

  /** The last `limit` of them; a limit of zero keeps all, as slicing from minus zero does. */
  function Recent(observations: seq<Observation>, limit: nat): seq<Observation> {
    if limit == 0 || |observations| <= limit then observations else observations[|observations| - limit..]
  }

  function ObservationLines(observations: seq<Observation>): (r: seq<string>)
    ensures |r| == |observations| && forall i :: 0 <= i < |r| ==> |r[i]| <= EVENT_MAX_CHARS
  {
    seq(|observations|, i requires 0 <= i < |observations| => First(observations[i].line, EVENT_MAX_CHARS))
  }

  function SaSection(observations: seq<Observation>, labels: Labels, limit: nat): string {
    var lines := Join(ObservationLines(Recent(Lasting(observations), limit)), "\n");
    if Trim(lines) == "" then "" else labels.saHeader + "\n" + lines
  }

  function MbBudget(sa: string, maxChars: int): int {
    if sa == "" then maxChars else Min(MB_MAX_CHARS, Max(1, maxChars * 45 / 100))
  }

  function ProgressText(thoughts: seq<Option<string>>, observations: seq<Observation>, labels: Labels, maxChars: int, limit: nat): string {
    var sa := SaSection(observations, labels, limit);
    var mb := MbSection(thoughts, labels, MbBudget(sa, maxChars));
    if mb == "" && sa == "" then labels.nothing
    else if mb == "" then TrimFromTail(sa, maxChars, labels.omitted)
    else if sa == "" then TrimFromTail(mb, maxChars, labels.omitted)
    else
      var rest := TrimFromTail(sa, Max(1, maxChars - |mb| - 2), labels.omitted);
      if rest == "" then mb else mb + "\n\n" + rest
  }

  /** Something to report. */
  predicate HasProgress(thoughts: seq<Option<string>>, observations: seq<Observation>, labels: Labels, maxChars: int, limit: nat) {
    var sa := SaSection(observations, labels, limit);
    sa != "" || MbSection(thoughts, labels, MbBudget(sa, maxChars)) != ""
  }

  /** The notice fits what each section may take. */
  predicate NoticeFits(thoughts: seq<Option<string>>, observations: seq<Observation>, labels: Labels, maxChars: int, limit: nat) {
    var sa := SaSection(observations, labels, limit);
    var mb := MbSection(thoughts, labels, MbBudget(sa, maxChars));
    && Fits(labels.omitted, MbBudget(sa, maxChars))
    && Fits(labels.omitted, if mb == "" then maxChars else if sa == "" then maxChars else maxChars - |mb| - 2)
  }

  lemma MbSectionFits(thoughts: seq<Option<string>>, labels: Labels, maxChars: int)
    requires Fits(labels.omitted, maxChars)
    ensures |MbSection(thoughts, labels, maxChars)| <= maxChars
  {
    hide TrimFromTail, Section, Trimmed;
    var phases := Trimmed(thoughts);
    if phases != [] {
      var overhead := |labels.mbHeader| + 1 + (|phases| - 1) * 2;
      var share := Max(1, (maxChars - overhead) / |phases|);
      TailFits(Section(labels.mbHeader, TrimEach(phases, share, labels.omitted)), maxChars, labels.omitted);
    }
  }

  /** Main result: progress text never exceeds its budget when the notice fits both section budgets. */
  lemma ProgressTextFits(thoughts: seq<Option<string>>, observations: seq<Observation>, labels: Labels, maxChars: int, limit: nat)
    ensures HasProgress(thoughts, observations, labels, maxChars, limit) && NoticeFits(thoughts, observations, labels, maxChars, limit) ==>
              |ProgressText(thoughts, observations, labels, maxChars, limit)| <= maxChars
  {
    hide TrimFromTail, MbSection, SaSection, MbBudget, Fits, Trim;
    var sa := SaSection(observations, labels, limit);
    var mb := MbSection(thoughts, labels, MbBudget(sa, maxChars));
    TailFits(sa, maxChars, labels.omitted);
    TailFits(mb, maxChars, labels.omitted);
    TailFits(sa, maxChars - |mb| - 2, labels.omitted);
    FitsPositive(labels.omitted, maxChars - |mb| - 2);
  }

  lemma FitsPositive(omitted: string, budget: int)
    ensures Fits(omitted, budget) ==> budget >= 1
  {
  }

  /** With the built-in limits any notice of up to 1798 characters fits, so the text stays within 4200. */
  lemma BuiltInLimitsHold(thoughts: seq<Option<string>>, observations: seq<Observation>, labels: Labels)
    requires |Trim(labels.omitted)| <= 1798
    ensures HasProgress(thoughts, observations, labels, PERSIST_MAX_CHARS, OBSERVATION_LIMIT) ==>
              |ProgressText(thoughts, observations, labels, PERSIST_MAX_CHARS, OBSERVATION_LIMIT)| <= PERSIST_MAX_CHARS
  {
    hide TrimFromTail, MbSection, SaSection, ProgressText, Trim;
    var sa := SaSection(observations, labels, OBSERVATION_LIMIT);
    MbSectionFits(thoughts, labels, MbBudget(sa, PERSIST_MAX_CHARS));
    ProgressTextFits(thoughts, observations, labels, PERSIST_MAX_CHARS, OBSERVATION_LIMIT);
  }

  // ---------------------------------------------------------------- the attachment reminder

  const MIN_CONTEXT_CHARS: nat := 320
  const SAFETY_MARGIN: nat := 120

  /** One attachment as the reminder needs it: where it lies, its line, and its excerpt if it is a document with
      text in it. */
  datatype Attachment = Attachment(localPath: string, item: string, excerpt: Option<string>)

  function Stored(attachments: seq<Attachment>): seq<Attachment> {
    if attachments == [] then []
    else (if Trim(attachments[0].localPath) == "" then [] else [attachments[0]]) + Stored(attachments[1..])
  }

  function Items(attachments: seq<Attachment>): seq<string> {
    if attachments == [] then [] else [attachments[0].item] + Items(attachments[1..])
  }

  function Excerpts(attachments: seq<Attachment>): seq<string> {
    if attachments == [] then []
    else (if attachments[0].excerpt.Some? then [attachments[0].excerpt.value] else []) + Excerpts(attachments[1..])
  }

  /** Two and a half characters a token, and what the message leaves free. */
  function Available(message: string, maxTokens: nat, maxMessageChars: int): int {
    Min(maxTokens * 5 / 2, Max(0, maxMessageChars - |message| - 2 - SAFETY_MARGIN))
  }

  function AttachmentContext(attachments: seq<Attachment>, message: string, header: string -> string, notice: string,
                             maxTokens: nat, maxMessageChars: int): Option<string> {
    var valid := Stored(attachments);
    var available := Available(message, maxTokens, maxMessageChars);
    if valid == [] || available < MIN_CONTEXT_CHARS then None
    else
      var raw := Join([header(Join(Items(valid), "\n"))] + Excerpts(valid), "\n\n");
      if |raw| <= available then Some(raw)
      else Some(TrimEnd(First(raw, Max(1, available - |notice| - 2))) + "\n\n" + notice)
  }

  /** Main result: reminder, separator and message together stay the safety margin below the message limit, as
      long as the notice and its separator are shorter than the smallest context offered. */
  lemma ReminderFits(attachments: seq<Attachment>, message: string, header: string -> string, notice: string,
                     maxTokens: nat, maxMessageChars: int)
    requires |notice| + 2 < MIN_CONTEXT_CHARS
    ensures var r := AttachmentContext(attachments, message, header, notice, maxTokens, maxMessageChars);
            r.Some? ==> |r.value| + 2 + |message| <= maxMessageChars - SAFETY_MARGIN && |r.value| <= maxTokens * 5 / 2
  {
    hide Join, Items, Excerpts, Stored, TrimEnd;
  }

  /** When a reminder is offered at all: some attachment is stored, the token limit allows the smallest context, and
      the message leaves room for it. */
  lemma ReminderOfferedWhen(attachments: seq<Attachment>, message: string, header: string -> string, notice: string,
                            maxTokens: nat, maxMessageChars: int)
    ensures AttachmentContext(attachments, message, header, notice, maxTokens, maxMessageChars).Some? <==>
            Stored(attachments) != [] && maxTokens >= 128 && |message| + 442 <= maxMessageChars
  {
    hide Join, Items, Excerpts, TrimEnd, Stored;
  }

  lemma {:induction false} StoredWhen(attachments: seq<Attachment>)
    ensures Stored(attachments) != [] <==> exists a :: a in attachments && Trim(a.localPath) != ""
  {
    if attachments != [] {
      StoredWhen(attachments[1..]);
      assert attachments == [attachments[0]] + attachments[1..];
    }
  }
}

/** Taking generated images out of a message: every image written as a data URL is replaced by a placeholder and
returned beside the text, found by plain string search. */
module ImageSpans {
  import opened Modifications

  const MARKER := "](data:image/"
  const OPENING := "!["
  const PLACEHOLDER := "[Generated image]"
  const PREFIX := "data:image/"
  const BASE64 := ";base64,"

  datatype Image = Image(mimeType: string, data: string)

  // ---------------------------------------------------------------- string search

  predicate At(s: string, pattern: string, i: int) {
    0 <= i <= |s| - |pattern| && s[i..i + |pattern|] == pattern
  }

  /** The first occurrence at or after `from`, or -1. */
  function IndexOf(s: string, pattern: string, from: nat): (r: int)
    requires from <= |s|
    ensures r == -1 || (from <= r && At(s, pattern, r))
    ensures r == -1 ==> forall i :: from <= i ==> !At(s, pattern, i)
    ensures r >= 0 ==> forall i :: from <= i < r ==> !At(s, pattern, i)
    decreases |s| - from
  {
    if At(s, pattern, from) then from else if from == |s| then -1 else IndexOf(s, pattern, from + 1)
  }

  /** The last occurrence that starts at or before `upTo`, or -1. */
  function LastIndexOf(s: string, pattern: string, upTo: nat): (r: int)
    ensures r == -1 || (0 <= r <= upTo && At(s, pattern, r))
    ensures forall i :: r < i <= upTo ==> !At(s, pattern, i)
  {
    if At(s, pattern, upTo) then upTo else if upTo == 0 then -1 else LastIndexOf(s, pattern, upTo - 1)
  }

  // ---------------------------------------------------------------- the data URL

  predicate IsWord(c: char) {
    'a' <= c <= 'z' || 'A' <= c <= 'Z' || '0' <= c <= '9' || c == '_'
  }

  predicate IsLineEnd(c: char) {
    c == '\n' || c == '\r' || c == '\U{2028}' || c == '\U{2029}'
  }

  predicate IsExtension(s: string) {
    s != "" && forall i :: 0 <= i < |s| ==> IsWord(s[i])
  }

  predicate IsData(s: string) {
    s != "" && forall i :: 0 <= i < |s| ==> !IsLineEnd(s[i])
  }

  function MimeType(extension: string): string {
    "image/" + (if extension == "jpg" then "jpeg" else extension)
  }

  function WordLength(s: string): (n: nat)
    ensures n <= |s| && (forall i :: 0 <= i < n ==> IsWord(s[i])) && (n < |s| ==> !IsWord(s[n]))
  {
    if s == "" || !IsWord(s[0]) then 0 else 1 + WordLength(s[1..])
  }

  /** An image type of word characters, then base 64 data without a line end. */
  function ParseDataUrl(url: string): Option<Image> {
    if !(PREFIX <= url) then None
    else
      var rest := url[|PREFIX|..];
      var n := WordLength(rest);
      if n == 0 || !(BASE64 <= rest[n..]) || !IsData(rest[n + |BASE64|..]) then None
      else Some(Image(MimeType(rest[..n]), rest[n + |BASE64|..]))
  }

  function DataUrl(extension: string, data: string): string {
    PREFIX + extension + BASE64 + data
  }

  lemma ParsesBack(extension: string, data: string)
    requires IsExtension(extension) && IsData(data)
    ensures ParseDataUrl(DataUrl(extension, data)) == Some(Image(MimeType(extension), data))
  {
    var url := DataUrl(extension, data);
    var rest := extension + (BASE64 + data);
    assert url == PREFIX + rest && url[|PREFIX|..] == rest;
    WordEnds(extension, BASE64 + data);
    var n := |extension|;
    assert rest[..n] == extension && rest[n..] == BASE64 + data && rest[n + |BASE64|..] == data;
  }

  lemma {:induction false} WordEnds(word: string, rest: string)
    requires forall i :: 0 <= i < |word| ==> IsWord(word[i])
    requires rest != "" && !IsWord(rest[0])
    ensures WordLength(word + rest) == |word|
    decreases |word|
  {
    if word == "" {
      assert word + rest == rest;
    } else {
      assert (word + rest)[0] == word[0] && (word + rest)[1..] == word[1..] + rest;
      WordEnds(word[1..], rest);
    }
  }

  /** A data URL is recognized exactly when it is built from an image type and data. */
  lemma ParseIsExact(url: string, image: Image)
    ensures ParseDataUrl(url) == Some(image) <==>
            exists extension ::
              IsExtension(extension) && IsData(image.data) && url == DataUrl(extension, image.data) && image.mimeType == MimeType(extension)
  {
    if ParseDataUrl(url) == Some(image) {
      var rest := url[|PREFIX|..];
      var n := WordLength(rest);
      assert url == PREFIX + rest && rest == rest[..n] + BASE64 + rest[n + |BASE64|..];
      assert url == DataUrl(rest[..n], image.data) && IsExtension(rest[..n]);
    }
    forall extension | IsExtension(extension) && IsData(image.data) && url == DataUrl(extension, image.data)
      ensures ParseDataUrl(url) == Some(Image(MimeType(extension), image.data))
    {
      ParsesBack(extension, image.data);
    }
  }

  // ---------------------------------------------------------------- the pieces of a message

  /** A stretch of the message that stays, or one that is replaced, with the image it yields if any. */
  datatype Piece = Kept(start: nat, end: nat) | Span(start: nat, end: nat, image: Option<Image>)

  /** What the search finds from a position on: no marker, a marker to be passed over because no image opens before
      it or none closes behind it, or an image. */
  datatype Cut = Done | Skip(next: nat) | Take(opening: nat, next: nat, image: Option<Image>)

  function NextCut(content: string, from: nat): (cut: Cut)
    requires from <= |content|
    ensures cut.Skip? ==> from < cut.next <= |content|
    ensures cut.Take? ==> from <= cut.opening < cut.next <= |content|
  {
    var marker := IndexOf(content, MARKER, from);
    if marker == -1 then Done
    else
      var opening := LastIndexOf(content, OPENING, marker);
      var closing := IndexOf(content, ")", marker + 2);
      if opening == -1 || opening < from || closing == -1 then Skip(marker + |MARKER|)
      else Take(opening, closing + 1, ParseDataUrl(content[marker + 2..closing]))
  }

  function Pieces(content: string, from: nat): (pieces: seq<Piece>)
    requires from <= |content|
    decreases |content| - from
  {
    match NextCut(content, from)
    case Done => [Kept(from, |content|)]
    case Skip(next) => [Kept(from, next)] + Pieces(content, next)
    case Take(opening, next, image) => [Kept(from, opening)] + ([Span(opening, next, image)] + Pieces(content, next))
  }

  predicate Within(content: string, p: Piece) {
    p.start <= p.end <= |content|
  }

  predicate AllWithin(content: string, pieces: seq<Piece>) {
    forall i :: 0 <= i < |pieces| ==> Within(content, pieces[i])
  }

  /** The message with placeholders. */
  function Cleaned(content: string, pieces: seq<Piece>): string
    requires AllWithin(content, pieces)
  {
    if pieces == [] then ""
    else (if pieces[0].Kept? then content[pieces[0].start..pieces[0].end] else PLACEHOLDER) + Cleaned(content, pieces[1..])
  }

  /** The same with every placeholder replaced by the span it stands for. */
  function Expanded(content: string, pieces: seq<Piece>): string
    requires AllWithin(content, pieces)
  {
    if pieces == [] then "" else content[pieces[0].start..pieces[0].end] + Expanded(content, pieces[1..])
  }

  function Images(pieces: seq<Piece>): seq<Image> {
    if pieces == [] then []
    else (if pieces[0].Span? && pieces[0].image.Some? then [pieces[0].image.value] else []) + Images(pieces[1..])
  }

  /** Every piece starts where the one before ends, so spans are ordered and share no character. */
  predicate Consecutive(content: string, pieces: seq<Piece>, from: nat) {
    if pieces == [] then from == |content|
    else pieces[0].start == from && Within(content, pieces[0]) && Consecutive(content, pieces[1..], pieces[0].end)
  }

  lemma Uncons<T>(t: T, rest: seq<T>)
    ensures ([t] + rest)[0] == t && ([t] + rest)[1..] == rest
  {
  }

  /** How the readings of a list of pieces grow by one piece in front. */
  lemma PieceInFront(content: string, p: Piece, rest: seq<Piece>)
    ensures Within(content, p) && AllWithin(content, rest) ==>
              && AllWithin(content, [p] + rest)
              && Cleaned(content, [p] + rest) == (if p.Kept? then content[p.start..p.end] else PLACEHOLDER) + Cleaned(content, rest)
    ensures Images([p] + rest) == (if p.Span? && p.image.Some? then [p.image.value] else []) + Images(rest)
    ensures Consecutive(content, [p] + rest, p.start) <==> Within(content, p) && Consecutive(content, rest, p.end)
  {
    Uncons(p, rest);
    if Within(content, p) && AllWithin(content, rest) {
      assert AllWithin(content, [p] + rest);
    }
  }

  lemma {:induction false} PiecesAreConsecutive(content: string, from: nat)
    requires from <= |content|
    ensures Consecutive(content, Pieces(content, from), from)
    decreases |content| - from
  {
    hide NextCut, Consecutive, Images, Cleaned, AllWithin;
    match NextCut(content, from) {
      case Done =>
        NothingLeft(content);
        PieceInFront(content, Kept(from, |content|), []);
        assert [Kept(from, |content|)] + [] == [Kept(from, |content|)];
      case Skip(next) =>
        PiecesAreConsecutive(content, next);
        PieceInFront(content, Kept(from, next), Pieces(content, next));
      case Take(opening, next, image) =>
        PiecesAreConsecutive(content, next);
        PieceInFront(content, Span(opening, next, image), Pieces(content, next));
        PieceInFront(content, Kept(from, opening), [Span(opening, next, image)] + Pieces(content, next));
    }
  }

  lemma NothingLeft(content: string)
    ensures Consecutive(content, [], |content|) && AllWithin(content, []) && Cleaned(content, []) == "" && Images([]) == []
  {
  }

  lemma {:induction false} ConsecutiveWithin(content: string, pieces: seq<Piece>, from: nat)
    requires Consecutive(content, pieces, from)
    ensures AllWithin(content, pieces) && from <= |content|
    ensures forall i :: 0 <= i < |pieces| ==> from <= pieces[i].start
    ensures forall i, j :: 0 <= i < j < |pieces| ==> pieces[i].end <= pieces[j].start
    decreases |pieces|
  {
    if pieces != [] {
      ConsecutiveWithin(content, pieces[1..], pieces[0].end);
    }
  }

  lemma {:induction false} ExpandedConsecutive(content: string, pieces: seq<Piece>, from: nat)
    requires Consecutive(content, pieces, from) && AllWithin(content, pieces) && from <= |content|
    ensures Expanded(content, pieces) == content[from..]
    decreases |pieces|
  {
    if pieces != [] {
      ConsecutiveWithin(content, pieces[1..], pieces[0].end);
      ExpandedConsecutive(content, pieces[1..], pieces[0].end);
    }
  }

  /** Main result: the spans are ordered and disjoint, and putting each one back in place of its placeholder gives
      the message again. */
  lemma RemovalIsReversible(content: string)
    ensures var pieces := Pieces(content, 0);
            && AllWithin(content, pieces)
            && (forall i, j :: 0 <= i < j < |pieces| ==> pieces[i].end <= pieces[j].start)
            && Expanded(content, pieces) == content
  {
    PiecesAreConsecutive(content, 0);
    ConsecutiveWithin(content, Pieces(content, 0), 0);
    ExpandedConsecutive(content, Pieces(content, 0), 0);
  }

  /** What a removed span looks like, and the image taken from it: the nearest opening before the first marker, the
      nearest closing behind it, and the data URL between. */
  predicate ImageMarkup(content: string, p: Piece, marker: nat) {
    && p.Span? && Within(content, p) && p.start + 2 <= marker && marker + |MARKER| < p.end
    && At(content, OPENING, p.start) && At(content, MARKER, marker) && content[p.end - 1] == ')'
    && (forall i :: p.start < i <= marker ==> !At(content, OPENING, i))
    && ')' !in content[marker..p.end - 1]
    && p.image == ParseDataUrl(content[marker + 2..p.end - 1])
  }

  lemma AtMeans(s: string, pattern: string, i: int, k: nat)
    requires At(s, pattern, i) && k < |pattern|
    ensures s[i + k] == pattern[k]
  {
    assert s[i..i + |pattern|][k] == s[i + k];
  }

  lemma OpeningBeforeMarker(content: string, opening: int, marker: nat)
    requires At(content, OPENING, opening) && At(content, MARKER, marker) && opening <= marker
    ensures opening + 2 <= marker
  {
    AtMeans(content, MARKER, marker, 0);
    AtMeans(content, OPENING, opening, 0);
    AtMeans(content, OPENING, opening, 1);
  }

  lemma ClosingAfterMarker(content: string, marker: nat, closing: int)
    requires At(content, MARKER, marker) && marker + 2 <= closing && At(content, ")", closing)
    requires forall i :: marker + 2 <= i < closing ==> !At(content, ")", i)
    ensures marker + |MARKER| <= closing && ')' !in content[marker..closing] && content[closing] == ')'
  {
    AtMeans(content, ")", closing, 0);
    assert forall k: nat :: k < |MARKER| ==> MARKER[k] != ')';
    forall k | marker <= k < closing ensures content[k] != ')' {
      if k < marker + 2 {
        AtMeans(content, MARKER, marker, k - marker);
      } else {
        assert content[k..k + 1] == [content[k]] && !At(content, ")", k);
      }
    }
    if closing < marker + |MARKER| {
      AtMeans(content, MARKER, marker, closing - marker);
    }
  }

  lemma TakenIsMarkup(content: string, from: nat) returns (marker: nat)
    requires from <= |content| && NextCut(content, from).Take?
    ensures var cut := NextCut(content, from); ImageMarkup(content, Span(cut.opening, cut.next, cut.image), marker)
  {
    hide ParseDataUrl, IndexOf, LastIndexOf, At;
    marker := IndexOf(content, MARKER, from);
    var opening := LastIndexOf(content, OPENING, marker);
    var closing := IndexOf(content, ")", marker + 2);
    OpeningBeforeMarker(content, opening, marker);
    ClosingAfterMarker(content, marker, closing);
  }

  /** Main result: every removed span is the markup of one image, and the image returned for it is the one its data
      URL spells. */
  lemma {:induction false} SpansAreMarkup(content: string, from: nat, p: Piece)
    requires from <= |content| && p in Pieces(content, from) && p.Span?
    ensures exists marker :: ImageMarkup(content, p, marker)
    decreases |content| - from
  {
    hide NextCut, ImageMarkup;
    match NextCut(content, from) {
      case Done =>
      case Skip(next) => SpansAreMarkup(content, next, p);
      case Take(opening, next, image) =>
        if p == Span(opening, next, image) {
          var marker := TakenIsMarkup(content, from);
          assert ImageMarkup(content, p, marker);
        } else {
          SpansAreMarkup(content, next, p);
        }
    }
  }

  // ---------------------------------------------------------------- messages built from texts and images

  datatype Shot = Shot(alt: string, extension: string, data: string)

  function Render(shot: Shot): string {
    OPENING + shot.alt + "](" + DataUrl(shot.extension, shot.data) + ")"
  }

  /** Texts and images in turn; the last text follows the last image. */
  function Message(texts: seq<string>, shots: seq<Shot>): string
    requires |texts| == |shots| + 1
  {
    if shots == [] then texts[0] else texts[0] + Render(shots[0]) + Message(texts[1..], shots[1..])
  }

  function WithPlaceholders(texts: seq<string>): string
    requires texts != []
  {
    if |texts| == 1 then texts[0] else texts[0] + PLACEHOLDER + WithPlaceholders(texts[1..])
  }

  function ImagesOf(shots: seq<Shot>): seq<Image> {
    if shots == [] then [] else [Image(MimeType(shots[0].extension), shots[0].data)] + ImagesOf(shots[1..])
  }

  ghost predicate Lacks(s: string, pattern: string) {
    forall i :: !At(s, pattern, i)
  }

  ghost predicate Proper(shot: Shot) {
    && Lacks(shot.alt, MARKER) && Lacks(shot.alt, OPENING)
    && IsExtension(shot.extension) && IsData(shot.data) && ')' !in shot.data
  }

  lemma IndexIs(s: string, pattern: string, from: nat, i: nat)
    requires from <= i && At(s, pattern, i)
    requires forall j :: from <= j < i ==> !At(s, pattern, j)
    ensures from <= |s| && IndexOf(s, pattern, from) == i
  {
  }

  lemma LastIndexIs(s: string, pattern: string, upTo: nat, i: nat)
    requires i <= upTo && At(s, pattern, i)
    requires forall j :: i < j <= upTo ==> !At(s, pattern, j)
    ensures LastIndexOf(s, pattern, upTo) == i
  {
  }

  /** Where the parts of the first image of a message lie. */
  predicate LaidOut(s: string, from: nat, text: string, shot: Shot, opening: nat, marker: nat, closing: nat) {
    && opening == from + |text| && marker == opening + 2 + |shot.alt|
    && closing == marker + 2 + |DataUrl(shot.extension, shot.data)|
    && At(s, text, from) && At(s, OPENING, opening) && At(s, shot.alt, opening + 2) && At(s, "](", marker)
    && At(s, DataUrl(shot.extension, shot.data), marker + 2) && At(s, ")", closing)
  }

  predicate Rest(s: string, i: nat, rest: string) {
    i <= |s| && s[i..] == rest
  }

  lemma Peel(s: string, i: nat, part: string, rest: string)
    requires Rest(s, i, part + rest)
    ensures At(s, part, i) && Rest(s, i + |part|, rest)
  {
    var tail := s[i..];
    assert s[i..i + |part|] == tail[..|part|] == part;
    assert s[i + |part|..] == tail[|part|..] == rest;
  }

  lemma Reassociate(a: string, b: string, c: string, d: string, e: string, f: string, g: string)
    ensures a + (b + c + d + e + f) + g == a + (b + (c + (d + (e + (f + g)))))
  {
  }

  lemma LaysOut(s: string, from: nat, text: string, shot: Shot, rest: string)
    requires Rest(s, from, text + Render(shot) + rest)
    ensures var opening := from + |text|;
            var marker := opening + 2 + |shot.alt|;
            var closing := marker + 2 + |DataUrl(shot.extension, shot.data)|;
            LaidOut(s, from, text, shot, opening, marker, closing) && Rest(s, closing + 1, rest)
  {
    hide DataUrl, At, Rest;
    var url := DataUrl(shot.extension, shot.data);
    Reassociate(text, OPENING, shot.alt, "](", url, ")", rest);
    Peel(s, from, text, OPENING + (shot.alt + ("](" + (url + (")" + rest)))));
    var opening := from + |text|;
    Peel(s, opening, OPENING, shot.alt + ("](" + (url + (")" + rest))));
    Peel(s, opening + 2, shot.alt, "](" + (url + (")" + rest)));
    var marker := opening + 2 + |shot.alt|;
    Peel(s, marker, "](", url + (")" + rest));
    Peel(s, marker + 2, url, ")" + rest);
    Peel(s, marker + 2 + |url|, ")", rest);
  }

  lemma SliceOfSlice(s: string, lo: nat, hi: nat, i: nat, j: nat)
    requires lo <= i <= j <= hi <= |s|
    ensures s[lo..hi][i - lo..j - lo] == s[i..j]
  {
    var part := s[lo..hi];
    assert forall k :: i <= k < j ==> part[k - lo] == s[k];
  }

  lemma AtInside(s: string, pattern: string, i: nat, lo: nat, part: string)
    requires At(s, part, lo) && At(s, pattern, i) && lo <= i && i + |pattern| <= lo + |part|
    ensures At(part, pattern, i - lo)
  {
    SliceOfSlice(s, lo, lo + |part|, i, i + |pattern|);
    var k := i - lo;
    assert part[k..k + |pattern|] == s[i..i + |pattern|];
  }

  lemma MarkerSpelled()
    ensures MARKER[0] == ']' && MARKER[1] == '(' && MARKER[2..] == PREFIX
    ensures forall k :: 1 <= k < |MARKER| ==> MARKER[k] != ']'
    ensures '!' !in MARKER && '[' !in MARKER
  {
  }

  lemma MarkerHere(s: string, marker: nat, url: string)
    requires At(s, "](", marker) && At(s, url, marker + 2) && PREFIX <= url
    ensures At(s, MARKER, marker)
  {
    MarkerSpelled();
    AtMeans(s, "](", marker, 0);
    AtMeans(s, "](", marker, 1);
    var found := s[marker..marker + |MARKER|];
    forall k | 0 <= k < |MARKER| ensures found[k] == MARKER[k] {
      if k >= 2 {
        AtMeans(s, url, marker + 2, k - 2);
        assert url[k - 2] == PREFIX[k - 2] == MARKER[2..][k - 2];
      }
    }
  }

  lemma NoEarlierMarker(s: string, from: nat, text: string, shot: Shot, opening: nat, marker: nat, closing: nat, i: nat)
    requires LaidOut(s, from, text, shot, opening, marker, closing) && Lacks(text, MARKER) && Lacks(shot.alt, MARKER)
    requires from <= i < marker
    ensures !At(s, MARKER, i)
  {
    hide DataUrl, At;
    AtMeans(s, OPENING, opening, 0);
    AtMeans(s, OPENING, opening, 1);
    AtMeans(s, "](", marker, 0);
    if At(s, MARKER, i) {
      MarkerSpelled();
      AtMeans(s, MARKER, i, 0);
      if i + |MARKER| <= opening {
        AtInside(s, MARKER, i, from, text);
      } else if i <= opening {
        AtMeans(s, MARKER, i, opening - i);
      } else if i + |MARKER| <= marker {
        AtInside(s, MARKER, i, opening + 2, shot.alt);
      } else {
        AtMeans(s, MARKER, i, marker - i);
      }
    }
  }

  lemma MarkerFound(s: string, from: nat, text: string, shot: Shot, opening: nat, marker: nat, closing: nat)
    requires LaidOut(s, from, text, shot, opening, marker, closing) && Lacks(text, MARKER) && Lacks(shot.alt, MARKER)
    ensures IndexOf(s, MARKER, from) == marker
  {
    assert PREFIX <= DataUrl(shot.extension, shot.data);
    hide DataUrl, At, IndexOf, Lacks;
    MarkerHere(s, marker, DataUrl(shot.extension, shot.data));
    forall i | from <= i < marker ensures !At(s, MARKER, i) {
      NoEarlierMarker(s, from, text, shot, opening, marker, closing, i);
    }
    IndexIs(s, MARKER, from, marker);
  }

  lemma OpeningFound(s: string, from: nat, text: string, shot: Shot, opening: nat, marker: nat, closing: nat)
    requires LaidOut(s, from, text, shot, opening, marker, closing) && Lacks(shot.alt, OPENING)
    ensures LastIndexOf(s, OPENING, marker) == opening
  {
    hide DataUrl, At;
    AtMeans(s, OPENING, opening, 1);
    AtMeans(s, "](", marker, 0);
    forall i | opening < i <= marker ensures !At(s, OPENING, i) {
      if At(s, OPENING, i) {
        AtMeans(s, OPENING, i, 0);
        AtMeans(s, OPENING, i, 1);
        if opening + 2 <= i && i + 2 <= marker {
          AtInside(s, OPENING, i, opening + 2, shot.alt);
        }
      }
    }
    LastIndexIs(s, OPENING, marker, opening);
  }

  lemma ClosingFound(s: string, from: nat, text: string, shot: Shot, opening: nat, marker: nat, closing: nat)
    requires LaidOut(s, from, text, shot, opening, marker, closing) && IsExtension(shot.extension) && ')' !in shot.data
    ensures IndexOf(s, ")", marker + 2) == closing
  {
    var url := DataUrl(shot.extension, shot.data);
    forall i | 0 <= i < |shot.extension| ensures shot.extension[i] != ')' {
      assert IsWord(shot.extension[i]);
    }
    assert ')' !in url by { assert ')' !in PREFIX && ')' !in BASE64; }
    forall i | marker + 2 <= i < closing ensures !At(s, ")", i) {
      AtMeans(s, url, marker + 2, i - marker - 2);
      if At(s, ")", i) {
        AtMeans(s, ")", i, 0);
      }
    }
    IndexIs(s, ")", marker + 2, closing);
  }

  lemma LaidOutBounds(s: string, from: nat, text: string, shot: Shot, opening: nat, marker: nat, closing: nat)
    requires LaidOut(s, from, text, shot, opening, marker, closing)
    ensures from <= opening <= marker <= marker + 2 <= closing < |s|
    ensures s[from..opening] == text && s[marker + 2..closing] == DataUrl(shot.extension, shot.data)
  {
  }

  lemma PiecesOfShot(s: string, from: nat, text: string, shot: Shot, opening: nat, marker: nat, closing: nat)
    requires LaidOut(s, from, text, shot, opening, marker, closing) && Lacks(text, MARKER) && Proper(shot)
    ensures from <= |s| && Pieces(s, from) ==
            [Kept(from, opening)] + ([Span(opening, closing + 1, Some(Image(MimeType(shot.extension), shot.data)))] + Pieces(s, closing + 1))
  {
    hide NextCut, LaidOut, Lacks, Proper;
    assert from <= opening <= closing < |s| by { LaidOutBounds(s, from, text, shot, opening, marker, closing); }
    ShotIsTaken(s, from, text, shot, opening, marker, closing);
  }

  lemma ShotIsTaken(s: string, from: nat, text: string, shot: Shot, opening: nat, marker: nat, closing: nat)
    requires LaidOut(s, from, text, shot, opening, marker, closing) && Lacks(text, MARKER) && Proper(shot)
    ensures from <= |s| && NextCut(s, from) == Take(opening, closing + 1, Some(Image(MimeType(shot.extension), shot.data)))
  {
    hide DataUrl, IsExtension, IsData, IndexOf, LastIndexOf, At, Lacks, ParseDataUrl;
    LaidOutBounds(s, from, text, shot, opening, marker, closing);
    MarkerFound(s, from, text, shot, opening, marker, closing);
    OpeningFound(s, from, text, shot, opening, marker, closing);
    ClosingFound(s, from, text, shot, opening, marker, closing);
    ParsesBack(shot.extension, shot.data);
  }

  lemma TextAlone(s: string, from: nat, text: string)
    requires Rest(s, from, text) && Lacks(text, MARKER)
    ensures from <= |s| && Pieces(s, from) == [Kept(from, |s|)]
  {
    hide Lacks, LastIndexOf, ParseDataUrl;
    var marker := IndexOf(s, MARKER, from);
    if marker != -1 {
      assert At(s, text, from);
      AtInside(s, MARKER, marker, from, text);
      LacksMeans(text, MARKER, marker - from);
    }
  }

  lemma LacksMeans(s: string, pattern: string, i: int)
    requires Lacks(s, pattern)
    ensures !At(s, pattern, i)
  {
  }

  /** One text and one image, and what follows them. */
  lemma OneShot(s: string, from: nat, text: string, shot: Shot, rest: string) returns (next: nat)
    requires Rest(s, from, text + Render(shot) + rest) && Lacks(text, MARKER) && Proper(shot)
    ensures from < next && Rest(s, next, rest) && next <= |s| && AllWithin(s, Pieces(s, next)) && AllWithin(s, Pieces(s, from))
    ensures Cleaned(s, Pieces(s, from)) == text + (PLACEHOLDER + Cleaned(s, Pieces(s, next)))
    ensures Images(Pieces(s, from)) == [Image(MimeType(shot.extension), shot.data)] + Images(Pieces(s, next))
  {
    hide Render, Pieces, Proper, Lacks, LaidOut, DataUrl, AllWithin, Cleaned, Images, Consecutive, Rest;
    LaysOut(s, from, text, shot, rest);
    var opening := from + |text|;
    var marker := opening + 2 + |shot.alt|;
    var closing := marker + 2 + |DataUrl(shot.extension, shot.data)|;
    LaidOutBounds(s, from, text, shot, opening, marker, closing);
    PiecesOfShot(s, from, text, shot, opening, marker, closing);
    next := closing + 1;
    PiecesAreConsecutive(s, next);
    ConsecutiveWithin(s, Pieces(s, next), next);
    FirstTwo(s, Pieces(s, next), from, opening, next, Some(Image(MimeType(shot.extension), shot.data)));
  }

  lemma {:induction false} MessageFrom(s: string, from: nat, texts: seq<string>, shots: seq<Shot>)
    requires |texts| == |shots| + 1 && from <= |s| && Rest(s, from, Message(texts, shots))
    requires forall i :: 0 <= i < |texts| ==> Lacks(texts[i], MARKER)
    requires forall i :: 0 <= i < |shots| ==> Proper(shots[i])
    ensures AllWithin(s, Pieces(s, from))
    ensures Cleaned(s, Pieces(s, from)) == WithPlaceholders(texts) && Images(Pieces(s, from)) == ImagesOf(shots)
    decreases |shots|
  {
    hide Render, Pieces, Proper, Lacks, AllWithin, Cleaned, Images, Consecutive, Rest;
    if shots == [] {
      TextAlone(s, from, texts[0]);
      KeptAlone(s, from, texts[0]);
    } else {
      var next := OneShot(s, from, texts[0], shots[0], Message(texts[1..], shots[1..]));
      MessageFrom(s, next, texts[1..], shots[1..]);
      assert texts[0] + (PLACEHOLDER + WithPlaceholders(texts[1..])) == texts[0] + PLACEHOLDER + WithPlaceholders(texts[1..]);
    }
  }

  lemma KeptAlone(s: string, from: nat, text: string)
    requires Rest(s, from, text)
    ensures AllWithin(s, [Kept(from, |s|)]) && Cleaned(s, [Kept(from, |s|)]) == text && Images([Kept(from, |s|)]) == []
  {
    hide AllWithin, Cleaned, Images, Consecutive;
    NothingLeft(s);
    PieceInFront(s, Kept(from, |s|), []);
    assert [Kept(from, |s|)] + [] == [Kept(from, |s|)];
    assert text + "" == text;
  }

  lemma FirstTwo(s: string, pieces: seq<Piece>, from: nat, opening: nat, next: nat, image: Option<Image>)
    requires from <= opening <= next <= |s| && AllWithin(s, pieces)
    ensures var all := [Kept(from, opening)] + ([Span(opening, next, image)] + pieces);
            && AllWithin(s, all)
            && Cleaned(s, all) == s[from..opening] + (PLACEHOLDER + Cleaned(s, pieces))
            && Images(all) == (if image.Some? then [image.value] else []) + Images(pieces)
  {
    hide AllWithin, Cleaned, Images;
    PieceInFront(s, Span(opening, next, image), pieces);
    PieceInFront(s, Kept(from, opening), [Span(opening, next, image)] + pieces);
  }

  /** Main result: from a message built of texts and images, exactly the images come out, in order, and exactly
      the texts stay, with a placeholder for each image between them. */
  lemma ExtractionInvertsRendering(texts: seq<string>, shots: seq<Shot>)
    requires |texts| == |shots| + 1
    requires forall i :: 0 <= i < |texts| ==> Lacks(texts[i], MARKER)
    requires forall i :: 0 <= i < |shots| ==> Proper(shots[i])
    ensures var content := Message(texts, shots);
            && AllWithin(content, Pieces(content, 0))
            && Cleaned(content, Pieces(content, 0)) == WithPlaceholders(texts)
            && Images(Pieces(content, 0)) == ImagesOf(shots)
  {
    var content := Message(texts, shots);
    assert content[0..] == content;
    MessageFrom(content, 0, texts, shots);
  }

  // ---------------------------------------------------------------- the loop

  /** Extracting from a position on, with what was done before in front. */
  predicate Progressed(content: string, from: nat, cleaned: string, images: seq<Image>)
    requires from <= |content|
  {
    && AllWithin(content, Pieces(content, 0)) && AllWithin(content, Pieces(content, from))
    && Cleaned(content, Pieces(content, 0)) == cleaned + Cleaned(content, Pieces(content, from))
    && Images(Pieces(content, 0)) == images + Images(Pieces(content, from))
  }

  lemma Start(content: string)
    ensures Progressed(content, 0, "", [])
  {
    PiecesAreConsecutive(content, 0);
    ConsecutiveWithin(content, Pieces(content, 0), 0);
  }

  lemma ProgressDone(content: string, from: nat, cleaned: string, images: seq<Image>)
    requires from <= |content| && Progressed(content, from, cleaned, images) && NextCut(content, from).Done?
    ensures AllWithin(content, Pieces(content, 0))
    ensures Cleaned(content, Pieces(content, 0)) == cleaned + content[from..] && Images(Pieces(content, 0)) == images
  {
    hide NextCut, AllWithin, Cleaned, Images;
    NothingLeft(content);
    PieceInFront(content, Kept(from, |content|), []);
    assert [Kept(from, |content|)] + [] == [Kept(from, |content|)];
  }

  lemma ProgressSkip(content: string, from: nat, cleaned: string, images: seq<Image>)
    requires from <= |content| && Progressed(content, from, cleaned, images) && NextCut(content, from).Skip?
    ensures var next := NextCut(content, from).next; Progressed(content, next, cleaned + content[from..next], images)
  {
    hide NextCut, AllWithin, Cleaned, Images;
    var next := NextCut(content, from).next;
    PiecesAreConsecutive(content, next);
    ConsecutiveWithin(content, Pieces(content, next), next);
    PieceInFront(content, Kept(from, next), Pieces(content, next));
  }

  lemma ProgressTake(content: string, from: nat, cleaned: string, images: seq<Image>)
    requires from <= |content| && Progressed(content, from, cleaned, images) && NextCut(content, from).Take?
    ensures var cut := NextCut(content, from);
            Progressed(content, cut.next, cleaned + content[from..cut.opening] + PLACEHOLDER,
                       images + if cut.image.Some? then [cut.image.value] else [])
  {
    hide NextCut, AllWithin, Cleaned, Images;
    var cut := NextCut(content, from);
    PiecesAreConsecutive(content, cut.next);
    ConsecutiveWithin(content, Pieces(content, cut.next), cut.next);
    FirstTwo(content, Pieces(content, cut.next), from, cut.opening, cut.next, cut.image);
  }

  /** Searches for marker after marker, backwards for the opening, forwards for the closing. */
  method ExtractGeneratedImages(content: string) returns (cleaned: string, images: seq<Image>)
    ensures AllWithin(content, Pieces(content, 0))
    ensures cleaned == Cleaned(content, Pieces(content, 0)) && images == Images(Pieces(content, 0))
  {
    hide ParseDataUrl, IndexOf, LastIndexOf, At, Progressed, Pieces, AllWithin;
    cleaned, images := "", [];
    var searchStart := 0;
    Start(content);
    while true
      invariant 0 <= searchStart <= |content|
      invariant Progressed(content, searchStart, cleaned, images)
      decreases |content| - searchStart
    {
      var markerIdx := IndexOf(content, MARKER, searchStart);
      if markerIdx == -1 {
        ProgressDone(content, searchStart, cleaned, images);
        cleaned := cleaned + content[searchStart..];
        break;
      }
      MarkerInside(content, markerIdx);
      var afterMarker := markerIdx + |MARKER|;
      var bangIdx := LastIndexOf(content, OPENING, markerIdx);
      if bangIdx == -1 || bangIdx < searchStart {
        ProgressSkip(content, searchStart, cleaned, images);
        cleaned := cleaned + content[searchStart..afterMarker];
        searchStart := afterMarker;
        continue;
      }
      var closeIdx := IndexOf(content, ")", markerIdx + 2);
      if closeIdx == -1 {
        ProgressSkip(content, searchStart, cleaned, images);
        cleaned := cleaned + content[searchStart..afterMarker];
        searchStart := afterMarker;
        continue;
      }
      ProgressTake(content, searchStart, cleaned, images);
      CloseInside(content, closeIdx);
      var image := ParseDataUrl(content[markerIdx + 2..closeIdx]);
      images := images + if image.Some? then [image.value] else [];
      cleaned := cleaned + content[searchStart..bangIdx];
      cleaned := cleaned + PLACEHOLDER;
      searchStart := closeIdx + 1;
    }
  }

  lemma MarkerInside(content: string, marker: int)
    requires At(content, MARKER, marker)
    ensures 0 <= marker && marker + |MARKER| <= |content|
  {
  }

  lemma CloseInside(content: string, closing: int)
    requires At(content, ")", closing)
    ensures 0 <= closing < |content|
  {
  }
}

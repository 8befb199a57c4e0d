/** The pure helpers of `SafeAgreeHelpers` (utils/helpers.js) that the
    detector and the extractor rely on, and the sliding-window chunker. */
module Helpers {
  import opened Text
  import opened Patterns
  import opened Constants

  // ---------------------------------------------------------------------
  // sanitizeText

  /** `[a-zA-Z0-9#]`, the body of an HTML entity. */
  predicate IsEntityChar(c: char) { IsUpper(c) || IsLower(c) || IsDigit(c) || c == '#' }

  /** `[\x00-\x1F\x7F]` */
  predicate IsControl(c: char) { c <= '\U{1F}' || c == '\U{7F}' }

  /** `replace(/&[a-zA-Z0-9#]+;/g, ' ')`, scanning left to right. */
  function RemoveEntities(s: string): (r: string)
    decreases |s|
  {
    if s == [] then []
    else if s[0] == '&' then
      var body := DropWhile(s[1..], IsEntityChar);
      var n := |s| - 1 - |body|;
      if n >= 1 && body != [] && body[0] == ';' then [' '] + RemoveEntities(body[1..])
      else [s[0]] + RemoveEntities(s[1..])
    else [s[0]] + RemoveEntities(s[1..])
  }

  /** `replace(/[\x00-\x1F\x7F]/g, '')` */
  function RemoveControls(s: string): (r: string)
    ensures forall i :: 0 <= i < |r| ==> !IsControl(r[i])
    ensures r == Without(s, IsControl)
  {
    if s == [] then []
    else (if IsControl(s[0]) then [] else [s[0]]) + RemoveControls(s[1..])
  }

  /** `sanitizeText`: entities become spaces, white space collapses,
      control characters go, and the result is trimmed.  (Non-string
      arguments are outside the model: the argument is a string.) */
  function SanitizeText(text: string): (r: string)
    ensures text == [] ==> r == []
    ensures forall i :: 0 <= i < |r| ==> !IsControl(r[i])
    ensures r == [] || (!IsSpace(r[0]) && !IsSpace(r[|r| - 1]))
  {
    if text == [] then []
    else
      var s := RemoveControls(CollapseWs(RemoveEntities(text)));
      TrimKeepsNoControl(s);
      Trim(s)
  }

  lemma TrimKeepsNoControl(s: string)
    requires forall i :: 0 <= i < |s| ==> !IsControl(s[i])
    ensures forall i :: 0 <= i < |Trim(s)| ==> !IsControl(Trim(s)[i])
  {
    var r := Trim(s);
    var k := |s| - |TrimStart(s)|;
    forall i | 0 <= i < |r| ensures !IsControl(r[i]) {
      assert r[i] == s[k + i];
    }
  }

  // ---------------------------------------------------------------------
  // isLegalDocumentURL / isLegalDocumentTitle

  /** `isLegalDocumentURL`: false for an empty URL, otherwise whether some
      URL pattern matches. */
  predicate IsLegalDocumentURL(url: string) {
    url != [] && AnyMatches(UrlPatterns, url)
  }

  /** `isLegalDocumentTitle`: false for an empty title, otherwise whether
      some title pattern matches. */
  predicate IsLegalDocumentTitle(title: string) {
    title != [] && AnyMatches(TitlePatterns, title)
  }

  /** A URL with `/privacy` followed by `policy`, `-policy` or `_policy`
      is a legal-document URL. */
  lemma PrivacyPolicyPathIsLegal(url: string, i: nat)
    requires i + 15 <= |url|
    requires Lower(url)[i..i + 15] == "/privacy-policy"
    ensures IsLegalDocumentURL(url)
  {
    var p: Pattern := [Lit("/privacy"), OptSep(), Lit("policy")];
    PrivacyPatternMatches(Lower(url), i);
    assert Test(p, url);
    PrivacyIsSecondUrlPattern();
    TableEntryMatches(UrlPatterns, 1, p, url);
  }

  lemma PrivacyIsSecondUrlPattern()
    ensures UrlPatterns[1] == [[Lit("/privacy"), OptSep(), Lit("policy")]]
  {
  }

  lemma TableEntryMatches(table: seq<Regex>, k: nat, p: Pattern, s: string)
    requires k < |table| && table[k] == [p] && Test(p, s)
    ensures AnyMatches(table, s)
  {
    assert table[k][0] == p;
    assert TestRegex(table[k], s);
  }

  lemma PrivacyPatternMatches(t: string, i: nat)
    requires i + 15 <= |t| && t[i..i + 15] == "/privacy-policy"
    ensures MatchesAt([Lit("/privacy"), OptSep(), Lit("policy")], t, i)
  {
    var w := t[i..i + 15];
    assert OccursAt(t, "/privacy", i) by { assert t[i..i + 8] == w[..8]; }
    assert OccursAt(t, "-", i + 8) by { assert w[8] == '-'; assert t[i + 8..i + 9] == [w[8]]; }
    assert OccursAt(t, "policy", i + 9) by { assert t[i + 9..i + 15] == w[9..]; }
    var rest: Pattern := [Lit("policy")];
    assert MatchesAt([], t, i + 15);
    OpeningLiteral("policy", [], t, i + 9);
    assert [Lit("policy")] + [] == rest;
    assert OneOfThen(["-", "_"], rest, t, i + 8);
    assert OneOfThen(["", "-", "_"], rest, t, i + 8) by {
      assert ["", "-", "_"][1..] == ["-", "_"];
    }
    var tail: Pattern := [OptSep(), Lit("policy")];
    assert tail[0] == OptSep() && tail[1..] == rest;
    assert MatchesAt(tail, t, i + 8);
    OpeningLiteral("/privacy", tail, t, i);
    assert [Lit("/privacy")] + tail == [Lit("/privacy"), OptSep(), Lit("policy")];
  }

  // ---------------------------------------------------------------------
  // hasLegalDocumentIndicators

  /** How many of `phrases`, lowercased, occur in `t`. */
  function CountFolded(phrases: seq<string>, t: string): (n: nat)
    ensures n <= |phrases|
  {
    if phrases == [] then 0
    else (if Contains(t, Lower(phrases[0])) then 1 else 0) + CountFolded(phrases[1..], t)
  }

  /** How many content indicators occur, case-insensitively, in `content`. */
  function IndicatorCount(content: string): (n: nat)
    ensures n <= 10
  {
    CountFolded(ContentIndicators, Lower(content))
  }

  /** `hasLegalDocumentIndicators` as written, including the second length
      test of utils/helpers.js:206-208. */
  predicate HasLegalDocumentIndicators(content: string) {
    if content == [] || |content| < 100 then false
    else
      var found := IndicatorCount(content);
      var minIndicators := if |content| > 2000 then 4 else 2;
      var minLength := if |content| > 2000 then 2000 else 100;
      found >= minIndicators && |content| >= minLength
  }

  /** The decision, stated without the redundant length test: at least 100
      characters, and at least four indicators for content longer than 2000
      characters, two otherwise. */
  lemma IndicatorsThreshold(content: string)
    ensures HasLegalDocumentIndicators(content) <==>
      |content| >= 100 && IndicatorCount(content) >= (if |content| > 2000 then 4 else 2)
  {
  }

  /** More indicators never turn a positive answer negative at the same
      length. */
  lemma IndicatorsMonotone(a: string, b: string)
    requires |a| == |b| && IndicatorCount(a) <= IndicatorCount(b)
    requires HasLegalDocumentIndicators(a)
    ensures HasLegalDocumentIndicators(b)
  {
  }

  // ---------------------------------------------------------------------
  // chunkText

  /** `text.lastIndexOf(c, from)` for `from < |text|`: the last index at or
      before `from` holding `c`, or -1. */
  function LastIndexOf(text: string, c: char, from: int): (k: int)
    requires -1 <= from < |text|
    ensures -1 <= k <= from
    ensures k >= 0 ==> text[k] == c
    ensures forall j :: k < j <= from && 0 <= j ==> text[j] != c
    decreases from + 1
  {
    if from < 0 then -1
    else if text[from] == c then from
    else LastIndexOf(text, c, from - 1)
  }

  function Max(a: int, b: int): int { if a >= b then a else b }
  function Min(a: int, b: int): int { if a <= b then a else b }

  /** The exclusive end of the window that starts at `start`, before it is
      clamped to the text: `start + maxSize`, pulled back to just after the
      last `.`, `?` or `!` at or before that index when the window does not
      reach the end of the text and that terminator lies more than
      `maxSize / 2` past `start`. */
  function WindowEnd(text: string, maxSize: nat, start: nat): int {
    var end := start + maxSize;
    if end < |text| then
      var best := LastTerminator(text, end);
      if 2 * best > 2 * start + maxSize then best + 1 else end
    else end
  }

  /** `Math.max(start + maxSize - overlap, end - overlap)` */
  function NextStart(text: string, maxSize: nat, overlap: nat, start: nat): int {
    Max(start + maxSize - overlap, WindowEnd(text, maxSize, start) - overlap)
  }

  /** The trimmed text of the window that starts at `start`. */
  function WindowPiece(text: string, maxSize: nat, start: nat): string
    requires start < |text|
  {
    Trim(text[start..Min(WindowEnd(text, maxSize, start), |text|)])
  }

  /** The pieces the loop of `chunkText` pushes from window `start` on,
      before the final filter. */
  function Pieces(text: string, maxSize: nat, overlap: nat, start: nat): seq<string>
    requires overlap < maxSize
    decreases |text| - start
  {
    if start >= |text| then []
    else [WindowPiece(text, maxSize, start)] + Pieces(text, maxSize, overlap, NextStart(text, maxSize, overlap, start))
  }

  /** `chunks.filter(chunk => chunk.length > 0)` */
  function NonEmpty(ss: seq<string>): (r: seq<string>)
    ensures forall i :: 0 <= i < |r| ==> r[i] != []
    ensures forall s :: s in r ==> s in ss
  {
    if ss == [] then []
    else (if ss[0] == [] then [] else [ss[0]]) + NonEmpty(ss[1..])
  }

  /** What `chunkText(text, maxSize, overlap)` returns. */
  function ChunkTextSpec(text: string, maxSize: nat, overlap: nat): seq<string>
    requires overlap < maxSize
  {
    if text == [] || |text| <= maxSize then [text]
    else NonEmpty(Pieces(text, maxSize, overlap, 0))
  }

  /** Every window is non-empty, and at most one character longer than
      `maxSize`: the pulled-back end may sit just after a terminator found
      at index `start + maxSize` itself. */
  lemma WindowBounds(text: string, maxSize: nat, start: nat)
    requires maxSize > 0 && start < |text|
    ensures start < Min(WindowEnd(text, maxSize, start), |text|) <= start + maxSize + 1
    ensures |WindowPiece(text, maxSize, start)| <= maxSize + 1
  {
  }

  /** The window end is either the plain `start + maxSize`, or just after
      the last terminator at or before `start + maxSize`, which then lies
      more than `maxSize / 2` past `start`. */
  lemma WindowCutRule(text: string, maxSize: nat, start: nat)
    requires start < |text|
    ensures var e := WindowEnd(text, maxSize, start);
      e == start + maxSize
      || (start + maxSize < |text| && 0 < e <= start + maxSize + 1
          && IsTerminator(text[e - 1]) && 2 * (e - 1) > 2 * start + maxSize
          && forall j :: e - 1 < j <= start + maxSize ==> !IsTerminator(text[j]))
    ensures var e := WindowEnd(text, maxSize, start);
      forall j ::
        (start + maxSize < |text| && 0 <= j <= start + maxSize && IsTerminator(text[j]) && 2 * j > 2 * start + maxSize)
        ==> j < e && e == LastTerminator(text, start + maxSize) + 1
  {
    var end := start + maxSize;
    if end < |text| {
      forall j | 0 <= j <= end && IsTerminator(text[j]) && 2 * j > 2 * start + maxSize
        ensures j < WindowEnd(text, maxSize, start)
      {
        assert LastIndexOf(text, text[j], end) >= j;
      }
    }
  }

  /** The last index at or before `end` holding `.`, `?` or `!`, or -1. */
  function LastTerminator(text: string, end: int): int
    requires -1 <= end < |text|
  {
    Max(Max(LastIndexOf(text, '.', end), LastIndexOf(text, '?', end)), LastIndexOf(text, '!', end))
  }

  /** Each step moves the window start forward by at least
      `maxSize - overlap`, so the starts strictly increase exactly because
      `overlap < maxSize`. */
  lemma StartsAdvance(text: string, maxSize: nat, overlap: nat, start: nat)
    ensures NextStart(text, maxSize, overlap, start) >= start + maxSize - overlap
  {
  }

  /** Without the gap, on text with no terminator the start never moves:
      the loop of `chunkText` would not end. */
  lemma NoProgressWithoutGap(text: string, maxSize: nat, overlap: nat, start: nat)
    requires maxSize <= overlap
    requires forall j :: 0 <= j < |text| ==> !IsTerminator(text[j])
    ensures NextStart(text, maxSize, overlap, start) <= start
  {
    if start + maxSize < |text| {
      var e := start + maxSize;
      assert LastIndexOf(text, '.', e) == -1;
      assert LastIndexOf(text, '?', e) == -1;
      assert LastIndexOf(text, '!', e) == -1;
    }
  }

  lemma {:induction false} PiecesBounded(text: string, maxSize: nat, overlap: nat, start: nat)
    requires overlap < maxSize
    ensures forall p :: p in Pieces(text, maxSize, overlap, start) ==> |p| <= maxSize + 1
    decreases |text| - start
  {
    if start < |text| {
      WindowBounds(text, maxSize, start);
      StartsAdvance(text, maxSize, overlap, start);
      var next: nat := NextStart(text, maxSize, overlap, start);
      PiecesBounded(text, maxSize, overlap, next);
      PiecesStep(text, maxSize, overlap, start);
      ConsBounded(WindowPiece(text, maxSize, start), Pieces(text, maxSize, overlap, next), maxSize + 1);
    }
  }

  lemma ConsBounded(piece: string, rest: seq<string>, bound: nat)
    requires |piece| <= bound && forall p :: p in rest ==> |p| <= bound
    ensures forall p :: p in [piece] + rest ==> |p| <= bound
  {
  }

  /** In the long case every returned piece is non-empty and at most
      `maxSize + 1` characters long; in the short case the text comes back
      alone and unchanged. */
  lemma ChunkTextBounds(text: string, maxSize: nat, overlap: nat)
    requires overlap < maxSize
    ensures |text| <= maxSize ==> ChunkTextSpec(text, maxSize, overlap) == [text]
    ensures |text| > maxSize ==> forall p :: p in ChunkTextSpec(text, maxSize, overlap) ==> 0 < |p| <= maxSize + 1
  {
    PiecesBounded(text, maxSize, overlap, 0);
  }

  /** One step of the loop of `chunkText`: where the window that starts at
      `start` ends, pulled back to a sentence boundary when one lies in its
      second half. */
  method FindWindowEnd(text: string, maxSize: nat, start: nat) returns (end: int)
    requires 0 < maxSize
    ensures end == WindowEnd(text, maxSize, start)
    ensures start < end
  {
    end := start + maxSize;
    if end < |text| {
      var sentenceEnd := LastIndexOf(text, '.', end);
      var questionEnd := LastIndexOf(text, '?', end);
      var exclamationEnd := LastIndexOf(text, '!', end);
      var bestEnd := Max(Max(sentenceEnd, questionEnd), exclamationEnd);
      if 2 * bestEnd > 2 * start + maxSize {
        end := bestEnd + 1;
      }
    }
  }

  lemma PiecesStep(text: string, maxSize: nat, overlap: nat, start: nat)
    requires overlap < maxSize && start < |text|
    ensures Pieces(text, maxSize, overlap, start)
      == [WindowPiece(text, maxSize, start)] + Pieces(text, maxSize, overlap, NextStart(text, maxSize, overlap, start))
  {
  }

  /** What one turn of the loop of `chunkText` keeps: the pieces pushed so
      far, followed by those still to come, are all the pieces. */
  lemma ChunkStep(text: string, maxSize: nat, overlap: nat, start: nat, raw: seq<string>)
    requires overlap < maxSize && start < |text|
    requires raw + Pieces(text, maxSize, overlap, start) == Pieces(text, maxSize, overlap, 0)
    ensures var next := NextStart(text, maxSize, overlap, start);
      start < next
      && (raw + [WindowPiece(text, maxSize, start)]) + Pieces(text, maxSize, overlap, next) == Pieces(text, maxSize, overlap, 0)
  {
    StartsAdvance(text, maxSize, overlap, start);
    PiecesStep(text, maxSize, overlap, start);
    var next := NextStart(text, maxSize, overlap, start);
    MovePiece(raw, WindowPiece(text, maxSize, start), Pieces(text, maxSize, overlap, next),
      Pieces(text, maxSize, overlap, start), Pieces(text, maxSize, overlap, 0));
  }

  lemma MovePiece(done: seq<string>, piece: string, rest: seq<string>, todo: seq<string>, all: seq<string>)
    requires todo == [piece] + rest && done + todo == all
    ensures (done + [piece]) + rest == all
  {
    assert (done + [piece]) + rest == done + ([piece] + rest);
  }

  /** `chunkText(text, maxSize = 1000, overlap = 100)` */
  method ChunkText(text: string, maxSize: nat := 1000, overlap: nat := 100) returns (chunks: seq<string>)
    requires overlap < maxSize
    ensures chunks == ChunkTextSpec(text, maxSize, overlap)
    ensures |text| > maxSize ==> forall p :: p in chunks ==> 0 < |p| <= maxSize + 1
  {
    if text == [] || |text| <= maxSize {
      return [text];
    }
    var raw: seq<string> := [];
    var start: nat := 0;
    while start < |text|
      invariant raw + Pieces(text, maxSize, overlap, start) == Pieces(text, maxSize, overlap, 0)
      decreases |text| - start
    {
      var end := FindWindowEnd(text, maxSize, start);
      var piece := Trim(text[start..Min(end, |text|)]);
      var next := Max(start + maxSize - overlap, end - overlap);
      assert piece == WindowPiece(text, maxSize, start);
      assert next == NextStart(text, maxSize, overlap, start);
      ChunkStep(text, maxSize, overlap, start, raw);
      raw := raw + [piece];
      start := next;
    }
    assert raw == Pieces(text, maxSize, overlap, 0);
    chunks := NonEmpty(raw);
    ChunkTextBounds(text, maxSize, overlap);
  }

  // ---------------------------------------------------------------------
  // sanitizeUserInput

  /** The case-folded text starts with `word` (lowercase) at index 0. */
  predicate StartsWithFolded(s: string, word: string) {
    |word| <= |s| && Lower(s[..|word|]) == word
  }

  /** First index at or after `from` where `</script>` starts, case-folded. */
  function FindClosingScript(s: string, from: nat): (j: int)
    ensures j == -1 || (from <= j && j + 9 <= |s|)
    decreases |s| - from
  {
    if from + 9 > |s| then -1
    else if Lower(s[from..from + 9]) == "</script>" then from
    else FindClosingScript(s, from + 1)
  }

  /** `replace(/<script\b[^<]*(?:(?!<\/script>)<[^<]*)*<\/script>/gi, '')`:
      from an opening `<script` followed by a non-word character, through
      the first `</script>` after it. */
  function RemoveScripts(s: string): (r: string)
    ensures |r| <= |s|
    decreases |s|
  {
    if s == [] then []
    else if StartsWithFolded(s, "<script") && |s| > 7 && !IsWordChar(s[7]) && FindClosingScript(s, 7) >= 0 then
      RemoveScripts(s[FindClosingScript(s, 7) + 9..])
    else [s[0]] + RemoveScripts(s[1..])
  }

  /** No `<` is followed, anywhere later, by a `>`: no tag is left. */
  predicate NoTagLeft(r: string) {
    forall i, j :: 0 <= i < j < |r| && r[i] == '<' ==> r[j] != '>'
  }

  /** `replace(/<[^>]*>/g, '')`: from a `<` through the next `>`.  What is
      left keeps only characters of the input and holds no tag. */
  function RemoveTags(s: string): (r: string)
    ensures |r| <= |s|
    ensures forall c :: c in r ==> c in s
    ensures NoTagLeft(r)
    decreases |s|
  {
    if s == [] then []
    else if s[0] == '<' && FirstIndex(s[1..], c => c == '>') < |s| - 1 then
      RemoveTags(s[FirstIndex(s[1..], c => c == '>') + 2..])
    else
      var rest := RemoveTags(s[1..]);
      assert s[0] == '<' ==> '>' !in s[1..];
      [s[0]] + rest
  }

  /** `replace(/javascript:/gi, '')` */
  function RemoveJavascript(s: string): (r: string)
    ensures |r| <= |s|
    ensures forall c :: c in r ==> c in s
    ensures NoTagLeft(s) ==> NoTagLeft(r)
    decreases |s|
  {
    if s == [] then []
    else if StartsWithFolded(s, "javascript:") then
      assert NoTagLeft(s) ==> NoTagLeft(s[11..]) by {
        if NoTagLeft(s) {
          forall i, j | 0 <= i < j < |s| - 11 && s[11..][i] == '<' ensures s[11..][j] != '>' {
            assert s[11 + i] == '<';
          }
        }
      }
      RemoveJavascript(s[11..])
    else
      var rest := RemoveJavascript(s[1..]);
      assert NoTagLeft(s) ==> NoTagLeft(s[1..]) && (s[0] == '<' ==> '>' !in s[1..]) by {
        if NoTagLeft(s) {
          forall i, j | 0 <= i < j < |s| - 1 && s[1..][i] == '<' ensures s[1..][j] != '>' {
            assert s[1 + i] == '<';
          }
          if s[0] == '<' {
            forall k | 0 <= k < |s| - 1 ensures s[1..][k] != '>' {
              assert s[1 + k] == s[1..][k];
            }
          }
        }
      }
      [s[0]] + rest
  }

  /** `sanitizeUserInput(input, maxLength = 500)`: trimmed, cut to
      `maxLength`, then script blocks, tags and `javascript:` removed.
      The result is never longer than `maxLength`, since after the cut the
      steps only delete, and no tag survives. */
  function SanitizeUserInput(input: string, maxLength: nat := 500): (r: string)
    ensures input == [] ==> r == []
    ensures |r| <= maxLength
    ensures NoTagLeft(r)
  {
    if input == [] then []
    else
      var t := Trim(input);
      var cut := if |t| <= maxLength then t else t[..maxLength];
      RemoveJavascript(RemoveTags(RemoveScripts(cut)))
  }

  // ---------------------------------------------------------------------
  // generateDocumentId

  /** `replace(/[^a-zA-Z0-9_]/g, '_')` */
  function ToIdChars(s: string): (r: string)
    ensures |r| == |s|
    ensures forall i :: 0 <= i < |r| ==> IsWordChar(r[i])
    ensures forall i :: 0 <= i < |s| && IsWordChar(s[i]) ==> r[i] == s[i]
  {
    if s == [] then [] else [if IsWordChar(s[0]) then s[0] else '_'] + ToIdChars(s[1..])
  }

  /** `generateDocumentId(url, title)`, with the host name the URL parser
      would return and the clock reading as arguments. */
  function GenerateDocumentId(domain: string, title: string, timestamp: nat): (r: string)
    ensures forall i :: 0 <= i < |r| ==> IsWordChar(r[i])
  {
    ToIdChars(domain + "_" + ShortTitle(title) + "_" + NatToString(timestamp))
  }

  /** `sanitizeText(title).substring(0, 50)` */
  function ShortTitle(title: string): (t: string)
    ensures |t| <= 50
  {
    var sanitized := SanitizeText(title);
    if |sanitized| <= 50 then sanitized else sanitized[..50]
  }

  /** The id keeps one character per character of its parts: the domain,
      at most fifty characters of the sanitized title, the timestamp's
      digits and two separators; the timestamp digits are kept as they are. */
  lemma DocumentIdShape(domain: string, title: string, timestamp: nat)
    ensures var r := GenerateDocumentId(domain, title, timestamp);
      |domain| + |NatToString(timestamp)| + 2 <= |r| <= |domain| + 50 + |NatToString(timestamp)| + 2
      && r[|r| - |NatToString(timestamp)|..] == NatToString(timestamp)
  {
    var digits := NatToString(timestamp);
    var prefix := domain + "_" + ShortTitle(title) + "_";
    assert GenerateDocumentId(domain, title, timestamp) == ToIdChars(prefix + digits);
    ToIdCharsKeepsWordSuffix(prefix, digits);
  }

  /** A suffix made of word characters passes through `ToIdChars` as it is. */
  lemma ToIdCharsKeepsWordSuffix(prefix: string, suffix: string)
    requires forall i :: 0 <= i < |suffix| ==> IsDigit(suffix[i])
    ensures ToIdChars(prefix + suffix)[|prefix|..] == suffix
  {
    var raw := prefix + suffix;
    var r := ToIdChars(raw);
    forall i | 0 <= i < |suffix| ensures r[|prefix| + i] == suffix[i] {
      assert raw[|prefix| + i] == suffix[i];
    }
  }
}

/** The pure text steps of `SafeAgreeTextExtractor`
    (content/text-extractor.js): `cleanText`, `splitIntoSentences`, the
    suffix that `getLastSentences` builds, `extractMetadata` and
    `detectLanguage`. */
module Cleaning {
  import opened Wrappers
  import opened Text
  import Helpers

  // ---------------------------------------------------------------------
  // cleanText

  /** A sentence terminator directly followed by an ASCII capital. */
  predicate PunctUpper(a: char, b: char) { IsTerminator(a) && IsUpper(b) }

  /** An ASCII lowercase letter directly followed by an ASCII capital. */
  predicate LowerUpper(a: char, b: char) { IsLower(a) && IsUpper(b) }

  /** `replace(/([.!?])\s*([A-Z])/g, '$1 $2')`: a terminator, any white
      space and a capital become the terminator, one space and the capital;
      scanning resumes after the capital. */
  function SpaceAfterPunct(s: string): (r: string)
    ensures s != [] ==> r != [] && r[0] == s[0]
    decreases |s|
  {
    if s == [] then []
    else if IsTerminator(s[0]) then
      var t := TrimStart(s[1..]);
      if t != [] && IsUpper(t[0]) then [s[0], ' ', t[0]] + SpaceAfterPunct(t[1..])
      else [s[0]] + SpaceAfterPunct(s[1..])
    else [s[0]] + SpaceAfterPunct(s[1..])
  }

  /** `replace(/([a-z])([A-Z])/g, '$1 $2')`: a space goes between a
      lowercase letter and the capital after it; matches do not overlap. */
  function CamelSplit(s: string): (r: string)
    ensures s != [] ==> r != [] && r[0] == s[0]
  {
    if s == [] then []
    else if |s| >= 2 && IsLower(s[0]) && IsUpper(s[1]) then [s[0], ' ', s[1]] + CamelSplit(s[2..])
    else [s[0]] + CamelSplit(s[1..])
  }

  /** `cleanText(rawText)`.  The `replace(/\n\s*\n/g, '\n\n')` step is
      left out of the chain because it can never match there: after
      `\s+` has become one space no newline is left (`CollapsedHasNoNewline`).
      Of the noise patterns only the global `\s+` applies, as one more
      collapse. */
  function CleanText(rawText: string): (r: string)
    ensures rawText == [] ==> r == []
  {
    if rawText == [] then []
    else
      var normalized := Trim(CollapseWs(rawText));
      var denoised := CollapseWs(normalized);
      var spaced := CamelSplit(SpaceAfterPunct(denoised));
      Trim(CollapseWs(spaced))
  }

  lemma CollapsedHasNoNewline(s: string)
    ensures '\n' !in CollapseWs(s)
  {
    CollapseWsSingleSpaces(s);
  }

  lemma {:induction false} SpaceAfterPunctSeparates(s: string)
    ensures NoAdjacent(SpaceAfterPunct(s), PunctUpper)
    decreases |s|
  {
    if s == [] {
    } else if IsTerminator(s[0]) {
      var t := TrimStart(s[1..]);
      if t != [] && IsUpper(t[0]) {
        SpaceAfterPunctSeparates(t[1..]);
        PunctSpaceCapitalJoin(s[0], t[0], SpaceAfterPunct(t[1..]));
      } else {
        SpaceAfterPunctSeparates(s[1..]);
        if s[1..] != [] && IsUpper(s[1]) {
          assert false;
        }
        CharJoin(s[0], SpaceAfterPunct(s[1..]), PunctUpper);
      }
    } else {
      SpaceAfterPunctSeparates(s[1..]);
      CharJoin(s[0], SpaceAfterPunct(s[1..]), PunctUpper);
    }
  }

  /** `p`, a space and a capital put in front of a string free of
      terminator-capital pairs keep it free of them. */
  lemma PunctSpaceCapitalJoin(p: char, capital: char, rest: string)
    requires IsUpper(capital) && NoAdjacent(rest, PunctUpper)
    ensures NoAdjacent([p, ' ', capital] + rest, PunctUpper)
  {
    var head := [p, ' ', capital];
    assert NoAdjacent(head, PunctUpper) by {
      forall i | 0 <= i < |head| - 1 ensures !PunctUpper(head[i], head[i + 1]) {
        assert i == 0 || i == 1;
      }
    }
    NoAdjacentJoin(head, rest, PunctUpper);
  }

  /** One character put in front of a string free of bad pairs keeps it
      free of them when it makes no bad pair with the first one. */
  lemma CharJoin(c: char, rest: string, bad: (char, char) -> bool)
    requires NoAdjacent(rest, bad) && (rest == [] || !bad(c, rest[0]))
    ensures NoAdjacent([c] + rest, bad)
  {
    NoAdjacentJoin([c], rest, bad);
  }

  lemma {:induction false} CamelSplitSeparates(s: string)
    ensures NoAdjacent(CamelSplit(s), LowerUpper)
    decreases |s|
  {
    if s == [] {
    } else if |s| >= 2 && IsLower(s[0]) && IsUpper(s[1]) {
      CamelSplitSeparates(s[2..]);
      var head := [s[0], ' ', s[1]];
      assert NoAdjacent(head, LowerUpper) by {
        forall i | 0 <= i < |head| - 1 ensures !LowerUpper(head[i], head[i + 1]) {
          assert i == 0 || i == 1;
        }
      }
      NoAdjacentJoin(head, CamelSplit(s[2..]), LowerUpper);
    } else {
      CamelSplitSeparates(s[1..]);
      NoAdjacentJoin([s[0]], CamelSplit(s[1..]), LowerUpper);
    }
  }

  /** Inserting spaces keeps every pair condition that no plain space can
      take part in. */
  lemma {:induction false} CamelSplitKeepsNoAdjacent(s: string, bad: (char, char) -> bool)
    requires SpaceNeutral(bad)
    requires NoAdjacent(s, bad)
    ensures NoAdjacent(CamelSplit(s), bad)
    decreases |s|
  {
    if s == [] {
    } else if |s| >= 2 && IsLower(s[0]) && IsUpper(s[1]) {
      NoAdjacentSlice(s, 2, |s|, bad);
      CamelSplitKeepsNoAdjacent(s[2..], bad);
      var head := [s[0], ' ', s[1]];
      assert NoAdjacent(head, bad) by {
        forall i | 0 <= i < |head| - 1 ensures !bad(head[i], head[i + 1]) {
          assert i == 0 || i == 1;
        }
      }
      if |s| > 2 {
        assert !bad(s[1], s[2]);
      }
      NoAdjacentJoin(head, CamelSplit(s[2..]), bad);
    } else {
      NoAdjacentSlice(s, 1, |s|, bad);
      CamelSplitKeepsNoAdjacent(s[1..], bad);
      if |s| > 1 {
        assert !bad(s[0], s[1]);
      }
      NoAdjacentJoin([s[0]], CamelSplit(s[1..]), bad);
    }
  }

  /** What `cleanText` guarantees: no white space at either end, no two
      white-space characters side by side, no lowercase letter directly
      before a capital and no terminator directly before a capital. */
  lemma CleanTextShape(rawText: string)
    ensures var r := CleanText(rawText);
      (r == [] || (!IsSpace(r[0]) && !IsSpace(r[|r| - 1])))
      && NoAdjacent(r, BothSpace)
      && NoAdjacent(r, LowerUpper)
      && NoAdjacent(r, PunctUpper)
  {
    if rawText != [] {
      var denoised := CollapseWs(Trim(CollapseWs(rawText)));
      var c := CamelSplit(SpaceAfterPunct(denoised));
      assert CleanText(rawText) == Trim(CollapseWs(c));
      SpacingSeparates(denoised);
      FinalCollapseShape(c);
    }
  }

  /** After the two spacing replacements no terminator and no lowercase
      letter is directly followed by a capital. */
  lemma SpacingSeparates(denoised: string)
    ensures var c := CamelSplit(SpaceAfterPunct(denoised));
      NoAdjacent(c, PunctUpper) && NoAdjacent(c, LowerUpper)
  {
    var p := SpaceAfterPunct(denoised);
    assert SpaceNeutral(PunctUpper);
    SpaceAfterPunctSeparates(denoised);
    CamelSplitKeepsNoAdjacent(p, PunctUpper);
    CamelSplitSeparates(p);
  }

  /** The last collapse and trim keep both properties and leave the text
      trimmed with no two white-space characters side by side. */
  lemma FinalCollapseShape(c: string)
    requires NoAdjacent(c, PunctUpper) && NoAdjacent(c, LowerUpper)
    ensures var r := Trim(CollapseWs(c));
      (r == [] || (!IsSpace(r[0]) && !IsSpace(r[|r| - 1])))
      && NoAdjacent(r, BothSpace)
      && NoAdjacent(r, LowerUpper)
      && NoAdjacent(r, PunctUpper)
  {
    var f := CollapseWs(c);
    assert SpaceNeutral(PunctUpper);
    assert SpaceNeutral(LowerUpper);
    CollapseWsKeepsNoAdjacent(c, PunctUpper);
    CollapseWsKeepsNoAdjacent(c, LowerUpper);
    CollapseWsSingleSpaces(c);
    TrimKeepsNoAdjacent(f, PunctUpper);
    TrimKeepsNoAdjacent(f, LowerUpper);
    TrimKeepsNoAdjacent(f, BothSpace);
  }

  // ---------------------------------------------------------------------
  // splitIntoSentences

  /** What every sentence is: longer than ten characters, trimmed, and
      free of terminators. */
  predicate IsSentence(s: string) {
    |s| > 10 && !IsSpace(s[0]) && !IsSpace(s[|s| - 1])
    && forall i :: 0 <= i < |s| ==> !IsTerminator(s[i])
  }

  /** `.map(s => s.trim()).filter(s => s.length > 10)` over pieces free of
      terminators. */
  function KeepSentences(pieces: seq<string>): (r: seq<string>)
    requires forall k :: 0 <= k < |pieces| ==> forall c :: c in pieces[k] ==> !IsTerminator(c)
    ensures |r| <= |pieces|
    ensures AllSentences(r)
  {
    if pieces == [] then []
    else
      var t := Trim(pieces[0]);
      var rest := KeepSentences(pieces[1..]);
      if |t| > 10 then
        TrimmedPieceIsSentence(pieces[0], rest);
        [t] + rest
      else rest
  }

  /** A trimmed piece free of terminators and longer than ten characters
      is a sentence. */
  lemma TrimmedPieceIsSentence(piece: string, rest: seq<string>)
    requires forall c :: c in piece ==> !IsTerminator(c)
    requires |Trim(piece)| > 10 && AllSentences(rest)
    ensures AllSentences([Trim(piece)] + rest)
  {
    var t := Trim(piece);
    TrimDropsOnlyEnds(piece);
    assert forall i :: 0 <= i < |t| ==> t[i] in piece;
    assert ([t] + rest)[1..] == rest;
  }

  lemma TrimDropsOnlyEnds(s: string)
    ensures forall c :: c in Trim(s) ==> c in s
  {
    SliceChars(s, Trim(s), |s| - |TrimStart(s)|);
  }

  lemma SliceChars(s: string, t: string, k: nat)
    requires k + |t| <= |s| && t == s[k..k + |t|]
    ensures forall c :: c in t ==> c in s
  {
    forall c | c in t ensures c in s {
      var i :| 0 <= i < |t| && t[i] == c;
      assert s[k + i] == c;
    }
  }

  /** Adds one to every index. */
  function Shift(idx: seq<nat>): (r: seq<nat>)
    ensures |r| == |idx| && forall k :: 0 <= k < |r| ==> r[k] == idx[k] + 1
  {
    if idx == [] then [] else [idx[0] + 1] + Shift(idx[1..])
  }

  lemma ShiftMembers(idx: seq<nat>)
    ensures forall x :: x in Shift(idx) <==> x > 0 && x - 1 in idx
  {
    var sh := Shift(idx);
    forall x ensures x in sh <==> x > 0 && x - 1 in idx {
      if x in sh {
        var k :| 0 <= k < |sh| && sh[k] == x;
        assert idx[k] == x - 1;
      }
      if x > 0 && x - 1 in idx {
        var k :| 0 <= k < |idx| && idx[k] == x - 1;
        assert sh[k] == x;
      }
    }
  }

  /** The positions of the pieces whose trimmed text is longer than ten
      characters. */
  function KeptIndices(pieces: seq<string>): seq<nat> {
    if pieces == [] then []
    else (if |Trim(pieces[0])| > 10 then [0] else []) + Shift(KeptIndices(pieces[1..]))
  }

  /** The trimmed text of every piece. */
  function TrimAll(pieces: seq<string>): (ts: seq<string>)
    ensures |ts| == |pieces| && forall j :: 0 <= j < |ts| ==> ts[j] == Trim(pieces[j])
  {
    if pieces == [] then [] else [Trim(pieces[0])] + TrimAll(pieces[1..])
  }

  /** `r` lists `ts[idx[0]]`, `ts[idx[1]]`, ... */
  predicate PicksAt(r: seq<string>, idx: seq<nat>, ts: seq<string>) {
    |idx| == |r| && forall k :: 0 <= k < |idx| ==> idx[k] < |ts| && r[k] == ts[idx[k]]
  }

  predicate Increasing(idx: seq<nat>) {
    forall k, l :: 0 <= k < l < |idx| ==> idx[k] < idx[l]
  }

  /** `idx` holds exactly the positions of the strings of `ts` longer than
      ten characters. */
  predicate LongAt(idx: seq<nat>, ts: seq<string>) {
    forall j :: 0 <= j < |ts| ==> (j in idx <==> |ts[j]| > 10)
  }

  /** `r` lists, in order, exactly the strings of `ts` longer than ten
      characters, and `idx` says where each came from. */
  predicate PicksLong(r: seq<string>, idx: seq<nat>, ts: seq<string>) {
    PicksAt(r, idx, ts) && Increasing(idx) && LongAt(idx, ts)
  }

  /** Putting a string of at most ten characters in front keeps
      `PicksLong`, with every position moved up by one. */
  lemma PicksLongSkip(h: string, ts: seq<string>, rest: seq<string>, ridx: seq<nat>)
    requires |h| <= 10 && PicksLong(rest, ridx, ts)
    ensures PicksLong(rest, Shift(ridx), [h] + ts)
  {
    var all := [h] + ts;
    var idx := Shift(ridx);
    assert PicksAt(rest, idx, all) by {
      forall k | 0 <= k < |idx| ensures idx[k] < |all| && rest[k] == all[idx[k]] {
        assert all[ridx[k] + 1] == ts[ridx[k]];
      }
    }
    assert LongAt(idx, all) by {
      ShiftMembers(ridx);
      forall j | 0 <= j < |all| ensures j in idx <==> |all[j]| > 10 {
        if j > 0 {
          assert all[j] == ts[j - 1];
        }
      }
    }
  }

  /** Putting a string longer than ten characters in front keeps
      `PicksLong`, picking it first. */
  lemma PicksLongKeep(h: string, ts: seq<string>, rest: seq<string>, ridx: seq<nat>)
    requires |h| > 10 && PicksLong(rest, ridx, ts)
    ensures PicksLong([h] + rest, [0] + Shift(ridx), [h] + ts)
  {
    KeepPicksAt(h, ts, rest, ridx);
    KeepIncreasing(ridx);
    KeepLongAt(h, ts, ridx);
  }

  lemma KeepPicksAt(h: string, ts: seq<string>, rest: seq<string>, ridx: seq<nat>)
    requires PicksAt(rest, ridx, ts)
    ensures PicksAt([h] + rest, [0] + Shift(ridx), [h] + ts)
  {
    var all := [h] + ts;
    var idx := [0] + Shift(ridx);
    var r := [h] + rest;
    forall k | 0 <= k < |idx| ensures idx[k] < |all| && r[k] == all[idx[k]] {
      if k > 0 {
        assert idx[k] == ridx[k - 1] + 1 && r[k] == rest[k - 1];
        assert all[ridx[k - 1] + 1] == ts[ridx[k - 1]];
      }
    }
  }

  lemma KeepIncreasing(ridx: seq<nat>)
    requires Increasing(ridx)
    ensures Increasing([0] + Shift(ridx))
  {
    var sh := Shift(ridx);
    var idx := [0] + sh;
    forall k, l | 0 <= k < l < |idx| ensures idx[k] < idx[l] {
      assert idx[l] == sh[l - 1];
      if k > 0 {
        assert idx[k] == sh[k - 1];
      }
    }
  }

  lemma KeepLongAt(h: string, ts: seq<string>, ridx: seq<nat>)
    requires |h| > 10 && LongAt(ridx, ts)
    ensures LongAt([0] + Shift(ridx), [h] + ts)
  {
    var all := [h] + ts;
    var sh := Shift(ridx);
    var idx := [0] + sh;
    ShiftMembers(ridx);
    forall j | 0 <= j < |all| ensures j in idx <==> |all[j]| > 10 {
      if j > 0 {
        assert all[j] == ts[j - 1];
        assert j in idx <==> j in sh;
      } else {
        assert idx[0] == 0;
      }
    }
  }

  /** What `.map(s => s.trim()).filter(s => s.length > 10)` keeps: the
      trimmed pieces at strictly increasing positions, and every piece whose
      trimmed text is longer than ten characters, none other. */
  lemma {:induction false} KeepSentencesPicksLong(pieces: seq<string>)
    requires forall k :: 0 <= k < |pieces| ==> forall c :: c in pieces[k] ==> !IsTerminator(c)
    ensures PicksLong(KeepSentences(pieces), KeptIndices(pieces), TrimAll(pieces))
  {
    if pieces != [] {
      var tail := pieces[1..];
      assert forall k :: 0 <= k < |tail| ==> tail[k] == pieces[k + 1];
      KeepSentencesPicksLong(tail);
      var h := Trim(pieces[0]);
      var rest, ridx, tts := KeepSentences(tail), KeptIndices(tail), TrimAll(tail);
      assert TrimAll(pieces) == [h] + tts;
      if |h| > 10 {
        assert KeepSentences(pieces) == [h] + rest;
        assert KeptIndices(pieces) == [0] + Shift(ridx);
        PicksLongKeep(h, tts, rest, ridx);
      } else {
        assert KeepSentences(pieces) == rest;
        assert KeptIndices(pieces) == Shift(ridx);
        PicksLongSkip(h, tts, rest, ridx);
      }
    }
  }

  /** `splitIntoSentences(text)`: split at runs of `.`, `!` and `?`, trim,
      keep the pieces longer than ten characters, in text order. */
  function SplitIntoSentences(text: string): (r: seq<string>)
    ensures AllSentences(r)
  {
    KeepSentences(SplitRuns(text, IsTerminator))
  }

  /** The sentences are the trimmed pieces between runs of terminators
      that are longer than ten characters: all of them, in text order. */
  lemma SplitIntoSentencesPieces(text: string)
    ensures var pieces := SplitRuns(text, IsTerminator);
      var r := SplitIntoSentences(text); var idx := KeptIndices(pieces);
      |idx| == |r|
      && (forall k :: 0 <= k < |idx| ==> idx[k] < |pieces| && r[k] == Trim(pieces[idx[k]]))
      && (forall k, l :: 0 <= k < l < |idx| ==> idx[k] < idx[l])
      && (forall j :: 0 <= j < |pieces| ==> (j in idx <==> |Trim(pieces[j])| > 10))
  {
    var pieces := SplitRuns(text, IsTerminator);
    KeepSentencesPicksLong(pieces);
    UnpackPicksLong(SplitIntoSentences(text), KeptIndices(pieces), pieces);
  }

  /** `PicksLong` over the trimmed pieces, spelled out piece by piece. */
  lemma UnpackPicksLong(r: seq<string>, idx: seq<nat>, pieces: seq<string>)
    requires PicksLong(r, idx, TrimAll(pieces))
    ensures |idx| == |r|
      && (forall k :: 0 <= k < |idx| ==> idx[k] < |pieces| && r[k] == Trim(pieces[idx[k]]))
      && (forall k, l :: 0 <= k < l < |idx| ==> idx[k] < idx[l])
      && (forall j :: 0 <= j < |pieces| ==> (j in idx <==> |Trim(pieces[j])| > 10))
  {
  }

  /** Every element of `ss` is a sentence, stated element by element from
      the front. */
  predicate AllSentences(ss: seq<string>) {
    ss == [] || (IsSentence(ss[0]) && AllSentences(ss[1..]))
  }

  lemma {:induction false} AllSentencesSuffix(ss: seq<string>, k: nat)
    requires AllSentences(ss) && k <= |ss|
    ensures AllSentences(ss[k..])
  {
    if k > 0 {
      assert ss[1..][k - 1..] == ss[k..];
      AllSentencesSuffix(ss[1..], k - 1);
    }
  }

  lemma {:induction false} AllSentencesAt(ss: seq<string>, k: nat)
    requires AllSentences(ss) && k < |ss|
    ensures IsSentence(ss[k])
  {
    if k > 0 {
      AllSentencesAt(ss[1..], k - 1);
    }
  }

  /** `splitIntoSentences` returns trimmed pieces longer than ten
      characters with no `.`, `!` or `?` in them. */
  lemma SentencesShape(text: string)
    ensures forall k :: 0 <= k < |SplitIntoSentences(text)| ==> IsSentence(SplitIntoSentences(text)[k])
  {
    var ss := SplitIntoSentences(text);
    forall k | 0 <= k < |ss| ensures IsSentence(ss[k]) {
      AllSentencesAt(ss, k);
    }
  }

  // ---------------------------------------------------------------------
  // getLastSentences, as a function of the sentences

  /** The sentences joined by `". "`. */
  function JoinDot(ss: seq<string>): string {
    if ss == [] then []
    else if |ss| == 1 then ss[0]
    else ss[0] + ". " + JoinDot(ss[1..])
  }

  lemma JoinDotCons(ss: seq<string>)
    requires ss != []
    ensures JoinDot(ss) == ss[0] + (if ss[1..] == [] then [] else ". " + JoinDot(ss[1..]))
  {
  }

  /** Joining non-empty trimmed sentences gives a string that is empty only
      when there are none and has no white space at either end. */
  lemma {:induction false} JoinDotTrimmed(ss: seq<string>)
    requires AllSentences(ss)
    ensures var r := JoinDot(ss);
      (ss == [] <==> r == []) && (r == [] || (!IsSpace(r[0]) && !IsSpace(r[|r| - 1])))
  {
    if |ss| > 1 {
      JoinDotTrimmed(ss[1..]);
      var tail := JoinDot(ss[1..]);
      var r := ss[0] + ". " + tail;
      assert r[0] == ss[0][0];
      assert r[|r| - 1] == tail[|tail| - 1];
    }
  }

  /** Where the backward scan of `getLastSentences` stops when it has taken
      `sentences[j..]`: it takes `sentences[j - 1]` too while the joined
      suffix plus that sentence fit in `maxLength`; the separator is not
      counted. */
  function LastSentencesStart(sentences: seq<string>, maxLength: nat, j: nat): (k: nat)
    requires j <= |sentences|
    ensures k <= j
  {
    if j == 0 then 0
    else if |JoinDot(sentences[j..])| + |sentences[j - 1]| <= maxLength then LastSentencesStart(sentences, maxLength, j - 1)
    else j
  }

  /** What `getLastSentences(text, maxLength)` returns. */
  function LastSentences(text: string, maxLength: nat): string {
    var sentences := SplitIntoSentences(text);
    JoinDot(sentences[LastSentencesStart(sentences, maxLength, |sentences|)..])
  }

  lemma {:induction false} LastSentencesStartBound(sentences: seq<string>, maxLength: nat, j: nat)
    requires j <= |sentences|
    requires |JoinDot(sentences[j..])| <= maxLength + 2
    ensures |JoinDot(sentences[LastSentencesStart(sentences, maxLength, j)..])| <= maxLength + 2
    decreases j
  {
    if j > 0 && |JoinDot(sentences[j..])| + |sentences[j - 1]| <= maxLength {
      var ss := sentences[j - 1..];
      JoinDotCons(ss);
      assert ss[1..] == sentences[j..];
      LastSentencesStartBound(sentences, maxLength, j - 1);
    }
  }

  /** The overlap suffix: the stopping point is maximal (the sentence
      before it does not fit, unless every sentence was taken); it is at
      most `maxLength + 2` characters, because the `". "` separator is not
      counted by the test; and it is empty when the last sentence alone is
      longer than `maxLength`. */
  lemma LastSentencesProperties(text: string, maxLength: nat)
    ensures var sentences := SplitIntoSentences(text);
      var k := LastSentencesStart(sentences, maxLength, |sentences|);
      (k == 0 || |JoinDot(sentences[k..])| + |sentences[k - 1]| > maxLength)
      && |LastSentences(text, maxLength)| <= maxLength + 2
      && (sentences != [] && |sentences[|sentences| - 1]| > maxLength ==> LastSentences(text, maxLength) == [])
  {
    var sentences := SplitIntoSentences(text);
    assert sentences[|sentences|..] == [];
    LastSentencesStartBound(sentences, maxLength, |sentences|);
    StopIsMaximal(sentences, maxLength, |sentences|);
  }

  lemma {:induction false} StopIsMaximal(sentences: seq<string>, maxLength: nat, j: nat)
    requires j <= |sentences|
    ensures var k := LastSentencesStart(sentences, maxLength, j);
      k == 0 || |JoinDot(sentences[k..])| + |sentences[k - 1]| > maxLength
    decreases j
  {
    if j > 0 && |JoinDot(sentences[j..])| + |sentences[j - 1]| <= maxLength {
      StopIsMaximal(sentences, maxLength, j - 1);
    }
  }

  // ---------------------------------------------------------------------
  // extractMetadata, detectLanguage

  /** `text.split(/\s+/).filter(word => word.length > 0)` */
  function Words(text: string): seq<string> {
    Helpers.NonEmpty(SplitRuns(text, IsSpace))
  }

  lemma {:induction false} ConcatNonEmpty(ss: seq<string>)
    ensures Concat(Helpers.NonEmpty(ss)) == Concat(ss)
  {
    if ss != [] {
      ConcatNonEmpty(ss[1..]);
      assert Helpers.NonEmpty(ss) == (if ss[0] == [] then [] else [ss[0]]) + Helpers.NonEmpty(ss[1..]);
      ConcatAppend(if ss[0] == [] then [] else [ss[0]], Helpers.NonEmpty(ss[1..]));
    }
  }

  lemma {:induction false} ConcatAppend(a: seq<string>, b: seq<string>)
    ensures Concat(a + b) == Concat(a) + Concat(b)
  {
    if a == [] {
      assert a + b == b;
    } else {
      assert (a + b)[0] == a[0];
      assert (a + b)[1..] == a[1..] + b;
      ConcatAppend(a[1..], b);
    }
  }

  /** The words are non-empty, free of white space, and together they are
      exactly the text's non-white-space characters, in order. */
  lemma WordsCoverText(text: string)
    ensures forall w :: w in Words(text) ==> w != [] && forall c :: c in w ==> !IsSpace(c)
    ensures Concat(Words(text)) == Without(text, IsSpace)
  {
    var pieces := SplitRuns(text, IsSpace);
    forall w | w in Words(text) ensures w != [] && forall c :: c in w ==> !IsSpace(c) {
      assert w in pieces;
      var k :| 0 <= k < |pieces| && pieces[k] == w;
    }
    ConcatNonEmpty(pieces);
    SplitRunsReassembles(text, IsSpace);
  }

  /** `Math.ceil(words / 200)` */
  function ReadingTime(words: nat): (minutes: nat)
    ensures 200 * minutes >= words
    ensures minutes > 0 ==> 200 * (minutes - 1) < words
  {
    (words + 199) / 200
  }

  datatype Metadata = Metadata(
    wordCount: nat,
    charCount: nat,
    readingTime: nat,
    language: string,
    lastUpdated: Option<string>)

  /** The metadata of an extraction whose metadata was not requested. */
  const DefaultMetadata := Metadata(0, 0, 0, "en", None)

  /** `extractMetadata(text)`; the date that `extractLastUpdatedDate` finds
      with its regular expressions is an argument. */
  function ExtractMetadata(text: string, lastUpdated: Option<string>): (m: Metadata)
    ensures m.charCount == |text|
    ensures m.wordCount == |Words(text)| && m.readingTime == ReadingTime(m.wordCount)
    ensures m.wordCount <= 200 * m.readingTime
    ensures m.language == DetectLanguage(text) && (m.language == "en" || m.language == "unknown")
    ensures m.lastUpdated == lastUpdated
  {
    var words := Words(text);
    Metadata(|words|, |text|, ReadingTime(|words|), DetectLanguage(text), lastUpdated)
  }

  const CommonEnglishWords: seq<string> := ["the", "and", "or", "but", "in", "on", "at", "to", "for", "of", "with", "by"]

  /** How many of `words` are common English words. */
  function EnglishCount(words: seq<string>): (n: nat)
    ensures n <= |words|
  {
    if words == [] then 0
    else (if words[0] in CommonEnglishWords then 1 else 0) + EnglishCount(words[1..])
  }

  /** `detectLanguage(text)`: the share of common English words among the
      pieces of the lowercased text split at white space (empty pieces
      included) must exceed 0.02. */
  function DetectLanguage(text: string): (language: string)
    ensures language == "en" || language == "unknown"
  {
    var words := SplitRuns(Lower(text), IsSpace);
    if (EnglishCount(words) as real) / (|words| as real) > 0.02 then "en" else "unknown"
  }

  /** The ratio test is the integer test `50 * count > n`. */
  lemma DetectLanguageIntegerTest(text: string)
    ensures var words := SplitRuns(Lower(text), IsSpace);
      DetectLanguage(text) == "en" <==> 50 * EnglishCount(words) > |words|
  {
    var words := SplitRuns(Lower(text), IsSpace);
    RatioTest(EnglishCount(words) as real, |words| as real);
  }

  lemma RatioTest(c: real, n: real)
    requires n > 0.0
    ensures c / n > 0.02 <==> 50.0 * c > n
  {
    var q := c / n;
    assert q * n == c;
    if q > 0.02 {
      assert (q - 0.02) * n > 0.0;
    } else {
      assert (0.02 - q) * n >= 0.0;
    }
  }
}

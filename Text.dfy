/** Character classes and string primitives shared by the extension's text
    code: the JavaScript `\s` class, ASCII case, `trim`, whitespace
    collapsing (`replace(/\s+/g, ' ')`), `split` on a run of separators,
    substring search and decimal rendering of numbers. */
module Text {

  /** The characters JavaScript's `\s` and `String.prototype.trim` treat as
      white space (WhiteSpace and LineTerminator of ECMA-262). */
  const SpaceChars: set<char> := {
    ' ', '\t', '\n', '\U{B}', '\U{C}', '\r', '\U{A0}', '\U{1680}',
    '\U{2000}', '\U{2001}', '\U{2002}', '\U{2003}', '\U{2004}', '\U{2005}',
    '\U{2006}', '\U{2007}', '\U{2008}', '\U{2009}', '\U{200A}',
    '\U{2028}', '\U{2029}', '\U{202F}', '\U{205F}', '\U{3000}', '\U{FEFF}'
  }

  predicate IsSpace(c: char) { c in SpaceChars }

  predicate IsUpper(c: char) { 'A' <= c <= 'Z' }
  predicate IsLower(c: char) { 'a' <= c <= 'z' }
  predicate IsDigit(c: char) { '0' <= c <= '9' }

  /** `\w` of a regular expression without the `u` flag. */
  predicate IsWordChar(c: char) { IsUpper(c) || IsLower(c) || IsDigit(c) || c == '_' }

  /** The sentence terminators `.`, `!` and `?`. */
  predicate IsTerminator(c: char) { c == '.' || c == '!' || c == '?' }

  function LowerChar(c: char): (r: char)
    ensures !IsUpper(r)
    ensures IsUpper(c) || r == c
  {
    if IsUpper(c) then (c as int + 32) as char else c
  }

  /** `toLowerCase`, on the ASCII letters. */
  function Lower(s: string): (r: string)
    ensures |r| == |s|
    ensures forall i :: 0 <= i < |s| ==> r[i] == LowerChar(s[i])
  {
    if s == [] then [] else [LowerChar(s[0])] + Lower(s[1..])
  }

  predicate StartsWith(s: string, prefix: string) {
    |prefix| <= |s| && s[..|prefix|] == prefix
  }

  /** `s.includes(part)`. */
  predicate Contains(s: string, part: string) {
    exists i :: 0 <= i <= |s| - |part| && OccursAt(s, part, i)
  }

  predicate OccursAt(s: string, part: string, i: int) {
    0 <= i && i + |part| <= |s| && s[i..i + |part|] == part
  }

  /** Number of phrases of `phrases` that occur in `s` (the length of
      `phrases.filter(p => s.includes(p))`). */
  function CountFound(phrases: seq<string>, s: string): (n: nat)
    ensures n <= |phrases|
  {
    if phrases == [] then 0
    else (if Contains(s, phrases[0]) then 1 else 0) + CountFound(phrases[1..], s)
  }

  /** `phrases.some(p => s.includes(p))` */
  predicate AnyContained(phrases: seq<string>, s: string) {
    phrases != [] && (Contains(s, phrases[0]) || AnyContained(phrases[1..], s))
  }

  /** Some phrase of the list occurs in `s`, and which one does not
      matter. */
  lemma {:induction false} AnyContainedIff(phrases: seq<string>, s: string)
    ensures AnyContained(phrases, s) <==> exists k :: 0 <= k < |phrases| && Contains(s, phrases[k])
  {
    if phrases != [] {
      AnyContainedIff(phrases[1..], s);
      if exists k :: 0 <= k < |phrases| && Contains(s, phrases[k]) {
        var k :| 0 <= k < |phrases| && Contains(s, phrases[k]);
        if k > 0 {
          assert phrases[1..][k - 1] == phrases[k];
        }
      }
      if AnyContained(phrases[1..], s) {
        var k :| 0 <= k < |phrases[1..]| && Contains(s, phrases[1..][k]);
        assert phrases[k + 1] == phrases[1..][k];
      }
    }
  }

  /** Removes the leading characters that satisfy `p`. */
  function DropWhile(s: string, p: char -> bool): (r: string)
    ensures |r| <= |s| && r == s[|s| - |r|..]
    ensures r == [] || !p(r[0])
    ensures s != [] && p(s[0]) ==> |r| < |s|
    ensures s != [] && !p(s[0]) ==> r == s
  {
    if s != [] && p(s[0]) then DropWhile(s[1..], p) else s
  }

  function TrimStart(s: string): (r: string)
    ensures |r| <= |s| && r == s[|s| - |r|..]
    ensures r == [] || !IsSpace(r[0])
    ensures s != [] && IsSpace(s[0]) ==> |r| < |s|
    ensures s != [] && !IsSpace(s[0]) ==> r == s
  {
    DropWhile(s, IsSpace)
  }

  function TrimEnd(s: string): (r: string)
    ensures |r| <= |s| && r == s[..|r|]
    ensures r == [] || !IsSpace(r[|r| - 1])
    ensures s != [] && !IsSpace(s[|s| - 1]) ==> r == s
  {
    if s != [] && IsSpace(s[|s| - 1]) then TrimEnd(s[..|s| - 1]) else s
  }

  /** `String.prototype.trim`. */
  function Trim(s: string): (r: string)
    ensures |r| <= |s|
    ensures r == [] || (!IsSpace(r[0]) && !IsSpace(r[|r| - 1]))
    ensures var k := |s| - |TrimStart(s)|; k + |r| <= |s| && r == s[k..k + |r|]
  {
    var t := TrimStart(s);
    var r := TrimEnd(t);
    SliceOfSlice(s, t, r);
    r
  }

  /** A prefix `r` of a suffix `t` of `s` is a slice of `s`. */
  lemma SliceOfSlice(s: string, t: string, r: string)
    requires |t| <= |s| && t == s[|s| - |t|..]
    requires |r| <= |t| && r == t[..|r|]
    ensures var k := |s| - |t|; k + |r| <= |s| && r == s[k..k + |r|]
    ensures r != [] ==> r[0] == t[0]
  {
  }

  lemma TrimUnchanged(s: string)
    requires s == [] || (!IsSpace(s[0]) && !IsSpace(s[|s| - 1]))
    ensures Trim(s) == s
  {
  }

  lemma {:induction false} DropWhileDropsOnly(s: string, p: char -> bool)
    ensures forall i :: 0 <= i < |s| - |DropWhile(s, p)| ==> p(s[i])
  {
    if s != [] && p(s[0]) {
      DropWhileDropsOnly(s[1..], p);
      assert forall i :: 1 <= i < |s| ==> s[i] == s[1..][i - 1];
    }
  }

  lemma {:induction false} TrimEndDropsOnlySpace(s: string)
    ensures forall i :: |TrimEnd(s)| <= i < |s| ==> IsSpace(s[i])
  {
    if s != [] && IsSpace(s[|s| - 1]) {
      var t := s[..|s| - 1];
      TrimEndDropsOnlySpace(t);
      assert forall i :: 0 <= i < |t| ==> t[i] == s[i];
    }
  }

  /** `trim` removes exactly the white space at the two ends: everything
      before the kept slice and everything after it is white space, and
      the kept slice neither starts nor ends with white space. */
  lemma TrimRemovesOnlySpace(s: string)
    ensures var r := Trim(s); var k := |s| - |TrimStart(s)|;
      k + |r| <= |s| && r == s[k..k + |r|]
      && (forall i :: 0 <= i < k ==> IsSpace(s[i]))
      && (forall i :: k + |r| <= i < |s| ==> IsSpace(s[i]))
      && (r == [] || (!IsSpace(r[0]) && !IsSpace(r[|r| - 1])))
  {
    var t := TrimStart(s);
    var k := |s| - |t|;
    DropWhileDropsOnly(s, IsSpace);
    TrimEndDropsOnlySpace(t);
    assert forall i :: k <= i < |s| ==> s[i] == t[i - k];
  }

  /** Dropping leading white space keeps the non-white-space characters. */
  lemma TrimStartKeepsText(s: string)
    ensures Without(TrimStart(s), IsSpace) == Without(s, IsSpace)
  {
    var t := TrimStart(s);
    var k := |s| - |t|;
    DropWhileDropsOnly(s, IsSpace);
    assert s == s[..k] + t;
    WithoutAppend(s[..k], t, IsSpace);
    assert forall i :: 0 <= i < k ==> s[..k][i] == s[i];
    WithoutAll(s[..k], IsSpace);
  }

  /** Collapsing white space keeps every other character, in order. */
  lemma {:induction false} CollapseWsKeepsText(s: string)
    ensures Without(CollapseWs(s), IsSpace) == Without(s, IsSpace)
    decreases |s|
  {
    if s != [] {
      if IsSpace(s[0]) {
        var t := TrimStart(s[1..]);
        CollapseWsKeepsText(t);
        TrimStartKeepsText(s[1..]);
        WithoutAppend([' '], CollapseWs(t), IsSpace);
      } else {
        CollapseWsKeepsText(s[1..]);
        WithoutAppend([s[0]], CollapseWs(s[1..]), IsSpace);
      }
    }
  }

  /** `replace(/\s+/g, ' ')`: every maximal run of white space becomes one
      space. */
  function CollapseWs(s: string): (r: string)
    ensures |r| <= |s|
    ensures s == [] <==> r == []
    ensures s != [] ==> (IsSpace(s[0]) ==> r[0] == ' ') && (!IsSpace(s[0]) ==> r[0] == s[0])
    decreases |s|
  {
    if s == [] then []
    else if IsSpace(s[0]) then [' '] + CollapseWs(TrimStart(s[1..]))
    else [s[0]] + CollapseWs(s[1..])
  }

  /** No two adjacent characters of `s` form a pair that `bad` rejects. */
  predicate NoAdjacent(s: string, bad: (char, char) -> bool) {
    forall i :: 0 <= i < |s| - 1 ==> !bad(s[i], s[i + 1])
  }

  /** A pair relation that never involves the plain space. */
  predicate SpaceNeutral(bad: (char, char) -> bool) {
    forall c: char :: !bad(c, ' ') && !bad(' ', c)
  }

  predicate BothSpace(a: char, b: char) { IsSpace(a) && IsSpace(b) }

  lemma NoAdjacentConcat(a: string, b: string, bad: (char, char) -> bool)
    ensures NoAdjacent(a + b, bad) <==>
      NoAdjacent(a, bad) && NoAdjacent(b, bad) && (a == [] || b == [] || !bad(a[|a| - 1], b[0]))
  {
    var ab := a + b;
    if NoAdjacent(a, bad) && NoAdjacent(b, bad) && (a == [] || b == [] || !bad(a[|a| - 1], b[0])) {
      forall i | 0 <= i < |ab| - 1 ensures !bad(ab[i], ab[i + 1]) {
        if i + 1 < |a| {
          assert ab[i] == a[i] && ab[i + 1] == a[i + 1];
        } else if i >= |a| {
          assert ab[i] == b[i - |a|] && ab[i + 1] == b[i + 1 - |a|];
        }
      }
    }
    if NoAdjacent(ab, bad) {
      forall i | 0 <= i < |a| - 1 ensures !bad(a[i], a[i + 1]) {
        assert ab[i] == a[i] && ab[i + 1] == a[i + 1];
      }
      forall i | 0 <= i < |b| - 1 ensures !bad(b[i], b[i + 1]) {
        assert ab[|a| + i] == b[i] && ab[|a| + i + 1] == b[i + 1];
      }
      if a != [] && b != [] {
        assert ab[|a| - 1] == a[|a| - 1] && ab[|a|] == b[0];
      }
    }
  }

  /** Joining two strings free of bad pairs gives one free of bad pairs
      when the pair across the junction is not bad either. */
  lemma NoAdjacentJoin(a: string, b: string, bad: (char, char) -> bool)
    requires NoAdjacent(a, bad) && NoAdjacent(b, bad)
    requires a == [] || b == [] || !bad(a[|a| - 1], b[0])
    ensures NoAdjacent(a + b, bad)
  {
    NoAdjacentConcat(a, b, bad);
  }

  lemma NoAdjacentSlice(s: string, i: nat, j: nat, bad: (char, char) -> bool)
    requires i <= j <= |s|
    requires NoAdjacent(s, bad)
    ensures NoAdjacent(s[i..j], bad)
  {
    var t := s[i..j];
    forall k | 0 <= k < |t| - 1 ensures !bad(t[k], t[k + 1]) {
      assert t[k] == s[i + k] && t[k + 1] == s[i + k + 1];
    }
  }

  lemma {:induction false} TrimKeepsNoAdjacent(s: string, bad: (char, char) -> bool)
    requires NoAdjacent(s, bad)
    ensures NoAdjacent(Trim(s), bad)
  {
    var r := Trim(s);
    var k := |s| - |TrimStart(s)|;
    NoAdjacentSlice(s, k, k + |r|, bad);
  }

  /** Collapsing white space leaves only plain spaces, never two in a row. */
  lemma {:induction false} CollapseWsSingleSpaces(s: string)
    ensures NoAdjacent(CollapseWs(s), BothSpace)
    ensures forall i :: 0 <= i < |CollapseWs(s)| && IsSpace(CollapseWs(s)[i]) ==> CollapseWs(s)[i] == ' '
    decreases |s|
  {
    if s == [] {
    } else if IsSpace(s[0]) {
      var t := TrimStart(s[1..]);
      CollapseWsSingleSpaces(t);
      NoAdjacentJoin([' '], CollapseWs(t), BothSpace);
    } else {
      CollapseWsSingleSpaces(s[1..]);
      NoAdjacentJoin([s[0]], CollapseWs(s[1..]), BothSpace);
    }
  }

  /** Collapsing white space keeps every pair condition that no plain space
      can take part in. */
  lemma {:induction false} CollapseWsKeepsNoAdjacent(s: string, bad: (char, char) -> bool)
    requires SpaceNeutral(bad)
    requires NoAdjacent(s, bad)
    ensures NoAdjacent(CollapseWs(s), bad)
    decreases |s|
  {
    if s == [] {
    } else if IsSpace(s[0]) {
      var t := TrimStart(s[1..]);
      NoAdjacentSlice(s, |s| - |t|, |s|, bad);
      CollapseWsKeepsNoAdjacent(t, bad);
      NoAdjacentJoin([' '], CollapseWs(t), bad);
    } else {
      NoAdjacentSlice(s, 1, |s|, bad);
      CollapseWsKeepsNoAdjacent(s[1..], bad);
      NoAdjacentJoin([s[0]], CollapseWs(s[1..]), bad);
    }
  }

  /** `s.split(re)` for a regular expression matching a run of one or more
      characters satisfying `sep`: the pieces between the runs, including an
      empty first (last) piece when `s` starts (ends) with a run. */
  function SplitRuns(s: string, sep: char -> bool): (r: seq<string>)
    ensures |r| >= 1
    ensures forall k :: 0 <= k < |r| ==> forall c :: c in r[k] ==> !sep(c)
    decreases |s|
  {
    var i := FirstIndex(s, sep);
    if i == |s| then [s]
    else
      var rest := DropWhile(s[i..], sep);
      var tail := SplitRuns(rest, sep);
      PrefixAvoids(s, i, sep);
      ConsAvoids(s[..i], tail, sep);
      [s[..i]] + tail
  }

  lemma PrefixAvoids(s: string, i: nat, sep: char -> bool)
    requires i <= |s| && forall k :: 0 <= k < i ==> !sep(s[k])
    ensures forall c :: c in s[..i] ==> !sep(c)
  {
    forall c | c in s[..i] ensures !sep(c) {
      var k :| 0 <= k < i && s[..i][k] == c;
      assert s[k] == c;
    }
  }

  lemma ConsAvoids(piece: string, rest: seq<string>, sep: char -> bool)
    requires forall c :: c in piece ==> !sep(c)
    requires forall k :: 0 <= k < |rest| ==> forall c :: c in rest[k] ==> !sep(c)
    ensures forall k :: 0 <= k < |[piece] + rest| ==> forall c :: c in ([piece] + rest)[k] ==> !sep(c)
  {
    var r := [piece] + rest;
    forall k | 0 <= k < |r| ensures forall c :: c in r[k] ==> !sep(c) {
      if k > 0 {
        assert r[k] == rest[k - 1];
      }
    }
  }

  /** Index of the first character satisfying `p`, or `|s|`. */
  function FirstIndex(s: string, p: char -> bool): (i: nat)
    ensures i <= |s|
    ensures forall k :: 0 <= k < i ==> !p(s[k])
    ensures i < |s| ==> p(s[i])
  {
    if s == [] || p(s[0]) then 0 else 1 + FirstIndex(s[1..], p)
  }

  /** The characters of `s` that do not satisfy `sep`, in order. */
  function Without(s: string, sep: char -> bool): (r: string)
    ensures |r| <= |s|
  {
    if s == [] then [] else (if sep(s[0]) then [] else [s[0]]) + Without(s[1..], sep)
  }

  function Concat(ss: seq<string>): string {
    if ss == [] then [] else ss[0] + Concat(ss[1..])
  }

  lemma {:induction false} WithoutAppend(a: string, b: string, sep: char -> bool)
    ensures Without(a + b, sep) == Without(a, sep) + Without(b, sep)
  {
    if a == [] {
      assert a + b == b;
    } else {
      assert (a + b)[1..] == a[1..] + b;
      WithoutAppend(a[1..], b, sep);
    }
  }

  lemma {:induction false} WithoutNone(a: string, sep: char -> bool)
    requires forall k :: 0 <= k < |a| ==> !sep(a[k])
    ensures Without(a, sep) == a
  {
    if a != [] { WithoutNone(a[1..], sep); }
  }

  lemma {:induction false} WithoutAll(a: string, sep: char -> bool)
    requires forall k :: 0 <= k < |a| ==> sep(a[k])
    ensures Without(a, sep) == []
  {
    if a != [] { WithoutAll(a[1..], sep); }
  }

  lemma {:induction false} WithoutPieces(s: string, i: nat, j: nat, sep: char -> bool)
    requires i <= j <= |s|
    requires forall k :: 0 <= k < i ==> !sep(s[k])
    requires forall k :: i <= k < j ==> sep(s[k])
    ensures Without(s, sep) == s[..i] + Without(s[j..], sep)
  {
    var a, m, z := s[..i], s[i..j], s[j..];
    assert s == (a + m) + z;
    WithoutAppend(a + m, z, sep);
    WithoutAppend(a, m, sep);
    assert forall k :: 0 <= k < |a| ==> a[k] == s[k];
    WithoutNone(a, sep);
    assert forall k :: 0 <= k < |m| ==> m[k] == s[i + k];
    WithoutAll(m, sep);
  }

  /** The pieces of a split, read in order, are the text with the
      separators taken out: nothing is reordered, nothing else is lost. */
  lemma {:induction false} SplitRunsReassembles(s: string, sep: char -> bool)
    ensures Concat(SplitRuns(s, sep)) == Without(s, sep)
    decreases |s|
  {
    var i := FirstIndex(s, sep);
    if i == |s| {
      WithoutNone(s, sep);
      assert Concat([s]) == s + Concat([]);
    } else {
      var rest := DropWhile(s[i..], sep);
      var j := |s| - |rest|;
      assert rest == s[j..];
      SplitRunsReassembles(rest, sep);
      DropWhileSkipped(s[i..], sep);
      forall k | i <= k < j ensures sep(s[k]) {
        assert s[k] == s[i..][k - i];
      }
      WithoutPieces(s, i, j, sep);
      var r := SplitRuns(s, sep);
      assert r == [s[..i]] + SplitRuns(rest, sep);
      assert Concat(r) == s[..i] + Concat(r[1..]);
    }
  }

  lemma {:induction false} DropWhileSkipped(s: string, p: char -> bool)
    ensures forall k :: 0 <= k < |s| - |DropWhile(s, p)| ==> p(s[k])
  {
    if s != [] && p(s[0]) {
      DropWhileSkipped(s[1..], p);
      forall k | 0 <= k < |s| - |DropWhile(s, p)| ensures p(s[k]) {
        if k > 0 { assert s[k] == s[1..][k - 1]; }
      }
    }
  }

  function DigitChar(d: nat): (c: char)
    requires d < 10
    ensures IsDigit(c)
  {
    ('0' as int + d) as char
  }

  /** Decimal rendering of a natural number, as template literals print it. */
  function NatToString(n: nat): (r: string)
    ensures r != []
    ensures forall i :: 0 <= i < |r| ==> IsDigit(r[i])
  {
    if n < 10 then [DigitChar(n)] else NatToString(n / 10) + [DigitChar(n % 10)]
  }

  /** One digit exactly for the numbers below ten. */
  lemma NatToStringLength(n: nat)
    ensures n < 10 <==> |NatToString(n)| == 1
  {
    if n >= 10 {
      assert |NatToString(n)| == |NatToString(n / 10)| + 1;
    }
  }

  /** Different numbers print differently. */
  lemma {:induction false} NatToStringInjective(a: nat, b: nat)
    requires NatToString(a) == NatToString(b)
    ensures a == b
    decreases a
  {
    NatToStringLength(a);
    NatToStringLength(b);
    var s := NatToString(a);
    if a < 10 {
      assert s[0] == DigitChar(a) && s[0] == DigitChar(b);
    } else {
      assert s == NatToString(a / 10) + [DigitChar(a % 10)];
      assert s == NatToString(b / 10) + [DigitChar(b % 10)];
      assert NatToString(a / 10) == s[..|s| - 1] == NatToString(b / 10);
      NatToStringInjective(a / 10, b / 10);
      assert DigitChar(a % 10) == s[|s| - 1] == DigitChar(b % 10);
    }
  }
}

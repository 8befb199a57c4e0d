/** The fragment of JavaScript regular expressions that the extension's
    pattern tables use, with the `i` flag and without `u`: literal words,
    alternatives, `[-_]?`, `\s+` and `\b` after a word character.
    An optional group `(x)?` is written as the alternative between a
    pattern with `x` and one without it; `re.test(s)` asks whether the
    pattern matches at some position of `s`.  Without the `u` flag only
    ASCII letters fold case, so comparing ASCII-lowercased text against
    lowercase literals is exact. */
module Patterns {
  import opened Text

  datatype Piece =
    | OneOf(options: seq<string>)   // one of the lowercase literals (possibly "")
    | Spaces                        // `\s+`
    | WordEnd                       // `\b` right after a word character

  type Pattern = seq<Piece>

  /** A regular expression: a match of any one of its alternatives. */
  type Regex = seq<Pattern>

  function Lit(word: string): Piece { OneOf([word]) }

  /** `[-_]?` */
  function OptSep(): Piece { OneOf(["", "-", "_"]) }

  /** Does `p` match `t` (already lowercased) starting exactly at `i`? */
  function MatchesAt(p: Pattern, t: string, i: nat): bool
    requires i <= |t|
    decreases |p|, |t| - i, 1, 0
  {
    if p == [] then true
    else match p[0]
      case OneOf(opts) => OneOfThen(opts, p[1..], t, i)
      case Spaces => SpacesThen(p[1..], t, i)
      case WordEnd => (i == |t| || !IsWordChar(t[i])) && MatchesAt(p[1..], t, i)
  }

  function OneOfThen(opts: seq<string>, rest: Pattern, t: string, i: nat): bool
    requires i <= |t|
    decreases |rest| + 1, |t| - i, 0, |opts|
  {
    if opts == [] then false
    else (OccursAt(t, opts[0], i) && MatchesAt(rest, t, i + |opts[0]|))
         || OneOfThen(opts[1..], rest, t, i)
  }

  /** One or more white-space characters from `j`, then `rest`. */
  function SpacesThen(rest: Pattern, t: string, j: nat): bool
    requires j <= |t|
    decreases |rest| + 1, |t| - j, 0, 0
  {
    j < |t| && IsSpace(t[j]) && (MatchesAt(rest, t, j + 1) || SpacesThen(rest, t, j + 1))
  }

  /** `/p/i.test(s)` */
  predicate Test(p: Pattern, s: string) {
    exists i :: 0 <= i <= |s| && MatchesAt(p, Lower(s), i)
  }

  predicate TestRegex(re: Regex, s: string) {
    exists k :: 0 <= k < |re| && Test(re[k], s)
  }

  /** `patterns.some(p => p.test(s))` */
  predicate AnyMatches(table: seq<Regex>, s: string) {
    exists k :: 0 <= k < |table| && TestRegex(table[k], s)
  }

  /** Against the plain substring search it generalises: a pattern made of
      one literal matches exactly when the lowercased text contains it. */
  lemma LiteralIsSubstring(word: string, s: string)
    ensures Test([Lit(word)], s) <==> Contains(Lower(s), word)
  {
    var t := Lower(s);
    if Test([Lit(word)], s) {
      var i :| 0 <= i <= |s| && MatchesAt([Lit(word)], t, i);
      OpeningLiteral(word, [], t, i);
    }
    if Contains(t, word) {
      var i :| 0 <= i <= |t| - |word| && OccursAt(t, word, i);
      assert MatchesAt([], t, i + |word|);
      assert MatchesAt([Lit(word)], t, i);
    }
  }

  /** A match of a pattern that opens with a literal puts that literal in
      the lowercased text. */
  lemma LeadingLiteralOccurs(word: string, rest: Pattern, s: string)
    requires Test([Lit(word)] + rest, s)
    ensures Contains(Lower(s), word)
  {
    var t := Lower(s);
    var i :| 0 <= i <= |s| && MatchesAt([Lit(word)] + rest, t, i);
    OpeningLiteral(word, rest, t, i);
  }

  lemma OpeningLiteral(word: string, rest: Pattern, t: string, i: nat)
    requires i <= |t|
    ensures MatchesAt([Lit(word)] + rest, t, i) <==> OccursAt(t, word, i) && MatchesAt(rest, t, i + |word|)
  {
    var p := [Lit(word)] + rest;
    assert p[0] == OneOf([word]) && p[1..] == rest;
    assert [word][1..] == [];
    assert !OneOfThen([], rest, t, i);
  }
}

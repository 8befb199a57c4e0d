/** The chunkers of `SafeAgreeTextExtractor` (content/text-extractor.js):
    `getLastSentences`, `chunkBySentences`, `chunkByStructure` and
    `chunkContent`.  Each is a method with the source's loop, proved equal
    to a specification function; the properties are lemmas about those
    functions. */
module Chunking {
  import opened Wrappers
  import opened Text
  import opened Constants
  import opened Cleaning
  import Helpers

  /** The `type` field of a chunk. */
  datatype ChunkKind = Semantic | SectionWhole | SectionPart {
    function Name(): string {
      match this
      case Semantic => "semantic"
      case SectionWhole => "section"
      case SectionPart => "section_part"
    }
  }

  /** The `metadata` field of a chunk: the sentence span of a semantic
      chunk, or the section a section chunk comes from. */
  datatype ChunkInfo =
    | SentenceSpan(sentenceStart: nat, sentenceEnd: int)
    | SectionRef(sectionId: string, level: nat, partIndex: Option<nat>)

  datatype Chunk = Chunk(id: string, text: string, kind: ChunkKind, title: Option<string>, info: ChunkInfo)

  /** A derived section of the page: its heading's id, title and level and
      the sanitized text up to the next heading. */
  datatype Section = Section(id: string, title: string, content: string, level: nat)

  /** A heading of the page, as `extractStructure` records it. */
  datatype Heading = Heading(level: nat, text: string, id: string)

  /** The parts of the structure object the chunkers read. */
  datatype Structure = Structure(headings: seq<Heading>, sections: seq<Section>)

  // ---------------------------------------------------------------------
  // getLastSentences

  /** `getLastSentences(text, maxLength)`: walk the sentences backwards,
      prepending each one while the result plus that sentence fit in
      `maxLength`. */
  method GetLastSentences(text: string, maxLength: nat) returns (result: string)
    ensures result == LastSentences(text, maxLength)
    ensures |result| <= maxLength + 2
  {
    var sentences := SplitIntoSentences(text);
    ghost var n := |sentences|;
    result := "";
    var i := |sentences| - 1;
    assert sentences[n..] == [];
    while i >= 0
      invariant -1 <= i < n
      invariant result == JoinDot(sentences[i + 1..])
      invariant LastSentencesStart(sentences, maxLength, n) == LastSentencesStart(sentences, maxLength, i + 1)
    {
      var sentence := sentences[i];
      if |result + sentence| <= maxLength {
        ghost var rest := sentences[i..];
        JoinDotCons(rest);
        assert rest[1..] == sentences[i + 1..];
        AllSentencesSuffix(sentences, i + 1);
        JoinDotTrimmed(sentences[i + 1..]);
        result := sentence + (if result != "" then ". " + result else "");
      } else {
        break;
      }
      i := i - 1;
    }
    LastSentencesProperties(text, maxLength);
  }

  // ---------------------------------------------------------------------
  // chunkBySentences

  /** `currentChunk.split('.').length`: one piece more than there are
      dots. */
  function DotPieces(s: string): (n: nat)
    ensures n == multiset(s)['.'] + 1
  {
    if s == [] then 1
    else
      assert s == [s[0]] + s[1..];
      (if s[0] == '.' then 1 else 0) + DotPieces(s[1..])
  }

  function ChunkId(index: nat): string { "chunk_" + NatToString(index) }

  /** The semantic chunk made of `current` when sentence `i` does not fit. */
  function SemanticChunk(index: nat, current: string, i: int): Chunk {
    Chunk(ChunkId(index), Trim(current), Semantic, None,
          SentenceSpan(if i - DotPieces(current) > 0 then i - DotPieces(current) else 0, i - 1))
  }

  /** The state of the loop of `chunkBySentences`: the chunks pushed so far
      and `currentChunk`. */
  datatype Acc = Acc(chunks: seq<Chunk>, current: string)

  /** `a + (a ? ' ' : '') + b` */
  function JoinSpace(a: string, b: string): string {
    a + (if a != [] then " " else "") + b
  }

  /** One turn of the loop, for sentence `i`. */
  function SentenceStep(acc: Acc, i: nat, sentence: string, maxSize: nat, minSize: nat, overlap: nat): Acc {
    var potential := JoinSpace(acc.current, sentence);
    if |potential| <= maxSize then Acc(acc.chunks, potential)
    else if |acc.current| >= minSize then
      Acc(acc.chunks + [SemanticChunk(|acc.chunks|, acc.current, i)],
          JoinSpace(LastSentences(acc.current, overlap), sentence))
    else Acc(acc.chunks, potential)
  }

  /** The loop state after the first `n` sentences. */
  function FoldSentences(sentences: seq<string>, n: nat, maxSize: nat, minSize: nat, overlap: nat): Acc
    requires n <= |sentences|
  {
    if n == 0 then Acc([], [])
    else SentenceStep(FoldSentences(sentences, n - 1, maxSize, minSize, overlap), n - 1, sentences[n - 1], maxSize, minSize, overlap)
  }

  /** The loop invariant of `chunkBySentences`: after any prefix of the
      sentences the buffer is free of outer white space, so a buffer of at
      least `minSize` characters keeps that length when it is trimmed and
      pushed, and the chunks pushed so far are well-formed. */
  lemma {:induction false} FoldSentencesInvariant(sentences: seq<string>, n: nat, maxSize: nat, minSize: nat, overlap: nat)
    requires n <= |sentences| && AllSentences(sentences)
    ensures var acc := FoldSentences(sentences, n, maxSize, minSize, overlap);
      Trimmed(acc.current) && SemanticChunks(acc.chunks, minSize)
  {
    if n > 0 {
      var i: nat := n - 1;
      FoldSentencesInvariant(sentences, i, maxSize, minSize, overlap);
      AllSentencesAt(sentences, i);
      StepKeepsInvariant(FoldSentences(sentences, i, maxSize, minSize, overlap), i, sentences[i], maxSize, minSize, overlap);
      FoldSentencesStep(sentences, i, maxSize, minSize, overlap);
    }
  }

  /** The last chunk, pushed when the trimmed rest reaches `minSize`. */
  function LastChunk(acc: Acc, count: nat, minSize: nat): seq<Chunk> {
    if |Trim(acc.current)| >= minSize then [SemanticChunk(|acc.chunks|, acc.current, count)] else []
  }

  /** What `chunkBySentences(text, maxSize, minSize, overlap)` returns. */
  function SentenceChunks(text: string, maxSize: nat, minSize: nat, overlap: nat): seq<Chunk> {
    var sentences := SplitIntoSentences(text);
    var acc := FoldSentences(sentences, |sentences|, maxSize, minSize, overlap);
    acc.chunks + LastChunk(acc, |sentences|, minSize)
  }

  /** A well-formed list of semantic chunks: the ids run `chunk_0`,
      `chunk_1`, … in order, every chunk is semantic and at least
      `minSize` characters long. */
  predicate SemanticChunks(chunks: seq<Chunk>, minSize: nat) {
    forall j :: 0 <= j < |chunks| ==>
      chunks[j].id == ChunkId(j) && chunks[j].kind == Semantic && |chunks[j].text| >= minSize
  }

  /** No white space at either end. */
  predicate Trimmed(s: string) { s == [] || (!IsSpace(s[0]) && !IsSpace(s[|s| - 1])) }

  lemma JoinSpaceTrimmed(a: string, b: string)
    requires Trimmed(a) && b != [] && Trimmed(b)
    ensures Trimmed(JoinSpace(a, b))
  {
    var r := JoinSpace(a, b);
    assert r[|r| - 1] == b[|b| - 1];
    if a != [] {
      assert r[0] == a[0];
    }
  }

  /** Pushing the buffer as a chunk keeps the list well formed when the
      buffer is trimmed and long enough. */
  lemma PushKeepsWellFormed(chunks: seq<Chunk>, current: string, i: int, minSize: nat)
    requires SemanticChunks(chunks, minSize)
    requires Trimmed(current) && |Trim(current)| >= minSize
    ensures SemanticChunks(chunks + [SemanticChunk(|chunks|, current, i)], minSize)
  {
    TrimUnchanged(current);
    AppendKeepsWellFormed(chunks, SemanticChunk(|chunks|, current, i), minSize);
  }

  lemma AppendKeepsWellFormed(chunks: seq<Chunk>, c: Chunk, minSize: nat)
    requires SemanticChunks(chunks, minSize)
    requires c.id == ChunkId(|chunks|) && c.kind == Semantic && |c.text| >= minSize
    ensures SemanticChunks(chunks + [c], minSize)
  {
    var next := chunks + [c];
    forall j | 0 <= j < |next|
      ensures next[j].id == ChunkId(j) && next[j].kind == Semantic && |next[j].text| >= minSize
    {
      if j < |chunks| {
        assert next[j] == chunks[j];
      }
    }
  }

  /** The overlap seed joined with the next sentence is trimmed. */
  lemma ReseedTrimmed(current: string, overlap: nat, sentence: string)
    requires sentence != [] && Trimmed(sentence)
    ensures Trimmed(JoinSpace(LastSentences(current, overlap), sentence))
  {
    var sub := SplitIntoSentences(current);
    var k := LastSentencesStart(sub, overlap, |sub|);
    AllSentencesSuffix(sub, k);
    JoinDotTrimmed(sub[k..]);
    JoinSpaceTrimmed(LastSentences(current, overlap), sentence);
  }

  /** One turn of the loop keeps the buffer trimmed and the chunk list well
      formed. */
  lemma StepKeepsInvariant(acc: Acc, i: nat, sentence: string, maxSize: nat, minSize: nat, overlap: nat)
    requires Trimmed(acc.current) && SemanticChunks(acc.chunks, minSize)
    requires sentence != [] && Trimmed(sentence)
    ensures var next := SentenceStep(acc, i, sentence, maxSize, minSize, overlap);
      Trimmed(next.current) && SemanticChunks(next.chunks, minSize)
  {
    JoinSpaceTrimmed(acc.current, sentence);
    if |JoinSpace(acc.current, sentence)| > maxSize && |acc.current| >= minSize {
      TrimUnchanged(acc.current);
      PushKeepsWellFormed(acc.chunks, acc.current, i, minSize);
      ReseedTrimmed(acc.current, overlap, sentence);
    }
  }

  /** Every chunk `chunkBySentences` emits is semantic, at least `minSize`
      characters long, and numbered `chunk_0`, `chunk_1`, … in order. */
  lemma SentenceChunksWellFormed(text: string, maxSize: nat, minSize: nat, overlap: nat)
    ensures SemanticChunks(SentenceChunks(text, maxSize, minSize, overlap), minSize)
  {
    var sentences := SplitIntoSentences(text);
    var count := |sentences|;
    FoldSentencesInvariant(sentences, count, maxSize, minSize, overlap);
    LastChunkKeepsWellFormed(FoldSentences(sentences, count, maxSize, minSize, overlap), count, minSize);
  }

  /** Pushing the rest of the buffer at the end keeps the list well formed. */
  lemma LastChunkKeepsWellFormed(acc: Acc, count: nat, minSize: nat)
    requires Trimmed(acc.current) && SemanticChunks(acc.chunks, minSize)
    ensures SemanticChunks(acc.chunks + LastChunk(acc, count, minSize), minSize)
  {
    var last := LastChunk(acc, count, minSize);
    if |Trim(acc.current)| >= minSize {
      assert last == [SemanticChunk(|acc.chunks|, acc.current, count)];
      PushKeepsWellFormed(acc.chunks, acc.current, count, minSize);
    } else {
      assert last == [];
      assert acc.chunks + last == acc.chunks;
    }
  }

  lemma FoldSentencesStep(sentences: seq<string>, i: nat, maxSize: nat, minSize: nat, overlap: nat)
    requires i < |sentences|
    ensures FoldSentences(sentences, i + 1, maxSize, minSize, overlap)
         == SentenceStep(FoldSentences(sentences, i, maxSize, minSize, overlap), i, sentences[i], maxSize, minSize, overlap)
  {
  }

  /** One turn of the loop of `chunkBySentences`, for sentence `i`. */
  method AddSentence(chunks: seq<Chunk>, currentChunk: string, i: nat, sentence: string, maxSize: nat, minSize: nat, overlap: nat)
    returns (chunks': seq<Chunk>, currentChunk': string)
    ensures Acc(chunks', currentChunk') == SentenceStep(Acc(chunks, currentChunk), i, sentence, maxSize, minSize, overlap)
  {
    var potentialChunk := currentChunk + (if currentChunk != "" then " " else "") + sentence;
    chunks', currentChunk' := chunks, potentialChunk;
    if |potentialChunk| > maxSize && |currentChunk| >= minSize {
      chunks' := chunks + [SemanticChunk(|chunks|, currentChunk, i)];
      var overlapSentences := GetLastSentences(currentChunk, overlap);
      currentChunk' := overlapSentences + (if overlapSentences != "" then " " else "") + sentence;
    }
  }

  /** `chunkBySentences(text, maxSize = 1000, minSize = 200, overlap = 100)` */
  method ChunkBySentences(text: string, maxSize: nat := 1000, minSize: nat := 200, overlap: nat := 100)
    returns (chunks: seq<Chunk>)
    ensures chunks == SentenceChunks(text, maxSize, minSize, overlap)
    ensures SemanticChunks(chunks, minSize)
  {
    var sentences := SplitIntoSentences(text);
    chunks := [];
    var currentChunk := "";
    for i := 0 to |sentences|
      invariant Acc(chunks, currentChunk) == FoldSentences(sentences, i, maxSize, minSize, overlap)
    {
      FoldSentencesStep(sentences, i, maxSize, minSize, overlap);
      chunks, currentChunk := AddSentence(chunks, currentChunk, i, sentences[i], maxSize, minSize, overlap);
    }
    ghost var acc := FoldSentences(sentences, |sentences|, maxSize, minSize, overlap);
    assert acc == Acc(chunks, currentChunk);
    ghost var last := LastChunk(acc, |sentences|, minSize);
    if |Trim(currentChunk)| >= minSize {
      assert last == [SemanticChunk(|chunks|, currentChunk, |sentences|)];
      chunks := chunks + [SemanticChunk(|chunks|, currentChunk, |sentences|)];
    } else {
      assert last == [];
    }
    assert chunks == acc.chunks + last;
    SentenceChunksWellFormed(text, maxSize, minSize, overlap);
  }

  // ---------------------------------------------------------------------
  // chunkByStructure

  /** Chunk `sub` of a section longer than the limit. */
  function PartChunk(section: Section, index: nat, sub: nat, piece: string): Chunk {
    Chunk("chunk_section_" + NatToString(index) + "_" + NatToString(sub), piece, SectionPart,
          Some(section.title + " (Part " + NatToString(sub + 1) + ")"),
          SectionRef(section.id, section.level, Some(sub)))
  }

  function PartChunks(section: Section, index: nat, pieces: seq<string>): (r: seq<Chunk>)
    ensures |r| == |pieces|
    ensures forall j :: 0 <= j < |pieces| ==> r[j] == PartChunk(section, index, j, pieces[j])
  {
    seq(|pieces|, j requires 0 <= j < |pieces| => PartChunk(section, index, j, pieces[j]))
  }

  /** The chunks section `index` contributes. */
  function SectionChunks(section: Section, index: nat, maxSize: nat): seq<Chunk>
    requires OverlapSize < maxSize
  {
    if |section.content| == 0 then []
    else if |section.content| <= maxSize then
      [Chunk("chunk_section_" + NatToString(index), section.content, SectionWhole, Some(section.title),
             SectionRef(section.id, section.level, None))]
    else PartChunks(section, index, Helpers.ChunkTextSpec(section.content, maxSize, OverlapSize))
  }

  /** The chunks of all `sections`, in order. */
  function StructureChunks(sections: seq<Section>, maxSize: nat): seq<Chunk>
    requires OverlapSize < maxSize
  {
    if sections == [] then []
    else StructureChunks(sections[..|sections| - 1], maxSize) + SectionChunks(sections[|sections| - 1], |sections| - 1, maxSize)
  }

  /** What `chunkByStructure(text, structure, maxSize)` returns. */
  function ByStructure(text: string, sections: seq<Section>, maxSize: nat): seq<Chunk>
    requires OverlapSize < maxSize
  {
    var chunks := StructureChunks(sections, maxSize);
    if chunks != [] then chunks else SentenceChunks(text, maxSize, MinChunkSize, OverlapSize)
  }

  /** One section: nothing when it is empty; one `section` chunk carrying its
      content and title when it fits; otherwise one `section_part` chunk per
      `chunkText` piece, titled `"<title> (Part n)"` for n = 1, 2, …, each
      non-empty and at most one character over the limit. */
  lemma SectionChunksShape(section: Section, index: nat, maxSize: nat)
    requires OverlapSize < maxSize
    ensures var r := SectionChunks(section, index, maxSize);
      (section.content == [] ==> r == [])
      && (0 < |section.content| <= maxSize ==>
            |r| == 1 && r[0].kind == SectionWhole && r[0].text == section.content && r[0].title == Some(section.title))
      && (|section.content| > maxSize ==>
            |r| == |Helpers.ChunkTextSpec(section.content, maxSize, OverlapSize)|
            && forall j :: 0 <= j < |r| ==>
                 r[j].kind == SectionPart && 0 < |r[j].text| <= maxSize + 1
                 && r[j].title == Some(section.title + " (Part " + NatToString(j + 1) + ")"))
  {
    if |section.content| > maxSize {
      var pieces := Helpers.ChunkTextSpec(section.content, maxSize, OverlapSize);
      Helpers.ChunkTextBounds(section.content, maxSize, OverlapSize);
      assert forall j :: 0 <= j < |pieces| ==> pieces[j] in pieces;
    }
  }

  /** Every structure chunk is non-empty and at most `maxSize + 1`
      characters long; whole sections are at most `maxSize`. */
  lemma {:induction false} StructureChunksBounded(sections: seq<Section>, maxSize: nat)
    requires OverlapSize < maxSize
    ensures forall c :: c in StructureChunks(sections, maxSize) ==>
      0 < |c.text| <= maxSize + 1 && (c.kind == SectionWhole ==> |c.text| <= maxSize)
  {
    if sections != [] {
      var last := |sections| - 1;
      StructureChunksBounded(sections[..last], maxSize);
      SectionChunksShape(sections[last], last, maxSize);
      var mine := SectionChunks(sections[last], last, maxSize);
      assert forall c :: c in mine ==> exists j :: 0 <= j < |mine| && mine[j] == c;
    }
  }

  /** When no section has content, `chunkByStructure` falls back to
      sentence chunking with the default sizes; this is always the case for
      the structure `extractStructure` builds, whose section list is empty. */
  lemma {:induction false} EmptySectionsFallBack(text: string, sections: seq<Section>, maxSize: nat)
    requires OverlapSize < maxSize
    requires forall k :: 0 <= k < |sections| ==> sections[k].content == []
    ensures ByStructure(text, sections, maxSize) == SentenceChunks(text, maxSize, MinChunkSize, OverlapSize)
  {
    NoChunksFromEmptySections(sections, maxSize);
  }

  lemma {:induction false} NoChunksFromEmptySections(sections: seq<Section>, maxSize: nat)
    requires OverlapSize < maxSize
    requires forall k :: 0 <= k < |sections| ==> sections[k].content == []
    ensures StructureChunks(sections, maxSize) == []
  {
    if sections != [] {
      NoChunksFromEmptySections(sections[..|sections| - 1], maxSize);
    }
  }

  lemma StructureChunksStep(sections: seq<Section>, index: nat, maxSize: nat)
    requires OverlapSize < maxSize && index < |sections|
    ensures StructureChunks(sections[..index + 1], maxSize)
         == StructureChunks(sections[..index], maxSize) + SectionChunks(sections[index], index, maxSize)
  {
    assert sections[..index + 1][..index] == sections[..index];
  }

  /** The body of the loop of `chunkByStructure` for section `index`. */
  method AddSection(chunks: seq<Chunk>, section: Section, index: nat, maxSize: nat) returns (chunks': seq<Chunk>)
    requires OverlapSize < maxSize
    ensures chunks' == chunks + SectionChunks(section, index, maxSize)
  {
    chunks' := chunks;
    if |section.content| > 0 {
      if |section.content| <= maxSize {
        chunks' := chunks' + [Chunk("chunk_section_" + NatToString(index), section.content, SectionWhole,
                                    Some(section.title), SectionRef(section.id, section.level, None))];
      } else {
        var subChunks := Helpers.ChunkText(section.content, maxSize);
        chunks' := AddParts(chunks', section, index, subChunks);
      }
    }
  }

  /** The inner loop of `chunkByStructure`: one part chunk per piece. */
  method AddParts(chunks: seq<Chunk>, section: Section, index: nat, subChunks: seq<string>) returns (chunks': seq<Chunk>)
    ensures chunks' == chunks + PartChunks(section, index, subChunks)
  {
    chunks' := chunks;
    ghost var parts := PartChunks(section, index, subChunks);
    for subIndex := 0 to |subChunks|
      invariant chunks' == chunks + parts[..subIndex]
    {
      chunks' := chunks' + [PartChunk(section, index, subIndex, subChunks[subIndex])];
      assert parts[..subIndex + 1] == parts[..subIndex] + [parts[subIndex]];
    }
    assert parts[..|subChunks|] == parts;
  }

  /** `chunkByStructure(text, structure, maxSize)` */
  method ChunkByStructure(text: string, structure: Structure, maxSize: nat) returns (chunks: seq<Chunk>)
    requires OverlapSize < maxSize
    ensures chunks == ByStructure(text, structure.sections, maxSize)
  {
    var sections := structure.sections;
    chunks := [];
    for index := 0 to |sections|
      invariant chunks == StructureChunks(sections[..index], maxSize)
    {
      StructureChunksStep(sections, index, maxSize);
      chunks := AddSection(chunks, sections[index], index, maxSize);
    }
    assert sections[..|sections|] == sections;
    if chunks == [] {
      chunks := ChunkBySentences(text, maxSize);
    }
  }

  // ---------------------------------------------------------------------
  // chunkContent

  /** What `chunkContent(text, structure)` returns: structure chunking when
      there are more than three headings, sentence chunking with the
      configured sizes otherwise. */
  function ContentChunks(text: string, structure: Structure): seq<Chunk> {
    ChunkSizesConsistent();
    if |structure.headings| > 3 then ByStructure(text, structure.sections, MaxChunkSize)
    else SentenceChunks(text, MaxChunkSize, MinChunkSize, OverlapSize)
  }

  /** `chunkContent(text, structure)` */
  method ChunkContent(text: string, structure: Structure) returns (chunks: seq<Chunk>)
    ensures chunks == ContentChunks(text, structure)
  {
    ChunkSizesConsistent();
    if |structure.headings| > 3 {
      chunks := ChunkByStructure(text, structure, MaxChunkSize);
    } else {
      chunks := ChunkBySentences(text, MaxChunkSize, MinChunkSize, OverlapSize);
    }
  }

  /** Without more than three headings every chunk is a semantic one of at
      least `MIN_CHUNK_SIZE` characters; with them every chunk is either such
      a semantic chunk or a section chunk of at most `MAX_CHUNK_SIZE + 1`. */
  lemma ContentChunksBounded(text: string, structure: Structure)
    ensures forall c :: c in ContentChunks(text, structure) ==>
      (c.kind == Semantic && |c.text| >= MinChunkSize) || (c.kind != Semantic && 0 < |c.text| <= MaxChunkSize + 1)
  {
    if |structure.headings| > 3 && StructureChunks(structure.sections, MaxChunkSize) != [] {
      StructureChunksBounded(structure.sections, MaxChunkSize);
      StructureKinds(structure.sections, MaxChunkSize);
    } else {
      SentenceChunkMembers(text, MaxChunkSize, MinChunkSize, OverlapSize);
    }
  }

  lemma SentenceChunkMembers(text: string, maxSize: nat, minSize: nat, overlap: nat)
    ensures forall c :: c in SentenceChunks(text, maxSize, minSize, overlap) ==> c.kind == Semantic && |c.text| >= minSize
  {
    SentenceChunksWellFormed(text, maxSize, minSize, overlap);
    SemanticChunksMembers(SentenceChunks(text, maxSize, minSize, overlap), minSize);
  }

  lemma SemanticChunksMembers(chunks: seq<Chunk>, minSize: nat)
    requires SemanticChunks(chunks, minSize)
    ensures forall c :: c in chunks ==> c.kind == Semantic && |c.text| >= minSize
  {
    assert forall c :: c in chunks ==> exists j :: 0 <= j < |chunks| && chunks[j] == c;
  }

  lemma {:induction false} StructureKinds(sections: seq<Section>, maxSize: nat)
    requires OverlapSize < maxSize
    ensures forall c :: c in StructureChunks(sections, maxSize) ==> c.kind != Semantic
  {
    if sections != [] {
      StructureKinds(sections[..|sections| - 1], maxSize);
    }
  }
}

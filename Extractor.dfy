/** The extraction pipeline and result cache of `SafeAgreeTextExtractor`
    (content/text-extractor.js): `extractPageText` with its option merge,
    cache key, minimum-length gate, cleaning, truncation, metadata,
    structure and chunking steps; `getLastExtraction` and `clearCache`.
    What the page's DOM yields (the raw text, the headings, the derived
    sections, the date found by the date patterns) and the clock are
    inputs. */
module Extractor {
  import opened Wrappers
  import opened Text
  import opened Constants
  import opened Cleaning
  import opened Chunking

  /** The extraction options after `{ ...defaultOptions, ...options }`. */
  datatype Options = Options(
    includeMetadata: bool,
    cleanText: bool,
    chunkText: bool,
    preserveStructure: bool,
    maxLength: nat)

  const DefaultOptions := Options(true, true, true, true, MaxDocumentLength)

  /** What the DOM of the page provides: `window.location.href`,
      `document.title`, the text `extractRawContent` returns, the headings
      `extractStructure` records, the sections `extractSections` derives
      from them, and the date `extractLastUpdatedDate` finds. */
  datatype Page = Page(
    url: string,
    title: string,
    rawContent: string,
    headings: seq<Heading>,
    headingSections: seq<Section>,
    lastUpdated: Option<string>)

  datatype Content = Content(raw: string, cleaned: string, chunks: seq<Chunk>, sections: seq<Section>)

  /** A successful extraction. */
  datatype Extraction = Extraction(
    url: string,
    title: string,
    timestamp: nat,
    content: Content,
    metadata: Metadata,
    structure: Structure)

  /** What `extractPageText` returns: the extraction, or
      `{ success: false, error, timestamp }`. */
  datatype ExtractionResult =
    | Success(extraction: Extraction)
    | Failure(error: string, timestamp: nat)

  // ---------------------------------------------------------------------
  // The cache key

  function BoolJson(b: bool): string { if b then "true" else "false" }

  /** `JSON.stringify(opts)`, keys in the order of the default options. */
  function OptionsJson(o: Options): (r: string)
    ensures r != [] && r[0] == '{'
  {
    "{\"includeMetadata\":" + (BoolJson(o.includeMetadata)
    + (",\"cleanText\":" + (BoolJson(o.cleanText)
    + (",\"chunkText\":" + (BoolJson(o.chunkText)
    + (",\"preserveStructure\":" + (BoolJson(o.preserveStructure)
    + (",\"maxLength\":" + (NatToString(o.maxLength) + "}")))))))))
  }

  /** No key name or value of the options' JSON contains `_`. */
  lemma OptionsJsonHasNoUnderscore(o: Options)
    ensures '_' !in OptionsJson(o)
  {
    assert '_' !in BoolJson(o.includeMetadata) && '_' !in BoolJson(o.cleanText);
    assert '_' !in BoolJson(o.chunkText) && '_' !in BoolJson(o.preserveStructure);
    var n := NatToString(o.maxLength);
    assert '_' !in n;
    KeysHaveNoUnderscore();
  }

  lemma KeysHaveNoUnderscore()
    ensures '_' !in "{\"includeMetadata\":" && '_' !in ",\"cleanText\":" && '_' !in ",\"chunkText\":"
    ensures '_' !in ",\"preserveStructure\":" && '_' !in ",\"maxLength\":" && '_' !in "}"
  {
  }

  /** `${url}_${JSON.stringify(opts)}` */
  function CacheKey(url: string, opts: Options): string {
    url + "_" + OptionsJson(opts)
  }

  lemma DropPrefix(p: string, x: string, y: string)
    requires p + x == p + y
    ensures x == y
  {
    assert x == (p + x)[|p|..];
    assert y == (p + y)[|p|..];
  }

  lemma DropBool(a: bool, b: bool, x: string, y: string)
    requires BoolJson(a) + x == BoolJson(b) + y
    ensures a == b && x == y
  {
    assert (BoolJson(a) + x)[0] == BoolJson(a)[0];
    assert (BoolJson(b) + y)[0] == BoolJson(b)[0];
    DropPrefix(BoolJson(a), x, y);
  }

  lemma OptionsJsonInjective(o1: Options, o2: Options)
    requires OptionsJson(o1) == OptionsJson(o2)
    ensures o1 == o2
  {
    var n1, n2 := NatToString(o1.maxLength) + "}", NatToString(o2.maxLength) + "}";
    var l1 := ",\"maxLength\":" + n1;
    var l2 := ",\"maxLength\":" + n2;
    var p1 := ",\"preserveStructure\":" + (BoolJson(o1.preserveStructure) + l1);
    var p2 := ",\"preserveStructure\":" + (BoolJson(o2.preserveStructure) + l2);
    var c1 := ",\"chunkText\":" + (BoolJson(o1.chunkText) + p1);
    var c2 := ",\"chunkText\":" + (BoolJson(o2.chunkText) + p2);
    var t1 := ",\"cleanText\":" + (BoolJson(o1.cleanText) + c1);
    var t2 := ",\"cleanText\":" + (BoolJson(o2.cleanText) + c2);
    DropPrefix("{\"includeMetadata\":", BoolJson(o1.includeMetadata) + t1, BoolJson(o2.includeMetadata) + t2);
    DropBool(o1.includeMetadata, o2.includeMetadata, t1, t2);
    DropPrefix(",\"cleanText\":", BoolJson(o1.cleanText) + c1, BoolJson(o2.cleanText) + c2);
    DropBool(o1.cleanText, o2.cleanText, c1, c2);
    DropPrefix(",\"chunkText\":", BoolJson(o1.chunkText) + p1, BoolJson(o2.chunkText) + p2);
    DropBool(o1.chunkText, o2.chunkText, p1, p2);
    DropPrefix(",\"preserveStructure\":", BoolJson(o1.preserveStructure) + l1, BoolJson(o2.preserveStructure) + l2);
    DropBool(o1.preserveStructure, o2.preserveStructure, l1, l2);
    DropPrefix(",\"maxLength\":", n1, n2);
    assert NatToString(o1.maxLength) == n1[..|n1| - 1] == n2[..|n2| - 1] == NatToString(o2.maxLength);
    NatToStringInjective(o1.maxLength, o2.maxLength);
  }

  /** Two calls share a cache entry only when they have the same URL and
      the same options: the options' JSON has no `_`, so the last `_` of a
      key ends the URL. */
  lemma CacheKeyInjective(url1: string, o1: Options, url2: string, o2: Options)
    requires CacheKey(url1, o1) == CacheKey(url2, o2)
    ensures url1 == url2 && o1 == o2
  {
    OptionsJsonHasNoUnderscore(o1);
    OptionsJsonHasNoUnderscore(o2);
    SplitAtLastUnderscore(url1, OptionsJson(o1), url2, OptionsJson(o2));
    OptionsJsonInjective(o1, o2);
  }

  lemma SplitAtLastUnderscore(u1: string, j1: string, u2: string, j2: string)
    requires u1 + "_" + j1 == u2 + "_" + j2
    requires '_' !in j1 && '_' !in j2
    ensures u1 == u2 && j1 == j2
  {
    var k := u1 + "_" + j1;
    if |u1| < |u2| {
      UnderscoreInside(u1, j1, u2, j2);
      assert false;
    } else if |u2| < |u1| {
      UnderscoreInside(u2, j2, u1, j1);
      assert false;
    }
    assert u1 == k[..|u1|] == u2;
    assert j1 == k[|u1| + 1..] == j2;
  }

  /** With a shorter prefix, the other key's `_` falls inside `j1`. */
  lemma UnderscoreInside(u1: string, j1: string, u2: string, j2: string)
    requires u1 + "_" + j1 == u2 + "_" + j2 && |u1| < |u2|
    ensures '_' in j1
  {
    var k := u1 + "_" + j1;
    assert k[|u2|] == '_';
    assert k[|u2|] == j1[|u2| - |u1| - 1];
  }

  // ---------------------------------------------------------------------
  // extractPageText as a function

  /** The minimum raw length: 100 characters when the URL contains `test`
      or `localhost`, `MIN_DOCUMENT_LENGTH` otherwise. */
  function MinLength(url: string): (n: nat)
    ensures n == MinTestDocumentLength <==> Contains(url, "test") || Contains(url, "localhost")
    ensures n == MinTestDocumentLength || n == MinDocumentLength
  {
    if Contains(url, "test") || Contains(url, "localhost") then MinTestDocumentLength else MinDocumentLength
  }

  function InsufficientMessage(length: nat, minLength: nat): string {
    "Insufficient content extracted (" + NatToString(length) + " chars, need " + NatToString(minLength) + ")"
  }

  /** `s.length > maxLength ? s.substring(0, maxLength) : s` */
  function Truncate(s: string, maxLength: nat): (r: string)
    ensures |r| <= maxLength && |r| <= |s|
    ensures r == s[..|r|]
    ensures |s| <= maxLength ==> r == s
    ensures |s| > maxLength ==> |r| == maxLength
  {
    if |s| > maxLength then s[..maxLength] else s
  }

  /** `extractSections(structure)`: a page without headings has one
      section, `Main Content`, holding the raw text; otherwise the
      sections come from the DOM. */
  function DerivedSections(page: Page): (r: seq<Section>)
    ensures page.headings == [] ==> |r| == 1 && r[0].content == page.rawContent
  {
    if page.headings == [] then [Section("main_section", "Main Content", page.rawContent, 1)]
    else page.headingSections
  }

  /** What a cache miss of `extractPageText(opts)` returns at time `now`.
      `extractStructure` always records an empty section list. */
  function Extract(page: Page, opts: Options, now: nat): ExtractionResult {
    var minLength := MinLength(page.url);
    if |page.rawContent| < minLength then
      Failure(InsufficientMessage(|page.rawContent|, minLength), now)
    else
      var cleaned := Truncate(if opts.cleanText then CleanText(page.rawContent) else page.rawContent, opts.maxLength);
      var metadata := if opts.includeMetadata then ExtractMetadata(cleaned, page.lastUpdated) else DefaultMetadata;
      var structure := if opts.preserveStructure then Structure(page.headings, []) else Structure([], []);
      var sections := if opts.preserveStructure then DerivedSections(page) else [];
      var chunks := if opts.chunkText then ContentChunks(cleaned, structure) else [];
      Success(Extraction(page.url, page.title, now, Content(page.rawContent, cleaned, chunks, sections), metadata, structure))
  }

  /** The gate: an extraction fails exactly when the raw text is shorter
      than the minimum for its URL, and then it says how long the text was
      and what was needed. */
  lemma ExtractGate(page: Page, opts: Options, now: nat)
    ensures Extract(page, opts, now).Failure? <==> |page.rawContent| < MinLength(page.url)
    ensures Extract(page, opts, now).Failure? ==>
      Extract(page, opts, now).error == InsufficientMessage(|page.rawContent|, MinLength(page.url))
    ensures |page.rawContent| < MinTestDocumentLength ==> Extract(page, opts, now).Failure?
    ensures |page.rawContent| >= MinDocumentLength ==> Extract(page, opts, now).Success?
  {
  }

  /** A successful extraction keeps the page's URL, title and raw text; its
      cleaned text is a prefix, at most `maxLength` long, of the cleaned (or,
      without cleaning, the raw) text; and its metadata counts the
      characters of the cleaned text. */
  lemma ExtractSuccessShape(page: Page, opts: Options, now: nat)
    ensures var r := Extract(page, opts, now);
      r.Success? ==>
        var e := r.extraction;
        var full := if opts.cleanText then CleanText(page.rawContent) else page.rawContent;
        e.url == page.url && e.title == page.title && e.content.raw == page.rawContent
        && |e.content.cleaned| <= opts.maxLength
        && e.content.cleaned == full[..|e.content.cleaned|]
        && (|full| <= opts.maxLength ==> e.content.cleaned == full)
        && (opts.includeMetadata ==> e.metadata.charCount == |e.content.cleaned|)
        && (!opts.includeMetadata ==> e.metadata == DefaultMetadata)
  {
  }

  /** Because `extractStructure` never records sections, the chunks of an
      extraction are always the sentence chunks of its cleaned text with the
      configured sizes, whatever the headings: every one is a semantic chunk
      of at least `MIN_CHUNK_SIZE` characters, numbered from `chunk_0`. */
  lemma ExtractChunksAreSentenceChunks(page: Page, opts: Options, now: nat)
    ensures var r := Extract(page, opts, now);
      r.Success? && opts.chunkText ==>
        r.extraction.content.chunks == SentenceChunks(r.extraction.content.cleaned, MaxChunkSize, MinChunkSize, OverlapSize)
        && SemanticChunks(r.extraction.content.chunks, MinChunkSize)
    ensures var r := Extract(page, opts, now);
      r.Success? && !opts.chunkText ==> r.extraction.content.chunks == []
  {
    var r := Extract(page, opts, now);
    if r.Success? && opts.chunkText {
      var cleaned := r.extraction.content.cleaned;
      EmptySectionsFallBack(cleaned, [], MaxChunkSize);
      SentenceChunksWellFormed(cleaned, MaxChunkSize, MinChunkSize, OverlapSize);
    }
  }

  // ---------------------------------------------------------------------
  // The extractor object

  class TextExtractor {
    var isInitialized: bool
    var extractionCache: map<string, Extraction>
    var lastExtraction: Option<Extraction>

    /** The last extraction, when there is one, is a cached result. */
    ghost predicate Valid()
      reads this
    {
      lastExtraction.Some? ==> lastExtraction.value in extractionCache.Values
    }

    constructor()
      ensures Valid()
      ensures !isInitialized && extractionCache == map[] && lastExtraction == None
    {
      isInitialized := false;
      extractionCache := map[];
      lastExtraction := None;
    }

    /** `init()`: sets the flag once; the cache is not touched. */
    method Init()
      modifies this
      ensures isInitialized
      ensures extractionCache == old(extractionCache) && lastExtraction == old(lastExtraction)
    {
      if isInitialized {
        return;
      }
      isInitialized := true;
    }

    /** `extractPageText(options)` on `page` at time `now`.  A cached key
        returns the stored extraction and changes nothing; otherwise the
        extraction is computed, and only a success is stored and becomes the
        last extraction. */
    method ExtractPageText(page: Page, opts: Options, now: nat) returns (r: ExtractionResult)
      requires Valid()
      modifies this
      ensures Valid()
      ensures isInitialized == old(isInitialized)
      ensures var key := CacheKey(page.url, opts);
        if key in old(extractionCache) then
          r == Success(old(extractionCache)[key])
          && extractionCache == old(extractionCache) && lastExtraction == old(lastExtraction)
        else
          r == Extract(page, opts, now)
          && (r.Success? ==> extractionCache == old(extractionCache)[key := r.extraction]
                             && lastExtraction == Some(r.extraction))
          && (r.Failure? ==> extractionCache == old(extractionCache) && lastExtraction == old(lastExtraction))
    {
      var url := page.url;
      var cacheKey := CacheKey(url, opts);
      if cacheKey in extractionCache {
        return Success(extractionCache[cacheKey]);
      }
      var raw := page.rawContent;
      var minLength := MinLength(url);
      if |raw| < minLength {
        return Failure(InsufficientMessage(|raw|, minLength), now);
      }
      var cleaned := if opts.cleanText then CleanText(raw) else raw;
      if |cleaned| > opts.maxLength {
        cleaned := cleaned[..opts.maxLength];
      }
      var metadata := DefaultMetadata;
      if opts.includeMetadata {
        metadata := ExtractMetadata(cleaned, page.lastUpdated);
      }
      var structure := Structure([], []);
      var sections: seq<Section> := [];
      if opts.preserveStructure {
        structure := Structure(page.headings, []);
        sections := DerivedSections(page);
      }
      var chunks: seq<Chunk> := [];
      if opts.chunkText {
        chunks := ChunkContent(cleaned, structure);
      }
      var extraction := Extraction(url, page.title, now, Content(raw, cleaned, chunks, sections), metadata, structure);
      extractionCache := extractionCache[cacheKey := extraction];
      lastExtraction := Some(extraction);
      assert extractionCache[cacheKey] == extraction;
      r := Success(extraction);
    }

    /** `getLastExtraction()`: the last successful extraction, which is one
        of the cached ones. */
    method GetLastExtraction() returns (r: Option<Extraction>)
      requires Valid()
      ensures r == lastExtraction
      ensures r.Some? ==> r.value in extractionCache.Values
    {
      r := lastExtraction;
    }

    /** `clearCache()` */
    method ClearCache()
      modifies this
      ensures Valid()
      ensures extractionCache == map[] && lastExtraction == None
      ensures isInitialized == old(isInitialized)
    {
      extractionCache := map[];
      lastExtraction := None;
    }
  }

  /** Asking twice for the same page with the same options gives the same
      result the second time without touching the cache, whether the first
      call computed it or found it; a failed first call is recomputed. */
  method RepeatedExtraction(extractor: TextExtractor, page: Page, opts: Options, now1: nat, now2: nat)
    returns (first: ExtractionResult, second: ExtractionResult)
    requires extractor.Valid()
    modifies extractor
    ensures first.Success? ==> second == first
    ensures first.Failure? ==> second == Extract(page, opts, now2)
    ensures extractor.Valid()
  {
    first := extractor.ExtractPageText(page, opts, now1);
    second := extractor.ExtractPageText(page, opts, now2);
  }
}

/** The chunk viewer and the document-type tables of the popup
    (`SafeAgreePopup`): a page of chunks with a bounds-checked index, and
    the labels, icons and descriptions shown for a document type. */
module Popup {
  import opened Wrappers
  import opened Text
  import opened Chunking
  import opened Extractor
  import opened Detector

  // ---------------------------------------------------------------------
  // Document-type tables

  /** The keys of the popup's three tables, in their order. */
  const KnownTypes: seq<string> := [
    "privacy_policy", "terms_of_service", "cookie_policy", "eula", "user_agreement", "legal_notice"
  ]

  /** The `typeMap` values of `formatDocumentType`. */
  const TypeLabels: seq<string> := [
    "Privacy Policy", "Terms of Service", "Cookie Policy", "EULA", "User Agreement", "Legal Notice"
  ]

  /** The `icons` values of `getDocumentIcon`. */
  const TypeIcons: seq<string> := [
    "\U{1F512}", "\U{1F4CB}", "\U{1F36A}", "\U{1F4C4}", "\U{1F91D}", "\U{2696}\U{FE0F}"
  ]

  /** The `descriptions` values of `getDocumentDescription`. */
  const TypeDescriptions: seq<string> := [
    "This document outlines the privacy practices...",
    "These terms govern the use of our service...",
    "This policy explains how we use cookies...",
    "End User License Agreement...",
    "User Agreement between the parties...",
    "Legal Notice regarding the use of the document..."
  ]

  const OtherLabel: string := "Other"
  const DefaultIcon: string := "\U{1F4C4}"
  const DefaultDescription: string := "Legal document"

  /** `table[key] || fallback` for a table with keys `keys` and non-empty
      values `values`; `None` stands for `null`. */
  function Lookup(keys: seq<string>, values: seq<string>, key: Option<string>, fallback: string): (r: string)
    requires |keys| == |values|
  {
    if keys == [] then fallback
    else if key == Some(keys[0]) then values[0]
    else Lookup(keys[1..], values[1..], key, fallback)
  }

  /** A key of the table finds the value at its first position; anything
      else finds the fallback. */
  lemma {:induction false} LookupFinds(keys: seq<string>, values: seq<string>, key: Option<string>, fallback: string)
    requires |keys| == |values|
    ensures key.Some? && key.value in keys ==>
      exists i :: 0 <= i < |keys| && keys[i] == key.value && Lookup(keys, values, key, fallback) == values[i]
    ensures key.None? || key.value !in keys ==> Lookup(keys, values, key, fallback) == fallback
  {
    if keys != [] && key != Some(keys[0]) {
      LookupFinds(keys[1..], values[1..], key, fallback);
      if key.Some? && key.value in keys {
        assert key.value in keys[1..];
        var i :| 0 <= i < |keys[1..]| && keys[1..][i] == key.value
          && Lookup(keys[1..], values[1..], key, fallback) == values[1..][i];
        assert keys[i + 1] == key.value && values[i + 1] == values[1..][i];
      }
    }
  }

  /** `formatDocumentType(documentType)` */
  function FormatDocumentType(documentType: Option<string>): (text: string) {
    Lookup(KnownTypes, TypeLabels, documentType, OtherLabel)
  }

  /** `getDocumentIcon(documentType)` */
  function GetDocumentIcon(documentType: Option<string>): (icon: string) {
    Lookup(KnownTypes, TypeIcons, documentType, DefaultIcon)
  }

  /** `getDocumentDescription(documentType)` */
  function GetDocumentDescription(documentType: Option<string>): (description: string) {
    Lookup(KnownTypes, TypeDescriptions, documentType, DefaultDescription)
  }

  /** The three tables agree on which types they know: an unknown type, and
      null, is labelled `Other` and described as `Legal document`, and a
      known one is neither; the default icon is shown for the unknown
      types and for the EULA. */
  lemma TablesAgree(documentType: Option<string>)
    ensures FormatDocumentType(documentType) == OtherLabel <==>
      documentType.None? || documentType.value !in KnownTypes
    ensures GetDocumentDescription(documentType) == DefaultDescription <==>
      documentType.None? || documentType.value !in KnownTypes
    ensures GetDocumentIcon(documentType) == DefaultIcon <==>
      documentType.None? || documentType.value !in KnownTypes || documentType.value == "eula"
  {
    LookupFinds(KnownTypes, TypeLabels, documentType, OtherLabel);
    LookupFinds(KnownTypes, TypeIcons, documentType, DefaultIcon);
    LookupFinds(KnownTypes, TypeDescriptions, documentType, DefaultDescription);
  }

  /** Every known type gets its own label. */
  lemma LabelsDistinct(a: string, b: string)
    requires a in KnownTypes && b in KnownTypes && a != b
    ensures FormatDocumentType(Some(a)) != FormatDocumentType(Some(b))
  {
    LookupFinds(KnownTypes, TypeLabels, Some(a), OtherLabel);
    LookupFinds(KnownTypes, TypeLabels, Some(b), OtherLabel);
  }

  /** Of the seven types the detector can report, all but the generic
      `legal_document` are known to the popup; that one is shown as
      `Other`. */
  lemma DetectorTypesShown(t: DocumentType)
    ensures t.Name() in KnownTypes <==> t != LegalDocument
    ensures t == LegalDocument ==> FormatDocumentType(Some(t.Name())) == OtherLabel
    ensures t != LegalDocument ==> FormatDocumentType(Some(t.Name())) != OtherLabel
  {
    TablesAgree(Some(t.Name()));
  }

  // ---------------------------------------------------------------------
  // The chunk viewer

  /** `currentChunkIndex + direction` when that is an index of the `n`
      chunks, else the index unchanged. */
  function NavigateTarget(index: int, direction: int, n: nat): (j: int)
    ensures 0 <= index < n ==> 0 <= j < n
    ensures j == index || j == index + direction
    ensures j == index + direction <==> 0 <= index + direction < n || direction == 0
  {
    if 0 <= index + direction < n then index + direction else index
  }

  /** The index after a run of clicks on the arrows. */
  function NavigateAll(index: int, directions: seq<int>, n: nat): int
    decreases directions
  {
    if directions == [] then index
    else NavigateAll(NavigateTarget(index, directions[0], n), directions[1..], n)
  }

  /** From a valid index, any run of clicks keeps the index valid. */
  lemma {:induction false} NavigateAllInBounds(index: int, directions: seq<int>, n: nat)
    requires 0 <= index < n
    ensures 0 <= NavigateAll(index, directions, n) < n
    decreases directions
  {
    if directions != [] {
      NavigateAllInBounds(NavigateTarget(index, directions[0], n), directions[1..], n);
    }
  }

  /** What `displayCurrentChunk()` writes into the chunk panel. */
  datatype ChunkView = ChunkView(
    title: string,
    kind: string,
    text: string,
    wordCount: nat,
    charCount: nat,
    counter: string,
    prevDisabled: bool,
    nextDisabled: bool)

  /** `Chunk ${index + 1} of ${n}` */
  function Counter(index: nat, n: nat): string {
    "Chunk " + NatToString(index + 1) + " of " + NatToString(n)
  }

  /** The message of the `TypeError` raised by reading `chunks` of the
      missing `content` of a failed extraction. */
  const MissingContentError: string := "Cannot read properties of undefined (reading 'chunks')"
  const NoExtractionError: string := "No text extraction available"
  const NoChunksError: string := "No text chunks found"

  class SafeAgreePopup {
    var chunks: seq<Chunk>
    var currentChunkIndex: int
    /** Whether the chunk panel is displayed. */
    var chunksShown: bool
    /** The message of the error panel, when it is displayed. */
    var errorMessage: Option<string>

    /** The index is never negative, and points at a chunk whenever there
        are chunks. */
    ghost predicate Valid()
      reads this
    {
      0 <= currentChunkIndex && (chunks != [] ==> currentChunkIndex < |chunks|)
    }

    /** The chunk state set up by `initializeElements()`. */
    constructor()
      ensures Valid()
      ensures chunks == [] && currentChunkIndex == 0 && !chunksShown && errorMessage == None
    {
      chunks := [];
      currentChunkIndex := 0;
      chunksShown := false;
      errorMessage := None;
    }

    /** `hideChunksSection()` */
    method HideChunksSection()
      modifies this
      ensures Valid()
      ensures chunks == [] && currentChunkIndex == 0 && !chunksShown
      ensures errorMessage == old(errorMessage)
    {
      chunksShown := false;
      chunks := [];
      currentChunkIndex := 0;
    }

    /** `showError(message)`: every panel is hidden and the error panel
        shows `message`. */
    method ShowError(message: string)
      modifies this
      ensures chunksShown == false && errorMessage == Some(message)
      ensures chunks == old(chunks) && currentChunkIndex == old(currentChunkIndex)
    {
      chunksShown := false;
      errorMessage := Some(message);
    }

    /** `handleViewChunks()` with the extraction of the current status
        (`None` when there is no status or no extraction).  Without a
        successful extraction with chunks it shows an error; otherwise it
        shows the chunks from the first one. */
    method HandleViewChunks(extraction: Option<ExtractionResult>)
      requires Valid()
      modifies this
      ensures Valid()
      ensures extraction.None? ==>
        errorMessage == Some(NoExtractionError) && !chunksShown
        && chunks == old(chunks) && currentChunkIndex == old(currentChunkIndex)
      ensures extraction.Some? && extraction.value.Failure? ==>
        errorMessage == Some(MissingContentError) && !chunksShown
        && chunks == old(chunks) && currentChunkIndex == old(currentChunkIndex)
      ensures extraction.Some? && extraction.value.Success? ==>
        chunks == extraction.value.extraction.content.chunks
        && (chunks == [] ==> errorMessage == Some(NoChunksError) && !chunksShown
                             && currentChunkIndex == old(currentChunkIndex))
        && (chunks != [] ==> currentChunkIndex == 0 && chunksShown && errorMessage == old(errorMessage))
    {
      match extraction
      case None =>
        ShowError(NoExtractionError);
      case Some(Failure(_, _)) =>
        ShowError(MissingContentError);
      case Some(Success(e)) =>
        chunks := e.content.chunks;
        if chunks == [] {
          ShowError(NoChunksError);
          return;
        }
        currentChunkIndex := 0;
        chunksShown := true;
    }

    /** `navigateChunk(direction)`: moves only when the new index is that of
        a chunk; otherwise nothing changes. */
    method NavigateChunk(direction: int)
      requires Valid()
      modifies this
      ensures Valid()
      ensures currentChunkIndex == NavigateTarget(old(currentChunkIndex), direction, |chunks|)
      ensures chunks == old(chunks) && chunksShown == old(chunksShown) && errorMessage == old(errorMessage)
    {
      var newIndex := currentChunkIndex + direction;
      if newIndex >= 0 && newIndex < |chunks| {
        currentChunkIndex := newIndex;
      }
    }

    /** `displayCurrentChunk()`: nothing without chunks; otherwise the
        current chunk with its title (or `Chunk n`), its type, its word and
        character counts, the counter, and the arrows disabled at the
        ends. */
    function DisplayCurrentChunk(): (v: Option<ChunkView>)
      requires Valid()
      reads this
      ensures v.None? <==> chunks == []
      ensures v.Some? ==>
        (v.value.text == chunks[currentChunkIndex].text && v.value.charCount == |chunks[currentChunkIndex].text|
         && v.value.wordCount >= 1)
    {
      if chunks == [] then None
      else
        var i := currentChunkIndex;
        var chunk := chunks[i];
        var title := if chunk.title.Some? && chunk.title.value != [] then chunk.title.value
                     else "Chunk " + NatToString(i + 1);
        Some(ChunkView(title, chunk.kind.Name(), chunk.text, |SplitRuns(chunk.text, IsSpace)|, |chunk.text|,
                       Counter(i, |chunks|), i == 0, i == |chunks| - 1))
    }

    /** An arrow is disabled exactly when clicking it would not move: the
        display and the navigation agree. */
    lemma ArrowsMatchNavigation()
      requires Valid() && chunks != []
      ensures DisplayCurrentChunk().value.prevDisabled <==>
        NavigateTarget(currentChunkIndex, -1, |chunks|) == currentChunkIndex
      ensures DisplayCurrentChunk().value.nextDisabled <==>
        NavigateTarget(currentChunkIndex, 1, |chunks|) == currentChunkIndex
    {
    }

    /** The counter names the current chunk and the number of chunks, and
        tells different positions apart. */
    lemma CounterIdentifiesPosition(i: nat, j: nat, n: nat)
      requires Counter(i, n) == Counter(j, n)
      ensures i == j
    {
      var a := NatToString(i + 1);
      var b := NatToString(j + 1);
      var s := Counter(i, n);
      assert s == "Chunk " + a + " of " + NatToString(n);
      assert s == "Chunk " + b + " of " + NatToString(n);
      assert a == s[6..6 + |a|] == b;
      NatToStringInjective(i + 1, j + 1);
    }
  }
}

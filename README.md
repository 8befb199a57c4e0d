# SafeAgree in Dafny

SafeAgree is a browser extension that notices when the page in the current
tab is a legal document: a privacy policy, terms of service, a cookie
policy, a EULA, a user agreement or a legal notice. It then extracts and
cleans the document's text and cuts it into chunks that the popup shows one
at a time. This project models the core of the extension:

- **Helpers** (`utils/helpers.js`) covers the helper functions:
  - `sanitizeText`;
  - the URL and title tests;
  - the content-indicator test;
  - the sliding-window `chunkText`;
  - `sanitizeUserInput`;
  - `generateDocumentId`.
- **Constants** (`utils/constants.js`) holds the constants those helpers
  use:
  - the URL and title regular-expression tables;
  - the content indicators;
  - the chunk sizes;
  - the noise patterns;
  - the UI states.
- **Detector** (`content/page-detector.js`) models the page detector:
  - four signals (URL, title, content, structure) that add up to a
    confidence;
  - the verdict `confidence >= 0.3`;
  - the document type;
  - the detection cache.
- **Cleaning**, **Chunking** and **Extractor** (`content/text-extractor.js`)
  model the text extractor:
  - the minimum-length gate;
  - cleaning;
  - truncation;
  - metadata;
  - chunking, by sections or by sentences with overlap;
  - the extraction cache.
- **ContentScript** (`content/content-script.js`) models the content script.
  It composes the detector and the extractor:
  - the throttle;
  - the skip list of search and social sites;
  - the state machine (idle, detecting, processing, ready, error);
  - the status report;
  - the chunk accessor.
- **Popup** (`popup/popup.js`) models the popup's chunk viewer:
  - a bounds-checked index over the chunks;
  - the counter and the arrow buttons;
  - the label, icon and description tables for document types.

Modelling choices:

- **Pure code** becomes functions over datatypes.
- **Loops** become methods proved against those functions:
  - `chunkText`;
  - `chunkBySentences`;
  - `chunkByStructure`;
  - `getLastSentences`;
  - the detector's scoring.
- **Objects whose fields are updated** become classes: the detector, the
  extractor, the content script and the popup.
- **Regular expressions** are modelled exactly where the code branches on
  them (`Patterns`):
  - the URL and title tables;
  - the legal-section headings;
  - `getDocumentTypeFromTitle`.
  - The model uses literal alternatives, `\s+` and `\b`, with ASCII case
    folding. Case folding is all that the `i` flag does without the `u`
    flag.
- **The confidence** is held in integer tenths (4, 3, 2 and 1). Every float
  sum the source can form compares with `0.3` as its tenths do: 0.2 + 0.1 is
  0.30000000000000004, which is still `>= 0.3`.
- **The page** is an input datatype: its URL, title, text, headings and
  table-of-contents flag, plus the date the date patterns find. The clock is
  a `now` parameter.

## Model

| member | source | states |
|---|---|---|
| Text.Lower | utils/helpers.js:197 | lowercasing keeps the length and lowers each character independently; nothing upper-case remains |
| Text.Trim | utils/helpers.js:80 | the trimmed text is a contiguous slice of the input that neither starts nor ends with white space |
| Text.TrimRemovesOnlySpace | utils/helpers.js:80 | `trim` removes white space only: every character cut before or after the kept slice is white space, and the kept slice neither starts nor ends with it |
| Text.TrimUnchanged | utils/helpers.js:80 | trimming a text that neither starts nor ends with white space leaves it unchanged |
| Text.CollapseWs | utils/helpers.js:76 | collapsing white-space runs never lengthens a text, is empty exactly for the empty text, and maps a leading run to one space |
| Text.CollapseWsSingleSpaces | utils/helpers.js:76 | after collapsing, no two white-space characters are adjacent and every white-space character is a plain space |
| Text.CollapseWsKeepsText | utils/helpers.js:76 | collapsing white space keeps every other character, in order: dropping the white space from the result and from the input gives the same text |
| Text.SplitRuns | content/page-detector.js:164 | `split(/\s+/)` always yields at least one piece, and no piece holds a separator |
| Text.SplitRunsReassembles | content/page-detector.js:164 | concatenating the pieces gives back the text with its separators removed, so no character is lost or invented |
| Text.AnyContainedIff | content/content-script.js:154-161 | `some(p => s.includes(p))` holds exactly when some listed phrase occurs in the text |
| Text.NatToString | content/text-extractor.js:412 | the decimal form of a number is non-empty and all digits |
| Text.NatToStringInjective | content/text-extractor.js:412 | different numbers have different decimal forms |
| Patterns.LiteralIsSubstring | utils/constants.js:16 | a case-insensitive pattern made of one literal matches exactly when the lowercased text contains it |
| Patterns.LeadingLiteralOccurs | utils/constants.js:12-33 | a pattern that begins with a literal matches only texts that contain that literal |
| Patterns.OpeningLiteral | utils/constants.js:12-33 | a pattern that begins with a literal matches at a position exactly when the literal occurs there and the rest matches after it |
| Constants.ChunkSizesConsistent | utils/constants.js:51-56 | overlap < minimum chunk ≤ maximum chunk; the test-page minimum (100) is below the document minimum, which is below the document maximum |
| Constants.OnlyWhitespaceNoiseIsGlobal | utils/constants.js:59-64 | of the noise patterns, only the last one, `\s+`, has the global flag, so only it is applied when cleaning |
| Constants.ContentIndicatorsDistinct | utils/constants.js:36-47 | the ten content indicators are pairwise different |
| Constants.StateNamesDistinct | utils/constants.js:109-115 | the five UI states have pairwise different names and every state is listed |
| Helpers.RemoveControls | utils/helpers.js:78 | the result is the input with exactly its control characters (U+0000–U+001F, U+007F) dropped, everything else kept in order |
| Helpers.SanitizeText | utils/helpers.js:69-81 | empty in, empty out; the result holds no control character and neither starts nor ends with white space |
| Helpers.PrivacyPolicyPathIsLegal | utils/helpers.js:102-107 | any URL containing `/privacy-policy`, in any case, passes the legal-URL test |
| Helpers.IndicatorCount | utils/helpers.js:196-202 | at most ten indicators are found |
| Helpers.IndicatorsThreshold | utils/helpers.js:191-209 | the content test holds exactly when the text has at least 100 characters and at least 4 indicators (over 2000 characters) or 2 (otherwise) |
| Helpers.IndicatorsMonotone | utils/helpers.js:205-208 | at equal length, a text with more indicators never fails where one with fewer passes |
| Helpers.LastIndexOf | utils/helpers.js:231-233 | `lastIndexOf(c, from)` is -1 or an index at most `from` holding `c`, with no `c` between it and `from` |
| Helpers.NonEmpty | utils/helpers.js:245 | the filter keeps only non-empty chunks, each taken from the input |
| Helpers.WindowBounds | utils/helpers.js:226-241 | each window ends after its start and at most `maxSize + 1` characters later; each piece is at most `maxSize + 1` long |
| Helpers.WindowCutRule | utils/helpers.js:229-239 | a window ends at `start + maxSize`, or just after the last `.`, `?` or `!` at or before that index and beyond half the window; and whenever the window is not the rest of the text and such a sentence end exists, it ends just after the last one |
| Helpers.StartsAdvance | utils/helpers.js:242 | the next window starts at least `maxSize - overlap` later |
| Helpers.NoProgressWithoutGap | utils/helpers.js:242 | when `overlap >= maxSize` and the text has no sentence end, the window start never advances, which is why `ChunkText` requires `overlap < maxSize` |
| Helpers.PiecesBounded | utils/helpers.js:226-243 | every piece the window loop produces is at most `maxSize + 1` characters long |
| Helpers.ChunkTextBounds | utils/helpers.js:218-246 | a text of at most `maxSize` is returned whole as the only chunk; otherwise every chunk is non-empty and at most `maxSize + 1` long |
| Helpers.FindWindowEnd | utils/helpers.js:227-239 | the loop body's end computation equals the window end and lies after the start |
| Helpers.ChunkStep | utils/helpers.js:226-243 | one loop iteration appends the current window's piece and strictly advances the start |
| Helpers.ChunkText | utils/helpers.js:218-246 | the loop returns exactly the specified chunk sequence; past `maxSize` every chunk is non-empty and at most `maxSize + 1` long |
| Helpers.RemoveTags | utils/helpers.js:284 | tag removal keeps only input characters and leaves no `<` that is followed later by a `>` |
| Helpers.RemoveJavascript | utils/helpers.js:285 | removing `javascript:` never lengthens the text, keeps only input characters and never creates a tag |
| Helpers.SanitizeUserInput | utils/helpers.js:277-286 | empty in, empty out; the result is at most `maxLength` long and holds no tag |
| Helpers.ToIdChars | utils/helpers.js:183 | every character becomes a word character; word characters are kept in place |
| Helpers.GenerateDocumentId | utils/helpers.js:178-184 | the id consists of word characters only |
| Helpers.DocumentIdShape | utils/helpers.js:178-184 | the id ends with the timestamp's digits; its length lies between domain + digits + 2 and that plus the 50-character title cap |
| Cleaning.CleanText | content/text-extractor.js:208-235 | empty in, empty out |
| Cleaning.CleanTextShape | content/text-extractor.js:208-235 | the cleaned text is trimmed, has no adjacent white space, no lower-case letter directly before an upper-case one, and no sentence end directly before an upper-case letter |
| Cleaning.CollapsedHasNoNewline | content/text-extractor.js:215-216 | after `\s+` becomes a space no newline is left, so the `\n\s*\n` replacement never applies |
| Cleaning.SpaceAfterPunctSeparates | content/text-extractor.js:229 | after the replacement, no `.`, `!` or `?` is directly followed by an upper-case letter |
| Cleaning.CamelSplitSeparates | content/text-extractor.js:230 | after the replacement, no lower-case letter is directly followed by an upper-case one |
| Cleaning.KeepSentences | content/text-extractor.js:496-497 | the kept pieces are trimmed, longer than 10 characters and free of sentence ends |
| Cleaning.SplitIntoSentences | content/text-extractor.js:492-498 | every sentence is trimmed, longer than 10 characters and holds no `.`, `!` or `?` |
| Cleaning.SentencesShape | content/text-extractor.js:492-498 | each element of the split is such a sentence |
| Cleaning.KeepSentencesPicksLong | content/text-extractor.js:496-497 | trimming and filtering keeps, in order, exactly the trimmed pieces longer than 10 characters: each kept element is the trimmed piece at a strictly increasing position, and a position is picked if and only if its trimmed piece is longer than 10 |
| Cleaning.SplitIntoSentencesPieces | content/text-extractor.js:492-498 | the sentences are all the trimmed pieces between runs of `.`, `!` and `?` that are longer than 10 characters, in text order, and no others |
| Cleaning.JoinDotTrimmed | content/text-extractor.js:513 | joining sentences with `. ` gives the empty text only for no sentences, and a trimmed text otherwise |
| Cleaning.LastSentencesProperties | content/text-extractor.js:506-520 | the backward scan stops only where the next sentence would not fit; the result is at most `maxLength + 2` long; it is empty when the last sentence alone is too long |
| Cleaning.StopIsMaximal | content/text-extractor.js:510-516 | the scan takes every earlier sentence that still fits before it stops |
| Cleaning.WordsCoverText | content/text-extractor.js:243 | the words are non-empty and free of white space, and together they are exactly the text's non-white-space characters |
| Cleaning.ReadingTime | content/text-extractor.js:247 | the reading time is the least number of minutes covering the words at 200 per minute |
| Cleaning.ExtractMetadata | content/text-extractor.js:242-262 | the character count is the text's length, the word count is the number of words, the reading time is the word count over 200 rounded up (so the words fit in it), the language is what `detectLanguage` decides (`en` or `unknown`), and the last-updated date is the one found |
| Cleaning.DetectLanguage | content/text-extractor.js:560-571 | the language is `en` or `unknown` |
| Cleaning.DetectLanguageIntegerTest | content/text-extractor.js:570 | the 2% ratio test is `en` exactly when 50 × the common-word count exceeds the number of words |
| Chunking.DotPieces | content/text-extractor.js:456 | `split('.').length` is one more than the number of dots |
| Chunking.GetLastSentences | content/text-extractor.js:506-520 | the loop returns the specified suffix of sentences, at most `maxLength + 2` long |
| Chunking.FoldSentencesInvariant | content/text-extractor.js:442-469 | after any prefix of the sentences, the open chunk is trimmed and every emitted chunk is semantic, numbered in order and at least `minSize` long |
| Chunking.StepKeepsInvariant | content/text-extractor.js:443-468 | one sentence step keeps the open chunk trimmed and the emitted chunks well-formed |
| Chunking.PushKeepsWellFormed | content/text-extractor.js:450-459 | pushing a trimmed chunk of at least `minSize` characters with the next number keeps the chunk list well-formed |
| Chunking.SentenceChunksWellFormed | content/text-extractor.js:436-485 | every chunk from `chunkBySentences` is semantic, at least `minSize` long, and numbered `chunk_0`, `chunk_1`, … |
| Chunking.AddSentence | content/text-extractor.js:443-468 | the loop body does exactly one step of the specification |
| Chunking.ChunkBySentences | content/text-extractor.js:436-485 | the loop returns the specified sentence chunks, which are well-formed |
| Chunking.PartChunks | content/text-extractor.js:407-419 | one part chunk per piece, in order |
| Chunking.SectionChunksShape | content/text-extractor.js:391-422 | an empty section gives nothing; a short one gives one `section` chunk with its text and title; a long one gives `section_part` chunks of at most `maxSize + 1` characters titled `(Part k)` |
| Chunking.StructureChunksBounded | content/text-extractor.js:386-426 | every structure chunk is non-empty and at most `maxSize + 1` long; whole sections are at most `maxSize` |
| Chunking.EmptySectionsFallBack | content/text-extractor.js:425 | when no section has content, structure chunking is sentence chunking with the default sizes |
| Chunking.NoChunksFromEmptySections | content/text-extractor.js:390-423 | sections without content yield no chunks |
| Chunking.AddSection | content/text-extractor.js:391-422 | the loop body appends exactly that section's chunks |
| Chunking.AddParts | content/text-extractor.js:407-419 | the inner loop appends exactly the part chunks |
| Chunking.ChunkByStructure | content/text-extractor.js:386-426 | the loop returns the specified structure chunks, or the sentence fallback |
| Chunking.ChunkContent | content/text-extractor.js:365-377 | more than three headings select structure chunking, otherwise sentence chunking, with the configured sizes |
| Chunking.ContentChunksBounded | content/text-extractor.js:365-377 | every chunk is a semantic chunk of at least 200 characters or a section chunk of at most 1001 |
| Chunking.SentenceChunkMembers | content/text-extractor.js:436-485 | every sentence chunk is semantic and at least `minSize` long |
| Chunking.StructureKinds | content/text-extractor.js:394-418 | structure chunks are never semantic |
| Extractor.OptionsJson | content/text-extractor.js:42 | the options' JSON is an object text |
| Extractor.OptionsJsonHasNoUnderscore | content/text-extractor.js:42 | the options' JSON holds no `_` |
| Extractor.OptionsJsonInjective | content/text-extractor.js:42 | different options give different JSON |
| Extractor.CacheKeyInjective | content/text-extractor.js:41-42 | two pages share a cache key only with the same URL and the same options |
| Extractor.MinLength | content/text-extractor.js:79-80 | the minimum is 100 exactly for URLs containing `test` or `localhost`, and 500 otherwise |
| Extractor.Truncate | content/text-extractor.js:94-97 | truncation keeps a prefix of at most `maxLength` characters, and the whole text when it fits |
| Extractor.DerivedSections | content/text-extractor.js:315-323 | a page without headings has one section holding its raw text |
| Extractor.ExtractGate | content/text-extractor.js:79-84 | an extraction fails exactly when the raw text is shorter than the minimum for its URL, with the message naming both lengths |
| Extractor.ExtractSuccessShape | content/text-extractor.js:49-116 | a success keeps the URL, title and raw text; its cleaned text is a prefix of at most `maxLength` characters of the cleaned (or raw) text; the metadata counts its characters |
| Extractor.ExtractChunksAreSentenceChunks | content/text-extractor.js:104-116 | because the recorded structure has no sections, the chunks are always the sentence chunks of the cleaned text, or none when chunking is off |
| Extractor.TextExtractor.constructor | content/text-extractor.js:5-9 | starts uninitialised with an empty cache and no last extraction |
| Extractor.TextExtractor.Init | content/text-extractor.js:14-19 | marks the extractor initialised and changes nothing else |
| Extractor.TextExtractor.ExtractPageText | content/text-extractor.js:26-138 | a cached key returns the cached extraction and changes nothing; otherwise it returns the specified extraction; a success is cached and becomes the last extraction, and a failure changes nothing |
| Extractor.TextExtractor.GetLastExtraction | content/text-extractor.js:601-603 | returns the last successful extraction, which is one of the cached ones |
| Extractor.TextExtractor.ClearCache | content/text-extractor.js:608-612 | empties the cache and forgets the last extraction |
| Extractor.RepeatedExtraction | content/text-extractor.js:40-47 | extracting the same page twice returns the first success again; after a failure the second call recomputes |
| Detector.DocumentTypeFromURL | content/page-detector.js:129-139 | never `user_agreement`; `legal_document` exactly when none of privacy, terms, cookie, eula or legal occurs in the lowercased URL |
| Detector.DocumentTypeFromTitle | content/page-detector.js:146-156 | never `legal_notice` |
| Detector.TitleTypeAndTitleTest | content/page-detector.js:146-156 | every title that `getDocumentTypeFromTitle` gives a type of its own passes `isLegalDocumentTitle` (utils/helpers.js:114-118); a title that passes the test without a type of its own matched the acceptable-use or the legal-notice pattern |
| Detector.PrivacyPolicyTitleIsLegal | content/page-detector.js:149 | a title whose lowercased text contains `privacy policy` passes the legal-title test and is typed `privacy_policy` |
| Detector.PrivacyUrlIsPrivacyPolicy | content/page-detector.js:129-139 | a URL matching the privacy-policy pattern is typed `privacy_policy` |
| Detector.TermsUrlIsTermsOfService | content/page-detector.js:129-139 | a URL matching the terms pattern, without `privacy`, is typed `terms_of_service` |
| Detector.AnalyzeContent | content/page-detector.js:162-197 | at most ten phrases are found and there is at least one word; the indicator test or three phrases make the content signal |
| Detector.ContentSignal | content/page-detector.js:162-197 | the content signal holds exactly when the indicator threshold is met or three legal phrases occur; under 100 characters only the phrases count |
| Detector.AnalyzeStructure | content/page-detector.js:203-255 | the section count is the number of headings, the numbered and legal counts are at most that, and a legal structure needs at least five headings |
| Detector.AllNumbered | content/page-detector.js:222-224 | when every heading is numbered, the count is the number of headings |
| Detector.StructureSignal | content/page-detector.js:243-246 | five headings with a table of contents, or five numbered headings, make a legal structure; fewer than five never do |
| Detector.Confidence | content/page-detector.js:62-95 | the confidence is at most 10 tenths, and 0 exactly when no signal holds |
| Detector.Verdict | content/page-detector.js:98 | a page is legal exactly when its URL or title matches, or both content and structure do |
| Detector.ConfidenceMonotone | content/page-detector.js:62-98 | more signals never lower the confidence or turn a legal verdict into a non-legal one |
| Detector.DocumentTypeOf | content/page-detector.js:62-76 | no type without a URL or title match; the URL's type when the URL matches; otherwise the title's type |
| Detector.AnalysisOf | content/page-detector.js:40-98 | the analysis carries the signals, their confidence, the verdict for it and the document type |
| Detector.Analyze | content/page-detector.js:25-122 | a page with a body is analysed consistently (verdict matches confidence matches signals); a page without one gives the error result |
| Detector.AnalyzeVerdict | content/page-detector.js:62-98 | a legal URL makes a legal document typed from the URL; a legal title makes a legal document; an error result is not legal and has confidence 0 |
| Detector.ScoreUrlAndTitle | content/page-detector.js:62-76 | the URL and title signals, their weights 4 and 3, and the document type they give |
| Detector.ConfidenceBySteps | content/page-detector.js:62-95 | adding the weights step by step gives the confidence of the signals |
| Detector.ScoreContentAndStructure | content/page-detector.js:78-95 | adds weight 2 for content and 1 for structure |
| Detector.ComputeAnalysis | content/page-detector.js:40-98 | the step-by-step computation returns exactly the specified analysis |
| Detector.PageDetector.constructor | content/page-detector.js:5-9 | starts uninitialised with an empty cache and no last analysis |
| Detector.PageDetector.Init | content/page-detector.js:14-19 | marks the detector initialised and changes nothing else |
| Detector.PageDetector.AnalyzePage | content/page-detector.js:25-122 | a cached domain and title return the cached analysis and change nothing; otherwise it returns the specified analysis; a success is cached and becomes the last analysis, and an error changes nothing; every analysis returned is consistent |
| Detector.PageDetector.Store | content/page-detector.js:100-102 | caches a consistent analysis under its key and makes it the last one |
| Detector.PageDetector.IsCurrentPageLegalDocument | content/page-detector.js:319-324 | answers from the last analysis when there is one, changing nothing; otherwise answers from a fresh analysis, which (on success) becomes the only cache entry and the last analysis, and (on error) leaves both empty; the initialised flag never changes |
| Detector.PageDetector.GetLastAnalysis | content/page-detector.js:330-332 | returns the last analysis, which is one of the cached ones |
| Detector.PageDetector.ClearCache | content/page-detector.js:337-341 | empties the cache and forgets the last analysis |
| Detector.SameTitleSameAnalysis | content/page-detector.js:33-38 | two pages with the same domain and title get the same answer once the first has been analysed |
| ContentScript.ShouldSkipAnalysisIff | content/content-script.js:129-164 | a URL is skipped exactly when its lowercased form contains one of the ten domains or five search paths |
| ContentScript.GoogleComIsCoveredByGoogleDot | content/content-script.js:131-132 | every URL containing `google.com` already contains `google.` and is skipped |
| ContentScript.Detected | content/content-script.js:104 | what the detector returns to the content script; an analysis computed fresh is consistent |
| ContentScript.Extracted | content/content-script.js:112 | what the extractor returns with the default options; a cached key always gives a success |
| ContentScript.StateChange | content/content-script.js:223-230 | a state change is recorded exactly when the new state differs from the old one |
| ContentScript.ChangeLogExtends | content/content-script.js:223-230 | recording a change keeps the log a chain of real changes from `idle` to the current state |
| ContentScript.SafeAgreeContentScript.constructor | content/content-script.js:5-13 | starts uninitialised, `idle`, with no analysis, no extraction and last analysis time 0 |
| ContentScript.SafeAgreeContentScript.SetState | content/content-script.js:223-230 | sets the state, records the change only when it is one, and changes nothing else |
| ContentScript.SafeAgreeContentScript.AnalyzeCurrentPage | content/content-script.js:84-122 | within 2000 ms of the last analysis nothing changes; otherwise the time is recorded; a skipped URL leaves the script `idle` with the detector and extractor untouched; any other URL passes through `detecting` to `ready` when the detector finds a legal document (and then extracts) or to `idle`; the state never becomes `error` |
| ContentScript.SafeAgreeContentScript.DetectAndExtract | content/content-script.js:101-116 | stores the detector's answer and settles on `ready` with an extraction or on `idle` |
| ContentScript.SafeAgreeContentScript.Settle | content/content-script.js:108-116 | `ready` plus an extraction with the default options for a legal document, `idle` and an untouched extractor otherwise |
| ContentScript.SafeAgreeContentScript.ExtractText | content/content-script.js:169-190 | passes through `processing` to `ready` and stores and returns the extractor's result |
| ContentScript.SafeAgreeContentScript.GetStatus | content/content-script.js:195-207 | reports the state, URL and time; without an analysis it reports not legal, no type and confidence 0; without a successful extraction it reports no words and no chunks; the verdict always matches the confidence, which is at most 10 tenths |
| ContentScript.SafeAgreeContentScript.GetContentChunksAsWritten | content/content-script.js:212-218 | as written: fails exactly when the stored extraction is a failure, and gives no chunks without an extraction |
| ContentScript.SafeAgreeContentScript.GetContentChunks | content/content-script.js:212-218 | corrected: the chunks of a successful extraction, and none otherwise |
| ContentScript.SafeAgreeContentScript.StatusCountsChunks | content/content-script.js:195-218 | the status's chunk count is the number of chunks the accessor returns |
| ContentScript.SafeAgreeContentScript.ChunksAgreeUnlessFailed | content/content-script.js:212-218 | the written and corrected accessors agree except where the written one fails, and then the corrected one returns none |
| ContentScript.ShortLegalPageFailsExtraction | content/content-script.js:101-112 | a page at a legal URL with too little text is detected as legal, and its extraction fails |
| Popup.LookupFinds | popup/popup.js:614-624 | a table lookup gives the entry of a known key and the fallback for null or an unknown key |
| Popup.TablesAgree | popup/popup.js:580-624 | unknown types and null are labelled `Other` and described as `Legal document`, and known ones never are; the default icon is shown exactly for those and for the EULA |
| Popup.LabelsDistinct | popup/popup.js:614-624 | different known types get different labels |
| Popup.DetectorTypesShown | popup/popup.js:614-624 | every type the detector reports except `legal_document` has its own label; `legal_document` is shown as `Other` |
| Popup.NavigateTarget | popup/popup.js:510-517 | moving stays within the chunks, and moves exactly when the target is a chunk index |
| Popup.NavigateAllInBounds | popup/popup.js:510-517 | any sequence of clicks keeps the index within the chunks |
| Popup.SafeAgreePopup.constructor | popup/popup.js:118-120 | starts with no chunks at index 0, nothing shown and no error |
| Popup.SafeAgreePopup.HideChunksSection | popup/popup.js:475-479 | hides the section and resets the chunks and the index |
| Popup.SafeAgreePopup.ShowError | popup/popup.js:270-274 | shows the message and hides the chunks section, leaving the chunks and the index |
| Popup.SafeAgreePopup.HandleViewChunks | popup/popup.js:484-505 | no extraction, a failed one (the missing `content` error) or no chunks show an error; otherwise the chunks are shown from the first |
| Popup.SafeAgreePopup.NavigateChunk | popup/popup.js:510-517 | the index becomes the navigation target, and nothing else changes |
| Popup.SafeAgreePopup.DisplayCurrentChunk | popup/popup.js:522-547 | nothing without chunks; otherwise the current chunk's text, its character count and at least one word |
| Popup.SafeAgreePopup.ArrowsMatchNavigation | popup/popup.js:542-543 | an arrow is disabled exactly when clicking it would not move |
| Popup.SafeAgreePopup.CounterIdentifiesPosition | popup/popup.js:539 | the counter `Chunk i of n` tells different positions apart |

## Left out

- **Strings.** Characters are code points. JavaScript's UTF-16 lengths and indices differ for characters outside the Basic Multilingual Plane.
- **Lowercasing.** `toLowerCase` is modelled as ASCII lowercasing. It differs for non-ASCII letters such as U+0130 and the Kelvin sign. The regular-expression tests are case-insensitive over ASCII only, which is exact.
- **Floating point.** The detector's confidence is held in tenths. `detectLanguage`'s ratio is a `real`, proved equal to an integer test.
- **The DOM.** The following are inputs to the model rather than computed. On every detector cache miss, `extractMainTextContent` (content/page-detector.js:263-264) also removes the script, style, nav, header and footer elements from the live page before `analyzePageStructure` counts headings. `Detector.DetectorPage`'s `headingTexts` and `hasTableOfContents` stand for the page after that removal. The extractor reads a clone (content/text-extractor.js:146), so its raw text is unaffected.
  - the text that `extractRawContent` and `extractMainTextContent` read;
  - the heading texts, the table-of-contents test and the sections that `extractSections` derives from the DOM;
  - the lists and tables of `extractStructure`;
  - element positions;
  - `extractContentBetweenElements`.
- **Dates.** The date that `extractLastUpdatedDate` finds is an input. Its patterns are not modelled.
- **Domains.** `extractDomain` (URL parsing) is not modelled; the domain is an input.
- **Time and side effects.** The following are not modelled:
  - `Date.now()` and `performance.now()` are a `now` parameter;
  - logging and timings;
  - the `debounce`, `throttle`, `deepClone`, `calculateTextSimilarity`, `formatFileSize`, `log` and `sleep` helpers.
- **The content script's setup.** `init`, `waitForPageLoad`, the `MutationObserver`, the debounced re-analysis and the message handlers are left out, and so are the popup's messaging, settings, summary, question and state-rendering code. These are event wiring around the modelled operations.
- **Status messages.** The popup asks for `'GET_STATUS'`, while the content script answers `'get_status'`. The status it returns also has no `extraction` field. `Popup.SafeAgreePopup.HandleViewChunks` therefore takes the extraction as a parameter.
- **Options.** `extractPageText` is called only without options, so the model takes the merged options as a value (`Extractor.DefaultOptions` at every call site).
- **The error state.** The `catch` branch of `analyzeCurrentPage` and the `error` state are unreachable in the model. The detector and the extractor catch their own errors and return error objects. The one error the detector can raise, a missing body, is modelled as its error result.
- **Non-string arguments.** Arguments that are not strings, for `sanitizeText` and `sanitizeUserInput`, are outside the model.
- **Prototype keys.** A key such as `constructor` reads the object prototype in the popup's tables. `Popup.Lookup` gives the fallback for every unknown key.
- Helpers.SanitizeText: does not state that no two spaces are adjacent in the result. Removing a control character can bring two spaces together.
- Helpers.RemoveScripts: states only that the result is no longer than the input. A script block can be rebuilt from the pieces around a removed one, so no "no script left" property holds.
- Cleaning.CleanText: its own contract covers only the empty input. The shape of the cleaned text is stated by `Cleaning.CleanTextShape`.
- Detector.DocumentTypeFromTitle: its own contract states only that a title never gives `legal_notice`. Which type a title gives is its first matching pattern, as defined; `Detector.TitleTypeAndTitleTest` ties the types to the title test, and `Detector.PrivacyPolicyTitleIsLegal` shows one family.
- ContentScript.SafeAgreeContentScript.ExtractText: returns the extraction itself; the `{success: true, data}` object that wraps it is not modelled, since the extractor always answers and the success flag is therefore always true.

## Findings

| source | as written | input that shows it | evidently intended | confidence | as-written member | corrected member |
|---|---|---|---|---|---|---|
| content/content-script.js:212-218 | `getContentChunks` reads `textExtraction.content.chunks`. A failed extraction has no `content`, so the read raises a `TypeError` instead of returning a list | a page whose URL contains `/privacy-policy` (and neither `test` nor `localhost`) with under 500 characters of text: it is detected as legal, its extraction fails, and then a `get_chunks` request is answered with the error instead of the chunks | an empty list whenever there is no successful extraction | not executed | ContentScript.SafeAgreeContentScript.GetContentChunksAsWritten | ContentScript.SafeAgreeContentScript.GetContentChunks |

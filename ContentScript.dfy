/** The content script that runs in every page: it decides whether a page
    is worth analysing, throttles repeated analyses, drives the page
    detector and the text extractor, and answers the popup's requests for
    the status and the chunks of the page. */
module ContentScript {
  import opened Wrappers
  import opened Text
  import opened Constants
  import opened Helpers
  import opened Chunking
  import opened Extractor
  import opened Detector

  // ---------------------------------------------------------------------
  // shouldSkipAnalysis

  /** `analysisThrottleMs`: at most one analysis every two seconds. */
  const AnalysisThrottleMs: int := 2000

  /** Search engines and social sites that are never analysed. */
  const SkipDomains: seq<string> := [
    "google.com", "google.", "bing.com", "duckduckgo.com", "search.yahoo.com",
    "facebook.com", "twitter.com", "instagram.com", "youtube.com", "reddit.com"
  ]

  /** Search paths and query parameters that are never analysed. */
  const SkipPaths: seq<string> := ["/search", "/results", "/q=", "?q=", "&q="]

  /** `shouldSkipAnalysis(url)`: the lower-cased URL mentions a skipped
      domain or a skipped path. */
  function ShouldSkipAnalysis(url: string): (skip: bool)
  {
    var lowerUrl := Lower(url);
    AnyContained(SkipDomains, lowerUrl) || AnyContained(SkipPaths, lowerUrl)
  }

  /** A URL is skipped exactly when one of the fifteen skip substrings
      occurs in it, in any letter case. */
  lemma ShouldSkipAnalysisIff(url: string)
    ensures ShouldSkipAnalysis(url) <==>
      (exists k :: 0 <= k < |SkipDomains| && Contains(Lower(url), SkipDomains[k]))
      || (exists k :: 0 <= k < |SkipPaths| && Contains(Lower(url), SkipPaths[k]))
  {
    AnyContainedIff(SkipDomains, Lower(url));
    AnyContainedIff(SkipPaths, Lower(url));
  }

  /** Every URL that mentions `google.com` also mentions `google.`, so the
      first skip domain never decides anything on its own. */
  lemma GoogleComIsCoveredByGoogleDot(url: string)
    requires Contains(Lower(url), "google.com")
    ensures Contains(Lower(url), "google.")
    ensures ShouldSkipAnalysis(url)
  {
    var u := Lower(url);
    var i :| 0 <= i <= |u| - 10 && OccursAt(u, "google.com", i);
    assert u[i..i + 7] == u[i..i + 10][..7];
    assert OccursAt(u, "google.", i);
    ShouldSkipAnalysisIff(url);
    assert Contains(u, SkipDomains[1]);
  }

  // ---------------------------------------------------------------------
  // What the detector and the extractor answer

  /** What `pageDetector.analyzePage()` answers for `page` when its cache
      is `cache`. */
  function Detected(cache: map<string, Analysis>, page: DetectorPage, now: nat): (r: AnalysisResult)
    ensures r.Analyzed? && DetectionKey(page.domain, page.title) !in cache ==> Consistent(r.analysis)
  {
    var key := DetectionKey(page.domain, page.title);
    if key in cache then Analyzed(cache[key]) else Analyze(page, now)
  }

  /** What `textExtractor.extractPageText()`, called without options,
      answers for `page` when its cache is `cache`. */
  function Extracted(cache: map<string, Extraction>, page: Page, now: nat): (r: ExtractionResult)
    ensures CacheKey(page.url, DefaultOptions) in cache ==> r.Success?
  {
    var key := CacheKey(page.url, DefaultOptions);
    if key in cache then Success(cache[key]) else Extract(page, DefaultOptions, now)
  }

  // ---------------------------------------------------------------------
  // The state log

  /** The "State changed from ... to ..." line that `setState` logs: one
      line when the state changes, none otherwise. */
  function StateChange(from: State, to: State): (log: seq<(State, State)>)
    ensures log == [] <==> from == to
    ensures log != [] ==> log == [(from, to)]
  {
    if from == to then [] else [(from, to)]
  }

  /** A log of state changes that starts from `idle`, records only real
      changes, links each change to the next, and ends in `current`. */
  ghost predicate ChangeLog(log: seq<(State, State)>, current: State) {
    (forall i :: 0 <= i < |log| ==> log[i].0 != log[i].1)
    && (forall i :: 0 < i < |log| ==> log[i - 1].1 == log[i].0)
    && (log == [] ==> current == Idle)
    && (log != [] ==> log[0].0 == Idle && log[|log| - 1].1 == current)
  }

  /** Logging a change keeps the log a chain of real changes. */
  lemma ChangeLogExtends(log: seq<(State, State)>, current: State, next: State)
    requires ChangeLog(log, current)
    ensures ChangeLog(log + StateChange(current, next), next)
  {
    var log' := log + StateChange(current, next);
    if current != next {
      assert log'[|log'| - 1] == (current, next);
      forall i | 0 < i < |log'|
        ensures log'[i - 1].1 == log'[i].0
      {
        if i < |log| {
          assert log'[i - 1] == log[i - 1] && log'[i] == log[i];
        }
      }
    }
  }

  // ---------------------------------------------------------------------
  // getStatus and getContentChunks

  /** What `getStatus()` answers. */
  datatype Status = Status(
    state: State,
    isLegalDocument: bool,
    documentType: Option<DocumentType>,
    confidence: nat,
    hasExtraction: bool,
    wordCount: nat,
    chunkCount: nat,
    url: string,
    timestamp: nat)

  /** The message of the `TypeError` raised by reading `chunks` of the
      missing `content` of a failed extraction. */
  const MissingContentError: string := "Cannot read properties of undefined (reading 'chunks')"

  class SafeAgreeContentScript {
    var isInitialized: bool
    var currentState: State
    var pageAnalysis: Option<AnalysisResult>
    var textExtraction: Option<ExtractionResult>
    var lastAnalysisTime: int
    /** The state changes logged so far, oldest first. */
    var stateLog: seq<(State, State)>

    /** The held analysis agrees with its confidence, and the state log
        leads from `idle` to the current state. */
    ghost predicate Valid()
      reads this
    {
      (pageAnalysis.Some? && pageAnalysis.value.Analyzed? ==> Consistent(pageAnalysis.value.analysis))
      && ChangeLog(stateLog, currentState)
    }

    constructor()
      ensures Valid()
      ensures !isInitialized && currentState == Idle && pageAnalysis == None && textExtraction == None
      ensures lastAnalysisTime == 0 && stateLog == []
    {
      isInitialized := false;
      currentState := Idle;
      pageAnalysis := None;
      textExtraction := None;
      lastAnalysisTime := 0;
      stateLog := [];
    }

    /** `setState(newState)`: always stores the new state, and logs a line
        only when it differs from the old one. */
    method SetState(newState: State)
      requires Valid()
      modifies this
      ensures Valid()
      ensures currentState == newState
      ensures stateLog == old(stateLog) + StateChange(old(currentState), newState)
      ensures pageAnalysis == old(pageAnalysis) && textExtraction == old(textExtraction)
      ensures lastAnalysisTime == old(lastAnalysisTime) && isInitialized == old(isInitialized)
    {
      var oldState := currentState;
      currentState := newState;
      if oldState != newState {
        stateLog := stateLog + [(oldState, newState)];
      }
      ChangeLogExtends(old(stateLog), oldState, newState);
    }

    /** `analyzeCurrentPage()` at time `now`, on the page the detector sees
        as `view` and the extractor as `page`.  Within two seconds of the
        last analysis nothing happens.  A skipped URL makes the script idle.
        Otherwise the page is analysed; a legal document makes the script
        ready and is extracted again, anything else makes it idle.  The
        detector and the extractor catch their own errors, so the `error`
        state is never entered. */
    method AnalyzeCurrentPage(detector: PageDetector, extractor: TextExtractor, view: DetectorPage, page: Page,
                              now: nat)
      requires Valid() && detector.Valid() && extractor.Valid()
      modifies this, detector, extractor
      ensures Valid() && detector.Valid() && extractor.Valid()
      ensures isInitialized == old(isInitialized)
      ensures currentState == Error ==> old(currentState) == Error
      ensures now - old(lastAnalysisTime) < AnalysisThrottleMs ==>
        unchanged(this) && unchanged(detector) && unchanged(extractor)
      ensures now - old(lastAnalysisTime) >= AnalysisThrottleMs ==> lastAnalysisTime == now
      ensures now - old(lastAnalysisTime) >= AnalysisThrottleMs && ShouldSkipAnalysis(view.url) ==>
        currentState == Idle
        && stateLog == old(stateLog) + StateChange(old(currentState), Idle)
        && pageAnalysis == old(pageAnalysis) && textExtraction == old(textExtraction)
        && unchanged(detector) && unchanged(extractor)
      ensures now - old(lastAnalysisTime) >= AnalysisThrottleMs && !ShouldSkipAnalysis(view.url) ==>
        var analysis := Detected(old(detector.detectionCache), view, now);
        pageAnalysis == Some(analysis)
        && currentState == (if analysis.IsLegalDocument() then Ready else Idle)
        && stateLog == old(stateLog) + StateChange(old(currentState), Detecting) + StateChange(Detecting, currentState)
        && textExtraction == (if analysis.IsLegalDocument()
                              then Some(Extracted(old(extractor.extractionCache), page, now))
                              else old(textExtraction))
    {
      if now - lastAnalysisTime < AnalysisThrottleMs {
        return;
      }
      lastAnalysisTime := now;
      if ShouldSkipAnalysis(view.url) {
        SetState(Idle);
        return;
      }
      DetectAndExtract(detector, extractor, view, page, now);
    }

    /** The part of `analyzeCurrentPage()` after the throttle and the skip
        test: detecting, then ready and extracted for a legal document, idle
        otherwise. */
    method DetectAndExtract(detector: PageDetector, extractor: TextExtractor, view: DetectorPage, page: Page,
                            now: nat)
      requires Valid() && detector.Valid() && extractor.Valid()
      modifies this, detector, extractor
      ensures Valid() && detector.Valid() && extractor.Valid()
      ensures isInitialized == old(isInitialized) && lastAnalysisTime == old(lastAnalysisTime)
      ensures var analysis := Detected(old(detector.detectionCache), view, now);
        pageAnalysis == Some(analysis)
        && currentState == (if analysis.IsLegalDocument() then Ready else Idle)
        && stateLog == old(stateLog) + StateChange(old(currentState), Detecting) + StateChange(Detecting, currentState)
        && textExtraction == (if analysis.IsLegalDocument()
                              then Some(Extracted(old(extractor.extractionCache), page, now))
                              else old(textExtraction))
    {
      SetState(Detecting);
      var analysis := detector.AnalyzePage(view, now);
      pageAnalysis := Some(analysis);
      Settle(extractor, analysis, page, now);
    }

    /** The end of `analyzeCurrentPage()` once `analysis` is held: ready and
        extracted for a legal document, idle otherwise. */
    method Settle(extractor: TextExtractor, analysis: AnalysisResult, page: Page, now: nat)
      requires Valid() && extractor.Valid() && pageAnalysis == Some(analysis)
      modifies this, extractor
      ensures Valid() && extractor.Valid()
      ensures isInitialized == old(isInitialized) && lastAnalysisTime == old(lastAnalysisTime)
      ensures pageAnalysis == old(pageAnalysis)
      ensures currentState == (if analysis.IsLegalDocument() then Ready else Idle)
      ensures stateLog == old(stateLog) + StateChange(old(currentState), currentState)
      ensures textExtraction == (if analysis.IsLegalDocument()
                                 then Some(Extracted(old(extractor.extractionCache), page, now))
                                 else old(textExtraction))
      ensures !analysis.IsLegalDocument() ==> unchanged(extractor)
    {
      if analysis.IsLegalDocument() {
        SetState(Ready);
        var extraction := extractor.ExtractPageText(page, DefaultOptions, now);
        textExtraction := Some(extraction);
      } else {
        SetState(Idle);
      }
    }

    /** `extractText()`: extracts the page again and becomes ready.  The
        extractor never answers with nothing, so the `error` branch is never
        taken and the answer always reports success. */
    method ExtractText(extractor: TextExtractor, page: Page, now: nat) returns (data: ExtractionResult)
      requires Valid() && extractor.Valid()
      modifies this, extractor
      ensures Valid() && extractor.Valid()
      ensures data == Extracted(old(extractor.extractionCache), page, now)
      ensures textExtraction == Some(data) && currentState == Ready
      ensures stateLog == old(stateLog) + StateChange(old(currentState), Processing) + StateChange(Processing, Ready)
      ensures pageAnalysis == old(pageAnalysis) && lastAnalysisTime == old(lastAnalysisTime)
    {
      SetState(Processing);
      data := extractor.ExtractPageText(page, DefaultOptions, now);
      textExtraction := Some(data);
      SetState(Ready);
    }

    /** `getStatus()`, with the page's URL and the clock as inputs: the
        verdict, type and confidence of the analysis and the counts of the
        extraction, each false, null or zero when there is nothing to read
        it from. */
    function GetStatus(url: string, now: nat): (s: Status)
      reads this
      ensures s.state == currentState && s.url == url && s.timestamp == now
      ensures s.hasExtraction <==> textExtraction.Some?
      ensures (pageAnalysis.None? || pageAnalysis.value.AnalysisFailed?) ==>
        !s.isLegalDocument && s.documentType == None && s.confidence == 0
      ensures (textExtraction.None? || textExtraction.value.Failure?) ==> s.wordCount == 0 && s.chunkCount == 0
      ensures Valid() ==> (s.isLegalDocument <==> IsLegal(s.confidence)) && s.confidence <= 10
    {
      var (isLegal, documentType, confidence) :=
        match pageAnalysis
        case Some(Analyzed(a)) => (a.isLegalDocument, a.documentType, a.confidence)
        case _ => (false, None, 0);
      var (wordCount, chunkCount) :=
        match textExtraction
        case Some(Success(e)) => (e.metadata.wordCount, |e.content.chunks|)
        case _ => (0, 0);
      Status(currentState, isLegal, documentType, confidence, textExtraction.Some?, wordCount, chunkCount, url, now)
    }

    /** `getContentChunks()` as written: a failed extraction has no
        `content`, so reading its chunks raises a `TypeError`, which the
        message handler reports as an error answer. */
    function GetContentChunksAsWritten(): (r: Result<seq<Chunk>>)
      reads this
      ensures r.Err? <==> textExtraction.Some? && textExtraction.value.Failure?
      ensures textExtraction.None? ==> r == Ok([])
    {
      match textExtraction
      case None => Ok([])
      case Some(Failure(_, _)) => Err(MissingContentError)
      case Some(Success(e)) => Ok(e.content.chunks)
    }

    /** `getContentChunks()` as its guard intends: no chunks unless there
        is a successful extraction, whose chunks are the answer. */
    function GetContentChunks(): (chunks: seq<Chunk>)
      reads this
      ensures textExtraction.None? || textExtraction.value.Failure? ==> chunks == []
      ensures textExtraction.Some? && textExtraction.value.Success? ==>
        chunks == textExtraction.value.extraction.content.chunks
    {
      match textExtraction
      case Some(Success(e)) => e.content.chunks
      case _ => []
    }

    /** The chunk count of the status is the number of chunks the script
        hands out. */
    lemma StatusCountsChunks(url: string, now: nat)
      ensures GetStatus(url, now).chunkCount == |GetContentChunks()|
    {
    }

    /** The intended answer differs from the written one only where the
        written one faults. */
    lemma ChunksAgreeUnlessFailed()
      ensures GetContentChunksAsWritten().Ok? ==> GetContentChunksAsWritten().value == GetContentChunks()
      ensures GetContentChunksAsWritten().Err? ==> GetContentChunks() == []
    {
    }
  }

  /** A failed extraction is reachable: a page whose URL marks it as a
      legal document but whose text is too short is found legal, so it is
      extracted, and the extraction fails.  The written chunk request then
      faults on it. */
  lemma ShortLegalPageFailsExtraction(view: DetectorPage, page: Page, now: nat)
    requires IsLegalDocumentURL(view.url) && view.mainText.Some?
    requires |page.rawContent| < MinLength(page.url)
    ensures Analyze(view, now).IsLegalDocument()
    ensures Extract(page, DefaultOptions, now).Failure?
  {
    AnalyzeVerdict(view, now);
    ExtractGate(page, DefaultOptions, now);
  }
}

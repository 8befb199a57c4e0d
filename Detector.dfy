/** `SafeAgreePageDetector` (content/page-detector.js): the four signals
    of `analyzePage`, the confidence they add up to (held in tenths: 4, 3,
    2 and 1), the verdict `confidence >= 0.3`, the document type, the
    content and structure predicates, and the detection cache.  What the
    DOM yields (the main content element's text, the heading texts, whether
    a table-of-contents element exists, the date the date patterns find)
    and the clock are inputs. */
module Detector {
  import opened Wrappers
  import opened Text
  import opened Patterns
  import opened Constants
  import opened Helpers

  /** The document types the detector reports. */
  datatype DocumentType =
    | PrivacyPolicy | TermsOfService | CookiePolicy | Eula | LegalNotice | UserAgreement | LegalDocument
  {
    function Name(): string {
      match this
      case PrivacyPolicy => "privacy_policy"
      case TermsOfService => "terms_of_service"
      case CookiePolicy => "cookie_policy"
      case Eula => "eula"
      case LegalNotice => "legal_notice"
      case UserAgreement => "user_agreement"
      case LegalDocument => "legal_document"
    }
  }

  // ---------------------------------------------------------------------
  // getDocumentTypeFromURL, getDocumentTypeFromTitle

  /** `getDocumentTypeFromURL(url)`: the first word of privacy, terms,
      cookie, eula, legal found in the lowercased URL. */
  function DocumentTypeFromURL(url: string): (t: DocumentType)
    ensures t != UserAgreement
    ensures t == LegalDocument <==>
      !Contains(Lower(url), "privacy") && !Contains(Lower(url), "terms") && !Contains(Lower(url), "cookie")
      && !Contains(Lower(url), "eula") && !Contains(Lower(url), "legal")
  {
    var u := Lower(url);
    if Contains(u, "privacy") then PrivacyPolicy
    else if Contains(u, "terms") then TermsOfService
    else if Contains(u, "cookie") then CookiePolicy
    else if Contains(u, "eula") then Eula
    else if Contains(u, "legal") then LegalNotice
    else LegalDocument
  }

  /** `getDocumentTypeFromTitle(title)`: the first of the privacy, terms,
      cookie, user-agreement and end-user-license title patterns that
      matches. */
  function DocumentTypeFromTitle(title: string): (t: DocumentType)
    ensures t != LegalNotice
  {
    if TestRegex(PrivacyPolicyTitle, title) then PrivacyPolicy
    else if TestRegex(TermsOfServiceTitle, title) then TermsOfService
    else if TestRegex(CookiePolicyTitle, title) then CookiePolicy
    else if TestRegex(UserAgreementTitle, title) then UserAgreement
    else if TestRegex(EndUserLicenseTitle, title) then Eula
    else LegalDocument
  }

  /** The title type and the title test agree: every title that gets a
      type of its own passes `isLegalDocumentTitle`, and a title that passes
      it without a type of its own matched the acceptable-use or the
      legal-notice pattern. */
  lemma {:induction false} TitleTypeAndTitleTest(title: string)
    ensures DocumentTypeFromTitle(title) != LegalDocument ==> IsLegalDocumentTitle(title)
    ensures IsLegalDocumentTitle(title) && DocumentTypeFromTitle(title) == LegalDocument ==>
      TestRegex(TitlePatterns[5], title) || TestRegex(TitlePatterns[6], title)
  {
    if DocumentTypeFromTitle(title) != LegalDocument {
      var k: nat :=
        if TestRegex(PrivacyPolicyTitle, title) then 1
        else if TestRegex(TermsOfServiceTitle, title) then 0
        else if TestRegex(CookiePolicyTitle, title) then 2
        else if TestRegex(UserAgreementTitle, title) then 3
        else 4;
      var words := ["terms", "privacy", "cookie", "user", "end"];
      assert TestRegex(TitlePatterns[k], title);
      OpeningWordNeedsText(TitlePatterns[k], words[k], title);
    }
    if IsLegalDocumentTitle(title) && DocumentTypeFromTitle(title) == LegalDocument {
      var k :| 0 <= k < |TitlePatterns| && TestRegex(TitlePatterns[k], title);
      assert k == 5 || k == 6;
    }
  }

  /** A regular expression whose alternatives all open with the same
      non-empty word matches only a non-empty text. */
  lemma OpeningWordNeedsText(re: Regex, word: string, s: string)
    requires word != [] && TestRegex(re, s)
    requires forall j :: 0 <= j < |re| ==> |re[j]| > 0 && re[j][0] == Lit(word)
    ensures s != []
  {
    var j :| 0 <= j < |re| && Test(re[j], s);
    assert re[j] == [Lit(word)] + re[j][1..];
    LeadingLiteralOccurs(word, re[j][1..], s);
  }

  /** A title whose lowercased text contains `privacy policy` is a legal
      document title and is typed as a privacy policy. */
  lemma PrivacyPolicyTitleIsLegal(title: string, i: nat)
    requires i + 14 <= |title|
    requires Lower(title)[i..i + 14] == "privacy policy"
    ensures IsLegalDocumentTitle(title) && DocumentTypeFromTitle(title) == PrivacyPolicy
  {
    PrivacyTitleMatches(Lower(title), i);
    assert Test(PrivacyPolicyTitle[0], title);
    assert TestRegex(PrivacyPolicyTitle, title);
    TitleTypeAndTitleTest(title);
  }

  lemma PrivacyTitleMatches(t: string, i: nat)
    requires i + 14 <= |t| && t[i..i + 14] == "privacy policy"
    ensures MatchesAt(PrivacyPolicyTitle[0], t, i)
  {
    var w := t[i..i + 14];
    var tail: Pattern := [Spaces, Lit("policy")];
    assert OccursAt(t, "privacy", i) by { assert t[i..i + 7] == w[..7]; }
    assert OccursAt(t, "policy", i + 8) by { assert t[i + 8..i + 14] == w[8..]; }
    assert IsSpace(t[i + 7]) by { assert t[i + 7] == w[7] == ' '; }
    OpeningLiteral("policy", [], t, i + 8);
    assert [Lit("policy")] + [] == tail[1..];
    assert SpacesThen(tail[1..], t, i + 7);
    assert MatchesAt(tail, t, i + 7);
    OpeningLiteral("privacy", tail, t, i);
    assert PrivacyPolicyTitle[0] == [Lit("privacy")] + tail;
  }

  lemma OccursLater(t: string, w: string, i: nat, k: nat)
    requires OccursAt(t, w, i) && k <= |w|
    ensures OccursAt(t, w[k..], i + k)
  {
    assert t[i + k..i + |w|] == t[i..i + |w|][k..];
  }

  /** A URL that is legal by the `/privacy[-_]?policy` pattern is typed as
      a privacy policy, whatever else it contains. */
  lemma PrivacyUrlIsPrivacyPolicy(url: string)
    requires Test(UrlPatterns[1][0], url)
    ensures DocumentTypeFromURL(url) == PrivacyPolicy
  {
    assert UrlPatterns[1][0] == [Lit("/privacy")] + [OptSep(), Lit("policy")];
    LeadingLiteralOccurs("/privacy", [OptSep(), Lit("policy")], url);
    var i :| 0 <= i <= |Lower(url)| - 8 && OccursAt(Lower(url), "/privacy", i);
    OccursLater(Lower(url), "/privacy", i, 1);
    assert "/privacy"[1..] == "privacy";
  }

  /** A URL that is legal by the `/terms…` pattern and does not mention
      privacy is typed as terms of service. */
  lemma TermsUrlIsTermsOfService(url: string)
    requires Test(UrlPatterns[0][0], url) && !Contains(Lower(url), "privacy")
    ensures DocumentTypeFromURL(url) == TermsOfService
  {
    var rest := [OptSep(), OneOf(["", "of", "of-", "of_"]), OneOf(["service", "use"])];
    assert UrlPatterns[0][0] == [Lit("/terms")] + rest;
    LeadingLiteralOccurs("/terms", rest, url);
    var i :| 0 <= i <= |Lower(url)| - 6 && OccursAt(Lower(url), "/terms", i);
    OccursLater(Lower(url), "/terms", i, 1);
    assert "/terms"[1..] == "terms";
  }

  // ---------------------------------------------------------------------
  // analyzePageContent

  /** The phrases `analyzePageContent` looks for. */
  const LegalPhrases: seq<string> := [
    "binding agreement",
    "intellectual property",
    "limitation of liability",
    "governing law",
    "dispute resolution",
    "data processing",
    "personal information",
    "collect information",
    "third parties",
    "your rights"
  ]

  datatype ContentAnalysis = ContentAnalysis(hasLegalIndicators: bool, wordCount: nat, foundLegalPhrases: nat)

  /** `analyzePageContent()` over the sanitized main text. */
  function AnalyzeContent(text: string): (r: ContentAnalysis)
    ensures r.foundLegalPhrases <= |LegalPhrases|
    ensures r.wordCount >= 1
    ensures HasLegalDocumentIndicators(text) ==> r.hasLegalIndicators
    ensures r.foundLegalPhrases >= 3 ==> r.hasLegalIndicators
  {
    var found := CountFound(LegalPhrases, Lower(text));
    ContentAnalysis(HasLegalDocumentIndicators(text) || found >= 3, |SplitRuns(text, IsSpace)|, found)
  }

  /** The content signal, stated without the helper's redundant length
      test: enough content indicators for the text's length, or three of
      the ten legal phrases; below 100 characters only the phrases count. */
  lemma ContentSignal(text: string)
    ensures AnalyzeContent(text).hasLegalIndicators <==>
      (|text| >= 100 && IndicatorCount(text) >= (if |text| > 2000 then 4 else 2))
      || CountFound(LegalPhrases, Lower(text)) >= 3
    ensures |text| < 100 ==>
      (AnalyzeContent(text).hasLegalIndicators <==> CountFound(LegalPhrases, Lower(text)) >= 3)
  {
    IndicatorsThreshold(text);
  }

  // ---------------------------------------------------------------------
  // analyzePageStructure

  /** `/^\s*\d+\./`: optional white space, digits, then a dot. */
  predicate NumberedHeading(s: string) {
    var t := DropWhile(s, IsSpace);
    var d := DropWhile(t, IsDigit);
    |d| < |t| && d != [] && d[0] == '.'
  }

  /** The patterns of legal section headings. */
  const LegalSectionPatterns: seq<Regex> := [
    [[Lit("acceptance"), Spaces, Lit("of"), Spaces, Lit("terms")]],
    [[Lit("use"), Spaces, Lit("of"), Spaces, Lit("service")]],
    [[Lit("user"), Spaces, Lit("conduct")]],
    [[Lit("intellectual"), Spaces, Lit("property")]],
    [[Lit("privacy"), Spaces, Lit("and"), Spaces, Lit("data")]],
    [[Lit("termination")]],
    [[Lit("disclaimer")]],
    [[Lit("limitation"), Spaces, Lit("of"), Spaces, Lit("liability")]],
    [[Lit("governing"), Spaces, Lit("law")]]
  ]

  predicate LegalSectionHeading(s: string) {
    AnyMatches(LegalSectionPatterns, s)
  }

  /** How many of the texts are numbered headings. */
  function CountNumbered(texts: seq<string>): (n: nat)
    ensures n <= |texts|
  {
    if texts == [] then 0 else (if NumberedHeading(texts[0]) then 1 else 0) + CountNumbered(texts[1..])
  }

  /** How many of the texts are legal section headings. */
  function CountLegalSections(texts: seq<string>): (n: nat)
    ensures n <= |texts|
  {
    if texts == [] then 0 else (if LegalSectionHeading(texts[0]) then 1 else 0) + CountLegalSections(texts[1..])
  }

  datatype StructuralAnalysis = StructuralAnalysis(
    isLegalStructure: bool,
    sectionCount: nat,
    hasTableOfContents: bool,
    numberedSections: nat,
    legalSections: nat)

  /** `analyzePageStructure()` over the heading texts and the
      table-of-contents probe. */
  function AnalyzeStructure(headingTexts: seq<string>, hasToc: bool): (r: StructuralAnalysis)
    ensures r.sectionCount == |headingTexts| && r.hasTableOfContents == hasToc
    ensures r.numberedSections <= r.sectionCount && r.legalSections <= r.sectionCount
    ensures r.isLegalStructure ==> r.sectionCount >= 5
  {
    var numbered := CountNumbered(headingTexts);
    var legal := CountLegalSections(headingTexts);
    StructuralAnalysis(|headingTexts| >= 5 && (numbered >= 3 || legal >= 2 || hasToc),
                       |headingTexts|, hasToc, numbered, legal)
  }

  lemma {:induction false} AllNumbered(texts: seq<string>)
    requires forall k :: 0 <= k < |texts| ==> NumberedHeading(texts[k])
    ensures CountNumbered(texts) == |texts|
  {
    if texts != [] {
      AllNumbered(texts[1..]);
    }
  }

  /** Five or more headings with a table of contents, or with every
      heading numbered, make a legal structure; fewer than five never
      do. */
  lemma StructureSignal(headingTexts: seq<string>, hasToc: bool)
    ensures |headingTexts| >= 5 && hasToc ==> AnalyzeStructure(headingTexts, hasToc).isLegalStructure
    ensures |headingTexts| >= 5 && (forall k :: 0 <= k < |headingTexts| ==> NumberedHeading(headingTexts[k]))
      ==> AnalyzeStructure(headingTexts, hasToc).isLegalStructure
    ensures |headingTexts| < 5 ==> !AnalyzeStructure(headingTexts, hasToc).isLegalStructure
  {
    if forall k :: 0 <= k < |headingTexts| ==> NumberedHeading(headingTexts[k]) {
      AllNumbered(headingTexts);
    }
  }

  // ---------------------------------------------------------------------
  // analyzePage: confidence and verdict

  datatype Signals = Signals(urlMatch: bool, titleMatch: bool, contentMatch: bool, structuralMatch: bool)

  function Weight(b: bool, w: nat): nat { if b then w else 0 }

  /** The confidence in tenths: 0.4 for the URL, 0.3 for the title, 0.2
      for the content and 0.1 for the structure. */
  function Confidence(s: Signals): (c: nat)
    ensures c <= 10
    ensures c == 0 <==> !s.urlMatch && !s.titleMatch && !s.contentMatch && !s.structuralMatch
  {
    Weight(s.urlMatch, 4) + Weight(s.titleMatch, 3) + Weight(s.contentMatch, 2) + Weight(s.structuralMatch, 1)
  }

  /** `confidence >= 0.3` */
  predicate IsLegal(confidence: nat) { confidence >= 3 }

  /** The verdict: a URL or title match alone is enough, content and
      structure are enough together, and neither is enough alone. */
  lemma Verdict(s: Signals)
    ensures IsLegal(Confidence(s)) <==> s.urlMatch || s.titleMatch || (s.contentMatch && s.structuralMatch)
    ensures !s.urlMatch && !s.titleMatch && !(s.contentMatch && s.structuralMatch) ==> Confidence(s) <= 2
  {
  }

  predicate SignalsLe(a: Signals, b: Signals) {
    (a.urlMatch ==> b.urlMatch) && (a.titleMatch ==> b.titleMatch)
    && (a.contentMatch ==> b.contentMatch) && (a.structuralMatch ==> b.structuralMatch)
  }

  /** Adding signals never lowers the confidence, so never turns a
      positive verdict negative. */
  lemma ConfidenceMonotone(a: Signals, b: Signals)
    requires SignalsLe(a, b)
    ensures Confidence(a) <= Confidence(b)
    ensures IsLegal(Confidence(a)) ==> IsLegal(Confidence(b))
  {
  }

  /** The document type: from the URL when it matches; else from the title
      when it matches; else none. */
  function DocumentTypeOf(s: Signals, url: string, title: string): (t: Option<DocumentType>)
    ensures t.None? <==> !s.urlMatch && !s.titleMatch
    ensures s.urlMatch ==> t == Some(DocumentTypeFromURL(url))
    ensures !s.urlMatch && s.titleMatch ==> t == Some(DocumentTypeFromTitle(title))
  {
    if s.urlMatch then Some(DocumentTypeFromURL(url))
    else if s.titleMatch then Some(DocumentTypeFromTitle(title))
    else None
  }

  /** A page as the detector sees it.  `mainText` is the text of the first
      main-content element or of the body, `None` when the page has
      neither. */
  datatype DetectorPage = DetectorPage(
    url: string,
    title: string,
    domain: string,
    mainText: Option<string>,
    headingTexts: seq<string>,
    hasTableOfContents: bool,
    lastUpdated: Option<string>)

  datatype AnalysisMetadata = AnalysisMetadata(
    wordCount: nat,
    sectionCount: nat,
    hasTableOfContents: bool,
    lastUpdated: Option<string>,
    foundLegalPhrases: nat)

  datatype Analysis = Analysis(
    isLegalDocument: bool,
    confidence: nat,
    documentType: Option<DocumentType>,
    url: string,
    title: string,
    domain: string,
    timestamp: nat,
    indicators: Signals,
    metadata: AnalysisMetadata)

  /** What `analyzePage` returns: an analysis, or the error object of its
      `catch`. */
  datatype AnalysisResult =
    | Analyzed(analysis: Analysis)
    | AnalysisFailed(error: string, timestamp: nat)
  {
    /** `result.isLegalDocument` */
    predicate IsLegalDocument() {
      match this
      case Analyzed(a) => a.isLegalDocument
      case AnalysisFailed(_, _) => false
    }

    /** `result.confidence`, in tenths */
    function ConfidenceTenths(): nat {
      match this
      case Analyzed(a) => a.confidence
      case AnalysisFailed(_, _) => 0
    }
  }

  /** The message of the `TypeError` raised by reading `textContent` of a
      missing body. */
  const NullBodyError: string := "Cannot read properties of null (reading 'textContent')"

  /** `${domain}_${title}` */
  function DetectionKey(domain: string, title: string): string {
    domain + "_" + title
  }

  /** The analysis of a page with signals `s`, whose body text gave
      `content` and whose headings gave `structure`. */
  function AnalysisOf(page: DetectorPage, now: nat, s: Signals, content: ContentAnalysis,
                      structure: StructuralAnalysis): (a: Analysis)
    ensures a.indicators == s
    ensures a.isLegalDocument == IsLegal(a.confidence)
    ensures a.confidence == Confidence(s)
    ensures a.documentType == DocumentTypeOf(s, page.url, page.title)
  {
    var confidence := Confidence(s);
    Analysis(IsLegal(confidence), confidence, DocumentTypeOf(s, page.url, page.title),
             page.url, page.title, page.domain, now, s,
             AnalysisMetadata(content.wordCount, structure.sectionCount, structure.hasTableOfContents,
                              page.lastUpdated, content.foundLegalPhrases))
  }

  /** An analysis whose verdict is the `>= 0.3` test of its confidence and
      whose confidence is the weighted sum of its signals. */
  predicate Consistent(a: Analysis) {
    a.isLegalDocument == IsLegal(a.confidence) && a.confidence == Confidence(a.indicators)
  }

  /** What a cache miss of `analyzePage()` returns at time `now`. */
  function Analyze(page: DetectorPage, now: nat): (r: AnalysisResult)
    ensures r.Analyzed? <==> page.mainText.Some?
    ensures r.Analyzed? ==>
      (Consistent(r.analysis)
       && r.analysis.documentType == DocumentTypeOf(r.analysis.indicators, page.url, page.title))
  {
    match page.mainText
    case None => AnalysisFailed(NullBodyError, now)
    case Some(raw) =>
      var content := AnalyzeContent(SanitizeText(raw));
      var structure := AnalyzeStructure(page.headingTexts, page.hasTableOfContents);
      var signals := Signals(IsLegalDocumentURL(page.url), IsLegalDocumentTitle(page.title),
                             content.hasLegalIndicators, structure.isLegalStructure);
      Analyzed(AnalysisOf(page, now, signals, content, structure))
  }

  /** A page whose URL is a legal-document URL is a legal document, typed
      from its URL; an error result is never a legal document and has
      confidence 0. */
  lemma AnalyzeVerdict(page: DetectorPage, now: nat)
    ensures var r := Analyze(page, now);
      r.Analyzed? && IsLegalDocumentURL(page.url) ==>
        r.IsLegalDocument() && r.analysis.documentType == Some(DocumentTypeFromURL(page.url))
    ensures var r := Analyze(page, now);
      r.Analyzed? && IsLegalDocumentTitle(page.title) ==> r.IsLegalDocument()
    ensures var r := Analyze(page, now);
      r.AnalysisFailed? ==> !r.IsLegalDocument() && r.ConfidenceTenths() == 0
  {
  }

  /** The part of `analyzePage` that reads only the URL and the title:
      their two signals, the confidence they give and the document type. */
  method ScoreUrlAndTitle(url: string, title: string)
    returns (urlMatch: bool, titleMatch: bool, confidence: nat, documentType: Option<DocumentType>)
    ensures urlMatch == IsLegalDocumentURL(url) && titleMatch == IsLegalDocumentTitle(title)
    ensures confidence == Weight(urlMatch, 4) + Weight(titleMatch, 3)
    ensures documentType == DocumentTypeOf(Signals(urlMatch, titleMatch, false, false), url, title)
  {
    confidence := 0;
    documentType := None;
    urlMatch := IsLegalDocumentURL(url);
    if urlMatch {
      confidence := confidence + 4;
      documentType := Some(DocumentTypeFromURL(url));
    }
    titleMatch := IsLegalDocumentTitle(title);
    if titleMatch {
      confidence := confidence + 3;
      if documentType.None? {
        documentType := Some(DocumentTypeFromTitle(title));
      }
    }
  }

  /** The confidence raised by the URL and title weights and then by the
      content and structure weights is the confidence of the signals. */
  lemma ConfidenceBySteps(s: Signals, c0: nat, c: nat)
    requires c0 == Weight(s.urlMatch, 4) + Weight(s.titleMatch, 3)
    requires c == c0 + Weight(s.contentMatch, 2) + Weight(s.structuralMatch, 1)
    ensures c == Confidence(s)
  {
  }

  /** The part of `analyzePage` that raises the confidence for the
      content and structure signals. */
  method ScoreContentAndStructure(confidence: nat, contentMatch: bool, structuralMatch: bool) returns (c: nat)
    ensures c == confidence + Weight(contentMatch, 2) + Weight(structuralMatch, 1)
  {
    c := confidence;
    if contentMatch {
      c := c + 2;
    }
    if structuralMatch {
      c := c + 1;
    }
  }

  /** The body of `analyzePage` after the cache lookup: the confidence is
      raised signal by signal, the document type is taken from the URL or
      else the title, and a missing body ends in the error result. */
  method ComputeAnalysis(page: DetectorPage, now: nat) returns (r: AnalysisResult)
    ensures r == Analyze(page, now)
  {
    var urlMatch, titleMatch, urlTitleConfidence, documentType := ScoreUrlAndTitle(page.url, page.title);
    match page.mainText
    case None =>
      r := AnalysisFailed(NullBodyError, now);
    case Some(raw) =>
      var content := AnalyzeContent(SanitizeText(raw));
      var structure := AnalyzeStructure(page.headingTexts, page.hasTableOfContents);
      var confidence := ScoreContentAndStructure(urlTitleConfidence, content.hasLegalIndicators,
                                                 structure.isLegalStructure);
      var signals := Signals(urlMatch, titleMatch, content.hasLegalIndicators, structure.isLegalStructure);
      ConfidenceBySteps(signals, urlTitleConfidence, confidence);
      var analysis := Analysis(confidence >= 3, confidence, documentType, page.url, page.title, page.domain, now,
                               signals,
                               AnalysisMetadata(content.wordCount, structure.sectionCount,
                                                structure.hasTableOfContents, page.lastUpdated,
                                                content.foundLegalPhrases));
      AnalysisOfFields(page, now, signals, content, structure, analysis);
      AnalyzeBody(page, now, raw);
      r := Analyzed(analysis);
  }

  /** `Analyze` on a page with a body. */
  lemma AnalyzeBody(page: DetectorPage, now: nat, raw: string)
    requires page.mainText == Some(raw)
    ensures var content := AnalyzeContent(SanitizeText(raw));
      var structure := AnalyzeStructure(page.headingTexts, page.hasTableOfContents);
      Analyze(page, now) == Analyzed(AnalysisOf(page, now,
        Signals(IsLegalDocumentURL(page.url), IsLegalDocumentTitle(page.title),
                content.hasLegalIndicators, structure.isLegalStructure), content, structure))
  {
  }

  /** An analysis built field by field is `AnalysisOf` when its confidence
      and document type are those of its signals. */
  lemma AnalysisOfFields(page: DetectorPage, now: nat, s: Signals, content: ContentAnalysis,
                         structure: StructuralAnalysis, a: Analysis)
    requires a.confidence == Confidence(s) && a.isLegalDocument == (a.confidence >= 3)
    requires a.documentType == DocumentTypeOf(Signals(s.urlMatch, s.titleMatch, false, false), page.url, page.title)
    requires a.url == page.url && a.title == page.title && a.domain == page.domain && a.timestamp == now
    requires a.indicators == s
    requires a.metadata == AnalysisMetadata(content.wordCount, structure.sectionCount, structure.hasTableOfContents,
                                            page.lastUpdated, content.foundLegalPhrases)
    ensures a == AnalysisOf(page, now, s, content, structure)
  {
  }

  // ---------------------------------------------------------------------
  // The detector object

  class PageDetector {
    var isInitialized: bool
    var detectionCache: map<string, Analysis>
    var lastAnalysis: Option<Analysis>

    /** The last analysis is a cached one, there is one exactly when the
        cache is not empty, and every cached verdict agrees with its
        confidence and signals. */
    ghost predicate Valid()
      reads this
    {
      (lastAnalysis.Some? ==> lastAnalysis.value in detectionCache.Values)
      && (lastAnalysis.None? <==> detectionCache == map[])
      && (forall key :: key in detectionCache ==> Consistent(detectionCache[key]))
    }

    constructor()
      ensures Valid()
      ensures !isInitialized && detectionCache == map[] && lastAnalysis == None
    {
      isInitialized := false;
      detectionCache := map[];
      lastAnalysis := None;
    }

    /** `init()` */
    method Init()
      modifies this
      ensures isInitialized
      ensures detectionCache == old(detectionCache) && lastAnalysis == old(lastAnalysis)
    {
      if isInitialized {
        return;
      }
      isInitialized := true;
    }

    /** `analyzePage()` on `page` at time `now`.  A cached key returns the
        stored analysis and changes nothing; otherwise the analysis is
        computed signal by signal, and only a result without error is
        stored and becomes the last analysis. */
    method AnalyzePage(page: DetectorPage, now: nat) returns (r: AnalysisResult)
      requires Valid()
      modifies this
      ensures Valid()
      ensures isInitialized == old(isInitialized)
      ensures r.Analyzed? ==> Consistent(r.analysis)
      ensures var key := DetectionKey(page.domain, page.title);
        if key in old(detectionCache) then
          r == Analyzed(old(detectionCache)[key])
          && detectionCache == old(detectionCache) && lastAnalysis == old(lastAnalysis)
        else
          r == Analyze(page, now)
          && (r.Analyzed? ==> detectionCache == old(detectionCache)[key := r.analysis]
                              && lastAnalysis == Some(r.analysis))
          && (r.AnalysisFailed? ==> detectionCache == old(detectionCache) && lastAnalysis == old(lastAnalysis))
    {
      var cacheKey := DetectionKey(page.domain, page.title);
      if cacheKey in detectionCache {
        return Analyzed(detectionCache[cacheKey]);
      }
      r := ComputeAnalysis(page, now);
      if r.Analyzed? {
        Store(cacheKey, r.analysis);
      }
    }

    /** `detectionCache.set(cacheKey, analysis); lastAnalysis = analysis` */
    method Store(key: string, analysis: Analysis)
      requires Valid() && Consistent(analysis)
      modifies this
      ensures Valid()
      ensures detectionCache == old(detectionCache)[key := analysis] && lastAnalysis == Some(analysis)
      ensures isInitialized == old(isInitialized)
    {
      detectionCache := detectionCache[key := analysis];
      lastAnalysis := Some(analysis);
      assert detectionCache[key] == analysis;
    }

    /** `isCurrentPageLegalDocument()`: analyses the page only when there is
        no last analysis, then reports the last analysis' verdict, false
        when there is still none. */
    method IsCurrentPageLegalDocument(page: DetectorPage, now: nat) returns (b: bool)
      requires Valid()
      modifies this
      ensures Valid()
      ensures old(lastAnalysis).Some? ==>
        b == old(lastAnalysis).value.isLegalDocument
        && detectionCache == old(detectionCache) && lastAnalysis == old(lastAnalysis)
      ensures old(lastAnalysis).None? ==>
        var r := Analyze(page, now);
        b == r.IsLegalDocument()
        && (r.Analyzed? ==> detectionCache == map[DetectionKey(page.domain, page.title) := r.analysis]
                            && lastAnalysis == Some(r.analysis))
        && (r.AnalysisFailed? ==> detectionCache == map[] && lastAnalysis == None)
      ensures isInitialized == old(isInitialized)
    {
      if lastAnalysis.None? {
        var _ := AnalyzePage(page, now);
      }
      b := lastAnalysis.Some? && lastAnalysis.value.isLegalDocument;
    }

    /** `getLastAnalysis()` */
    method GetLastAnalysis() returns (r: Option<Analysis>)
      requires Valid()
      ensures r == lastAnalysis
      ensures r.Some? ==> r.value in detectionCache.Values
    {
      r := lastAnalysis;
    }

    /** `clearCache()` */
    method ClearCache()
      modifies this
      ensures Valid()
      ensures detectionCache == map[] && lastAnalysis == None
      ensures isInitialized == old(isInitialized)
    {
      detectionCache := map[];
      lastAnalysis := None;
    }
  }

  /** The cache is keyed by domain and title, not by URL: a second page of
      the same site with the same title gets the first page's analysis,
      whatever its own URL, content and structure. */
  method SameTitleSameAnalysis(detector: PageDetector, first: DetectorPage, second: DetectorPage, now1: nat, now2: nat)
    returns (r1: AnalysisResult, r2: AnalysisResult)
    requires detector.Valid()
    requires first.domain == second.domain && first.title == second.title
    modifies detector
    ensures r1.Analyzed? ==> r2 == r1
    ensures detector.Valid()
  {
    r1 := detector.AnalyzePage(first, now1);
    r2 := detector.AnalyzePage(second, now2);
  }
}

/** The configuration object `SAFEAGREE_CONSTANTS` (utils/constants.js):
    sizes for text processing, the legal-document pattern tables, the
    noise patterns with their flags and the UI states. */
module Constants {
  import opened Text
  import opened Patterns

  // TEXT_PROCESSING
  const MinChunkSize: nat := 200
  const MaxChunkSize: nat := 1000
  const OverlapSize: nat := 100
  const MinDocumentLength: nat := 500
  const MaxDocumentLength: nat := 100000

  /** The minimum raw-text length the extractor accepts on a local or test
      page. */
  const MinTestDocumentLength: nat := 100

  /** LEGAL_DOC_PATTERNS.URL_PATTERNS, in order. */
  const UrlPatterns: seq<Regex> := [
    [[Lit("/terms"), OptSep(), OneOf(["", "of", "of-", "of_"]), OneOf(["service", "use"])]],
    [[Lit("/privacy"), OptSep(), Lit("policy")]],
    [[Lit("/cookie"), OptSep(), Lit("policy")]],
    [[Lit("/legal")]],
    [[Lit("/tos"), WordEnd]],
    [[Lit("/eula"), WordEnd]],
    [[Lit("/user"), OptSep(), Lit("agreement")]],
    [[Lit("/acceptable"), OptSep(), Lit("use")]],
    [[Lit("/end"), OptSep(), Lit("user"), OptSep(), Lit("license")]]
  ]

  /** `terms\s+(of\s+)?(service|use)` */
  const TermsOfServiceTitle: Regex := [
    [Lit("terms"), Spaces, Lit("of"), Spaces, OneOf(["service", "use"])],
    [Lit("terms"), Spaces, OneOf(["service", "use"])]
  ]
  const PrivacyPolicyTitle: Regex := [[Lit("privacy"), Spaces, Lit("policy")]]
  const CookiePolicyTitle: Regex := [[Lit("cookie"), Spaces, Lit("policy")]]
  const UserAgreementTitle: Regex := [[Lit("user"), Spaces, Lit("agreement")]]
  const EndUserLicenseTitle: Regex := [[Lit("end"), Spaces, Lit("user"), Spaces, Lit("license")]]

  /** LEGAL_DOC_PATTERNS.TITLE_PATTERNS, in order. */
  const TitlePatterns: seq<Regex> := [
    TermsOfServiceTitle,
    PrivacyPolicyTitle,
    CookiePolicyTitle,
    UserAgreementTitle,
    EndUserLicenseTitle,
    [[Lit("acceptable"), Spaces, Lit("use"), Spaces, Lit("policy")]],
    [[Lit("legal"), Spaces, OneOf(["notice", "disclaimer"])]]
  ]

  /** LEGAL_DOC_PATTERNS.CONTENT_INDICATORS, in order. */
  const ContentIndicators: seq<string> := [
    "by using this service",
    "by accessing this website",
    "these terms of service",
    "this privacy policy",
    "personal information",
    "data collection",
    "we collect",
    "your rights",
    "binding agreement",
    "legal obligations"
  ]

  /** An entry of TEXT_PROCESSING.NOISE_PATTERNS: its source text and whether
      it carries the `g` flag. */
  datatype NoisePattern = NoisePattern(source: string, global: bool)

  const NoisePatterns: seq<NoisePattern> := [
    NoisePattern("^\\s*\\d+\\.\\s*", false),
    NoisePattern("^\\s*[a-z]\\)\\s*", false),
    NoisePattern("^\\s*\U{E2}\U{20AC}\U{A2}\\s*", false),
    NoisePattern("\\s+", true)
  ]

  /** UI_CONFIG.STATES */
  datatype State = Idle | Detecting | Processing | Ready | Error {
    function Name(): string {
      match this
      case Idle => "idle"
      case Detecting => "detecting"
      case Processing => "processing"
      case Ready => "ready"
      case Error => "error"
    }
  }

  const States: seq<State> := [Idle, Detecting, Processing, Ready, Error]

  /** The chunk sizes are consistent.  The overlap is below the maximum
      chunk size, which is what `chunkText` needs to make progress and what
      `chunkContent` relies on for the configured sizes. */
  lemma ChunkSizesConsistent()
    ensures OverlapSize < MinChunkSize <= MaxChunkSize
    ensures MinDocumentLength < MaxDocumentLength
    ensures MinTestDocumentLength < MinDocumentLength
  {
  }

  /** Only the last noise pattern, `\s+`, is global, so it is the only one
      the cleaner applies. */
  lemma OnlyWhitespaceNoiseIsGlobal()
    ensures forall k :: 0 <= k < |NoisePatterns| ==>
      (NoisePatterns[k].global <==> k == |NoisePatterns| - 1)
    ensures NoisePatterns[|NoisePatterns| - 1].source == "\\s+"
  {
  }

  /** The content indicators are ten distinct phrases, so at most ten
      can be found in any text. */
  lemma ContentIndicatorsDistinct()
    ensures |ContentIndicators| == 10
    ensures forall i, j :: 0 <= i < j < |ContentIndicators| ==> ContentIndicators[i] != ContentIndicators[j]
  {
  }

  /** The five UI states have five distinct names. */
  lemma StateNamesDistinct()
    ensures |States| == 5
    ensures forall i, j :: 0 <= i < j < |States| ==> States[i].Name() != States[j].Name()
    ensures forall s: State :: s in States
  {
    forall s: State ensures s in States {
      match s
      case Idle => assert States[0] == s;
      case Detecting => assert States[1] == s;
      case Processing => assert States[2] == s;
      case Ready => assert States[3] == s;
      case Error => assert States[4] == s;
    }
  }
}

/** The verdict pipeline: lexical score or feed match, then enrichment, AI refinement and OSINT evidence, then
    the group's policy. Later stages only escalate. */
module Verdicts {
  import opened Wrappers

  datatype Verdict = Safe | Suspicious | Malicious

  datatype Result = Result(domain: string, verdict: Verdict, confidence: real, score: int,
                           reasons: seq<string>, category: string)

  function Threshold(score: int): Verdict {
    if score >= 70 then Malicious else if score >= 40 then Suspicious else Safe
  }

  function ScoreConfidence(score: int): real {
    var c := 0.45 + score as real / 120.0;
    if c > 1.0 then 1.0 else c
  }

  // ---- Text in reasons ----

  function Lower(c: char): char {
    if 'A' <= c <= 'Z' then (c as int + 32) as char else c
  }

  predicate OccursAt(text: string, word: string, i: nat) {
    i + |word| <= |text| && forall k :: 0 <= k < |word| ==> text[i + k] == word[k]
  }

  predicate Mentions(text: string, word: string) {
    exists i :: 0 <= i <= |text| && OccursAt(text, word, i)
  }

  function LowerAll(text: string): string {
    seq(|text|, i requires 0 <= i < |text| => Lower(text[i]))
  }

  predicate MentionsPhishing(reason: string) {
    Mentions(LowerAll(reason), "phishing")
  }

  predicate AnyMentionsPhishing(reasons: seq<string>) {
    exists i :: 0 <= i < |reasons| && MentionsPhishing(reasons[i])
  }

  // ---- Lexical analysis ----

  /** The weights of the scoring configuration. */
  datatype Config = Config(punycode: int, longDomain: int, hyphens: int, digits: int, mixedScript: int,
                           keywordBase: int, keywordMatch: int, keywordBonus: int, brand: int, entropy: int)

  const DEFAULT_CONFIG := Config(35, 15, 10, 10, 25, 15, 10, 10, 50, 15)

  /** A brand-spoofing report: its kind and top-level domain fix the penalty. */
  datatype BrandHit = BrandHit(subdomain: bool, riskyTld: bool, reason: string)

  /** What the lexical tests find in a domain, and its category. */
  datatype Signals = Signals(punycode: bool, longDomain: bool, hyphens: bool, digits: bool, mixedScript: bool,
                             keywords: nat, publicService: bool, brand: Option<BrandHit>, entropy: bool,
                             category: string)

  const CLASSIFIED: set<string> := {"social_media", "advertising", "adult", "gambling", "gaming", "uncategorized"}

  const PUBLIC_SERVICE_REASON := "protected Vietnamese public-service keyword abuse (dichvucong)"
  const FEED_REASON := "matched local threat feed"
  const OSINT_REASON := "public warning evidence: official/trusted source reports phishing"

  function KeywordScore(c: Config, keywords: nat): int {
    if keywords == 0 then 0
    else c.keywordBase + keywords * c.keywordMatch + (if keywords >= 2 then c.keywordBonus else 0)
  }

  function BrandPenalty(c: Config, hit: BrandHit): int {
    c.brand - (if hit.subdomain then 10 else 0) + (if hit.riskyTld then 20 else 0)
  }

  function If(test: bool, weight: int): int {
    if test then weight else 0
  }

  function ShapeScore(c: Config, s: Signals): int {
    If(s.punycode, c.punycode) + If(s.longDomain, c.longDomain) + If(s.hyphens, c.hyphens) +
    If(s.digits, c.digits) + If(s.mixedScript, c.mixedScript)
  }

  function RawScore(c: Config, s: Signals): int {
    var words := ShapeScore(c, s) + (if KeywordScore(c, s.keywords) > 0 then KeywordScore(c, s.keywords) else 0);
    var floor := if s.publicService && words < 75 then 75 else words;
    floor + (if s.brand.Some? then BrandPenalty(c, s.brand.value) else 0) + If(s.entropy, c.entropy)
  }

  function LexicalScore(c: Config, s: Signals): int {
    if RawScore(c, s) > 100 then 100 else RawScore(c, s)
  }

  function One(test: bool, reason: string): seq<string> {
    if test then [reason] else []
  }

  function ShapeReasons(s: Signals): seq<string> {
    One(s.punycode, "punycode detected") + One(s.longDomain, "domain is long") + One(s.hyphens, "many hyphens") +
    One(s.digits, "high digit ratio") + One(s.mixedScript, "mixed script characters")
  }

  function LexicalReasons(c: Config, s: Signals): seq<string> {
    ShapeReasons(s) +
    One(KeywordScore(c, s.keywords) > 0, "phishing keyword pattern") +
    One(KeywordScore(c, s.keywords) > 0 && s.keywords >= 2, "multiple phishing keywords") +
    One(s.publicService, PUBLIC_SERVICE_REASON) +
    (if s.brand.Some? then [s.brand.value.reason] else []) +
    One(s.entropy, "high lexical entropy")
  }

  function FinalCategory(category: string, verdict: Verdict, reasons: seq<string>): string {
    if category != "uncategorized" then category
    else match verdict
      case Malicious => if AnyMentionsPhishing(reasons) then "phishing" else "malware"
      case Suspicious => "suspicious"
      case Safe => category
  }

  function Lexical(c: Config, domain: string, s: Signals): Result {
    var score, reasons := LexicalScore(c, s), LexicalReasons(c, s);
    Result(domain, Threshold(score), ScoreConfidence(score), score, reasons,
           FinalCategory(s.category, Threshold(score), reasons))
  }

  /** Analyze: the score and the reasons are accumulated test by test. */
  method Analyze(c: Config, domain: string, s: Signals) returns (result: Result)
    ensures result == Lexical(c, domain, s)
  {
    var score, reasons := Accumulate(c, s);
    if score > 100 {
      score := 100;
    }
    var verdict := Safe;
    if score >= 70 {
      verdict := Malicious;
    } else if score >= 40 {
      verdict := Suspicious;
    }
    var category := Categorize(s.category, verdict, reasons);
    result := Result(domain, verdict, ScoreConfidence(score), score, reasons, category);
  }

  /** One test of the analysis: a hit adds its weight and appends its reason. */
  method Note(hit: bool, weight: int, reason: string, score0: int, reasons0: seq<string>)
      returns (score: int, reasons: seq<string>)
    ensures score == score0 + If(hit, weight) && reasons == reasons0 + One(hit, reason)
  {
    score, reasons := score0, reasons0;
    if hit {
      score := score + weight;
      reasons := reasons + [reason];
    }
  }

  /** The five tests of the domain's shape. */
  method TestShape(c: Config, s: Signals) returns (score: int, reasons: seq<string>)
    ensures score == ShapeScore(c, s) && reasons == ShapeReasons(s)
  {
    score, reasons := 0, [];
    score, reasons := Note(s.punycode, c.punycode, "punycode detected", score, reasons);
    assert reasons == One(s.punycode, "punycode detected");
    score, reasons := Note(s.longDomain, c.longDomain, "domain is long", score, reasons);
    score, reasons := Note(s.hyphens, c.hyphens, "many hyphens", score, reasons);
    score, reasons := Note(s.digits, c.digits, "high digit ratio", score, reasons);
    score, reasons := Note(s.mixedScript, c.mixedScript, "mixed script characters", score, reasons);
  }

  method Accumulate(c: Config, s: Signals) returns (score: int, reasons: seq<string>)
    ensures score == RawScore(c, s) && reasons == LexicalReasons(c, s)
  {
    score, reasons := TestShape(c, s);
    var keywordScore := KeywordScore(c, s.keywords);
    score, reasons := Note(keywordScore > 0, keywordScore, "phishing keyword pattern", score, reasons);
    score, reasons := Note(keywordScore > 0 && s.keywords >= 2, 0, "multiple phishing keywords", score, reasons);
    if s.publicService && score < 75 {
      score := 75;
    }
    score, reasons := Note(s.publicService, 0, PUBLIC_SERVICE_REASON, score, reasons);
    if s.brand.Some? {
      score, reasons := Note(true, BrandPenalty(c, s.brand.value), s.brand.value.reason, score, reasons);
    } else {
      assert reasons == reasons + [];
    }
    score, reasons := Note(s.entropy, c.entropy, "high lexical entropy", score, reasons);
  }

  method Categorize(classified: string, verdict: Verdict, reasons: seq<string>) returns (category: string)
    ensures category == FinalCategory(classified, verdict, reasons)
  {
    category := classified;
    if category == "uncategorized" {
      if verdict == Malicious {
        category := "malware";
        for i := 0 to |reasons|
          invariant category == "malware" && forall k :: 0 <= k < i ==> !MentionsPhishing(reasons[k])
        {
          if MentionsPhishing(reasons[i]) {
            category := "phishing";
            break;
          }
        }
      } else if verdict == Suspicious {
        category := "suspicious";
      }
    }
  }

  // ---- The later stages ----

  function FeedMatch(domain: string): Result {
    Result(domain, Malicious, 1.0, 100, [FEED_REASON], "")
  }

  /** Score and reasons of a TLS or WHOIS inspection; any nonnegative score. */
  datatype Evidence = Evidence(score: nat, reasons: seq<string>)

  /** Enrichment, as the source's in-place update of the result. None: enrichment is switched off. */
  method EnrichSuspicious(evidence: Option<(Evidence, Evidence)>, before: Result) returns (result: Result)
    ensures result == Enriched(evidence, before)
  {
    result := before;
    if evidence.None? {
      return;
    }
    if result.score < 20 || result.score >= 70 {
      return;
    }
    var tls, whois := evidence.value.0, evidence.value.1;
    result := result.(score := result.score + (tls.score + whois.score));
    result := result.(reasons := result.reasons + tls.reasons);
    result := result.(reasons := result.reasons + whois.reasons);
    if result.score > 100 {
      result := result.(score := 100);
    }
    if result.score >= 70 {
      result := result.(verdict := Malicious);
    } else if result.score >= 40 {
      result := result.(verdict := Suspicious);
    } else {
      result := result.(verdict := Safe);
    }
    result := result.(confidence := ScoreConfidence(result.score));
  }

  function Enriched(evidence: Option<(Evidence, Evidence)>, r: Result): Result {
    if evidence.None? || r.score < 20 || r.score >= 70 then r
    else
      var sum := r.score + evidence.value.0.score + evidence.value.1.score;
      var score := if sum > 100 then 100 else sum;
      r.(score := score, verdict := Threshold(score), confidence := ScoreConfidence(score),
         reasons := r.reasons + evidence.value.0.reasons + evidence.value.1.reasons)
  }

  /** An AI answer: a malicious one carries score 85; its confidence is clamped to [0, 1]. */
  datatype AiAnswer = AiAnswer(malicious: bool, confidence: real, reasons: seq<string>)

  const AI_MALICIOUS_SCORE := 85

  /** None: no AI client, or the call failed. */
  function RefineWithAI(ai: Option<AiAnswer>, r: Result): Result {
    if ai.None? || r.verdict != Suspicious then r
    else if !ai.value.malicious then r.(reasons := r.reasons + ai.value.reasons)
    else r.(verdict := Malicious,
            score := if AI_MALICIOUS_SCORE > r.score then AI_MALICIOUS_SCORE else r.score,
            confidence := if ai.value.confidence > r.confidence then ai.value.confidence else r.confidence,
            reasons := r.reasons + ai.value.reasons)
  }

  predicate ContainsReason(reasons: seq<string>, needle: string) {
    exists i :: 0 <= i < |reasons| && Mentions(reasons[i], needle)
  }

  function ApplyOSINT(shouldBlock: bool, r: Result): Result {
    if !shouldBlock then r
    else r.(score := if r.score < 90 then 90 else r.score, verdict := Malicious,
            confidence := if r.confidence < 0.92 then 0.92 else r.confidence, category := "phishing",
            reasons := if ContainsReason(r.reasons, "public warning evidence") then r.reasons
                       else r.reasons + [OSINT_REASON])
  }

  datatype SourceType =
    OfficialWarning | TrustedNewsWarning | SearchSnippet | SafeBrowsingMatch | DomainAge | TlsSuspicious

  datatype WarningItem = WarningItem(confidence: real, sourceType: SourceType)

  predicate Strong(item: WarningItem) {
    item.confidence >= 0.85 &&
    (item.sourceType.OfficialWarning? || item.sourceType.TrustedNewsWarning? || item.sourceType.SafeBrowsingMatch?)
  }

  method HasStrongWarning(evidence: seq<WarningItem>) returns (strong: bool)
    ensures strong <==>
            exists i :: (0 <= i < |evidence| && evidence[i].confidence >= 0.85 &&
                         evidence[i].sourceType in {OfficialWarning, TrustedNewsWarning, SafeBrowsingMatch})
  {
    for i := 0 to |evidence|
      invariant forall k :: 0 <= k < i ==> !Strong(evidence[k])
    {
      var item := evidence[i];
      if item.confidence >= 0.85 &&
         (item.sourceType.OfficialWarning? || item.sourceType.TrustedNewsWarning? ||
          item.sourceType.SafeBrowsingMatch?) {
        assert Strong(evidence[i]);
        return true;
      }
    }
    return false;
  }

  /** What the warning lookup of one analysis finds: blocks when it has a strong warning, if it is made. forced is
      the caller's demand to look regardless. */
  datatype Osint = Osint(forced: bool, blocks: bool)

  const SENSITIVE_TERMS: seq<string> := [
    "dichvucong", "congdichvu", "nganhang", "bank", "thuethunhap", "thue",
    "baohiem", "bhxh", "congan", "police", "dvc", "vneid", "govvn"
  ]

  predicate IsGovVN(domain: string) {
    domain == "gov.vn" || (|domain| >= 7 && domain[|domain| - 7..] == ".gov.vn")
  }

  predicate LookupWanted(domain: string, r: Result) {
    && !IsGovVN(domain)
    && (r.verdict == Suspicious || r.score >= 35 ||
        exists i :: 0 <= i < |SENSITIVE_TERMS| && Mentions(domain, SENSITIVE_TERMS[i]))
  }

  method ShouldLookup(domain: string, r: Result) returns (wanted: bool)
    ensures wanted == LookupWanted(domain, r)
  {
    if IsGovVN(domain) {
      return false;
    }
    for i := 0 to |SENSITIVE_TERMS|
      invariant forall k :: 0 <= k < i ==> !Mentions(domain, SENSITIVE_TERMS[k])
    {
      if Mentions(domain, SENSITIVE_TERMS[i]) {
        return true;
      }
    }
    return r.verdict == Suspicious || r.score >= 35;
  }

  /** lookupOSINT and applyOSINT together. */
  function WithOSINT(osint: Osint, r: Result): Result {
    ApplyOSINT(osint.blocks && (osint.forced || LookupWanted(r.domain, r)), r)
  }

  /** What the network stages of one analysis return. */
  datatype Inputs = Inputs(evidence: Option<(Evidence, Evidence)>, ai: Option<AiAnswer>, osint: Osint)

  function Refined(x: Inputs, r: Result): Result {
    RefineWithAI(x.ai, Enriched(x.evidence, r))
  }

  function Finished(x: Inputs, r: Result): Result {
    WithOSINT(x.osint, Refined(x, r))
  }

  // ---- Stages only escalate ----

  function Severity(v: Verdict): nat {
    match v case Safe => 0 case Suspicious => 1 case Malicious => 2
  }

  ghost predicate Escalates(r: Result, after: Result) {
    && r.domain == after.domain
    && r.score <= after.score
    && Severity(r.verdict) <= Severity(after.verdict)
    && r.confidence <= after.confidence
    && r.reasons <= after.reasons
  }

  /** Score in range, verdict at the 70/40 threshold of the score, confidence a probability. */
  ghost predicate Sound(r: Result) {
    0 <= r.score <= 100 && r.verdict == Threshold(r.score) && 0.0 <= r.confidence <= 1.0
  }

  /** What enters enrichment: within its band the confidence is still the one computed from the score. */
  ghost predicate Fresh(r: Result) {
    Sound(r) && (r.score < 70 ==> r.confidence == ScoreConfidence(r.score))
  }

  predicate NonNegative(c: Config) {
    && c.punycode >= 0 && c.longDomain >= 0 && c.hyphens >= 0 && c.digits >= 0 && c.mixedScript >= 0
    && c.keywordBase >= 0 && c.keywordMatch >= 0 && c.keywordBonus >= 0 && c.brand >= 0 && c.entropy >= 0
  }

  lemma KeywordScoreSign(c: Config, keywords: nat)
    requires NonNegative(c)
    ensures KeywordScore(c, keywords) >= 0
  {
    assert keywords * c.keywordMatch >= 0;
  }

  lemma RawScoreSign(c: Config, s: Signals)
    requires NonNegative(c) && c.brand >= 10
    ensures RawScore(c, s) >= 0
  {
    KeywordScoreSign(c, s.keywords);
  }

  /** With nonnegative weights, every lexical score is in range exactly when the brand weight is at least ten:
      a brand subdomain costs ten points less than the weight. */
  lemma LexicalInRangeExactly(c: Config)
    requires NonNegative(c)
    ensures (forall s :: 0 <= LexicalScore(c, s) <= 100) <==> c.brand >= 10
  {
    if c.brand >= 10 {
      forall s
        ensures 0 <= LexicalScore(c, s) <= 100
      {
        RawScoreSign(c, s);
      }
    } else {
      var s := Signals(false, false, false, false, false, 0, false, Some(BrandHit(true, false, "")), false, "");
      assert RawScore(c, s) == c.brand - 10;
      assert LexicalScore(c, s) < 0;
    }
  }

  predicate Implies(a: bool, b: bool) {
    a ==> b
  }

  /** b shows every sign that a shows, and a brand report that weighs at least as much. */
  predicate ShowsAtLeast(c: Config, b: Signals, a: Signals) {
    && Implies(a.punycode, b.punycode) && Implies(a.longDomain, b.longDomain) && Implies(a.hyphens, b.hyphens)
    && Implies(a.digits, b.digits) && Implies(a.mixedScript, b.mixedScript) && a.keywords <= b.keywords
    && Implies(a.publicService, b.publicService) && Implies(a.entropy, b.entropy)
    && BrandScore(c, a.brand) <= BrandScore(c, b.brand)
  }

  function BrandScore(c: Config, brand: Option<BrandHit>): int {
    if brand.Some? then BrandPenalty(c, brand.value) else 0
  }

  lemma KeywordsGrow(c: Config, few: nat, many: nat)
    requires NonNegative(c) && few <= many
    ensures 0 <= KeywordScore(c, few) <= KeywordScore(c, many)
  {
    assert few * c.keywordMatch <= many * c.keywordMatch;
    assert 0 <= few * c.keywordMatch;
  }

  /** More signs never lower the lexical score, severity or confidence, in spite of the cap and of the floor that
      public-service names put under the signs before them. */
  lemma MoreSignsScoreMore(c: Config, domain: string, a: Signals, b: Signals)
    requires NonNegative(c) && ShowsAtLeast(c, b, a)
    ensures Lexical(c, domain, a).score <= Lexical(c, domain, b).score
    ensures Severity(Lexical(c, domain, a).verdict) <= Severity(Lexical(c, domain, b).verdict)
    ensures Lexical(c, domain, a).confidence <= Lexical(c, domain, b).confidence
  {
    KeywordsGrow(c, a.keywords, b.keywords);
    assert ShapeScore(c, a) <= ShapeScore(c, b);
    assert RawScore(c, a) <= RawScore(c, b);
    assert LexicalScore(c, a) as real / 120.0 <= LexicalScore(c, b) as real / 120.0;
  }

  // ---- What each sign is worth ----

  /** The weight of one more keyword after n of them: the first brings the base score too, the second the bonus. */
  function NextKeyword(c: Config, n: nat): int {
    c.keywordMatch + (if n == 0 then c.keywordBase else 0) + (if n == 1 then c.keywordBonus else 0)
  }

  /** The signs weighed before the public-service floor. */
  datatype Sign = Punycode | LongDomain | Hyphens | Digits | MixedScript | Keyword

  /** Keywords can always be one more; other signs are on or off. */
  predicate Off(a: Signals, sign: Sign) {
    match sign
    case Punycode => !a.punycode
    case LongDomain => !a.longDomain
    case Hyphens => !a.hyphens
    case Digits => !a.digits
    case MixedScript => !a.mixedScript
    case Keyword => true
  }

  function With(a: Signals, sign: Sign): Signals {
    match sign
    case Punycode => a.(punycode := true)
    case LongDomain => a.(longDomain := true)
    case Hyphens => a.(hyphens := true)
    case Digits => a.(digits := true)
    case MixedScript => a.(mixedScript := true)
    case Keyword => a.(keywords := a.keywords + 1)
  }

  function Weight(c: Config, a: Signals, sign: Sign): int {
    match sign
    case Punycode => c.punycode
    case LongDomain => c.longDomain
    case Hyphens => c.hyphens
    case Digits => c.digits
    case MixedScript => c.mixedScript
    case Keyword => NextKeyword(c, a.keywords)
  }

  predicate NoSign(s: Signals) {
    && !s.punycode && !s.longDomain && !s.hyphens && !s.digits && !s.mixedScript && s.keywords == 0
    && !s.publicService && s.brand.None? && !s.entropy
  }

  function UpToHundred(score: int): int {
    if score > 100 then 100 else score
  }

  lemma NothingScoresNothing(c: Config, domain: string, s: Signals)
    requires NoSign(s)
    ensures Lexical(c, domain, s).score == 0
  {
  }

  lemma KeywordStep(c: Config, n: nat)
    requires NonNegative(c)
    ensures KeywordScore(c, n + 1) == KeywordScore(c, n) + NextKeyword(c, n)
    ensures 0 <= KeywordScore(c, n) <= KeywordScore(c, n + 1)
  {
    KeywordsGrow(c, n, n + 1);
    assert (n + 1) * c.keywordMatch == n * c.keywordMatch + c.keywordMatch;
  }

  lemma ShapeStep(c: Config, a: Signals, sign: Sign)
    requires Off(a, sign) && !sign.Keyword?
    ensures ShapeScore(c, With(a, sign)) == ShapeScore(c, a) + Weight(c, a, sign)
  {
    match sign
    case Punycode => assert If(true, c.punycode) == If(a.punycode, c.punycode) + c.punycode;
    case LongDomain => assert If(true, c.longDomain) == If(a.longDomain, c.longDomain) + c.longDomain;
    case Hyphens => assert If(true, c.hyphens) == If(a.hyphens, c.hyphens) + c.hyphens;
    case Digits => assert If(true, c.digits) == If(a.digits, c.digits) + c.digits;
    case MixedScript => assert If(true, c.mixedScript) == If(a.mixedScript, c.mixedScript) + c.mixedScript;
  }

  lemma WithLeavesTheRest(a: Signals, sign: Sign)
    ensures var b := With(a, sign);
      b.entropy == a.entropy && b.brand == a.brand && b.publicService == a.publicService && b.category == a.category
    ensures !sign.Keyword? ==> With(a, sign).keywords == a.keywords
  {
    match sign
    case Punycode =>
    case LongDomain =>
    case Hyphens =>
    case Digits =>
    case MixedScript =>
    case Keyword =>
  }

  /** The score before entropy and brands, when there is no floor. */
  lemma WordsStep(c: Config, a: Signals, sign: Sign)
    requires NonNegative(c) && Off(a, sign)
    ensures ShapeScore(c, With(a, sign)) + KeywordScore(c, With(a, sign).keywords) ==
            ShapeScore(c, a) + KeywordScore(c, a.keywords) + Weight(c, a, sign)
  {
    if sign.Keyword? {
      KeywordStep(c, a.keywords);
    } else {
      WithLeavesTheRest(a, sign);
      ShapeStep(c, a, sign);
    }
  }

  lemma RawParts(c: Config, s: Signals)
    requires NonNegative(c) && !s.publicService
    ensures RawScore(c, s) == ShapeScore(c, s) + KeywordScore(c, s.keywords) +
                              (if s.brand.Some? then BrandPenalty(c, s.brand.value) else 0) + If(s.entropy, c.entropy)
  {
    KeywordScoreSign(c, s.keywords);
  }

  lemma RawStep(c: Config, a: Signals, sign: Sign)
    requires NonNegative(c) && Off(a, sign) && !a.publicService
    ensures RawScore(c, With(a, sign)) == RawScore(c, a) + Weight(c, a, sign)
  {
    WithLeavesTheRest(a, sign);
    WordsStep(c, a, sign);
    RawParts(c, a);
    RawParts(c, With(a, sign));
  }

  /** Without public-service abuse, one more sign of shape or one more keyword adds exactly its weight, up to 100. */
  lemma SignAddsItsWeight(c: Config, domain: string, a: Signals, sign: Sign)
    requires NonNegative(c) && Off(a, sign) && !a.publicService && Lexical(c, domain, a).score < 100
    ensures Lexical(c, domain, With(a, sign)).score ==
            UpToHundred(Lexical(c, domain, a).score + Weight(c, a, sign))
  {
    RawStep(c, a, sign);
  }

  /** High entropy and a brand report add exactly their weights, with public-service abuse or without: a subdomain is
      worth ten less, a risky top-level domain twenty more. */
  lemma LateSignAddsItsWeight(c: Config, domain: string, a: Signals, hit: BrandHit)
    requires Lexical(c, domain, a).score < 100
    ensures !a.entropy ==> Lexical(c, domain, a.(entropy := true)).score ==
                           UpToHundred(Lexical(c, domain, a).score + c.entropy)
    ensures a.brand.None? ==> Lexical(c, domain, a.(brand := Some(hit))).score ==
                              UpToHundred(Lexical(c, domain, a).score + c.brand +
                                          (if hit.subdomain then -10 else 0) + (if hit.riskyTld then 20 else 0))
  {
  }

  /** Public-service abuse lifts what the signs weighed before it add up to, to 75 at least. */
  lemma PublicServiceLifts(c: Config, domain: string, a: Signals)
    requires !a.publicService && a.brand.None? && !a.entropy && Lexical(c, domain, a).score < 100
    ensures Lexical(c, domain, a.(publicService := true)).score ==
            if Lexical(c, domain, a).score < 75 then 75 else Lexical(c, domain, a).score
  {
  }

  /** So it is MALICIOUS whatever else is found. */
  lemma PublicServiceIsMalicious(c: Config, domain: string, s: Signals)
    requires NonNegative(c) && c.brand >= 10 && s.publicService
    ensures 75 <= Lexical(c, domain, s).score <= 100 && Lexical(c, domain, s).verdict == Malicious
  {
    KeywordScoreSign(c, s.keywords);
  }

  /** The verdict and the confidence that belong to a score, with evidence added or not. */
  lemma ScoreDecides(c: Config, domain: string, s: Signals)
    ensures var r := Lexical(c, domain, s);
      && (r.verdict == Malicious <==> r.score >= 70)
      && (r.verdict == Suspicious <==> 40 <= r.score < 70)
      && (r.verdict == Safe <==> r.score < 40)
      && (r.score <= 66 ==> r.confidence == 0.45 + r.score as real / 120.0)
      && (r.score > 66 ==> r.confidence == 1.0)
      && r.domain == domain
  {
    var r := Lexical(c, domain, s);
    assert r.score <= 66 ==> r.score as real / 120.0 <= 0.55;
    assert r.score > 66 ==> r.score as real / 120.0 > 0.55;
  }

  // ---- Which category a lexical result gets ----

  lemma AnyOfBoth(a: seq<string>, b: seq<string>)
    ensures AnyMentionsPhishing(a + b) <==> AnyMentionsPhishing(a) || AnyMentionsPhishing(b)
  {
    if AnyMentionsPhishing(a) {
      var i :| 0 <= i < |a| && MentionsPhishing(a[i]);
      assert (a + b)[i] == a[i];
    }
    if AnyMentionsPhishing(b) {
      var i :| 0 <= i < |b| && MentionsPhishing(b[i]);
      assert (a + b)[|a| + i] == b[i];
    }
  }

  lemma AnyOfOne(test: bool, reason: string)
    ensures AnyMentionsPhishing(One(test, reason)) <==> test && MentionsPhishing(reason)
  {
    if test {
      assert One(test, reason)[0] == reason;
    }
  }

  /** A text without "ph". */
  predicate PairMissing(text: string) {
    forall i, j :: 0 <= i && j == i + 1 < |text| ==> !(Lower(text[i]) == 'p' && Lower(text[j]) == 'h')
  }

  lemma PairMissingOfBoth(a: string, b: string)
    requires PairMissing(a) && PairMissing(b) && a != "" && Lower(a[|a| - 1]) != 'p'
    ensures PairMissing(a + b)
  {
  }

  lemma LacksThePair(reason: string)
    requires PairMissing(reason)
    ensures !MentionsPhishing(reason)
  {
    var low, word := LowerAll(reason), "phishing";
    assert word[0] == 'p' && word[1] == 'h';
    forall i | 0 <= i && i + |word| <= |low|
      ensures !OccursAt(low, word, i)
    {
      assert low[i + 0] == Lower(reason[i]) && low[i + 1] == Lower(reason[i + 1]);
    }
  }

  lemma ShapeReasonsArePlain()
    ensures !MentionsPhishing("punycode detected") && !MentionsPhishing("domain is long")
    ensures !MentionsPhishing("many hyphens") && !MentionsPhishing("high digit ratio")
    ensures !MentionsPhishing("mixed script characters")
  {
    LacksALetter("punycode detected", 'h');
    LacksALetter("domain is long", 'p');
    LacksALetter("many hyphens", 'g');
    LacksALetter("high digit ratio", 'p');
    LacksALetter("mixed script characters", 'g');
  }

  lemma EntropyReasonIsPlain()
    ensures !MentionsPhishing("high lexical entropy")
  {
    LacksThePair("high lexical entropy");
  }

  lemma PublicServiceParts(a: string, b: string, c: string, d: string)
    requires a == "protected Vietnamese" && b == " public-service" && c == " keyword abuse" && d == " (dichvucong)"
    ensures a + b + c + d == PUBLIC_SERVICE_REASON
    ensures a[|a| - 1] == 'e' && b[|b| - 1] == 'e' && c[|c| - 1] == 'e'
  {
  }

  lemma PublicServicePairs(a: string, b: string, c: string, d: string)
    requires a == "protected Vietnamese" && b == " public-service" && c == " keyword abuse" && d == " (dichvucong)"
    ensures PairMissing(a) && PairMissing(b) && PairMissing(c) && PairMissing(d)
  {
  }

  lemma FourPartsPlain(a: string, b: string, c: string, d: string)
    requires PairMissing(a) && PairMissing(b) && PairMissing(c) && PairMissing(d)
    requires a != "" && b != "" && c != "" && d != ""
    requires a[|a| - 1] == 'e' && b[|b| - 1] == 'e' && c[|c| - 1] == 'e'
    ensures !MentionsPhishing(a + b + c + d)
  {
    PairMissingOfBoth(a, b);
    PairMissingOfBoth(a + b, c);
    PairMissingOfBoth(a + b + c, d);
    LacksThePair(a + b + c + d);
  }

  lemma PublicServiceReasonIsPlain()
    ensures !MentionsPhishing(PUBLIC_SERVICE_REASON)
  {
    var a, b, c, d := "protected Vietnamese", " public-service", " keyword abuse", " (dichvucong)";
    PublicServiceParts(a, b, c, d);
    PublicServicePairs(a, b, c, d);
    FourPartsPlain(a, b, c, d);
  }

  lemma KeywordReasonMentions()
    ensures MentionsPhishing("phishing keyword pattern")
  {
    assert OccursAt(LowerAll("phishing keyword pattern"), "phishing", 0);
  }

  lemma ShapeNeverMentions(s: Signals)
    ensures !AnyMentionsPhishing(ShapeReasons(s))
  {
    ShapeReasonsArePlain();
    var r1 := One(s.punycode, "punycode detected");
    var r2 := One(s.longDomain, "domain is long");
    var r3 := One(s.hyphens, "many hyphens");
    var r4 := One(s.digits, "high digit ratio");
    var r5 := One(s.mixedScript, "mixed script characters");
    AnyOfOne(s.punycode, "punycode detected");
    AnyOfOne(s.longDomain, "domain is long");
    AnyOfOne(s.hyphens, "many hyphens");
    AnyOfOne(s.digits, "high digit ratio");
    AnyOfOne(s.mixedScript, "mixed script characters");
    AnyOfBoth(r1, r2);
    AnyOfBoth(r1 + r2, r3);
    AnyOfBoth(r1 + r2 + r3, r4);
    AnyOfBoth(r1 + r2 + r3 + r4, r5);
  }

  lemma ShapeReasonsExactly(s: Signals, x: string)
    ensures x in ShapeReasons(s) <==>
            || (x == "punycode detected" && s.punycode) || (x == "domain is long" && s.longDomain)
            || (x == "many hyphens" && s.hyphens) || (x == "high digit ratio" && s.digits)
            || (x == "mixed script characters" && s.mixedScript)
  {
  }

  /** A result gives a reason for each sign, and no other. */
  lemma ReasonsExactly(c: Config, domain: string, s: Signals, x: string)
    ensures x in Lexical(c, domain, s).reasons <==>
            || (x == "punycode detected" && s.punycode) || (x == "domain is long" && s.longDomain)
            || (x == "many hyphens" && s.hyphens) || (x == "high digit ratio" && s.digits)
            || (x == "mixed script characters" && s.mixedScript)
            || (KeywordScore(c, s.keywords) > 0 &&
                (x == "phishing keyword pattern" || (x == "multiple phishing keywords" && s.keywords >= 2)))
            || (x == PUBLIC_SERVICE_REASON && s.publicService)
            || (s.brand.Some? && x == s.brand.value.reason)
            || (x == "high lexical entropy" && s.entropy)
  {
    ShapeReasonsExactly(s, x);
  }

  predicate BrandMentions(s: Signals) {
    s.brand.Some? && MentionsPhishing(s.brand.value.reason)
  }

  /** Of the reasons of lexical analysis only those for keywords mention phishing, and a brand's when its name does. */
  lemma LexicalMentions(c: Config, s: Signals)
    ensures AnyMentionsPhishing(LexicalReasons(c, s)) <==> KeywordScore(c, s.keywords) > 0 || BrandMentions(s)
  {
    var hit := KeywordScore(c, s.keywords) > 0;
    var r1, r2 := ShapeReasons(s), One(hit, "phishing keyword pattern");
    var r3 := One(hit && s.keywords >= 2, "multiple phishing keywords");
    var r4 := One(s.publicService, PUBLIC_SERVICE_REASON);
    var r5 := if s.brand.Some? then [s.brand.value.reason] else [];
    var r6 := One(s.entropy, "high lexical entropy");
    ShapeNeverMentions(s);
    KeywordReasonMentions();
    PublicServiceReasonIsPlain();
    EntropyReasonIsPlain();
    AnyOfOne(hit, "phishing keyword pattern");
    AnyOfOne(hit && s.keywords >= 2, "multiple phishing keywords");
    AnyOfOne(s.publicService, PUBLIC_SERVICE_REASON);
    AnyOfOne(s.brand.Some?, if s.brand.Some? then s.brand.value.reason else "");
    AnyOfOne(s.entropy, "high lexical entropy");
    AnyOfBoth(r1, r2);
    AnyOfBoth(r1 + r2, r3);
    AnyOfBoth(r1 + r2 + r3, r4);
    AnyOfBoth(r1 + r2 + r3 + r4, r5);
    AnyOfBoth(r1 + r2 + r3 + r4 + r5, r6);
  }

  /** A domain in no list gets its category from the verdict: MALICIOUS is phishing when keywords, or a brand report
      that says so, are among the signs, and malware otherwise. A listed domain keeps its category. */
  lemma CategoryExactly(c: Config, domain: string, s: Signals)
    requires NonNegative(c) && c.keywordBase + c.keywordMatch > 0
    ensures var r := Lexical(c, domain, s);
      if s.category != "uncategorized" then r.category == s.category
      else
        && (r.score >= 70 && (s.keywords > 0 || BrandMentions(s)) ==> r.category == "phishing")
        && (r.score >= 70 && s.keywords == 0 && !BrandMentions(s) ==> r.category == "malware")
        && (40 <= r.score < 70 ==> r.category == "suspicious")
        && (r.score < 40 ==> r.category == "uncategorized")
  {
    LexicalMentions(c, s);
    if s.keywords > 0 {
      KeywordStep(c, 0);
      KeywordsGrow(c, 1, s.keywords);
    }
  }

  ghost predicate LowersSome(c: Config, hit: BrandHit) {
    exists s: Signals :: s.brand.None? && LexicalScore(c, s.(brand := Some(hit))) < LexicalScore(c, s)
  }

  /** The one sign that can make a name look better: a brand subdomain, when the weight of brands is under ten and
      the top-level domain does not make up for it. */
  lemma BrandLowersExactly(c: Config, hit: BrandHit)
    requires NonNegative(c)
    ensures LowersSome(c, hit) <==> hit.subdomain && !hit.riskyTld && c.brand < 10
  {
    if hit.subdomain && !hit.riskyTld && c.brand < 10 {
      var s := Signals(false, false, false, false, false, 0, false, None, false, "");
      assert LexicalScore(c, s) == 0 && RawScore(c, s.(brand := Some(hit))) == c.brand - 10;
    } else {
      forall s: Signals | s.brand.None?
        ensures LexicalScore(c, s) <= LexicalScore(c, s.(brand := Some(hit)))
      {
        MoreSignsScoreMore(c, "", s, s.(brand := Some(hit)));
      }
    }
  }

  lemma ConfidenceRange(low: int, high: int)
    requires 0 <= low <= high
    ensures 0.0 <= ScoreConfidence(low) <= ScoreConfidence(high) <= 1.0
  {
    assert low as real / 120.0 <= high as real / 120.0;
  }

  lemma LexicalIsFresh(c: Config, domain: string, s: Signals)
    requires NonNegative(c) && c.brand >= 10
    ensures Fresh(Lexical(c, domain, s))
  {
    RawScoreSign(c, s);
    ConfidenceRange(0, LexicalScore(c, s));
  }

  lemma EnrichmentEscalates(evidence: Option<(Evidence, Evidence)>, r: Result)
    requires Fresh(r)
    ensures Escalates(r, Enriched(evidence, r)) && Fresh(Enriched(evidence, r))
  {
    var after := Enriched(evidence, r);
    ConfidenceRange(r.score, after.score);
    if after != r {
      assert after.reasons == r.reasons + (evidence.value.0.reasons + evidence.value.1.reasons);
    }
  }

  lemma RefinementEscalates(ai: Option<AiAnswer>, r: Result)
    requires Sound(r) && (ai.Some? ==> 0.0 <= ai.value.confidence <= 1.0)
    ensures Escalates(r, RefineWithAI(ai, r)) && Sound(RefineWithAI(ai, r))
  {
  }

  lemma OSINTEscalates(osint: Osint, r: Result)
    requires Sound(r)
    ensures Escalates(r, WithOSINT(osint, r)) && Sound(WithOSINT(osint, r))
  {
  }

  ghost predicate ValidInputs(x: Inputs) {
    x.ai.Some? ==> 0.0 <= x.ai.value.confidence <= 1.0
  }

  /** Every stage only escalates, and keeps the score in range and the verdict at its threshold. */
  lemma PipelineEscalates(x: Inputs, r: Result)
    requires Fresh(r) && ValidInputs(x)
    ensures Escalates(r, Enriched(x.evidence, r))
    ensures Escalates(Enriched(x.evidence, r), Refined(x, r))
    ensures Escalates(Refined(x, r), Finished(x, r))
    ensures Escalates(r, Finished(x, r))
    ensures Sound(Enriched(x.evidence, r)) && Sound(Refined(x, r)) && Sound(Finished(x, r))
  {
    EnrichmentEscalates(x.evidence, r);
    RefinementEscalates(x.ai, Enriched(x.evidence, r));
    OSINTEscalates(x.osint, Refined(x, r));
  }

  // ---- What the later stages must add ----

  /** Enrichment adds exactly what the inspections found, to every result from 20 to 69, and leaves all others. */
  lemma EnrichmentAdds(tls: Evidence, whois: Evidence, r: Result)
    ensures var after := Enriched(Some((tls, whois)), r);
      if 20 <= r.score <= 69 then
        && after.score == UpToHundred(r.score + tls.score + whois.score)
        && after.reasons == r.reasons + tls.reasons + whois.reasons
        && (after.verdict == Malicious <==> after.score >= 70)
        && (after.verdict == Suspicious <==> 40 <= after.score < 70)
        && after.domain == r.domain && after.category == r.category
      else after == r
  {
  }

  /** A malicious AI answer makes a suspicious result MALICIOUS, with a score of 85 at least and the higher of the two
      confidences; any other answer adds its reasons only, and results that are not suspicious stay. */
  lemma RefinementAdds(ai: AiAnswer, r: Result)
    ensures var after := RefineWithAI(Some(ai), r);
      if r.verdict != Suspicious then after == r
      else
        && after.reasons == r.reasons + ai.reasons
        && after.category == r.category
        && (ai.malicious ==> after.verdict == Malicious && 85 <= after.score && r.score <= after.score &&
                             (after.score == 85 || after.score == r.score) &&
                             r.confidence <= after.confidence && ai.confidence <= after.confidence &&
                             (after.confidence == r.confidence || after.confidence == ai.confidence))
        && (!ai.malicious ==> after == r.(reasons := after.reasons))
  {
  }

  /** A blocking lookup that is forced, or wanted, makes the result MALICIOUS phishing with a score of 90 and a
      confidence of 0.92 at least, and says so once; without one nothing changes. */
  lemma OSINTAdds(osint: Osint, r: Result)
    ensures var after := WithOSINT(osint, r);
      if osint.blocks && (osint.forced || LookupWanted(r.domain, r)) then
        && after.verdict == Malicious && after.category == "phishing"
        && 90 <= after.score && (after.score == 90 || after.score == r.score)
        && 0.92 <= after.confidence && (after.confidence == 0.92 || after.confidence == r.confidence)
        && (after.reasons == r.reasons ||
            after.reasons == r.reasons + ["public warning evidence: official/trusted source reports phishing"])
        && (after.reasons == r.reasons <==>
            exists i :: 0 <= i < |r.reasons| && Mentions(r.reasons[i], "public warning evidence"))
      else after == r
  {
  }

  /** When no sensitive term is in the name, a lookup is wanted from a score of 35 on, or for a suspicious result. */
  lemma LookupFrom35(domain: string, r: Result)
    requires domain != "gov.vn" && forall k :: 0 <= k < |domain| ==> domain[k..] != ".gov.vn"
    requires forall i :: 0 <= i < |SENSITIVE_TERMS| ==> !Mentions(domain, SENSITIVE_TERMS[i])
    ensures LookupWanted(domain, r) <==> r.verdict == Suspicious || r.score >= 35
  {
  }

  // ---- Group policy ----

  /** blockCategories are the group's entries after trimming and lower-casing. */
  datatype Group = Group(strictMalware: bool, strictPhishing: bool, blockCategories: seq<string>)

  predicate Blocks(g: Group, r: Result) {
    || (r.verdict == Malicious && g.strictMalware)
    || (g.strictPhishing && r.score >= 40 && (AnyMentionsPhishing(r.reasons) || r.category == "phishing"))
    || (r.category != "" && r.category != "uncategorized" && r.category in g.blockCategories)
  }

  /** The enforcement part of Policy, for a result whose category is lower-case. */
  method Enforce(g: Group, r: Result) returns (block: bool)
    ensures block == Blocks(g, r)
  {
    block := false;
    if r.verdict == Malicious && g.strictMalware {
      block := true;
    }
    if g.strictPhishing {
      var isPhishing := false;
      for i := 0 to |r.reasons|
        invariant !isPhishing && forall k :: 0 <= k < i ==> !MentionsPhishing(r.reasons[k])
      {
        if MentionsPhishing(r.reasons[i]) {
          isPhishing := true;
          break;
        }
      }
      if r.score >= 40 && (isPhishing || r.category == "phishing") {
        block := true;
      }
    }
    if |g.blockCategories| > 0 && r.category != "" && r.category != "uncategorized" {
      ghost var before := block;
      for i := 0 to |g.blockCategories|
        invariant block == before && forall k :: 0 <= k < i ==> g.blockCategories[k] != r.category
      {
        if g.blockCategories[i] == r.category {
          block := true;
          break;
        }
      }
    }
  }

  /** A group blocks what any one of its settings blocks. */
  lemma BlocksBySetting(g: Group, r: Result)
    ensures Blocks(g, r) <==>
            || Blocks(Group(g.strictMalware, false, []), r)
            || Blocks(Group(false, g.strictPhishing, []), r)
            || Blocks(Group(false, false, g.blockCategories), r)
  {
  }

  /** And each by itself: strictness on malware blocks what is MALICIOUS; strictness on phishing blocks from a score of
      40 on what is of that category or mentions phishing, in any case of letters; a list blocks its categories. */
  lemma SettingsExactly(r: Result, categories: seq<string>)
    ensures Blocks(Group(true, false, []), r) <==> r.verdict == Malicious
    ensures Blocks(Group(false, true, []), r) <==>
            r.score >= 40 &&
            (r.category == "phishing" || exists i :: 0 <= i < |r.reasons| && MentionsPhishing(r.reasons[i]))
    ensures Blocks(Group(false, false, categories), r) <==>
            r.category in categories && r.category != "" && r.category != "uncategorized"
    ensures !Blocks(Group(false, false, []), r)
  {
  }

  lemma PhishingMentionStays(a: seq<string>, b: seq<string>)
    requires a <= b && AnyMentionsPhishing(a)
    ensures AnyMentionsPhishing(b)
  {
    var i :| 0 <= i < |a| && MentionsPhishing(a[i]);
    assert b[i] == a[i];
  }

  /** An escalation that keeps the category keeps a block. */
  lemma EscalationKeepsBlock(g: Group, r: Result, after: Result)
    requires Blocks(g, r) && Escalates(r, after) && after.category == r.category
    ensures Blocks(g, after)
  {
    if AnyMentionsPhishing(r.reasons) {
      PhishingMentionStays(r.reasons, after.reasons);
    }
  }

  /** A later result replaced by an OSINT escalation is blocked by every group that acts on phishing or malware. */
  lemma OSINTKeepsBlock(g: Group, osint: Osint, r: Result)
    requires Blocks(g, r) && Sound(r)
    requires g.strictMalware || g.strictPhishing || "phishing" in g.blockCategories
    ensures Blocks(g, WithOSINT(osint, r))
  {
  }

  /** The categories an analysis can have before OSINT, other than phishing, that a group can block. */
  const BLOCKABLE: set<string> := {
    "social_media", "advertising", "adult", "gambling", "gaming", "malware", "suspicious"
  }

  /** What the first stage can deliver. */
  ghost predicate FirstStage(r: Result) {
    || (exists domain :: r == FeedMatch(domain))
    || (exists c, domain, s :: FromLexical(r, c, domain, s))
  }

  predicate FromLexical(r: Result, c: Config, domain: string, s: Signals) {
    NonNegative(c) && c.brand >= 10 && s.category in CLASSIFIED && r == Lexical(c, domain, s)
  }

  lemma FirstStageIsFresh(r: Result)
    requires FirstStage(r)
    ensures Fresh(r)
    ensures r.category in BLOCKABLE + {"phishing", "uncategorized", ""}
  {
    if exists c, domain, s :: FromLexical(r, c, domain, s) {
      var c, domain, s :| FromLexical(r, c, domain, s);
      LexicalIsFresh(c, domain, s);
    }
  }

  /** No later stage of any analysis undoes a block that an earlier stage's result would have got. */
  ghost predicate NeverUnblocks(g: Group) {
    forall r, x :: FirstStage(r) && ValidInputs(x) ==>
      && (Blocks(g, r) ==> Blocks(g, Finished(x, r)))
      && (Blocks(g, Enriched(x.evidence, r)) ==> Blocks(g, Finished(x, r)))
      && (Blocks(g, Refined(x, r)) ==> Blocks(g, Finished(x, r)))
  }

  predicate BlocksOnlyPhishing(g: Group) {
    forall category :: category in g.blockCategories ==> category !in BLOCKABLE
  }

  lemma RefinedKeepsBlock(g: Group, x: Inputs, r: Result)
    requires FirstStage(r) && ValidInputs(x)
    requires Blocks(g, r) || Blocks(g, Enriched(x.evidence, r)) || Blocks(g, Refined(x, r))
    ensures Blocks(g, Refined(x, r)) && Sound(Refined(x, r)) && Refined(x, r).category == r.category
  {
    FirstStageIsFresh(r);
    PipelineEscalates(x, r);
    if Blocks(g, r) {
      EscalationKeepsBlock(g, r, Enriched(x.evidence, r));
    }
    if Blocks(g, Enriched(x.evidence, r)) {
      EscalationKeepsBlock(g, Enriched(x.evidence, r), Refined(x, r));
    }
  }

  lemma FinishedKeepsBlock(g: Group, x: Inputs, r: Result)
    requires FirstStage(r) && ValidInputs(x)
    requires g.strictMalware || g.strictPhishing || "phishing" in g.blockCategories || BlocksOnlyPhishing(g)
    requires Blocks(g, r) || Blocks(g, Enriched(x.evidence, r)) || Blocks(g, Refined(x, r))
    ensures Blocks(g, Finished(x, r))
  {
    RefinedKeepsBlock(g, x, r);
    FirstStageIsFresh(r);
    if g.strictMalware || g.strictPhishing || "phishing" in g.blockCategories {
      OSINTKeepsBlock(g, x.osint, Refined(x, r));
    }
  }

  /** A punycode name for each category; the category lists of the analyser put it there. */
  function NameFor(category: string): string {
    if category == "social_media" then "xn--q.x.com"
    else if category == "advertising" then "ads.xn--q.vn"
    else if category == "adult" then "xn--q.xxx"
    else if category == "gambling" then "xn--slot.vn"
    else if category == "gaming" then "xn--arcade.vn"
    else if category == "malware" then "xn--\U{0430}qqqqqqqqqqqqqqqqqqqq.vn"
    else "xn---q.vn"
  }

  lemma NoGovName(category: string)
    ensures !IsGovVN(NameFor(category))
  {
    var d := NameFor(category);
    assert |d| >= 9 && d[|d| - 4] != 'v';
    assert d[|d| - 7..][3] == d[|d| - 4] && ".gov.vn"[3] == 'v';
  }

  /** A first result with a given blockable category, bad enough for a warning lookup. */
  lemma ResultOfCategory(category: string) returns (r: Result)
    requires category in BLOCKABLE
    ensures FirstStage(r) && r.category == category && LookupWanted(r.domain, r)
  {
    var punycode := Signals(true, false, false, false, false, 0, false, None, false, "uncategorized");
    var s := if category == "malware" then punycode.(mixedScript := true, longDomain := true)
             else if category == "suspicious" then punycode.(hyphens := true)
             else punycode.(category := category);
    r := Lexical(DEFAULT_CONFIG, NameFor(category), s);
    NoGovName(category);
    if category == "malware" {
      assert LexicalScore(DEFAULT_CONFIG, s) == 75;
      PlainReasons(LexicalReasons(DEFAULT_CONFIG, s));
    } else if category == "suspicious" {
      assert LexicalScore(DEFAULT_CONFIG, s) == 45;
    } else {
      assert LexicalScore(DEFAULT_CONFIG, s) == 35;
    }
    assert FromLexical(r, DEFAULT_CONFIG, NameFor(category), s);
  }

  lemma PlainReasons(reasons: seq<string>)
    requires reasons == ["punycode detected", "domain is long", "mixed script characters"]
    ensures !AnyMentionsPhishing(reasons)
  {
    forall i | 0 <= i < |reasons|
      ensures !MentionsPhishing(reasons[i])
    {
      if i == 0 { LacksALetter(reasons[0], 'h'); }
      else if i == 1 { LacksALetter(reasons[1], 'p'); }
      else { LacksALetter(reasons[2], 'g'); }
    }
  }

  lemma LacksALetter(reason: string, letter: char)
    requires letter == 'p' || letter == 'h' || letter == 'g'
    requires forall i :: 0 <= i < |reason| ==> Lower(reason[i]) != letter
    ensures !MentionsPhishing(reason)
  {
    var low, word := LowerAll(reason), "phishing";
    assert word[0] == 'p' && word[1] == 'h' && word[7] == 'g';
    forall i | 0 <= i && i + |word| <= |low|
      ensures !OccursAt(low, word, i)
    {
      assert low[i + 0] == Lower(reason[i]) && low[i + 1] == Lower(reason[i + 1]) && low[i + 7] == Lower(reason[i + 7]);
    }
  }

  /** Blocks survive all later stages exactly for the groups that act on malware or on phishing, or block no
      category that an OSINT warning can overwrite with "phishing". */
  lemma NeverUnblocksExactly(g: Group)
    ensures NeverUnblocks(g) <==>
            g.strictMalware || g.strictPhishing || "phishing" in g.blockCategories || BlocksOnlyPhishing(g)
  {
    if g.strictMalware || g.strictPhishing || "phishing" in g.blockCategories || BlocksOnlyPhishing(g) {
      forall r, x | FirstStage(r) && ValidInputs(x)
        ensures Blocks(g, r) ==> Blocks(g, Finished(x, r))
        ensures Blocks(g, Enriched(x.evidence, r)) ==> Blocks(g, Finished(x, r))
        ensures Blocks(g, Refined(x, r)) ==> Blocks(g, Finished(x, r))
      {
        if Blocks(g, r) || Blocks(g, Enriched(x.evidence, r)) || Blocks(g, Refined(x, r)) {
          FinishedKeepsBlock(g, x, r);
        }
      }
    } else {
      var category :| category in g.blockCategories && category in BLOCKABLE;
      var r := ResultOfCategory(category);
      var x := Inputs(None, None, Osint(false, true));
      assert Blocks(g, r) && !Blocks(g, Finished(x, r)) && ValidInputs(x);
    }
  }
}

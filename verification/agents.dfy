/**
 * The three pipeline stages of src/agents.py, each against its own
 * definition: the researcher's pair-to-record map, the auditor's per-item
 * analysis with its error fallback and defaults, and the report builder.
 * What the language model answers is an oracle.
 */
module Agents {
  import opened Wrappers
  import opened Text
  import AgentsKeys
  import Utils

  /** A policy excerpt found by the researcher. */
  datatype PolicyMatch = PolicyMatch(policyId: string, excerpt: string)

  /** `PolicyResearcher.run` after the search: one record per (id, document) pair, in order. */
  function PolicyRecords(results: seq<(string, string)>): (items: seq<PolicyMatch>)
    ensures |items| == |results|
  {
    seq(|results|, i requires 0 <= i < |results| => PolicyMatch(results[i].0, results[i].1))
  }

  /** The (id, excerpt) pairs of a list of records. */
  function PolicyPairs(items: seq<PolicyMatch>): (results: seq<(string, string)>)
    ensures |results| == |items|
  {
    seq(|items|, i requires 0 <= i < |items| => (items[i].policyId, items[i].excerpt))
  }

  /** Records and pairs are two spellings of the same list: the map loses and reorders nothing. */
  lemma PolicyRecordsRoundTrip(results: seq<(string, string)>, items: seq<PolicyMatch>)
    ensures PolicyPairs(PolicyRecords(results)) == results
    ensures PolicyRecords(PolicyPairs(items)) == items
  {
    var r := PolicyPairs(PolicyRecords(results));
    assert forall i :: 0 <= i < |results| ==> r[i] == results[i];
  }

  /** The JSON object the model returns for one excerpt (string-valued fields only). */
  type Analysis = map<string, string>

  /** The prompt of `analyze_one`, kept as its two inputs. */
  datatype AuditPrompt = AuditPrompt(policyExcerpt: string, newRule: string)

  /** The record `analyze_one` returns for any exception `e`. */
  function ApiErrorAnalysis(errorText: string): Analysis
  {
    map["severity" := "LOW", "justification" := "API error: " + errorText]
  }

  /**
   * `analyze_one` after the call: the parsed answer, or the LOW fallback for
   * a failed call or an answer `json.loads` rejects. It never raises.
   */
  function AnalysisOf(call: Result<string, AgentsKeys.CallError>, parse: string -> Result<Analysis, string>): (a: Analysis)
    ensures call.Ok? && parse(call.value).Ok? ==> a == parse(call.value).value
    ensures call.Err? ==> a == ApiErrorAnalysis(AgentsKeys.ErrorText(call.error))
    ensures call.Ok? && parse(call.value).Err? ==> a == ApiErrorAnalysis(parse(call.value).error)
  {
    match call
    case Err(e) => ApiErrorAnalysis(AgentsKeys.ErrorText(e))
    case Ok(text) =>
      match parse(text)
      case Err(msg) => ApiErrorAnalysis(msg)
      case Ok(a) => a
  }

  /** Any failure, of the call or of the parse, yields severity LOW and an "API error: " justification. */
  lemma FailureIsLow(call: Result<string, AgentsKeys.CallError>, parse: string -> Result<Analysis, string>)
    requires call.Err? || parse(call.value).Err?
    ensures var a := AnalysisOf(call, parse);
      && "severity" in a && a["severity"] == "LOW"
      && "justification" in a && "API error: " <= a["justification"]
  {
  }

  /** The risk record the auditor emits for one policy. */
  datatype RiskItem = RiskItem(policyId: string, severity: string, divergenceSummary: string,
                               conflictingPolicyExcerpt: string, newRuleExcerpt: string)

  /** The length the regulation text is cut to in each record. */
  const RuleExcerptLength: nat := 500

  /** `dict.get(key, default)` on an analysis. */
  function Get(a: Analysis, key: string, default: string): string
  {
    if key in a then a[key] else default
  }

  /** One record of `ComplianceAuditor.run`. */
  function RiskRecord(item: PolicyMatch, a: Analysis, newText: string): (r: RiskItem)
    ensures r.policyId == item.policyId && r.conflictingPolicyExcerpt == item.excerpt
    ensures r.severity == (if "severity" in a then a["severity"] else "LOW")
    ensures r.divergenceSummary == (if "justification" in a then a["justification"] else "No justification provided")
    ensures |r.newRuleExcerpt| == (if |newText| <= RuleExcerptLength then |newText| else RuleExcerptLength)
    ensures r.newRuleExcerpt <= newText
    ensures |newText| <= RuleExcerptLength ==> r.newRuleExcerpt == newText
  {
    RiskItem(item.policyId, Get(a, "severity", "LOW"), Get(a, "justification", "No justification provided"),
             item.excerpt, Take(newText, RuleExcerptLength))
  }

  /** The severity is passed through as the model gave it: nothing restricts it to HIGH, MEDIUM or LOW. */
  lemma SeverityNotChecked(item: PolicyMatch, newText: string)
    ensures RiskRecord(item, map["severity" := "CRITICAL"], newText).severity == "CRITICAL"
  {
  }

  /** A failed analysis gives a LOW record whose summary carries the error. */
  lemma FailedAnalysisRecord(item: PolicyMatch, newText: string,
                             call: Result<string, AgentsKeys.CallError>, parse: string -> Result<Analysis, string>)
    requires call.Err? || parse(call.value).Err?
    ensures var r := RiskRecord(item, AnalysisOf(call, parse), newText);
      r.severity == "LOW" && "API error: " <= r.divergenceSummary
  {
    FailureIsLow(call, parse);
  }

  /**
   * The records of `ComplianceAuditor.run`, with `analyze(i, excerpt, rule)`
   * standing for the i-th `analyze_one` call.
   */
  function AuditRecords(items: seq<PolicyMatch>, newText: string,
                        analyze: (nat, string, string) -> Analysis): (out: seq<RiskItem>)
    ensures |out| == |items|
    ensures forall i :: 0 <= i < |items| ==>
      out[i] == RiskRecord(items[i], analyze(i, items[i].excerpt, newText), newText)
    decreases |items|
  {
    if items == [] then []
    else
      var n := |items| - 1;
      AuditRecords(items[..n], newText, analyze) + [RiskRecord(items[n], analyze(n, items[n].excerpt, newText), newText)]
  }

  /** `ComplianceAuditor.run`: the append loop, proved to build `AuditRecords`. */
  method AuditRun(items: seq<PolicyMatch>, newText: string, analyze: (nat, string, string) -> Analysis)
    returns (out: seq<RiskItem>)
    ensures out == AuditRecords(items, newText, analyze)
  {
    out := [];
    var i := 0;
    while i < |items|
      invariant 0 <= i <= |items|
      invariant out == AuditRecords(items[..i], newText, analyze)
    {
      var analysis := analyze(i, items[i].excerpt, newText);
      assert items[..i + 1][..i] == items[..i];
      out := out + [RiskRecord(items[i], analysis, newText)];
      i := i + 1;
    }
    assert items[..|items|] == items;
  }

  /**
   * `analyze_one`: one `safe_gemini_call` through the shared pool, then the
   * parse; any failure becomes the LOW fallback.
   */
  method AnalyzeOne(pool: AgentsKeys.GeminiPool, policyExcerpt: string, newRule: string,
                    respond: AgentsKeys.GenerateRequest<AuditPrompt> -> Outcome<string>,
                    parse: string -> Result<Analysis, string>) returns (a: Analysis)
    requires pool.Valid()
    modifies pool
    ensures pool.Valid() && pool.geminiKeys == old(pool.geminiKeys)
    ensures var run := AgentsKeys.SafeCall(old(pool.geminiKeys), old(pool.currentKeyIndex), old(pool.configuredKey),
                                           AuditPrompt(policyExcerpt, newRule), respond);
      && a == AnalysisOf(run.result, parse)
      && pool.currentKeyIndex == run.finalIndex && pool.configuredKey == run.configuredKey
  {
    var response := pool.SafeGeminiCall(AuditPrompt(policyExcerpt, newRule), respond);
    match response {
      case Err(e) =>
        a := ApiErrorAnalysis(AgentsKeys.ErrorText(e));
      case Ok(text) =>
        match parse(text) {
          case Err(msg) => a := ApiErrorAnalysis(msg);
          case Ok(parsed) => a := parsed;
        }
    }
  }

  /** The fixed recommendation text of every report. */
  const Recommendation: string :=
    "Immediate review required for HIGH severity conflicts. "
    + "MEDIUM conflicts should be assessed by legal counsel. "
    + "LOW conflicts typically require no action unless part of a wider pattern."

  /** The report `build_report` returns. */
  datatype Report = Report(regulationId: string, dateProcessed: string, totalRisksFlagged: nat,
                           risks: seq<RiskItem>, recommendation: string)

  /** `build_report`, with today's date and the SHA-256 hex digest supplied. */
  function BuildReport(regText: string, dateOfLaw: Option<string>, risks: seq<RiskItem>,
                       today: string, sha256: seq<Utils.Byte> -> string): (r: Report)
    ensures r.totalRisksFlagged == |r.risks|
    ensures r.risks == risks
    ensures r.regulationId == Utils.RegulationIdFor(regText, dateOfLaw, sha256)
    ensures r.dateProcessed == today && r.recommendation == Recommendation
  {
    Report(Utils.RegulationIdFor(regText, dateOfLaw, sha256), today, |risks|, risks, Recommendation)
  }

  /** A report over the auditor's output counts exactly one risk per researched policy, in the same order. */
  lemma ReportCountsEveryPolicy(items: seq<PolicyMatch>, newText: string, analyze: (nat, string, string) -> Analysis,
                                dateOfLaw: Option<string>, today: string, sha256: seq<Utils.Byte> -> string)
    ensures var r := BuildReport(newText, dateOfLaw, AuditRecords(items, newText, analyze), today, sha256);
      && r.totalRisksFlagged == |items|
      && forall i :: 0 <= i < |items| ==> r.risks[i].policyId == items[i].policyId
  {
  }

  /** Two reports on the same regulation and date carry the same identifier, whenever they are built. */
  lemma ReportIdStable(regText: string, dateOfLaw: Option<string>, risks1: seq<RiskItem>, risks2: seq<RiskItem>,
                       today1: string, today2: string, sha256: seq<Utils.Byte> -> string)
    ensures BuildReport(regText, dateOfLaw, risks1, today1, sha256).regulationId
         == BuildReport(regText, dateOfLaw, risks2, today2, sha256).regulationId
  {
  }
}

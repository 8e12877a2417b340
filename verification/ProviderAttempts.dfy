/** One account's request logic: a first call, at most one follow-up, and counters that add up.
  * Calls on one account do not overlap. */
module ProviderAttempts {
  import opened Domain
  import JsonSchemas

  /** A reset header, as far as it can be read. */
  datatype Hint = Unreadable | Number(value: int) | Duration(seconds: int) | Instant(at: Time)

  datatype Details = Details(
    reason: string,
    phase: string,
    schemaCode: Option<string>,
    status: Option<int>,
    requestRemaining: Option<string>,
    tokenRemaining: Option<string>,
    requestReset: Option<Hint>,
    tokenReset: Option<Hint>,
    rateReset: Option<Hint>,
    retryAfter: Option<Hint>)

  datatype Preflight = OutputTooLong | RequestTooLarge | TooCostly

  datatype Verdict = Valid | Invalid(code: string)

  /** What one call of the shared request method comes to: refused before the wire, failed, or answered. */
  datatype Reply =
    | Rejected(cause: Preflight)
    | Failed(details: Details)
    | Answered(status: Option<int>, cut: bool, verdict: Verdict, requestRemaining: Option<string>,
               tokenRemaining: Option<string>, requestReset: Option<Hint>, tokenReset: Option<Hint>)

  datatype Kind = Analysis | Correction | CompactRetry

  datatype Attempt = Attempt(kind: Kind, valid: bool, code: Option<string>, status: Option<int>)

  // ---- the wire ----

  function PreflightReason(cause: Preflight): string {
    match cause
    case OutputTooLong => "maximum_output_tokens_exceeded"
    case RequestTooLarge => "request_too_large"
    case TooCostly => "maximum_cost_exceeded"
  }

  function ErrorOf(r: Reply): Details
    requires !r.Answered?
  {
    match r
    case Rejected(cause) =>
      Details(PreflightReason(cause), "request_validation", None, None, None, None, None, None, None, None)
    case Failed(d) => d
  }

  predicate OnTheWire(r: Reply) {
    !r.Rejected?
  }

  predicate Exhausted(remaining: Option<string>) {
    remaining.Some? && JsonSchemas.Strip(remaining.value) == "0"
  }

  const PARSE_CODES := {"empty_response", "truncated_response", "finish_reason_length", "json_not_found",
                        "json_parse_error", "multiple_json_objects", "response_envelope_invalid"}

  // ---- counters ----

  datatype Measure = Analyses | Corrections | CompactRetries | ValidAnalyses | CorrectionsSucceeded
    | CorrectionsFailed | ParseFailures | SchemaFailures | Truncated | RateLimited | HttpSuccesses

  /** Which counters `_record_attempt` moves for an attempt. */
  predicate Counts(m: Measure, a: Attempt) {
    match m
    case Analyses => a.kind == Analysis
    case Corrections => a.kind == Correction
    case CompactRetries => a.kind == CompactRetry
    case ValidAnalyses => a.valid
    case CorrectionsSucceeded => a.kind == Correction && a.valid
    case CorrectionsFailed => a.kind == Correction && !a.valid
    case ParseFailures => a.kind == Analysis && !a.valid && a.code.Some? && a.code.value in PARSE_CODES
    case SchemaFailures => a.kind == Analysis && !a.valid && !(a.code.Some? && a.code.value in PARSE_CODES)
    case Truncated => a.code in {Some("finish_reason_length"), Some("truncated_response")}
    case RateLimited => a.status == Some(429)
    case HttpSuccesses => a.status == Some(200)
  }

  function Count(m: Measure, log: seq<Attempt>): nat {
    if log == [] then 0 else Count(m, log[..|log| - 1]) + (if Counts(m, log[|log| - 1]) then 1 else 0)
  }

  lemma CountSnoc(m: Measure, log: seq<Attempt>, a: Attempt)
    ensures Count(m, log + [a]) == Count(m, log) + (if Counts(m, a) then 1 else 0)
  {}

  /** The dictionary of attempt counters. */
  datatype Counters = Counters(
    analysisRequests: nat,
    schemaCorrectionRequests: nat,
    compactRetries: nat,
    schemaValidAnalyses: nat,
    correctionsSucceeded: nat,
    correctionsFailed: nat,
    initialParseFailures: nat,
    initialSchemaFailures: nat,
    truncatedOutputs: nat,
    http429Responses: nat,
    httpSuccesses: nat)

  const ZERO := Counters(0, 0, 0, 0, 0, 0, 0, 0, 0, 0, 0)

  function One(m: Measure, a: Attempt): nat {
    if Counts(m, a) then 1 else 0
  }

  function Added(c: Counters, a: Attempt): Counters {
    Counters(c.analysisRequests + One(Analyses, a),
             c.schemaCorrectionRequests + One(Corrections, a),
             c.compactRetries + One(CompactRetries, a),
             c.schemaValidAnalyses + One(ValidAnalyses, a),
             c.correctionsSucceeded + One(CorrectionsSucceeded, a),
             c.correctionsFailed + One(CorrectionsFailed, a),
             c.initialParseFailures + One(ParseFailures, a),
             c.initialSchemaFailures + One(SchemaFailures, a),
             c.truncatedOutputs + One(Truncated, a),
             c.http429Responses + One(RateLimited, a),
             c.httpSuccesses + One(HttpSuccesses, a))
  }

  function Tally(log: seq<Attempt>): Counters {
    if log == [] then ZERO else Added(Tally(log[..|log| - 1]), log[|log| - 1])
  }

  lemma TallySnoc(log: seq<Attempt>, a: Attempt)
    ensures Tally(log + [a]) == Added(Tally(log), a)
  {}

  /** The counters count what their names say. */
  lemma {:induction false} TallyCounts(log: seq<Attempt>)
    ensures var c := Tally(log);
      && c.analysisRequests == Count(Analyses, log)
      && c.schemaCorrectionRequests == Count(Corrections, log)
      && c.compactRetries == Count(CompactRetries, log)
      && c.schemaValidAnalyses == Count(ValidAnalyses, log)
      && c.correctionsSucceeded == Count(CorrectionsSucceeded, log)
      && c.correctionsFailed == Count(CorrectionsFailed, log)
      && c.initialParseFailures == Count(ParseFailures, log)
      && c.initialSchemaFailures == Count(SchemaFailures, log)
      && c.truncatedOutputs == Count(Truncated, log)
      && c.http429Responses == Count(RateLimited, log)
      && c.httpSuccesses == Count(HttpSuccesses, log)
  {
    if log != [] { TallyCounts(log[..|log| - 1]); }
  }

  method CountTransport(counters: Counters, a: Attempt) returns (c: Counters)
    ensures c == counters.(http429Responses := counters.http429Responses + One(RateLimited, a),
                           httpSuccesses := counters.httpSuccesses + One(HttpSuccesses, a),
                           schemaValidAnalyses := counters.schemaValidAnalyses + One(ValidAnalyses, a),
                           truncatedOutputs := counters.truncatedOutputs + One(Truncated, a))
  {
    c := counters;
    if a.status == Some(429) {
      c := c.(http429Responses := c.http429Responses + 1);
    }
    if a.status == Some(200) {
      c := c.(httpSuccesses := c.httpSuccesses + 1);
    }
    if a.valid {
      c := c.(schemaValidAnalyses := c.schemaValidAnalyses + 1);
    }
    if a.code in {Some("finish_reason_length"), Some("truncated_response")} {
      c := c.(truncatedOutputs := c.truncatedOutputs + 1);
    }
  }

  method CountVerdict(counters: Counters, a: Attempt) returns (c: Counters)
    ensures c == counters.(compactRetries := counters.compactRetries + One(CompactRetries, a),
                           initialParseFailures := counters.initialParseFailures + One(ParseFailures, a),
                           initialSchemaFailures := counters.initialSchemaFailures + One(SchemaFailures, a),
                           correctionsSucceeded := counters.correctionsSucceeded + One(CorrectionsSucceeded, a),
                           correctionsFailed := counters.correctionsFailed + One(CorrectionsFailed, a))
  {
    c := counters;
    if a.kind == CompactRetry {
      c := c.(compactRetries := c.compactRetries + 1);
    }
    if a.kind == Analysis && !a.valid {
      if a.code.Some? && a.code.value in PARSE_CODES {
        c := c.(initialParseFailures := c.initialParseFailures + 1);
      } else {
        c := c.(initialSchemaFailures := c.initialSchemaFailures + 1);
      }
    }
    if a.kind == Correction {
      if a.valid {
        c := c.(correctionsSucceeded := c.correctionsSucceeded + 1);
      } else {
        c := c.(correctionsFailed := c.correctionsFailed + 1);
      }
    }
  }

  /** The counting half of `_record_attempt`. */
  method CountAttempt(counters: Counters, a: Attempt) returns (c: Counters)
    ensures c == Added(counters, a)
  {
    c := counters;
    if a.kind == Correction {
      c := c.(schemaCorrectionRequests := c.schemaCorrectionRequests + 1);
    } else if a.kind == Analysis {
      c := c.(analysisRequests := c.analysisRequests + 1);
    }
    c := CountTransport(c, a);
    c := CountVerdict(c, a);
  }

  function LastHundred(log: seq<Attempt>): seq<Attempt> {
    if |log| <= 100 then log else log[|log| - 100..]
  }

  lemma LastHundredSnoc(log: seq<Attempt>, a: Attempt)
    ensures LastHundred(log + [a]) == LastHundred(LastHundred(log) + [a])
  {}

  // ---- one request, as a trace ----

  function CodeOf(r: Reply): Option<string> {
    match r
    case Rejected(_) => None
    case Failed(d) => d.schemaCode
    case Answered(_, cut, verdict, _, _, _, _) =>
      if cut then Some("finish_reason_length") else match verdict { case Valid => None case Invalid(c) => Some(c) }
  }

  function StatusOf(r: Reply): Option<int> {
    match r
    case Rejected(_) => None
    case Failed(d) => d.status
    case Answered(status, _, _, _, _, _, _) => status
  }

  predicate Accepted(r: Reply) {
    r.Answered? && !r.cut && r.verdict.Valid?
  }

  function FirstAttempt(kind: Kind, r: Reply): Attempt {
    Attempt(kind, Accepted(r), CodeOf(r), StatusOf(r))
  }

  predicate CapacityGone(r: Reply) {
    r.Answered? && (Exhausted(r.requestRemaining) || Exhausted(r.tokenRemaining))
  }

  /** What follows the first call, if anything. */
  function FollowUp(r: Reply): Option<Kind> {
    match r
    case Rejected(_) => None
    case Failed(d) =>
      if d.reason == "truncated_response" then Some(CompactRetry)
      else if d.reason == "response_decoding_failed" then Some(Correction)
      else None
    case Answered(_, cut, verdict, _, _, _, _) =>
      if cut then Some(CompactRetry)
      else if verdict.Valid? || CapacityGone(r) then None
      else Some(Correction)
  }

  /** The code recorded with a failed correction is the one that asked for it. */
  function CorrectionReason(r: Reply): string
    requires FollowUp(r) == Some(Correction)
  {
    match r
    case Failed(d) => d.schemaCode.GetOr(d.reason)
    case Answered(_, _, verdict, _, _, _, _) => verdict.code
  }

  /** A compact retry that is cut short as well. */
  predicate StillCut(r: Reply) {
    match r
    case Rejected(_) => false
    case Failed(d) => d.reason == "truncated_response"
    case Answered(_, cut, _, _, _, _, _) => cut
  }

  function CompactAttempt(r: Reply): Attempt {
    Attempt(CompactRetry, Accepted(r), if StillCut(r) then Some("finish_reason_length") else CodeOf(r), StatusOf(r))
  }

  /** The finish reason of a correction is not looked at. */
  function CorrectionAttempt(why: string, r: Reply): Attempt {
    Attempt(Correction, r.Answered? && r.verdict.Valid?,
            if r.Answered? then (match r.verdict case Valid => None case Invalid(c) => Some(c)) else Some(why),
            StatusOf(r))
  }

  function FollowUpAttempt(first: Reply, second: Reply): Attempt
    requires FollowUp(first).Some?
  {
    if FollowUp(first).value == CompactRetry then CompactAttempt(second)
    else CorrectionAttempt(CorrectionReason(first), second)
  }

  function Trace(kind: Kind, first: Reply, second: Reply): seq<Attempt> {
    [FirstAttempt(kind, first)] + (if FollowUp(first).Some? then [FollowUpAttempt(first, second)] else [])
  }

  lemma TraceFromLog(log: seq<Attempt>, kind: Kind, first: Reply, second: Reply)
    ensures FollowUp(first).None? ==> log + Trace(kind, first, second) == log + [FirstAttempt(kind, first)]
    ensures FollowUp(first) == Some(CompactRetry) ==>
      log + Trace(kind, first, second) == log + [FirstAttempt(kind, first)] + [CompactAttempt(second)]
    ensures FollowUp(first) == Some(Correction) ==>
      log + Trace(kind, first, second)
      == log + [FirstAttempt(kind, first)] + [CorrectionAttempt(CorrectionReason(first), second)]
  {}

  function WireCalls(first: Reply, second: Reply): nat {
    (if OnTheWire(first) then 1 else 0) + (if FollowUp(first).Some? && OnTheWire(second) then 1 else 0)
  }

  function Rejections(first: Reply, second: Reply): nat {
    (if OnTheWire(first) then 0 else 1) + (if FollowUp(first).Some? && !OnTheWire(second) then 1 else 0)
  }

  function CapacityError(r: Reply): Details
    requires r.Answered? && r.verdict.Invalid?
  {
    Details("rate_limited", "schema_correction_capacity", Some(r.verdict.code), Some(429),
            r.requestRemaining, r.tokenRemaining, r.requestReset, r.tokenReset, None, None)
  }

  function PolicyError(reason: string, phase: string, code: string): Details {
    Details(reason, phase, Some(code), Some(200), None, None, None, None, None, None)
  }

  const BUDGET_ERROR := PolicyError("output_budget_exceeded", "output_budget_policy", "OUTPUT_BUDGET_EXCEEDED")

  function CompactOutcome(r: Reply): Option<Details> {
    match r
    case Rejected(_) => Some(ErrorOf(r))
    case Failed(d) => if d.reason == "truncated_response" then Some(BUDGET_ERROR) else Some(d)
    case Answered(_, cut, verdict, _, _, _, _) =>
      if cut then Some(BUDGET_ERROR)
      else
        match verdict
        case Valid => None
        case Invalid(code) => Some(PolicyError("schema_validation_error", "compact_retry_validation", code))
  }

  function InCorrection(d: Details, reason: string): Details {
    d.(phase := "schema_correction_" + d.phase, schemaCode := Some(d.schemaCode.GetOr(reason)))
  }

  function CorrectionOutcome(reason: string, r: Reply): Option<Details> {
    match r
    case Rejected(_) => Some(InCorrection(ErrorOf(r), reason))
    case Failed(d) => Some(InCorrection(d, reason))
    case Answered(_, _, verdict, _, _, _, _) =>
      match verdict
      case Valid => None
      case Invalid(code) => Some(PolicyError("schema_validation_error", "structured_output_validation", code))
  }

  /** The error a request ends with; None is a returned analysis. */
  function Outcome(first: Reply, second: Reply): Option<Details> {
    if FollowUp(first) == Some(CompactRetry) then CompactOutcome(second)
    else if FollowUp(first) == Some(Correction) then CorrectionOutcome(CorrectionReason(first), second)
    else if !first.Answered? then Some(ErrorOf(first))
    else if first.verdict.Valid? then None
    else Some(CapacityError(first))
  }

  /** What a first call leads to. */
  datatype Next = Finish(outcome: Option<Details>) | RetryCompact | RetryCorrecting(why: string)

  function NextAfter(first: Reply): Next {
    match FollowUp(first)
    case None => Finish(Outcome(first, first))
    case Some(kind) => if kind == CompactRetry then RetryCompact else RetryCorrecting(CorrectionReason(first))
  }

  // ---- the account object ----

  class GroqProvider {
    var httpCalls: nat
    var correctionAttempts: nat
    var requestAttempts: seq<Attempt>
    var attemptCounters: Counters
    var requestPolicyFailures: nat

    /** Every attempt ever recorded; the object keeps the last hundred. */
    ghost var log: seq<Attempt>

    ghost predicate Consistent()
      reads this
    {
      attemptCounters == Tally(log) && requestAttempts == LastHundred(log)
    }

    constructor ()
      ensures Consistent() && log == []
      ensures httpCalls == correctionAttempts == requestPolicyFailures == 0
    {
      httpCalls, correctionAttempts, requestPolicyFailures := 0, 0, 0;
      attemptCounters := ZERO;
      requestAttempts, log := [], [];
    }

    /** `_record_attempt`. */
    method RecordAttempt(a: Attempt)
      requires Consistent()
      modifies this`requestAttempts, this`attemptCounters, this`log
      ensures Consistent() && log == old(log) + [a]
    {
      LastHundredSnoc(log, a);
      TallySnoc(log, a);
      requestAttempts := requestAttempts + [a];
      if |requestAttempts| > 100 {
        requestAttempts := requestAttempts[|requestAttempts| - 100..];
      }
      attemptCounters := CountAttempt(attemptCounters, a);
      log := log + [a];
    }

    /** The shared request method: the call counter moves only next to the wire. */
    method Send(r: Reply)
      modifies this`httpCalls
      ensures httpCalls == old(httpCalls) + (if OnTheWire(r) then 1 else 0)
    {
      if OnTheWire(r) {
        httpCalls := httpCalls + 1;
      }
    }

    /** `reason`: the replies are what the wire would answer to a first and to a second call. */
    method Reason(asCorrection: bool, first: Reply, second: Reply) returns (error: Option<Details>)
      requires Consistent()
      modifies this
      ensures Consistent()
      ensures log == old(log) + Trace(if asCorrection then Correction else Analysis, first, second)
      ensures httpCalls == old(httpCalls) + WireCalls(first, second)
      ensures error == Outcome(first, second)
      ensures correctionAttempts == old(correctionAttempts) + (if FollowUp(first) == Some(Correction) then 1 else 0)
      ensures requestPolicyFailures == old(requestPolicyFailures)
                + (if FollowUp(first) == Some(CompactRetry) && StillCut(second) then 1 else 0)
    {
      TraceFromLog(log, if asCorrection then Correction else Analysis, first, second);
      var next := FirstCall(if asCorrection then Correction else Analysis, first);
      match next {
        case Finish(outcome) => error := outcome;
        case RetryCompact => error := Compact(second);
        case RetryCorrecting(why) => error := Correct(why, second);
      }
    }

    /** The first call of `reason`, up to the decision what follows it. */
    method FirstCall(kind: Kind, first: Reply) returns (next: Next)
      requires Consistent()
      modifies this`requestAttempts, this`attemptCounters, this`log, this`httpCalls
      ensures Consistent() && log == old(log) + [FirstAttempt(kind, first)]
      ensures httpCalls == old(httpCalls) + (if OnTheWire(first) then 1 else 0)
      ensures next == NextAfter(first)
    {
      Send(first);
      if first.Answered? {
        next := FirstAnswer(kind, first);
      } else {
        next := FirstError(kind, first);
      }
    }

    method FirstError(kind: Kind, first: Reply) returns (next: Next)
      requires Consistent() && !first.Answered?
      modifies this`requestAttempts, this`attemptCounters, this`log
      ensures Consistent() && log == old(log) + [FirstAttempt(kind, first)]
      ensures next == NextAfter(first)
    {
      var d := ErrorOf(first);
      RecordAttempt(Attempt(kind, false, d.schemaCode, d.status));
      if d.reason == "truncated_response" {
        return RetryCompact;
      }
      if d.reason != "response_decoding_failed" {
        return Finish(Some(d));
      }
      return RetryCorrecting(d.schemaCode.GetOr(d.reason));
    }

    method FirstAnswer(kind: Kind, first: Reply) returns (next: Next)
      requires Consistent() && first.Answered?
      modifies this`requestAttempts, this`attemptCounters, this`log
      ensures Consistent() && log == old(log) + [FirstAttempt(kind, first)]
      ensures next == NextAfter(first)
    {
      if first.cut {
        RecordAttempt(Attempt(kind, false, Some("finish_reason_length"), first.status));
        return RetryCompact;
      }
      if first.verdict.Valid? {
        RecordAttempt(Attempt(kind, true, None, first.status));
        return Finish(None);
      }
      RecordAttempt(Attempt(kind, false, Some(first.verdict.code), first.status));
      if Exhausted(first.requestRemaining) || Exhausted(first.tokenRemaining) {
        return Finish(Some(CapacityError(first)));
      }
      return RetryCorrecting(first.verdict.code);
    }

    /** The one bounded correction request. */
    method Correct(why: string, second: Reply) returns (error: Option<Details>)
      requires Consistent()
      modifies this`requestAttempts, this`attemptCounters, this`log, this`httpCalls, this`correctionAttempts
      ensures Consistent() && log == old(log) + [CorrectionAttempt(why, second)]
      ensures httpCalls == old(httpCalls) + (if OnTheWire(second) then 1 else 0)
      ensures correctionAttempts == old(correctionAttempts) + 1
      ensures error == CorrectionOutcome(why, second)
    {
      correctionAttempts := correctionAttempts + 1;
      Send(second);
      if !second.Answered? {
        RecordAttempt(Attempt(Correction, false, Some(why), StatusOf(second)));
        return Some(InCorrection(ErrorOf(second), why));
      }
      match second.verdict {
        case Invalid(code) =>
          RecordAttempt(Attempt(Correction, false, Some(code), second.status));
          return Some(PolicyError("schema_validation_error", "structured_output_validation", code));
        case Valid =>
          RecordAttempt(Attempt(Correction, true, None, second.status));
          return None;
      }
    }

    /** `_compact_retry`. */
    method Compact(second: Reply) returns (error: Option<Details>)
      requires Consistent()
      modifies this`requestAttempts, this`attemptCounters, this`log, this`httpCalls, this`requestPolicyFailures
      ensures Consistent() && log == old(log) + [CompactAttempt(second)]
      ensures httpCalls == old(httpCalls) + (if OnTheWire(second) then 1 else 0)
      ensures requestPolicyFailures == old(requestPolicyFailures) + (if StillCut(second) then 1 else 0)
      ensures error == CompactOutcome(second)
    {
      Send(second);
      if !second.Answered? {
        var d := ErrorOf(second);
        RecordAttempt(Attempt(CompactRetry, false,
                              if d.reason == "truncated_response" then Some("finish_reason_length") else d.schemaCode,
                              d.status));
        if d.reason != "truncated_response" {
          return Some(d);
        }
        requestPolicyFailures := requestPolicyFailures + 1;
        return Some(BUDGET_ERROR);
      }
      if second.cut {
        RecordAttempt(Attempt(CompactRetry, false, Some("finish_reason_length"), second.status));
        requestPolicyFailures := requestPolicyFailures + 1;
        return Some(BUDGET_ERROR);
      }
      match second.verdict {
        case Invalid(code) =>
          RecordAttempt(Attempt(CompactRetry, false, Some(code), second.status));
          return Some(PolicyError("schema_validation_error", "compact_retry_validation", code));
        case Valid =>
          RecordAttempt(Attempt(CompactRetry, true, None, second.status));
          return None;
      }
    }
  }

  // ---- conservation over any sequence of requests ----

  datatype Call = Call(asCorrection: bool, first: Reply, second: Reply)

  function TraceOf(c: Call): seq<Attempt> {
    Trace(if c.asCorrection then Correction else Analysis, c.first, c.second)
  }

  function LogOf(calls: seq<Call>): seq<Attempt> {
    if calls == [] then [] else LogOf(calls[..|calls| - 1]) + TraceOf(calls[|calls| - 1])
  }

  function Returned(calls: seq<Call>): nat {
    if calls == [] then 0
    else
      var c := calls[|calls| - 1];
      Returned(calls[..|calls| - 1]) + (if Outcome(c.first, c.second).None? then 1 else 0)
  }

  function TotalWireCalls(calls: seq<Call>): nat {
    if calls == [] then 0
    else var c := calls[|calls| - 1]; TotalWireCalls(calls[..|calls| - 1]) + WireCalls(c.first, c.second)
  }

  function TotalRejections(calls: seq<Call>): nat {
    if calls == [] then 0
    else var c := calls[|calls| - 1]; TotalRejections(calls[..|calls| - 1]) + Rejections(c.first, c.second)
  }

  function AskedAsCorrection(calls: seq<Call>): nat {
    if calls == [] then 0
    else AskedAsCorrection(calls[..|calls| - 1]) + (if calls[|calls| - 1].asCorrection then 1 else 0)
  }

  lemma CountOfTrace(m: Measure, log: seq<Attempt>, kind: Kind, first: Reply, second: Reply)
    ensures Count(m, log + Trace(kind, first, second))
         == Count(m, log) + (if Counts(m, FirstAttempt(kind, first)) then 1 else 0)
            + (if FollowUp(first).Some? && Counts(m, FollowUpAttempt(first, second)) then 1 else 0)
  {
    CountSnoc(m, log, FirstAttempt(kind, first));
    if FollowUp(first).Some? {
      CountSnoc(m, log + [FirstAttempt(kind, first)], FollowUpAttempt(first, second));
      assert log + Trace(kind, first, second)
          == log + [FirstAttempt(kind, first)] + [FollowUpAttempt(first, second)];
    }
  }

  lemma {:induction false} KindsAddUp(log: seq<Attempt>)
    ensures Count(Analyses, log) + Count(Corrections, log) + Count(CompactRetries, log) == |log|
    ensures Count(CorrectionsSucceeded, log) + Count(CorrectionsFailed, log) == Count(Corrections, log)
    ensures Count(ParseFailures, log) + Count(SchemaFailures, log) <= Count(Analyses, log)
         <= Count(ParseFailures, log) + Count(SchemaFailures, log) + Count(ValidAnalyses, log)
  {
    if log != [] { KindsAddUp(log[..|log| - 1]); }
  }

  /** A request returns an analysis exactly when one of its attempts is valid, and then only its last one is. */
  lemma OneValidAttemptPerReturn(kind: Kind, first: Reply, second: Reply)
    ensures var ok := Outcome(first, second).None?; var last := FollowUp(first).Some?;
      && (FirstAttempt(kind, first).valid <==> ok && !last)
      && (last ==> (FollowUpAttempt(first, second).valid <==> ok))
  {}

  lemma {:induction false} ReturnsAreValid(calls: seq<Call>)
    ensures Count(ValidAnalyses, LogOf(calls)) == Returned(calls)
  {
    if calls != [] {
      var c := calls[|calls| - 1];
      var kind := if c.asCorrection then Correction else Analysis;
      ReturnsAreValid(calls[..|calls| - 1]);
      CountOfTrace(ValidAnalyses, LogOf(calls[..|calls| - 1]), kind, c.first, c.second);
      OneValidAttemptPerReturn(kind, c.first, c.second);
    }
  }

  lemma {:induction false} WireAddsUp(calls: seq<Call>)
    ensures TotalWireCalls(calls) + TotalRejections(calls) == |LogOf(calls)|
  {
    if calls != [] { WireAddsUp(calls[..|calls| - 1]); }
  }

  /** Every attempt is exactly one of the three kinds; every correction ends in exactly one way; every returned
    * analysis is one valid attempt; every attempt went over the wire or was refused before it. */
  lemma CountersAreConserved(calls: seq<Call>)
    ensures var log := LogOf(calls);
      && Count(Analyses, log) + Count(Corrections, log) + Count(CompactRetries, log) == |log|
      && Count(CorrectionsSucceeded, log) + Count(CorrectionsFailed, log) == Count(Corrections, log)
      && Count(ValidAnalyses, log) == Returned(calls)
      && TotalWireCalls(calls) + TotalRejections(calls) == |log|
  {
    KindsAddUp(LogOf(calls));
    ReturnsAreValid(calls);
    WireAddsUp(calls);
  }

  lemma {:induction false} FirstCallsAreAnalyses(calls: seq<Call>)
    ensures |calls| <= |LogOf(calls)| <= 2 * |calls|
    ensures Count(Analyses, LogOf(calls)) + AskedAsCorrection(calls) == |calls|
  {
    if calls != [] {
      var c := calls[|calls| - 1];
      FirstCallsAreAnalyses(calls[..|calls| - 1]);
      CountOfTrace(Analyses, LogOf(calls[..|calls| - 1]), if c.asCorrection then Correction else Analysis,
                   c.first, c.second);
    }
  }

  /** A request makes one call and at most one follow-up, so without requests that are corrections themselves the
    * follow-ups never outnumber the analyses; every analysis is valid, or a parse failure, or a schema failure. */
  lemma FollowUpsAreBounded(calls: seq<Call>)
    ensures var log := LogOf(calls); var asked := AskedAsCorrection(calls);
      && |calls| <= |log| <= 2 * |calls|
      && Count(Corrections, log) + Count(CompactRetries, log) <= Count(Analyses, log) + 2 * asked
      && Count(ParseFailures, log) + Count(SchemaFailures, log) <= Count(Analyses, log)
      && Count(Analyses, log) <= Count(ParseFailures, log) + Count(SchemaFailures, log) + Count(ValidAnalyses, log)
  {
    FirstCallsAreAnalyses(calls);
    KindsAddUp(LogOf(calls));
  }

  /** Exactly the rejected attempts are missing from the call counter. */
  lemma {:induction false} CallsEqualAttemptsWithoutRejections(calls: seq<Call>)
    ensures TotalWireCalls(calls) <= |LogOf(calls)|
    ensures TotalWireCalls(calls) == |LogOf(calls)| <==>
      forall i | 0 <= i < |calls| :: Rejections(calls[i].first, calls[i].second) == 0
  {
    CountersAreConserved(calls);
    NoRejectionsInTotal(calls);
  }

  lemma {:induction false} NoRejectionsInTotal(calls: seq<Call>)
    ensures TotalRejections(calls) == 0 <==>
      forall i | 0 <= i < |calls| :: Rejections(calls[i].first, calls[i].second) == 0
  {
    if calls != [] {
      var n := |calls| - 1;
      NoRejectionsInTotal(calls[..n]);
      assert forall i | 0 <= i < n :: calls[..n][i] == calls[i];
      assert forall i | 0 <= i < |calls| :: i == n || calls[i] == calls[..n][i];
    }
  }

  // ---- the object over any sequence of requests ----

  /** One request more, after the first i. */
  method ServeNext(provider: GroqProvider, calls: seq<Call>, i: nat, ghost log: seq<Attempt>, ghost httpCalls: nat)
    returns (error: Option<Details>)
    requires i < |calls| && provider.Consistent()
    requires provider.log == log + LogOf(calls[..i]) && provider.httpCalls == httpCalls + TotalWireCalls(calls[..i])
    modifies provider
    ensures provider.Consistent() && provider.log == log + LogOf(calls[..i + 1])
    ensures provider.httpCalls == httpCalls + TotalWireCalls(calls[..i + 1])
    ensures error == Outcome(calls[i].first, calls[i].second)
  {
    OneMoreCall(calls, i, log);
    error := provider.Reason(calls[i].asCorrection, calls[i].first, calls[i].second);
  }

  /** Requests that reach one account object one after the other. */
  method Serve(provider: GroqProvider, calls: seq<Call>) returns (errors: seq<Option<Details>>)
    requires provider.Consistent()
    modifies provider
    ensures provider.Consistent() && provider.log == old(provider.log) + LogOf(calls)
    ensures provider.httpCalls == old(provider.httpCalls) + TotalWireCalls(calls)
    ensures |errors| == |calls| && forall i | 0 <= i < |calls| :: errors[i] == Outcome(calls[i].first, calls[i].second)
  {
    errors := [];
    var i := 0;
    assert provider.log + LogOf([]) == provider.log;
    while i < |calls|
      invariant 0 <= i <= |calls| && provider.Consistent()
      invariant provider.log == old(provider.log) + LogOf(calls[..i])
      invariant provider.httpCalls == old(provider.httpCalls) + TotalWireCalls(calls[..i])
      invariant |errors| == i && forall j | 0 <= j < i :: errors[j] == Outcome(calls[j].first, calls[j].second)
    {
      var error := ServeNext(provider, calls, i, old(provider.log), old(provider.httpCalls));
      errors := errors + [error];
      i := i + 1;
    }
    assert calls[..i] == calls;
  }

  lemma OneMoreCall(calls: seq<Call>, i: nat, log: seq<Attempt>)
    requires i < |calls|
    ensures var c := calls[i];
      && log + LogOf(calls[..i + 1]) == log + LogOf(calls[..i]) + TraceOf(c)
      && TotalWireCalls(calls[..i + 1]) == TotalWireCalls(calls[..i]) + WireCalls(c.first, c.second)
  {
    assert calls[..i + 1][..i] == calls[..i];
  }

  function Successes(errors: seq<Option<Details>>): nat {
    if errors == [] then 0 else Successes(errors[..|errors| - 1]) + (if errors[|errors| - 1].None? then 1 else 0)
  }

  lemma {:induction false} SuccessesAreReturned(calls: seq<Call>, errors: seq<Option<Details>>)
    requires |errors| == |calls| && forall i | 0 <= i < |calls| :: errors[i] == Outcome(calls[i].first, calls[i].second)
    ensures Successes(errors) == Returned(calls)
  {
    if calls != [] { SuccessesAreReturned(calls[..|calls| - 1], errors[..|errors| - 1]); }
  }

  /** The life of one account object: after any requests its own fields add up. Every attempt counted by kind went over
    * the wire or was refused before it; every correction ended one way; the valid attempts are the requests answered
    * without an error. */
  method ServeFromTheStart(calls: seq<Call>) returns (provider: GroqProvider, errors: seq<Option<Details>>)
    ensures fresh(provider) && provider.Consistent() && provider.log == LogOf(calls)
    ensures |errors| == |calls| && forall i | 0 <= i < |calls| :: errors[i] == Outcome(calls[i].first, calls[i].second)
    ensures var n := provider.attemptCounters;
      && n.analysisRequests + n.schemaCorrectionRequests + n.compactRetries
         == provider.httpCalls + TotalRejections(calls)
      && n.correctionsSucceeded + n.correctionsFailed == n.schemaCorrectionRequests
      && n.schemaValidAnalyses == Successes(errors)
  {
    provider := new GroqProvider();
    errors := Serve(provider, calls);
    assert provider.log == LogOf(calls);
    CountersAreConserved(calls);
    TallyCounts(LogOf(calls));
    SuccessesAreReturned(calls, errors);
  }
}

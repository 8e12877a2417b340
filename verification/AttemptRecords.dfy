/** What an account object records of its requests, in terms of the replies that came back. */
module AttemptRecords {
  import opened Domain
  import opened ProviderAttempts

  /** The codes of a response that could not be read as one complete object. */
  predicate Unreadable(code: string) {
    || code == "empty_response" || code == "truncated_response" || code == "finish_reason_length"
    || code == "json_not_found" || code == "json_parse_error" || code == "multiple_json_objects"
    || code == "response_envelope_invalid"
  }

  /** Which counters one attempt moves. */
  lemma CountersMoveExactly(c: Counters, a: Attempt)
    ensures var c' := Added(c, a); var failedFirst := a.kind == Analysis && !a.valid;
      && c'.analysisRequests - c.analysisRequests == (if a.kind == Analysis then 1 else 0)
      && c'.schemaCorrectionRequests - c.schemaCorrectionRequests == (if a.kind == Correction then 1 else 0)
      && c'.compactRetries - c.compactRetries == (if a.kind == CompactRetry then 1 else 0)
      && c'.schemaValidAnalyses - c.schemaValidAnalyses == (if a.valid then 1 else 0)
      && c'.correctionsSucceeded - c.correctionsSucceeded == (if a.kind == Correction && a.valid then 1 else 0)
      && c'.correctionsFailed - c.correctionsFailed == (if a.kind == Correction && !a.valid then 1 else 0)
      && c'.initialParseFailures - c.initialParseFailures
         == (if failedFirst && a.code.Some? && Unreadable(a.code.value) then 1 else 0)
      && c'.initialSchemaFailures - c.initialSchemaFailures
         == (if failedFirst && (a.code.Some? ==> !Unreadable(a.code.value)) then 1 else 0)
      && c'.truncatedOutputs - c.truncatedOutputs
         == (if a.code == Some("finish_reason_length") || a.code == Some("truncated_response") then 1 else 0)
      && c'.http429Responses - c.http429Responses == (if a.status == Some(429) then 1 else 0)
      && c'.httpSuccesses - c.httpSuccesses == (if a.status == Some(200) then 1 else 0)
  {
    if a.code.Some? { UnreadableCodes(a.code.value); }
  }

  lemma UnreadableCodes(code: string)
    ensures code in PARSE_CODES <==> Unreadable(code)
  {}

  /** The object keeps the end of its log, up to a hundred attempts. */
  lemma LastHundredAreKept(log: seq<Attempt>) returns (dropped: seq<Attempt>)
    ensures log == dropped + LastHundred(log)
    ensures |LastHundred(log)| == if |log| < 100 then |log| else 100
  {
    dropped := if |log| <= 100 then [] else log[..|log| - 100];
  }

  /** The status that came back, if the call reached the wire. */
  predicate HasStatusOf(a: Attempt, r: Reply) {
    match r
    case Rejected(_) => a.status.None?
    case Failed(d) => a.status == d.status
    case Answered(status, _, _, _, _, _, _) => a.status == status
  }

  /** The record of a first call or a compact retry: valid exactly with a complete valid answer; the code says a cut
    * answer first, then what is wrong with it, then what the error says. */
  lemma FirstRecord(kind: Kind, r: Reply)
    ensures var a := FirstAttempt(kind, r);
      && a.kind == kind && HasStatusOf(a, r)
      && (a.valid <==> r.Answered? && !r.cut && r.verdict.Valid?)
      && (r.Answered? && r.cut ==> a.code == Some("finish_reason_length"))
      && (r.Answered? && !r.cut && r.verdict.Invalid? ==> a.code == Some(r.verdict.code))
      && (a.valid || r.Rejected? ==> a.code.None?)
      && (r.Failed? ==> a.code == r.details.schemaCode)
  {}

  lemma CompactRecord(r: Reply)
    ensures var a := CompactAttempt(r);
      && a.kind == CompactRetry && HasStatusOf(a, r)
      && (a.valid <==> r.Answered? && !r.cut && r.verdict.Valid?)
      && ((r.Answered? && r.cut) || (r.Failed? && r.details.reason == "truncated_response") ==>
            a.code == Some("finish_reason_length"))
      && (r.Answered? && !r.cut && r.verdict.Invalid? ==> a.code == Some(r.verdict.code))
      && (a.valid || r.Rejected? ==> a.code.None?)
      && (r.Failed? && r.details.reason != "truncated_response" ==> a.code == r.details.schemaCode)
  {}

  /** The record of a correction: of a failed one it is the code that asked for it, and a cut answer is not looked at. */
  lemma CorrectionRecord(first: Reply, second: Reply)
    requires FollowUp(first) == Some(Correction)
    ensures var a := CorrectionAttempt(CorrectionReason(first), second);
      && a.kind == Correction && HasStatusOf(a, second)
      && (a.valid <==> second.Answered? && second.verdict.Valid?)
      && (second.Answered? && second.verdict.Invalid? ==> a.code == Some(second.verdict.code))
      && (a.valid ==> a.code.None?)
      && (!second.Answered? && first.Answered? && first.verdict.Invalid? ==> a.code == Some(first.verdict.code))
      && (!second.Answered? && first.Failed? ==>
            a.code == Some(if first.details.schemaCode.Some? then first.details.schemaCode.value
                           else first.details.reason))
  {}

  /** A correction that is due without capacity for it ends as a rate limit, with the hints of the answer itself. */
  lemma MissingCapacityIsARateLimit(first: Reply, second: Reply)
    requires first.Answered? && !first.cut && first.verdict.Invalid? && CapacityGone(first)
    ensures Outcome(first, second).Some?
    ensures var d := Outcome(first, second).value;
      && d.reason == "rate_limited" && d.phase == "schema_correction_capacity" && d.status == Some(429)
      && d.schemaCode == Some(first.verdict.code)
      && d.requestRemaining == first.requestRemaining && d.tokenRemaining == first.tokenRemaining
      && d.requestReset == first.requestReset && d.tokenReset == first.tokenReset
      && d.rateReset.None? && d.retryAfter.None?
  {}

  /** A preflight refusal is named by its cause, and carries nothing else. */
  lemma RefusalsAreNamed(first: Reply, second: Reply)
    requires first.Rejected?
    ensures Outcome(first, second).Some?
    ensures var d := Outcome(first, second).value;
      && d.phase == "request_validation" && d.status.None? && d.schemaCode.None?
      && d.reason == match first.cause
         case OutputTooLong => "maximum_output_tokens_exceeded"
         case RequestTooLarge => "request_too_large"
         case TooCostly => "maximum_cost_exceeded"
  {}
}

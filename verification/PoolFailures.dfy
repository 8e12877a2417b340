/** What each failure means for the pool, reason by reason: which requests pass on to the next account, how long an
  * account cools down, and what follows a first reply. */
module PoolFailures {
  import opened Domain
  import opened ProviderAttempts
  import opened AccountPool
  import opened PoolRouting
  import JsonSchemas

  // ---- retries on one account ----

  /** The two failures of the transport. */
  predicate TransportFailure(error: Option<Details>) {
    error.Some? && (error.value.reason == "provider_unavailable" || error.value.reason == "request_timeout")
  }

  /** An account is asked again exactly while the transport fails and retries are left; the last reply counts. */
  lemma {:induction false} LastReplyCounts(c: Config, w: World, a: nat, first: nat) returns (last: nat)
    requires 1 <= first <= c.maximumRetries + 1
    ensures first <= last <= c.maximumRetries + 1
    ensures forall n: nat | first <= n < last :: TransportFailure(ReplyError(w, a, n))
    ensures last == c.maximumRetries + 1 || !TransportFailure(ReplyError(w, a, last))
    ensures Attempts(c, w, a, first).error == ReplyError(w, a, last)
    ensures Attempts(c, w, a, first).retries == last - first
    decreases c.maximumRetries + 1 - first
  {
    if TransportFailure(ReplyError(w, a, first)) && first <= c.maximumRetries {
      last := LastReplyCounts(c, w, a, first + 1);
    } else {
      last := first;
    }
  }

  // ---- passing on ----

  /** The nine failures of an account, outside the four phases of its contract. */
  predicate PassesOn(d: Details) {
    && (|| d.reason == "authentication_failed" || d.reason == "invalid_request" || d.reason == "model_unavailable"
        || d.reason == "provider_unconfigured" || d.reason == "quota_exhausted" || d.reason == "token_quota_exhausted"
        || d.reason == "rate_limited" || d.reason == "provider_unavailable" || d.reason == "request_timeout")
    && d.phase != "request_validation" && d.phase != "response_decoding" && d.phase != "domain_parsing"
    && !("schema_correction_" <= d.phase)
  }

  lemma PassesOnIsAllowed(d: Details)
    ensures FailoverAllowed(d) <==> PassesOn(d)
  {}

  lemma StopsExactly(c: Config, w: World, a: nat)
    ensures var error := Attempts(c, w, a, 1).error; Stops(c, w, a) <==> error.None? || !PassesOn(error.value)
  {
    var error := Attempts(c, w, a, 1).error;
    if error.Some? { PassesOnIsAllowed(error.value); }
  }

  /** Each tried account but the last passed the request on, and while there is an eligible account left the last one did
    * not: from account to account a request goes on exactly when the error passes on. */
  lemma PassedOnExactly(c: Config, w: World, now: Time, order: seq<nat>, accounts: seq<Account>, k: nat)
    requires ValidOrder(order, accounts) && |order| <= ACCOUNTS
    requires k < |Route(c, w, now, order, accounts, None, 0).tried|
    requires k + 1 < |EligibleOf(order, accounts, now)|
    ensures var tried := Route(c, w, now, order, accounts, None, 0).tried;
      var error := Attempts(c, w, tried[k], 1).error;
      && tried[k] == EligibleOf(order, accounts, now)[k]
      && (k + 1 < |tried| <==> error.Some? && PassesOn(error.value))
  {
    FirstSuccessIsReturned(c, w, now, order, accounts);
    StopsExactly(c, w, Route(c, w, now, order, accounts, None, 0).tried[k]);
  }

  /** The accounts are asked in a circle from the cursor on. */
  lemma RotationIsACircle(start: nat, i: nat)
    requires start < 4 && i < 4
    ensures |Rotated(start)| == 4 && Rotated(start)[i] == (start + i) % 4
  {}

  predicate FailsPassingOn(c: Config, w: World, a: nat) {
    var error := Attempts(c, w, a, 1).error;
    error.Some? && PassesOn(error.value)
  }

  lemma {:induction false} FirstStop(c: Config, w: World, list: seq<nat>, k: nat)
    requires k < |list| && Stops(c, w, list[k]) && forall i | 0 <= i < k :: !Stops(c, w, list[i])
    ensures UpToStop(c, w, list) == list[..k + 1]
    decreases k
  {
    if k == 0 {
      assert list[..1] == [list[0]];
    } else {
      var first, rest := list[0], list[1..];
      assert forall i | 0 <= i < k - 1 :: rest[i] == list[i + 1];
      FirstStop(c, w, rest, k - 1);
      assert list[..k + 1] == [first] + rest[..k];
    }
  }

  lemma NobodyStops(c: Config, w: World, list: seq<nat>)
    requires forall a | a in UpToStop(c, w, list) :: !Stops(c, w, a)
    ensures UpToStop(c, w, list) == list
  {
    UpToStopIsPrefix(c, w, list);
  }

  lemma PassingDoesNotStop(c: Config, w: World, a: nat)
    requires FailsPassingOn(c, w, a)
    ensures !Stops(c, w, a) && PoolRouting.Verdict(c, w, [a], None) == Err(Attempts(c, w, a, 1).error.value)
  {
    StopsExactly(c, w, a);
  }

  lemma VerdictOfLast(c: Config, w: World, tried: seq<nat>)
    requires tried != []
    ensures PoolRouting.Verdict(c, w, tried, None) == PoolRouting.Verdict(c, w, [tried[|tried| - 1]], None)
  {}

  /** A request on which every account it tries fails and passes on tries all the eligible ones, and ends with the last
    * error. */
  lemma EveryEligibleAccountIsTried(c: Config, w: World, now: Time, order: seq<nat>, accounts: seq<Account>)
    requires ValidOrder(order, accounts) && |order| <= ACCOUNTS && EligibleOf(order, accounts, now) != []
    requires forall a | a in Route(c, w, now, order, accounts, None, 0).tried :: FailsPassingOn(c, w, a)
    ensures var r := Route(c, w, now, order, accounts, None, 0); var eligible := EligibleOf(order, accounts, now);
      && r.tried == eligible && FailsPassingOn(c, w, eligible[|eligible| - 1])
      && r.result == Err(Attempts(c, w, eligible[|eligible| - 1], 1).error.value)
  {
    var tried, eligible := Route(c, w, now, order, accounts, None, 0).tried, EligibleOf(order, accounts, now);
    RouteStopsAtFirst(c, w, now, order, accounts, None, 0);
    forall a | a in UpToStop(c, w, eligible) ensures !Stops(c, w, a) { PassingDoesNotStop(c, w, a); }
    NobodyStops(c, w, eligible);
    var last := eligible[|eligible| - 1];
    assert last in tried;
    VerdictOfLast(c, w, eligible);
    PassingDoesNotStop(c, w, last);
  }

  /** The first healthy account behind failing ones that pass on answers the request. */
  lemma HealthyAccountIsReached(c: Config, w: World, now: Time, order: seq<nat>, accounts: seq<Account>, k: nat)
    requires ValidOrder(order, accounts) && |order| <= ACCOUNTS && k < |EligibleOf(order, accounts, now)|
    requires forall i | 0 <= i < k :: FailsPassingOn(c, w, EligibleOf(order, accounts, now)[i])
    requires Attempts(c, w, EligibleOf(order, accounts, now)[k], 1).error.None?
    ensures var r := Route(c, w, now, order, accounts, None, 0); var eligible := EligibleOf(order, accounts, now);
      r.tried == eligible[..k + 1] && r.result == Ok(eligible[k])
  {
    var eligible := EligibleOf(order, accounts, now);
    RouteStopsAtFirst(c, w, now, order, accounts, None, 0);
    forall i | 0 <= i < k ensures !Stops(c, w, eligible[i]) { PassingDoesNotStop(c, w, eligible[i]); }
    FirstStop(c, w, eligible, k);
  }

  /** In terms of the transport alone: accounts that end in a timeout or without a provider are all tried. */
  lemma TransportFailuresTryEveryAccount(c: Config, w: World, now: Time, order: seq<nat>, accounts: seq<Account>)
    requires ValidOrder(order, accounts) && |order| <= ACCOUNTS && EligibleOf(order, accounts, now) != []
    requires forall a | a in Route(c, w, now, order, accounts, None, 0).tried ::
      var error := Attempts(c, w, a, 1).error;
      && error.Some? && (error.value.reason == "provider_unavailable" || error.value.reason == "request_timeout")
      && error.value.phase !in {"request_validation", "response_decoding", "domain_parsing"}
      && !("schema_correction_" <= error.value.phase)
    ensures Route(c, w, now, order, accounts, None, 0).tried == EligibleOf(order, accounts, now)
  {
    forall a | a in Route(c, w, now, order, accounts, None, 0).tried ensures FailsPassingOn(c, w, a) {}
    EveryEligibleAccountIsTried(c, w, now, order, accounts);
  }

  // ---- cooling down ----

  /** The provider's own hint: the token reset after a token failure or with no tokens left, else the request reset; then
    * the rate reset; then the retry delay. */
  function HintOf(d: Details): Option<Hint> {
    var own := if d.reason == "token_quota_exhausted" || d.tokenRemaining == Some("0") then d.tokenReset
               else d.requestReset;
    match own
    case Some(_) => own
    case None => if d.rateReset.Some? then d.rateReset else d.retryAfter
  }

  /** When a hint lets an account back: a number beyond the clock is an instant, any other number and a duration are
    * seconds from now and at least one, a readable instant is itself, and the rest is the pool's own cooldown. */
  lemma ResetAtExactly(d: Details, now: Time, fallback: nat)
    ensures match HintOf(d)
      case Some(Number(v)) => ResetAt(d, now, fallback) == if v > now then v else if v >= 1 then now + v else now + 1
      case Some(Duration(v)) => ResetAt(d, now, fallback) == if v >= 1 then now + v else now + 1
      case Some(Instant(t)) => ResetAt(d, now, fallback) == t
      case _ => ResetAt(d, now, fallback) == now + fallback
  {}

  predicate ConfigurationFailure(reason: string) {
    || reason == "authentication_failed" || reason == "invalid_request" || reason == "model_unavailable"
    || reason == "provider_unconfigured"
  }

  /** What a charged failure leaves in an account, reason by reason: its status, and its cooldown, whose length is the
    * configured one of its kind when the provider gives no hint. */
  lemma FailureIsCharged(c: Config, s: Account, d: Details, now: Time)
    ensures var s' := FailedWith(c, s, d, now); var many := |Recent(s.recent, now, c.window)| + 1 >= c.threshold;
      && s'.enabled == s.enabled && s'.recent == Recent(s.recent, now, c.window) + [now]
      && (if ConfigurationFailure(d.reason) then
            s'.status == ConfigurationError && s'.deadline == Some(ResetAt(d, now, c.configurationCooldown))
          else if d.reason == "quota_exhausted" then
            s'.status == QuotaExhausted && s'.deadline == Some(ResetAt(d, now, c.quotaCooldown))
          else if d.reason == "token_quota_exhausted" || d.reason == "rate_limited" then
            s'.status == RateLimitedStatus && s'.deadline == Some(ResetAt(d, now, c.rateCooldown))
          else if many then s'.status == CircuitOpen && s'.deadline == Some(ResetAt(d, now, c.transportCircuit))
          else s'.status == Unknown && s'.deadline.None?)
  {}

  /** A failed account is asked again exactly from its deadline on; without one it stays in use. */
  lemma AccountReturnsExactly(c: Config, s: Account, d: Details, now: Time, later: Time)
    requires s.enabled
    ensures var s' := FailedWith(c, s, d, now);
      IsEligible(s', later) <==> s'.deadline.None? || later >= s'.deadline.value
  {}

  /** A new account is in use exactly with a key, and has no failures yet. */
  lemma NewAccounts(configured: bool, now: Time)
    ensures var s := Fresh(configured);
      && s.enabled == configured && s.status == (if configured then Status.Available else Disabled)
      && s.deadline.None? && s.recent == [] && (IsEligible(s, now) <==> configured)
  {}

  /** A returned analysis and a finished cooldown make an account AVAILABLE; both keep its failures in mind. */
  lemma AccountsRecover(s: Account, now: Time)
    ensures Succeeded(s) == s.(status := Status.Available, deadline := None)
    ensures Checked(s, now) ==
      if s.enabled && s.status != Disabled && s.deadline.Some? && s.deadline.value <= now then
        s.(status := Status.Available, deadline := None)
      else s
  {}

  /** Rejected answers, spent output budgets and preflight rejections are the caller's fault: they clear the account. */
  lemma CallersFaultsClear(c: Config, s: Account, d: Details, now: Time)
    ensures var mine := d.reason == "output_budget_exceeded" || d.reason == "schema_validation_error"
                        || d.reason == "json_generation_failed" || d.phase == "request_validation";
      Charged(c, s, d, now) == if mine then s.(status := Available, deadline := None) else FailedWith(c, s, d, now)
  {}

  /** The kept failures are exactly those at most a window old, each as often as it happened. */
  lemma {:induction false} RecentIsExact(times: seq<Time>, now: Time, window: nat, t: Time)
    ensures multiset(Recent(times, now, window))[t] == if now - t <= window then multiset(times)[t] else 0
    decreases |times|
  {
    if times != [] {
      RecentIsExact(times[1..], now, window, t);
      assert times == [times[0]] + times[1..];
    }
  }

  // ---- what follows a first reply ----

  predicate NothingLeft(remaining: Option<string>) {
    remaining.Some? && JsonSchemas.Strip(remaining.value) == "0"
  }

  /** A compact retry follows exactly a truncated response, a correction exactly a response that does not decode or does
    * not meet the contract while capacity is left; nothing follows anything else. */
  lemma FollowUpExactly(r: Reply)
    ensures FollowUp(r) == Some(CompactRetry) <==>
      (r.Failed? && r.details.reason == "truncated_response") || (r.Answered? && r.cut)
    ensures FollowUp(r) == Some(Correction) <==>
      || (r.Failed? && r.details.reason == "response_decoding_failed")
      || (r.Answered? && !r.cut && r.verdict.Invalid? && !NothingLeft(r.requestRemaining)
          && !NothingLeft(r.tokenRemaining))
    ensures FollowUp(r) != Some(Analysis)
  {}

  /** How a request on one account ends, by what came back. */
  lemma OutcomeExactly(first: Reply, second: Reply)
    ensures Outcome(first, second).None? <==>
      if FollowUp(first) == Some(CompactRetry) then second.Answered? && !second.cut && second.verdict.Valid?
      else if FollowUp(first) == Some(Correction) then second.Answered? && second.verdict.Valid?
      else first.Answered? && first.verdict.Valid?
    ensures FollowUp(first).None? && first.Failed? ==> Outcome(first, second) == Some(first.details)
    ensures FollowUp(first).None? && first.Rejected? ==>
      Outcome(first, second).Some? && Outcome(first, second).value.phase == "request_validation"
    ensures FollowUp(first) == Some(CompactRetry)
            && ((second.Answered? && second.cut)
                || (second.Failed? && second.details.reason == "truncated_response")) ==>
      Outcome(first, second).Some? && Outcome(first, second).value.reason == "output_budget_exceeded"
    ensures FollowUp(first) == Some(CompactRetry) && second.Answered? && !second.cut && second.verdict.Invalid? ==>
      Outcome(first, second).Some? && Outcome(first, second).value.reason == "schema_validation_error"
    ensures FollowUp(first) == Some(Correction) && second.Answered? && second.verdict.Invalid? ==>
      Outcome(first, second).Some? && Outcome(first, second).value.reason == "schema_validation_error"
    ensures FollowUp(first) == Some(Correction) && second.Failed? ==>
      Outcome(first, second).Some? && Outcome(first, second).value.reason == second.details.reason
      && Outcome(first, second).value.phase == "schema_correction_" + second.details.phase
  {}
}

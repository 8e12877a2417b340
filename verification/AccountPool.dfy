/** The pool of four accounts: rotation with failover, and a circuit breaker per account. */
module AccountPool {
  import opened Domain
  import opened ProviderAttempts

  datatype Status = Available | RateLimitedStatus | QuotaExhausted | CircuitOpen | ConfigurationError | Disabled | Unknown

  datatype Account = Account(enabled: bool, status: Status, deadline: Option<Time>, recent: seq<Time>)

  datatype Config = Config(maximumRetries: nat, rateCooldown: nat, quotaCooldown: nat, configurationCooldown: nat,
                           transportCircuit: nat, threshold: nat, window: nat)

  const ACCOUNTS := 4

  function Fresh(configured: bool): Account {
    Account(configured, if configured then Available else Disabled, None, [])
  }

  // ---- classification ----

  const CONFIGURATION_REASONS := {"authentication_failed", "invalid_request", "model_unavailable", "provider_unconfigured"}
  const LIMIT_REASONS := {"quota_exhausted", "token_quota_exhausted", "rate_limited"}
  const TRANSPORT_REASONS := {"provider_unavailable", "request_timeout"}

  predicate HardFailure(reason: string) {
    reason in CONFIGURATION_REASONS || reason in LIMIT_REASONS
  }

  predicate IsPolicyFailure(d: Details) {
    || d.reason in {"output_budget_exceeded", "schema_validation_error", "json_generation_failed"}
    || d.phase == "request_validation"
  }

  /** `_failover_allowed`. */
  predicate FailoverAllowed(d: Details) {
    && !("schema_correction_" <= d.phase)
    && d.phase !in {"request_validation", "response_decoding", "domain_parsing"}
    && (HardFailure(d.reason) || d.reason in TRANSPORT_REASONS)
  }

  // ---- deadlines ----

  function FirstHint(a: Option<Hint>, b: Option<Hint>, c: Option<Hint>): Option<Hint> {
    if a.Some? then a else if b.Some? then b else c
  }

  function AtLeastOne(n: int): int {
    if n < 1 then 1 else n
  }

  /** `_reset_at`: never in the past, except when the provider names an instant that is. */
  function ResetAt(d: Details, now: Time, fallback: nat): (at: Time)
    ensures (forall t :: d.tokenReset != Some(Instant(t)) && d.requestReset != Some(Instant(t))
                         && d.rateReset != Some(Instant(t)) && d.retryAfter != Some(Instant(t))) ==> at >= now
  {
    var first := if d.reason == "token_quota_exhausted" || d.tokenRemaining == Some("0") then d.tokenReset
                 else d.requestReset;
    match FirstHint(first, d.rateReset, d.retryAfter)
    case Some(Number(value)) => if value > now then value else now + AtLeastOne(value)
    case Some(Duration(seconds)) => now + AtLeastOne(seconds)
    case Some(Instant(at)) => at
    case _ => now + fallback
  }

  // ---- what each call does to one account ----

  function Recent(times: seq<Time>, now: Time, window: nat): seq<Time> {
    if times == [] then []
    else (if now - times[0] <= window then [times[0]] else []) + Recent(times[1..], now, window)
  }

  predicate IsEligible(s: Account, now: Time) {
    s.enabled && s.status != Disabled && (s.deadline.None? || now >= s.deadline.value)
  }

  /** `_eligible` also ends a cooldown that is over. */
  function Checked(s: Account, now: Time): Account {
    if IsEligible(s, now) && s.deadline.Some? then s.(deadline := None, status := Available) else s
  }

  function Succeeded(s: Account): Account {
    s.(status := Available, deadline := None)
  }

  function PolicyFailed(s: Account): Account {
    s.(status := Available, deadline := None)
  }

  function FailureStatus(reason: string): Status {
    if reason in CONFIGURATION_REASONS then ConfigurationError
    else if reason == "quota_exhausted" then QuotaExhausted
    else if reason in {"token_quota_exhausted", "rate_limited"} then RateLimitedStatus
    else Unknown
  }

  function Cooldown(c: Config, reason: string): nat {
    if reason in CONFIGURATION_REASONS then c.configurationCooldown
    else if reason == "quota_exhausted" then c.quotaCooldown
    else if reason in {"token_quota_exhausted", "rate_limited"} then c.rateCooldown
    else c.transportCircuit
  }

  /** `_failure`. */
  function FailedWith(c: Config, s: Account, d: Details, now: Time): Account {
    var recent := Recent(s.recent, now, c.window) + [now];
    if HardFailure(d.reason) || |recent| >= c.threshold then
      s.(status := if HardFailure(d.reason) then FailureStatus(d.reason) else CircuitOpen,
         deadline := Some(ResetAt(d, now, Cooldown(c, d.reason))), recent := recent)
    else s.(status := FailureStatus(d.reason), deadline := None, recent := recent)
  }

  // ---- a life of one account, as the events that concurrent requests cause ----

  datatype Event =
    | Check(now: Time)
    | Success
    | PolicyFailure
    | Failure(details: Details, now: Time)

  function Apply(c: Config, s: Account, e: Event): Account {
    match e
    case Check(now) => Checked(s, now)
    case Success => Succeeded(s)
    case PolicyFailure => PolicyFailed(s)
    case Failure(d, now) => FailedWith(c, s, d, now)
  }

  function After(c: Config, s: Account, events: seq<Event>): Account {
    if events == [] then s else Apply(c, After(c, s, events[..|events| - 1]), events[|events| - 1])
  }

  function FailureTimes(events: seq<Event>): seq<Time> {
    if events == [] then []
    else
      var last := events[|events| - 1];
      FailureTimes(events[..|events| - 1]) + (if last.Failure? then [last.now] else [])
  }

  ghost predicate Ascending(times: seq<Time>) {
    forall i, j | 0 <= i < j < |times| :: times[i] <= times[j]
  }

  /** The whole failure history, cut to the window before its last failure. */
  function InWindow(history: seq<Time>, window: nat): seq<Time> {
    if history == [] then [] else Recent(history, history[|history| - 1], window)
  }

  lemma Regroup(x: seq<Time>, y: seq<Time>, z: seq<Time>)
    ensures x + (y + z) == (x + y) + z
  {}

  function Kept(t: Time, now: Time, window: nat): seq<Time> {
    if now - t <= window then [t] else []
  }

  lemma {:induction false} RecentOfSnoc(times: seq<Time>, t: Time, now: Time, window: nat)
    ensures Recent(times + [t], now, window) == Recent(times, now, window) + Kept(t, now, window)
  {
    if times == [] {
      assert times + [t] == [t] && [t][1..] == [];
      assert Kept(t, now, window) + [] == Kept(t, now, window);
    } else {
      var rest := times[1..];
      RecentOfSnoc(rest, t, now, window);
      assert (times + [t])[1..] == rest + [t] && (times + [t])[0] == times[0];
      Regroup(Kept(times[0], now, window), Recent(rest, now, window), Kept(t, now, window));
    }
  }

  /** Everything inside the window at the later time was inside it at the earlier one. */
  ghost predicate NoneReturns(times: seq<Time>, earlier: Time, later: Time, window: nat) {
    forall i | 0 <= i < |times| :: later - times[i] <= window ==> earlier - times[i] <= window
  }

  /** Cutting at two times in turn is cutting at the later one exactly when nothing returns in between. */
  lemma {:induction false} RecentTwiceExactly(times: seq<Time>, earlier: Time, later: Time, window: nat)
    ensures |Recent(Recent(times, earlier, window), later, window)| <= |Recent(times, later, window)|
    ensures Recent(Recent(times, earlier, window), later, window) == Recent(times, later, window)
       <==> NoneReturns(times, earlier, later, window)
  {
    if times != [] {
      var head, rest := times[0], times[1..];
      RecentTwiceExactly(rest, earlier, later, window);
      var kept := Recent(rest, earlier, window);
      assert ([head] + kept)[1..] == kept;
      NoneReturnsCons(times, earlier, later, window);
      if earlier - head <= window {
        assert Recent(times, earlier, window) == [head] + kept;
        SameHead(Kept(head, later, window), Recent(kept, later, window), Recent(rest, later, window));
      } else {
        assert Recent(times, earlier, window) == kept;
        assert Recent(times, later, window) == Kept(head, later, window) + Recent(rest, later, window);
      }
    }
  }

  lemma NoneReturnsCons(times: seq<Time>, earlier: Time, later: Time, window: nat)
    requires times != []
    ensures NoneReturns(times, earlier, later, window) <==>
      (later - times[0] <= window ==> earlier - times[0] <= window) && NoneReturns(times[1..], earlier, later, window)
  {
    assert times == [times[0]] + times[1..];
  }

  lemma SameHead(head: seq<Time>, xs: seq<Time>, ys: seq<Time>)
    ensures head + xs == head + ys <==> xs == ys
  {
    if head + xs == head + ys {
      assert xs == (head + xs)[|head|..] && ys == (head + ys)[|head|..];
    }
  }

  lemma SameTail(xs: seq<Time>, ys: seq<Time>, tail: seq<Time>)
    ensures xs + tail == ys + tail <==> xs == ys
  {
    if xs + tail == ys + tail {
      assert |xs| == |ys|;
      assert xs == (xs + tail)[..|xs|] && ys == (ys + tail)[..|ys|];
    }
  }

  lemma RecentOfApply(c: Config, s: Account, e: Event)
    ensures Apply(c, s, e).recent == if e.Failure? then Recent(s.recent, e.now, c.window) + [e.now] else s.recent
  {}

  lemma HistoryOfSnoc(events: seq<Event>, e: Event)
    ensures FailureTimes(events + [e]) == if e.Failure? then FailureTimes(events) + [e.now] else FailureTimes(events)
  {}

  /** No failure that is outside the window at one failure is inside it at the next. */
  ghost predicate NeverReturns(times: seq<Time>, window: nat) {
    forall k | 0 < k < |times| :: NoneReturns(times[..k], times[k - 1], times[k], window)
  }

  lemma NeverReturnsSnoc(times: seq<Time>, now: Time, window: nat)
    requires times != []
    ensures NeverReturns(times + [now], window) <==>
      NeverReturns(times, window) && NoneReturns(times, times[|times| - 1], now, window)
  {
    var all := times + [now];
    assert forall k | 0 < k < |times| :: all[..k] == times[..k];
    assert all[..|times|] == times;
  }

  /** The list an account keeps is its full failure history cut to the window. */
  ghost predicate Refined(c: Config, configured: bool, events: seq<Event>) {
    After(c, Fresh(configured), events).recent == InWindow(FailureTimes(events), c.window)
  }

  lemma OneMoreFailure(times: seq<Time>, now: Time, window: nat)
    requires times != []
    ensures Recent(InWindow(times, window), now, window) + [now] == InWindow(times + [now], window)
       <==> NoneReturns(times, times[|times| - 1], now, window)
  {
    RecentTwiceExactly(times, times[|times| - 1], now, window);
    RecentOfSnoc(times, now, now, window);
    SameTail(Recent(InWindow(times, window), now, window), Recent(times, now, window), [now]);
  }

  lemma FirstFailure(now: Time, window: nat)
    ensures Recent(InWindow([], window), now, window) + [now] == InWindow([] + [now], window)
  {
    RecentOfSnoc([], now, now, window);
    assert [] + [now] == [now];
  }

  lemma RecentAfterEvent(c: Config, s: Account, events: seq<Event>, e: Event)
    ensures After(c, s, events + [e]).recent
         == if e.Failure? then Recent(After(c, s, events).recent, e.now, c.window) + [e.now]
            else After(c, s, events).recent
  {
    assert (events + [e])[..|events|] == events;
    RecentOfApply(c, After(c, s, events), e);
  }

  lemma RefinedStep(c: Config, configured: bool, events: seq<Event>, e: Event)
    requires Refined(c, configured, events)
    ensures var times := FailureTimes(events);
      Refined(c, configured, events + [e]) <==>
        (e.Failure? && times != [] ==> NoneReturns(times, times[|times| - 1], e.now, c.window))
  {
    RecentAfterEvent(c, Fresh(configured), events, e);
    HistoryOfSnoc(events, e);
    if e.Failure? {
      if FailureTimes(events) == [] {
        FirstFailure(e.now, c.window);
      } else {
        OneMoreFailure(FailureTimes(events), e.now, c.window);
      }
    }
  }

  ghost predicate RefinedThroughout(c: Config, configured: bool, events: seq<Event>) {
    forall n | 0 <= n <= |events| :: Refined(c, configured, events[..n])
  }

  lemma ThroughoutSnoc(c: Config, configured: bool, events: seq<Event>, e: Event)
    ensures RefinedThroughout(c, configured, events + [e]) <==>
      RefinedThroughout(c, configured, events) && Refined(c, configured, events + [e])
    ensures RefinedThroughout(c, configured, events) ==> Refined(c, configured, events)
  {
    var all := events + [e];
    assert forall n | 0 <= n <= |events| :: all[..n] == events[..n];
    assert all[..|all|] == all && events[..|events|] == events;
  }

  /** The exact condition on the clock: at every point of its life an account keeps its full failure history cut to the
    * window if and only if no failure outside the window at one failure is inside it at the next. */
  lemma {:induction false} HistoryIsRefinedExactly(c: Config, configured: bool, events: seq<Event>)
    ensures RefinedThroughout(c, configured, events) <==> NeverReturns(FailureTimes(events), c.window)
    decreases |events|
  {
    if events == [] {
      assert events[..0] == [];
    } else {
      var n := |events| - 1;
      var before, last := events[..n], events[n];
      assert events == before + [last];
      HistoryIsRefinedExactly(c, configured, before);
      ThroughoutSnoc(c, configured, before, last);
      HistoryOfSnoc(before, last);
      if Refined(c, configured, before) { RefinedStep(c, configured, before, last); }
      if last.Failure? && FailureTimes(before) != [] { NeverReturnsSnoc(FailureTimes(before), last.now, c.window); }
    }
  }

  lemma AscendingNeverReturns(times: seq<Time>, window: nat)
    requires Ascending(times)
    ensures NeverReturns(times, window)
  {}

  /** On a clock that does not go back the condition holds, whatever else happens to the account. */
  lemma {:induction false} RecentRefinesHistory(c: Config, configured: bool, events: seq<Event>)
    requires Ascending(FailureTimes(events))
    ensures After(c, Fresh(configured), events).recent == InWindow(FailureTimes(events), c.window)
  {
    AscendingNeverReturns(FailureTimes(events), c.window);
    HistoryIsRefinedExactly(c, configured, events);
    assert events[..|events|] == events;
  }

  lemma TimesOfThree(d: Details, t0: Time, t1: Time, t2: Time)
    ensures FailureTimes([Failure(d, t0), Failure(d, t1), Failure(d, t2)]) == [t0, t1, t2]
  {
    var e0: seq<Event>, e1, e2 := [], [Failure(d, t0)], [Failure(d, t0), Failure(d, t1)];
    assert e1 == e0 + [Failure(d, t0)] && e2 == e1 + [Failure(d, t1)];
    assert [Failure(d, t0), Failure(d, t1), Failure(d, t2)] == e2 + [Failure(d, t2)];
    HistoryOfSnoc(e0, Failure(d, t0));
    HistoryOfSnoc(e1, Failure(d, t1));
    HistoryOfSnoc(e2, Failure(d, t2));
  }

  lemma ThreeFailures(c: Config, d: Details, t0: Time, t1: Time, t2: Time)
    ensures var events := [Failure(d, t0), Failure(d, t1), Failure(d, t2)]; var w := c.window;
      After(c, Fresh(true), events).recent == Recent(Recent(Recent([], t0, w) + [t0], t1, w) + [t1], t2, w) + [t2]
  {
    var s := Fresh(true);
    var e0: seq<Event>, e1, e2 := [], [Failure(d, t0)], [Failure(d, t0), Failure(d, t1)];
    assert e1 == e0 + [Failure(d, t0)] && e2 == e1 + [Failure(d, t1)];
    assert [Failure(d, t0), Failure(d, t1), Failure(d, t2)] == e2 + [Failure(d, t2)];
    RecentAfterEvent(c, s, e0, Failure(d, t0));
    RecentAfterEvent(c, s, e1, Failure(d, t1));
    RecentAfterEvent(c, s, e2, Failure(d, t2));
  }

  lemma WindowKeepsAll()
    ensures Recent([0, 61, 60], 60, 60) == [0, 61, 60]
  {
    RecentOfSnoc([], 0, 60, 60);
    RecentOfSnoc([0], 61, 60, 60);
    RecentOfSnoc([0, 61], 60, 60, 60);
    assert [] + [0] == [0] && [0] + [61] == [0, 61] && [0, 61] + [60] == [0, 61, 60];
  }

  lemma StepsKeepTwo()
    ensures Recent(Recent(Recent([], 0, 60) + [0], 61, 60) + [61], 60, 60) + [60] == [61, 60]
  {
    RecentOfSnoc([], 0, 61, 60);
    RecentOfSnoc([], 61, 60, 60);
    assert [] + [0] == [0] && [] + [61] == [61];
  }

  /** An instance: a failure that was dropped would be back in the window. */
  lemma ClockMustNotGoBack(c: Config, d: Details)
    requires c.window == 60
    ensures var events := [Failure(d, 0), Failure(d, 61), Failure(d, 60)];
      After(c, Fresh(true), events).recent == [61, 60] && InWindow(FailureTimes(events), c.window) == [0, 61, 60]
  {
    TimesOfThree(d, 0, 61, 60);
    ThreeFailures(c, d, 0, 61, 60);
    StepsKeepTwo();
    WindowKeepsAll();
  }

  // ---- deadline and status ----

  predicate Cooling(status: Status) {
    status in {RateLimitedStatus, QuotaExhausted, CircuitOpen, ConfigurationError}
  }

  /** A deadline is set exactly in the four cooling states, and exactly an account without a key is disabled: such an
    * account is never eligible, so nothing but eligibility checks ever happens to it. */
  lemma {:induction false} DeadlineExactlyWhenCooling(c: Config, configured: bool, events: seq<Event>)
    requires configured || forall e | e in events :: e.Check?
    ensures var s := After(c, Fresh(configured), events);
      && (s.deadline.Some? <==> Cooling(s.status)) && (s.status == Disabled <==> !configured) && s.enabled == configured
  {
    if events != [] {
      var n := |events| - 1;
      assert events == events[..n] + [events[n]];
      DeadlineExactlyWhenCooling(c, configured, events[..n]);
    }
  }

  /** The breaker opens on a failure exactly when the reason is a hard one, or the whole failure history has at
    * least `threshold` entries in the window that ends now. */
  lemma BreakerOpensExactly(c: Config, configured: bool, events: seq<Event>, d: Details, now: Time)
    requires NeverReturns(FailureTimes(events + [Failure(d, now)]), c.window)
    ensures var s := After(c, Fresh(configured), events + [Failure(d, now)]);
      s.deadline.Some? <==>
        HardFailure(d.reason) || |Recent(FailureTimes(events) + [now], now, c.window)| >= c.threshold
  {
    var all := events + [Failure(d, now)];
    assert all[..|events|] == events;
    assert FailureTimes(all) == FailureTimes(events) + [now];
    HistoryIsRefinedExactly(c, configured, all);
    assert all[..|all|] == all;
  }

  // ---- metadata() is invisible to later requests ----

  /** Two views of one account that no request at or after `t` can tell apart. */
  predicate SameFrom(a: Account, b: Account, t: Time) {
    && a.enabled == b.enabled && a.recent == b.recent && (a.status == Disabled <==> b.status == Disabled)
    && (a.deadline == b.deadline || (a.deadline.Some? && a.deadline.value <= t && b.deadline.None?))
  }

  predicate NotBefore(e: Event, t: Time) {
    match e
    case Check(now) => t <= now
    case Failure(_, now) => t <= now
    case _ => true
  }

  lemma {:induction false} SameFromIsKept(c: Config, a: Account, b: Account, t: Time, events: seq<Event>)
    requires SameFrom(a, b, t) && forall i | 0 <= i < |events| :: NotBefore(events[i], t)
    ensures SameFrom(After(c, a, events), After(c, b, events), t)
  {
    if events != [] {
      var n := |events| - 1;
      assert forall i | 0 <= i < n :: NotBefore(events[..n][i], t);
      SameFromIsKept(c, a, b, t, events[..n]);
      assert NotBefore(events[n], t);
    }
  }

  /** A metadata call at t changes no answer about eligibility at t' >= t, whatever happens in between. */
  lemma MetadataIsInvisible(c: Config, s: Account, t: Time, events: seq<Event>, t': Time)
    requires t <= t' && forall i | 0 <= i < |events| :: NotBefore(events[i], t)
    ensures IsEligible(After(c, Checked(s, t), events), t') == IsEligible(After(c, s, events), t')
  {
    SameFromIsKept(c, s, Checked(s, t), t, events);
  }

  /** A request that read its clock before t can be affected: exactly when a cooldown ended in between. */
  lemma MetadataReachesOlderRequests(s: Account, t: Time, t': Time)
    requires t' < t
    ensures IsEligible(Checked(s, t), t') != IsEligible(s, t') <==>
      s.enabled && s.status != Disabled && s.deadline.Some? && t' < s.deadline.value <= t
  {}
}

/** `GroqProviderPool`: the object whose methods carry out the routing. An account object is present through the
  * contract of `GroqProvider.Reason`: how a request on it ends, and how far it moves its call counter. */
module ProviderPool {
  import opened Domain
  import opened ProviderAttempts
  import opened AccountPool
  import opened PoolRouting

  class GroqProviderPool {
    const config: Config
    var states: seq<Account>
    var rotationCursor: nat
    var retryAttempts: nat
    /** The account objects' own call counters. */
    var httpCalls: seq<nat>
    /** The pool's monotone call counts, kept as differences of the account counters. */
    var telemetryCalls: seq<nat>

    ghost predicate Valid()
      reads this
    {
      |states| == |telemetryCalls| == ACCOUNTS && rotationCursor < ACCOUNTS && telemetryCalls == httpCalls
    }

    constructor (config: Config, configured: seq<bool>)
      requires |configured| == ACCOUNTS
      ensures Valid() && this.config == config
      ensures states == seq(ACCOUNTS, i requires 0 <= i < ACCOUNTS => Fresh(configured[i]))
      ensures rotationCursor == retryAttempts == 0
    {
      this.config := config;
      states := seq(ACCOUNTS, i requires 0 <= i < ACCOUNTS => Fresh(configured[i]));
      rotationCursor, retryAttempts := 0, 0;
      httpCalls, telemetryCalls := [0, 0, 0, 0], [0, 0, 0, 0];
    }

    /** `_eligible`. */
    method Eligible(a: nat, now: Time) returns (ok: bool)
      requires a < |states|
      modifies this`states
      ensures ok == IsEligible(old(states)[a], now)
      ensures states == old(states)[a := Checked(old(states)[a], now)]
    {
      var state := states[a];
      if !state.enabled || state.status == Disabled {
        return false;
      }
      if state.deadline.None? || now >= state.deadline.value {
        if state.deadline.Some? {
          states := states[a := state.(deadline := None, status := Available)];
        }
        return true;
      }
      return false;
    }

    /** `_success`. */
    method Success(a: nat)
      requires a < |states|
      modifies this`states
      ensures states == old(states)[a := Succeeded(old(states)[a])]
    {
      states := states[a := states[a].(status := Available, deadline := None)];
    }

    /** `_failure`. */
    method Failure(a: nat, d: Details, now: Time)
      requires a < |states|
      modifies this`states
      ensures states == old(states)[a := FailedWith(config, old(states)[a], d, now)]
    {
      var state := states[a];
      state := state.(recent := Recent(state.recent, now, config.window) + [now]);
      var duration := config.transportCircuit;
      var configurationFailure := d.reason in CONFIGURATION_REASONS;
      if configurationFailure {
        state := state.(status := ConfigurationError);
        duration := config.configurationCooldown;
      } else if d.reason == "quota_exhausted" {
        state := state.(status := QuotaExhausted);
        duration := config.quotaCooldown;
      } else if d.reason == "token_quota_exhausted" {
        state := state.(status := RateLimitedStatus);
        duration := config.rateCooldown;
      } else if d.reason == "rate_limited" {
        state := state.(status := RateLimitedStatus);
        duration := config.rateCooldown;
      } else {
        state := state.(status := Unknown);
      }
      var shouldOpen := configurationFailure || d.reason in LIMIT_REASONS || |state.recent| >= config.threshold;
      state := state.(deadline := if shouldOpen then Some(ResetAt(d, now, duration)) else None);
      if state.deadline.Some? && !configurationFailure && d.reason !in LIMIT_REASONS {
        state := state.(status := CircuitOpen);
      }
      states := states[a := state];
    }

    /** `_policy_failure`. */
    method PolicyFailure(a: nat)
      requires a < |states|
      modifies this`states
      ensures states == old(states)[a := PolicyFailed(old(states)[a])]
    {
      states := states[a := states[a].(status := Available, deadline := None)];
    }

    /** `metadata`, as far as it reads and ends cooldowns. */
    method Metadata(now: Time) returns (available: nat)
      requires Valid()
      modifies this`states
      ensures Valid() && states == AllChecked(old(states), now)
      ensures available == |set a: nat | a < ACCOUNTS && IsEligible(old(states)[a], now)|
    {
      available := 0;
      var a := 0;
      ghost var seen: set<nat> := {};
      while a < ACCOUNTS
        invariant 0 <= a <= ACCOUNTS && Valid()
        invariant forall i | 0 <= i < ACCOUNTS ::
          states[i] == if i < a then Checked(old(states)[i], now) else old(states)[i]
        invariant seen == set i: nat | i < a && IsEligible(old(states)[i], now)
        invariant available == |seen|
      {
        var ok := Eligible(a, now);
        if ok {
          available := available + 1;
          seen := seen + {a};
        }
        a := a + 1;
      }
    }

    /** One call of the account object, with the calls it made added to the telemetry. */
    method CallAccount(a: nat, w: World, n: nat) returns (error: Option<Details>)
      requires Valid() && a < ACCOUNTS
      modifies this`telemetryCalls, this`httpCalls
      ensures Valid()
      ensures error == ReplyError(w, a, n)
      ensures telemetryCalls == Credited(old(telemetryCalls), a, ReplyCalls(w, a, n))
    {
      var callsBefore := httpCalls[a];
      error := ReplyError(w, a, n);
      httpCalls := httpCalls[a := httpCalls[a] + ReplyCalls(w, a, n)];
      telemetryCalls := telemetryCalls[a := telemetryCalls[a] + (httpCalls[a] - callsBefore)];
    }

    /** `_attempt`: the account object is asked until it answers, fails for good, or runs out of retries. */
    method Attempt(a: nat, w: World) returns (error: Option<Details>)
      requires Valid() && a < ACCOUNTS
      modifies this`retryAttempts, this`telemetryCalls, this`httpCalls
      ensures Valid()
      ensures var all := Attempts(config, w, a, 1);
        && error == all.error
        && retryAttempts == old(retryAttempts) + all.retries
        && telemetryCalls == Credited(old(telemetryCalls), a, all.calls)
    {
      ghost var all := Attempts(config, w, a, 1);
      ghost var rest := all;
      var n := 1;
      ghost var calls: nat, retries: nat := 0, 0;
      CreditedTwice(telemetryCalls, a, 0, 0);
      while true
        invariant 1 <= n <= config.maximumRetries + 1 && Valid()
        invariant Continues(all, rest, calls, retries) && rest == Attempts(config, w, a, n)
        invariant retryAttempts == old(retryAttempts) + retries
        invariant telemetryCalls == Credited(old(telemetryCalls), a, calls)
        decreases config.maximumRetries + 1 - n
      {
        ghost var before := telemetryCalls;
        error := CallAccount(a, w, n);
        rest := AttemptsStep(config, w, a, n, all, rest, calls, retries, error);
        CreditedStep(old(telemetryCalls), before, telemetryCalls, a, calls, ReplyCalls(w, a, n));
        calls := calls + ReplyCalls(w, a, n);
        if !Retryable(error) || n > config.maximumRetries {
          return;
        }
        n := n + 1;
        retries := retries + 1;
        retryAttempts := retryAttempts + 1;
      }
    }

    /** One turn of the routing loop: None when the account is skipped, else the error it ended with, if any. */
    method TryAccount(a: nat, w: World, now: Time) returns (turn: Option<Option<Details>>, ghost made: nat)
      requires Valid() && a < ACCOUNTS
      modifies this`states, this`retryAttempts, this`telemetryCalls, this`httpCalls
      ensures Valid()
      ensures turn == if IsEligible(old(states)[a], now) then Some(Attempts(config, w, a, 1).error) else None
      ensures states == TurnAccounts(config, w, now, a, old(states), turn)
      ensures made == if turn.None? then 0 else Attempts(config, w, a, 1).calls
      ensures Sum(telemetryCalls) == Sum(old(telemetryCalls)) + made
    {
      var eligible := Eligible(a, now);
      if !eligible {
        return None, 0;
      }
      var error := Attempt(a, w);
      made := Attempts(config, w, a, 1).calls;
      SumOfUpdate(old(telemetryCalls), a, made);
      if error.None? {
        Success(a);
        return Some(None), made;
      }
      var d := error.value;
      if d.reason in {"output_budget_exceeded", "schema_validation_error", "json_generation_failed"}
         || d.phase == "request_validation" {
        PolicyFailure(a);
      } else {
        Failure(a, d, w.ends(a));
      }
      return Some(Some(d)), made;
    }

    /** The loop of `reason` over the rotated accounts. */
    method TryInOrder(order: seq<nat>, w: World, now: Time) returns (result: Result<nat, Details>, ghost routed: Routed)
      requires Valid() && ValidOrder(order, states)
      modifies this`states, this`retryAttempts, this`telemetryCalls, this`httpCalls
      ensures Valid() && routed == Route(config, w, now, order, old(states), None, 0)
      ensures result == routed.result && states == routed.accounts
      ensures Sum(telemetryCalls) == Sum(old(telemetryCalls)) + routed.calls
    {
      routed := Route(config, w, now, order, states, None, 0);
      var last: Option<Details> := None;
      var attempted := 0;
      var left := order;
      ghost var calls: nat := 0;
      while left != []
        invariant Valid() && ValidOrder(left, states)
        invariant Remaining(routed, Route(config, w, now, left, states, last, attempted), calls)
        invariant Sum(telemetryCalls) == Sum(old(telemetryCalls)) + calls
      {
        var a, rest := left[0], left[1..];
        assert left == [a] + rest;
        EligibleCons(left, a, rest, states, now);
        ghost var before := states;
        var turn, made := TryAccount(a, w, now);
        TurnStep(config, w, now, a, rest, before, states, last, attempted, turn, made, routed, calls);
        calls := calls + made;
        left := rest;
        if turn.Some? {
          if turn.value.None? {
            return Ok(a), routed;
          }
          var d := turn.value.value;
          if attempted + 1 >= ACCOUNTS || !FailoverAllowed(d) {
            return Err(d), routed;
          }
          last := Some(d);
          attempted := attempted + 1;
        }
      }
      var available := Metadata(w.finish);
      result := Err(last.GetOr(POOL_UNAVAILABLE));
    }

    /** `reason`: rotate, then try the accounts in order. */
    method Reason(w: World, now: Time) returns (result: Result<nat, Details>, ghost routed: Routed)
      requires Valid()
      modifies this`states, this`rotationCursor, this`retryAttempts, this`telemetryCalls, this`httpCalls
      ensures Valid()
      ensures ValidOrder(Rotated(old(rotationCursor)), old(states)) && Rotated(old(rotationCursor))[0] == old(rotationCursor)
      ensures routed == Route(config, w, now, Rotated(old(rotationCursor)), old(states), None, 0)
      ensures result == routed.result && states == routed.accounts
      ensures rotationCursor == (old(rotationCursor) + 1) % ACCOUNTS
      ensures Sum(telemetryCalls) == Sum(old(telemetryCalls)) + routed.calls
    {
      var start := rotationCursor;
      rotationCursor := (rotationCursor + 1) % ACCOUNTS;
      RotatedIsValid(start, states);
      result, routed := TryInOrder(Rotated(start), w, now);
    }
  }

  // ---- any sequence of requests on one pool ----

  datatype Request = Request(world: World, now: Time)

  /** What a sequence of requests left behind: the account that had each first turn, the accounts before each request
    * and at the end, and the routings. */
  datatype History = History(firsts: seq<nat>, accounts: seq<seq<Account>>, routes: seq<Routed>)

  ghost predicate RoutedFrom(c: Config, r: Request, first: nat, accounts: seq<Account>, route: Routed) {
    && first < ACCOUNTS && ValidOrder(Rotated(first), accounts)
    && route == Route(c, r.world, r.now, Rotated(first), accounts, None, 0)
  }

  ghost predicate LinkAt(c: Config, r: Request, h: History, i: nat)
    requires i < |h.firsts| && i < |h.routes| && i + 1 < |h.accounts|
  {
    RoutedFrom(c, r, h.firsts[i], h.accounts[i], h.routes[i]) && h.accounts[i + 1] == h.routes[i].accounts
  }

  /** Each request is routed from the accounts that its predecessor left, and the turn passes on each time. */
  ghost predicate Consecutive(c: Config, requests: seq<Request>, cursor: nat, h: History) {
    && |h.firsts| == |h.routes| == |requests| && |h.accounts| == |requests| + 1 && InRotation(h.firsts, cursor)
    && forall i | 0 <= i < |requests| :: LinkAt(c, requests[i], h, i)
  }

  function TotalCalls(routes: seq<Routed>): nat {
    if routes == [] then 0 else TotalCalls(routes[..|routes| - 1]) + routes[|routes| - 1].calls
  }

  /** The requests so far have led from the first cursor and accounts to the present ones. */
  ghost predicate Leads(c: Config, requests: seq<Request>, cursor: nat, accounts: seq<Account>, h: History,
                        cursor': nat, accounts': seq<Account>)
  {
    && Consecutive(c, requests, cursor, h) && h.accounts[0] == accounts && h.accounts[|requests|] == accounts'
    && cursor' == (cursor + |requests|) % ACCOUNTS
  }

  /** Requests that reach the pool one after the other. */
  method Serve(pool: GroqProviderPool, requests: seq<Request>) returns (firsts: seq<nat>, ghost h: History)
    requires pool.Valid()
    modifies pool
    ensures pool.Valid() && h.firsts == firsts
    ensures Leads(pool.config, requests, old(pool.rotationCursor), old(pool.states), h, pool.rotationCursor, pool.states)
    ensures Sum(pool.telemetryCalls) == Sum(old(pool.telemetryCalls)) + TotalCalls(h.routes)
  {
    firsts, h := [], History([], [pool.states], []);
    var i := 0;
    while i < |requests|
      invariant 0 <= i <= |requests| && pool.Valid() && h.firsts == firsts
      invariant Leads(pool.config, requests[..i], old(pool.rotationCursor), old(pool.states), h,
                      pool.rotationCursor, pool.states)
      invariant Sum(pool.telemetryCalls) == Sum(old(pool.telemetryCalls)) + TotalCalls(h.routes)
    {
      var first := pool.rotationCursor;
      ghost var before := pool.states;
      var result, routed := pool.Reason(requests[i].world, requests[i].now);
      LeadsOn(pool.config, requests, i, old(pool.rotationCursor), old(pool.states), h, first, before, routed);
      firsts, h := firsts + [first], Extended(h, first, routed);
      i := i + 1;
    }
    assert requests[..i] == requests;
  }

  lemma LeadsOn(c: Config, requests: seq<Request>, i: nat, cursor: nat, accounts: seq<Account>, h: History,
                first: nat, before: seq<Account>, routed: Routed)
    requires i < |requests| && Leads(c, requests[..i], cursor, accounts, h, first, before)
    requires RoutedFrom(c, requests[i], first, before, routed)
    ensures Leads(c, requests[..i + 1], cursor, accounts, Extended(h, first, routed), (first + 1) % ACCOUNTS,
                  routed.accounts)
    ensures TotalCalls(Extended(h, first, routed).routes) == TotalCalls(h.routes) + routed.calls
    ensures Extended(h, first, routed).firsts == h.firsts + [first]
  {
    ConsecutiveSnoc(c, requests, i, cursor, h, first, routed);
    NextTurn(cursor + i);
  }

  lemma NextTurn(n: nat)
    ensures (n % ACCOUNTS + 1) % ACCOUNTS == (n + 1) % ACCOUNTS
  {}

  ghost function Extended(h: History, first: nat, routed: Routed): History {
    History(h.firsts + [first], h.accounts + [routed.accounts], h.routes + [routed])
  }

  lemma ConsecutiveSnoc(c: Config, requests: seq<Request>, i: nat, cursor: nat, h: History, first: nat, routed: Routed)
    requires i < |requests| && Consecutive(c, requests[..i], cursor, h)
    requires first == (cursor + i) % ACCOUNTS && RoutedFrom(c, requests[i], first, h.accounts[i], routed)
    ensures Consecutive(c, requests[..i + 1], cursor, Extended(h, first, routed))
    ensures Extended(h, first, routed).accounts[0] == h.accounts[0]
    ensures Extended(h, first, routed).accounts[i + 1] == routed.accounts
    ensures TotalCalls(Extended(h, first, routed).routes) == TotalCalls(h.routes) + routed.calls
  {
    assert (h.routes + [routed])[..|h.routes|] == h.routes;
    var h', served := Extended(h, first, routed), requests[..i + 1];
    forall j | 0 <= j <= i ensures LinkAt(c, served[j], h', j) {
      if j < i {
        assert LinkAt(c, requests[..i][j], h, j);
      }
    }
  }

  /** Over any run of requests on the pool: of 4k of them every account has the first turn in exactly k, and the account
    * whose turn it is is tried first if and only if it is eligible then. */
  lemma RequestsAreServedFairly(c: Config, requests: seq<Request>, cursor: nat, h: History)
    requires Consecutive(c, requests, cursor, h)
    ensures |requests| % ACCOUNTS == 0 ==> forall a: nat | a < ACCOUNTS :: multiset(h.firsts)[a] == |requests| / ACCOUNTS
    ensures forall i | 0 <= i < |requests| ::
      && h.firsts[i] < |h.accounts[i]|
      && (IsEligible(h.accounts[i][h.firsts[i]], requests[i].now)
          <==> h.routes[i].tried != [] && h.routes[i].tried[0] == h.firsts[i])
  {
    if |requests| % ACCOUNTS == 0 {
      forall a: nat | a < ACCOUNTS ensures multiset(h.firsts)[a] == |requests| / ACCOUNTS {
        StartsAreCounted(h.firsts, cursor, a);
        RotationIsFair(cursor, |requests| / ACCOUNTS, a);
      }
    }
    forall i | 0 <= i < |requests|
      ensures h.firsts[i] < |h.accounts[i]|
      ensures IsEligible(h.accounts[i][h.firsts[i]], requests[i].now)
         <==> h.routes[i].tried != [] && h.routes[i].tried[0] == h.firsts[i]
    {
      assert LinkAt(c, requests[i], h, i);
      FirstTurn(c, requests[i], h.firsts[i], h.accounts[i], h.routes[i]);
    }
  }

  lemma FirstTurn(c: Config, r: Request, first: nat, accounts: seq<Account>, route: Routed)
    requires RoutedFrom(c, r, first, accounts, route)
    ensures first < |accounts|
    ensures IsEligible(accounts[first], r.now) <==> route.tried != [] && route.tried[0] == first
  {
    assert Rotated(first)[0] == first;
    EligibleFirstIsTriedFirst(c, r.world, r.now, Rotated(first), accounts);
  }

  /** Retries of which a part is done. */
  ghost predicate Continues(all: Attempted, rest: Attempted, calls: nat, retries: nat) {
    all.error == rest.error && all.calls == calls + rest.calls && all.retries == retries + rest.retries
  }

  /** One call more: it ended the attempts, or leaves the attempts from the next one on. */
  lemma AttemptsStep(c: Config, w: World, a: nat, n: nat, all: Attempted, rest: Attempted, calls: nat, retries: nat,
                     error: Option<Details>) returns (next: Attempted)
    requires 1 <= n <= c.maximumRetries + 1 && error == ReplyError(w, a, n) && rest == Attempts(c, w, a, n)
    requires Continues(all, rest, calls, retries)
    ensures var made := ReplyCalls(w, a, n);
      if !Retryable(error) || n > c.maximumRetries then all == Attempted(error, calls + made, retries)
      else next == Attempts(c, w, a, n + 1) && Continues(all, next, calls + made, retries + 1)
  {
    next := if !Retryable(error) || n > c.maximumRetries then rest else Attempts(c, w, a, n + 1);
  }

  /** A routing of which a part is done: the rest gives the same result, and the rest of the calls. */
  ghost predicate Remaining(all: Routed, rest: Routed, calls: nat) {
    all.accounts == rest.accounts && all.result == rest.result && all.calls == calls + rest.calls
  }

  ghost predicate TurnLeaves(c: Config, w: World, now: Time, rest: seq<nat>, after: seq<Account>,
                             last: Option<Details>, attempted: nat, a: nat, turn: Option<Option<Details>>,
                             all: Routed, calls: nat)
    requires ValidOrder(rest, after)
  {
    match turn
    case None => Remaining(all, Route(c, w, now, rest, after, last, attempted), calls)
    case Some(error) =>
      match error
      case None => all.result == Ok(a) && all.accounts == after && all.calls == calls
      case Some(d) =>
        if attempted + 1 >= ACCOUNTS || !FailoverAllowed(d) then
          all.result == Err(d) && all.accounts == after && all.calls == calls
        else Remaining(all, Route(c, w, now, rest, after, Some(d), attempted + 1), calls)
  }

  /** What one turn leaves of the routing. */
  lemma TurnStep(c: Config, w: World, now: Time, a: nat, rest: seq<nat>, before: seq<Account>, after: seq<Account>,
                 last: Option<Details>, attempted: nat, turn: Option<Option<Details>>, made: nat, all: Routed,
                 calls: nat)
    requires ValidOrder([a] + rest, before) && ValidOrder(rest, before) && a < |before|
    requires turn == if IsEligible(before[a], now) then Some(Attempts(c, w, a, 1).error) else None
    requires after == TurnAccounts(c, w, now, a, before, turn)
    requires made == if turn.None? then 0 else Attempts(c, w, a, 1).calls
    requires Remaining(all, Route(c, w, now, [a] + rest, before, last, attempted), calls)
    ensures ValidOrder(rest, after)
    ensures TurnLeaves(c, w, now, rest, after, last, attempted, a, turn, all, calls + made)
  {}

  function TurnAccounts(c: Config, w: World, now: Time, a: nat, accounts: seq<Account>, turn: Option<Option<Details>>)
    : seq<Account>
    requires a < |accounts|
  {
    match turn
    case None => accounts
    case Some(error) =>
      var s := Checked(accounts[a], now);
      accounts[a := match error { case None => Succeeded(s) case Some(d) => Charged(c, s, d, w.ends(a)) }]
  }

  function Credited(counts: seq<nat>, a: nat, more: nat): seq<nat>
    requires a < |counts|
  {
    counts[a := counts[a] + more]
  }

  lemma CreditedTwice(counts: seq<nat>, a: nat, first: nat, second: nat)
    requires a < |counts|
    ensures Credited(Credited(counts, a, first), a, second) == Credited(counts, a, first + second)
    ensures Credited(counts, a, 0) == counts
  {}

  lemma CreditedStep(start: seq<nat>, before: seq<nat>, after: seq<nat>, a: nat, calls: nat, more: nat)
    requires a < |start| && before == Credited(start, a, calls) && after == Credited(before, a, more)
    ensures after == Credited(start, a, calls + more)
  {
    CreditedTwice(start, a, calls, more);
  }

  function Sum(s: seq<nat>): nat {
    if s == [] then 0 else s[0] + Sum(s[1..])
  }

  lemma {:induction false} SumOfUpdate(s: seq<nat>, a: nat, more: nat)
    requires a < |s|
    ensures Sum(Credited(s, a, more)) == Sum(s) + more
  {
    var t := Credited(s, a, more);
    if a == 0 {
      assert t[1..] == s[1..];
    } else {
      SumOfUpdate(s[1..], a - 1, more);
      assert t[1..] == Credited(s[1..], a - 1, more);
    }
  }

  lemma RotatedIsValid(start: nat, accounts: seq<Account>)
    requires start < ACCOUNTS && |accounts| == ACCOUNTS
    ensures ValidOrder(Rotated(start), accounts) && |Rotated(start)| == ACCOUNTS && Rotated(start)[0] == start
  {
    if start == 0 {
      assert Rotated(start) == [0, 1, 2, 3];
    } else if start == 1 {
      assert Rotated(start) == [1, 2, 3, 0];
    } else if start == 2 {
      assert Rotated(start) == [2, 3, 0, 1];
    } else {
      assert Rotated(start) == [3, 0, 1, 2];
    }
  }

  lemma RouteReturns(c: Config, w: World, now: Time, a: nat, rest: seq<nat>, accounts: seq<Account>,
                     last: Option<Details>, attempted: nat)
    requires ValidOrder([a] + rest, accounts) && a < |accounts| && IsEligible(accounts[a], now)
    requires Attempts(c, w, a, 1).error.None?
    ensures Route(c, w, now, [a] + rest, accounts, last, attempted)
         == Routed(accounts[a := Succeeded(Checked(accounts[a], now))], [a], Ok(a), Attempts(c, w, a, 1).calls)
  {}

  lemma RouteRaises(c: Config, w: World, now: Time, a: nat, rest: seq<nat>, accounts: seq<Account>,
                    last: Option<Details>, attempted: nat, d: Details)
    requires ValidOrder([a] + rest, accounts) && a < |accounts| && IsEligible(accounts[a], now)
    requires Attempts(c, w, a, 1).error == Some(d)
    requires attempted + 1 >= ACCOUNTS || !FailoverAllowed(d)
    ensures Route(c, w, now, [a] + rest, accounts, last, attempted)
         == Routed(accounts[a := Charged(c, Checked(accounts[a], now), d, w.ends(a))], [a], Err(d),
                   Attempts(c, w, a, 1).calls)
  {}

  // ---- a request acts on each account only through the breaker's events ----

  lemma {:induction false} AfterAppend(c: Config, s: Account, first: seq<Event>, second: seq<Event>)
    ensures After(c, s, first + second) == After(c, After(c, s, first), second)
  {
    if second == [] {
      assert first + second == first;
    } else {
      var n := |second| - 1;
      assert (first + second)[..|first| + n] == first + second[..n];
      AfterAppend(c, s, first, second[..n]);
    }
  }

  lemma TwoEvents(c: Config, s: Account, e: Event, f: Event)
    ensures After(c, s, [e, f]) == Apply(c, Apply(c, s, e), f)
  {
    assert [e, f][..1] == [e] && [e][..0] == [];
    assert After(c, s, [e]) == Apply(c, s, e);
  }

  /** Every failure among the events happened at the given time. */
  ghost predicate FailuresAt(events: seq<Event>, at: Time) {
    forall e | e in events && e.Failure? :: e.now == at
  }

  function ChargeEvent(d: Details, now: Time): Event {
    if IsPolicyFailure(d) then PolicyFailure else Failure(d, now)
  }

  /** Whatever a request does to an account is a run of the account's own events, so the breaker's history laws hold
    * for the pool. */
  lemma {:induction false} RouteActsByEvents(c: Config, w: World, now: Time, order: seq<nat>, accounts: seq<Account>,
                                             last: Option<Details>, attempted: nat, i: nat)
    returns (events: seq<Event>)
    requires ValidOrder(order, accounts) && i < |accounts|
    ensures |Route(c, w, now, order, accounts, last, attempted).accounts| == |accounts|
    ensures Route(c, w, now, order, accounts, last, attempted).accounts[i] == After(c, accounts[i], events)
    ensures FailuresAt(events, w.ends(i)) && (!accounts[i].enabled ==> forall e | e in events :: e.Check?)
    decreases |order|
  {
    if order == [] {
      events := [Check(w.finish)];
      assert events[..0] == [];
      return;
    }
    var a, rest := order[0], order[1..];
    assert order == [a] + rest;
    EligibleCons(order, a, rest, accounts, now);
    if !IsEligible(accounts[a], now) {
      RouteSkips(c, w, now, a, rest, accounts, last, attempted);
      events := RouteActsByEvents(c, w, now, rest, accounts, last, attempted, i);
    } else if Attempts(c, w, a, 1).error.None? {
      RouteReturns(c, w, now, a, rest, accounts, last, attempted);
      TwoEvents(c, accounts[a], Check(now), Success);
      events := if i == a then [Check(now), Success] else [];
    } else {
      events := FailedTurnActsByEvents(c, w, now, a, rest, accounts, last, attempted, i);
    }
  }

  lemma {:induction false} FailedTurnActsByEvents(c: Config, w: World, now: Time, a: nat, rest: seq<nat>,
                                                  accounts: seq<Account>, last: Option<Details>, attempted: nat,
                                                  i: nat)
    returns (events: seq<Event>)
    requires ValidOrder([a] + rest, accounts) && ValidOrder(rest, accounts) && a < |accounts| && i < |accounts|
    requires IsEligible(accounts[a], now) && Attempts(c, w, a, 1).error.Some?
    ensures |Route(c, w, now, [a] + rest, accounts, last, attempted).accounts| == |accounts|
    ensures Route(c, w, now, [a] + rest, accounts, last, attempted).accounts[i] == After(c, accounts[i], events)
    ensures FailuresAt(events, w.ends(i)) && (!accounts[i].enabled ==> forall e | e in events :: e.Check?)
    decreases 1 + |rest|, 0
  {
    var d := Attempts(c, w, a, 1).error.value;
    var charged := accounts[a := Charged(c, Checked(accounts[a], now), d, w.ends(a))];
    TwoEvents(c, accounts[a], Check(now), ChargeEvent(d, w.ends(a)));
    var mine: seq<Event> := if i == a then [Check(now), ChargeEvent(d, w.ends(a))] else [];
    assert charged[i] == After(c, accounts[i], mine);
    if attempted + 1 >= ACCOUNTS || !FailoverAllowed(d) {
      RouteRaises(c, w, now, a, rest, accounts, last, attempted, d);
      events := mine;
    } else {
      RouteFailsOver(c, w, now, a, rest, accounts, last, attempted, d);
      var others := RouteActsByEvents(c, w, now, rest, charged, Some(d), attempted + 1, i);
      AfterAppend(c, accounts[i], mine, others);
      events := mine + others;
    }
  }
}

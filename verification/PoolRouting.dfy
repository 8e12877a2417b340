/** One request through the pool: which accounts are tried, in which order, and what comes out. */
module PoolRouting {
  import opened Domain
  import opened ProviderAttempts
  import opened AccountPool

  /** What the outside does during one request: the replies each account would get on each attempt, and the clock
    * when an account's failure is recorded and when the request gives up. */
  datatype World = World(replies: (nat, nat) -> (Reply, Reply), ends: nat -> Time, finish: Time)

  datatype Attempted = Attempted(error: Option<Details>, calls: nat, retries: nat)

  /** How the n-th call of an account object ends. */
  function ReplyError(w: World, a: nat, n: nat): Option<Details> {
    Outcome(w.replies(a, n).0, w.replies(a, n).1)
  }

  function ReplyCalls(w: World, a: nat, n: nat): nat {
    WireCalls(w.replies(a, n).0, w.replies(a, n).1)
  }

  predicate Retryable(error: Option<Details>) {
    error.Some? && error.value.reason in TRANSPORT_REASONS
  }

  /** `_attempt`: transport failures are retried on the same account. */
  function Attempts(c: Config, w: World, a: nat, n: nat): Attempted
    requires 1 <= n <= c.maximumRetries + 1
    decreases c.maximumRetries + 1 - n
  {
    var error := ReplyError(w, a, n);
    if !Retryable(error) || n > c.maximumRetries then Attempted(error, ReplyCalls(w, a, n), 0)
    else
      var rest := Attempts(c, w, a, n + 1);
      Attempted(rest.error, ReplyCalls(w, a, n) + rest.calls, 1 + rest.retries)
  }

  const POOL_UNAVAILABLE :=
    Details("provider_pool_unavailable", "provider_routing", None, None, None, None, None, None, None, None)

  datatype Routed = Routed(accounts: seq<Account>, tried: seq<nat>, result: Result<nat, Details>, calls: nat)

  function AllChecked(accounts: seq<Account>, now: Time): seq<Account> {
    seq(|accounts|, i requires 0 <= i < |accounts| => Checked(accounts[i], now))
  }

  function Charged(c: Config, s: Account, d: Details, now: Time): Account {
    if IsPolicyFailure(d) then PolicyFailed(s) else FailedWith(c, s, d, now)
  }

  predicate ValidOrder(order: seq<nat>, accounts: seq<Account>) {
    && (forall i | 0 <= i < |order| :: order[i] < |accounts|)
    && forall i, j | 0 <= i < j < |order| :: order[i] != order[j]
  }

  /** The routing loop of `reason`, from some point on. */
  function Route(c: Config, w: World, now: Time, order: seq<nat>, accounts: seq<Account>, last: Option<Details>,
                 attempted: nat): Routed
    requires ValidOrder(order, accounts)
  {
    if order == [] then
      Routed(AllChecked(accounts, w.finish), [], Err(last.GetOr(POOL_UNAVAILABLE)), 0)
    else
      var a := order[0];
      if !IsEligible(accounts[a], now) then Route(c, w, now, order[1..], accounts, last, attempted)
      else
        var s := Checked(accounts[a], now);
        var tried := Attempts(c, w, a, 1);
        if tried.error.None? then Routed(accounts[a := Succeeded(s)], [a], Ok(a), tried.calls)
        else
          var d := tried.error.value;
          var charged := accounts[a := Charged(c, s, d, w.ends(a))];
          if attempted + 1 >= ACCOUNTS || !FailoverAllowed(d) then Routed(charged, [a], Err(d), tried.calls)
          else
            var rest := Route(c, w, now, order[1..], charged, Some(d), attempted + 1);
            rest.(tried := [a] + rest.tried, calls := tried.calls + rest.calls)
  }

  // ---- what it means ----

  function EligibleOf(order: seq<nat>, accounts: seq<Account>, now: Time): seq<nat>
    requires ValidOrder(order, accounts)
  {
    if order == [] then []
    else (if IsEligible(accounts[order[0]], now) then [order[0]] else []) + EligibleOf(order[1..], accounts, now)
  }

  predicate Stops(c: Config, w: World, a: nat) {
    var error := Attempts(c, w, a, 1).error;
    error.None? || !FailoverAllowed(error.value)
  }

  /** A list cut after its first stopping account. */
  function UpToStop(c: Config, w: World, list: seq<nat>): seq<nat> {
    if list == [] then []
    else if Stops(c, w, list[0]) then [list[0]]
    else [list[0]] + UpToStop(c, w, list[1..])
  }

  /** The last account tried decides; with none tried the pool is unavailable. */
  function Verdict(c: Config, w: World, tried: seq<nat>, last: Option<Details>): Result<nat, Details> {
    if tried == [] then Err(last.GetOr(POOL_UNAVAILABLE))
    else
      var a := tried[|tried| - 1];
      match Attempts(c, w, a, 1).error
      case None => Ok(a)
      case Some(d) => Err(d)
  }

  lemma {:induction false} EligibilityOfOthers(order: seq<nat>, accounts: seq<Account>, now: Time, a: nat, s: Account)
    requires ValidOrder(order, accounts) && a < |accounts| && a !in order
    ensures EligibleOf(order, accounts[a := s], now) == EligibleOf(order, accounts, now)
  {
    if order != [] {
      assert order[0] in order;
      EligibilityOfOthers(order[1..], accounts, now, a, s);
    }
  }

  lemma EligibleCons(order: seq<nat>, a: nat, rest: seq<nat>, accounts: seq<Account>, now: Time)
    requires ValidOrder(order, accounts) && order == [a] + rest
    ensures a < |accounts| && ValidOrder(rest, accounts) && a !in rest
    ensures EligibleOf(order, accounts, now)
         == if IsEligible(accounts[a], now) then [a] + EligibleOf(rest, accounts, now)
            else EligibleOf(rest, accounts, now)
  {
    assert order[0] == a && order[1..] == rest;
    assert forall i | 0 <= i < |rest| :: rest[i] == order[i + 1];
    assert [] + EligibleOf(rest, accounts, now) == EligibleOf(rest, accounts, now);
  }

  /** The accounts tried are those eligible when the request began, in order, up to the first that succeeds or fails
    * with an error that forbids failover; the last one tried gives the result. */
  lemma {:induction false} RouteStopsAtFirst(c: Config, w: World, now: Time, order: seq<nat>, accounts: seq<Account>,
                                             last: Option<Details>, attempted: nat)
    requires ValidOrder(order, accounts) && attempted + |order| <= ACCOUNTS
    ensures Explained(c, w, Route(c, w, now, order, accounts, last, attempted),
                      EligibleOf(order, accounts, now), last)
    decreases |order|
  {
    if order != [] {
      var a, rest := order[0], order[1..];
      assert order == [a] + rest;
      EligibleCons(order, a, rest, accounts, now);
      if !IsEligible(accounts[a], now) {
        RouteStopsAtFirst(c, w, now, rest, accounts, last, attempted);
        RouteSkips(c, w, now, a, rest, accounts, last, attempted);
      } else {
        RouteTries(c, w, now, a, rest, accounts, last, attempted);
      }
    }
  }

  lemma {:induction false} RouteTries(c: Config, w: World, now: Time, a: nat, rest: seq<nat>, accounts: seq<Account>,
                                      last: Option<Details>, attempted: nat)
    requires ValidOrder([a] + rest, accounts) && ValidOrder(rest, accounts) && a < |accounts| && a !in rest
    requires attempted + 1 + |rest| <= ACCOUNTS && IsEligible(accounts[a], now)
    ensures Explained(c, w, Route(c, w, now, [a] + rest, accounts, last, attempted),
                      [a] + EligibleOf(rest, accounts, now), last)
    decreases 1 + |rest|, 1
  {
    if Stops(c, w, a) || attempted + 1 >= ACCOUNTS {
      var r := Route(c, w, now, [a] + rest, accounts, last, attempted);
      RouteEnds(c, w, now, a, rest, accounts, last, attempted);
      EndIsExplained(c, w, r, a, EligibleOf(rest, accounts, now), last);
    } else {
      RouteGoesOn(c, w, now, a, rest, accounts, last, attempted, Attempts(c, w, a, 1).error.value);
    }
  }

  lemma {:induction false} RouteGoesOn(c: Config, w: World, now: Time, a: nat, rest: seq<nat>, accounts: seq<Account>,
                                       last: Option<Details>, attempted: nat, d: Details)
    requires ValidOrder([a] + rest, accounts) && ValidOrder(rest, accounts) && a < |accounts| && a !in rest
    requires attempted + 1 + |rest| <= ACCOUNTS && IsEligible(accounts[a], now)
    requires Attempts(c, w, a, 1).error == Some(d) && FailoverAllowed(d) && attempted + 1 < ACCOUNTS
    ensures Explained(c, w, Route(c, w, now, [a] + rest, accounts, last, attempted),
                      [a] + EligibleOf(rest, accounts, now), last)
    decreases 1 + |rest|, 0
  {
    var r := Route(c, w, now, [a] + rest, accounts, last, attempted);
    var charged := accounts[a := Charged(c, Checked(accounts[a], now), d, w.ends(a))];
    EligibilityOfOthers(rest, accounts, now, a, charged[a]);
    RouteStopsAtFirst(c, w, now, rest, charged, Some(d), attempted + 1);
    RouteFailsOver(c, w, now, a, rest, accounts, last, attempted, d);
    FailoverIsExplained(c, w, r, Route(c, w, now, rest, charged, Some(d), attempted + 1), a,
                        EligibleOf(rest, accounts, now), d, last);
  }

  lemma RouteSkips(c: Config, w: World, now: Time, a: nat, rest: seq<nat>, accounts: seq<Account>,
                   last: Option<Details>, attempted: nat)
    requires ValidOrder([a] + rest, accounts) && ValidOrder(rest, accounts) && a < |accounts|
    requires !IsEligible(accounts[a], now)
    ensures Route(c, w, now, [a] + rest, accounts, last, attempted)
         == Route(c, w, now, rest, accounts, last, attempted)
  {}

  lemma RouteFailsOver(c: Config, w: World, now: Time, a: nat, rest: seq<nat>, accounts: seq<Account>,
                       last: Option<Details>, attempted: nat, d: Details)
    requires ValidOrder([a] + rest, accounts) && ValidOrder(rest, accounts) && a < |accounts|
    requires IsEligible(accounts[a], now) && Attempts(c, w, a, 1).error == Some(d)
    requires attempted + 1 < ACCOUNTS && FailoverAllowed(d)
    ensures var charged := accounts[a := Charged(c, Checked(accounts[a], now), d, w.ends(a))];
      var r := Route(c, w, now, rest, charged, Some(d), attempted + 1);
      Route(c, w, now, [a] + rest, accounts, last, attempted)
      == Routed(r.accounts, [a] + r.tried, r.result, Attempts(c, w, a, 1).calls + r.calls)
  {}

  lemma RouteEnds(c: Config, w: World, now: Time, a: nat, rest: seq<nat>, accounts: seq<Account>,
                  last: Option<Details>, attempted: nat)
    requires ValidOrder([a] + rest, accounts) && a < |accounts| && IsEligible(accounts[a], now)
    requires Stops(c, w, a) || attempted + 1 >= ACCOUNTS
    ensures var r := Route(c, w, now, [a] + rest, accounts, last, attempted);
      r.tried == [a] && r.result == Verdict(c, w, [a], last) && r.calls == Attempts(c, w, a, 1).calls
  {}

  ghost predicate Explained(c: Config, w: World, r: Routed, eligible: seq<nat>, last: Option<Details>) {
    r.tried == UpToStop(c, w, eligible) && r.result == Verdict(c, w, r.tried, last)
  }

  lemma FailoverIsExplained(c: Config, w: World, r: Routed, rest: Routed, a: nat, eligible: seq<nat>, d: Details,
                            last: Option<Details>)
    requires !Stops(c, w, a) && Attempts(c, w, a, 1).error == Some(d)
    requires Explained(c, w, rest, eligible, Some(d)) && r.tried == [a] + rest.tried && r.result == rest.result
    ensures Explained(c, w, r, [a] + eligible, last)
  {}

  lemma EndIsExplained(c: Config, w: World, r: Routed, a: nat, eligible: seq<nat>, last: Option<Details>)
    requires r.tried == [a] && r.result == Verdict(c, w, [a], last)
    requires Stops(c, w, a) || eligible == []
    ensures Explained(c, w, r, [a] + eligible, last)
  {}

  lemma {:induction false} UpToStopIsPrefix(c: Config, w: World, list: seq<nat>)
    ensures UpToStop(c, w, list) <= list
    ensures forall i | 0 <= i < |UpToStop(c, w, list)| - 1 :: !Stops(c, w, UpToStop(c, w, list)[i])
    ensures UpToStop(c, w, list) != list ==>
      UpToStop(c, w, list) != [] && Stops(c, w, UpToStop(c, w, list)[|UpToStop(c, w, list)| - 1])
  {
    if list != [] && !Stops(c, w, list[0]) {
      UpToStopIsPrefix(c, w, list[1..]);
      assert list == [list[0]] + list[1..];
    }
  }

  /** The accounts tried are a prefix of the eligible ones; all but the last failed with an error that allows
    * failover; the last one decides; and the prefix is proper only if the last one stopped the search. */
  lemma FirstSuccessIsReturned(c: Config, w: World, now: Time, order: seq<nat>, accounts: seq<Account>)
    requires ValidOrder(order, accounts) && |order| <= ACCOUNTS
    ensures var r := Route(c, w, now, order, accounts, None, 0);
      var eligible := EligibleOf(order, accounts, now);
      && r.tried <= eligible
      && (forall i | 0 <= i < |r.tried| - 1 :: !Stops(c, w, r.tried[i]))
      && r.result == Verdict(c, w, r.tried, None)
      && (r.tried != eligible ==> r.tried != [] && Stops(c, w, r.tried[|r.tried| - 1]))
  {
    RouteStopsAtFirst(c, w, now, order, accounts, None, 0);
    UpToStopIsPrefix(c, w, EligibleOf(order, accounts, now));
  }

  // ---- what a request on one account means for the pool ----

  /** Once a correction was asked for, or was due without capacity left, the request stays on this account. */
  lemma CorrectionsNeverFailOver(first: Reply, second: Reply)
    requires FollowUp(first) == Some(Correction) || (FollowUp(first).None? && first.Answered? && first.verdict.Invalid?)
    ensures Outcome(first, second).Some? ==> !FailoverAllowed(Outcome(first, second).value)
  {
    var outcome := Outcome(first, second);
    if outcome.Some? && FollowUp(first) == Some(Correction) && !second.Answered? {
      assert outcome.value.phase == "schema_correction_" + ErrorOf(second).phase;
      assert "schema_correction_" <= outcome.value.phase;
    }
  }

  /** An answer that stays invalid, or is cut twice, leaves the account available; a correction that lacks capacity
    * is charged to its breaker as a rate limit. */
  lemma InvalidAnswersAreNotCharged(c: Config, s: Account, first: Reply, second: Reply, now: Time)
    requires first.Answered? && Outcome(first, second).Some? && (FollowUp(first).None? || second.Answered?)
    ensures var d := Outcome(first, second).value; var charged := Charged(c, s, d, now);
      if FollowUp(first).None? then
        charged.status == RateLimitedStatus && charged.deadline.Some? && charged.recent != []
      else charged == s.(status := Available, deadline := None)
  {}

  // ---- bounds ----

  lemma {:induction false} AttemptsAreBounded(c: Config, w: World, a: nat, n: nat)
    requires 1 <= n <= c.maximumRetries + 1
    ensures Attempts(c, w, a, n).calls <= 2 * (c.maximumRetries + 2 - n)
    ensures Attempts(c, w, a, n).retries <= c.maximumRetries + 1 - n
    decreases c.maximumRetries + 1 - n
  {
    if n <= c.maximumRetries { AttemptsAreBounded(c, w, a, n + 1); }
  }

  lemma {:induction false} TriedAreBounded(order: seq<nat>, accounts: seq<Account>, now: Time)
    requires ValidOrder(order, accounts)
    ensures |EligibleOf(order, accounts, now)| <= |order|
    ensures forall a | a in EligibleOf(order, accounts, now) :: a in order && IsEligible(accounts[a], now)
    ensures forall i, j | 0 <= i < j < |EligibleOf(order, accounts, now)| ::
      EligibleOf(order, accounts, now)[i] != EligibleOf(order, accounts, now)[j]
  {
    if order != [] {
      TriedAreBounded(order[1..], accounts, now);
      assert order[0] !in order[1..];
    }
  }

  ghost predicate CallsBounded(c: Config, r: Routed) {
    r.calls <= PerAccount(c) * |r.tried|
  }

  lemma {:induction false} CallsPerTried(c: Config, w: World, now: Time, order: seq<nat>, accounts: seq<Account>,
                                         last: Option<Details>, attempted: nat)
    requires ValidOrder(order, accounts)
    ensures CallsBounded(c, Route(c, w, now, order, accounts, last, attempted))
    decreases |order|
  {
    if order != [] {
      var a, rest := order[0], order[1..];
      assert order == [a] + rest;
      EligibleCons(order, a, rest, accounts, now);
      AttemptsAreBounded(c, w, a, 1);
      if !IsEligible(accounts[a], now) {
        CallsPerTried(c, w, now, rest, accounts, last, attempted);
        RouteSkips(c, w, now, a, rest, accounts, last, attempted);
      } else {
        CallsOfTry(c, w, now, a, rest, accounts, last, attempted);
      }
    }
  }

  lemma {:induction false} CallsOfTry(c: Config, w: World, now: Time, a: nat, rest: seq<nat>,
                                      accounts: seq<Account>, last: Option<Details>, attempted: nat)
    requires ValidOrder([a] + rest, accounts) && ValidOrder(rest, accounts) && a < |accounts|
    requires IsEligible(accounts[a], now) && Attempts(c, w, a, 1).calls <= PerAccount(c)
    ensures CallsBounded(c, Route(c, w, now, [a] + rest, accounts, last, attempted))
    decreases 1 + |rest|, 0
  {
    if Stops(c, w, a) || attempted + 1 >= ACCOUNTS {
      RouteEnds(c, w, now, a, rest, accounts, last, attempted);
    } else {
      var d := Attempts(c, w, a, 1).error.value;
      var charged := accounts[a := Charged(c, Checked(accounts[a], now), d, w.ends(a))];
      var r := Route(c, w, now, rest, charged, Some(d), attempted + 1);
      CallsPerTried(c, w, now, rest, charged, Some(d), attempted + 1);
      RouteFailsOver(c, w, now, a, rest, accounts, last, attempted, d);
      OneMore(PerAccount(c), |r.tried|);
    }
  }

  function PerAccount(c: Config): nat {
    2 * (c.maximumRetries + 1)
  }

  lemma OneMore(per: nat, n: nat)
    ensures per * (n + 1) == per + per * n
  {}

  lemma TriedAreEligible(c: Config, w: World, order: seq<nat>, accounts: seq<Account>, now: Time)
    requires ValidOrder(order, accounts)
    ensures var tried := UpToStop(c, w, EligibleOf(order, accounts, now));
      && |tried| <= |order|
      && (forall i, j | 0 <= i < j < |tried| :: tried[i] != tried[j])
      && (forall a | a in tried :: a in order && IsEligible(accounts[a], now))
  {
    var eligible := EligibleOf(order, accounts, now);
    UpToStopIsPrefix(c, w, eligible);
    TriedAreBounded(order, accounts, now);
    var tried := UpToStop(c, w, eligible);
    assert forall i | 0 <= i < |tried| :: tried[i] == eligible[i];
  }

  /** One request tries each account at most once, only while it is eligible, and makes at most
    * 8 * (maximum_retries + 1) calls. */
  lemma OneRequestIsBounded(c: Config, w: World, now: Time, order: seq<nat>, accounts: seq<Account>)
    requires ValidOrder(order, accounts) && |order| == ACCOUNTS
    ensures var r := Route(c, w, now, order, accounts, None, 0);
      && |r.tried| <= ACCOUNTS
      && (forall i, j | 0 <= i < j < |r.tried| :: r.tried[i] != r.tried[j])
      && (forall a | a in r.tried :: a in order && IsEligible(accounts[a], now))
      && r.calls <= 8 * (c.maximumRetries + 1)
  {
    RouteStopsAtFirst(c, w, now, order, accounts, None, 0);
    TriedAreEligible(c, w, order, accounts, now);
    CallsPerTried(c, w, now, order, accounts, None, 0);
    FourTimes(PerAccount(c), |UpToStop(c, w, EligibleOf(order, accounts, now))|);
  }

  lemma FourTimes(per: nat, n: nat)
    requires n <= 4
    ensures per * n <= per * 4
  {}

  // ---- rotation ----

  function Rotated(start: nat): seq<nat>
    requires start < ACCOUNTS
  {
    [0, 1, 2, 3][start..] + [0, 1, 2, 3][..start]
  }

  /** How many of `n` consecutive requests, the first of which starts at `cursor`, start at account a. */
  function Starts(cursor: nat, n: nat, a: nat): nat {
    if n == 0 then 0 else Starts(cursor, n - 1, a) + (if (cursor + n - 1) % ACCOUNTS == a then 1 else 0)
  }

  lemma OneOfFour(x: nat, a: nat)
    requires a < ACCOUNTS
    ensures (if x % 4 == a then 1 else 0) + (if (x + 1) % 4 == a then 1 else 0)
          + (if (x + 2) % 4 == a then 1 else 0) + (if (x + 3) % 4 == a then 1 else 0) == 1
  {}

  lemma FourMoreStarts(cursor: nat, n: nat, a: nat)
    requires a < ACCOUNTS
    ensures Starts(cursor, n + 4, a) == Starts(cursor, n, a) + 1
  {
    OneOfFour(cursor + n, a);
    var hit := (i: nat) => if (cursor + i) % ACCOUNTS == a then 1 else 0;
    assert Starts(cursor, n + 1, a) == Starts(cursor, n, a) + hit(n);
    assert Starts(cursor, n + 2, a) == Starts(cursor, n + 1, a) + hit(n + 1);
    assert Starts(cursor, n + 3, a) == Starts(cursor, n + 2, a) + hit(n + 2);
    assert Starts(cursor, n + 4, a) == Starts(cursor, n + 3, a) + hit(n + 3);
  }

  /** Over any 4k consecutive requests every account is first exactly k times. */
  lemma {:induction false} RotationIsFair(cursor: nat, k: nat, a: nat)
    requires a < ACCOUNTS
    ensures Starts(cursor, 4 * k, a) == k
  {
    if k > 0 {
      RotationIsFair(cursor, k - 1, a);
      FourMoreStarts(cursor, 4 * (k - 1), a);
    }
  }

  /** The first accounts of consecutive requests. */
  ghost predicate InRotation(firsts: seq<nat>, cursor: nat) {
    forall i | 0 <= i < |firsts| :: firsts[i] == (cursor + i) % ACCOUNTS
  }

  lemma {:induction false} StartsAreCounted(firsts: seq<nat>, cursor: nat, a: nat)
    requires InRotation(firsts, cursor)
    ensures multiset(firsts)[a] == Starts(cursor, |firsts|, a)
    decreases |firsts|
  {
    if firsts != [] {
      var n := |firsts| - 1;
      StartsAreCounted(firsts[..n], cursor, a);
      assert firsts == firsts[..n] + [firsts[n]];
    }
  }

  /** The account whose turn it is goes first exactly when it is eligible. */
  lemma EligibleFirstIsTriedFirst(c: Config, w: World, now: Time, order: seq<nat>, accounts: seq<Account>)
    requires ValidOrder(order, accounts) && order != []
    ensures var tried := Route(c, w, now, order, accounts, None, 0).tried;
      IsEligible(accounts[order[0]], now) <==> tried != [] && tried[0] == order[0]
  {
    var first, rest := order[0], order[1..];
    assert order == [first] + rest;
    EligibleCons(order, first, rest, accounts, now);
    if !IsEligible(accounts[first], now) {
      TriedAreInOrder(c, w, now, rest, accounts, None, 0);
      var tried := Route(c, w, now, rest, accounts, None, 0).tried;
      assert tried == [] || tried[0] in tried;
    }
  }

  lemma {:induction false} TriedAreInOrder(c: Config, w: World, now: Time, order: seq<nat>, accounts: seq<Account>,
                                           last: Option<Details>, attempted: nat)
    requires ValidOrder(order, accounts)
    ensures forall a | a in Route(c, w, now, order, accounts, last, attempted).tried :: a in order
    decreases |order|
  {
    if order != [] {
      var a, rest := order[0], order[1..];
      assert order == [a] + rest;
      if !IsEligible(accounts[a], now) {
        TriedAreInOrder(c, w, now, rest, accounts, last, attempted);
      } else if Attempts(c, w, a, 1).error.Some? {
        var d := Attempts(c, w, a, 1).error.value;
        TriedAreInOrder(c, w, now, rest, accounts[a := Charged(c, Checked(accounts[a], now), d, w.ends(a))], Some(d),
                        attempted + 1);
      }
    }
  }
}

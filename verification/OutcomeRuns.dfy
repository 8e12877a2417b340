/** The outcome a book keeps for a signal is that of the signal's own run, over the cycles that reached it. */
module OutcomeRuns {
  import opened Domain
  import opened SignalOutcomes
  import opened OutcomeBook
  import SignalResults

  // ---- the listing, for any signals ----

  /** Newest first; signals of one instant by descending id. */
  ghost predicate NewestFirst(signals: seq<Signal>) {
    forall i, j | 0 <= i < j < |signals| ::
      || signals[i].generatedAt > signals[j].generatedAt
      || (signals[i].generatedAt == signals[j].generatedAt && signals[i].signalId >= signals[j].signalId)
  }

  lemma NewestFirstCons(s: Signal, rest: seq<Signal>)
    requires NewestFirst(rest) && forall x | x in rest :: Precedes(s, x)
    ensures NewestFirst([s] + rest)
  {
    var all := [s] + rest;
    forall j | 1 <= j < |all| ensures Precedes(s, all[j]) { assert all[j] == rest[j - 1]; }
  }

  lemma NewestFirstParts(s: Signal, rest: seq<Signal>)
    requires NewestFirst([s] + rest)
    ensures NewestFirst(rest) && forall x | x in rest :: Precedes(s, x)
  {
    var all := [s] + rest;
    assert all[0] == s && forall j | 0 <= j < |rest| :: rest[j] == all[j + 1];
    forall x | x in rest ensures Precedes(s, x) {
      var j :| 0 <= j < |rest| && rest[j] == x;
      assert all[j + 1] == x;
    }
  }

  lemma {:induction false} InsertKeepsSignals(s: Signal, sorted: seq<Signal>)
    ensures multiset(Insert(s, sorted)) == multiset(sorted) + multiset{s}
    decreases |sorted|
  {
    if sorted != [] {
      assert sorted == [sorted[0]] + sorted[1..];
      InsertKeepsSignals(s, sorted[1..]);
    }
  }

  lemma {:induction false} InsertKeepsNewestFirst(s: Signal, sorted: seq<Signal>)
    requires NewestFirst(sorted)
    ensures NewestFirst(Insert(s, sorted))
    decreases |sorted|
  {
    if sorted != [] {
      var first, rest := sorted[0], sorted[1..];
      assert sorted == [first] + rest;
      NewestFirstParts(first, rest);
      if Precedes(s, first) {
        NewestFirstCons(s, sorted);
      } else {
        InsertKeepsNewestFirst(s, rest);
        InsertKeepsSignals(s, rest);
        forall x | x in Insert(s, rest) ensures Precedes(first, x) { assert x in multiset(Insert(s, rest)); }
        NewestFirstCons(first, Insert(s, rest));
      }
    }
  }

  lemma {:induction false} SortedIsNewestFirst(signals: seq<Signal>)
    ensures NewestFirst(Sorted(signals)) && multiset(Sorted(signals)) == multiset(signals)
    decreases |signals|
  {
    if signals != [] {
      var n := |signals| - 1;
      assert signals == signals[..n] + [signals[n]];
      SortedIsNewestFirst(signals[..n]);
      InsertKeepsNewestFirst(signals[n], Sorted(signals[..n]));
      InsertKeepsSignals(signals[n], Sorted(signals[..n]));
    }
  }

  /** Whatever is stored, the listing is newest first, holds signals of the instrument up to the end, and leaves one
    * out only when it is full. */
  lemma ListingIsExact(signals: seq<Signal>, instrument: string, end: Time, limit: nat, s: Signal)
    ensures var listed := Listing(signals, instrument, end, limit);
      && NewestFirst(listed) && |listed| <= limit
      && (s in listed ==> s in signals && s.instrument == instrument && s.generatedAt <= end)
      && (s in signals && s.instrument == instrument && s.generatedAt <= end && s !in listed ==>
            |listed| == limit && forall x | x in listed :: Precedes(x, s))
  {
    var chosen := Selected(signals, instrument, end);
    SortedIsNewestFirst(chosen);
    SelectedMembers(signals, instrument, end, s);
    assert s in multiset(Sorted(chosen)) <==> s in multiset(chosen);
  }

  // ---- one cycle ----

  lemma {:induction false} OthersAreUntouched(outcomes: Outcomes, listed: seq<Signal>, current: Signal, candle: Candle,
                                              at: Time, id: nat)
    requires Supersede(outcomes, listed, current, candle, at).Ok? && id in outcomes
    requires forall x | x in listed :: x.signalId != id
    ensures var outcomes' := Supersede(outcomes, listed, current, candle, at).value;
      id in outcomes' && outcomes'[id] == outcomes[id]
    decreases |listed|
  {
    if listed != [] {
      var s, rest := listed[0], listed[1..];
      assert s in listed && forall x | x in rest :: x in listed;
      if s.signalId == current.signalId {
        OthersAreUntouched(outcomes, rest, current, candle, at, id);
      } else {
        var o := Evaluate(s, Stored(outcomes, s), Observation(candle, at, true)).value;
        var outcomes1 := if o != Stored(outcomes, s) then outcomes[s.signalId := o] else outcomes;
        OthersAreUntouched(outcomes1, rest, current, candle, at, id);
      }
    }
  }

  /** The loop stores, for a listed signal, its evaluation by the cycle's candle as superseded. */
  lemma {:induction false} ListedIsEvaluated(outcomes: Outcomes, listed: seq<Signal>, current: Signal, candle: Candle,
                                             at: Time, s: Signal)
    requires Supersede(outcomes, listed, current, candle, at).Ok? && s.signalId in outcomes
    requires s in listed && s.signalId != current.signalId
    requires forall x | x in listed && x.signalId == s.signalId :: x == s
    requires Live(outcomes[s.signalId]) ==> Tradable(s)
    ensures var outcomes' := Supersede(outcomes, listed, current, candle, at).value;
      && s.signalId in outcomes'
      && Evaluate(s, outcomes[s.signalId], Observation(candle, at, true)) == Ok(outcomes'[s.signalId])
    decreases |listed|
  {
    var x, rest := listed[0], listed[1..];
    assert listed == [x] + rest;
    if x.signalId == current.signalId {
      ListedIsEvaluated(outcomes, rest, current, candle, at, s);
    } else {
      var o := Evaluate(x, Stored(outcomes, x), Observation(candle, at, true)).value;
      var outcomes1 := if o != Stored(outcomes, x) then outcomes[x.signalId := o] else outcomes;
      if x == s {
        SupersededIsFinished(s, outcomes[s.signalId], candle, at);
        assert outcomes1[s.signalId] == o && !Live(o);
      }
      if s in rest {
        ListedIsEvaluated(outcomes1, rest, current, candle, at, s);
      } else {
        NotInRest(rest, s);
        OthersAreUntouched(outcomes1, rest, current, candle, at, s.signalId);
      }
    }
  }

  lemma NotInRest(rest: seq<Signal>, s: Signal)
    requires s !in rest && forall x | x in rest && x.signalId == s.signalId :: x == s
    ensures forall x | x in rest :: x.signalId != s.signalId
  {}

  /** What one cycle does to the outcome of an earlier signal: it evaluates it exactly when it reaches it. */
  lemma {:induction false} CycleEvaluates(signals: seq<Signal>, outcomes: Outcomes, current: Signal,
                                          candle: Option<Candle>, at: Time, s: Signal)
    requires Accepted(current) && Chronological(signals + [current]) && DistinctIds(signals + [current])
    requires Recorded(signals, outcomes) && s in signals
    ensures Update(signals + [current], outcomes, current, candle, at).Ok?
    ensures var outcomes' := Update(signals + [current], outcomes, current, candle, at).value;
      && s.signalId in outcomes'
      && (if Reaches(signals, current, candle, s) then
            Evaluate(s, outcomes[s.signalId], Observation(candle.value, at, true)) == Ok(outcomes'[s.signalId])
          else outcomes'[s.signalId] == outcomes[s.signalId])
  {
    NewestIsNew(signals, current);
    OpenedIsRecorded(signals, outcomes, current);
    if candle.Some? {
      ListedAreFinished(signals, outcomes, current, candle.value, at);
      if s in ListedNow(signals, current) { ReachedIsEvaluated(signals, outcomes, current, candle.value, at, s); }
    }
  }

  lemma {:induction false} ReachedIsEvaluated(signals: seq<Signal>, outcomes: Outcomes, current: Signal, candle: Candle,
                                              at: Time, s: Signal)
    requires Accepted(current) && Chronological(signals + [current]) && DistinctIds(signals + [current])
    requires Recorded(signals, outcomes) && s in signals && s in ListedNow(signals, current)
    requires Update(signals + [current], outcomes, current, Some(candle), at).Ok?
    ensures var outcomes' := Update(signals + [current], outcomes, current, Some(candle), at).value;
      && s.signalId in outcomes'
      && Evaluate(s, outcomes[s.signalId], Observation(candle, at, true)) == Ok(outcomes'[s.signalId])
  {
    NewestIsNew(signals, current);
    OpenedIsRecorded(signals, outcomes, current);
    var all, listed := signals + [current], ListedNow(signals, current);
    assert s in all;
    forall x | x in listed && x.signalId == s.signalId ensures x == s {
      ListedMembers(signals, current, x);
      SameIdSameSignal(all, x, s);
    }
    ListedIsEvaluated(Opened(outcomes, current), listed, current, candle, at, s);
  }

  // ---- any number of cycles ----

  /** What the later cycles showed the signal of cycle i. */
  ghost function Seen(cycles: seq<Cycle>, i: nat): seq<Observation>
    requires i < |cycles|
    decreases |cycles|
  {
    var n := |cycles| - 1;
    if i == n then []
    else
      Seen(cycles[..n], i)
      + (if Finishing(cycles, i, n) then [Observation(cycles[n].candle.value, cycles[n].at, true)] else [])
  }

  /** The stored outcome of a signal is that of its own run over what the cycles showed it. */
  lemma {:induction false} StoredOutcomeIsItsRun(cycles: seq<Cycle>, i: nat)
    requires WellFormed(cycles) && i < |cycles|
    ensures Replay(cycles).Ok? && cycles[i].signal.signalId in Replay(cycles).value
    ensures var s := cycles[i].signal;
      Run(s, Initial(s), Seen(cycles, i)) == Ok(Replay(cycles).value[s.signalId])
    decreases |cycles|
  {
    var n, s := |cycles| - 1, cycles[i].signal;
    LiveAfterLast(cycles, i);
    if i < n {
      StoredOutcomeIsItsRun(cycles[..n], i);
      LastCycle(cycles);
      ReplayIsRecorded(cycles[..n]);
      var signals, outcomes := Signals(cycles[..n]), Replay(cycles[..n]).value;
      assert signals[i] == s && signals[i] in signals;
      CycleEvaluates(signals, outcomes, cycles[n].signal, cycles[n].candle, cycles[n].at, s);
      if Finishing(cycles, i, n) {
        var last := Observation(cycles[n].candle.value, cycles[n].at, true);
        OneMoreObservation(s, Seen(cycles[..n], i), last, outcomes[s.signalId]);
      } else {
        assert Seen(cycles[..n], i) + [] == Seen(cycles[..n], i);
      }
    }
  }

  lemma OneMoreObservation(s: Signal, seen: seq<Observation>, last: Observation, before: Outcome)
    requires Run(s, Initial(s), seen) == Ok(before)
    ensures Run(s, Initial(s), seen + [last]) == Evaluate(s, before, last)
  {
    RunSplits(s, Initial(s), seen, [last]);
    SignalResults.RunOfOne(s, before, last);
  }

  ghost predicate FirstReach(cycles: seq<Cycle>, i: nat, j: nat)
    requires i < |cycles| && j < |cycles|
  {
    Finishing(cycles, i, j) && forall k: nat | i < k < j :: !Finishing(cycles, i, k)
  }

  lemma {:induction false} SeenStartsWithFirstReach(cycles: seq<Cycle>, i: nat, j: nat)
    requires i < j < |cycles| && FirstReach(cycles, i, j)
    ensures Seen(cycles, i) != []
    ensures Seen(cycles, i)[0] == Observation(cycles[j].candle.value, cycles[j].at, true)
    decreases |cycles|
  {
    var n := |cycles| - 1;
    if j == n {
      NothingSeenYet(cycles, i, n);
    } else {
      FirstReachInPrefix(cycles, i, j, n);
      SeenStartsWithFirstReach(cycles[..n], i, j);
      assert Seen(cycles, i)[0] == Seen(cycles[..n], i)[0];
    }
  }

  lemma FirstReachInPrefix(cycles: seq<Cycle>, i: nat, j: nat, n: nat)
    requires i < j < n <= |cycles| && FirstReach(cycles, i, j)
    ensures FirstReach(cycles[..n], i, j)
  {
    FinishingInPrefix(cycles, i, j, n);
    forall k: nat | i < k < j ensures !Finishing(cycles[..n], i, k) { FinishingInPrefix(cycles, i, k, n); }
  }

  lemma {:induction false} NothingSeenYet(cycles: seq<Cycle>, i: nat, n: nat)
    requires i < n <= |cycles| && forall k: nat | i < k < n :: !Finishing(cycles, i, k)
    ensures Seen(cycles[..n], i) == []
    decreases n
  {
    if i < n - 1 {
      NothingSeenYet(cycles, i, n - 1);
      assert cycles[..n][..n - 1] == cycles[..n - 1];
      FinishingInPrefix(cycles, i, n - 1, n);
    }
  }

  /** The first cycle that reaches a live signal settles it for good: its stored outcome is the evaluation by that one
    * candle, with the result, risk/reward, reason and times that `SignalResults` gives in terms of the prices. */
  lemma {:induction false} FirstReachSettles(cycles: seq<Cycle>, i: nat, j: nat)
    requires WellFormed(cycles) && i < j < |cycles| && FirstReach(cycles, i, j) && Live(Initial(cycles[i].signal))
    ensures Replay(cycles).Ok? && cycles[i].signal.signalId in Replay(cycles).value && Tradable(cycles[i].signal)
    ensures var s := cycles[i].signal; var o := Replay(cycles).value[s.signalId];
      && Evaluate(s, Initial(s), Observation(cycles[j].candle.value, cycles[j].at, true)) == Ok(o)
      && !Live(o) && SignalResults.Explained(s, o, cycles[j].at)
  {
    var s := cycles[i].signal;
    var one := Observation(cycles[j].candle.value, cycles[j].at, true);
    assert Accepted(s);
    EligibleSignalsAreTradable(s);
    StoredOutcomeIsItsRun(cycles, i);
    SeenStartsWithFirstReach(cycles, i, j);
    var rest := Seen(cycles, i)[1..];
    assert Seen(cycles, i) == [one] + rest;
    SupersededIsFinished(s, Initial(s), one.candle, one.at);
    SignalResults.RunOfOne(s, Initial(s), one);
    FinishedOutcomesAreFinal(s, [one], rest);
    SignalResults.CandleExplains(s, Initial(s), one);
  }
}

/** What the numbers of an outcome mean over a whole run of candles: entry, excursions, holding time, result, actual
  * risk/reward and reason, in terms of the prices and instants alone. */
module SignalResults {
  import opened Domain
  import opened Reals
  import opened SignalOutcomes

  // ---- which signals are accepted ----

  predicate Bare(s: Signal) {
    s.entry.None? && s.stopLoss.None? && s.takeProfit.None? && s.riskReward.None?
  }

  predicate Complete(s: Signal) {
    s.entry.Some? && s.stopLoss.Some? && s.takeProfit.Some? && s.riskReward.Some?
  }

  /** A HOLD is bare; an eligible trade is ready, unblocked and complete; an ineligible one is blocked for a reason, and
    * complete or bare; a complete trade has its stop and target on the right sides; the validity has a duration. */
  lemma AcceptedExactly(s: Signal)
    requires Positive(s.entry) && Positive(s.stopLoss) && Positive(s.takeProfit) && Positive(s.riskReward)
    ensures Accepted(s) <==>
      && (s.validFrom.Some? && s.validUntil.Some? ==> s.validFrom.value < s.validUntil.value)
      && (s.side == Hold ==> Bare(s))
      && (s.side != Hold && s.eligible ==> s.ready && s.blockers == [] && Complete(s))
      && (s.side != Hold && !s.eligible ==> !s.ready && s.blockers != [] && (Complete(s) || Bare(s)))
      && (s.side != Hold && Complete(s) ==> Tradable(s))
  {}

  /** Where an outcome starts: a HOLD is completed at once, a blocked trade too, any other trade is active. */
  lemma StartsAs(s: Signal)
    ensures var o := Initial(s); var trades := s.side != Hold && s.eligible;
      && o.status == (if trades then Active else Completed)
      && o.completedAt == (if trades then None else Some(s.generatedAt)) && o.evaluatedAt == s.generatedAt
      && o.reasons == (if s.side == Hold then ["hold_cycle_completed"] else if trades then [] else ["execution_blocked"])
      && !o.entryReached && !o.stopHit && !o.targetHit && !o.expired && o.mfe == o.mae == 0.0
      && o.entryReachedAt.None? && o.holding.None? && o.riskReward.None? && o.profitLoss.None?
  {}

  // ---- one candle, in prices ----

  predicate Touches(s: Signal, candle: Candle)
    requires Tradable(s)
  {
    candle.low <= s.entry.value <= candle.high
  }

  /** How far a candle goes the trade's way, and against it. */
  function Forward(s: Signal, candle: Candle): real
    requires Tradable(s)
  {
    var way := if s.side == Buy then candle.high - s.entry.value else s.entry.value - candle.low;
    if way > 0.0 then way else 0.0
  }

  function Backward(s: Signal, candle: Candle): real
    requires Tradable(s)
  {
    var way := if s.side == Buy then s.entry.value - candle.low else candle.high - s.entry.value;
    if way > 0.0 then way else 0.0
  }

  predicate HitsStop(s: Signal, candle: Candle)
    requires Tradable(s)
  {
    if s.side == Buy then candle.low <= s.stopLoss.value else candle.high >= s.stopLoss.value
  }

  predicate HitsTarget(s: Signal, candle: Candle)
    requires Tradable(s)
  {
    if s.side == Buy then candle.high >= s.takeProfit.value else candle.low <= s.takeProfit.value
  }

  function Distance(a: real, b: real): real {
    if a < b then b - a else a - b
  }

  /** The trade's result at a price. */
  function ResultAt(s: Signal, price: real): real
    requires Tradable(s)
  {
    if s.side == Buy then price - s.entry.value else s.entry.value - price
  }

  lemma RatioTimesRisk(pnl: real, risk: real)
    requires risk > 0.0
    ensures pnl / risk * risk == pnl
  {}

  predicate Elapsed(s: Signal, at: Time) {
    s.validUntil.Some? && s.validUntil.value <= at
  }

  /** One candle on either side: a touched stop wins, then a target if the entry came earlier, then the horizon, then
    * supersession. */
  lemma StatusOfCandle(s: Signal, previous: Outcome, seen: Observation)
    requires Tradable(s) && Live(previous)
    ensures Evaluate(s, previous, seen).Ok?
    ensures var o := Evaluate(s, previous, seen).value;
      var entered := previous.entryReached || Touches(s, seen.candle);
      var stopped := entered && HitsStop(s, seen.candle);
      var reached := previous.entryReached && HitsTarget(s, seen.candle) && !stopped;
      && o.entryReached == entered && o.evaluatedAt == seen.at
      && (o.status == StopHit <==> stopped) && (o.stopHit <==> stopped)
      && (o.status == TargetHit <==> reached) && (o.targetHit <==> reached)
      && (o.status == Expired <==> !stopped && !reached && Elapsed(s, seen.at)) && (o.expired <==> o.status == Expired)
      && (o.status == Superseded <==> !stopped && !reached && !Elapsed(s, seen.at) && seen.superseded)
      && (o.status == Active <==> !stopped && !reached && !Elapsed(s, seen.at) && !seen.superseded)
      && o.completedAt == (if o.status == Active then None else Some(seen.at))
  {}

  /** What the trade gained or lost. */
  lemma ResultOfCandle(s: Signal, previous: Outcome, seen: Observation)
    requires Tradable(s) && Live(previous)
    ensures Evaluate(s, previous, seen).Ok?
    ensures var o := Evaluate(s, previous, seen).value;
      && (o.status == Active <==> o.profitLoss.None?)
      && (o.status == StopHit ==> o.profitLoss == Some(ResultAt(s, s.stopLoss.value)))
      && (o.status == TargetHit ==> o.profitLoss == Some(ResultAt(s, s.takeProfit.value)))
      && (o.status in {Expired, Superseded} ==>
            o.profitLoss == Some(if o.entryReached then ResultAt(s, seen.candle.close) else 0.0))
  {}

  /** That result as a multiple of the risk taken: the actual ratio, not the planned one. */
  lemma RatioOfCandle(s: Signal, previous: Outcome, seen: Observation)
    requires Tradable(s) && Live(previous)
    ensures Evaluate(s, previous, seen).Ok?
    ensures var o := Evaluate(s, previous, seen).value;
      && (o.profitLoss.None? <==> o.riskReward.None?)
      && (o.riskReward.Some? ==>
            o.riskReward.value * Distance(s.entry.value, s.stopLoss.value) == o.profitLoss.value)
  {
    var r := Read(s, previous.entryReached, seen.candle);
    assert r.risk == Distance(s.entry.value, s.stopLoss.value) > 0.0;
    RatioOfReading(r, previous, s.validUntil, seen.at, seen.superseded);
  }

  lemma RatioOfReading(r: Reading, previous: Outcome, validUntil: Option<Time>, at: Time, superseded: bool)
    requires r.risk > 0.0
    ensures var o := Settle(r, previous, validUntil, at, superseded);
      && (o.profitLoss.None? <==> o.riskReward.None?)
      && (o.riskReward.Some? ==> o.riskReward.value * r.risk == o.profitLoss.value)
  {
    var o := Settle(r, previous, validUntil, at, superseded);
    if o.profitLoss.Some? { RatioTimesRisk(o.profitLoss.value, r.risk); }
  }

  /** The reason code fits the status, and says exactly when a candle left the order of its touches open. */
  lemma ReasonOfCandle(s: Signal, previous: Outcome, seen: Observation)
    requires Tradable(s) && Live(previous)
    ensures Evaluate(s, previous, seen).Ok?
    ensures var o := Evaluate(s, previous, seen).value; var hitsTarget := HitsTarget(s, seen.candle);
      && (o.status == TargetHit ==> o.reasons == [])
      && (o.status == StopHit ==>
            o.reasons == if hitsTarget then ["same_candle_target_and_stop_conservative_stop"] else [])
      && (o.status == Expired ==> o.reasons == ["validity_horizon_elapsed"])
      && (o.status == Superseded ==> o.reasons == ["newer_analytical_cycle_completed"])
      && (o.status == Active ==>
            o.reasons == if !previous.entryReached && o.entryReached && hitsTarget then
                           ["entry_target_intrabar_order_unresolved"] else [])
  {}

  // ---- a whole run ----

  /** The first candle that touches the entry. */
  predicate EnteredAt(s: Signal, seen: seq<Observation>, e: nat)
    requires Tradable(s) && e < |seen|
  {
    Touches(s, seen[e].candle) && forall k | 0 <= k < e :: !Touches(s, seen[k].candle)
  }

  predicate LargestForward(s: Signal, seen: seq<Observation>, e: nat, largest: real)
    requires Tradable(s) && e < |seen|
  {
    && (forall k | e <= k < |seen| :: Forward(s, seen[k].candle) <= largest)
    && (exists k | e <= k < |seen| :: Forward(s, seen[k].candle) == largest)
  }

  predicate LargestBackward(s: Signal, seen: seq<Observation>, e: nat, largest: real)
    requires Tradable(s) && e < |seen|
  {
    && (forall k | e <= k < |seen| :: Backward(s, seen[k].candle) <= largest)
    && (exists k | e <= k < |seen| :: Backward(s, seen[k].candle) == largest)
  }

  /** The entry and the excursions of an outcome in terms of the candles: they count from the candle of the entry on. */
  ghost predicate CountedFrom(s: Signal, seen: seq<Observation>, o: Outcome, e: nat)
    requires Tradable(s) && e < |seen|
  {
    && EnteredAt(s, seen, e) && o.entryReached && o.entryReachedAt == Some(seen[e].at)
    && LargestForward(s, seen, e, o.mfe) && LargestBackward(s, seen, e, o.mae)
  }

  ghost predicate Uncounted(s: Signal, seen: seq<Observation>, o: Outcome)
    requires Tradable(s)
  {
    && (forall k | 0 <= k < |seen| :: !Touches(s, seen[k].candle))
    && !o.entryReached && o.entryReachedAt.None? && o.mfe == o.mae == 0.0
  }

  ghost predicate Counted(s: Signal, seen: seq<Observation>, o: Outcome)
    requires Tradable(s)
  {
    Uncounted(s, seen, o) || exists e: nat | e < |seen| :: CountedFrom(s, seen, o, e)
  }

  lemma ExcursionsOfCandle(s: Signal, previous: Outcome, seen: Observation)
    requires Tradable(s) && Live(previous)
    ensures Evaluate(s, previous, seen).Ok?
    ensures var o := Evaluate(s, previous, seen).value;
      && o.mfe == Max(previous.mfe, if o.entryReached then Forward(s, seen.candle) else 0.0)
      && o.mae == Max(previous.mae, if o.entryReached then Backward(s, seen.candle) else 0.0)
      && o.entryReachedAt == (if previous.entryReachedAt.Some? then previous.entryReachedAt
                              else if o.entryReached then Some(seen.at) else None)
      && o.holding == (if o.completedAt.Some? && o.entryReachedAt.Some? then
                         Some(o.completedAt.value - o.entryReachedAt.value) else None)
  {}

  lemma LargestGrows(s: Signal, seen: seq<Observation>, last: Observation, e: nat, forward: real, backward: real)
    requires Tradable(s) && e < |seen|
    requires LargestForward(s, seen, e, forward) && LargestBackward(s, seen, e, backward)
    ensures LargestForward(s, seen + [last], e, Max(forward, Forward(s, last.candle)))
    ensures LargestBackward(s, seen + [last], e, Max(backward, Backward(s, last.candle)))
  {
    var all := seen + [last];
    assert all[|seen|] == last;
    var i :| e <= i < |seen| && Forward(s, seen[i].candle) == forward;
    var j :| e <= j < |seen| && Backward(s, seen[j].candle) == backward;
    assert all[i] == seen[i] && all[j] == seen[j];
  }

  lemma CountedStep(s: Signal, seen: seq<Observation>, previous: Outcome, last: Observation)
    requires Tradable(s) && Live(previous) && Counted(s, seen, previous)
    ensures Evaluate(s, previous, last).Ok? && Counted(s, seen + [last], Evaluate(s, previous, last).value)
  {
    var all, o := seen + [last], Evaluate(s, previous, last).value;
    StatusOfCandle(s, previous, last);
    ExcursionsOfCandle(s, previous, last);
    assert all[|seen|] == last;
    if Uncounted(s, seen, previous) {
      if Touches(s, last.candle) {
        assert CountedFrom(s, all, o, |seen|);
      } else {
        assert Uncounted(s, all, o);
      }
    } else {
      var e: nat :| e < |seen| && CountedFrom(s, seen, previous, e);
      LargestGrows(s, seen, last, e, previous.mfe, previous.mae);
      assert all[e] == seen[e] && EnteredAt(s, all, e);
      assert CountedFrom(s, all, o, e);
    }
  }

  lemma {:induction false} RunIsCounted(s: Signal, seen: seq<Observation>)
    requires Tradable(s) && Live(Initial(s))
    requires forall n | 0 <= n < |seen| ::
      Run(s, Initial(s), seen[..n]).Ok? && Live(Run(s, Initial(s), seen[..n]).value)
    ensures Run(s, Initial(s), seen).Ok? && Counted(s, seen, Run(s, Initial(s), seen).value)
    decreases |seen|
  {
    if seen == [] {
      assert Uncounted(s, seen, Initial(s));
    } else {
      var n := |seen| - 1;
      assert forall k | 0 <= k < n :: seen[..n][..k] == seen[..k];
      RunIsCounted(s, seen[..n]);
      var before := Run(s, Initial(s), seen[..n]).value;
      CountedStep(s, seen[..n], before, seen[n]);
      assert seen[..n] + [seen[n]] == seen;
      LastCandle(s, seen, n);
    }
  }

  lemma RunOfOne(s: Signal, previous: Outcome, last: Observation)
    ensures Run(s, previous, [last]) == Evaluate(s, previous, last)
  {
    if Evaluate(s, previous, last).Ok? { assert [last][1..] == []; }
  }

  /** The scalar fields of an outcome after a candle seen at `at`: completion, holding time and actual risk/reward. */
  predicate Explained(s: Signal, o: Outcome, at: Time)
    requires Tradable(s)
  {
    && o.evaluatedAt == at && o.completedAt == (if Live(o) then None else Some(at))
    && o.holding == (if o.completedAt.Some? && o.entryReachedAt.Some? then Some(at - o.entryReachedAt.value) else None)
    && (o.profitLoss.Some? <==> !Live(o)) && (o.riskReward.Some? <==> !Live(o))
    && (o.riskReward.Some? ==>
          o.riskReward.value * Distance(s.entry.value, s.stopLoss.value) == o.profitLoss.value)
  }

  lemma CandleExplains(s: Signal, previous: Outcome, last: Observation)
    requires Tradable(s) && Live(previous)
    ensures Evaluate(s, previous, last).Ok? && Explained(s, Evaluate(s, previous, last).value, last.at)
  {
    StatusOfCandle(s, previous, last);
    ResultOfCandle(s, previous, last);
    RatioOfCandle(s, previous, last);
    ExcursionsOfCandle(s, previous, last);
  }

  /** Over any run of an accepted signal up to its first finishing candle: the entry is that of the first candle that
    * touches it, the excursions are the largest ones of the candles from there on, the holding time runs from there to
    * the finish, and the actual risk/reward times the risk is the result. */
  lemma {:induction false} OutcomeIsExplained(s: Signal, seen: seq<Observation>)
    requires Accepted(s) && Live(Initial(s)) && seen != []
    requires forall n | 0 <= n < |seen| ::
      Run(s, Initial(s), seen[..n]).Ok? && Live(Run(s, Initial(s), seen[..n]).value)
    ensures Tradable(s) && Run(s, Initial(s), seen).Ok?
    ensures var o := Run(s, Initial(s), seen).value; Counted(s, seen, o) && Explained(s, o, seen[|seen| - 1].at)
  {
    EligibleSignalsAreTradable(s);
    RunIsCounted(s, seen);
    var n := |seen| - 1;
    var before := Run(s, Initial(s), seen[..n]).value;
    LastCandle(s, seen, n);
    CandleExplains(s, before, seen[n]);
  }

  lemma LastCandle(s: Signal, seen: seq<Observation>, n: nat)
    requires |seen| == n + 1 && Run(s, Initial(s), seen[..n]).Ok?
    ensures Run(s, Initial(s), seen) == Evaluate(s, Run(s, Initial(s), seen[..n]).value, seen[n])
  {
    var before := Run(s, Initial(s), seen[..n]).value;
    assert seen[..n] + [seen[n]] == seen;
    RunSplits(s, Initial(s), seen[..n], [seen[n]]);
    RunOfOne(s, before, seen[n]);
  }
}

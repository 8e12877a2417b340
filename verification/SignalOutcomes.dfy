/** The lifecycle of one analysis signal, evaluated candle by candle with conservative intrabar rules.
  * Prices are reals: rounding is not part of the model. */
module SignalOutcomes {
  import opened Domain
  import opened Reals

  datatype Side = Buy | Sell | Hold

  datatype Lifecycle = Active | Completed | Stale | Expired | Stopped | TargetHit | StopHit | Superseded

  datatype Signal = Signal(
    signalId: nat,
    instrument: string,
    side: Side,
    entry: Option<real>,
    stopLoss: Option<real>,
    takeProfit: Option<real>,
    riskReward: Option<real>,
    eligible: bool,
    ready: bool,
    blockers: seq<string>,
    validFrom: Option<Time>,
    validUntil: Option<Time>,
    generatedAt: Time)

  datatype Outcome = Outcome(
    status: Lifecycle,
    entryReached: bool,
    entryReachedAt: Option<Time>,
    stopHit: bool,
    targetHit: bool,
    expired: bool,
    mfe: real,
    mae: real,
    holding: Option<int>,
    riskReward: Option<real>,
    profitLoss: Option<real>,
    evaluatedAt: Time,
    completedAt: Option<Time>,
    reasons: seq<string>)

  datatype Candle = Candle(high: real, low: real, close: real)

  datatype Observation = Observation(candle: Candle, at: Time, superseded: bool)

  datatype Failure = AssertionError

  // ---- the signal's own validator ----

  predicate Positive(price: Option<real>) {
    price.Some? ==> price.value > 0.0
  }

  /** `geometry_and_strength_are_consistent`, without the strength label; None is acceptance. */
  function GeometryError(s: Signal): Option<string> {
    var all := s.entry.Some? && s.stopLoss.Some? && s.takeProfit.Some? && s.riskReward.Some?;
    var none := s.entry.None? && s.stopLoss.None? && s.takeProfit.None? && s.riskReward.None?;
    if s.validFrom.Some? && s.validUntil.Some? && s.validUntil.value <= s.validFrom.value then Some("validity")
    else if s.side == Hold then (if none then None else Some("hold geometry"))
    else if s.eligible && !s.ready then Some("eligible must be ready")
    else if s.eligible && s.blockers != [] then Some("eligible has blockers")
    else if s.eligible && !all then Some("eligible requires geometry")
    else if !s.eligible && s.ready then Some("ineligible must be blocked")
    else if !s.eligible && s.blockers == [] then Some("ineligible requires blockers")
    else if !s.eligible && none then None
    else if !all then Some("partial geometry")
    else if s.side == Buy && !(s.stopLoss.value < s.entry.value < s.takeProfit.value) then Some("buy geometry")
    else if s.side == Sell && !(s.takeProfit.value < s.entry.value < s.stopLoss.value) then Some("sell geometry")
    else None
  }

  /** A signal object that exists has passed its field bounds and its validator. */
  predicate Accepted(s: Signal) {
    && Positive(s.entry) && Positive(s.stopLoss) && Positive(s.takeProfit) && Positive(s.riskReward)
    && GeometryError(s).None?
  }

  /** Stop, entry and target are present and on the right sides of each other. */
  predicate Tradable(s: Signal) {
    && s.entry.Some? && s.stopLoss.Some? && s.takeProfit.Some?
    && match s.side
       case Buy => s.stopLoss.value < s.entry.value < s.takeProfit.value
       case Sell => s.takeProfit.value < s.entry.value < s.stopLoss.value
       case Hold => false
  }

  // ---- the evaluator ----

  function Initial(s: Signal): Outcome {
    var terminal := s.side == Hold || !s.eligible;
    Outcome(if terminal then Completed else Active, false, None, false, false, false, 0.0, 0.0, None, None, None,
            s.generatedAt, if terminal then Some(s.generatedAt) else None,
            if s.side == Hold then ["hold_cycle_completed"] else if terminal then ["execution_blocked"] else [])
  }

  predicate Live(o: Outcome) {
    o.status in {Active, Stale}
  }

  /** What one candle shows about a trade, in the trade's own terms. */
  datatype Reading = Reading(
    newlyEntered: bool, entered: bool,
    favorable: real, adverse: real,
    touchedTarget: bool, touchedStop: bool,
    risk: real, gain: real, marked: real)

  function Read(s: Signal, wasEntered: bool, candle: Candle): Reading
    requires s.entry.Some? && s.stopLoss.Some? && s.takeProfit.Some?
  {
    var Candle(high, low, close) := candle;
    var entry, stop, target := s.entry.value, s.stopLoss.value, s.takeProfit.value;
    var buy := s.side == Buy;
    var newlyEntered := !wasEntered && low <= entry <= high;
    var entered := wasEntered || newlyEntered;
    Reading(newlyEntered, entered,
            if buy then Max(0.0, high - entry) else Max(0.0, entry - low),
            if buy then Max(0.0, entry - low) else Max(0.0, high - entry),
            entered && (if buy then high >= target else low <= target),
            entered && (if buy then low <= stop else high >= stop),
            Abs(entry - stop), Abs(target - entry),
            if !entered then 0.0 else if buy then close - entry else entry - close)
  }

  /** The branch chain: a target on the entry candle is deferred, a target together with a stop is a stop. */
  function Settle(r: Reading, previous: Outcome, validUntil: Option<Time>, at: Time, superseded: bool): Outcome {
    var deferred := r.newlyEntered && r.touchedTarget && !r.touchedStop;
    var target := r.touchedTarget && !deferred;
    var (status, targetHit, pnl, completedAt, reasons) :=
      if target && r.touchedStop then
        (StopHit, false, Some(-r.risk), Some(at), ["same_candle_target_and_stop_conservative_stop"])
      else if target then (TargetHit, true, Some(r.gain), Some(at), [])
      else if r.touchedStop then (StopHit, false, Some(-r.risk), Some(at), [])
      else if validUntil.Some? && at >= validUntil.value then
        (Expired, false, Some(r.marked), Some(at), ["validity_horizon_elapsed"])
      else if superseded then
        (Superseded, false, Some(r.marked), Some(at), ["newer_analytical_cycle_completed"])
      else if deferred then (Active, false, None, None, ["entry_target_intrabar_order_unresolved"])
      else (Active, false, None, None, []);
    var enteredAt := if previous.entryReachedAt.Some? then previous.entryReachedAt
                     else if r.entered then Some(at) else None;
    Outcome(status, r.entered, enteredAt, r.touchedStop, targetHit, status == Expired,
            Max(previous.mfe, if r.entered then r.favorable else 0.0),
            Max(previous.mae, if r.entered then r.adverse else 0.0),
            if completedAt.Some? && enteredAt.Some? then Some(completedAt.value - enteredAt.value) else None,
            if pnl.Some? && r.risk > 0.0 then Some(pnl.value / r.risk) else None,
            pnl, at, completedAt, reasons)
  }

  function Evaluate(s: Signal, previous: Outcome, seen: Observation): Result<Outcome, Failure> {
    if !Live(previous) then Ok(previous)
    else if s.entry.None? || s.stopLoss.None? || s.takeProfit.None? then Err(AssertionError)
    else Ok(Settle(Read(s, previous.entryReached, seen.candle), previous, s.validUntil, seen.at, seen.superseded))
  }

  /** The outcome after a run of candles. */
  function Run(s: Signal, start: Outcome, seen: seq<Observation>): Result<Outcome, Failure>
    decreases |seen|
  {
    if seen == [] then Ok(start)
    else
      match Evaluate(s, start, seen[0])
      case Err(e) => Err(e)
      case Ok(next) => Run(s, next, seen[1..])
  }

  predicate Ordered(candle: Candle) {
    candle.low <= candle.close <= candle.high
  }

  predicate AllOrdered(seen: seq<Observation>) {
    forall i | 0 <= i < |seen| :: Ordered(seen[i].candle)
  }

  // ---- what every reachable outcome satisfies ----

  lemma EligibleSignalsAreTradable(s: Signal)
    requires Accepted(s) && Live(Initial(s))
    ensures Tradable(s)
  {}

  /** An outcome still under observation carries no result; excursions start with the entry. */
  predicate Open(o: Outcome) {
    && o.status == Active && o.entryReached == o.entryReachedAt.Some?
    && !o.stopHit && !o.targetHit && !o.expired
    && o.profitLoss.None? && o.riskReward.None? && o.completedAt.None? && o.holding.None?
    && o.mfe >= 0.0 && o.mae >= 0.0 && (!o.entryReached ==> o.mfe == o.mae == 0.0)
  }

  /** The bounds of a finished trade. */
  predicate Settled(o: Outcome) {
    && o.status in {TargetHit, StopHit, Expired, Superseded}
    && o.profitLoss.Some? && o.riskReward.Some? && o.completedAt.Some?
    && !(o.targetHit && o.stopHit)
    && (o.targetHit <==> o.status == TargetHit) && (o.stopHit <==> o.status == StopHit)
    && (o.expired <==> o.status == Expired)
    && -o.mae <= o.profitLoss.value <= o.mfe
    && o.riskReward.value >= -1.0
    && (o.status == StopHit ==> o.riskReward.value == -1.0)
    && (o.status == TargetHit ==> o.profitLoss.value > 0.0)
    && (!o.entryReached ==> o.profitLoss.value == 0.0 && o.mfe == o.mae == 0.0)
  }

  /** A signal that was never going to trade. */
  predicate Untraded(o: Outcome) {
    o.status == Completed && !o.entryReached && !o.stopHit && !o.targetHit && o.profitLoss.None?
  }

  lemma RatioAtLeastMinusOne(pnl: real, risk: real)
    requires risk > 0.0 && pnl >= -risk
    ensures pnl / risk >= -1.0
    ensures pnl == -risk ==> pnl / risk == -1.0
  {}

  /** What holds of a reading whatever the candle, as long as it is ordered. */
  predicate Plausible(r: Reading) {
    && r.risk > 0.0 && r.gain > 0.0 && r.favorable >= 0.0 && r.adverse >= 0.0
    && (r.newlyEntered ==> r.entered)
    && (r.touchedTarget ==> r.entered && r.favorable >= r.gain)
    && (r.touchedStop ==> r.entered && r.adverse >= r.risk)
    && -r.adverse <= r.marked <= r.favorable && (!r.entered ==> r.marked == 0.0)
    && (!r.touchedStop ==> r.marked >= -r.risk)
  }

  lemma ReadingIsPlausible(s: Signal, wasEntered: bool, candle: Candle)
    requires Tradable(s) && Ordered(candle)
    ensures Plausible(Read(s, wasEntered, candle))
  {}

  lemma PlausibleReadingSettles(r: Reading, previous: Outcome, validUntil: Option<Time>, at: Time, superseded: bool)
    requires Plausible(r) && Open(previous) && r.entered == (previous.entryReached || r.newlyEntered)
    requires r.newlyEntered ==> !previous.entryReached
    ensures var o := Settle(r, previous, validUntil, at, superseded);
      && (Open(o) || Settled(o))
      && o.mfe >= previous.mfe && o.mae >= previous.mae
      && (o.status == TargetHit ==> previous.entryReached)
      && (previous.entryReached ==> o.entryReached && o.entryReachedAt == previous.entryReachedAt)
      && (superseded ==> Settled(o))
  {
    var o := Settle(r, previous, validUntil, at, superseded);
    if o.profitLoss.Some? { RatioAtLeastMinusOne(o.profitLoss.value, r.risk); }
  }

  lemma StepSettlesOrStaysOpen(s: Signal, previous: Outcome, seen: Observation)
    requires Tradable(s) && Open(previous) && Ordered(seen.candle)
    ensures Evaluate(s, previous, seen).Ok?
    ensures var o := Evaluate(s, previous, seen).value;
      && (Open(o) || Settled(o))
      && o.mfe >= previous.mfe && o.mae >= previous.mae
      && (o.status == TargetHit ==> previous.entryReached)
      && (previous.entryReached ==> o.entryReached && o.entryReachedAt == previous.entryReachedAt)
      && (seen.superseded ==> Settled(o))
  {
    ReadingIsPlausible(s, previous.entryReached, seen.candle);
    PlausibleReadingSettles(Read(s, previous.entryReached, seen.candle), previous, s.validUntil, seen.at,
                            seen.superseded);
  }

  /** The rules for a BUY in terms of the prices alone: a touched stop always wins; a target counts only if the entry
    * was reached before this candle; then the validity horizon; then supersession. `MirrorStep` gives SELL. */
  lemma BuyCandleRules(s: Signal, previous: Outcome, seen: Observation)
    requires Tradable(s) && s.side == Buy && Open(previous) && Ordered(seen.candle)
    ensures Evaluate(s, previous, seen).Ok?
    ensures var o := Evaluate(s, previous, seen).value; var Candle(high, low, close) := seen.candle;
      var entry, stop, target := s.entry.value, s.stopLoss.value, s.takeProfit.value;
      var entered := previous.entryReached || low <= entry <= high;
      var stopped := entered && low <= stop;
      var reached := previous.entryReached && high >= target && !stopped;
      var elapsed := s.validUntil.Some? && seen.at >= s.validUntil.value;
      && o.entryReached == entered
      && (o.status == StopHit <==> stopped)
      && (o.status == TargetHit <==> reached)
      && (o.status == Expired <==> !stopped && !reached && elapsed)
      && (o.status == Superseded <==> !stopped && !reached && !elapsed && seen.superseded)
      && (o.status == Active <==> !stopped && !reached && !elapsed && !seen.superseded)
      && (stopped ==> o.profitLoss == Some(stop - entry))
      && (reached ==> o.profitLoss == Some(target - entry))
      && (o.status in {Expired, Superseded} ==> o.profitLoss == Some(if entered then close - entry else 0.0))
      && (o.status == Active ==> o.profitLoss.None?)
  {}

  lemma {:induction false} FinishedNeverChanges(s: Signal, o: Outcome, seen: seq<Observation>)
    requires !Live(o)
    ensures Run(s, o, seen) == Ok(o)
    decreases |seen|
  {
    if seen != [] { FinishedNeverChanges(s, o, seen[1..]); }
  }

  lemma {:induction false} RunStaysInBounds(s: Signal, start: Outcome, seen: seq<Observation>)
    requires Tradable(s) && (Open(start) || Settled(start))
    requires AllOrdered(seen)
    ensures Run(s, start, seen).Ok?
    ensures Open(Run(s, start, seen).value) || Settled(Run(s, start, seen).value)
    decreases |seen|
  {
    if Settled(start) {
      FinishedNeverChanges(s, start, seen);
    } else if seen != [] {
      StepSettlesOrStaysOpen(s, start, seen[0]);
      RunStaysInBounds(s, Evaluate(s, start, seen[0]).value, seen[1..]);
    }
  }

  /** Over every candle run from `initial` of an accepted signal: no assertion fails, and the outcome is open,
    * settled within its bounds, or that of a signal that does not trade. */
  lemma OutcomeBounds(s: Signal, seen: seq<Observation>)
    requires Accepted(s)
    requires AllOrdered(seen)
    ensures Run(s, Initial(s), seen).Ok?
    ensures var o := Run(s, Initial(s), seen).value; Open(o) || Settled(o) || Untraded(o)
  {
    if Live(Initial(s)) {
      EligibleSignalsAreTradable(s);
      RunStaysInBounds(s, Initial(s), seen);
    } else {
      FinishedNeverChanges(s, Initial(s), seen);
    }
  }

  lemma {:induction false} RunSplits(s: Signal, start: Outcome, first: seq<Observation>, rest: seq<Observation>)
    requires Run(s, start, first).Ok?
    ensures Run(s, start, first + rest) == Run(s, Run(s, start, first).value, rest)
    decreases |first|
  {
    if first == [] {
      assert first + rest == rest;
    } else {
      assert (first + rest)[1..] == first[1..] + rest;
      RunSplits(s, Evaluate(s, start, first[0]).value, first[1..], rest);
    }
  }

  /** Once an outcome is finished, no further candle changes it. */
  lemma FinishedOutcomesAreFinal(s: Signal, first: seq<Observation>, rest: seq<Observation>)
    requires Run(s, Initial(s), first).Ok? && !Live(Run(s, Initial(s), first).value)
    ensures Run(s, Initial(s), first + rest) == Run(s, Initial(s), first)
  {
    RunSplits(s, Initial(s), first, rest);
    FinishedNeverChanges(s, Run(s, Initial(s), first).value, rest);
  }

  /** A target counts only when the entry was touched by an earlier candle of the run. */
  lemma {:induction false} TargetNeedsEarlierEntry(s: Signal, seen: seq<Observation>)
    requires Accepted(s) && AllOrdered(seen)
    requires Run(s, Initial(s), seen).Ok? && Run(s, Initial(s), seen).value.status == TargetHit
    ensures exists k | 0 <= k < |seen| ::
      && Run(s, Initial(s), seen[..k]).Ok? && Run(s, Initial(s), seen[..k]).value.entryReached
      && Run(s, Initial(s), seen[..k]).value.status == Active
    decreases |seen|
  {
    var n := |seen| - 1;
    if seen == [] {
    } else {
      OutcomeBounds(s, seen[..n]);
      RunSplits(s, Initial(s), seen[..n], seen[n..]);
      assert seen[..n] + seen[n..] == seen && seen[n..][1..] == [];
      var before := Run(s, Initial(s), seen[..n]).value;
      if Open(before) {
        EligibleWhenOpen(s, seen[..n]);
        StepSettlesOrStaysOpen(s, before, seen[n]);
      } else {
        TargetNeedsEarlierEntry(s, seen[..n]);
        var k :| 0 <= k < n && Run(s, Initial(s), seen[..n][..k]).Ok?
                 && Run(s, Initial(s), seen[..n][..k]).value.entryReached
                 && Run(s, Initial(s), seen[..n][..k]).value.status == Active;
        assert seen[..n][..k] == seen[..k];
      }
    }
  }

  lemma EligibleWhenOpen(s: Signal, seen: seq<Observation>)
    requires Accepted(s) && Run(s, Initial(s), seen).Ok? && Live(Run(s, Initial(s), seen).value)
    ensures Tradable(s)
  {}

  // ---- ordered candles are exactly what the bounds need ----

  predicate InBounds(s: Signal, previous: Outcome, seen: Observation) {
    var o := Evaluate(s, previous, seen);
    o.Ok? && (Open(o.value) || Settled(o.value))
  }

  /** A signal that a candle whose close lies outside its range takes out of its bounds: entered before, superseded
    * now, its entry at the side of the range the close has left, its stop and its target out of reach. */
  function Witness(candle: Candle): Signal {
    var Candle(high, low, close) := candle;
    var entry := if close > high then high else low;
    var lowest := Min(high, low);
    var stop := if lowest > 0.0 then lowest / 2.0 else lowest - 1.0;
    Signal(1, "", Buy, Some(entry), Some(stop), Some(Max(high, low) + 1.0), Some(1.0), true, true, [], None, None, 0)
  }

  function EntryCandle(candle: Candle): Candle {
    var entry := Witness(candle).entry.value;
    Candle(entry, entry, entry)
  }

  lemma WitnessLeavesTheBounds(candle: Candle, at: Time)
    requires !Ordered(candle)
    ensures var s := Witness(candle);
      && (candle.high > 0.0 && candle.low > 0.0 ==> Accepted(s)) && Tradable(s) && Ordered(EntryCandle(candle))
      && var entered := Evaluate(s, Initial(s), Observation(EntryCandle(candle), at, false));
         entered.Ok? && Open(entered.value) && !InBounds(s, entered.value, Observation(candle, at, true))
  {}

  /** One candle keeps every outcome of every tradable signal in its bounds if and only if its close lies within its
    * range. */
  lemma CandleKeepsBoundsExactlyWhenOrdered(candle: Candle, at: Time)
    ensures (forall s, previous, superseded | Tradable(s) && Open(previous) ::
              InBounds(s, previous, Observation(candle, at, superseded)))
       <==> Ordered(candle)
  {
    if Ordered(candle) {
      forall s, previous, superseded | Tradable(s) && Open(previous)
        ensures InBounds(s, previous, Observation(candle, at, superseded))
      {
        StepSettlesOrStaysOpen(s, previous, Observation(candle, at, superseded));
      }
    } else {
      WitnessLeavesTheBounds(candle, at);
      var s := Witness(candle);
      var entered := Evaluate(s, Initial(s), Observation(EntryCandle(candle), at, false)).value;
      assert !InBounds(s, entered, Observation(candle, at, true));
    }
  }

  predicate EndsInBounds(s: Signal, before: seq<Observation>, last: Observation) {
    var run := Run(s, Initial(s), before + [last]);
    run.Ok? && (Open(run.value) || Settled(run.value) || Untraded(run.value))
  }

  lemma {:induction false} WitnessRunLeavesTheBounds(candle: Candle, at: Time)
    requires !Ordered(candle)
    ensures !EndsInBounds(Witness(candle), [Observation(EntryCandle(candle), at, false)], Observation(candle, at, true))
  {
    WitnessLeavesTheBounds(candle, at);
    var s, first, last := Witness(candle), Observation(EntryCandle(candle), at, false), Observation(candle, at, true);
    var entered, left := Evaluate(s, Initial(s), first).value, Evaluate(s, Evaluate(s, Initial(s), first).value, last);
    assert Run(s, Initial(s), [first]) == Ok(entered);
    RunSplits(s, Initial(s), [first], [last]);
    assert Run(s, entered, [last]) == left;
  }

  lemma {:induction false} OrderedRunEndsInBounds(s: Signal, before: seq<Observation>, last: Observation)
    requires Accepted(s) && AllOrdered(before) && Ordered(last.candle)
    ensures EndsInBounds(s, before, last)
  {
    OutcomeBounds(s, before + [last]);
  }

  /** The same for whole runs: `OutcomeBounds` survives one more candle for all signals if and only if it is ordered. */
  lemma {:induction false} RunsKeepBoundsExactlyWhenOrdered(candle: Candle, at: Time)
    requires candle.high > 0.0 && candle.low > 0.0
    ensures (forall s, before, superseded | Accepted(s) && AllOrdered(before) ::
              EndsInBounds(s, before, Observation(candle, at, superseded)))
       <==> Ordered(candle)
  {
    if Ordered(candle) {
      forall s, before, superseded | Accepted(s) && AllOrdered(before)
        ensures EndsInBounds(s, before, Observation(candle, at, superseded))
      {
        OrderedRunEndsInBounds(s, before, Observation(candle, at, superseded));
      }
    } else {
      WitnessLeavesTheBounds(candle, at);
      WitnessRunLeavesTheBounds(candle, at);
      assert AllOrdered([Observation(EntryCandle(candle), at, false)]);
    }
  }

  /** An instance: the close above the high gives a result of 10 with a largest favorable excursion of 1. */
  lemma DisorderedCandleBreaksTheBounds()
    ensures var s := Signal(1, "XAUUSD", Buy, Some(100.0), Some(90.0), Some(120.0), Some(2.0), true, true, [], None, None, 0);
      var seen := [Observation(Candle(101.0, 99.0, 110.0), 5, true)];
      && Accepted(s) && Run(s, Initial(s), seen).Ok?
      && Run(s, Initial(s), seen).value.profitLoss == Some(10.0)
      && Run(s, Initial(s), seen).value.mfe == 1.0
  {}

  // ---- BUY and SELL are mirror images ----

  function Reflected(price: Option<real>, c: real): Option<real> {
    if price.Some? then Some(c - price.value) else None
  }

  function MirrorSignal(s: Signal, c: real): Signal {
    s.(side := match s.side case Buy => Sell case Sell => Buy case Hold => Hold,
       entry := Reflected(s.entry, c), stopLoss := Reflected(s.stopLoss, c), takeProfit := Reflected(s.takeProfit, c))
  }

  function MirrorSeen(seen: Observation, c: real): Observation {
    seen.(candle := Candle(c - seen.candle.low, c - seen.candle.high, c - seen.candle.close))
  }

  lemma MirrorStep(s: Signal, previous: Outcome, seen: Observation, c: real)
    requires s.side != Hold
    ensures Evaluate(MirrorSignal(s, c), previous, MirrorSeen(seen, c)) == Evaluate(s, previous, seen)
  {
    if s.entry.Some? && s.stopLoss.Some? && s.takeProfit.Some? {
      assert Read(MirrorSignal(s, c), previous.entryReached, MirrorSeen(seen, c).candle)
          == Read(s, previous.entryReached, seen.candle);
    }
  }

  lemma {:induction false} MirrorFrom(s: Signal, start: Outcome, seen: seq<Observation>, mirrored: seq<Observation>, c: real)
    requires s.side != Hold && |mirrored| == |seen|
    requires forall i | 0 <= i < |seen| :: mirrored[i] == MirrorSeen(seen[i], c)
    ensures Run(MirrorSignal(s, c), start, mirrored) == Run(s, start, seen)
    decreases |seen|
  {
    if seen != [] {
      MirrorStep(s, start, seen[0], c);
      if Evaluate(s, start, seen[0]).Ok? {
        MirrorFrom(s, Evaluate(s, start, seen[0]).value, seen[1..], mirrored[1..], c);
      }
    }
  }

  lemma MirrorTwice(s: Signal, c: real)
    ensures MirrorSignal(MirrorSignal(s, c), c) == s
  {}

  function MirrorRun(seen: seq<Observation>, c: real): seq<Observation> {
    seq(|seen|, i requires 0 <= i < |seen| => MirrorSeen(seen[i], c))
  }

  /** Reflecting every price (p becomes c - p, high and low swapped) turns any BUY run into a SELL run with the
    * same outcome, field by field, after every candle; and back. */
  lemma MirrorSymmetry(s: Signal, seen: seq<Observation>, c: real, k: nat)
    requires s.side != Hold && k <= |seen|
    ensures Run(MirrorSignal(s, c), Initial(MirrorSignal(s, c)), MirrorRun(seen, c)[..k]) == Run(s, Initial(s), seen[..k])
    ensures MirrorSignal(MirrorSignal(s, c), c) == s
  {
    MirrorTwice(s, c);
    MirrorFrom(s, Initial(s), seen[..k], MirrorRun(seen, c)[..k], c);
  }
}

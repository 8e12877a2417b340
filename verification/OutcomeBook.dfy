/** How the service keeps the outcomes of an instrument's signals up to date, one analysis cycle at a time. */
module OutcomeBook {
  import opened Domain
  import opened SignalOutcomes

  const LISTING_LIMIT: nat := 100

  // ---- listing ----

  /** Newest first; ties by the signal id (whose order stands for that of its text). */
  predicate Precedes(a: Signal, b: Signal) {
    a.generatedAt > b.generatedAt || (a.generatedAt == b.generatedAt && a.signalId >= b.signalId)
  }

  function Insert(s: Signal, sorted: seq<Signal>): seq<Signal> {
    if sorted == [] || Precedes(s, sorted[0]) then [s] + sorted else [sorted[0]] + Insert(s, sorted[1..])
  }

  function Sorted(signals: seq<Signal>): seq<Signal> {
    if signals == [] then [] else Insert(signals[|signals| - 1], Sorted(signals[..|signals| - 1]))
  }

  function Selected(signals: seq<Signal>, instrument: string, end: Time): seq<Signal> {
    if signals == [] then []
    else
      var rest := Selected(signals[..|signals| - 1], instrument, end);
      var s := signals[|signals| - 1];
      if s.instrument == instrument && s.generatedAt <= end then rest + [s] else rest
  }

  /** `list_analysis_signals` as the outcome update calls it. */
  function Listing(signals: seq<Signal>, instrument: string, end: Time, limit: nat): seq<Signal> {
    var sorted := Sorted(Selected(signals, instrument, end));
    if |sorted| <= limit then sorted else sorted[..limit]
  }

  // ---- the update ----

  type Outcomes = map<nat, Outcome>

  function Stored(outcomes: Outcomes, s: Signal): Outcome {
    if s.signalId in outcomes then outcomes[s.signalId] else Initial(s)
  }

  /** The loop over the listed signals: everything but the current one is evaluated as superseded. */
  function Supersede(outcomes: Outcomes, listed: seq<Signal>, current: Signal, candle: Candle, at: Time)
    : Result<Outcomes, Failure>
    decreases |listed|
  {
    if listed == [] then Ok(outcomes)
    else if listed[0].signalId == current.signalId then Supersede(outcomes, listed[1..], current, candle, at)
    else
      match Evaluate(listed[0], Stored(outcomes, listed[0]), Observation(candle, at, true))
      case Err(e) => Err(e)
      case Ok(o) =>
        var outcomes' := if o != Stored(outcomes, listed[0]) then outcomes[listed[0].signalId := o] else outcomes;
        Supersede(outcomes', listed[1..], current, candle, at)
  }

  /** What the loop has stored when an assertion stops it, or at its end. */
  function SupersededUntilFailure(outcomes: Outcomes, listed: seq<Signal>, current: Signal, candle: Candle, at: Time)
    : Outcomes
    decreases |listed|
  {
    if listed == [] then outcomes
    else if listed[0].signalId == current.signalId then
      SupersededUntilFailure(outcomes, listed[1..], current, candle, at)
    else
      match Evaluate(listed[0], Stored(outcomes, listed[0]), Observation(candle, at, true))
      case Err(_) => outcomes
      case Ok(o) =>
        var outcomes' := if o != Stored(outcomes, listed[0]) then outcomes[listed[0].signalId := o] else outcomes;
        SupersededUntilFailure(outcomes', listed[1..], current, candle, at)
  }

  function Opened(outcomes: Outcomes, current: Signal): Outcomes {
    if current.signalId in outcomes then outcomes else outcomes[current.signalId := Initial(current)]
  }

  /** `_update_analysis_signal_outcomes`; a cycle without a numeric candle stops after opening the new outcome. */
  function Update(signals: seq<Signal>, outcomes: Outcomes, current: Signal, candle: Option<Candle>, at: Time)
    : Result<Outcomes, Failure>
  {
    if candle.None? then Ok(Opened(outcomes, current))
    else Supersede(Opened(outcomes, current),
                   Listing(signals, current.instrument, current.generatedAt, LISTING_LIMIT), current, candle.value, at)
  }

  class Book {
    var signals: seq<Signal>
    var outcomes: Outcomes

    constructor ()
      ensures signals == [] && outcomes == map[]
    {
      signals, outcomes := [], map[];
    }

    /** Saves the cycle's signal and updates the outcomes; an assertion that fails stops the loop midway. */
    method CompleteCycle(current: Signal, candle: Option<Candle>, at: Time) returns (done: Result<(), Failure>)
      modifies this
      ensures signals == old(signals) + [current]
      ensures match Update(old(signals) + [current], old(outcomes), current, candle, at)
        case Ok(updated) => done.Ok? && outcomes == updated
        case Err(e) =>
          && done == Err(e) && candle.Some?
          && outcomes == SupersededUntilFailure(
               Opened(old(outcomes), current),
               Listing(old(signals) + [current], current.instrument, current.generatedAt, LISTING_LIMIT),
               current, candle.value, at)
    {
      signals := signals + [current];
      if current.signalId !in outcomes {
        outcomes := outcomes[current.signalId := Initial(current)];
      }
      if candle.None? {
        return Ok(());
      }
      var listed := Listing(signals, current.instrument, current.generatedAt, LISTING_LIMIT);
      var i := 0;
      ghost var target := Supersede(outcomes, listed, current, candle.value, at);
      ghost var stored := SupersededUntilFailure(outcomes, listed, current, candle.value, at);
      while i < |listed|
        invariant i <= |listed|
        invariant signals == old(signals) + [current]
        invariant Supersede(outcomes, listed[i..], current, candle.value, at) == target
        invariant SupersededUntilFailure(outcomes, listed[i..], current, candle.value, at) == stored
      {
        var s := listed[i];
        assert listed[i..][1..] == listed[i + 1..];
        if s.signalId != current.signalId {
          var previous := if s.signalId in outcomes then outcomes[s.signalId] else Initial(s);
          var evaluated := Evaluate(s, previous, Observation(candle.value, at, true));
          if evaluated.Err? {
            return Err(evaluated.error);
          }
          if evaluated.value != previous {
            outcomes := outcomes[s.signalId := evaluated.value];
          }
        }
        i := i + 1;
      }
      return Ok(());
    }
  }

  // ---- listing, for signals saved in the order they were generated ----

  ghost predicate Chronological(signals: seq<Signal>) {
    forall i, j | 0 <= i < j < |signals| && signals[i].instrument == signals[j].instrument ::
      signals[i].generatedAt < signals[j].generatedAt
  }

  ghost predicate DistinctIds(signals: seq<Signal>) {
    forall i, j | 0 <= i < j < |signals| :: signals[i].signalId != signals[j].signalId
  }

  function Reversed(signals: seq<Signal>): seq<Signal> {
    if signals == [] then [] else [signals[|signals| - 1]] + Reversed(signals[..|signals| - 1])
  }

  ghost predicate Increasing(signals: seq<Signal>) {
    forall i, j | 0 <= i < j < |signals| :: signals[i].generatedAt < signals[j].generatedAt
  }

  /** Every earlier signal of the instrument is older than the current one. */
  ghost predicate Newer(signals: seq<Signal>, current: Signal) {
    forall s | s in signals && s.instrument == current.instrument :: s.generatedAt < current.generatedAt
  }

  lemma ChronologicalSplits(signals: seq<Signal>, current: Signal)
    requires Chronological(signals + [current])
    ensures Chronological(signals) && Newer(signals, current)
  {
    var all := signals + [current];
    forall i | 0 <= i < |signals| ensures all[i] == signals[i] {}
    forall s | s in signals && s.instrument == current.instrument ensures s.generatedAt < current.generatedAt {
      var i :| 0 <= i < |signals| && signals[i] == s;
      assert all[i] == s && all[|signals|] == current;
    }
  }

  lemma {:induction false} SelectedMembers(signals: seq<Signal>, instrument: string, end: Time, s: Signal)
    ensures s in Selected(signals, instrument, end) <==>
            s in signals && s.instrument == instrument && s.generatedAt <= end
    decreases |signals|
  {
    if signals != [] {
      var n := |signals| - 1;
      assert signals == signals[..n] + [signals[n]];
      SelectedMembers(signals[..n], instrument, end, s);
    }
  }

  lemma {:induction false} SelectedIncreases(signals: seq<Signal>, instrument: string, end: Time)
    requires Chronological(signals)
    ensures Increasing(Selected(signals, instrument, end))
    decreases |signals|
  {
    if signals != [] {
      var n := |signals| - 1;
      assert signals == signals[..n] + [signals[n]];
      ChronologicalSplits(signals[..n], signals[n]);
      SelectedIncreases(signals[..n], instrument, end);
      var rest := Selected(signals[..n], instrument, end);
      forall i | 0 <= i < |rest| && signals[n].instrument == instrument
        ensures rest[i].generatedAt < signals[n].generatedAt
      {
        SelectedMembers(signals[..n], instrument, end, rest[i]);
      }
    }
  }

  lemma {:induction false} SortReverses(signals: seq<Signal>)
    requires Increasing(signals)
    ensures Sorted(signals) == Reversed(signals)
    decreases |signals|
  {
    if signals != [] {
      var n := |signals| - 1;
      SortReverses(signals[..n]);
      if n > 0 { assert Reversed(signals[..n])[0] == signals[n - 1]; }
    }
  }

  lemma {:induction false} ReversedMembers(signals: seq<Signal>, s: Signal)
    ensures s in Reversed(signals) <==> s in signals
    decreases |signals|
  {
    if signals != [] {
      var n := |signals| - 1;
      assert signals == signals[..n] + [signals[n]];
      ReversedMembers(signals[..n], s);
    }
  }

  function ListedNow(signals: seq<Signal>, current: Signal): seq<Signal> {
    Listing(signals + [current], current.instrument, current.generatedAt, LISTING_LIMIT)
  }

  /** The signals of the current one's instrument that came before it. */
  function Earlier(signals: seq<Signal>, current: Signal): seq<Signal> {
    Selected(signals, current.instrument, current.generatedAt)
  }

  /** The listing starts with the current signal and the one before it, whatever else the limit cuts off. */
  lemma NewestTwoAreListed(signals: seq<Signal>, current: Signal)
    requires Chronological(signals + [current])
    ensures var listed, earlier := ListedNow(signals, current), Earlier(signals, current);
      && |listed| > 0 && listed[0] == current
      && (earlier != [] ==> |listed| > 1 && listed[1] == earlier[|earlier| - 1])
  {
    var all, earlier := signals + [current], Earlier(signals, current);
    var chosen := Selected(all, current.instrument, current.generatedAt);
    assert all[..|signals|] == signals;
    assert chosen == earlier + [current];
    SelectedIncreases(all, current.instrument, current.generatedAt);
    SortReverses(chosen);
    assert chosen[..|earlier|] == earlier;
    assert Sorted(chosen) == [current] + Reversed(earlier);
  }

  lemma ListedMembers(signals: seq<Signal>, current: Signal, s: Signal)
    requires Chronological(signals + [current]) && s in ListedNow(signals, current)
    ensures s in signals + [current] && s.instrument == current.instrument
  {
    var all := signals + [current];
    var chosen := Selected(all, current.instrument, current.generatedAt);
    SelectedIncreases(all, current.instrument, current.generatedAt);
    SortReverses(chosen);
    assert s in Sorted(chosen);
    ReversedMembers(chosen, s);
    SelectedMembers(all, current.instrument, current.generatedAt, s);
  }

  // ---- at most one active outcome ----

  /** Of one instrument's signals only the newest may be unfinished, and every outcome is on record. */
  ghost predicate OnlyNewestActive(signals: seq<Signal>, outcomes: Outcomes) {
    && (forall s | s in signals :: s.signalId in outcomes)
    && (forall i, j | 0 <= i < j < |signals| && signals[i].instrument == signals[j].instrument ::
          !Live(outcomes[signals[i].signalId]))
  }

  /** Recorded outcomes are those of runs from `initial`: a live one belongs to a tradable signal. */
  ghost predicate Sound(signals: seq<Signal>, outcomes: Outcomes) {
    forall s | s in signals && s.signalId in outcomes && Live(outcomes[s.signalId]) :: Tradable(s)
  }

  lemma SupersededIsFinished(s: Signal, previous: Outcome, candle: Candle, at: Time)
    requires Live(previous) ==> Tradable(s)
    ensures Evaluate(s, previous, Observation(candle, at, true)).Ok?
    ensures !Live(Evaluate(s, previous, Observation(candle, at, true)).value)
    ensures !Live(previous) ==> Evaluate(s, previous, Observation(candle, at, true)).value == previous
  {}

  /** What a pass over the list leaves: everything listed but the current one is finished, nothing else is touched. */
  ghost predicate Finishes(outcomes: Outcomes, outcomes': Outcomes, listed: seq<Signal>, current: Signal) {
    && (forall id | id in outcomes :: id in outcomes' && (!Live(outcomes[id]) ==> outcomes'[id] == outcomes[id]))
    && (forall id | id in outcomes' && id !in outcomes :: exists s | s in listed :: s.signalId == id)
    && (current.signalId in outcomes ==> outcomes'[current.signalId] == outcomes[current.signalId])
    && (forall id | id in outcomes && (forall s | s in listed :: s.signalId != id) :: outcomes'[id] == outcomes[id])
    && (forall s | s in listed && s.signalId != current.signalId && s.signalId in outcomes ::
          !Live(outcomes'[s.signalId]))
  }

  lemma FinishesOneMore(outcomes: Outcomes, outcomes1: Outcomes, outcomes': Outcomes, s: Signal, rest: seq<Signal>,
                        current: Signal)
    requires s.signalId != current.signalId && Finishes(outcomes1, outcomes', rest, current)
    requires forall id | id in outcomes && id != s.signalId :: id in outcomes1 && outcomes1[id] == outcomes[id]
    requires forall id | id in outcomes1 && id != s.signalId :: id in outcomes
    requires s.signalId in outcomes ==>
      && s.signalId in outcomes1 && !Live(outcomes1[s.signalId])
      && (!Live(outcomes[s.signalId]) ==> outcomes1[s.signalId] == outcomes[s.signalId])
    ensures Finishes(outcomes, outcomes', [s] + rest, current)
  {}

  /** The loop finishes every listed outcome but the current one, touches nothing else, and never fails. */
  lemma {:induction false} SupersedeFinishes(outcomes: Outcomes, listed: seq<Signal>, current: Signal, candle: Candle,
                                             at: Time)
    requires forall s | s in listed && s.signalId != current.signalId :: Live(Stored(outcomes, s)) ==> Tradable(s)
    ensures Supersede(outcomes, listed, current, candle, at).Ok?
    ensures Finishes(outcomes, Supersede(outcomes, listed, current, candle, at).value, listed, current)
    decreases |listed|
  {
    if listed != [] {
      var s, rest := listed[0], listed[1..];
      assert listed == [s] + rest;
      if s.signalId == current.signalId {
        SupersedeFinishes(outcomes, rest, current, candle, at);
      } else {
        SupersededIsFinished(s, Stored(outcomes, s), candle, at);
        var o := Evaluate(s, Stored(outcomes, s), Observation(candle, at, true)).value;
        var outcomes1 := if o != Stored(outcomes, s) then outcomes[s.signalId := o] else outcomes;
        SupersedeFinishes(outcomes1, rest, current, candle, at);
        FinishesOneMore(outcomes, outcomes1, Supersede(outcomes1, rest, current, candle, at).value, s, rest, current);
      }
    }
  }

  // ---- one cycle ----

  function Ids(signals: seq<Signal>): set<nat> {
    set s | s in signals :: s.signalId
  }

  /** Every signal has an outcome, no other id has one, and the live ones are of tradable signals. */
  ghost predicate Recorded(signals: seq<Signal>, outcomes: Outcomes) {
    && (forall s | s in signals :: s.signalId in outcomes)
    && (forall id | id in outcomes :: id in Ids(signals))
    && Sound(signals, outcomes)
  }

  /** The cycle evaluates the signal: it has a numeric candle, and the signal is listed. */
  ghost predicate Reaches(signals: seq<Signal>, current: Signal, candle: Option<Candle>, s: Signal) {
    candle.Some? && s in ListedNow(signals, current)
  }

  lemma SameIdSameSignal(signals: seq<Signal>, s: Signal, t: Signal)
    requires DistinctIds(signals) && s in signals && t in signals && s.signalId == t.signalId
    ensures s == t
  {
    var i :| 0 <= i < |signals| && signals[i] == s;
    var j :| 0 <= j < |signals| && signals[j] == t;
  }

  lemma UnlistedId(all: seq<Signal>, listed: seq<Signal>, s: Signal)
    requires DistinctIds(all) && s in all && s !in listed && forall x | x in listed :: x in all
    ensures forall x | x in listed :: x.signalId != s.signalId
  {
    forall x | x in listed ensures x.signalId != s.signalId {
      if x.signalId == s.signalId { SameIdSameSignal(all, s, x); }
    }
  }

  lemma {:induction false} ListedCanBeEvaluated(signals: seq<Signal>, outcomes: Outcomes, current: Signal)
    requires Chronological(signals + [current]) && Recorded(signals, outcomes)
    ensures forall s | s in ListedNow(signals, current) :: s in signals + [current]
    ensures forall s | s in ListedNow(signals, current) && s.signalId != current.signalId ::
      Live(Stored(Opened(outcomes, current), s)) ==> Tradable(s)
  {
    forall s | s in ListedNow(signals, current) ensures s in signals + [current] { ListedMembers(signals, current, s); }
  }

  lemma {:induction false} UnlistedIsUntouched(signals: seq<Signal>, begun: Outcomes, outcomes': Outcomes,
                                               listed: seq<Signal>, current: Signal, s: Signal)
    requires DistinctIds(signals + [current]) && s in signals && s !in listed && s.signalId in begun
    requires Finishes(begun, outcomes', listed, current) && forall x | x in listed :: x in signals + [current]
    ensures outcomes'[s.signalId] == begun[s.signalId]
  {
    assert s in signals + [current];
    UnlistedId(signals + [current], listed, s);
  }

  /** The pass over the list, signal by signal. */
  lemma {:induction false} ListedAreFinished(signals: seq<Signal>, outcomes: Outcomes, current: Signal, candle: Candle,
                                             at: Time)
    requires Accepted(current) && Chronological(signals + [current]) && DistinctIds(signals + [current])
    requires Recorded(signals, outcomes) && forall s | s in signals :: s.signalId != current.signalId
    ensures Update(signals + [current], outcomes, current, Some(candle), at).Ok?
    ensures var outcomes' := Update(signals + [current], outcomes, current, Some(candle), at).value;
      && Finishes(Opened(outcomes, current), outcomes', ListedNow(signals, current), current)
      && forall s | s in signals && s !in ListedNow(signals, current) :: outcomes'[s.signalId] == outcomes[s.signalId]
  {
    var listed, begun := ListedNow(signals, current), Opened(outcomes, current);
    ListedCanBeEvaluated(signals, outcomes, current);
    SupersedeFinishes(begun, listed, current, candle, at);
    var outcomes' := Supersede(begun, listed, current, candle, at).value;
    forall s | s in signals && s !in listed ensures outcomes'[s.signalId] == outcomes[s.signalId] {
      UnlistedIsUntouched(signals, begun, outcomes', listed, current, s);
    }
  }

  lemma NewestIsNew(signals: seq<Signal>, current: Signal)
    requires DistinctIds(signals + [current])
    ensures DistinctIds(signals) && forall s | s in signals :: s.signalId != current.signalId
  {
    var all := signals + [current];
    assert forall i | 0 <= i < |signals| :: all[i] == signals[i];
    assert all[|signals|] == current;
  }

  lemma OpenedIsRecorded(signals: seq<Signal>, outcomes: Outcomes, current: Signal)
    requires Accepted(current) && Recorded(signals, outcomes) && current.signalId !in Ids(signals)
    ensures Recorded(signals + [current], Opened(outcomes, current))
    ensures Opened(outcomes, current)[current.signalId] == Initial(current)
    ensures forall s | s in signals :: Opened(outcomes, current)[s.signalId] == outcomes[s.signalId]
  {
    var all := signals + [current];
    assert current in all && forall s | s in signals :: s in all;
    if Live(Initial(current)) { EligibleSignalsAreTradable(current); }
  }

  lemma FinishedIsRecorded(all: seq<Signal>, begun: Outcomes, outcomes': Outcomes, listed: seq<Signal>, current: Signal)
    requires Recorded(all, begun) && Finishes(begun, outcomes', listed, current)
    requires forall s | s in listed :: s in all
    ensures Recorded(all, outcomes')
  {
    forall s | s in all && Live(outcomes'[s.signalId]) ensures Tradable(s) {
      assert Live(begun[s.signalId]);
    }
  }

  /** One cycle, exactly: the new signal starts at `initial`; an earlier signal is live afterwards if and only if it
    * was live and the cycle does not reach it; what was finished stays as it is; no assertion fails. */
  lemma {:induction false} CycleEffect(signals: seq<Signal>, outcomes: Outcomes, current: Signal,
                                       candle: Option<Candle>, at: Time)
    requires Accepted(current) && Chronological(signals + [current]) && DistinctIds(signals + [current])
    requires Recorded(signals, outcomes)
    ensures Update(signals + [current], outcomes, current, candle, at).Ok?
    ensures var outcomes' := Update(signals + [current], outcomes, current, candle, at).value;
      && Recorded(signals + [current], outcomes')
      && outcomes'[current.signalId] == Initial(current)
      && (forall s | s in signals ::
            Live(outcomes'[s.signalId]) <==> Live(outcomes[s.signalId]) && !Reaches(signals, current, candle, s))
      && (forall s | s in signals && !Live(outcomes[s.signalId]) :: outcomes'[s.signalId] == outcomes[s.signalId])
  {
    NewestIsNew(signals, current);
    OpenedIsRecorded(signals, outcomes, current);
    if candle.Some? {
      var all, listed := signals + [current], ListedNow(signals, current);
      ListedAreFinished(signals, outcomes, current, candle.value, at);
      forall s | s in listed ensures s in all { ListedMembers(signals, current, s); }
      var outcomes' := Update(all, outcomes, current, candle, at).value;
      FinishedIsRecorded(all, Opened(outcomes, current), outcomes', listed, current);
      forall s | s in signals ensures Reached(outcomes, outcomes', s, s in listed) {
        FinishedSignal(Opened(outcomes, current), outcomes', listed, current, s);
      }
    }
  }

  /** The effect of a pass over the list on one earlier signal. */
  ghost predicate Reached(outcomes: Outcomes, outcomes': Outcomes, s: Signal, isListed: bool) {
    && s.signalId in outcomes && s.signalId in outcomes'
    && (Live(outcomes'[s.signalId]) <==> Live(outcomes[s.signalId]) && !isListed)
    && (!Live(outcomes[s.signalId]) ==> outcomes'[s.signalId] == outcomes[s.signalId])
  }

  lemma FinishedSignal(begun: Outcomes, outcomes': Outcomes, listed: seq<Signal>, current: Signal, s: Signal)
    requires Finishes(begun, outcomes', listed, current) && s.signalId in begun && s.signalId != current.signalId
    requires s !in listed ==> outcomes'[s.signalId] == begun[s.signalId]
    ensures Reached(begun, outcomes', s, s in listed)
  {}

  /** An earlier signal is finished already, or it is the one just before the current, and that one is listed. */
  lemma EarlierIsListedOrFinished(signals: seq<Signal>, outcomes: Outcomes, current: Signal, s: Signal)
    requires Chronological(signals + [current]) && OnlyNewestActive(signals, outcomes)
    requires s in signals && s.instrument == current.instrument
    ensures s in ListedNow(signals, current) || !Live(outcomes[s.signalId])
  {
    ChronologicalSplits(signals, current);
    NewestTwoAreListed(signals, current);
    var earlier := Earlier(signals, current);
    SelectedMembers(signals, current.instrument, current.generatedAt, s);
    var last := earlier[|earlier| - 1];
    assert last in earlier;
    SelectedMembers(signals, current.instrument, current.generatedAt, last);
    if s != last {
      SelectedIncreases(signals, current.instrument, current.generatedAt);
      assert s.generatedAt < last.generatedAt;
      OlderIsFinished(signals, outcomes, s, last);
    }
  }

  lemma OlderIsFinished(signals: seq<Signal>, outcomes: Outcomes, s: Signal, later: Signal)
    requires Chronological(signals) && OnlyNewestActive(signals, outcomes)
    requires s in signals && later in signals && s.instrument == later.instrument
    requires s.generatedAt < later.generatedAt
    ensures !Live(outcomes[s.signalId])
  {}

  /** No earlier signal of the instrument is live. */
  ghost predicate NothingToFinish(signals: seq<Signal>, outcomes: Outcomes, current: Signal) {
    forall s | s in signals && s.instrument == current.instrument && s.signalId in outcomes ::
      !Live(outcomes[s.signalId])
  }

  /** Which earlier signals a cycle leaves live. */
  ghost predicate LeavesLive(signals: seq<Signal>, outcomes: Outcomes, outcomes': Outcomes, current: Signal,
                             candle: Option<Candle>)
  {
    forall s | s in signals ::
      && s.signalId in outcomes && s.signalId in outcomes'
      && (Live(outcomes'[s.signalId]) <==> Live(outcomes[s.signalId]) && !Reaches(signals, current, candle, s))
  }

  lemma {:induction false} EarlierIsFinished(signals: seq<Signal>, outcomes: Outcomes, outcomes': Outcomes,
                                             current: Signal, candle: Option<Candle>, i: nat, j: nat)
    requires Chronological(signals + [current]) && OnlyNewestActive(signals, outcomes)
    requires LeavesLive(signals, outcomes, outcomes', current, candle)
    requires candle.Some? || NothingToFinish(signals, outcomes, current)
    requires i < j <= |signals|
    requires signals[i].instrument == (if j < |signals| then signals[j] else current).instrument
    ensures !Live(outcomes'[signals[i].signalId])
  {
    assert signals[i] in signals;
    if j < |signals| {
      assert !Live(outcomes[signals[i].signalId]);
    } else {
      EarlierIsListedOrFinished(signals, outcomes, current, signals[i]);
    }
  }

  lemma {:induction false} OneActiveAfter(signals: seq<Signal>, outcomes: Outcomes, outcomes': Outcomes,
                                          current: Signal, candle: Option<Candle>)
    requires Chronological(signals + [current]) && OnlyNewestActive(signals, outcomes)
    requires LeavesLive(signals, outcomes, outcomes', current, candle) && current.signalId in outcomes'
    requires candle.Some? || NothingToFinish(signals, outcomes, current)
    ensures OnlyNewestActive(signals + [current], outcomes')
  {
    var all := signals + [current];
    forall s | s in all ensures s.signalId in outcomes' { assert s in signals || s == current; }
    forall i, j | 0 <= i < j < |all| && all[i].instrument == all[j].instrument
      ensures !Live(outcomes'[all[i].signalId])
    {
      EarlierIsFinished(signals, outcomes, outcomes', current, candle, i, j);
    }
  }

  lemma {:induction false} TwoActiveAfter(signals: seq<Signal>, outcomes: Outcomes, outcomes': Outcomes,
                                          current: Signal, candle: Option<Candle>)
    requires LeavesLive(signals, outcomes, outcomes', current, candle) && candle.None?
    requires !NothingToFinish(signals, outcomes, current)
    ensures !OnlyNewestActive(signals + [current], outcomes')
  {
    var all := signals + [current];
    var s :| s in signals && s.instrument == current.instrument && Live(outcomes[s.signalId]);
    var i :| 0 <= i < |signals| && signals[i] == s;
    assert all[i] == s && all[|signals|] == current;
  }

  /** A cycle keeps the rule of one active signal per instrument exactly when it has a numeric candle or there was
    * nothing to finish. */
  lemma {:induction false} CycleKeepsOneActive(signals: seq<Signal>, outcomes: Outcomes, current: Signal,
                                               candle: Option<Candle>, at: Time)
    requires Accepted(current) && Chronological(signals + [current]) && DistinctIds(signals + [current])
    requires Recorded(signals, outcomes) && OnlyNewestActive(signals, outcomes)
    ensures Update(signals + [current], outcomes, current, candle, at).Ok?
    ensures OnlyNewestActive(signals + [current], Update(signals + [current], outcomes, current, candle, at).value)
       <==> candle.Some? || NothingToFinish(signals, outcomes, current)
  {
    CycleEffect(signals, outcomes, current, candle, at);
    var outcomes' := Update(signals + [current], outcomes, current, candle, at).value;
    assert forall s | s in signals :: s in signals + [current];
    if candle.Some? || NothingToFinish(signals, outcomes, current) {
      OneActiveAfter(signals, outcomes, outcomes', current, candle);
    } else {
      TwoActiveAfter(signals, outcomes, outcomes', current, candle);
    }
  }

  // ---- runs of cycles, with and without candles ----

  datatype Cycle = Cycle(signal: Signal, candle: Option<Candle>, at: Time)

  function Signals(cycles: seq<Cycle>): seq<Signal> {
    seq(|cycles|, i requires 0 <= i < |cycles| => cycles[i].signal)
  }

  function Replay(cycles: seq<Cycle>): Result<Outcomes, Failure>
  {
    if cycles == [] then Ok(map[])
    else
      var last := cycles[|cycles| - 1];
      match Replay(cycles[..|cycles| - 1])
      case Err(e) => Err(e)
      case Ok(outcomes) => Update(Signals(cycles), outcomes, last.signal, last.candle, last.at)
  }

  /** Cycles in the order of their signals, `generated_at` increasing per instrument, signal ids distinct. */
  ghost predicate WellFormed(cycles: seq<Cycle>) {
    && (forall i | 0 <= i < |cycles| :: Accepted(cycles[i].signal))
    && Chronological(Signals(cycles)) && DistinctIds(Signals(cycles))
  }

  lemma {:induction false} LastCycle(cycles: seq<Cycle>)
    requires cycles != [] && WellFormed(cycles)
    ensures var n := |cycles| - 1;
      && WellFormed(cycles[..n]) && Signals(cycles) == Signals(cycles[..n]) + [cycles[n].signal]
  {
    var n := |cycles| - 1;
    var signals := Signals(cycles[..n]);
    assert Signals(cycles) == signals + [cycles[n].signal];
    ChronologicalSplits(signals, cycles[n].signal);
    NewestIsNew(signals, cycles[n].signal);
  }

  /** No assertion fails over any run. */
  lemma {:induction false} ReplayIsRecorded(cycles: seq<Cycle>)
    requires WellFormed(cycles)
    ensures Replay(cycles).Ok? && Recorded(Signals(cycles), Replay(cycles).value)
    decreases |cycles|
  {
    if cycles != [] {
      var n := |cycles| - 1;
      LastCycle(cycles);
      ReplayIsRecorded(cycles[..n]);
      CycleEffect(Signals(cycles[..n]), Replay(cycles[..n]).value, cycles[n].signal, cycles[n].candle, cycles[n].at);
    }
  }

  /** Cycle j evaluates the signal of cycle i. */
  ghost predicate Finishing(cycles: seq<Cycle>, i: nat, j: nat)
    requires i < |cycles| && j < |cycles|
  {
    i < j && Reaches(Signals(cycles[..j]), cycles[j].signal, cycles[j].candle, cycles[i].signal)
  }

  ghost predicate NeverReached(cycles: seq<Cycle>, i: nat)
    requires i < |cycles|
  {
    forall j: nat | i < j < |cycles| :: !Finishing(cycles, i, j)
  }

  lemma {:induction false} FinishingInPrefix(cycles: seq<Cycle>, i: nat, j: nat, n: nat)
    requires i < j < n <= |cycles|
    ensures Finishing(cycles, i, j) <==> Finishing(cycles[..n], i, j)
  {
    assert cycles[..n][..j] == cycles[..j];
  }

  lemma {:induction false} NeverReachedSplits(cycles: seq<Cycle>, i: nat)
    requires i + 1 < |cycles|
    ensures var n := |cycles| - 1;
      NeverReached(cycles, i) <==> NeverReached(cycles[..n], i) && !Finishing(cycles, i, n)
  {
    var n := |cycles| - 1;
    forall j: nat | i < j < n ensures Finishing(cycles, i, j) <==> Finishing(cycles[..n], i, j) {
      FinishingInPrefix(cycles, i, j, n);
    }
  }

  lemma {:induction false} LiveAfterLast(cycles: seq<Cycle>, i: nat)
    requires WellFormed(cycles) && i < |cycles|
    ensures var n, id := |cycles| - 1, cycles[i].signal.signalId;
      && Replay(cycles).Ok? && id in Replay(cycles).value
      && (i == n ==> Replay(cycles).value[id] == Initial(cycles[i].signal))
      && (i < n ==>
        && WellFormed(cycles[..n]) && Replay(cycles[..n]).Ok? && id in Replay(cycles[..n]).value
        && (Live(Replay(cycles).value[id]) <==> Live(Replay(cycles[..n]).value[id]) && !Finishing(cycles, i, n)))
  {
    var n := |cycles| - 1;
    LastCycle(cycles);
    ReplayIsRecorded(cycles[..n]);
    var signals := Signals(cycles[..n]);
    CycleEffect(signals, Replay(cycles[..n]).value, cycles[n].signal, cycles[n].candle, cycles[n].at);
    if i < n { assert signals[i] == cycles[i].signal && signals[i] in signals; }
  }

  /** After any run a signal is live if and only if it started live and no later cycle reached it. */
  lemma {:induction false} LiveExactlyWhenNeverReached(cycles: seq<Cycle>, i: nat)
    requires WellFormed(cycles) && i < |cycles|
    ensures Replay(cycles).Ok? && cycles[i].signal.signalId in Replay(cycles).value
    ensures Live(Replay(cycles).value[cycles[i].signal.signalId])
       <==> Live(Initial(cycles[i].signal)) && NeverReached(cycles, i)
    decreases |cycles|
  {
    LiveAfterLast(cycles, i);
    if i + 1 < |cycles| {
      LiveExactlyWhenNeverReached(cycles[..|cycles| - 1], i);
      NeverReachedSplits(cycles, i);
    }
  }

  ghost predicate HasSuccessor(cycles: seq<Cycle>, i: nat)
    requires i < |cycles|
  {
    exists j | i < j < |cycles| :: cycles[j].signal.instrument == cycles[i].signal.instrument
  }

  /** The exact condition, on the cycles alone, for at most one active signal per instrument after a run: every signal
    * that has a successor and started live was reached by some later cycle. */
  lemma {:induction false} OneActiveExactly(cycles: seq<Cycle>)
    requires WellFormed(cycles)
    ensures Replay(cycles).Ok?
    ensures OnlyNewestActive(Signals(cycles), Replay(cycles).value)
       <==> forall i: nat | i < |cycles| && HasSuccessor(cycles, i) && Live(Initial(cycles[i].signal)) ::
              !NeverReached(cycles, i)
  {
    ReplayIsRecorded(cycles);
    var signals, outcomes := Signals(cycles), Replay(cycles).value;
    forall i: nat | i < |cycles|
      ensures signals[i].signalId in outcomes
      ensures Live(outcomes[signals[i].signalId]) <==> Live(Initial(cycles[i].signal)) && NeverReached(cycles, i)
    {
      LiveExactlyWhenNeverReached(cycles, i);
    }
    if OnlyNewestActive(signals, outcomes) {
      forall i: nat | i < |cycles| && HasSuccessor(cycles, i) ensures !Live(outcomes[signals[i].signalId]) {
        var j :| i < j < |cycles| && cycles[j].signal.instrument == cycles[i].signal.instrument;
        assert signals[j].instrument == signals[i].instrument;
      }
    } else if forall i: nat | i < |cycles| && HasSuccessor(cycles, i) && Live(Initial(cycles[i].signal)) ::
                !NeverReached(cycles, i) {
      forall i, j | 0 <= i < j < |signals| && signals[i].instrument == signals[j].instrument
        ensures !Live(outcomes[signals[i].signalId])
      {
        assert cycles[j].signal.instrument == cycles[i].signal.instrument;
        assert HasSuccessor(cycles, i);
      }
    }
  }

  /** With a numeric candle in every cycle, only the newest signal of an instrument may be active after any run. */
  lemma {:induction false} AtMostOneActive(cycles: seq<Cycle>)
    requires WellFormed(cycles) && forall i | 0 <= i < |cycles| :: cycles[i].candle.Some?
    ensures Replay(cycles).Ok? && OnlyNewestActive(Signals(cycles), Replay(cycles).value)
    decreases |cycles|
  {
    if cycles != [] {
      var n := |cycles| - 1;
      LastCycle(cycles);
      AtMostOneActive(cycles[..n]);
      ReplayIsRecorded(cycles[..n]);
      CycleKeepsOneActive(Signals(cycles[..n]), Replay(cycles[..n]).value, cycles[n].signal, cycles[n].candle,
                          cycles[n].at);
    }
  }

  // ---- the listing limit ----

  lemma {:induction false} ReversedAt(signals: seq<Signal>, k: nat)
    requires k < |signals|
    ensures |Reversed(signals)| == |signals| && Reversed(signals)[k] == signals[|signals| - 1 - k]
    decreases |signals|
  {
    var n := |signals| - 1;
    if k > 0 {
      ReversedAt(signals[..n], k - 1);
    } else if n > 0 {
      ReversedAt(signals[..n], 0);
    }
  }

  lemma {:induction false} AllSelected(signals: seq<Signal>, instrument: string, end: Time)
    requires forall i | 0 <= i < |signals| :: signals[i].instrument == instrument && signals[i].generatedAt <= end
    ensures Selected(signals, instrument, end) == signals
    decreases |signals|
  {
    if signals != [] {
      var n := |signals| - 1;
      AllSelected(signals[..n], instrument, end);
      assert signals == signals[..n] + [signals[n]];
    }
  }

  function Newest(signals: seq<Signal>, limit: nat): seq<Signal> {
    if |signals| <= limit then Reversed(signals)
    else assert |Reversed(signals)| == |signals| by { ReversedAt(signals, 0); } Reversed(signals)[..limit]
  }

  lemma {:induction false} AmongNewest(signals: seq<Signal>, i: nat, limit: nat)
    requires Increasing(signals) && i < |signals|
    ensures signals[i] in Newest(signals, limit) <==> |signals| - i <= limit
  {
    var n, newest := |signals|, Newest(signals, limit);
    forall k: nat | k < n ensures |Reversed(signals)| == n && Reversed(signals)[k] == signals[n - 1 - k] {
      ReversedAt(signals, k);
    }
    ReversedAt(signals, 0);
    if n - i <= limit {
      assert newest[n - 1 - i] == signals[i];
    } else {
      forall k | 0 <= k < |newest| ensures newest[k].generatedAt > signals[i].generatedAt {
        assert newest[k] == signals[n - 1 - k];
      }
    }
  }

  lemma {:induction false} ListedAreTheNewest(signals: seq<Signal>, current: Signal)
    requires Chronological(signals + [current])
    requires forall s | s in signals :: s.instrument == current.instrument
    ensures Increasing(signals + [current])
    ensures ListedNow(signals, current) == Newest(signals + [current], LISTING_LIMIT)
  {
    var all := signals + [current];
    forall k | 0 <= k < |all|
      ensures all[k].instrument == current.instrument && all[k].generatedAt <= current.generatedAt
    {
      if k < |signals| { assert all[k] == signals[k] && signals[k] in signals && all[|signals|] == current; }
    }
    AllSelected(all, current.instrument, current.generatedAt);
    SelectedIncreases(all, current.instrument, current.generatedAt);
    SortReverses(all);
    ReversedAt(all, 0);
  }

  /** With one instrument, the signal at position i is listed exactly while it is among the newest hundred. */
  lemma {:induction false} ListedExactlyWhenAmongNewest(signals: seq<Signal>, current: Signal, i: nat)
    requires Chronological(signals + [current]) && i < |signals|
    requires forall s | s in signals :: s.instrument == current.instrument
    ensures signals[i] in ListedNow(signals, current) <==> |signals| + 1 - i <= 100
  {
    ListedAreTheNewest(signals, current);
    AmongNewest(signals + [current], i, LISTING_LIMIT);
  }

  /** Of one instrument's run the oldest signal stays active for good if and only if none of the ninety-nine cycles
    * after its own has a numeric candle: later ones no longer list it. */
  lemma {:induction false} OldestIsStrandedExactly(cycles: seq<Cycle>)
    requires WellFormed(cycles) && cycles != [] && Live(Initial(cycles[0].signal))
    requires forall i | 0 <= i < |cycles| :: cycles[i].signal.instrument == cycles[0].signal.instrument
    ensures Replay(cycles).Ok? && cycles[0].signal.signalId in Replay(cycles).value
    ensures Live(Replay(cycles).value[cycles[0].signal.signalId])
       <==> forall j | 1 <= j < |cycles| && j < 100 :: cycles[j].candle.None?
  {
    LiveExactlyWhenNeverReached(cycles, 0);
    forall j: nat | 0 < j < |cycles|
      ensures Finishing(cycles, 0, j) <==> cycles[j].candle.Some? && j < LISTING_LIMIT
    {
      OldestIsListed(cycles, j);
    }
  }

  lemma {:induction false} OldestIsListed(cycles: seq<Cycle>, j: nat)
    requires WellFormed(cycles) && 0 < j < |cycles|
    requires forall i | 0 <= i < |cycles| :: cycles[i].signal.instrument == cycles[0].signal.instrument
    ensures Finishing(cycles, 0, j) <==> cycles[j].candle.Some? && j < LISTING_LIMIT
  {
    var signals, current := Signals(cycles[..j]), cycles[j].signal;
    assert forall k | 0 <= k < |signals + [current]| :: (signals + [current])[k] == Signals(cycles)[k];
    ListedExactlyWhenAmongNewest(signals, current, 0);
    assert signals[0] == cycles[0].signal;
  }

  /** The smallest such run: one cycle without a numeric candle leaves two signals active. */
  lemma MissingCandleLeavesTwoActive()
    ensures var s := Signal(1, "XAUUSD", Buy, Some(2.0), Some(1.0), Some(4.0), Some(2.0), true, true, [], None, None, 0);
      var t := s.(signalId := 2, generatedAt := 5);
      var first := Update([s], map[], s, None, 0);
      && Accepted(s) && Accepted(t) && first.Ok?
      && var second := Update([s, t], first.value, t, None, 5);
         second.Ok? && Live(second.value[1]) && Live(second.value[2])
  {}
}

/** The decision part of the PostgreSQL claim: one conditional UPDATE, then an outcome expression on the
  * refreshed row. A comparison with NULL is not true, which is where the two implementations could differ. */
module ClaimSql {
  import opened Domain
  import opened ClaimTable

  /** `column <= at` in a WHERE clause. */
  predicate AtMost(column: Option<Time>, at: Time) {
    column.Some? && column.value <= at
  }

  /** The WHERE clause of the take-over UPDATE. */
  predicate UpdateTakes(row: Row, at: Time) {
    || row.status in {Released, Expired}
    || (row.status == WaitingProvider && AtMost(row.nextRetryAt, at))
    || (row.status == ActiveClaim && AtMost(Some(row.leaseExpiresAt), at))
  }

  /** The outcome expression evaluated when the UPDATE changed nothing. */
  function RefusedOutcome(row: Row, at: Time): Outcome {
    if row.status in {Committed, Recovered} && row.analysisId.Some? then DuplicateCommittedAnalysis
    else if row.status == ActiveClaim && row.leaseExpiresAt <= at then StaleClaim
    else if row.status == WaitingProvider && row.nextRetryAt.Some? && row.nextRetryAt.value > at then ProviderCooldown
    else if row.status == FailedSchema then TerminalSchemaFailure
    else if row.status == Failed then TerminalProviderFailure
    else ActiveClaimHeld
  }

  function SqlDecide(row: Row, at: Time): Decision {
    if UpdateTakes(row, at) then TakeOver else Refuse(RefusedOutcome(row, at))
  }

  /** The SET clause of the take-over; unlike the in-memory update it also clears `completed_at`,
    * and it has no `previous_claim_id` column. */
  function SqlTakenOver(row: Row, request: ClaimRequest, claimId: ClaimId): Row {
    row.(claimId := claimId,
         snapshotId := request.snapshotId,
         claimedBy := Some(request.claimedBy),
         claimedAt := request.at,
         heartbeatAt := request.at,
         leaseExpiresAt := request.at + request.lease,
         status := ActiveClaim,
         failureReason := None,
         nextRetryAt := None,
         releasedAt := None,
         completedAt := None,
         expiredClaimCount := row.expiredClaimCount + 1)
  }

  /** What the service writes with each status: a finished row names its analysis, a waiting one its retry time. */
  predicate Producible(row: Row) {
    && (row.status in {Committed, Recovered} ==> row.analysisId.Some?)
    && (row.status == WaitingProvider ==> row.nextRetryAt.Some?)
  }

  /** Both implementations take the same decision at every instant exactly on the producible rows. */
  lemma ImplementationsAgree(row: Row)
    ensures (forall at :: SqlDecide(row, at) == Decide(row, at)) <==> Producible(row)
  {
    if !Producible(row) {
      assert SqlDecide(row, row.leaseExpiresAt) != Decide(row, row.leaseExpiresAt);
    }
  }

  /** STALE_CLAIM is never an answer on the row the UPDATE saw: it needs a change before the refresh. When the row
    * does change in between, the answer names what the in-memory call would say of the refreshed row, or, if that
    * one could be taken over by now, reports it as held or stale. */
  lemma StaleClaimNeedsARace(row: Row, refreshed: Row, at: Time)
    requires !UpdateTakes(row, at)
    ensures RefusedOutcome(row, at) != StaleClaim
    ensures RefusedOutcome(refreshed, at) == StaleClaim ==> refreshed != row
    ensures Producible(refreshed) ==>
      match Decide(refreshed, at)
      case Refuse(outcome) => RefusedOutcome(refreshed, at) == outcome
      case TakeOver => RefusedOutcome(refreshed, at) in {StaleClaim, ActiveClaimHeld}
  {}

  /** The three unique constraints of the table: the primary key and two indexes that ignore NULLs. */
  predicate Conflicts(row: Row, request: ClaimRequest) {
    || row.key == request.key
    || (row.instrument == request.instrument && request.window.Some? && request.contract.Some?
        && SameWindow(row, request.timeframe, request.window, request.contract))
    || (row.instrument == request.instrument && request.contract.Some?
        && SameState(row, request.stateHash, request.contract))
  }

  /** INSERT .. ON CONFLICT DO NOTHING, then the UPDATE of one conflicting row; the SELECT that finds that row
    * has no order, so `pick` stands for the database's choice. */
  function SqlClaim(t: Table, request: ClaimRequest, pick: nat): (Table, ClaimResult)
    requires (exists i | 0 <= i < |t.rows| :: Conflicts(t.rows[i], request)) ==>
               pick < |t.rows| && Conflicts(t.rows[pick], request)
  {
    if exists i | 0 <= i < |t.rows| :: Conflicts(t.rows[i], request) then
      match SqlDecide(t.rows[pick], request.at)
      case Refuse(outcome) => (t, ClaimResult(false, outcome, t.rows[pick]))
      case TakeOver =>
        var row := SqlTakenOver(t.rows[pick], request, t.nextClaimId);
        (Table(t.rows[pick := row], t.nextClaimId + 1), ClaimResult(true, ClaimTakeover, row))
    else
      var row := NewRow(request, t.nextClaimId);
      (Table(t.rows + [row], t.nextClaimId + 1), ClaimResult(true, ClaimAcquired, row))
  }

  /** The service fills in every identity column. */
  predicate FullIdentity(request: ClaimRequest) {
    request.timeframe.Some? && request.window.Some? && request.stateHash.Some? && request.contract.Some?
  }

  /** Rows equal but for the two columns on which the take-overs differ. */
  predicate SameStoredRow(a: Row, b: Row) {
    a.(completedAt := b.completedAt, previousClaimId := b.previousClaimId) == b
  }

  /** The row that the database may choose, when there is one to choose. */
  ghost predicate MayPick(t: Table, request: ClaimRequest, pick: nat) {
    (exists i | 0 <= i < |t.rows| :: Conflicts(t.rows[i], request)) ==>
      pick < |t.rows| && Conflicts(t.rows[pick], request)
  }

  /** Same acquisition, same outcome name, and the same table but for the two columns. */
  ghost predicate Agree(t: Table, request: ClaimRequest, pick: nat)
    requires MayPick(t, request, pick)
  {
    var (memory, mine) := Claim(t, request);
    var (stored, theirs) := SqlClaim(t, request, pick);
    && mine.acquired == theirs.acquired && mine.outcome == theirs.outcome
    && SameStoredRow(theirs.row, mine.row)
    && stored.nextClaimId == memory.nextClaimId
    && |stored.rows| == |memory.rows|
    && forall i | 0 <= i < |stored.rows| :: SameStoredRow(stored.rows[i], memory.rows[i])
  }

  ghost predicate AtMostOneConflict(t: Table, request: ClaimRequest) {
    forall i, j | 0 <= i < j < |t.rows| :: !(Conflicts(t.rows[i], request) && Conflicts(t.rows[j], request))
  }

  lemma ConflictsAreMatches(t: Table, request: ClaimRequest)
    requires KeyFits(t, request) && FullIdentity(request)
    ensures forall i | 0 <= i < |t.rows| :: Conflicts(t.rows[i], request) <==> Matches(t.rows[i], request)
  {}

  lemma OneConflictAgrees(t: Table, request: ClaimRequest, pick: nat)
    requires Valid(t) && KeyFits(t, request) && FullIdentity(request) && MayPick(t, request, pick)
    requires forall i | 0 <= i < |t.rows| :: Producible(t.rows[i])
    requires AtMostOneConflict(t, request)
    ensures Agree(t, request, pick)
  {
    ConflictsAreMatches(t, request);
    var i := FirstMatch(t.rows, request);
    if i < |t.rows| {
      assert Conflicts(t.rows[i], request);
      assert i == pick;
      ImplementationsAgree(t.rows[i]);
      assert SqlDecide(t.rows[i], request.at) == Decide(t.rows[i], request.at);
    } else {
      var k := IndexOf(t.rows, request.key);
      if k < |t.rows| { assert Matches(t.rows[k], request); }
    }
  }

  /** The in-memory call looks at the first match; a pick of any other row answers with another key. */
  lemma OtherPickDisagrees(t: Table, request: ClaimRequest, pick: nat)
    requires Valid(t) && KeyFits(t, request) && FullIdentity(request)
    requires pick < |t.rows| && Conflicts(t.rows[pick], request) && FirstMatch(t.rows, request) < pick
    ensures MayPick(t, request, pick) && !Agree(t, request, pick)
  {
    var i := FirstMatch(t.rows, request);
    assert t.rows[i].key != t.rows[pick].key;
    assert Claim(t, request).1.row.key == t.rows[i].key;
    assert SqlClaim(t, request, pick).1.row.key == t.rows[pick].key;
  }

  /** The whole calls agree, whichever row the database chooses, exactly when it never has two to choose from. */
  lemma ClaimsAgree(t: Table, request: ClaimRequest)
    requires Valid(t) && KeyFits(t, request) && FullIdentity(request)
    requires forall i | 0 <= i < |t.rows| :: Producible(t.rows[i])
    ensures (forall pick: nat | MayPick(t, request, pick) :: Agree(t, request, pick)) <==> AtMostOneConflict(t, request)
  {
    if AtMostOneConflict(t, request) {
      forall pick: nat | MayPick(t, request, pick) ensures Agree(t, request, pick) {
        OneConflictAgrees(t, request, pick);
      }
    } else {
      var i, j :| 0 <= i < j < |t.rows| && Conflicts(t.rows[i], request) && Conflicts(t.rows[j], request);
      ConflictsAreMatches(t, request);
      assert FirstMatch(t.rows, request) <= i;
      OtherPickDisagrees(t, request, j);
    }
  }

  // Two analyses of one window, started by different timeframes: one on the state of the request, one on an earlier
  // state with another knowledge cutoff.

  const EARLIER := StateHash("XAUUSD", 300, 1)
  const LATER := StateHash("XAUUSD", 300, 2)
  const BY_M15 := ServiceRequest(EARLIER, "M5_M15:M15", "2.0", None, "w1", 310, 90)
  const BY_M5 := ServiceRequest(LATER, "M5_M15:M5", "2.0", None, "w2", 320, 90)
  const AGAIN_M15 := ServiceRequest(LATER, "M5_M15:M15", "2.0", None, "w3", 330, 90)
  const COMMIT := Closing(Committed, Some(Some(7)), Some(AnalysisOf(7)), None, None, 325)
  const RELEASE := Closing(Released, None, None, Some("worker_shutdown"), None, 326)
  const FIRST_ROW := Closed(NewRow(BY_M15, 0), COMMIT)
  const SECOND_ROW := Closed(NewRow(BY_M5, 1), RELEASE)

  lemma TwoRowsFromTheService()
    ensures var t2 := Claim(Claim(Table([], 0), BY_M15).0, BY_M5).0;
      Close(Close(t2, BY_M15.key, 0, COMMIT).0, BY_M5.key, 1, RELEASE).0 == Table([FIRST_ROW, SECOND_ROW], 2)
  {
    var t1 := Claim(Table([], 0), BY_M15).0;
    assert t1.rows == [NewRow(BY_M15, 0)];
    assert !Matches(t1.rows[0], BY_M5);
    var t2 := Claim(t1, BY_M5).0;
    assert t2.rows == [NewRow(BY_M15, 0), NewRow(BY_M5, 1)];
    var t3 := Close(t2, BY_M15.key, 0, COMMIT).0;
    assert t3.rows == [FIRST_ROW, NewRow(BY_M5, 1)];
    assert t3.rows[1].key == BY_M5.key && t3.rows[0].key != BY_M5.key;
  }

  lemma TwoRowsAreValid()
    ensures Valid(Table([FIRST_ROW, SECOND_ROW], 2)) && FilledByService(Table([FIRST_ROW, SECOND_ROW], 2))
  {}

  /** A table of the service on which they disagree: the request shares its window and timeframe with a committed row
    * and its state with a released one. In memory the first row answers; the database may take over the second. */
  lemma TwoMatchesMayDisagree()
    ensures var t2 := Claim(Claim(Table([], 0), BY_M15).0, BY_M5).0;
      var t := Close(Close(t2, BY_M15.key, 0, COMMIT).0, BY_M5.key, 1, RELEASE).0;
      && Valid(t) && FilledByService(t) && FromService(AGAIN_M15) && MayPick(t, AGAIN_M15, 1)
      && Claim(t, AGAIN_M15).1.outcome == DuplicateCommittedAnalysis
      && SqlClaim(t, AGAIN_M15, 1).1.outcome == ClaimTakeover
  {
    TwoRowsFromTheService();
    TwoRowsAreValid();
    var t := Table([FIRST_ROW, SECOND_ROW], 2);
    assert Conflicts(t.rows[1], AGAIN_M15) && Matches(t.rows[0], AGAIN_M15);
  }
}

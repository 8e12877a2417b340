/** What each call on the claim table leaves in a row, and what later claims of that row are answered because of it. */
module ClaimAnswers {
  import opened Domain
  import opened ClaimTable
  import opened LeaseProtocol

  /** The request finds its row, and the row is the one under the key. */
  predicate ResolvesTo(t: Table, request: ClaimRequest, key: Key) {
    var i := FirstMatch(t.rows, request);
    i < |t.rows| && t.rows[i].key == key
  }

  lemma ResolvedRow(t: Table, request: ClaimRequest, key: Key)
    requires Valid(t) && ResolvesTo(t, request, key)
    ensures Lookup(t.rows, key) == Some(t.rows[FirstMatch(t.rows, request)])
  {
    IndexUnique(t.rows, FirstMatch(t.rows, request));
  }

  // ---- what the calls write ----

  /** The columns that no heartbeat and no closing touches. */
  predicate SameOrigin(a: Row, b: Row) {
    && SameIdentity(a, b) && a.claimId == b.claimId && a.claimedAt == b.claimedAt && a.snapshotId == b.snapshotId
    && a.expiredClaimCount == b.expiredClaimCount && a.previousClaimId == b.previousClaimId
  }

  /** A successful closing: the row has exactly the closing's values, no holder, and keeps its request id when the
    * closing brings none; every other row is as it was. */
  lemma ClosingIsRecorded(t: Table, key: Key, claimId: ClaimId, closing: Closing)
    requires Valid(t)
    ensures var (t', closed) := Close(t, key, claimId, closing);
      if closed then
        && Lookup(t.rows, key).Some? && Lookup(t'.rows, key).Some?
        && var row, row' := Lookup(t.rows, key).value, Lookup(t'.rows, key).value;
           && row.claimId == claimId && SameOrigin(row, row') && row'.heartbeatAt == row.heartbeatAt
           && row'.status == closing.status && row'.analysisId == closing.analysisId
           && row'.failureReason == closing.failureReason && row'.nextRetryAt == closing.nextRetryAt
           && row'.requestId == (match closing.requestId case None => row.requestId case Some(given) => given)
           && row'.claimedBy.None? && row'.leaseExpiresAt == closing.at
           && row'.releasedAt == row'.completedAt == Some(closing.at)
           && forall other | other != key :: Lookup(t'.rows, other) == Lookup(t.rows, other)
      else t' == t && (Lookup(t.rows, key).Some? ==> Lookup(t.rows, key).value.claimId != claimId)
  {
    CloseByKey(t, key, claimId, closing);
  }

  /** A heartbeat moves the two instants of the row and nothing else; only the live holder's is heard. */
  lemma HeartbeatIsRecorded(t: Table, key: Key, claimId: ClaimId, worker: WorkerId, at: Time, lease: nat)
    requires Valid(t)
    ensures var (t', renewed) := Heartbeat(t, key, claimId, worker, at, lease); var held := Lookup(t.rows, key);
      && (renewed <==> held.Some? && held.value.claimId == claimId && held.value.claimedBy == Some(worker)
                       && held.value.status == ActiveClaim)
      && (if renewed then
            && Lookup(t'.rows, key) == Some(held.value.(heartbeatAt := at, leaseExpiresAt := at + lease))
            && forall other | other != key :: Lookup(t'.rows, other) == Lookup(t.rows, other)
          else t' == t)
  {
    HeartbeatByKey(t, key, claimId, worker, at, lease);
  }

  /** The row of a successful claim: held by the requester under a fresh claim id for exactly the lease. */
  predicate HeldBy(row: Row, request: ClaimRequest, claimId: ClaimId) {
    && row.claimId == claimId && row.claimedBy == Some(request.claimedBy) && row.status == ActiveClaim
    && row.claimedAt == row.heartbeatAt == request.at && row.leaseExpiresAt == request.at + request.lease
    && row.snapshotId == request.snapshotId
    && row.failureReason.None? && row.nextRetryAt.None? && row.releasedAt.None?
  }

  /** A first claim brings a row without a past; a take-over counts the old claim and names it, and keeps what the row
    * said about request and analysis. */
  lemma AcquisitionIsRecorded(t: Table, request: ClaimRequest)
    requires Valid(t) && KeyFits(t, request)
    ensures var (t', result) := Claim(t, request); var i := FirstMatch(t.rows, request);
      if result.acquired then
        && HeldBy(result.row, request, t.nextClaimId)
        && (if i < |t.rows| then
              var before := t.rows[i];
              && result.outcome == ClaimTakeover && SameIdentity(before, result.row)
              && result.row.expiredClaimCount == before.expiredClaimCount + 1
              && result.row.previousClaimId == Some(before.claimId)
              && result.row.requestId == before.requestId && result.row.analysisId == before.analysisId
              && result.row.completedAt == before.completedAt
            else
              && result.outcome == ClaimAcquired && result.row.key == request.key
              && result.row.instrument == request.instrument && result.row.timeframe == request.timeframe
              && result.row.window == request.window && result.row.stateHash == request.stateHash
              && result.row.contract == request.contract && result.row.expiredClaimCount == 0
              && result.row.previousClaimId.None? && result.row.requestId.None? && result.row.analysisId.None?
              && result.row.completedAt.None?)
        && Lookup(t'.rows, result.row.key) == Some(result.row)
        && forall other | other != result.row.key :: Lookup(t'.rows, other) == Lookup(t.rows, other)
      else t' == t && i < |t.rows| && result.row == t.rows[i]
  {
    ClaimByKey(t, request);
  }

  // ---- what a claim is answered ----

  /** The answer to a claim that finds a row, outcome by outcome, in terms of the row's columns. */
  lemma AnswersExactly(t: Table, request: ClaimRequest)
    requires FirstMatch(t.rows, request) < |t.rows|
    ensures var row := t.rows[FirstMatch(t.rows, request)]; var result := Claim(t, request).1;
      var answered := row.status in {Committed, Recovered} && row.analysisId.Some?;
      var held := row.status == ActiveClaim && request.at < row.leaseExpiresAt;
      var cooling := row.status == WaitingProvider && row.nextRetryAt.Some? && request.at < row.nextRetryAt.value;
      && (result.outcome == DuplicateCommittedAnalysis <==> answered)
      && (result.outcome == ActiveClaimHeld <==> held)
      && (result.outcome == ProviderCooldown <==> cooling)
      && (result.outcome == TerminalSchemaFailure <==> row.status == FailedSchema)
      && (result.outcome == TerminalProviderFailure <==> row.status == Failed)
      && (result.outcome == ClaimTakeover <==> result.acquired)
      && (result.acquired <==> !answered && !held && !cooling && row.status !in {FailedSchema, Failed})
  {}

  lemma ClosedRowStillResolves(t: Table, key: Key, claimId: ClaimId, closing: Closing, request: ClaimRequest)
    requires Valid(t) && ResolvesTo(t, request, key)
    ensures ResolvesTo(Close(t, key, claimId, closing).0, request, key)
    ensures Valid(Close(t, key, claimId, closing).0)
  {
    CloseKeepsValid(t, key, claimId, closing);
    ResolutionIsStable(t, Close(t, key, claimId, closing).0, request);
  }

  /** A row closed as WAITING_PROVIDER with a retry time r: every later claim of it is refused with PROVIDER_COOLDOWN
    * exactly before r, and takes it over from r on. */
  lemma WaitingRowReopensExactly(t: Table, key: Key, claimId: ClaimId, closing: Closing, r: Time, request: ClaimRequest)
    requires Valid(t) && ResolvesTo(t, request, key) && Close(t, key, claimId, closing).1
    requires closing.status == WaitingProvider && closing.nextRetryAt == Some(r)
    ensures var t' := Close(t, key, claimId, closing).0; var (t'', result) := Claim(t', request);
      if request.at < r then !result.acquired && result.outcome == ProviderCooldown && t'' == t'
      else
        && result.acquired && result.outcome == ClaimTakeover
        && result.row.key == key && result.row.previousClaimId == Some(claimId)
  {
    var t' := Close(t, key, claimId, closing).0;
    ClosedRowStillResolves(t, key, claimId, closing, request);
    ClosingIsRecorded(t, key, claimId, closing);
    ResolvedRow(t', request, key);
    AnswersExactly(t', request);
  }

  /** The other closings the service sends: a committed analysis and the two terminal failures refuse every later claim,
    * a release lets the next one in at once. */
  lemma OtherClosingsAnswer(t: Table, key: Key, claimId: ClaimId, closing: Closing, request: ClaimRequest)
    requires Valid(t) && ResolvesTo(t, request, key) && Close(t, key, claimId, closing).1
    ensures var t' := Close(t, key, claimId, closing).0; var result := Claim(t', request).1;
      && (closing.status in {Committed, Recovered} && closing.analysisId.Some? ==>
            !result.acquired && result.outcome == DuplicateCommittedAnalysis
            && result.row.analysisId == closing.analysisId)
      && (closing.status == FailedSchema ==> !result.acquired && result.outcome == TerminalSchemaFailure)
      && (closing.status == Failed ==> !result.acquired && result.outcome == TerminalProviderFailure)
      && (closing.status in {Released, Expired} ==> result.acquired && result.outcome == ClaimTakeover)
  {
    var t' := Close(t, key, claimId, closing).0;
    ClosedRowStillResolves(t, key, claimId, closing, request);
    ClosingIsRecorded(t, key, claimId, closing);
    ResolvedRow(t', request, key);
    AnswersExactly(t', request);
  }

  /** Two requests for one row: they differ at most in worker, snapshot, instant and lease. */
  predicate SameWork(a: ClaimRequest, b: ClaimRequest) {
    && a.key == b.key && a.instrument == b.instrument && a.timeframe == b.timeframe && a.window == b.window
    && a.stateHash == b.stateHash && a.contract == b.contract
  }

  lemma {:induction false} SameWorkSameMatch(rows: seq<Row>, a: ClaimRequest, b: ClaimRequest)
    requires SameWork(a, b)
    ensures FirstMatch(rows, a) == FirstMatch(rows, b)
  {
    FirstMatchUnique(rows, a, FirstMatch(rows, b));
  }

  /** After a successful claim a rival for the same work is refused with ACTIVE_CLAIM exactly during the lease, and takes
    * the row over from its end on. */
  lemma ClaimIsHeldExactly(t: Table, request: ClaimRequest, rival: ClaimRequest)
    requires Valid(t) && KeyFits(t, request) && Claim(t, request).1.acquired && SameWork(request, rival)
    ensures var (t', first) := Claim(t, request); var (t'', second) := Claim(t', rival);
      if rival.at < request.at + request.lease then
        !second.acquired && second.outcome == ActiveClaimHeld && t'' == t' && second.row == first.row
      else
        && second.acquired && second.outcome == ClaimTakeover && second.row.key == first.row.key
        && second.row.previousClaimId == Some(first.row.claimId) && second.row.claimedBy == Some(rival.claimedBy)
  {
    var t' := Claim(t, request).0;
    AcquiredRowResolves(t, request);
    SameWorkSameMatch(t'.rows, request, rival);
    AcquisitionIsRecorded(t, request);
    AnswersExactly(t', rival);
  }

  /** A heartbeat that was heard moves that end to its own instant plus its lease. */
  lemma HeartbeatHoldsExactly(t: Table, key: Key, claimId: ClaimId, worker: WorkerId, at: Time, lease: nat,
                              rival: ClaimRequest)
    requires Valid(t) && ResolvesTo(t, rival, key) && Heartbeat(t, key, claimId, worker, at, lease).1
    ensures var t' := Heartbeat(t, key, claimId, worker, at, lease).0; var result := Claim(t', rival).1;
      if rival.at < at + lease then !result.acquired && result.outcome == ActiveClaimHeld
      else result.acquired && result.outcome == ClaimTakeover && result.row.previousClaimId == Some(claimId)
  {
    var t' := Heartbeat(t, key, claimId, worker, at, lease).0;
    HeartbeatKeepsValid(t, key, claimId, worker, at, lease);
    ResolutionIsStable(t, t', rival);
    HeartbeatIsRecorded(t, key, claimId, worker, at, lease);
    ResolvedRow(t', rival, key);
    AnswersExactly(t', rival);
  }

  /** Beside one freshly claimed row: a request is held off during its lease exactly when it is for the same instrument
    * and has the same key, or the same window under one contract, or the same market state under one contract. */
  lemma OnlyTheSameWorkIsHeldOff(nextClaimId: ClaimId, first: ClaimRequest, rival: ClaimRequest)
    requires rival.at < first.at + first.lease
    ensures var (t, one) := Claim(Table([], nextClaimId), first); var two := Claim(t, rival).1;
      && one.acquired
      && (two.acquired <==>
            !(&& rival.instrument == first.instrument
              && (|| rival.key == first.key
                  || (rival.timeframe.Some? && rival.timeframe == first.timeframe && rival.window == first.window
                      && rival.contract == first.contract)
                  || (rival.stateHash.Some? && rival.stateHash == first.stateHash
                      && rival.contract == first.contract))))
      && (if two.acquired then two.outcome == ClaimAcquired else two.outcome == ActiveClaimHeld)
  {
    var t := Claim(Table([], nextClaimId), first).0;
    assert t.rows == [NewRow(first, nextClaimId)];
    FirstMatchUnique(t.rows, rival, if Matches(t.rows[0], rival) then 0 else 1);
  }
}

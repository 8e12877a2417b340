/** The reasoning-cycle rows of the in-memory repository and what each call does to them.
  *
  * A Python dictionary keeps insertion order, and `claim_reasoning_cycle` takes the first
  * match in that order, so the dictionary is a sequence of rows with distinct keys. */
module ClaimTable {
  import opened Domain

  datatype Status =
    | ActiveClaim | Committed | Failed | FailedSchema
    | WaitingProvider | Released | Expired | Recovered

  datatype Outcome =
    | ClaimAcquired | ClaimTakeover | DuplicateCommittedAnalysis | ActiveClaimHeld
    | ProviderCooldown | TerminalSchemaFailure | TerminalProviderFailure | StaleClaim

  datatype Row = Row(
    key: Key,
    instrument: string,
    timeframe: Option<string>,
    window: Option<Time>,
    stateHash: Option<StateHash>,
    contract: Option<string>,
    claimId: ClaimId,
    claimedBy: Option<WorkerId>,
    status: Status,
    claimedAt: Time,
    heartbeatAt: Time,
    leaseExpiresAt: Time,
    expiredClaimCount: nat,
    previousClaimId: Option<ClaimId>,
    snapshotId: Option<nat>,
    requestId: Option<RequestId>,
    analysisId: Option<AnalysisId>,
    failureReason: Option<string>,
    nextRetryAt: Option<Time>,
    releasedAt: Option<Time>,
    completedAt: Option<Time>)

  datatype ClaimRequest = ClaimRequest(
    key: Key,
    instrument: string,
    timeframe: Option<string>,
    window: Option<Time>,
    stateHash: Option<StateHash>,
    contract: Option<string>,
    snapshotId: Option<nat>,
    claimedBy: WorkerId,
    at: Time,
    lease: nat)

  /** What a release or a completion writes; a release writes no request id. */
  datatype Closing = Closing(
    status: Status,
    requestId: Option<Option<RequestId>>,
    analysisId: Option<AnalysisId>,
    failureReason: Option<string>,
    nextRetryAt: Option<Time>,
    at: Time)

  datatype ClaimResult = ClaimResult(acquired: bool, outcome: Outcome, row: Row)

  datatype Decision = TakeOver | Refuse(outcome: Outcome)

  datatype Table = Table(rows: seq<Row>, nextClaimId: ClaimId)

  // ---- finding rows ----

  predicate SameWindow(row: Row, timeframe: Option<string>, window: Option<Time>, contract: Option<string>) {
    timeframe.Some? && row.timeframe == timeframe && row.window == window && row.contract == contract
  }

  predicate SameState(row: Row, stateHash: Option<StateHash>, contract: Option<string>) {
    stateHash.Some? && row.stateHash == stateHash && row.contract == contract
  }

  predicate Matches(row: Row, request: ClaimRequest) {
    && row.instrument == request.instrument
    && (|| row.key == request.key
        || SameWindow(row, request.timeframe, request.window, request.contract)
        || SameState(row, request.stateHash, request.contract))
  }

  /** The position of the first matching row, or |rows|. */
  function FirstMatch(rows: seq<Row>, request: ClaimRequest): (i: nat)
    ensures i <= |rows|
    ensures i < |rows| ==> Matches(rows[i], request)
    ensures forall j | 0 <= j < i :: !Matches(rows[j], request)
  {
    if rows == [] || Matches(rows[0], request) then 0 else 1 + FirstMatch(rows[1..], request)
  }

  /** The position of the row stored under a key, or |rows|. */
  function IndexOf(rows: seq<Row>, key: Key): (i: nat)
    ensures i <= |rows|
    ensures i < |rows| ==> rows[i].key == key
    ensures forall j | 0 <= j < i :: rows[j].key != key
  {
    if rows == [] || rows[0].key == key then 0 else 1 + IndexOf(rows[1..], key)
  }

  function Lookup(rows: seq<Row>, key: Key): Option<Row> {
    var i := IndexOf(rows, key);
    if i < |rows| then Some(rows[i]) else None
  }

  /** Dictionary assignment: replace in place, or append. */
  function Put(rows: seq<Row>, row: Row): seq<Row> {
    var i := IndexOf(rows, row.key);
    if i < |rows| then rows[i := row] else rows + [row]
  }

  // ---- one call each ----

  function Decide(row: Row, at: Time): Decision {
    if row.analysisId.Some? && row.status in {Committed, Recovered} then Refuse(DuplicateCommittedAnalysis)
    else if row.status == ActiveClaim && row.leaseExpiresAt > at then Refuse(ActiveClaimHeld)
    else if row.status == WaitingProvider && row.nextRetryAt.Some? && row.nextRetryAt.value > at then
      Refuse(ProviderCooldown)
    else if row.status == FailedSchema then Refuse(TerminalSchemaFailure)
    else if row.status == Failed then Refuse(TerminalProviderFailure)
    else TakeOver
  }

  function TakenOver(row: Row, request: ClaimRequest, claimId: ClaimId): Row {
    row.(claimId := claimId,
         claimedBy := Some(request.claimedBy),
         claimedAt := request.at,
         heartbeatAt := request.at,
         leaseExpiresAt := request.at + request.lease,
         status := ActiveClaim,
         failureReason := None,
         nextRetryAt := None,
         releasedAt := None,
         expiredClaimCount := row.expiredClaimCount + 1,
         previousClaimId := Some(row.claimId),
         snapshotId := request.snapshotId)
  }

  function NewRow(request: ClaimRequest, claimId: ClaimId): Row {
    Row(request.key, request.instrument, request.timeframe, request.window, request.stateHash, request.contract,
        claimId, Some(request.claimedBy), ActiveClaim, request.at, request.at, request.at + request.lease,
        0, None, request.snapshotId, None, None, None, None, None, None)
  }

  function Claim(t: Table, request: ClaimRequest): (Table, ClaimResult) {
    var i := FirstMatch(t.rows, request);
    if i < |t.rows| then
      match Decide(t.rows[i], request.at)
      case Refuse(outcome) => (t, ClaimResult(false, outcome, t.rows[i]))
      case TakeOver =>
        var row := TakenOver(t.rows[i], request, t.nextClaimId);
        (Table(t.rows[i := row], t.nextClaimId + 1), ClaimResult(true, ClaimTakeover, row))
    else
      var row := NewRow(request, t.nextClaimId);
      (Table(Put(t.rows, row), t.nextClaimId + 1), ClaimResult(true, ClaimAcquired, row))
  }

  predicate Beats(row: Row, claimId: ClaimId, claimedBy: WorkerId) {
    row.claimId == claimId && row.claimedBy == Some(claimedBy) && row.status == ActiveClaim
  }

  function Renewed(row: Row, at: Time, lease: nat): Row {
    row.(heartbeatAt := at, leaseExpiresAt := at + lease)
  }

  function Heartbeat(t: Table, key: Key, claimId: ClaimId, claimedBy: WorkerId, at: Time, lease: nat)
    : (Table, bool)
  {
    var i := IndexOf(t.rows, key);
    if i < |t.rows| && Beats(t.rows[i], claimId, claimedBy) then
      (t.(rows := t.rows[i := Renewed(t.rows[i], at, lease)]), true)
    else (t, false)
  }

  function Closed(row: Row, closing: Closing): Row {
    row.(status := closing.status,
         requestId := if closing.requestId.Some? then closing.requestId.value else row.requestId,
         analysisId := closing.analysisId,
         failureReason := closing.failureReason,
         nextRetryAt := closing.nextRetryAt,
         releasedAt := Some(closing.at),
         completedAt := Some(closing.at),
         claimedBy := None,
         leaseExpiresAt := closing.at)
  }

  /** `release_reasoning_cycle`, and `complete_analysis_cycle` with a claim id: fenced by the claim id alone. */
  function Close(t: Table, key: Key, claimId: ClaimId, closing: Closing): (Table, bool) {
    var i := IndexOf(t.rows, key);
    if i < |t.rows| && t.rows[i].claimId == claimId then
      (t.(rows := t.rows[i := Closed(t.rows[i], closing)]), true)
    else (t, false)
  }

  /** The claim id of the key's row; without one no closing finds anything, whatever the id. */
  function HolderOf(t: Table, key: Key): ClaimId {
    var i := IndexOf(t.rows, key);
    if i < |t.rows| then t.rows[i].claimId else 0
  }

  // ---- row identity ----

  predicate SameIdentity(a: Row, b: Row) {
    && a.key == b.key && a.instrument == b.instrument
    && a.timeframe == b.timeframe && a.window == b.window
    && a.stateHash == b.stateHash && a.contract == b.contract
  }

  ghost predicate DistinctKeys(rows: seq<Row>) {
    forall i, j | 0 <= i < j < |rows| :: rows[i].key != rows[j].key
  }

  /** No two rows stand for the same analysis window or for the same market state. */
  ghost predicate DistinctIdentities(rows: seq<Row>) {
    forall i, j | 0 <= i < j < |rows| && rows[i].instrument == rows[j].instrument ::
      && !SameWindow(rows[i], rows[j].timeframe, rows[j].window, rows[j].contract)
      && !SameState(rows[i], rows[j].stateHash, rows[j].contract)
  }

  ghost predicate DistinctClaims(t: Table) {
    && (forall i | 0 <= i < |t.rows| :: t.rows[i].claimId < t.nextClaimId)
    && (forall i, j | 0 <= i < j < |t.rows| :: t.rows[i].claimId != t.rows[j].claimId)
  }

  ghost predicate Valid(t: Table) {
    DistinctKeys(t.rows) && DistinctIdentities(t.rows) && DistinctClaims(t)
  }

  /** Equal idempotency keys belong to equal instruments. */
  ghost predicate KeyFits(t: Table, request: ClaimRequest) {
    forall i | 0 <= i < |t.rows| && t.rows[i].key == request.key :: t.rows[i].instrument == request.instrument
  }

  /** t' keeps every row of t at its place, under its identity. */
  ghost predicate Extends(t: Table, t': Table) {
    && |t.rows| <= |t'.rows|
    && forall i | 0 <= i < |t.rows| :: SameIdentity(t.rows[i], t'.rows[i])
  }

  lemma IndexUnique(rows: seq<Row>, i: nat)
    requires DistinctKeys(rows) && i < |rows|
    ensures IndexOf(rows, rows[i].key) == i
  {}

  lemma FirstMatchUnique(rows: seq<Row>, request: ClaimRequest, i: nat)
    requires i <= |rows|
    requires i < |rows| ==> Matches(rows[i], request)
    requires forall j | 0 <= j < i :: !Matches(rows[j], request)
    ensures FirstMatch(rows, request) == i
  {}

  /** Every call keeps the table's identity invariant, whatever the request. */
  lemma ClaimKeepsValid(t: Table, request: ClaimRequest)
    requires Valid(t)
    ensures Valid(Claim(t, request).0)
  {
    var i := FirstMatch(t.rows, request);
    if i == |t.rows| {
      var row := NewRow(request, t.nextClaimId);
      var rows' := Put(t.rows, row);
      var k := IndexOf(t.rows, row.key);
      forall a, b | 0 <= a < b < |rows'| && rows'[a].instrument == rows'[b].instrument
        ensures !SameWindow(rows'[a], rows'[b].timeframe, rows'[b].window, rows'[b].contract)
        ensures !SameState(rows'[a], rows'[b].stateHash, rows'[b].contract)
      {
        if a == k {
          assert !Matches(t.rows[b], request);
        } else if b == k {
          assert !Matches(t.rows[a], request);
        }
      }
    }
  }

  lemma HeartbeatKeepsValid(t: Table, key: Key, claimId: ClaimId, claimedBy: WorkerId, at: Time, lease: nat)
    requires Valid(t)
    ensures Valid(Heartbeat(t, key, claimId, claimedBy, at, lease).0)
    ensures Extends(t, Heartbeat(t, key, claimId, claimedBy, at, lease).0)
  {}

  lemma CloseKeepsValid(t: Table, key: Key, claimId: ClaimId, closing: Closing)
    requires Valid(t)
    ensures Valid(Close(t, key, claimId, closing).0)
    ensures Extends(t, Close(t, key, claimId, closing).0)
  {}

  /** A claim keeps every stored row in place exactly when it does not bring an old key under a new instrument
    * that nothing else matches. */
  lemma ClaimExtendsExactly(t: Table, request: ClaimRequest)
    requires Valid(t)
    ensures Extends(t, Claim(t, request).0)
      <==> (FirstMatch(t.rows, request) < |t.rows| || KeyFits(t, request))
  {}

  /** A request that once resolved to a row resolves to the same row in every table that extends this one. */
  lemma ResolutionIsStable(t: Table, t': Table, request: ClaimRequest)
    requires Extends(t, t') && FirstMatch(t.rows, request) < |t.rows|
    ensures FirstMatch(t'.rows, request) == FirstMatch(t.rows, request)
    ensures SameIdentity(t.rows[FirstMatch(t.rows, request)], t'.rows[FirstMatch(t'.rows, request)])
  {}

  lemma AcquiredRowResolves(t: Table, request: ClaimRequest)
    requires Valid(t) && KeyFits(t, request)
    ensures var (t', result) := Claim(t, request);
      var i := FirstMatch(t'.rows, request);
      && i < |t'.rows| && t'.rows[i] == result.row
      && Lookup(t'.rows, result.row.key) == Some(result.row)
  {
    var (t', result) := Claim(t, request);
    ClaimKeepsValid(t, request);
    ClaimExtendsExactly(t, request);
    var i := FirstMatch(t.rows, request);
    if i < |t.rows| {
      ResolutionIsStable(t, t', request);
      IndexUnique(t'.rows, i);
    } else {
      var k := IndexOf(t.rows, request.key);
      if k < |t.rows| { assert Matches(t.rows[k], request); }
      assert forall j | 0 <= j < i :: SameIdentity(t.rows[j], t'.rows[j]);
      FirstMatchUnique(t'.rows, request, i);
      IndexUnique(t'.rows, i);
    }
  }

  // ---- what the service passes ----

  predicate IsAlphanumeric(c: char) {
    'A' <= c <= 'Z' || '0' <= c <= '9'
  }

  function Upper(c: char): char {
    if 'a' <= c <= 'z' then c - 'a' + 'A' else c
  }

  /** The instrument's letters and digits, in upper case. */
  function NormalInstrument(instrument: string): string {
    if instrument == "" then ""
    else (if IsAlphanumeric(Upper(instrument[0])) then [Upper(instrument[0])] else "") + NormalInstrument(instrument[1..])
  }

  /** `five_minute_window_start`. */
  function WindowStart(boundary: Time): Time {
    boundary - boundary % 300
  }

  /** `reasoning_cycle_idempotency_key`, as `process` calls it; the claim timeframe is in upper case already. */
  function KeyFor(timeframe: string, hash: StateHash, contract: string): Key {
    CycleKey(NormalInstrument(hash.instrument), timeframe, WindowStart(hash.boundary), hash, contract)
  }

  /** The claim request that `process` makes for a market state. */
  function ServiceRequest(hash: StateHash, timeframe: string, contract: string, snapshotId: Option<nat>,
                          worker: WorkerId, at: Time, lease: nat): (request: ClaimRequest)
    ensures FromService(request)
  {
    ClaimRequest(KeyFor(timeframe, hash, contract), hash.instrument, Some(timeframe),
                 Some(WindowStart(hash.boundary)), Some(hash), Some(contract), snapshotId, worker, at, lease)
  }

  predicate FromService(request: ClaimRequest) {
    && request.timeframe.Some? && request.stateHash.Some? && request.contract.Some?
    && request.instrument == request.stateHash.value.instrument
    && request.window == Some(WindowStart(request.stateHash.value.boundary))
    && request.key == KeyFor(request.timeframe.value, request.stateHash.value, request.contract.value)
  }

  /** A row that some request of the service created: its key is the hash of its own columns. */
  predicate RowFromService(row: Row) {
    && row.timeframe.Some? && row.stateHash.Some? && row.contract.Some?
    && row.instrument == row.stateHash.value.instrument
    && row.window == Some(WindowStart(row.stateHash.value.boundary))
    && row.key == KeyFor(row.timeframe.value, row.stateHash.value, row.contract.value)
  }

  ghost predicate FilledByService(t: Table) {
    forall i | 0 <= i < |t.rows| :: RowFromService(t.rows[i])
  }

  /** Equal keys belong to equal instruments, because the key covers the state hash and that hash the instrument. */
  lemma ServiceKeysFit(t: Table, request: ClaimRequest)
    requires FilledByService(t) && FromService(request)
    ensures KeyFits(t, request)
  {}

  /** So a claim of the service always keeps every stored row in place, under its identity. */
  lemma ServiceClaimsExtend(t: Table, request: ClaimRequest)
    requires Valid(t) && FilledByService(t) && FromService(request)
    ensures Extends(t, Claim(t, request).0) && FilledByService(Claim(t, request).0)
  {
    ServiceKeysFit(t, request);
    ClaimExtendsExactly(t, request);
  }

  lemma ExtensionsStayFilled(t: Table, t': Table)
    requires FilledByService(t) && Extends(t, t') && |t'.rows| == |t.rows|
    ensures FilledByService(t')
  {
    forall i | 0 <= i < |t'.rows| ensures RowFromService(t'.rows[i]) {
      assert SameIdentity(t.rows[i], t'.rows[i]);
    }
  }

  /** Two service requests for one market state differ in their key only by the trigger timeframe or the contract. */
  lemma SameStateSameWindow(a: ClaimRequest, b: ClaimRequest)
    requires FromService(a) && FromService(b) && a.stateHash == b.stateHash
    ensures a.instrument == b.instrument && a.window == b.window
    ensures a.key == b.key <==> a.timeframe == b.timeframe && a.contract == b.contract
  {}
}

/** Any number of workers sharing the claim table: acquisitions, heartbeats and closings interleave freely,
  * any worker may stop at any point (it just takes no further step), and every instant a worker writes was
  * read from the clock at or before the moment its call takes effect. */
module LeaseProtocol {
  import opened Domain
  import opened ClaimTable

  /** What the holder of a claim id knows: its row, its last successful acquire or heartbeat, and how many of
    * its own releases or completions it has sent. */
  datatype Belief = Belief(worker: WorkerId, key: Key, renewedAt: Time, lease: nat, closings: nat)

  datatype System = System(table: Table, now: Time, beliefs: map<ClaimId, Belief>, acquisitions: map<Key, nat>)

  datatype Action =
    | Wait(to: Time)
    | Acquire(request: ClaimRequest)
    | Beat(claimId: ClaimId, at: Time, lease: nat)
    | CloseClaim(claimId: ClaimId, closing: Closing)

  const START := System(Table([], 0), 0, map[], map[])

  /** Workers act only under claim ids they were given, and claim as the service does. */
  ghost predicate Enabled(s: System, action: Action) {
    match action
    case Wait(to) => s.now <= to
    case Acquire(request) => request.at <= s.now && FromService(request)
    case Beat(claimId, at, _) => claimId in s.beliefs && at <= s.now
    case CloseClaim(claimId, _) => claimId in s.beliefs
  }

  function Acquisitions(s: System, key: Key): nat {
    if key in s.acquisitions then s.acquisitions[key] else 0
  }

  ghost function Apply(s: System, action: Action): System
    requires Enabled(s, action)
  {
    match action
    case Wait(to) => s.(now := to)
    case Acquire(request) =>
      var (table, result) := Claim(s.table, request);
      if result.acquired then
        var belief := Belief(request.claimedBy, result.row.key, request.at, request.lease, 0);
        s.(table := table,
           beliefs := s.beliefs[result.row.claimId := belief],
           acquisitions := s.acquisitions[result.row.key := Acquisitions(s, result.row.key) + 1])
      else s
    case Beat(claimId, at, lease) =>
      var belief := s.beliefs[claimId];
      var (table, renewed) := Heartbeat(s.table, belief.key, claimId, belief.worker, at, lease);
      if renewed then
        s.(table := table, beliefs := s.beliefs[claimId := belief.(renewedAt := at, lease := lease)])
      else s
    case CloseClaim(claimId, closing) =>
      var belief := s.beliefs[claimId];
      s.(table := Close(s.table, belief.key, claimId, closing).0,
         beliefs := s.beliefs[claimId := belief.(closings := belief.closings + 1)])
  }

  ghost predicate Executable(s: System, run: seq<Action>)
    decreases |run|
  {
    run == [] || (Enabled(s, run[0]) && Executable(Apply(s, run[0]), run[1..]))
  }

  ghost function After(s: System, run: seq<Action>): System
    requires Executable(s, run)
    decreases |run|
  {
    if run == [] then s else After(Apply(s, run[0]), run[1..])
  }

  // ---- the table seen key by key ----

  lemma FirstIndex(rows: seq<Row>, key: Key, i: nat)
    requires i <= |rows|
    requires i < |rows| ==> rows[i].key == key
    requires forall j | 0 <= j < i :: rows[j].key != key
    ensures IndexOf(rows, key) == i
  {}

  lemma ReplacedLookup(rows: seq<Row>, i: nat, row: Row, key: Key)
    requires DistinctKeys(rows) && i < |rows| && row.key == rows[i].key
    ensures Lookup(rows[i := row], key) == if key == row.key then Some(row) else Lookup(rows, key)
  {
    IndexUnique(rows, i);
    FirstIndex(rows[i := row], key, IndexOf(rows, key));
  }

  lemma AppendedLookup(rows: seq<Row>, row: Row, key: Key)
    requires IndexOf(rows, row.key) == |rows|
    ensures Lookup(rows + [row], key) == if key == row.key then Some(row) else Lookup(rows, key)
  {
    var i := IndexOf(rows, key);
    FirstIndex(rows + [row], key, if i == |rows| && key != row.key then i + 1 else i);
  }

  lemma ClaimByKey(t: Table, request: ClaimRequest)
    requires Valid(t) && KeyFits(t, request)
    ensures var (t', result) := Claim(t, request); var row := result.row;
      if result.acquired then
        && row.claimId == t.nextClaimId && t'.nextClaimId == t.nextClaimId + 1
        && (forall key :: Lookup(t'.rows, key) == if key == row.key then Some(row) else Lookup(t.rows, key))
        && (match Lookup(t.rows, row.key)
            case None => row == NewRow(request, t.nextClaimId)
            case Some(before) => Decide(before, request.at).TakeOver? && row == TakenOver(before, request, t.nextClaimId))
      else t' == t
  {
    var (t', result) := Claim(t, request);
    var i := FirstMatch(t.rows, request);
    if i < |t.rows| {
      IndexUnique(t.rows, i);
      if result.acquired {
        forall key ensures Lookup(t'.rows, key) == if key == result.row.key then Some(result.row) else Lookup(t.rows, key) {
          ReplacedLookup(t.rows, i, result.row, key);
        }
      }
    } else {
      var k := IndexOf(t.rows, request.key);
      if k < |t.rows| { assert Matches(t.rows[k], request); }
      forall key ensures Lookup(t'.rows, key) == if key == result.row.key then Some(result.row) else Lookup(t.rows, key) {
        AppendedLookup(t.rows, result.row, key);
      }
    }
  }

  lemma HeartbeatByKey(t: Table, key: Key, claimId: ClaimId, claimedBy: WorkerId, at: Time, lease: nat)
    requires Valid(t)
    ensures var (t', renewed) := Heartbeat(t, key, claimId, claimedBy, at, lease);
      && t'.nextClaimId == t.nextClaimId
      && (renewed <==> Lookup(t.rows, key).Some? && Beats(Lookup(t.rows, key).value, claimId, claimedBy))
      && (if renewed then
            forall k :: Lookup(t'.rows, k) ==
              if k == key then Some(Renewed(Lookup(t.rows, key).value, at, lease)) else Lookup(t.rows, k)
          else t' == t)
  {
    var i := IndexOf(t.rows, key);
    if i < |t.rows| {
      forall k ensures Lookup(t.rows[i := Renewed(t.rows[i], at, lease)], k) ==
          if k == key then Some(Renewed(t.rows[i], at, lease)) else Lookup(t.rows, k) {
        ReplacedLookup(t.rows, i, Renewed(t.rows[i], at, lease), k);
      }
    }
  }

  lemma CloseByKey(t: Table, key: Key, claimId: ClaimId, closing: Closing)
    requires Valid(t)
    ensures var (t', closed) := Close(t, key, claimId, closing);
      && t'.nextClaimId == t.nextClaimId
      && (closed <==> Lookup(t.rows, key).Some? && Lookup(t.rows, key).value.claimId == claimId)
      && (if closed then
            forall k :: Lookup(t'.rows, k) ==
              if k == key then Some(ClaimTable.Closed(Lookup(t.rows, key).value, closing)) else Lookup(t.rows, k)
          else t' == t)
  {
    var i := IndexOf(t.rows, key);
    if i < |t.rows| {
      var row := ClaimTable.Closed(t.rows[i], closing);
      forall k ensures Lookup(t.rows[i := row], k) == if k == key then Some(row) else Lookup(t.rows, k) {
        ReplacedLookup(t.rows, i, row, k);
      }
    }
  }

  // ---- the invariant ----

  /** The row is leased to the believer until exactly the instant it believes. */
  predicate LeasedTo(row: Row, claimId: ClaimId, belief: Belief) {
    && row.claimId == claimId && row.status == ActiveClaim
    && row.claimedBy == Some(belief.worker)
    && row.leaseExpiresAt == belief.renewedAt + belief.lease
  }

  ghost predicate RowsBelieved(s: System) {
    forall key | Lookup(s.table.rows, key).Some? ::
      var row := Lookup(s.table.rows, key).value;
      && row.claimId in s.beliefs && s.beliefs[row.claimId].key == key
      && (s.beliefs[row.claimId].closings == 0 ==> LeasedTo(row, row.claimId, s.beliefs[row.claimId]))
  }

  ghost predicate BeliefsBacked(s: System) {
    forall id | id in s.beliefs ::
      && id < s.table.nextClaimId
      && Lookup(s.table.rows, s.beliefs[id].key).Some?
      && (|| s.beliefs[id].closings > 0
          || Lookup(s.table.rows, s.beliefs[id].key).value.claimId == id
          || s.beliefs[id].renewedAt + s.beliefs[id].lease <= s.now)
  }

  /** Successful acquisitions of a row = 1 + its expired-claim count. */
  ghost predicate AcquisitionsCounted(s: System) {
    forall key :: Acquisitions(s, key) ==
      match Lookup(s.table.rows, key) case None => 0 case Some(row) => 1 + row.expiredClaimCount
  }

  /** What the claims believe fits the table, and the rows count their acquisitions. */
  ghost predicate Consistent(s: System) {
    RowsBelieved(s) && BeliefsBacked(s) && AcquisitionsCounted(s)
  }

  ghost predicate Inv(s: System) {
    Valid(s.table) && FilledByService(s.table) && Consistent(s)
  }

  /** rows' is rows with one row written under its key. */
  ghost predicate WroteRow(rows: seq<Row>, rows': seq<Row>, row: Row) {
    forall key :: Lookup(rows', key) == if key == row.key then Some(row) else Lookup(rows, key)
  }

  /** What a write must respect: the new holder's belief fits the row, and a holder it displaces is out of time. */
  ghost predicate RespectfulWrite(s: System, s': System, row: Row, belief: Belief) {
    && WroteRow(s.table.rows, s'.table.rows, row)
    && s'.now == s.now && s'.beliefs == s.beliefs[row.claimId := belief]
    && row.claimId < s'.table.nextClaimId && s.table.nextClaimId <= s'.table.nextClaimId
    && belief.key == row.key
    && (belief.closings == 0 ==> LeasedTo(row, row.claimId, belief))
    && (row.claimId in s.beliefs ==> s.beliefs[row.claimId].key == row.key)
    && (Lookup(s.table.rows, row.key).Some? ==>
          var id := Lookup(s.table.rows, row.key).value.claimId;
          id == row.claimId || (id in s.beliefs ==> s.beliefs[id].closings > 0
                                                    || s.beliefs[id].renewedAt + s.beliefs[id].lease <= s.now))
  }

  lemma WriteKeepsBeliefs(s: System, s': System, row: Row, belief: Belief)
    requires RowsBelieved(s) && BeliefsBacked(s) && RespectfulWrite(s, s', row, belief)
    ensures BeliefsBacked(s')
  {}

  lemma WriteKeepsRows(s: System, s': System, row: Row, belief: Belief)
    requires RowsBelieved(s) && RespectfulWrite(s, s', row, belief)
    ensures RowsBelieved(s')
  {}

  lemma CountAfterWrite(s: System, s': System, row: Row)
    requires AcquisitionsCounted(s) && WroteRow(s.table.rows, s'.table.rows, row)
    requires forall key ::
      (Acquisitions(s', key) == if key == row.key then 1 + row.expiredClaimCount else Acquisitions(s, key))
    ensures AcquisitionsCounted(s')
  {}

  lemma WriteKeepsConsistency(s: System, s': System, row: Row, belief: Belief)
    requires Consistent(s) && RespectfulWrite(s, s', row, belief)
    requires forall key ::
      (Acquisitions(s', key) == if key == row.key then 1 + row.expiredClaimCount else Acquisitions(s, key))
    ensures Consistent(s')
  {
    WriteKeepsBeliefs(s, s', row, belief);
    WriteKeepsRows(s, s', row, belief);
    CountAfterWrite(s, s', row);
  }

  lemma AcquireRespects(s: System, request: ClaimRequest)
    requires Inv(s) && Enabled(s, Acquire(request)) && Claim(s.table, request).1.acquired
    ensures var row := Claim(s.table, request).1.row; var s' := Apply(s, Acquire(request));
      row.claimId in s'.beliefs && RespectfulWrite(s, s', row, s'.beliefs[row.claimId])
  {
    ClaimByKey(s.table, request);
    assert s.table.nextClaimId !in s.beliefs;
  }

  lemma AcquireKeepsConsistency(s: System, request: ClaimRequest)
    requires Inv(s) && Enabled(s, Acquire(request))
    ensures Consistent(Apply(s, Acquire(request)))
  {
    ClaimByKey(s.table, request);
    if Claim(s.table, request).1.acquired {
      var row, s' := Claim(s.table, request).1.row, Apply(s, Acquire(request));
      AcquireRespects(s, request);
      WriteKeepsConsistency(s, s', row, s'.beliefs[row.claimId]);
    }
  }

  lemma AcquireKeepsInv(s: System, request: ClaimRequest)
    requires Inv(s) && Enabled(s, Acquire(request))
    ensures Inv(Apply(s, Acquire(request)))
    ensures Extends(s.table, Apply(s, Acquire(request)).table)
  {
    AcquireKeepsConsistency(s, request);
    ClaimKeepsValid(s.table, request);
    ServiceClaimsExtend(s.table, request);
  }

  lemma BeatKeepsConsistency(s: System, id: ClaimId, at: Time, lease: nat)
    requires Inv(s) && Enabled(s, Beat(id, at, lease))
    ensures Consistent(Apply(s, Beat(id, at, lease)))
  {
    var belief := s.beliefs[id];
    HeartbeatByKey(s.table, belief.key, id, belief.worker, at, lease);
    var s' := Apply(s, Beat(id, at, lease));
    if Heartbeat(s.table, belief.key, id, belief.worker, at, lease).1 {
      LookupHasKey(s.table.rows, belief.key);
      var row := Renewed(Lookup(s.table.rows, belief.key).value, at, lease);
      WriteKeepsConsistency(s, s', row, s'.beliefs[id]);
    }
  }

  lemma BeatKeepsInv(s: System, id: ClaimId, at: Time, lease: nat)
    requires Inv(s) && Enabled(s, Beat(id, at, lease))
    ensures Inv(Apply(s, Beat(id, at, lease)))
    ensures Extends(s.table, Apply(s, Beat(id, at, lease)).table)
  {
    var belief := s.beliefs[id];
    BeatKeepsConsistency(s, id, at, lease);
    HeartbeatKeepsValid(s.table, belief.key, id, belief.worker, at, lease);
    ExtensionsStayFilled(s.table, Heartbeat(s.table, belief.key, id, belief.worker, at, lease).0);
  }

  lemma LookupHasKey(rows: seq<Row>, key: Key)
    ensures Lookup(rows, key).Some? ==> Lookup(rows, key).value.key == key
  {}

  lemma CloseRespects(s: System, id: ClaimId, closing: Closing)
    requires Inv(s) && Enabled(s, CloseClaim(id, closing))
    requires Close(s.table, s.beliefs[id].key, id, closing).1
    ensures var key := s.beliefs[id].key; var s' := Apply(s, CloseClaim(id, closing));
      && Lookup(s.table.rows, key).Some? && Lookup(s.table.rows, key).value.key == key
      && RespectfulWrite(s, s', ClaimTable.Closed(Lookup(s.table.rows, key).value, closing), s'.beliefs[id])
  {
    CloseByKey(s.table, s.beliefs[id].key, id, closing);
    LookupHasKey(s.table.rows, s.beliefs[id].key);
  }

  lemma CloseKeepsConsistency(s: System, id: ClaimId, closing: Closing)
    requires Inv(s) && Enabled(s, CloseClaim(id, closing))
    ensures Consistent(Apply(s, CloseClaim(id, closing)))
  {
    var belief := s.beliefs[id];
    CloseByKey(s.table, belief.key, id, closing);
    var s' := Apply(s, CloseClaim(id, closing));
    if Close(s.table, belief.key, id, closing).1 {
      CloseRespects(s, id, closing);
      var row := ClaimTable.Closed(Lookup(s.table.rows, belief.key).value, closing);
      WriteKeepsConsistency(s, s', row, s'.beliefs[id]);
    } else {
      UnheardCloseKeepsConsistency(s, s', id);
    }
  }

  lemma UnheardCloseKeepsConsistency(s: System, s': System, id: ClaimId)
    requires Consistent(s) && id in s.beliefs
    requires s' == s.(beliefs := s.beliefs[id := s.beliefs[id].(closings := s.beliefs[id].closings + 1)])
    ensures Consistent(s')
  {}

  lemma CloseKeepsInv(s: System, id: ClaimId, closing: Closing)
    requires Inv(s) && Enabled(s, CloseClaim(id, closing))
    ensures Inv(Apply(s, CloseClaim(id, closing)))
    ensures Extends(s.table, Apply(s, CloseClaim(id, closing)).table)
  {
    var belief := s.beliefs[id];
    CloseKeepsConsistency(s, id, closing);
    CloseKeepsValid(s.table, belief.key, id, closing);
    ExtensionsStayFilled(s.table, Close(s.table, belief.key, id, closing).0);
  }

  lemma StepKeepsInv(s: System, action: Action)
    requires Inv(s) && Enabled(s, action)
    ensures Inv(Apply(s, action))
    ensures Extends(s.table, Apply(s, action).table)
  {
    match action
    case Wait(_) =>
    case Acquire(request) => AcquireKeepsInv(s, request);
    case Beat(claimId, at, lease) => BeatKeepsInv(s, claimId, at, lease);
    case CloseClaim(claimId, closing) => CloseKeepsInv(s, claimId, closing);
  }

  lemma {:induction false} RunKeepsInv(s: System, run: seq<Action>)
    requires Inv(s) && Executable(s, run)
    ensures Inv(After(s, run))
    ensures Extends(s.table, After(s, run).table)
    decreases |run|
  {
    if run != [] {
      StepKeepsInv(s, run[0]);
      RunKeepsInv(Apply(s, run[0]), run[1..]);
    }
  }

  // ---- main results ----

  /** Lease exclusion, in every reachable state: a claim that was not closed and whose last renewal is younger
    * than its lease still owns its row, and nobody else has a live lease on that row. */
  lemma LeaseExclusion(run: seq<Action>, id: ClaimId)
    requires Executable(START, run)
    requires var s := After(START, run);
      id in s.beliefs && s.beliefs[id].closings == 0 && s.now < s.beliefs[id].renewedAt + s.beliefs[id].lease
    ensures var s := After(START, run); var belief := s.beliefs[id];
      && Lookup(s.table.rows, belief.key).Some?
      && LeasedTo(Lookup(s.table.rows, belief.key).value, id, belief)
    ensures var s := After(START, run);
      forall other | other in s.beliefs && other != id && s.beliefs[other].key == s.beliefs[id].key ::
        s.beliefs[other].closings > 0 || s.beliefs[other].renewedAt + s.beliefs[other].lease <= s.now
  {
    RunKeepsInv(START, run);
  }

  /** For each row, successful acquisitions = 1 + `expired_claim_count`, in every reachable state. */
  lemma AcquisitionsAreConserved(run: seq<Action>, key: Key)
    requires Executable(START, run)
    ensures var s := After(START, run);
      match Lookup(s.table.rows, key)
      case None => key !in s.acquisitions || s.acquisitions[key] == 0
      case Some(row) => key in s.acquisitions && s.acquisitions[key] == 1 + row.expiredClaimCount
  {
    RunKeepsInv(START, run);
    assert Acquisitions(After(START, run), key) ==
      match Lookup(After(START, run).table.rows, key) case None => 0 case Some(row) => 1 + row.expiredClaimCount;
  }

  /** Rows never lose or share their identity, and a request keeps resolving to the row it once resolved to. */
  lemma RowIdentityIsStable(before: seq<Action>, later: seq<Action>, request: ClaimRequest)
    requires Executable(START, before) && Executable(After(START, before), later)
    ensures var s := After(START, before); var s' := After(s, later);
      && DistinctKeys(s'.table.rows) && DistinctIdentities(s'.table.rows)
      && (FirstMatch(s.table.rows, request) < |s.table.rows| ==>
            && FirstMatch(s'.table.rows, request) == FirstMatch(s.table.rows, request) < |s'.table.rows|
            && SameIdentity(s.table.rows[FirstMatch(s.table.rows, request)],
                            s'.table.rows[FirstMatch(s.table.rows, request)]))
  {
    RunKeepsInv(START, before);
    var s := After(START, before);
    RunKeepsInv(s, later);
    if FirstMatch(s.table.rows, request) < |s.table.rows| {
      ResolutionIsStable(s.table, After(s, later).table, request);
    }
  }

  /** The claim lost its row to a later acquisition. */
  predicate Superseded(s: System, id: ClaimId) {
    && id in s.beliefs
    && Lookup(s.table.rows, s.beliefs[id].key).Some?
    && Lookup(s.table.rows, s.beliefs[id].key).value.claimId != id
  }

  lemma SupersededByAcquire(s: System, request: ClaimRequest, id: ClaimId)
    requires Inv(s) && Enabled(s, Acquire(request)) && Superseded(s, id)
    ensures Superseded(Apply(s, Acquire(request)), id)
  {
    ClaimByKey(s.table, request);
    assert id < s.table.nextClaimId;
  }

  lemma SupersededByBeat(s: System, claimId: ClaimId, at: Time, lease: nat, id: ClaimId)
    requires Inv(s) && Enabled(s, Beat(claimId, at, lease)) && Superseded(s, id)
    ensures Superseded(Apply(s, Beat(claimId, at, lease)), id)
    ensures claimId == id ==> Apply(s, Beat(claimId, at, lease)).table == s.table
  {
    HeartbeatByKey(s.table, s.beliefs[claimId].key, claimId, s.beliefs[claimId].worker, at, lease);
  }

  lemma SupersededByClose(s: System, claimId: ClaimId, closing: Closing, id: ClaimId)
    requires Inv(s) && Enabled(s, CloseClaim(claimId, closing)) && Superseded(s, id)
    ensures Superseded(Apply(s, CloseClaim(claimId, closing)), id)
    ensures claimId == id ==> Apply(s, CloseClaim(claimId, closing)).table == s.table
  {
    CloseByKey(s.table, s.beliefs[claimId].key, claimId, closing);
  }

  lemma SupersededStep(s: System, action: Action, id: ClaimId)
    requires Inv(s) && Enabled(s, action) && Superseded(s, id)
    ensures Superseded(Apply(s, action), id)
    ensures (action.Beat? || action.CloseClaim?) && action.claimId == id ==> Apply(s, action).table == s.table
  {
    match action
    case Wait(_) =>
    case Acquire(request) => SupersededByAcquire(s, request, id);
    case Beat(claimId, at, lease) => SupersededByBeat(s, claimId, at, lease, id);
    case CloseClaim(claimId, closing) => SupersededByClose(s, claimId, closing, id);
  }

  lemma {:induction false} SupersededForever(s: System, run: seq<Action>, id: ClaimId)
    requires Inv(s) && Executable(s, run) && Superseded(s, id)
    ensures Superseded(After(s, run), id)
    decreases |run|
  {
    if run != [] {
      SupersededStep(s, run[0], id);
      StepKeepsInv(s, run[0]);
      SupersededForever(Apply(s, run[0]), run[1..], id);
    }
  }

  /** Fencing: once a claim was taken over, no heartbeat, release or completion sent under its id ever changes
    * the table again, however long the run goes on. */
  lemma OldClaimsAreFenced(before: seq<Action>, later: seq<Action>, action: Action, id: ClaimId)
    requires Executable(START, before) && Superseded(After(START, before), id)
    requires Executable(After(START, before), later)
    requires (action.Beat? || action.CloseClaim?) && action.claimId == id
    requires Enabled(After(After(START, before), later), action)
    ensures var s := After(After(START, before), later); Apply(s, action).table == s.table
  {
    RunKeepsInv(START, before);
    var s := After(START, before);
    SupersededForever(s, later, id);
    RunKeepsInv(s, later);
    SupersededStep(After(s, later), action, id);
  }

  // ---- closed rows ----

  /** The statuses no claim takes over. */
  predicate Terminal(row: Row) {
    || row.status in {Failed, FailedSchema}
    || (row.status in {Committed, Recovered} && row.analysisId.Some?)
  }

  lemma TerminalRefusesAlways(row: Row)
    ensures Terminal(row) <==> forall at :: Decide(row, at).Refuse? && Decide(row, at) != Refuse(ActiveClaimHeld)
                                         && Decide(row, at) != Refuse(ProviderCooldown)
  {
    if !Terminal(row) && row.status !in {Committed, Recovered} {
      var at := if row.status == WaitingProvider && row.nextRetryAt.Some? then row.nextRetryAt.value else row.leaseExpiresAt;
      assert !(Decide(row, at).Refuse? && Decide(row, at) != Refuse(ActiveClaimHeld));
    } else if !Terminal(row) {
      assert Decide(row, 0).TakeOver?;
    }
  }

  /** The action that would write the row again: a second closing under the claim id that closed it. */
  ghost predicate Rewrites(s: System, action: Action, row: Row) {
    action.CloseClaim? && action.claimId == row.claimId && ClaimTable.Closed(row, action.closing) != row
  }

  /** One step changes a terminal row exactly when its own claim id closes it again with other contents. */
  lemma TerminalRowStep(s: System, action: Action, key: Key)
    requires Inv(s) && Enabled(s, action)
    requires Lookup(s.table.rows, key).Some? && Terminal(Lookup(s.table.rows, key).value)
    ensures Lookup(Apply(s, action).table.rows, key) == Lookup(s.table.rows, key)
       <==> !Rewrites(s, action, Lookup(s.table.rows, key).value)
  {
    var row := Lookup(s.table.rows, key).value;
    assert s.beliefs[row.claimId].key == key;
    match action
    case Wait(_) =>
    case Acquire(request) => ClaimByKey(s.table, request);
    case Beat(claimId, at, lease) =>
      HeartbeatByKey(s.table, s.beliefs[claimId].key, claimId, s.beliefs[claimId].worker, at, lease);
    case CloseClaim(claimId, closing) =>
      CloseByKey(s.table, s.beliefs[claimId].key, claimId, closing);
  }

  lemma BeliefStep(s: System, action: Action, id: ClaimId)
    requires Inv(s) && Enabled(s, action) && id in s.beliefs
    ensures var s' := Apply(s, action);
      && id in s'.beliefs && s.beliefs[id].closings <= s'.beliefs[id].closings
      && s'.beliefs[id].key == s.beliefs[id].key && s'.beliefs[id].worker == s.beliefs[id].worker
    ensures action.CloseClaim? && action.claimId == id ==>
      s.beliefs[id].closings < Apply(s, action).beliefs[id].closings
  {
    if action.Acquire? { ClaimByKey(s.table, action.request); }
  }

  lemma {:induction false} ClosingsOnlyGrow(s: System, run: seq<Action>, id: ClaimId)
    requires Inv(s) && Executable(s, run) && id in s.beliefs
    ensures id in After(s, run).beliefs && s.beliefs[id].closings <= After(s, run).beliefs[id].closings
    decreases |run|
  {
    if run != [] {
      BeliefStep(s, run[0], id);
      StepKeepsInv(s, run[0]);
      ClosingsOnlyGrow(Apply(s, run[0]), run[1..], id);
    }
  }

  lemma OnlyASecondClosingRewrites(s: System, action: Action, key: Key)
    requires Inv(s) && Enabled(s, action)
    requires Lookup(s.table.rows, key).Some? && Terminal(Lookup(s.table.rows, key).value)
    requires var id := Lookup(s.table.rows, key).value.claimId; var s' := Apply(s, action);
      id in s'.beliefs && s'.beliefs[id].closings <= 1
    ensures Lookup(Apply(s, action).table.rows, key) == Lookup(s.table.rows, key)
  {
    var row := Lookup(s.table.rows, key).value;
    assert s.beliefs[row.claimId].closings > 0;
    BeliefStep(s, action, row.claimId);
    TerminalRowStep(s, action, key);
  }

  lemma {:induction false} TerminalRowStays(s: System, run: seq<Action>, key: Key)
    requires Inv(s) && Executable(s, run)
    requires Lookup(s.table.rows, key).Some? && Terminal(Lookup(s.table.rows, key).value)
    requires var id := Lookup(s.table.rows, key).value.claimId;
      id in After(s, run).beliefs && After(s, run).beliefs[id].closings <= 1
    ensures Lookup(After(s, run).table.rows, key) == Lookup(s.table.rows, key)
    decreases |run|
  {
    if run != [] {
      var id := Lookup(s.table.rows, key).value.claimId;
      var s1 := Apply(s, run[0]);
      StepKeepsInv(s, run[0]);
      BeliefStep(s, run[0], id);
      ClosingsOnlyGrow(s1, run[1..], id);
      OnlyASecondClosingRewrites(s, run[0], key);
      TerminalRowStays(s1, run[1..], key);
    }
  }

  /** If a claim id is closed at most once in the whole run, the terminal row it left is never written again,
    * so that acquisition is the last one the row ever has. */
  lemma TerminalRowsStayClosed(before: seq<Action>, later: seq<Action>, key: Key)
    requires Executable(START, before) && Executable(After(START, before), later)
    requires var s := After(START, before);
      Lookup(s.table.rows, key).Some? && Terminal(Lookup(s.table.rows, key).value)
    requires var s := After(START, before); var id := Lookup(s.table.rows, key).value.claimId;
      id in After(s, later).beliefs ==> After(s, later).beliefs[id].closings <= 1
    ensures var s := After(START, before);
      && Lookup(After(s, later).table.rows, key) == Lookup(s.table.rows, key)
      && Acquisitions(After(s, later), key) == Acquisitions(s, key)
  {
    RunKeepsInv(START, before);
    var s := After(START, before);
    RunKeepsInv(s, later);
    ClosingsOnlyGrow(s, later, Lookup(s.table.rows, key).value.claimId);
    TerminalRowStays(s, later, key);
    assert Acquisitions(s, key) == 1 + Lookup(s.table.rows, key).value.expiredClaimCount;
    assert Acquisitions(After(s, later), key) == 1 + Lookup(After(s, later).table.rows, key).value.expiredClaimCount;
  }

  // A committed row, released by the same worker afterwards.

  const REQUEST := ServiceRequest(StateHash("XAUUSD", 0, 0), "M5_M15:M5", "2.0", None, "w1", 0, 90)
  const COMMIT := Closing(Committed, Some(Some(1)), Some(AnalysisOf(1)), None, None, 0)
  const RELEASE := Closing(Released, None, None, Some("worker_shutdown"), None, 0)
  const NEW := NewRow(REQUEST, 0)

  function HeldOnce(row: Row, closings: nat): System {
    System(Table([row], 1), 0, map[0 := Belief("w1", REQUEST.key, 0, 90, closings)], map[REQUEST.key := 1])
  }

  lemma AcquiresFirst()
    ensures Enabled(START, Acquire(REQUEST)) && Apply(START, Acquire(REQUEST)) == HeldOnce(NEW, 0)
  {}

  lemma ClosesTheOnlyRow(s: System, row: Row, closing: Closing)
    requires s.table == Table([row], 1) && 0 in s.beliefs && s.beliefs[0].key == row.key && row.claimId == 0
    ensures Enabled(s, CloseClaim(0, closing))
    ensures Apply(s, CloseClaim(0, closing)) ==
      s.(table := Table([ClaimTable.Closed(row, closing)], 1),
         beliefs := s.beliefs[0 := s.beliefs[0].(closings := s.beliefs[0].closings + 1)])
  {}

  lemma ClosesHeld(row: Row, closings: nat, closing: Closing)
    requires row.key == REQUEST.key && row.claimId == 0
    ensures Enabled(HeldOnce(row, closings), CloseClaim(0, closing))
    ensures Apply(HeldOnce(row, closings), CloseClaim(0, closing))
         == HeldOnce(ClaimTable.Closed(row, closing), closings + 1)
  {
    ClosesTheOnlyRow(HeldOnce(row, closings), row, closing);
  }

  lemma AcquiresAgain(row: Row, request: ClaimRequest)
    requires row.key == REQUEST.key && request == REQUEST.(claimedBy := "w2") && Matches(row, request)
    requires Decide(row, 0).TakeOver?
    ensures var s := HeldOnce(row, 2);
      Enabled(s, Acquire(request)) && Acquisitions(Apply(s, Acquire(request)), REQUEST.key) == 2
  {}

  lemma {:induction false} RunsCompose(s: System, first: seq<Action>, rest: seq<Action>)
    requires Executable(s, first) && Executable(After(s, first), rest)
    ensures Executable(s, first + rest) && After(s, first + rest) == After(After(s, first), rest)
    decreases |first|
  {
    if first == [] {
      assert first + rest == rest;
    } else {
      assert (first + rest)[1..] == first[1..] + rest;
      RunsCompose(Apply(s, first[0]), first[1..], rest);
    }
  }

  lemma RunOfOne(s: System, a: Action)
    requires Enabled(s, a)
    ensures Executable(s, [a]) && After(s, [a]) == Apply(s, a)
  {}

  lemma RunOfTwo(s: System, a: Action, b: Action)
    requires Enabled(s, a) && Enabled(Apply(s, a), b)
    ensures Executable(s, [a, b]) && After(s, [a, b]) == Apply(Apply(s, a), b)
  {
    RunOfOne(s, a);
    RunOfOne(Apply(s, a), b);
    RunsCompose(s, [a], [b]);
    assert [a] + [b] == [a, b];
  }

  /** Without that condition the claim fails: `release` and `complete` look at the claim id only, so a release that
    * comes after the worker's own commit (shutdown racing with completion) reopens the row for a take-over. */
  lemma SecondClosingReopensACommittedRow()
    ensures var first := [Acquire(REQUEST), CloseClaim(0, COMMIT)];
      var rest := [CloseClaim(0, RELEASE), Acquire(REQUEST.(claimedBy := "w2"))];
      && Executable(START, first) && Lookup(After(START, first).table.rows, REQUEST.key).Some?
      && Terminal(Lookup(After(START, first).table.rows, REQUEST.key).value)
      && Executable(START, first + rest) && Acquisitions(After(START, first + rest), REQUEST.key) == 2
  {
    var again := REQUEST.(claimedBy := "w2");
    var first, rest := [Acquire(REQUEST), CloseClaim(0, COMMIT)], [CloseClaim(0, RELEASE), Acquire(again)];
    var committed := ClaimTable.Closed(NEW, COMMIT);
    var released := ClaimTable.Closed(committed, RELEASE);
    AcquiresFirst();
    ClosesHeld(NEW, 0, COMMIT);
    RunOfTwo(START, Acquire(REQUEST), CloseClaim(0, COMMIT));
    ClosesHeld(committed, 1, RELEASE);
    AcquiresAgain(released, again);
    RunOfTwo(HeldOnce(committed, 1), CloseClaim(0, RELEASE), Acquire(again));
    RunsCompose(START, first, rest);
    assert IndexOf([committed], REQUEST.key) == 0;
  }
}

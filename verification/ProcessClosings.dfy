/** How the work of a task ends: by which failure its row waits or stays closed, and when it counts as recovered. */
module ProcessClosings {
  import opened Domain
  import opened ClaimTable
  import opened StoredResults
  import opened ReasoningProcess
  import opened ClaimAnswers
  import opened ProcessOwnership
  import LP = LeaseProtocol

  // ---- provider failures ----

  /** The failures of the schema contract. */
  predicate BreaksTheContract(reason: string, phase: string) {
    reason == "output_budget_exceeded" || reason == "schema_validation_error" || "schema_correction_" <= phase
  }

  /** The five failures that pass by themselves. */
  predicate Passing(reason: string) {
    || reason == "quota_exhausted" || reason == "token_quota_exhausted" || reason == "rate_limited"
    || reason == "provider_unavailable" || reason == "request_timeout"
  }

  /** How a failed provider call ends, outside the preflight: exactly the contract failures close the row for good as
    * FAILED_SCHEMA, exactly the other passing ones let it wait, until the pool's retry time if that lies ahead and for
    * at least a minute otherwise; a cached answer is kept exactly when it was rejected. */
  lemma FailedCallsEnd(job: Job, held: HeldClaim, reason: string, phase: string, poolRetry: Option<Time>, backoff: nat,
                       cached: Option<string>, at: Time)
    requires phase != "request_validation"
    ensures var pc := AfterCall(job, held, ProviderFailure(reason, phase, poolRetry, backoff, cached), at);
      && (pc.Finishing? || pc.Refusing?) && pc.held == held
      && (pc.Refusing? <==> cached.Some? && (reason == "schema_validation_error" || "schema_correction_" <= phase))
      && (pc.Refusing? ==> pc.rejected.requestId == job.requestId && pc.rejected.providerOutput == cached.value)
      && var closing := pc.closing;
         && closing.requestId == Some(Some(job.requestId)) && closing.analysisId.None? && closing.at == at
         && closing.failureReason == Some(reason)
         && (closing.status == FailedSchema <==> BreaksTheContract(reason, phase))
         && (closing.status == WaitingProvider <==> !BreaksTheContract(reason, phase) && Passing(reason))
         && (closing.status == Status.Failed <==> !BreaksTheContract(reason, phase) && !Passing(reason))
         && (closing.nextRetryAt.Some? <==> closing.status == WaitingProvider)
         && (closing.nextRetryAt.Some? ==>
               var r := closing.nextRetryAt.value;
               if poolRetry.Some? && at < poolRetry.value then r == poolRetry.value
               else r >= at + 60 && r >= at + backoff && (r == at + 60 || r == at + backoff))
  {}

  /** A call refused by the preflight ends the work for good. */
  lemma RefusedCallsEnd(job: Job, held: HeldClaim, reason: string, poolRetry: Option<Time>, backoff: nat, at: Time)
    ensures var pc := AfterCall(job, held, ProviderFailure(reason, "request_validation", poolRetry, backoff, None), at);
      && pc.Finishing? && pc.held == held && pc.closing.status == Status.Failed && pc.closing.analysisId.None?
      && pc.closing.nextRetryAt.None? && pc.closing.failureReason == Some("request_preflight_failed")
  {}

  lemma FinishingHolds(w: World, t: TaskId)
    requires Inv(w) && t in w.tasks && w.tasks[t].pc.Finishing?
    ensures Holds(w, w.tasks[t].pc.held)
  {
    assert HonestPc(w, w.tasks[t].job, w.tasks[t].pc);
  }

  lemma FinishingStepCloses(w: World, t: TaskId, event: Event, at: Time)
    requires Inv(w) && Enabled(w, Step(t, event, at)) && w.tasks[t].pc.Finishing?
    ensures var held, closing := w.tasks[t].pc.held, w.tasks[t].pc.closing;
      Apply(w, Step(t, event, at)).leases.table == Close(w.leases.table, held.key, held.claimId, closing).0
  {
    FinishingHolds(w, t);
    var held, closing := w.tasks[t].pc.held, w.tasks[t].pc.closing;
    FinishingProjects(w, t, event, at);
    ClosingOfTheProtocol(w.leases, held.claimId, closing);
  }

  lemma FinishingProjects(w: World, t: TaskId, event: Event, at: Time)
    requires Enabled(w, Step(t, event, at)) && w.tasks[t].pc.Finishing?
    ensures var close := LP.CloseClaim(w.tasks[t].pc.held.claimId, w.tasks[t].pc.closing);
      LP.Enabled(w.leases, close) && Apply(w, Step(t, event, at)).leases == LP.Apply(w.leases, close)
  {}

  lemma ClosingOfTheProtocol(s: LP.System, id: ClaimId, closing: Closing)
    requires id in s.beliefs
    ensures LP.Apply(s, LP.CloseClaim(id, closing)).table == Close(s.table, s.beliefs[id].key, id, closing).0
  {}

  lemma FailingStep(w: World, t: TaskId, event: Event, at: Time)
    requires Enabled(w, Step(t, event, at)) && w.tasks[t].pc.Calling?
    ensures var w' := Apply(w, Step(t, event, at));
      && w'.leases == w.leases && t in w'.tasks
      && w'.tasks[t].pc == AfterCall(w.tasks[t].job, w.tasks[t].pc.held, event, at)
  {}

  lemma WaitingWorkReopens(w: World, t: TaskId, event: Event, at: Time, request: ClaimRequest)
    requires Inv(w) && Enabled(w, Step(t, event, at)) && w.tasks[t].pc.Finishing?
    requires w.tasks[t].pc.closing.status == WaitingProvider && w.tasks[t].pc.closing.nextRetryAt.Some?
    requires var held := w.tasks[t].pc.held;
      && ResolvesTo(w.leases.table, request, held.key)
      && Lookup(w.leases.table.rows, held.key).value.claimId == held.claimId
    ensures var held, r := w.tasks[t].pc.held, w.tasks[t].pc.closing.nextRetryAt.value;
      var result := Claim(Apply(w, Step(t, event, at)).leases.table, request).1;
      if request.at < r then !result.acquired && result.outcome == ProviderCooldown
      else result.acquired && result.outcome == ClaimTakeover && result.row.previousClaimId == Some(held.claimId)
  {
    var held, closing := w.tasks[t].pc.held, w.tasks[t].pc.closing;
    FinishingStepCloses(w, t, event, at);
    WaitingRowReopensExactly(w.leases.table, held.key, held.claimId, closing, closing.nextRetryAt.value, request);
  }

  /** From the failing call to the next claim, in any reachable state: when the task still has its row, the row's later
    * claims are refused with PROVIDER_COOLDOWN exactly until the retry time, and take it over from then on. */
  lemma PassingFailuresWaitExactly(run: seq<Action>, t: TaskId, reason: string, phase: string,
                                   poolRetry: Option<Time>, backoff: nat, at: Time, event: Event, then': Time,
                                   request: ClaimRequest)
    requires Executable(INITIAL, run) && phase != "request_validation"
    requires Passing(reason) && !BreaksTheContract(reason, phase)
    requires var failure := Step(t, ProviderFailure(reason, phase, poolRetry, backoff, None), at);
      var w := After(INITIAL, run);
      Enabled(w, failure) && w.tasks[t].pc.Calling? && Enabled(Apply(w, failure), Step(t, event, then'))
    requires var w := After(INITIAL, run); var held := w.tasks[t].pc.held;
      && ResolvesTo(w.leases.table, request, held.key)
      && Lookup(w.leases.table.rows, held.key).value.claimId == held.claimId
    ensures var w := After(INITIAL, run); var held := w.tasks[t].pc.held;
      var w1 := Apply(w, Step(t, ProviderFailure(reason, phase, poolRetry, backoff, None), at));
      var w2 := Apply(w1, Step(t, event, then')); var result := Claim(w2.leases.table, request).1;
      var r := if poolRetry.Some? && at < poolRetry.value then poolRetry.value
               else at + (if backoff < 60 then 60 else backoff);
      && w1.leases.table == w.leases.table
      && (if request.at < r then !result.acquired && result.outcome == ProviderCooldown
          else result.acquired && result.outcome == ClaimTakeover && result.row.previousClaimId == Some(held.claimId))
  {
    StartIsHonest();
    RunKeepsInv(INITIAL, run);
    var w := After(INITIAL, run);
    var failure := Step(t, ProviderFailure(reason, phase, poolRetry, backoff, None), at);
    var w1 := Apply(w, failure);
    var held, job := w.tasks[t].pc.held, w.tasks[t].job;
    StepKeepsInv(w, failure);
    FailingStep(w, t, failure.event, at);
    FailedCallsEnd(job, held, reason, phase, poolRetry, backoff, None, at);
    WaitingWorkReopens(w1, t, event, then', request);
  }

  // ---- COMMITTED against RECOVERED ----

  /** A committed row was never taken over, a recovered one was. */
  predicate RowTellsItsPast(row: Row) {
    (row.status == Committed ==> row.expiredClaimCount == 0) && (row.status == Recovered ==> row.expiredClaimCount > 0)
  }

  /** The task knows whether its claim was a take-over, as long as the row is still its own. */
  predicate KnowsItsPast(rows: seq<Row>, held: HeldClaim) {
    var row := Lookup(rows, held.key);
    row.Some? && row.value.claimId == held.claimId ==> (held.takeover <==> row.value.expiredClaimCount > 0)
  }

  predicate ClosesAsItsPast(held: HeldClaim, closing: Closing) {
    (closing.status == Committed ==> !held.takeover) && (closing.status == Recovered ==> held.takeover)
  }

  predicate TaskTellsItsPast(rows: seq<Row>, pc: Pc) {
    && (!pc.Ready? && !pc.Done? ==> KnowsItsPast(rows, pc.held))
    && (pc.Finishing? || pc.Refusing? ==> ClosesAsItsPast(pc.held, pc.closing))
  }

  ghost predicate RowsTell(rows: seq<Row>) {
    forall key :: Lookup(rows, key).Some? ==> RowTellsItsPast(Lookup(rows, key).value)
  }

  ghost predicate PastsTold(w: World) {
    && RowsTell(w.leases.table.rows)
    && forall t | t in w.tasks :: TaskTellsItsPast(w.leases.table.rows, w.tasks[t].pc)
  }

  /** A lease action gives a row a new claim id or keeps its count of expired claims. */
  ghost predicate PastKept(rows: seq<Row>, rows': seq<Row>, next: ClaimId) {
    forall key | Lookup(rows', key).Some? ::
      var row' := Lookup(rows', key).value;
      row'.claimId >= next
      || (Lookup(rows, key).Some? && Lookup(rows, key).value.claimId == row'.claimId
          && Lookup(rows, key).value.expiredClaimCount == row'.expiredClaimCount)
  }

  lemma ClaimKeepsPast(t: Table, request: ClaimRequest)
    requires Valid(t) && KeyFits(t, request)
    ensures PastKept(t.rows, Claim(t, request).0.rows, t.nextClaimId)
    ensures RowsTell(t.rows) ==> RowsTell(Claim(t, request).0.rows)
  {
    AcquisitionIsRecorded(t, request);
  }

  lemma HeartbeatKeepsPast(t: Table, key: Key, claimId: ClaimId, worker: WorkerId, at: Time, lease: nat)
    requires Valid(t)
    ensures PastKept(t.rows, Heartbeat(t, key, claimId, worker, at, lease).0.rows, t.nextClaimId)
    ensures RowsTell(t.rows) ==> RowsTell(Heartbeat(t, key, claimId, worker, at, lease).0.rows)
  {
    HeartbeatIsRecorded(t, key, claimId, worker, at, lease);
  }

  /** The closing names the past of the row it closes. */
  predicate FitsThePast(rows: seq<Row>, key: Key, claimId: ClaimId, closing: Closing) {
    var row := Lookup(rows, key);
    row.Some? && row.value.claimId == claimId ==>
      && (closing.status == Committed ==> row.value.expiredClaimCount == 0)
      && (closing.status == Recovered ==> row.value.expiredClaimCount > 0)
  }

  lemma ClosingKeepsPast(t: Table, key: Key, claimId: ClaimId, closing: Closing)
    requires Valid(t)
    ensures PastKept(t.rows, Close(t, key, claimId, closing).0.rows, t.nextClaimId)
    ensures RowsTell(t.rows) && FitsThePast(t.rows, key, claimId, closing) ==>
      RowsTell(Close(t, key, claimId, closing).0.rows)
  {
    ClosingIsRecorded(t, key, claimId, closing);
  }

  lemma LeaseActionKeepsPast(s: LP.System, action: LP.Action)
    requires LP.Inv(s) && LP.Enabled(s, action) && RowsTell(s.table.rows)
    requires action.CloseClaim? ==>
      FitsThePast(s.table.rows, s.beliefs[action.claimId].key, action.claimId, action.closing)
    ensures PastKept(s.table.rows, LP.Apply(s, action).table.rows, s.table.nextClaimId)
    ensures RowsTell(LP.Apply(s, action).table.rows)
  {
    match action
    case Wait(_) =>
    case Acquire(request) =>
      ServiceKeysFit(s.table, request);
      ClaimKeepsPast(s.table, request);
    case Beat(id, at, lease) => HeartbeatKeepsPast(s.table, s.beliefs[id].key, id, s.beliefs[id].worker, at, lease);
    case CloseClaim(id, closing) => ClosingKeepsPast(s.table, s.beliefs[id].key, id, closing);
  }

  lemma CallClosesAsItsPast(job: Job, held: HeldClaim, event: Event, at: Time)
    ensures var pc := AfterCall(job, held, event, at);
      pc.Finishing? || pc.Refusing? ==> ClosesAsItsPast(pc.held, pc.closing)
  {}

  /** What a task does next closes as its claim's past says. */
  lemma StepClosesAsItsPast(w: World, task: Task, event: Event, at: Time)
    requires task.pc.Finishing? || task.pc.Refusing? ==> ClosesAsItsPast(task.pc.held, task.pc.closing)
    ensures var pc := StepTask(w, task, event, at).pc;
      pc.Finishing? || pc.Refusing? ==> ClosesAsItsPast(pc.held, pc.closing)
  {
    if task.pc.Calling? { CallClosesAsItsPast(task.job, task.pc.held, event, at); }
    else if task.pc.Recovering? || task.pc.Received? || task.pc.ReceivedSaved? || task.pc.NormalizedSaved? {
      SaveDoesNotClose(w, task, event, at);
    }
  }

  lemma SaveDoesNotClose(w: World, task: Task, event: Event, at: Time)
    requires task.pc.Recovering? || task.pc.Received? || task.pc.ReceivedSaved? || task.pc.NormalizedSaved?
    ensures var pc := StepTask(w, task, event, at).pc; !pc.Finishing? && !pc.Refusing?
  {}

  lemma AcquiredTaskKnows(w: World, job: Job, at: Time)
    requires Inv(w) && LP.Enabled(w.leases, LP.Acquire(job.claim.(at := at)))
    ensures var pc := StepTask(w, Task(job, Ready), Succeed, at).pc;
      var rows' := LP.Apply(w.leases, LP.Acquire(job.claim.(at := at))).table.rows;
      pc.Claimed? ==> KnowsItsPast(rows', pc.held)
  {
    ServiceKeysFit(w.leases.table, job.claim.(at := at));
    AcquisitionIsRecorded(w.leases.table, job.claim.(at := at));
  }

  lemma OldClaimStillKnows(w: World, rows': seq<Row>, t: TaskId)
    requires Inv(w) && t in w.tasks && HeldOf(w.tasks[t].pc).Some?
    requires KnowsItsPast(w.leases.table.rows, w.tasks[t].pc.held)
    requires PastKept(w.leases.table.rows, rows', w.leases.table.nextClaimId)
    ensures KnowsItsPast(rows', w.tasks[t].pc.held)
  {
    HeldIsIssued(w, t);
  }

  lemma SteppedTaskTells(w: World, t: TaskId, event: Event, at: Time)
    requires Inv(w) && PastsTold(w) && Enabled(w, Step(t, event, at))
    requires PastKept(w.leases.table.rows, Apply(w, Step(t, event, at)).leases.table.rows, w.leases.table.nextClaimId)
    ensures var w' := Apply(w, Step(t, event, at)); TaskTellsItsPast(w'.leases.table.rows, w'.tasks[t].pc)
  {
    var w' := Apply(w, Step(t, event, at));
    StepClosesAsItsPast(w, w.tasks[t], event, at);
    StepKeepsClaim(w, w.tasks[t], event, at);
    if w.tasks[t].pc.Ready? {
      AcquiredTaskKnows(w, w.tasks[t].job, at);
    } else if HeldOf(w'.tasks[t].pc).Some? {
      OldClaimStillKnows(w, w'.leases.table.rows, t);
    }
  }

  lemma ClosingFitsThePast(w: World, action: Action)
    requires Inv(w) && PastsTold(w) && Enabled(w, action) && Project(w, action).Some?
    requires Project(w, action).value.CloseClaim?
    ensures var close := Project(w, action).value;
      FitsThePast(w.leases.table.rows, w.leases.beliefs[close.claimId].key, close.claimId, close.closing)
  {
    if action.Step? {
      var task := w.tasks[action.task];
      assert HonestPc(w, task.job, task.pc) && TaskTellsItsPast(w.leases.table.rows, task.pc);
    }
  }

  lemma ActionKeepsPast(w: World, action: Action)
    requires Inv(w) && PastsTold(w) && Enabled(w, action)
    ensures var rows' := Apply(w, action).leases.table.rows;
      PastKept(w.leases.table.rows, rows', w.leases.table.nextClaimId) && RowsTell(rows')
  {
    if Project(w, action).Some? {
      if Project(w, action).value.CloseClaim? { ClosingFitsThePast(w, action); }
      LeaseActionKeepsPast(w.leases, Project(w, action).value);
    }
  }

  lemma StepKeepsPasts(w: World, action: Action)
    requires Inv(w) && PastsTold(w) && Enabled(w, action)
    ensures PastsTold(Apply(w, action))
  {
    var w' := Apply(w, action);
    ActionKeepsPast(w, action);
    forall t | t in w'.tasks ensures TaskTellsItsPast(w'.leases.table.rows, w'.tasks[t].pc) {
      if action.Step? && t == action.task {
        SteppedTaskTells(w, t, action.event, action.at);
      } else if HeldOf(w'.tasks[t].pc).Some? {
        assert w'.tasks[t] == w.tasks[t] && TaskTellsItsPast(w.leases.table.rows, w.tasks[t].pc);
        OldClaimStillKnows(w, w'.leases.table.rows, t);
      }
    }
  }

  lemma {:induction false} RunKeepsPasts(w: World, run: seq<Action>)
    requires Inv(w) && PastsTold(w) && Executable(w, run)
    ensures PastsTold(After(w, run))
    decreases |run|
  {
    if run != [] {
      StepKeepsInv(w, run[0]);
      StepKeepsPasts(w, run[0]);
      RunKeepsPasts(Apply(w, run[0]), run[1..]);
    }
  }

  /** In every reachable state a finished row says COMMITTED if its first claim finished it and RECOVERED if a take-over
    * did. */
  lemma RecoveredExactlyAfterATakeover(run: seq<Action>, key: Key)
    requires Executable(INITIAL, run) && Lookup(After(INITIAL, run).leases.table.rows, key).Some?
    requires Lookup(After(INITIAL, run).leases.table.rows, key).value.status in {Committed, Recovered}
    ensures var row := Lookup(After(INITIAL, run).leases.table.rows, key).value;
      row.status == Recovered <==> row.expiredClaimCount > 0
  {
    StartIsHonest();
    RunKeepsPasts(INITIAL, run);
    assert RowTellsItsPast(Lookup(After(INITIAL, run).leases.table.rows, key).value);
  }
}

/** How the failures of the process itself end: what a faulty step writes into its row, and what the runtime limit and a
  * shutdown leave for the claims that follow. */
module ProcessFailures {
  import opened Domain
  import opened ClaimTable
  import opened StoredResults
  import opened ReasoningProcess
  import opened ClaimAnswers
  import opened ProcessClosings
  import LP = LeaseProtocol

  /** The task is about to close its row as FAILED, for this reason and without a retry. */
  predicate EndsFailed(pc: Pc, held: HeldClaim, job: Job, analysisId: Option<AnalysisId>, reason: string, at: Time) {
    && pc.Finishing? && pc.held == held
    && pc.closing.status == Status.Failed && pc.closing.requestId == Some(Some(job.requestId))
    && pc.closing.analysisId == analysisId && pc.closing.failureReason == Some(reason)
    && pc.closing.nextRetryAt.None? && pc.closing.at == at
  }

  /** A request that cannot be built ends the work for good, with no request named; otherwise the task goes on with its
    * claim. */
  lemma ConstructionFaultEnds(w: World, job: Job, held: HeldClaim, event: Event, at: Time)
    ensures var pc := StepTask(w, Task(job, Claimed(held)), event, at).pc;
      if event.Fault? then
        && pc.Finishing? && pc.held == held && pc.closing.status == Status.Failed && pc.closing.requestId == Some(None)
        && pc.closing.analysisId.None? && pc.closing.failureReason == Some("request_construction_or_persistence")
        && pc.closing.nextRetryAt.None? && pc.closing.at == at
      else pc == Prepared(held)
  {}

  /** An analysis that cannot be stored, for a fault or because a stored one of the same work says something else, ends
    * the work with nothing stored; otherwise the stored analysis is the one gone on with. */
  lemma PersistenceFaultEnds(w: World, job: Job, held: HeldClaim, analysis: Analysis, attached: Option<Artifact>,
                             event: Event, at: Time)
    requires OneAnalysisEach(w.analyses) && analysis.analysisId == AnalysisOf(analysis.requestId)
    ensures var effect := StepTask(w, Task(job, Confirmed(held, analysis, attached)), event, at);
      var conflict := SaveAnalysis(w.analyses, analysis).Err?;
      && effect.artifacts == w.artifacts
      && (if event.Fault? || conflict then
            EndsFailed(effect.pc, held, job, None, "analysis_persistence", at) && effect.analyses == w.analyses
          else
            && effect.pc.Stored? && effect.pc.held == held && effect.pc.attached == attached
            && effect.pc.analysis in effect.analyses && SaysTheSame(effect.pc.analysis, analysis))
  {
    SaveAnalysisAppends(w.analyses, analysis);
  }

  /** A published analysis closes the row and is named by it: as FAILED when it is not AVAILABLE, or when the gate
    * decision or the signal cannot be stored, otherwise as COMMITTED, or as RECOVERED after a take-over. */
  lemma PublishedEnds(w: World, job: Job, held: HeldClaim, analysis: Analysis, event: Event, at: Time)
    ensures var pc := StepTask(w, Task(job, Published(held, analysis)), event, at).pc;
      if analysis.status != Available then EndsFailed(pc, held, job, Some(analysis.analysisId), FAILURE_STATE, at)
      else if event.Fault? then
        EndsFailed(pc, held, job, Some(analysis.analysisId), "commit_gate_persistence", at)
      else if event.LateFault? then
        EndsFailed(pc, held, job, Some(analysis.analysisId), "analysis_signal_persistence", at)
      else
        && pc.Finishing? && pc.held == held && pc.closing.requestId == Some(Some(job.requestId))
        && pc.closing.status == (if held.takeover then Recovered else Committed)
        && pc.closing.analysisId == Some(analysis.analysisId) && pc.closing.failureReason.None?
        && pc.closing.nextRetryAt.None? && pc.closing.at == at
  {}

  /** Every other failure of the provider or of a save becomes a failed analysis, which is stored like any other. */
  lemma CallFaultIsAnalysed(w: World, job: Job, held: HeldClaim, event: Event, at: Time)
    requires event.Fault? || event.LateFault?
    ensures var pc := StepTask(w, Task(job, Calling(held)), event, at).pc;
      && pc.Analysed? && pc.held == held && pc.attached.None?
      && pc.analysis.status == FailedAnalysis && pc.analysis.requestId == job.requestId
      && pc.analysis.analysisId == AnalysisOf(job.requestId)
  {}

  /** An answer the contract rejects is kept as evidence and becomes an INVALID analysis. */
  lemma RejectedAnswerIsKept(w: World, job: Job, held: HeldClaim, output: string, at: Time)
    ensures var pc := StepTask(w, Task(job, Calling(held)), Reject(output), at).pc;
      && pc.Rejecting? && pc.held == held && pc.invalid.status == Invalid && pc.invalid.requestId == job.requestId
      && pc.rejected.requestId == job.requestId && pc.rejected.providerOutput == output
      && pc.rejected.status == ArtifactStatus.TerminalSchemaFailure && pc.rejected.analysisId.None?
  {}

  /** A conflict outside the guarded block ends the task where it stands: nothing is stored and its claim is left to
    * expire. Without one the artifact is stored and the task goes on. */
  lemma BareSaveEnds(w: World, artifact: Artifact, next: Pc)
    ensures var effect := BareSave(w, artifact, next); var r := artifact.requestId;
      var conflict := r in w.artifacts && w.artifacts[r].providerOutput != artifact.providerOutput;
      && effect.analyses == w.analyses
      && (if conflict then effect.pc == Done && effect.artifacts == w.artifacts
          else effect.pc == next && effect.artifacts == w.artifacts[r := artifact])
  {}

  /** The three saves outside the guarded block: of a rejected answer, of a rejected cached answer, and of the commit. */
  lemma UnguardedSavesMayEnd(w: World, job: Job, held: HeldClaim, output: string, analysis: Analysis, attached: Artifact,
                             closing: Closing, event: Event, at: Time)
    ensures var rejected := Artifact(job.requestId, ArtifactStatus.TerminalSchemaFailure, output, None, None);
      && StepTask(w, Task(job, Rejecting(held, rejected, analysis)), event, at)
         == BareSave(w, rejected, Analysed(held, analysis, None))
      && StepTask(w, Task(job, Refusing(held, rejected, closing)), event, at)
         == BareSave(w, rejected, Finishing(held, closing))
    ensures StepTask(w, Task(job, Stored(held, analysis, Some(attached))), event, at)
         == BareSave(w, Artifact(attached.requestId, CommittedArtifact, attached.providerOutput, attached.normalizedOutput,
                                 Some(analysis.analysisId)), Published(held, analysis))
  {}

  /** From the closing step of a failed task on: when it still has its row, every claim of that row is refused with
    * TERMINAL_PROVIDER_FAILURE. */
  lemma FailedWorkIsRefused(run: seq<Action>, t: TaskId, event: Event, at: Time, request: ClaimRequest)
    requires Executable(INITIAL, run) && Enabled(After(INITIAL, run), Step(t, event, at))
    requires var pc := After(INITIAL, run).tasks[t].pc; pc.Finishing? && pc.closing.status == Status.Failed
    requires var w := After(INITIAL, run); var held := w.tasks[t].pc.held;
      && ResolvesTo(w.leases.table, request, held.key)
      && Lookup(w.leases.table.rows, held.key).value.claimId == held.claimId
    ensures var w' := Apply(After(INITIAL, run), Step(t, event, at));
      var result := Claim(w'.leases.table, request).1;
      !result.acquired && result.outcome == TerminalProviderFailure
  {
    StartIsHonest();
    RunKeepsInv(INITIAL, run);
    var w := After(INITIAL, run);
    var held, closing := w.tasks[t].pc.held, w.tasks[t].pc.closing;
    FinishingStepCloses(w, t, event, at);
    OtherClosingsAnswer(w.leases.table, held.key, held.claimId, closing, request);
  }

  // ---- closings from outside the task ----

  lemma OutsideCloses(w: World, action: Action, id: ClaimId)
    requires Enabled(w, action) && (action.RuntimeExceeded? || action.Shutdown?) && action.claimId == id
    ensures id in w.leases.beliefs
    ensures Project(w, action).Some? && Project(w, action).value.CloseClaim?
    ensures Apply(w, action).leases.table
         == Close(w.leases.table, w.leases.beliefs[id].key, id, Project(w, action).value.closing).0
  {}

  /** The runtime limit ends the work of a claim that still has its row: the row is FAILED and no claim gets it again.
    * A shutdown releases it: the next claim takes it over at once. */
  lemma OutsideClosingsAnswer(run: seq<Action>, action: Action, request: ClaimRequest)
    requires Executable(INITIAL, run) && Enabled(After(INITIAL, run), action)
    requires action.RuntimeExceeded? || action.Shutdown?
    requires action.claimId in After(INITIAL, run).leases.beliefs
    requires var table := After(INITIAL, run).leases.table;
      var key := After(INITIAL, run).leases.beliefs[action.claimId].key;
      ResolvesTo(table, request, key) && Lookup(table.rows, key).value.claimId == action.claimId
    ensures var result := Claim(Apply(After(INITIAL, run), action).leases.table, request).1;
      if action.RuntimeExceeded? then
        && !result.acquired && result.outcome == TerminalProviderFailure
        && result.row.failureReason == Some("claim_max_runtime_exceeded")
      else
        && result.acquired && result.outcome == ClaimTakeover
        && result.row.previousClaimId == Some(action.claimId)
  {
    StartIsHonest();
    RunKeepsInv(INITIAL, run);
    var w := After(INITIAL, run);
    OutsideCloses(w, action, action.claimId);
    OutsideClosingIsAnswered(w.leases.table, w.leases.beliefs[action.claimId].key, action.claimId,
                             Project(w, action).value.closing, request);
  }

  lemma OutsideClosingIsAnswered(t: Table, key: Key, id: ClaimId, closing: Closing, request: ClaimRequest)
    requires Valid(t) && ResolvesTo(t, request, key) && Lookup(t.rows, key).value.claimId == id
    requires closing.status in {Status.Failed, Released}
    ensures var result := Claim(Close(t, key, id, closing).0, request).1;
      if closing.status == Status.Failed then
        !result.acquired && result.outcome == TerminalProviderFailure
        && result.row.failureReason == closing.failureReason
      else result.acquired && result.outcome == ClaimTakeover && result.row.previousClaimId == Some(id)
  {
    var t' := Close(t, key, id, closing).0;
    ResolvedRow(t, request, key);
    ClosingIsRecorded(t, key, id, closing);
    OtherClosingsAnswer(t, key, id, closing, request);
    ClosedRowStillResolves(t, key, id, closing, request);
    ResolvedRow(t', request, key);
  }
}

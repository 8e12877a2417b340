/** What a task achieves when nothing disturbs it: a response at hand or in the store ends as a committed analysis. */
module UndisturbedTasks {
  import opened Domain
  import opened ClaimTable
  import opened StoredResults
  import opened ReasoningProcess
  import opened ClaimAnswers
  import opened ResponseContent
  import LP = LeaseProtocol
  import opened CommittedArtifacts
  import opened ProcessClosings
  import opened ProcessOwnership

  /** The row under the claim's key is active and the claim's own. */
  predicate Owns(w: World, held: HeldClaim) {
    var row := Lookup(w.leases.table.rows, held.key);
    row.Some? && row.value.claimId == held.claimId && row.value.claimedBy == Some(held.worker)
    && row.value.status == ActiveClaim
  }

  function Next(t: TaskId, w: World): Action {
    Step(t, Succeed, w.leases.now)
  }

  lemma NextIsEnabled(w: World, t: TaskId)
    requires Inv(w) && t in w.tasks && !w.tasks[t].pc.Ready?
    ensures Enabled(w, Next(t, w))
  {
    assert HonestPc(w, w.tasks[t].job, w.tasks[t].pc);
  }

  // ---- from an analysis to the closed row, step by step ----

  /** Results are persisted only after a heartbeat that the row's own holder sent: a task goes on from its analysis
    * exactly when it owns its row, and otherwise ends without another call. */
  lemma OwnershipIsConfirmed(w: World, t: TaskId, event: Event, at: Time)
    requires Inv(w) && Enabled(w, Step(t, event, at)) && w.tasks[t].pc.Analysed?
    ensures var pc := w.tasks[t].pc; var w' := Apply(w, Step(t, event, at)); var pc' := w'.tasks[t].pc;
      && w'.analyses == w.analyses && w'.artifacts == w.artifacts
      && (pc'.Confirmed? <==> Owns(w, pc.held)) && (pc'.Done? <==> !Owns(w, pc.held))
      && (pc'.Confirmed? ==> pc' == Confirmed(pc.held, pc.analysis, pc.attached) && Owns(w', pc.held))
  {
    var held := w.tasks[t].pc.held;
    HeldIsIssued(w, t);
    HeartbeatIsRecorded(w.leases.table, held.key, held.claimId, held.worker, at, w.tasks[t].job.claim.lease);
  }

  /** No stored analysis stands for the same work with another payload. */
  ghost predicate NoConflict(w: World, analysis: Analysis) {
    forall a | a in w.analyses && SameLogicalIdentity(a, analysis) :: SamePayload(a, analysis)
  }

  lemma AnalysisIsStored(w: World, t: TaskId)
    requires Inv(w) && t in w.tasks && w.tasks[t].pc.Confirmed? && NoConflict(w, w.tasks[t].pc.analysis)
    requires Enabled(w, Next(t, w))
    ensures var pc := w.tasks[t].pc; var w' := Apply(w, Next(t, w)); var pc' := w'.tasks[t].pc;
      && pc'.Stored? && pc'.held == pc.held && pc'.attached == pc.attached && SamePayload(pc'.analysis, pc.analysis)
      && pc'.analysis in w'.analyses && w'.artifacts == w.artifacts && w'.leases == w.leases
  {
    assert HonestPc(w, w.tasks[t].job, w.tasks[t].pc);
    SaveAnalysisAppends(w.analyses, w.tasks[t].pc.analysis);
  }

  lemma ResponseIsCommitted(w: World, t: TaskId)
    requires t in w.tasks && w.tasks[t].pc.Stored? && w.tasks[t].pc.attached.Some? && Enabled(w, Next(t, w))
    requires var artifact := w.tasks[t].pc.attached.value;
      Answers(w, artifact.requestId, artifact.providerOutput)
    ensures var pc := w.tasks[t].pc; var artifact := pc.attached.value;
      var w' := Apply(w, Next(t, w)); var r := artifact.requestId;
      && w'.tasks[t].pc == Published(pc.held, pc.analysis) && w'.analyses == w.analyses && w'.leases == w.leases
      && r in w'.artifacts && w'.artifacts[r].status == CommittedArtifact
      && w'.artifacts[r].analysisId == Some(pc.analysis.analysisId)
      && w'.artifacts[r].providerOutput == artifact.providerOutput
  {}

  lemma CommitIsDecided(w: World, t: TaskId)
    requires t in w.tasks && w.tasks[t].pc.Published? && Enabled(w, Next(t, w))
    ensures var pc := w.tasks[t].pc; var w' := Apply(w, Next(t, w)); var pc' := w'.tasks[t].pc;
      && w'.analyses == w.analyses && w'.artifacts == w.artifacts && w'.leases == w.leases
      && pc'.Finishing? && pc'.held == pc.held && pc'.closing.analysisId == Some(pc.analysis.analysisId)
      && pc'.closing.requestId == Some(Some(w.tasks[t].job.requestId))
      && (pc'.closing.status in {Committed, Recovered} <==> pc.analysis.status == Available)
      && (pc'.closing.status == Status.Failed <==> pc.analysis.status != Available)
      && (pc'.closing.status == Recovered ==> pc.held.takeover)
      && (pc'.closing.status == Committed ==> !pc.held.takeover)
  {}

  lemma RowIsClosed(w: World, t: TaskId)
    requires Inv(w) && t in w.tasks && w.tasks[t].pc.Finishing? && Enabled(w, Next(t, w))
    requires Owns(w, w.tasks[t].pc.held)
    ensures var pc := w.tasks[t].pc; var w' := Apply(w, Next(t, w));
      var row := Lookup(w'.leases.table.rows, pc.held.key);
      && w'.tasks[t].pc.Done? && w'.analyses == w.analyses && w'.artifacts == w.artifacts
      && row.Some? && row.value.status == pc.closing.status && row.value.analysisId == pc.closing.analysisId
      && (pc.closing.requestId.Some? ==> row.value.requestId == pc.closing.requestId.value)
  {
    var held, closing := w.tasks[t].pc.held, w.tasks[t].pc.closing;
    FinishingStepCloses(w, t, Succeed, w.leases.now);
    ClosingIsRecorded(w.leases.table, held.key, held.claimId, closing);
  }

  // ---- whole runs ----

  /** Undisturbed steps of one task. */
  predicate StepsOf(run: seq<Action>, t: TaskId) {
    forall a | a in run :: a.Step? && a.task == t && a.event == Succeed
  }

  lemma GoOn(w: World, run: seq<Action>, t: TaskId) returns (run': seq<Action>)
    requires Inv(w) && Executable(w, run) && StepsOf(run, t)
    requires t in After(w, run).tasks && !After(w, run).tasks[t].pc.Ready?
    ensures Executable(w, run') && StepsOf(run', t)
    ensures Enabled(After(w, run), Next(t, After(w, run)))
    ensures After(w, run') == Apply(After(w, run), Next(t, After(w, run)))
    ensures Inv(After(w, run)) && Inv(After(w, run'))
  {
    RunKeepsInv(w, run);
    NextIsEnabled(After(w, run), t);
    var action := Next(t, After(w, run));
    StepKeepsInv(After(w, run), action);
    RunSnoc(w, run, action);
    run' := run + [action];
  }

  // The stages of the way: under the claim `held`, for the job, with the response's output.

  predicate Says(w: World, job: Job, analysis: Analysis, output: string) {
    && analysis.status == Available && analysis.requestId == job.requestId
    && analysis.analysisId == AnalysisOf(job.requestId) && analysis.content == output
    && Answers(w, job.requestId, output)
  }

  predicate IsResponse(attached: Option<Artifact>, job: Job, output: string) {
    attached.Some? && attached.value.requestId == job.requestId && attached.value.providerOutput == output
  }

  ghost predicate AtAnalysis(w: World, t: TaskId, job: Job, held: HeldClaim, output: string) {
    && Inv(w) && t in w.tasks && w.tasks[t].job == job && Owns(w, held)
    && var pc := w.tasks[t].pc;
       pc.Analysed? && pc.held == held && Says(w, job, pc.analysis, output) && IsResponse(pc.attached, job, output)
       && NoConflict(w, pc.analysis)
  }

  ghost predicate AtConfirmation(w: World, t: TaskId, job: Job, held: HeldClaim, output: string) {
    && Inv(w) && t in w.tasks && w.tasks[t].job == job && Owns(w, held)
    && var pc := w.tasks[t].pc;
       pc.Confirmed? && pc.held == held && Says(w, job, pc.analysis, output) && IsResponse(pc.attached, job, output)
       && NoConflict(w, pc.analysis)
  }

  ghost predicate AtStore(w: World, t: TaskId, job: Job, held: HeldClaim, output: string) {
    && Inv(w) && t in w.tasks && w.tasks[t].job == job && Owns(w, held)
    && var pc := w.tasks[t].pc;
       pc.Stored? && pc.held == held && Says(w, job, pc.analysis, output) && IsResponse(pc.attached, job, output)
       && pc.analysis in w.analyses
  }

  predicate ResponseCommitted(w: World, r: RequestId, output: string) {
    && r in w.artifacts && w.artifacts[r].status == CommittedArtifact && w.artifacts[r].providerOutput == output
    && w.artifacts[r].analysisId == Some(AnalysisOf(r))
  }

  ghost predicate AtPublication(w: World, t: TaskId, job: Job, held: HeldClaim, output: string) {
    && Inv(w) && t in w.tasks && w.tasks[t].job == job && Owns(w, held) && ResponseCommitted(w, job.requestId, output)
    && var pc := w.tasks[t].pc;
       pc.Published? && pc.held == held && Says(w, job, pc.analysis, output) && pc.analysis in w.analyses
  }

  ghost predicate AnalysisPersisted(w: World, r: RequestId, output: string) {
    exists a | a in w.analyses :: a.analysisId == AnalysisOf(r) && a.status == Available && a.content == output
  }

  ghost predicate AtClosing(w: World, t: TaskId, job: Job, held: HeldClaim, output: string) {
    && Inv(w) && t in w.tasks && Owns(w, held)
    && ResponseCommitted(w, job.requestId, output) && AnalysisPersisted(w, job.requestId, output)
    && var pc := w.tasks[t].pc;
       pc.Finishing? && pc.held == held && pc.closing.status == (if held.takeover then Recovered else Committed)
       && pc.closing.requestId == Some(Some(job.requestId)) && pc.closing.analysisId == Some(AnalysisOf(job.requestId))
  }

  /** The response is committed to the AVAILABLE analysis that says it, and the row is closed in their name. */
  ghost predicate CommittedAs(w: World, job: Job, held: HeldClaim, output: string) {
    var row := Lookup(w.leases.table.rows, held.key);
    && ResponseCommitted(w, job.requestId, output) && AnalysisPersisted(w, job.requestId, output)
    && row.Some? && row.value.status == (if held.takeover then Recovered else Committed)
    && row.value.requestId == Some(job.requestId) && row.value.analysisId == Some(AnalysisOf(job.requestId))
  }

  lemma AnalysisToConfirmation(w: World, t: TaskId, job: Job, held: HeldClaim, output: string)
    requires AtAnalysis(w, t, job, held, output) && Enabled(w, Next(t, w))
    ensures AtConfirmation(Apply(w, Next(t, w)), t, job, held, output)
  {
    StepKeepsInv(w, Next(t, w));
    OwnershipIsConfirmed(w, t, Succeed, w.leases.now);
  }

  lemma ConfirmationToStore(w: World, t: TaskId, job: Job, held: HeldClaim, output: string)
    requires AtConfirmation(w, t, job, held, output) && Enabled(w, Next(t, w))
    ensures AtStore(Apply(w, Next(t, w)), t, job, held, output)
  {
    StepKeepsInv(w, Next(t, w));
    AnalysisIsStored(w, t);
  }

  lemma StoreToPublication(w: World, t: TaskId, job: Job, held: HeldClaim, output: string)
    requires AtStore(w, t, job, held, output) && Enabled(w, Next(t, w))
    ensures AtPublication(Apply(w, Next(t, w)), t, job, held, output)
  {
    StepKeepsInv(w, Next(t, w));
    ResponseIsCommitted(w, t);
  }

  lemma PublicationToClosing(w: World, t: TaskId, job: Job, held: HeldClaim, output: string)
    requires AtPublication(w, t, job, held, output) && Enabled(w, Next(t, w))
    ensures AtClosing(Apply(w, Next(t, w)), t, job, held, output)
  {
    StepKeepsInv(w, Next(t, w));
    CommitIsDecided(w, t);
    assert w.tasks[t].pc.analysis in Apply(w, Next(t, w)).analyses;
  }

  lemma ClosingToCommit(w: World, t: TaskId, job: Job, held: HeldClaim, output: string)
    requires AtClosing(w, t, job, held, output) && Enabled(w, Next(t, w))
    ensures CommittedAs(Apply(w, Next(t, w)), job, held, output)
  {
    RowIsClosed(w, t);
  }

  /** From an analysis that says its response, under a claim that owns its row and with no conflicting analysis stored,
    * five undisturbed steps commit it. */
  lemma {:induction false} AnalysisIsCommitted(w: World, t: TaskId, job: Job, held: HeldClaim, output: string)
    returns (run: seq<Action>)
    requires AtAnalysis(w, t, job, held, output)
    ensures Executable(w, run) && StepsOf(run, t) && CommittedAs(After(w, run), job, held, output)
  {
    run := GoOn(w, [], t);
    AnalysisToConfirmation(w, t, job, held, output);
    var w1, run1 := After(w, run), run;
    run := GoOn(w, run1, t);
    ConfirmationToStore(w1, t, job, held, output);
    var w2, run2 := After(w, run), run;
    run := GoOn(w, run2, t);
    StoreToPublication(w2, t, job, held, output);
    var w3, run3 := After(w, run), run;
    run := GoOn(w, run3, t);
    PublicationToClosing(w3, t, job, held, output);
    var w4, run4 := After(w, run), run;
    run := GoOn(w, run4, t);
    ClosingToCommit(w4, t, job, held, output);
  }

  // ---- from a response to the analysis ----

  /** No stored analysis stands for the job with another payload than the response's. */
  ghost predicate NothingElseSaid(w: World, job: Job, output: string) {
    NoConflict(w, AnalysisFor(job, Available, output, w.leases.now))
  }

  ghost predicate WithResponse(w: World, t: TaskId, job: Job, held: HeldClaim, output: string) {
    && Inv(w) && t in w.tasks && w.tasks[t].job == job && Owns(w, held) && NothingElseSaid(w, job, output)
    && !w.tasks[t].pc.Ready? && !w.tasks[t].pc.Done? && w.tasks[t].pc.held == held
  }

  predicate NoOtherOutput(w: World, r: RequestId, output: string) {
    r in w.artifacts ==> w.artifacts[r].providerOutput == output
  }

  /** A step that takes no lease action changes the stores and the task alone. */
  lemma QuietStep(w: World, t: TaskId)
    requires Enabled(w, Next(t, w)) && LeaseAction(w.tasks[t], w.leases.now).None?
    ensures var effect := StepTask(w, w.tasks[t], Succeed, w.leases.now);
      Apply(w, Next(t, w))
      == World(w.leases, effect.analyses, effect.artifacts, w.tasks[t := w.tasks[t].(pc := effect.pc)])
  {}

  /** The task that follows a save of the response. */
  lemma SavedResponse(w: World, task: Task, at: Time, output: string)
    requires task.pc.Recovering? || task.pc.Received? || task.pc.ReceivedSaved? || task.pc.NormalizedSaved?
    requires IsResponse(Some(task.pc.artifact), task.job, output) && NoOtherOutput(w, task.job.requestId, output)
    ensures var effect := StepTask(w, task, Succeed, at); var r := task.job.requestId;
      && effect.analyses == w.analyses
      && r in effect.artifacts && effect.artifacts[r].providerOutput == output
      && effect.pc.held == task.pc.held
      && (if task.pc.Received? then effect.pc.ReceivedSaved? && IsResponse(Some(effect.pc.artifact), task.job, output)
          else if task.pc.ReceivedSaved? then
            effect.pc.NormalizedSaved? && IsResponse(Some(effect.pc.artifact), task.job, output)
          else
            && effect.pc.Analysed? && effect.pc.analysis == AnalysisFor(task.job, Available, output, at)
            && IsResponse(effect.pc.attached, task.job, output))
  {}

  lemma PreparationToRecovery(w: World, t: TaskId, job: Job, held: HeldClaim, output: string)
    requires WithResponse(w, t, job, held, output) && Enabled(w, Next(t, w)) && w.tasks[t].pc.Prepared?
    requires ResponseStored(w, job.requestId) && Answers(w, job.requestId, output)
    ensures var w' := Apply(w, Next(t, w));
      && WithResponse(w', t, job, held, output) && Answers(w', job.requestId, output)
      && w'.tasks[t].pc.Recovering? && IsResponse(Some(w'.tasks[t].pc.artifact), job, output)
  {
    StepKeepsInv(w, Next(t, w));
    QuietStep(w, t);
  }

  lemma SaveToAnalysis(w: World, t: TaskId, job: Job, held: HeldClaim, output: string)
    requires WithResponse(w, t, job, held, output) && Enabled(w, Next(t, w)) && Answers(w, job.requestId, output)
    requires w.tasks[t].pc.Recovering? || w.tasks[t].pc.NormalizedSaved?
    requires IsResponse(Some(w.tasks[t].pc.artifact), job, output)
    ensures AtAnalysis(Apply(w, Next(t, w)), t, job, held, output)
  {
    StepKeepsInv(w, Next(t, w));
    QuietStep(w, t);
    SavedResponse(w, w.tasks[t], w.leases.now, output);
  }

  lemma AnswerToSave(w: World, t: TaskId, job: Job, held: HeldClaim, output: string)
    requires WithResponse(w, t, job, held, output) && Enabled(w, Next(t, w)) && NoOtherOutput(w, job.requestId, output)
    requires w.tasks[t].pc.Received? && IsResponse(Some(w.tasks[t].pc.artifact), job, output)
    ensures var w' := Apply(w, Next(t, w));
      && WithResponse(w', t, job, held, output) && Answers(w', job.requestId, output)
      && w'.tasks[t].pc.ReceivedSaved? && IsResponse(Some(w'.tasks[t].pc.artifact), job, output)
  {
    StepKeepsInv(w, Next(t, w));
    QuietStep(w, t);
    SavedResponse(w, w.tasks[t], w.leases.now, output);
  }

  lemma SaveToNormalization(w: World, t: TaskId, job: Job, held: HeldClaim, output: string)
    requires WithResponse(w, t, job, held, output) && Enabled(w, Next(t, w)) && Answers(w, job.requestId, output)
    requires w.tasks[t].pc.ReceivedSaved? && IsResponse(Some(w.tasks[t].pc.artifact), job, output)
    ensures var w' := Apply(w, Next(t, w));
      && WithResponse(w', t, job, held, output) && Answers(w', job.requestId, output)
      && w'.tasks[t].pc.NormalizedSaved? && IsResponse(Some(w'.tasks[t].pc.artifact), job, output)
  {
    StepKeepsInv(w, Next(t, w));
    QuietStep(w, t);
    SavedResponse(w, w.tasks[t], w.leases.now, output);
  }

  lemma {:induction false} GoOnToCommit(w: World, before: seq<Action>, t: TaskId, job: Job, held: HeldClaim,
                                        output: string)
    returns (run: seq<Action>)
    requires Inv(w) && Executable(w, before) && StepsOf(before, t)
    requires AtAnalysis(After(w, before), t, job, held, output)
    ensures Executable(w, run) && StepsOf(run, t) && CommittedAs(After(w, run), job, held, output)
  {
    var rest := AnalysisIsCommitted(After(w, before), t, job, held, output);
    RunsJoin(w, before, rest);
    run := before + rest;
  }

  lemma {:induction false} RunsJoin(w: World, first: seq<Action>, rest: seq<Action>)
    requires Executable(w, first) && Executable(After(w, first), rest)
    ensures Executable(w, first + rest) && After(w, first + rest) == After(After(w, first), rest)
    decreases |first|
  {
    if first == [] {
      assert first + rest == rest;
    } else {
      assert (first + rest)[1..] == first[1..] + rest;
      RunsJoin(Apply(w, first[0]), first[1..], rest);
    }
  }

  /** A take-over finds the response its predecessor stored: from any reachable state undisturbed steps alone, and so no
    * further answer of the provider, commit exactly the stored output. */
  lemma StoredResponseIsCommitted(before: seq<Action>, t: TaskId) returns (run: seq<Action>)
    requires Executable(INITIAL, before) && t in After(INITIAL, before).tasks
    requires var w := After(INITIAL, before); var job, pc := w.tasks[t].job, w.tasks[t].pc;
      && pc.Prepared? && Owns(w, pc.held) && ResponseStored(w, job.requestId)
      && NothingElseSaid(w, job, w.artifacts[job.requestId].providerOutput)
    ensures var w := After(INITIAL, before); var job := w.tasks[t].job;
      && Executable(w, run) && StepsOf(run, t)
      && CommittedAs(After(w, run), job, w.tasks[t].pc.held, w.artifacts[job.requestId].providerOutput)
  {
    StartIsHonest();
    RunKeepsInv(INITIAL, before);
    var w := After(INITIAL, before);
    var job, held := w.tasks[t].job, w.tasks[t].pc.held;
    var output := w.artifacts[job.requestId].providerOutput;
    run := GoOn(w, [], t);
    PreparationToRecovery(w, t, job, held, output);
    var w1, run1 := After(w, run), run;
    run := GoOn(w, run1, t);
    SaveToAnalysis(w1, t, job, held, output);
    run := GoOnToCommit(w, run, t, job, held, output);
  }

  /** An answer of the provider is committed by undisturbed steps as it was given. */
  lemma AnswerIsCommitted(before: seq<Action>, t: TaskId, output: string) returns (run: seq<Action>)
    requires Executable(INITIAL, before) && t in After(INITIAL, before).tasks
    requires var w := After(INITIAL, before); var job, pc := w.tasks[t].job, w.tasks[t].pc;
      && pc.Received? && pc.artifact.providerOutput == output && pc.artifact.requestId == job.requestId
      && Owns(w, pc.held) && NoOtherOutput(w, job.requestId, output) && NothingElseSaid(w, job, output)
    ensures var w := After(INITIAL, before);
      && Executable(w, run) && StepsOf(run, t)
      && CommittedAs(After(w, run), w.tasks[t].job, w.tasks[t].pc.held, output)
  {
    StartIsHonest();
    RunKeepsInv(INITIAL, before);
    var w := After(INITIAL, before);
    var job, held := w.tasks[t].job, w.tasks[t].pc.held;
    run := GoOn(w, [], t);
    AnswerToSave(w, t, job, held, output);
    var w1, run1 := After(w, run), run;
    run := GoOn(w, run1, t);
    SaveToNormalization(w1, t, job, held, output);
    var w2, run2 := After(w, run), run;
    run := GoOn(w, run2, t);
    SaveToAnalysis(w2, t, job, held, output);
    run := GoOnToCommit(w, run, t, job, held, output);
  }
}

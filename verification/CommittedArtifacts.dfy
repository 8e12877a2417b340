/** What a COMMITTED provider response says about its analysis: exactly which steps commit one to a failed analysis. */
module CommittedArtifacts {
  import opened Domain
  import opened ClaimTable
  import opened StoredResults
  import opened ReasoningProcess
  import LP = LeaseProtocol

  /** The steps inside the guarded block that save the response. */
  predicate Saving(pc: Pc) {
    pc.Recovering? || pc.Received? || pc.ReceivedSaved? || pc.NormalizedSaved?
  }

  /** The stored output differs from the one at hand, storage fails, or accounting fails after the save. */
  predicate Disturbed(w: World, pc: Pc, event: Event)
    requires Saving(pc)
  {
    || (pc.artifact.requestId in w.artifacts
        && w.artifacts[pc.artifact.requestId].providerOutput != pc.artifact.providerOutput)
    || event.Fault? || event.LateFault?
  }

  /** About to persist a failed analysis with a response attached that will be committed to it. */
  predicate FailedWithResponse(pc: Pc) {
    pc.Analysed? && pc.analysis.status == FailedAnalysis && pc.attached.Some?
  }

  /** A saving step goes on with a failed analysis and an attached response exactly when it is disturbed. */
  lemma SavingStepFailsExactly(w: World, task: Task, event: Event, at: Time)
    requires Saving(task.pc)
    ensures FailedWithResponse(StepTask(w, task, event, at).pc) <==> Disturbed(w, task.pc, event)
  {}

  // ---- undisturbed runs ----

  ghost predicate Calm(w: World, action: Action)
    requires Enabled(w, action)
  {
    action.Step? && Saving(w.tasks[action.task].pc) ==> !Disturbed(w, w.tasks[action.task].pc, action.event)
  }

  ghost predicate CalmRun(w: World, run: seq<Action>)
    requires Executable(w, run)
    decreases |run|
  {
    run != [] ==> Calm(w, run[0]) && CalmRun(Apply(w, run[0]), run[1..])
  }

  predicate AttachedIsAvailable(pc: Pc) {
    (pc.Analysed? || pc.Confirmed? || pc.Stored?) && pc.attached.Some? ==> pc.analysis.status == Available
  }

  ghost predicate CommittedAreAvailable(w: World) {
    forall r | r in w.artifacts && w.artifacts[r].status == CommittedArtifact ::
      w.artifacts[r].analysisId.Some? && PersistedAvailable(w.analyses, w.artifacts[r].analysisId.value)
  }

  ghost predicate AllAvailable(w: World) {
    CommittedAreAvailable(w) && forall t | t in w.tasks :: AttachedIsAvailable(w.tasks[t].pc)
  }

  lemma AvailableStays(analyses: seq<Analysis>, analyses': seq<Analysis>, id: AnalysisId)
    requires analyses <= analyses' && PersistedAvailable(analyses, id)
    ensures PersistedAvailable(analyses', id)
  {
    AnalysisStays(analyses, analyses', id);
  }

  lemma SaveKeepsCommitted(w: World, artifact: Artifact)
    requires CommittedAreAvailable(w) && SaveArtifact(w.artifacts, artifact).Ok?
    requires artifact.status == CommittedArtifact ==>
      artifact.analysisId.Some? && PersistedAvailable(w.analyses, artifact.analysisId.value)
    ensures CommittedAreAvailable(w.(artifacts := SaveArtifact(w.artifacts, artifact).value))
  {}

  ghost predicate CalmEffect(w: World, effect: Effect) {
    && CommittedAreAvailable(w.(analyses := effect.analyses, artifacts := effect.artifacts))
    && AttachedIsAvailable(effect.pc)
  }

  lemma CalmSavingStep(w: World, task: Task, event: Event, at: Time)
    requires CommittedAreAvailable(w) && HonestPc(w, task.job, task.pc)
    requires Saving(task.pc) && !Disturbed(w, task.pc, event)
    ensures CalmEffect(w, StepTask(w, task, event, at))
  {
    var artifact := task.pc.artifact;
    var saved := if task.pc.ReceivedSaved? then
                   artifact.(status := Normalized, normalizedOutput := Some(artifact.providerOutput))
                 else if task.pc.NormalizedSaved? then artifact.(status := Validated)
                 else artifact;
    assert SaveArtifact(w.artifacts, saved).Ok?;
    SaveKeepsCommitted(w, saved);
  }

  lemma CalmStoredStep(w: World, task: Task, event: Event, at: Time)
    requires CommittedAreAvailable(w) && HonestPc(w, task.job, task.pc) && AttachedIsAvailable(task.pc)
    requires task.pc.Stored?
    ensures CalmEffect(w, StepTask(w, task, event, at))
  {
    if task.pc.attached.Some? {
      var committed := task.pc.attached.value.(status := CommittedArtifact,
                                               analysisId := Some(task.pc.analysis.analysisId));
      if SaveArtifact(w.artifacts, committed).Ok? { SaveKeepsCommitted(w, committed); }
    }
  }

  lemma CalmConfirmedStep(w: World, task: Task, event: Event, at: Time)
    requires CommittedAreAvailable(w) && OneAnalysisEach(w.analyses)
    requires HonestPc(w, task.job, task.pc) && AttachedIsAvailable(task.pc) && task.pc.Confirmed?
    ensures CalmEffect(w, StepTask(w, task, event, at))
  {
    SaveAnalysisAppends(w.analyses, task.pc.analysis);
    var effect := StepTask(w, task, event, at);
    forall r | r in w.artifacts && w.artifacts[r].status == CommittedArtifact
      ensures PersistedAvailable(effect.analyses, w.artifacts[r].analysisId.value)
    {
      AvailableStays(w.analyses, effect.analyses, w.artifacts[r].analysisId.value);
    }
  }

  lemma CalmOtherStep(w: World, task: Task, event: Event, at: Time)
    requires CommittedAreAvailable(w) && HonestPc(w, task.job, task.pc) && AttachedIsAvailable(task.pc)
    requires !Saving(task.pc) && !task.pc.Stored? && !task.pc.Confirmed?
    ensures CalmEffect(w, StepTask(w, task, event, at))
  {
    if task.pc.Rejecting? || task.pc.Refusing? {
      if SaveArtifact(w.artifacts, task.pc.rejected).Ok? { SaveKeepsCommitted(w, task.pc.rejected); }
    }
  }

  lemma CalmStep(w: World, action: Action)
    requires Inv(w) && AllAvailable(w) && Enabled(w, action) && Calm(w, action)
    ensures AllAvailable(Apply(w, action))
  {
    if action.Step? {
      var task := w.tasks[action.task];
      assert HonestPc(w, task.job, task.pc);
      if Saving(task.pc) { CalmSavingStep(w, task, action.event, action.at); }
      else if task.pc.Stored? { CalmStoredStep(w, task, action.event, action.at); }
      else if task.pc.Confirmed? { CalmConfirmedStep(w, task, action.event, action.at); }
      else { CalmOtherStep(w, task, action.event, action.at); }
    }
  }

  lemma {:induction false} CalmRunKeepsAvailable(w: World, run: seq<Action>)
    requires Inv(w) && AllAvailable(w) && Executable(w, run) && CalmRun(w, run)
    ensures AllAvailable(After(w, run))
    decreases |run|
  {
    if run != [] {
      StepKeepsInv(w, run[0]);
      CalmStep(w, run[0]);
      CalmRunKeepsAvailable(Apply(w, run[0]), run[1..]);
    }
  }

  /** Over any run whose saving steps are undisturbed, every COMMITTED response names an AVAILABLE analysis. */
  lemma CalmRunsCommitAvailable(run: seq<Action>, r: RequestId)
    requires Executable(INITIAL, run) && CalmRun(INITIAL, run)
    requires var w := After(INITIAL, run); r in w.artifacts && w.artifacts[r].status == CommittedArtifact
    ensures var w := After(INITIAL, run);
      exists a | a in w.analyses :: Some(a.analysisId) == w.artifacts[r].analysisId && a.status == Available
  {
    StartIsHonest();
    CalmRunKeepsAvailable(INITIAL, run);
    var w := After(INITIAL, run);
    var a := w.analyses[AnalysisIndex(w.analyses, w.artifacts[r].analysisId.value)];
    assert a in w.analyses;
  }

  // ---- a disturbed run ----

  lemma {:induction false} RunSnoc(w: World, run: seq<Action>, action: Action)
    requires Executable(w, run) && Enabled(After(w, run), action)
    ensures Executable(w, run + [action]) && After(w, run + [action]) == Apply(After(w, run), action)
    decreases |run|
  {
    if run == [] {
      assert [] + [action] == [action] && [action][1..] == [];
    } else {
      assert (run + [action])[1..] == run[1..] + [action];
      RunSnoc(Apply(w, run[0]), run[1..], action);
    }
  }

  /** The next step of task 0, at time 0. */
  lemma Proceed(run: seq<Action>, event: Event) returns (run': seq<Action>)
    requires Executable(INITIAL, run) && Enabled(After(INITIAL, run), Step(0, event, 0))
    ensures Executable(INITIAL, run')
    ensures After(INITIAL, run') == Apply(After(INITIAL, run), Step(0, event, 0))
  {
    run' := run + [Step(0, event, 0)];
    RunSnoc(INITIAL, run, Step(0, event, 0));
  }

  lemma FirstClaimHolds(request: ClaimRequest)
    requires FromService(request) && request.at == 0
    ensures var s := LP.Apply(LP.START, LP.Acquire(request));
      && s.table == Table([NewRow(request, 0)], 1) && s.now == 0
      && s.beliefs == map[0 := LP.Belief(request.claimedBy, request.key, 0, request.lease, 0)]
      && Claim(LP.START.table, request).1 == ClaimResult(true, ClaimAcquired, NewRow(request, 0))
      && Heartbeat(s.table, request.key, 0, request.claimedBy, 0, request.lease).1
  {
    assert Claim(LP.START.table, request).0.rows == [NewRow(request, 0)];
  }

  /** Task 0 alone in the world, under the first claim of its window. */
  ghost function Alone(job: Job, analyses: seq<Analysis>, artifacts: map<RequestId, Artifact>, pc: Pc): World
    requires FromService(job.claim)
  {
    World(LP.Apply(LP.START, LP.Acquire(job.claim.(at := 0))), analyses, artifacts, map[0 := Task(job, pc)])
  }

  function FirstClaim(job: Job): HeldClaim {
    HeldClaim(0, job.claim.key, job.claim.claimedBy, false)
  }

  function ResponseOf(job: Job, output: string): Artifact {
    Artifact(job.requestId, ResponseReceived, output, None, None)
  }

  function NormalizedOf(job: Job, output: string): Artifact {
    Artifact(job.requestId, Normalized, output, Some(output), None)
  }

  function ValidatedOf(job: Job, output: string): Artifact {
    Artifact(job.requestId, Validated, output, Some(output), None)
  }

  function FailureOf(job: Job): Analysis {
    AnalysisFor(job, FailedAnalysis, "", 0)
  }

  lemma ToTheClaim(job: Job) returns (run: seq<Action>)
    requires FromService(job.claim)
    ensures Executable(INITIAL, run) && After(INITIAL, run) == Alone(job, [], map[], Claimed(FirstClaim(job)))
  {
    FirstClaimHolds(job.claim.(at := 0));
    run := [] + [Spawn(0, job)];
    RunSnoc(INITIAL, [], Spawn(0, job));
    assert After(INITIAL, run).tasks == map[0 := Task(job, Ready)];
    run := Proceed(run, Succeed);
  }

  lemma ToTheAnswer(job: Job, output: string) returns (run: seq<Action>)
    requires FromService(job.claim)
    ensures Executable(INITIAL, run)
    ensures After(INITIAL, run) == Alone(job, [], map[], Received(FirstClaim(job), ResponseOf(job, output)))
  {
    FirstClaimHolds(job.claim.(at := 0));
    run := ToTheClaim(job);
    run := Proceed(run, Succeed);
    run := Proceed(run, Succeed);
    run := Proceed(run, Answer(output));
  }

  lemma ToTheResponse(job: Job, output: string) returns (run: seq<Action>)
    requires FromService(job.claim)
    ensures Executable(INITIAL, run)
    ensures After(INITIAL, run) == Alone(job, [], map[job.requestId := ResponseOf(job, output)],
                                         ReceivedSaved(FirstClaim(job), ResponseOf(job, output)))
  {
    run := ToTheAnswer(job, output);
    run := Proceed(run, Succeed);
  }

  lemma ToTheNormalization(job: Job, output: string) returns (run: seq<Action>)
    requires FromService(job.claim)
    ensures Executable(INITIAL, run)
    ensures After(INITIAL, run) == Alone(job, [], map[job.requestId := NormalizedOf(job, output)],
                                         NormalizedSaved(FirstClaim(job), NormalizedOf(job, output)))
  {
    run := ToTheResponse(job, output);
    run := Proceed(run, Succeed);
  }

  /** The response is saved a third time; accounting fails after that. */
  lemma ToTheLateFault(job: Job, output: string) returns (run: seq<Action>)
    requires FromService(job.claim)
    ensures Executable(INITIAL, run)
    ensures After(INITIAL, run) == Alone(job, [], map[job.requestId := ValidatedOf(job, output)],
                                         Analysed(FirstClaim(job), FailureOf(job), Some(ValidatedOf(job, output))))
  {
    run := ToTheNormalization(job, output);
    run := Proceed(run, LateFault);
  }

  lemma ToTheConfirmation(job: Job, output: string) returns (run: seq<Action>)
    requires FromService(job.claim)
    ensures Executable(INITIAL, run)
    ensures After(INITIAL, run) == Alone(job, [], map[job.requestId := ValidatedOf(job, output)],
                                         Confirmed(FirstClaim(job), FailureOf(job), Some(ValidatedOf(job, output))))
  {
    FirstClaimHolds(job.claim.(at := 0));
    run := ToTheLateFault(job, output);
    run := Proceed(run, Succeed);
  }

  lemma ToTheFailedAnalysis(job: Job, output: string) returns (run: seq<Action>)
    requires FromService(job.claim)
    ensures Executable(INITIAL, run)
    ensures After(INITIAL, run) == Alone(job, [FailureOf(job)], map[job.requestId := ValidatedOf(job, output)],
                                         Stored(FirstClaim(job), FailureOf(job), Some(ValidatedOf(job, output))))
  {
    run := ToTheConfirmation(job, output);
    run := Proceed(run, Succeed);
  }

  /** A COMMITTED response need not name an AVAILABLE analysis: for every job of the service there is a run from the
    * start, with no crash and no second worker, that commits its response to its failed analysis. */
  lemma CommittedArtifactMayNameAFailedAnalysis(job: Job, output: string) returns (run: seq<Action>)
    requires FromService(job.claim)
    ensures Executable(INITIAL, run)
    ensures var w := After(INITIAL, run); var failed := AnalysisFor(job, FailedAnalysis, "", 0);
      && w.analyses == [failed]
      && job.requestId in w.artifacts && w.artifacts[job.requestId].status == CommittedArtifact
      && w.artifacts[job.requestId].analysisId == Some(failed.analysisId)
  {
    run := ToTheFailedAnalysis(job, output);
    run := Proceed(run, Succeed);
  }
}

/** Where the content of an analysis comes from: a stored response is recovered instead of asked for again, and every
  * AVAILABLE analysis says exactly what a stored provider response says. */
module ResponseContent {
  import opened Domain
  import opened ClaimTable
  import opened StoredResults
  import opened ReasoningProcess
  import LP = LeaseProtocol

  // ---- recovery instead of a second call ----

  /** A response of the request is stored that was not committed and not rejected. */
  predicate ResponseStored(w: World, r: RequestId) {
    && r in w.artifacts
    && (w.artifacts[r].status == ResponseReceived || w.artifacts[r].status == Normalized
        || w.artifacts[r].status == Validated)
  }

  /** In every reachable state a task that has its request leaves for the provider exactly when no response of that
    * request is stored; otherwise, unless reading it fails, it goes on with exactly the stored output. */
  lemma StoredResponsesAreRecovered(run: seq<Action>, t: TaskId, event: Event, at: Time)
    requires Executable(INITIAL, run) && Enabled(After(INITIAL, run), Step(t, event, at))
    requires After(INITIAL, run).tasks[t].pc.Prepared?
    ensures var w := After(INITIAL, run); var r := w.tasks[t].job.requestId;
      var w' := Apply(w, Step(t, event, at)); var pc := w'.tasks[t].pc;
      && w'.artifacts == w.artifacts && w'.analyses == w.analyses
      && (pc.Calling? <==> !ResponseStored(w, r))
      && (ResponseStored(w, r) && event.Fault? ==>
            pc.Analysed? && pc.analysis.status == FailedAnalysis && pc.attached.None?)
      && (ResponseStored(w, r) && !event.Fault? ==>
            pc.Recovering? && pc.artifact.requestId == r && pc.artifact.status == Validated
            && pc.artifact.providerOutput == w.artifacts[r].providerOutput)
  {
    StartIsHonest();
    RunKeepsInv(INITIAL, run);
  }

  // ---- the content of an analysis ----

  /** The output is the one stored for the request. */
  predicate Answers(w: World, r: RequestId, output: string) {
    r in w.artifacts && w.artifacts[r].providerOutput == output
  }

  predicate TaskHasItsContent(w: World, job: Job, pc: Pc) {
    match pc
    case Recovering(_, artifact) =>
      artifact.requestId == job.requestId && Answers(w, job.requestId, artifact.providerOutput)
    case Received(_, artifact) => artifact.requestId == job.requestId
    case ReceivedSaved(_, artifact) =>
      artifact.requestId == job.requestId && Answers(w, job.requestId, artifact.providerOutput)
    case NormalizedSaved(_, artifact) =>
      artifact.requestId == job.requestId && Answers(w, job.requestId, artifact.providerOutput)
    case Rejecting(_, _, invalid) => invalid.status != Available
    case Analysed(_, analysis, _) => AnalysisHasItsContent(w, analysis)
    case Confirmed(_, analysis, _) => AnalysisHasItsContent(w, analysis)
    case Stored(_, analysis, _) => AnalysisHasItsContent(w, analysis)
    case Published(_, analysis) => AnalysisHasItsContent(w, analysis)
    case _ => true
  }

  predicate AnalysisHasItsContent(w: World, analysis: Analysis) {
    analysis.status == Available ==> Answers(w, analysis.requestId, analysis.content)
  }

  ghost predicate ContentIsStored(w: World) {
    && (forall a | a in w.analyses :: AnalysisHasItsContent(w, a))
    && (forall t | t in w.tasks :: TaskHasItsContent(w, w.tasks[t].job, w.tasks[t].pc))
  }

  /** Stored outputs stay, so what has its content keeps it. */
  ghost predicate OutputsKept(w: World, w': World) {
    forall r | r in w.artifacts :: Answers(w', r, w.artifacts[r].providerOutput)
  }

  lemma ContentStays(w: World, w': World, job: Job, pc: Pc)
    requires OutputsKept(w, w') && TaskHasItsContent(w, job, pc)
    ensures TaskHasItsContent(w', job, pc)
  {}

  lemma StepKeepsOutputsOf(w: World, action: Action)
    requires Enabled(w, action)
    ensures OutputsKept(w, Apply(w, action))
  {
    forall r | r in w.artifacts ensures Answers(Apply(w, action), r, w.artifacts[r].providerOutput) {
      StepKeepsOutputs(w, action, r);
    }
  }

  /** The stores after one task's step, with nothing else changed. */
  ghost function StoresAfter(w: World, effect: Effect): World {
    w.(analyses := effect.analyses, artifacts := effect.artifacts)
  }

  lemma SavingStepHasContent(w: World, task: Task, event: Event, at: Time)
    requires TaskHasItsContent(w, task.job, task.pc)
    requires task.pc.Recovering? || task.pc.Received? || task.pc.ReceivedSaved? || task.pc.NormalizedSaved?
    ensures var effect := StepTask(w, task, event, at);
      effect.analyses == w.analyses && TaskHasItsContent(StoresAfter(w, effect), task.job, effect.pc)
  {}

  lemma ConfirmedStepHasContent(w: World, task: Task, event: Event, at: Time)
    requires ContentIsStored(w) && TaskHasItsContent(w, task.job, task.pc) && task.pc.Confirmed?
    requires OneAnalysisEach(w.analyses) && task.pc.analysis.analysisId == AnalysisOf(task.pc.analysis.requestId)
    ensures var effect := StepTask(w, task, event, at); var w' := StoresAfter(w, effect);
      && effect.artifacts == w.artifacts
      && (forall a | a in effect.analyses :: AnalysisHasItsContent(w', a))
      && TaskHasItsContent(w', task.job, effect.pc)
  {
    SaveAnalysisAppends(w.analyses, task.pc.analysis);
  }

  lemma OtherStepHasContent(w: World, task: Task, event: Event, at: Time)
    requires TaskHasItsContent(w, task.job, task.pc)
    requires task.pc.Ready? || task.pc.Claimed? || task.pc.Calling? || task.pc.Rejecting? || task.pc.Refusing?
             || task.pc.Analysed? || task.pc.Stored? || task.pc.Published? || task.pc.Finishing? || task.pc.Done?
    requires OutputsKept(w, StoresAfter(w, StepTask(w, task, event, at)))
    ensures var effect := StepTask(w, task, event, at);
      effect.analyses == w.analyses && TaskHasItsContent(StoresAfter(w, effect), task.job, effect.pc)
  {}

  lemma PreparedStepHasContent(w: World, task: Task, event: Event, at: Time)
    requires HonestArtifacts(w) && task.pc.Prepared?
    ensures var effect := StepTask(w, task, event, at);
      effect.analyses == w.analyses && effect.artifacts == w.artifacts && TaskHasItsContent(w, task.job, effect.pc)
  {}

  lemma TaskStepHasContent(w: World, task: Task, event: Event, at: Time)
    requires HonestStores(w) && HonestPc(w, task.job, task.pc)
    requires ContentIsStored(w) && TaskHasItsContent(w, task.job, task.pc)
    requires OutputsKept(w, StoresAfter(w, StepTask(w, task, event, at)))
    ensures var effect := StepTask(w, task, event, at); var w' := StoresAfter(w, effect);
      && (forall a | a in effect.analyses :: AnalysisHasItsContent(w', a))
      && TaskHasItsContent(w', task.job, effect.pc)
  {
    if task.pc.Confirmed? { ConfirmedStepHasContent(w, task, event, at); }
    else if task.pc.Prepared? { PreparedStepHasContent(w, task, event, at); }
    else if task.pc.Recovering? || task.pc.Received? || task.pc.ReceivedSaved? || task.pc.NormalizedSaved? {
      SavingStepHasContent(w, task, event, at);
    } else { OtherStepHasContent(w, task, event, at); }
  }

  lemma StepKeepsContent(w: World, action: Action)
    requires Inv(w) && ContentIsStored(w) && Enabled(w, action)
    ensures ContentIsStored(Apply(w, action))
  {
    var w' := Apply(w, action);
    StepKeepsOutputsOf(w, action);
    if action.Step? {
      assert HonestPc(w, w.tasks[action.task].job, w.tasks[action.task].pc);
      TaskStepHasContent(w, w.tasks[action.task], action.event, action.at);
    }
    forall t | t in w'.tasks ensures TaskHasItsContent(w', w'.tasks[t].job, w'.tasks[t].pc) {
      if t in w.tasks && w'.tasks[t] == w.tasks[t] { ContentStays(w, w', w.tasks[t].job, w.tasks[t].pc); }
    }
  }

  lemma {:induction false} RunKeepsContent(w: World, run: seq<Action>)
    requires Inv(w) && ContentIsStored(w) && Executable(w, run)
    ensures ContentIsStored(After(w, run))
    decreases |run|
  {
    if run != [] {
      StepKeepsInv(w, run[0]);
      StepKeepsContent(w, run[0]);
      RunKeepsContent(Apply(w, run[0]), run[1..]);
    }
  }

  /** In every reachable state: an AVAILABLE analysis, persisted or about to be, says exactly what the stored provider
    * response of its request says, whether that response was answered, saved or recovered. */
  lemma AvailableAnalysesSayTheirResponse(run: seq<Action>)
    requires Executable(INITIAL, run)
    ensures var w := After(INITIAL, run);
      && (forall a | a in w.analyses && a.status == Available ::
            a.requestId in w.artifacts && a.content == w.artifacts[a.requestId].providerOutput)
      && (forall t | t in w.tasks && w.tasks[t].pc.Analysed? && w.tasks[t].pc.analysis.status == Available ::
            var analysis := w.tasks[t].pc.analysis;
            analysis.requestId in w.artifacts && analysis.content == w.artifacts[analysis.requestId].providerOutput)
  {
    StartIsHonest();
    RunKeepsContent(INITIAL, run);
    var w := After(INITIAL, run);
    forall t | t in w.tasks && w.tasks[t].pc.Analysed? && w.tasks[t].pc.analysis.status == Available
      ensures Answers(w, w.tasks[t].pc.analysis.requestId, w.tasks[t].pc.analysis.content)
    {
      assert TaskHasItsContent(w, w.tasks[t].job, w.tasks[t].pc);
    }
  }

  /** The analysis at hand is AVAILABLE and says its response, which is attached and stored as VALIDATED. */
  predicate BuiltFrom(w: World, job: Job, pc: Pc, output: string) {
    && pc.Analysed? && pc.analysis.status == Available && pc.analysis.requestId == job.requestId
    && pc.analysis.content == output
    && job.requestId in w.artifacts && w.artifacts[job.requestId].status == Validated
    && w.artifacts[job.requestId].providerOutput == output && pc.attached == Some(w.artifacts[job.requestId])
  }

  lemma SaveBuildsTheAnalysis(w: World, task: Task, at: Time)
    requires TaskHasItsContent(w, task.job, task.pc) && HonestPc(w, task.job, task.pc)
    requires task.pc.Recovering? || task.pc.NormalizedSaved?
    ensures var effect := StepTask(w, task, Succeed, at);
      BuiltFrom(StoresAfter(w, effect), task.job, effect.pc, task.pc.artifact.providerOutput)
  {}

  /** Where an AVAILABLE analysis is built: by an undisturbed recovery, or by the last save of an answer. */
  lemma UndisturbedSavesAnalyse(run: seq<Action>, t: TaskId, at: Time)
    requires Executable(INITIAL, run) && Enabled(After(INITIAL, run), Step(t, Succeed, at))
    requires After(INITIAL, run).tasks[t].pc.Recovering? || After(INITIAL, run).tasks[t].pc.NormalizedSaved?
    ensures var w := After(INITIAL, run); var job, artifact := w.tasks[t].job, w.tasks[t].pc.artifact;
      var w' := Apply(w, Step(t, Succeed, at));
      Answers(w, job.requestId, artifact.providerOutput) && BuiltFrom(w', job, w'.tasks[t].pc, artifact.providerOutput)
  {
    StartIsHonest();
    RunKeepsInv(INITIAL, run);
    RunKeepsContent(INITIAL, run);
    var w := After(INITIAL, run);
    assert TaskHasItsContent(w, w.tasks[t].job, w.tasks[t].pc) && HonestPc(w, w.tasks[t].job, w.tasks[t].pc);
    SaveBuildsTheAnalysis(w, w.tasks[t], at);
  }
}

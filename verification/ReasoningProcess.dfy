/** `AIReasoningService.process` as a step machine: every task holds a program counter, every step is one
  * repository call or one provider answer, tasks of any number of workers interleave, and any task may crash
  * between two steps. Heartbeats, the runtime limit and shutdown releases run beside the tasks. */
module ReasoningProcess {
  import opened Domain
  import opened ClaimTable
  import opened StoredResults
  import LP = LeaseProtocol
  import ClaimSql

  /** What identifies the work: the request built from a market state, and the cycle row it claims. */
  datatype Job = Job(requestId: RequestId, cycleId: nat, symbol: string, timeframe: string, claim: ClaimRequest)

  datatype HeldClaim = HeldClaim(claimId: ClaimId, key: Key, worker: WorkerId, takeover: bool)

  datatype Pc =
    | Ready
    | Claimed(held: HeldClaim)
    | Prepared(held: HeldClaim)
    | Recovering(held: HeldClaim, artifact: Artifact)
    | Calling(held: HeldClaim)
    | Received(held: HeldClaim, artifact: Artifact)
    | ReceivedSaved(held: HeldClaim, artifact: Artifact)
    | NormalizedSaved(held: HeldClaim, artifact: Artifact)
    | Rejecting(held: HeldClaim, rejected: Artifact, invalid: Analysis)
    | Refusing(held: HeldClaim, rejected: Artifact, closing: Closing)
    | Analysed(held: HeldClaim, analysis: Analysis, attached: Option<Artifact>)
    | Confirmed(held: HeldClaim, analysis: Analysis, attached: Option<Artifact>)
    | Stored(held: HeldClaim, analysis: Analysis, attached: Option<Artifact>)
    | Published(held: HeldClaim, analysis: Analysis)
    | Finishing(held: HeldClaim, closing: Closing)
    | Done

  datatype Task = Task(job: Job, pc: Pc)

  type TaskId = nat

  datatype World = World(
    leases: LP.System,
    analyses: seq<Analysis>,
    artifacts: map<RequestId, Artifact>,
    tasks: map<TaskId, Task>)

  /** How the part of a step that lies outside the repository turns out. A provider failure comes with the pool's next
    * retry time, the configured longest backoff, and the rejected response the pool may have cached. */
  datatype Event =
    | Succeed
    | Answer(output: string)
    | Fault
    | Reject(output: string)
    | ProviderFailure(reason: string, phase: string, poolRetry: Option<Time>, backoff: nat, cached: Option<string>)
    | LateFault

  datatype Action =
    | Spawn(task: TaskId, job: Job)
    | Crash(task: TaskId)
    | Step(task: TaskId, event: Event, at: Time)
    | Wait(to: Time)
    | HeartbeatTick(claimId: ClaimId, at: Time, lease: nat)
    | RuntimeExceeded(claimId: ClaimId, at: Time)
    | Shutdown(claimId: ClaimId, at: Time)

  const INITIAL := World(LP.START, [], map[], map[])

  // ---- the values a task builds ----

  function AnalysisFor(job: Job, status: AnalysisStatus, content: string, at: Time): Analysis {
    Analysis(AnalysisOf(job.requestId), job.requestId, job.cycleId, job.symbol, job.timeframe, "2.0",
             status, content, at, "")
  }

  function FailClosing(job: Job, analysisId: Option<AnalysisId>, reason: string, at: Time): Closing {
    Closing(Status.Failed, Some(Some(job.requestId)), analysisId, Some(reason), None, at)
  }

  /** A request that cannot be built closes the row without a request id. */
  function ConstructionClosing(at: Time): Closing {
    Closing(Status.Failed, Some(None), None, Some("request_construction_or_persistence"), None, at)
  }

  /** Stands for the text of the failure that made an analysis unavailable. */
  const FAILURE_STATE := "failure_state"

  const SCHEMA_CORRECTION := "schema_correction_"

  function StatusOfFailure(reason: string, phase: string): Status {
    if reason in {"output_budget_exceeded", "schema_validation_error"} || SCHEMA_CORRECTION <= phase then FailedSchema
    else if reason in {"quota_exhausted", "token_quota_exhausted", "rate_limited", "provider_unavailable",
                       "request_timeout"} then WaitingProvider
    else Status.Failed
  }

  /** `_provider_retry_deadline`: the pool's retry time if it lies ahead, else a backoff of at least a minute. */
  function RetryDeadline(poolRetry: Option<Time>, backoff: nat, at: Time): Time {
    if poolRetry.Some? && poolRetry.value > at then poolRetry.value
    else at + (if backoff < 60 then 60 else backoff)
  }

  /** Preflight rejections end the work; the other provider failures as their reason and phase say. */
  function ProviderClosing(job: Job, reason: string, phase: string, poolRetry: Option<Time>, backoff: nat, at: Time)
    : Closing
  {
    if phase == "request_validation" then FailClosing(job, None, "request_preflight_failed", at)
    else
      var status := StatusOfFailure(reason, phase);
      Closing(status, Some(Some(job.requestId)), None, Some(reason),
              if status == WaitingProvider then Some(RetryDeadline(poolRetry, backoff, at)) else None, at)
  }

  function CommitClosing(job: Job, held: HeldClaim, analysis: Analysis, at: Time): Closing {
    Closing(if held.takeover then Recovered else Committed, Some(Some(job.requestId)),
            Some(analysis.analysisId), None, None, at)
  }

  predicate Reusable(artifact: Artifact) {
    artifact.status in {ResponseReceived, Normalized, Validated}
  }

  // ---- one step of one task ----

  /** The lease action a step performs, if any. */
  function LeaseAction(task: Task, at: Time): Option<LP.Action> {
    match task.pc
    case Ready => Some(LP.Acquire(task.job.claim.(at := at)))
    case Analysed(held, _, _) => Some(LP.Beat(held.claimId, at, task.job.claim.lease))
    case Finishing(held, closing) => Some(LP.CloseClaim(held.claimId, closing))
    case _ => None
  }

  /** Where one step leaves the stores and the program counter. */
  datatype Effect = Effect(analyses: seq<Analysis>, artifacts: map<RequestId, Artifact>, pc: Pc)

  /** Saving inside the guarded block: a conflict or a storage fault becomes a failed analysis, and the artifact
    * already built stays attached to it. A late fault strikes after the save (usage accounting). */
  function GuardedSave(w: World, job: Job, held: HeldClaim, artifact: Artifact, event: Event, at: Time, next: Pc)
    : Effect
  {
    var failed := Analysed(held, AnalysisFor(job, FailedAnalysis, "", at), Some(artifact));
    match SaveArtifact(w.artifacts, artifact)
    case Err(_) => Effect(w.analyses, w.artifacts, failed)
    case Ok(artifacts) =>
      if event.Fault? then Effect(w.analyses, w.artifacts, failed)
      else Effect(w.analyses, artifacts, if event.LateFault? then failed else next)
  }

  /** Saving outside any handler: a conflict ends the task and leaves its claim to expire. */
  function BareSave(w: World, artifact: Artifact, next: Pc): Effect {
    match SaveArtifact(w.artifacts, artifact)
    case Err(_) => Effect(w.analyses, w.artifacts, Done)
    case Ok(artifacts) => Effect(w.analyses, artifacts, next)
  }

  function StepTask(w: World, task: Task, event: Event, at: Time): Effect {
    var job := task.job;
    var failed := AnalysisFor(job, FailedAnalysis, "", at);
    match task.pc
    case Ready =>
      var (_, result) := Claim(w.leases.table, job.claim.(at := at));
      var held := HeldClaim(result.row.claimId, result.row.key, job.claim.claimedBy, result.outcome == ClaimTakeover);
      Moved(w, if result.acquired then Claimed(held) else Done)
    case Claimed(held) =>
      Moved(w, if event.Fault? then Finishing(held, ConstructionClosing(at)) else Prepared(held))
    case Prepared(held) =>
      Moved(w, if job.requestId in w.artifacts && Reusable(w.artifacts[job.requestId]) then
                 if event.Fault? then Analysed(held, failed, None)
                 else Recovering(held, w.artifacts[job.requestId].(status := Validated))
               else Calling(held))
    case Recovering(held, artifact) =>
      var analysis := AnalysisFor(job, Available, artifact.providerOutput, at);
      GuardedSave(w, job, held, artifact, event, at, Analysed(held, analysis, Some(artifact)))
    case Calling(held) =>
      Moved(w, AfterCall(job, held, event, at))
    case Received(held, artifact) =>
      GuardedSave(w, job, held, artifact, event, at, ReceivedSaved(held, artifact))
    case ReceivedSaved(held, artifact) =>
      var normalized := artifact.(status := Normalized, normalizedOutput := Some(artifact.providerOutput));
      GuardedSave(w, job, held, normalized, event, at, NormalizedSaved(held, normalized))
    case NormalizedSaved(held, artifact) =>
      var validated := artifact.(status := Validated);
      var analysis := AnalysisFor(job, Available, artifact.providerOutput, at);
      GuardedSave(w, job, held, validated, event, at, Analysed(held, analysis, Some(validated)))
    case Rejecting(held, rejected, invalid) => BareSave(w, rejected, Analysed(held, invalid, None))
    case Refusing(held, rejected, closing) => BareSave(w, rejected, Finishing(held, closing))
    case Analysed(held, analysis, artifact) =>
      var (_, renewed) := Heartbeat(w.leases.table, held.key, held.claimId, held.worker, at, job.claim.lease);
      Moved(w, if renewed then Confirmed(held, analysis, artifact) else Done)
    case Confirmed(held, analysis, artifact) =>
      var saved := SaveAnalysis(w.analyses, analysis);
      if saved.Err? || event.Fault? then
        Moved(w, Finishing(held, FailClosing(job, None, "analysis_persistence", at)))
      else
        Effect(saved.value.0, w.artifacts, Stored(held, saved.value.1, artifact))
    case Stored(held, analysis, artifact) =>
      if artifact.None? then Moved(w, Published(held, analysis))
      else
        var committed := artifact.value.(status := CommittedArtifact, analysisId := Some(analysis.analysisId));
        BareSave(w, committed, Published(held, analysis))
    case Published(held, analysis) =>
      Moved(w, Finishing(held,
        if analysis.status != Available then FailClosing(job, Some(analysis.analysisId), FAILURE_STATE, at)
        else if event.Fault? then FailClosing(job, Some(analysis.analysisId), "commit_gate_persistence", at)
        else if event.LateFault? then FailClosing(job, Some(analysis.analysisId), "analysis_signal_persistence", at)
        else CommitClosing(job, held, analysis, at)))
    case Finishing(_, _) => Moved(w, Done)
    case Done => Moved(w, Done)
  }

  function Moved(w: World, pc: Pc): Effect {
    Effect(w.analyses, w.artifacts, pc)
  }

  /** The provider answers, answers something the contract rejects, fails, or the call ends in any other way. */
  function AfterCall(job: Job, held: HeldClaim, event: Event, at: Time): Pc {
    match event
    case Answer(output) => Received(held, Artifact(job.requestId, ResponseReceived, output, None, None))
    case Reject(output) => Rejecting(held, Rejected(job, output), AnalysisFor(job, Invalid, "", at))
    case ProviderFailure(reason, phase, poolRetry, backoff, cached) =>
      var closing := ProviderClosing(job, reason, phase, poolRetry, backoff, at);
      if cached.Some? && (reason == "schema_validation_error" || SCHEMA_CORRECTION <= phase) then
        Refusing(held, Rejected(job, cached.value), closing)
      else Finishing(held, closing)
    case _ => Analysed(held, AnalysisFor(job, FailedAnalysis, "", at), None)
  }

  function Rejected(job: Job, output: string): Artifact {
    Artifact(job.requestId, ArtifactStatus.TerminalSchemaFailure, output, None, None)
  }

  // ---- runs ----

  /** The protocol action an action amounts to, if any. */
  function Project(w: World, action: Action): Option<LP.Action> {
    match action
    case Step(task, _, at) => if task in w.tasks then LeaseAction(w.tasks[task], at) else None
    case Wait(to) => Some(LP.Wait(to))
    case HeartbeatTick(claimId, at, lease) => Some(LP.Beat(claimId, at, lease))
    case RuntimeExceeded(claimId, at) =>
      Some(LP.CloseClaim(claimId, Closing(Status.Failed, None, None, Some("claim_max_runtime_exceeded"), None, at)))
    case Shutdown(claimId, at) =>
      Some(LP.CloseClaim(claimId, Closing(Released, None, None, Some("worker_shutdown"), None, at)))
    case _ => None
  }

  ghost predicate Enabled(w: World, action: Action) {
    && (match action
        case Spawn(task, _) => task !in w.tasks
        case Crash(task) => task in w.tasks
        case Step(task, _, at) => task in w.tasks && at <= w.leases.now
        case _ => true)
    && (Project(w, action).Some? ==> LP.Enabled(w.leases, Project(w, action).value))
  }

  ghost function Apply(w: World, action: Action): World
    requires Enabled(w, action)
  {
    var leases := if Project(w, action).Some? then LP.Apply(w.leases, Project(w, action).value) else w.leases;
    match action
    case Spawn(task, job) => w.(tasks := w.tasks[task := Task(job, Ready)])
    case Crash(task) => w.(tasks := w.tasks[task := w.tasks[task].(pc := Done)])
    case Step(task, event, at) =>
      var effect := StepTask(w, w.tasks[task], event, at);
      World(leases, effect.analyses, effect.artifacts, w.tasks[task := w.tasks[task].(pc := effect.pc)])
    case _ => w.(leases := leases)
  }

  ghost predicate Executable(w: World, run: seq<Action>)
    decreases |run|
  {
    run == [] || (Enabled(w, run[0]) && Executable(Apply(w, run[0]), run[1..]))
  }

  ghost function After(w: World, run: seq<Action>): World
    requires Executable(w, run)
    decreases |run|
  {
    if run == [] then w else After(Apply(w, run[0]), run[1..])
  }

  // ---- the invariant ----

  predicate Persisted(analyses: seq<Analysis>, id: AnalysisId) {
    AnalysisIndex(analyses, id) < |analyses|
  }

  predicate PersistedAvailable(analyses: seq<Analysis>, id: AnalysisId) {
    var i := AnalysisIndex(analyses, id);
    i < |analyses| && analyses[i].status == Available
  }

  /** A closing the service may send: a commit names its request's AVAILABLE analysis, a wait its retry time. */
  predicate HonestClosing(analyses: seq<Analysis>, closing: Closing) {
    && (closing.status in {Committed, Recovered} ==>
          && closing.requestId.Some? && closing.requestId.value.Some?
          && closing.analysisId == Some(AnalysisOf(closing.requestId.value.value))
          && PersistedAvailable(analyses, closing.analysisId.value))
    && (closing.status == WaitingProvider ==> closing.nextRetryAt.Some?)
  }

  predicate HonestRow(analyses: seq<Analysis>, row: Row) {
    && (row.status in {Committed, Recovered} ==>
          && row.requestId.Some? && row.analysisId == Some(AnalysisOf(row.requestId.value))
          && PersistedAvailable(analyses, row.analysisId.value))
    && (row.status == WaitingProvider ==> row.nextRetryAt.Some?)
  }

  ghost predicate HonestRows(w: World) {
    forall i | 0 <= i < |w.leases.table.rows| :: HonestRow(w.analyses, w.leases.table.rows[i])
  }

  ghost predicate HonestArtifacts(w: World) {
    forall r | r in w.artifacts ::
      && w.artifacts[r].requestId == r
      && (w.artifacts[r].status == CommittedArtifact ==>
            w.artifacts[r].analysisId.Some? && Persisted(w.analyses, w.artifacts[r].analysisId.value))
  }

  /** The claim a task believes it holds is one the protocol issued, for that key and worker. */
  predicate Holds(w: World, held: HeldClaim) {
    && held.claimId in w.leases.beliefs
    && w.leases.beliefs[held.claimId].key == held.key
    && w.leases.beliefs[held.claimId].worker == held.worker
  }

  predicate OwnAnalysis(job: Job, analysis: Analysis) {
    analysis.requestId == job.requestId && analysis.analysisId == AnalysisOf(job.requestId)
  }

  predicate HonestPc(w: World, job: Job, pc: Pc) {
    match pc
    case Ready => true
    case Done => true
    case Claimed(held) => Holds(w, held)
    case Prepared(held) => Holds(w, held)
    case Calling(held) => Holds(w, held)
    case Recovering(held, artifact) => Holds(w, held) && artifact.status == Validated
    case Received(held, artifact) => Holds(w, held) && artifact.status == ResponseReceived
    case ReceivedSaved(held, artifact) => Holds(w, held) && artifact.status == ResponseReceived
    case NormalizedSaved(held, artifact) => Holds(w, held) && artifact.status == Normalized
    case Rejecting(held, rejected, invalid) =>
      Holds(w, held) && rejected.status == ArtifactStatus.TerminalSchemaFailure && OwnAnalysis(job, invalid)
    case Refusing(held, rejected, closing) =>
      && Holds(w, held) && rejected.status == ArtifactStatus.TerminalSchemaFailure
      && HonestClosing(w.analyses, closing)
    case Analysed(held, analysis, artifact) => Holds(w, held) && OwnAnalysis(job, analysis)
    case Confirmed(held, analysis, artifact) => Holds(w, held) && OwnAnalysis(job, analysis)
    case Stored(held, analysis, _) => Holds(w, held) && OwnAnalysis(job, analysis) && StoredAs(w.analyses, analysis)
    case Published(held, analysis) => Holds(w, held) && OwnAnalysis(job, analysis) && StoredAs(w.analyses, analysis)
    case Finishing(held, closing) => Holds(w, held) && HonestClosing(w.analyses, closing)
  }

  predicate StoredAs(analyses: seq<Analysis>, analysis: Analysis) {
    var i := AnalysisIndex(analyses, analysis.analysisId);
    i < |analyses| && analyses[i] == analysis
  }

  ghost predicate HonestTasks(w: World) {
    forall t | t in w.tasks :: HonestPc(w, w.tasks[t].job, w.tasks[t].pc)
  }

  ghost predicate Inv(w: World) {
    LP.Inv(w.leases) && OneAnalysisEach(w.analyses) && HonestRows(w) && HonestArtifacts(w) && HonestTasks(w)
  }

  // ---- what grows stays honest ----

  lemma AnalysisStays(analyses: seq<Analysis>, analyses': seq<Analysis>, id: AnalysisId)
    requires analyses <= analyses' && Persisted(analyses, id)
    ensures AnalysisIndex(analyses', id) == AnalysisIndex(analyses, id)
  {}

  /** Every claim keeps its row and its worker. */
  ghost predicate SameOwners(s: LP.System, s': LP.System) {
    forall id | id in s.beliefs ::
      && id in s'.beliefs
      && s'.beliefs[id].key == s.beliefs[id].key && s'.beliefs[id].worker == s.beliefs[id].worker
  }

  lemma PcStaysHonest(w: World, w': World, job: Job, pc: Pc)
    requires w.analyses <= w'.analyses && HonestPc(w, job, pc)
    requires SameOwners(w.leases, w'.leases)
    ensures HonestPc(w', job, pc)
  {
    match pc
    case Refusing(_, _, closing) =>
      if closing.status in {Committed, Recovered} {
        AnalysisStays(w.analyses, w'.analyses, closing.analysisId.value);
      }
    case Stored(_, analysis, _) => AnalysisStays(w.analyses, w'.analyses, analysis.analysisId);
    case Published(_, analysis) => AnalysisStays(w.analyses, w'.analyses, analysis.analysisId);
    case Finishing(_, closing) =>
      if closing.status in {Committed, Recovered} {
        AnalysisStays(w.analyses, w'.analyses, closing.analysisId.value);
      }
    case _ =>
  }

  lemma OwnersStay(s: LP.System, action: LP.Action)
    requires LP.Inv(s) && LP.Enabled(s, action)
    ensures SameOwners(s, LP.Apply(s, action))
  {
    forall id | id in s.beliefs
      ensures var s' := LP.Apply(s, action);
        && id in s'.beliefs
        && s'.beliefs[id].key == s.beliefs[id].key && s'.beliefs[id].worker == s.beliefs[id].worker
    {
      LP.BeliefStep(s, action, id);
    }
  }

  lemma ClosedRowIsHonest(analyses: seq<Analysis>, row: Row, closing: Closing)
    requires HonestRow(analyses, row) && HonestClosing(analyses, closing)
    ensures HonestRow(analyses, Closed(row, closing))
  {}

  lemma RowsStayHonest(w: World, action: LP.Action, analyses': seq<Analysis>)
    requires HonestRows(w) && LP.Enabled(w.leases, action) && w.analyses <= analyses'
    requires action.CloseClaim? ==> HonestClosing(analyses', action.closing)
    ensures var rows' := LP.Apply(w.leases, action).table.rows;
      forall i | 0 <= i < |rows'| :: HonestRow(analyses', rows'[i])
  {
    HonestRowsGrow(w, analyses');
    if action.CloseClaim? {
      var t, key := w.leases.table, w.leases.beliefs[action.claimId].key;
      var i := IndexOf(t.rows, key);
      if i < |t.rows| { ClosedRowIsHonest(analyses', t.rows[i], action.closing); }
    }
  }

  lemma HonestRowsGrow(w: World, analyses': seq<Analysis>)
    requires HonestRows(w) && w.analyses <= analyses'
    ensures forall i | 0 <= i < |w.leases.table.rows| :: HonestRow(analyses', w.leases.table.rows[i])
  {}

  lemma ArtifactsStayHonest(w: World, analyses': seq<Analysis>)
    requires HonestArtifacts(w) && w.analyses <= analyses'
    ensures HonestArtifacts(w.(analyses := analyses'))
  {}

  // ---- one step keeps the invariant ----

  lemma LeaseStep(w: World, action: LP.Action)
    requires Inv(w) && LP.Enabled(w.leases, action)
    requires action.CloseClaim? ==> HonestClosing(w.analyses, action.closing)
    ensures Inv(w.(leases := LP.Apply(w.leases, action)))
    ensures SameOwners(w.leases, LP.Apply(w.leases, action))
  {
    var w' := w.(leases := LP.Apply(w.leases, action));
    LP.StepKeepsInv(w.leases, action);
    OwnersStay(w.leases, action);
    RowsStayHonest(w, action, w.analyses);
    forall t | t in w.tasks ensures HonestPc(w', w.tasks[t].job, w.tasks[t].pc) {
      PcStaysHonest(w, w', w.tasks[t].job, w.tasks[t].pc);
    }
  }

  lemma StoredIsFound(analyses: seq<Analysis>, stored: Analysis)
    requires OneAnalysisEach(analyses) && stored in analyses
    ensures StoredAs(analyses, stored)
  {}

  /** What a step must leave behind it. */
  ghost predicate HonestEffect(w: World, job: Job, effect: Effect) {
    && w.analyses <= effect.analyses && OneAnalysisEach(effect.analyses)
    && HonestArtifacts(w.(analyses := effect.analyses, artifacts := effect.artifacts))
    && HonestPc(w.(analyses := effect.analyses, artifacts := effect.artifacts), job, effect.pc)
  }

  ghost predicate HonestStores(w: World) {
    OneAnalysisEach(w.analyses) && HonestArtifacts(w)
  }

  lemma MovedIsHonest(w: World, job: Job, pc: Pc)
    requires HonestStores(w) && HonestPc(w, job, pc)
    ensures HonestEffect(w, job, Moved(w, pc))
  {}

  lemma GuardedSaveIsHonest(w: World, job: Job, held: HeldClaim, artifact: Artifact, event: Event, at: Time, next: Pc)
    requires HonestStores(w) && Holds(w, held) && HonestPc(w, job, next) && artifact.status != CommittedArtifact
    ensures HonestEffect(w, job, GuardedSave(w, job, held, artifact, event, at, next))
  {}

  lemma SavedArtifactIsHonest(w: World, artifact: Artifact)
    requires HonestArtifacts(w)
    requires artifact.status == CommittedArtifact ==>
      artifact.analysisId.Some? && Persisted(w.analyses, artifact.analysisId.value)
    ensures SaveArtifact(w.artifacts, artifact).Ok? ==>
      HonestArtifacts(w.(artifacts := SaveArtifact(w.artifacts, artifact).value))
  {}

  lemma BareSaveIsHonest(w: World, job: Job, artifact: Artifact, next: Pc)
    requires HonestStores(w) && HonestPc(w, job, next)
    requires artifact.status == CommittedArtifact ==>
      artifact.analysisId.Some? && Persisted(w.analyses, artifact.analysisId.value)
    ensures HonestEffect(w, job, BareSave(w, artifact, next))
  {
    SavedArtifactIsHonest(w, artifact);
    PcStaysHonest(w, w.(artifacts := BareSave(w, artifact, next).artifacts), job, next);
  }

  lemma ConfirmedStepIsHonest(w: World, job: Job, pc: Pc, event: Event, at: Time)
    requires HonestStores(w) && HonestPc(w, job, pc) && pc.Confirmed?
    ensures HonestEffect(w, job, StepTask(w, Task(job, pc), event, at))
  {
    SaveAnalysisAppends(w.analyses, pc.analysis);
    if SaveAnalysis(w.analyses, pc.analysis).Ok? && !event.Fault? {
      var (analyses', stored) := SaveAnalysis(w.analyses, pc.analysis).value;
      ArtifactsStayHonest(w, analyses');
      StoredIsFound(analyses', stored);
    }
  }

  lemma AfterCallIsHonest(w: World, job: Job, held: HeldClaim, event: Event, at: Time)
    requires Holds(w, held)
    ensures HonestPc(w, job, AfterCall(job, held, event, at))
  {}

  /** Steps that save an artifact. */
  lemma SavingStepIsHonest(w: World, job: Job, pc: Pc, event: Event, at: Time)
    requires HonestStores(w) && HonestPc(w, job, pc)
    requires pc.Recovering? || pc.Received? || pc.ReceivedSaved? || pc.NormalizedSaved?
    ensures HonestEffect(w, job, StepTask(w, Task(job, pc), event, at))
  {
    var artifact := pc.artifact;
    var analysis := AnalysisFor(job, Available, artifact.providerOutput, at);
    match pc
    case Recovering(held, _) =>
      GuardedSaveIsHonest(w, job, held, artifact, event, at, Analysed(held, analysis, Some(artifact)));
    case Received(held, _) =>
      GuardedSaveIsHonest(w, job, held, artifact, event, at, ReceivedSaved(held, artifact));
    case ReceivedSaved(held, _) =>
      var normalized := artifact.(status := Normalized, normalizedOutput := Some(artifact.providerOutput));
      GuardedSaveIsHonest(w, job, held, normalized, event, at, NormalizedSaved(held, normalized));
    case NormalizedSaved(held, _) =>
      var validated := artifact.(status := Validated);
      GuardedSaveIsHonest(w, job, held, validated, event, at, Analysed(held, analysis, Some(validated)));
  }

  lemma EndingStepIsHonest(w: World, job: Job, pc: Pc, event: Event, at: Time)
    requires HonestStores(w) && HonestPc(w, job, pc)
    requires pc.Rejecting? || pc.Refusing? || pc.Stored?
    ensures HonestEffect(w, job, StepTask(w, Task(job, pc), event, at))
  {
    match pc
    case Rejecting(held, rejected, invalid) => BareSaveIsHonest(w, job, rejected, Analysed(held, invalid, None));
    case Refusing(held, rejected, closing) => BareSaveIsHonest(w, job, rejected, Finishing(held, closing));
    case Stored(held, analysis, attached) =>
      if attached.Some? {
        var committed := attached.value.(status := CommittedArtifact, analysisId := Some(analysis.analysisId));
        BareSaveIsHonest(w, job, committed, Published(held, analysis));
      } else {
        MovedIsHonest(w, job, Published(held, analysis));
      }
  }

  /** Steps that only move the program counter (or the lease). */
  lemma MovingStepIsHonest(w: World, job: Job, pc: Pc, event: Event, at: Time)
    requires HonestStores(w) && HonestPc(w, job, pc)
    requires pc.Claimed? || pc.Prepared? || pc.Calling? || pc.Analysed? || pc.Published? || pc.Finishing? || pc.Done?
    ensures HonestEffect(w, job, StepTask(w, Task(job, pc), event, at))
  {
    if pc.Calling? { AfterCallIsHonest(w, job, pc.held, event, at); }
    var effect := StepTask(w, Task(job, pc), event, at);
    assert HonestPc(w, job, effect.pc);
    MovedIsHonest(w, job, effect.pc);
  }

  lemma StepIsHonest(w: World, task: Task, event: Event, at: Time)
    requires HonestStores(w) && HonestPc(w, task.job, task.pc) && !task.pc.Ready?
    ensures HonestEffect(w, task.job, StepTask(w, task, event, at))
  {
    var Task(job, pc) := task;
    if pc.Confirmed? { ConfirmedStepIsHonest(w, job, pc, event, at); }
    else if pc.Recovering? || pc.Received? || pc.ReceivedSaved? || pc.NormalizedSaved? {
      SavingStepIsHonest(w, job, pc, event, at);
    } else if pc.Rejecting? || pc.Refusing? || pc.Stored? { EndingStepIsHonest(w, job, pc, event, at); }
    else { MovingStepIsHonest(w, job, pc, event, at); }
  }

  lemma PcAfterAcquire(w: World, job: Job, at: Time)
    requires Inv(w) && LP.Enabled(w.leases, LP.Acquire(job.claim.(at := at)))
    ensures HonestPc(w.(leases := LP.Apply(w.leases, LP.Acquire(job.claim.(at := at)))), job,
                     StepTask(w, Task(job, Ready), Succeed, at).pc)
  {}

  lemma TasksStayHonest(w: World, w': World, except: set<TaskId>)
    requires HonestTasks(w) && w.analyses <= w'.analyses && SameOwners(w.leases, w'.leases)
    requires forall t | t in w'.tasks && t !in except :: t in w.tasks && w'.tasks[t] == w.tasks[t]
    requires forall t | t in w'.tasks && t in except :: HonestPc(w', w'.tasks[t].job, w'.tasks[t].pc)
    ensures HonestTasks(w')
  {
    forall t | t in w'.tasks && t !in except ensures HonestPc(w', w'.tasks[t].job, w'.tasks[t].pc) {
      PcStaysHonest(w, w', w.tasks[t].job, w.tasks[t].pc);
    }
  }

  lemma TaskStepKeepsInv(w: World, moved: World, task: TaskId, event: Event, at: Time)
    requires Inv(w) && Enabled(w, Step(task, event, at))
    requires moved == w.(leases := Apply(w, Step(task, event, at)).leases)
    requires Inv(moved) && SameOwners(w.leases, moved.leases)
    ensures Inv(Apply(w, Step(task, event, at))) && w.analyses <= Apply(w, Step(task, event, at)).analyses
  {
    var w' := Apply(w, Step(task, event, at));
    var before := w.tasks[task];
    var effect := StepTask(w, before, event, at);
    if before.pc.Ready? {
      PcAfterAcquire(w, before.job, at);
      PcStaysHonest(moved, w', before.job, effect.pc);
    } else {
      StepIsHonest(w, before, event, at);
      PcStaysHonest(w.(analyses := effect.analyses, artifacts := effect.artifacts), w', before.job, effect.pc);
    }
    HonestRowsGrow(moved, w'.analyses);
    TasksStayHonest(moved, w', {task});
  }

  lemma TaskClosingIsHonest(w: World, task: Task, at: Time)
    requires HonestPc(w, task.job, task.pc) && LeaseAction(task, at).Some?
    ensures LeaseAction(task, at).value.CloseClaim? ==>
      HonestClosing(w.analyses, LeaseAction(task, at).value.closing)
  {}

  lemma ClosingIsHonest(w: World, action: Action)
    requires Inv(w) && Enabled(w, action) && Project(w, action).Some?
    ensures Project(w, action).value.CloseClaim? ==> HonestClosing(w.analyses, Project(w, action).value.closing)
  {
    if action.Step? {
      assert HonestPc(w, w.tasks[action.task].job, w.tasks[action.task].pc);
      TaskClosingIsHonest(w, w.tasks[action.task], action.at);
    }
  }

  lemma StepKeepsInv(w: World, action: Action)
    requires Inv(w) && Enabled(w, action)
    ensures Inv(Apply(w, action)) && w.analyses <= Apply(w, action).analyses
    ensures SameOwners(w.leases, Apply(w, action).leases)
  {
    var moved := w;
    if Project(w, action).Some? {
      ClosingIsHonest(w, action);
      LeaseStep(w, Project(w, action).value);
      moved := w.(leases := LP.Apply(w.leases, Project(w, action).value));
    }
    if action.Step? {
      TaskStepKeepsInv(w, moved, action.task, action.event, action.at);
    } else if action.Spawn? || action.Crash? {
      TasksStayHonest(w, Apply(w, action), {action.task});
    }
  }

  lemma {:induction false} RunKeepsInv(w: World, run: seq<Action>)
    requires Inv(w) && Executable(w, run)
    ensures Inv(After(w, run)) && w.analyses <= After(w, run).analyses
    decreases |run|
  {
    if run != [] {
      StepKeepsInv(w, run[0]);
      RunKeepsInv(Apply(w, run[0]), run[1..]);
    }
  }

  lemma StartIsHonest()
    ensures Inv(INITIAL)
  {}

  // ---- main results ----

  /** In every interleaving with crashes and take-overs: one analysis per request and per logical identity; every
    * COMMITTED or RECOVERED row names the persisted AVAILABLE analysis of its own request; every COMMITTED
    * artifact names a persisted analysis. */
  lemma PersistenceIsCrashTolerant(run: seq<Action>)
    requires Executable(INITIAL, run)
    ensures var w := After(INITIAL, run);
      && OneAnalysisEach(w.analyses)
      && (forall i | 0 <= i < |w.leases.table.rows| && w.leases.table.rows[i].status in {Committed, Recovered} ::
            && w.leases.table.rows[i].requestId.Some?
            && exists a | a in w.analyses ::
                 && Some(a.analysisId) == w.leases.table.rows[i].analysisId
                 && a.requestId == w.leases.table.rows[i].requestId.value && a.status == Available)
      && (forall r | r in w.artifacts && w.artifacts[r].status == CommittedArtifact ::
            exists a | a in w.analyses :: Some(a.analysisId) == w.artifacts[r].analysisId)
  {
    StartIsHonest();
    RunKeepsInv(INITIAL, run);
    var w := After(INITIAL, run);
    forall i | 0 <= i < |w.leases.table.rows| && w.leases.table.rows[i].status in {Committed, Recovered}
      ensures w.leases.table.rows[i].requestId.Some?
      ensures exists a | a in w.analyses ::
                 && Some(a.analysisId) == w.leases.table.rows[i].analysisId
                 && a.requestId == w.leases.table.rows[i].requestId.value && a.status == Available
    {
      var row := w.leases.table.rows[i];
      assert HonestRow(w.analyses, row);
      var a := w.analyses[AnalysisIndex(w.analyses, row.analysisId.value)];
      assert a in w.analyses && a.analysisId == AnalysisOf(a.requestId);
    }
    forall r | r in w.artifacts && w.artifacts[r].status == CommittedArtifact
      ensures exists a | a in w.analyses :: Some(a.analysisId) == w.artifacts[r].analysisId
    {
      var a := w.analyses[AnalysisIndex(w.analyses, w.artifacts[r].analysisId.value)];
      assert a in w.analyses;
    }
  }

  lemma StepKeepsOutputs(w: World, action: Action, r: RequestId)
    requires Enabled(w, action) && r in w.artifacts
    ensures var w' := Apply(w, action);
      r in w'.artifacts && w'.artifacts[r].providerOutput == w.artifacts[r].providerOutput
  {}

  /** A stored provider output never changes. */
  lemma {:induction false} ProviderOutputIsImmutable(w: World, run: seq<Action>, r: RequestId)
    requires Executable(w, run) && r in w.artifacts
    ensures r in After(w, run).artifacts
    ensures After(w, run).artifacts[r].providerOutput == w.artifacts[r].providerOutput
    decreases |run|
  {
    if run != [] {
      StepKeepsOutputs(w, run[0], r);
      ProviderOutputIsImmutable(Apply(w, run[0]), run[1..], r);
    }
  }

  /** A persisted analysis stays persisted, unchanged and at its place. */
  lemma AnalysesAreAppendOnly(before: seq<Action>, later: seq<Action>)
    requires Executable(INITIAL, before) && Executable(After(INITIAL, before), later)
    ensures After(INITIAL, before).analyses <= After(After(INITIAL, before), later).analyses
  {
    StartIsHonest();
    RunKeepsInv(INITIAL, before);
    RunKeepsInv(After(INITIAL, before), later);
  }

  /** Every row a reachable world holds is one on which the two claim implementations take the same decision. */
  lemma ReachableRowsAgree(run: seq<Action>, i: nat, at: Time)
    requires Executable(INITIAL, run) && i < |After(INITIAL, run).leases.table.rows|
    ensures var row := After(INITIAL, run).leases.table.rows[i];
      ClaimSql.Producible(row) && ClaimSql.SqlDecide(row, at) == Decide(row, at)
  {
    StartIsHonest();
    RunKeepsInv(INITIAL, run);
    var row := After(INITIAL, run).leases.table.rows[i];
    assert HonestRow(After(INITIAL, run).analyses, row);
    ClaimSql.ImplementationsAgree(row);
  }

  /** The lease actions of a run, in order. */
  ghost function LeaseRun(w: World, run: seq<Action>): seq<LP.Action>
    requires Executable(w, run)
    decreases |run|
  {
    if run == [] then []
    else (if Project(w, run[0]).Some? then [Project(w, run[0]).value] else []) + LeaseRun(Apply(w, run[0]), run[1..])
  }

  /** The process refines the lease protocol, so everything proved of protocol runs holds of process runs. */
  lemma {:induction false} ProcessRefinesLeaseProtocol(w: World, run: seq<Action>)
    requires Executable(w, run)
    ensures LP.Executable(w.leases, LeaseRun(w, run))
    ensures LP.After(w.leases, LeaseRun(w, run)) == After(w, run).leases
    decreases |run|
  {
    if run != [] {
      var rest := LeaseRun(Apply(w, run[0]), run[1..]);
      ProcessRefinesLeaseProtocol(Apply(w, run[0]), run[1..]);
      if Project(w, run[0]).Some? {
        assert LeaseRun(w, run)[1..] == rest;
      } else {
        assert LeaseRun(w, run) == rest;
      }
    }
  }
}

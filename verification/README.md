# Ten: a verified model of the analysis core

Ten runs an AI analysis worker on a five-minute cycle: several worker processes compete for a cycle, one of them asks a
pool of four provider accounts for a structured answer, the answer is normalised, checked against catalogs of evidence
and zones, stored, and turned into a signal whose outcome is followed candle by candle. A separate set of scripts prepares
price bars and training samples. This project models the parts of that system with the most state and the most
branching, and proves what they promise.

Run `dafny verify dfyconfig.toml` in this directory.

| file | what it models |
|---|---|
| `Domain`, `Reals` | types and comparisons shared by the modules |
| `ClaimTable`, `ClaimSql` | one call on the claim table: in memory, and as the SQL statements |
| `ClaimAnswers` | what each call leaves in a row, and what later claims of it are answered |
| `LeaseProtocol` | any number of workers over the claim table: leases, fencing, take-over, closing |
| `StoredResults` | first-writer-wins storage of analyses and provider outputs |
| `ReasoningProcess` | `process` as a step machine with crashes, take-overs and interleavings |
| `ProcessOwnership`, `CommittedArtifacts` | which task owns a row; what a committed response says of its analysis |
| `ResponseContent`, `UndisturbedTasks` | where an analysis' content comes from; how an undisturbed task ends |
| `ProcessClosings`, `ProcessFailures` | how failed work ends: which rows wait, which stay closed, which are released |
| `Repository` | the in-memory repository object, its methods proved against the functions above |
| `SignalOutcomes`, `OutcomeBook` | the outcome of one signal, and the book of all signals |
| `SignalResults`, `OutcomeRuns` | what an outcome's numbers mean in prices; a stored outcome is its signal's own run |
| `MarketCandles`, `MarketEvidence` | where a cycle's candle comes from: payload validator, evidence frames, synchronised state |
| `JsonSchemas`, `Normalizer`, `NormalizerLaws`, `NormalizerMeaning`, `CompactContract` | the schema-directed shape normaliser |
| `TextRules`, `RegimeTokens`, `EnumLabels`, `OutputShapes` | what it does to texts, labels and fields of the contract, by name |
| `Catalogs`, `References`, `WireOutput`, `Resolver` | catalogs, reference checks, resolution, response validation |
| `CatalogEntries` | what the entries of the catalogs show of the request |
| `WireRoundTrip`, `WireReading` | the dump of a parsed response, which is stored and validated again on recovery, and reading it back |
| `ProviderAttempts`, `AttemptRecords` | one account: first call, at most one follow-up, counters and records |
| `AccountPool`, `PoolRouting`, `ProviderPool` | circuit breakers, rotation with failover, the pool object |
| `PoolFailures` | what each failure means for the pool, reason by reason |
| `Samples`, `MarketBars` | the sample builder and the bar preparation |
| `BoundedSets` | the bounded recency set |

What the proofs turned up, beyond the properties the code was written for:

- A release after the worker's own commit reopens the row (`LeaseProtocol.SecondClosingReopensACommittedRow`; exactly
  which step rewrites a closed row: `LeaseProtocol.TerminalRowStep`).
- The SQL claim picks one of several conflicting rows without an order. It agrees with the in-memory claim whichever row
  it picks if and only if no two rows conflict (`ClaimSql.ClaimsAgree`). Requests of the service can make two rows
  conflict: two trigger timeframes in one window, one of them on a later state (`ClaimSql.TwoMatchesMayDisagree`).
- A COMMITTED artifact can name a failed analysis. The step that causes it saves a response inside the guarded block, and
  it does so exactly when the stored output differs, storage fails or accounting fails after the save
  (`CommittedArtifacts.SavingStepFailsExactly`); the run from the start is in
  `CommittedArtifacts.CommittedArtifactMayNameAFailedAnalysis`, and runs without such a step commit only to available
  analyses (`CommittedArtifacts.CalmRunsCommitAvailable`).
- A cycle without a numeric candle leaves an earlier live signal active (exact condition:
  `OutcomeBook.CycleKeepsOneActive`). A later numeric cycle finishes it, unless a hundred newer signals hide it from the
  listing (`OutcomeBook.OldestIsStrandedExactly`). The service's own capture never produces such a cycle, because every
  synchronised state carries a validated candle (`MarketCandles.ProducedStateHasItsCandle`); it takes a state that was
  stored by something else.
- The kept failure times of an account are its full history cut to the window, at every point, if and only if no failure
  outside the window at one failure is inside it at the next (`AccountPool.HistoryIsRefinedExactly`); a clock that goes
  back can break that (`AccountPool.ClockMustNotGoBack`).
- A metadata read makes an account eligible for a request that read its clock earlier, exactly when a cooldown ended in
  between (`AccountPool.MetadataReachesOlderRequests`).
- The train, validation and test labels are disjoint for all bars exactly when the training boundary lies at most one bar
  after the validation boundary; the builder does not check the boundaries (`Samples.SplitsShareNoLabel`).
- The evidence catalog's cap of twenty is never reached: there are at most nineteen entries
  (`Catalogs.EvidenceCatalogShape`).
- One mapping with an empty leading reason among the first eighteen makes the whole catalog fail; exactly when:
  `CatalogEntries.CatalogFailsExactly`.

Instants come from one clock that does not go back. Repository calls are atomic, as the repository's lock makes them.
Prices are reals.

## Model

| member | source | states |
|---|---|---|
| ClaimTable.ClaimKeepsValid | backend/app/ai_reasoning/repository.py:411-433 | no claim ever leaves two rows with the same window identity, state identity, key or claim id |
| ClaimTable.HeartbeatKeepsValid | backend/app/ai_reasoning/repository.py:506-521 | a heartbeat keeps those identities and every row in place |
| ClaimTable.CloseKeepsValid | backend/app/ai_reasoning/repository.py:523-542 | so does a release or a fenced completion |
| ClaimTable.ClaimExtendsExactly | backend/app/ai_reasoning/repository.py:483-504 | a claim keeps every stored row if and only if it matches a row or its key is new to other instruments |
| ClaimTable.ResolutionIsStable | backend/app/ai_reasoning/repository.py:411-433 | a request that resolved to a row resolves to that row in every extension of the table |
| ClaimTable.AcquiredRowResolves | backend/app/ai_reasoning/repository.py:411-504 | after a claim, its request resolves to the row it returned, which is stored under its key |
| ClaimTable.ServiceKeysFit | backend/app/ai_reasoning/service.py:75-97 | in a table filled by the service, equal keys belong to equal instruments, because the key holds a state hash over the instrument |
| ClaimTable.ServiceClaimsExtend | backend/app/market_state/service.py:148-157 | so every claim of the service keeps all stored rows, and the table stays one that the service fills |
| ClaimTable.SameStateSameWindow | backend/app/ai_reasoning/service.py:75-97 | requests for one state share instrument and window; their keys are equal iff timeframe and contract are |
| ClaimAnswers.ClosingIsRecorded | backend/app/ai_reasoning/repository.py:523-542 | after a closing the row has exactly the given status, analysis, reason and retry time, no holder, and keeps its request id on a release; every other row stays; without the claim id nothing changes |
| ClaimAnswers.AcquisitionIsRecorded | backend/app/ai_reasoning/repository.py:434-504 | after a claim the row is held by the requester for the lease under a fresh id; a take-over counts and names the old claim and keeps request and analysis, a first claim brings a row without a past |
| ClaimAnswers.HeartbeatIsRecorded | backend/app/ai_reasoning/repository.py:506-521 | only the live holder is heard, and only the two instants of its row move |
| ClaimAnswers.AnswersExactly | backend/app/ai_reasoning/repository.py:434-482 | each outcome of a claim, if and only if, in terms of the columns of the row it finds |
| ClaimAnswers.WaitingRowReopensExactly | backend/app/ai_reasoning/repository.py:440-482 | a row closed as WAITING_PROVIDER with retry time r: a later claim is refused with PROVIDER_COOLDOWN iff it comes before r, and takes over otherwise |
| ClaimAnswers.OtherClosingsAnswer | backend/app/ai_reasoning/repository.py:434-482 | committed and failed rows refuse every later claim under their own outcome, a released one lets the next in at once |
| ClaimAnswers.ClaimIsHeldExactly | backend/app/ai_reasoning/repository.py:434-504 | after a claim a rival for the same work is refused iff it comes within the lease, and takes over from its end on |
| ClaimAnswers.HeartbeatHoldsExactly | backend/app/ai_reasoning/repository.py:506-521 | a heartbeat moves that end to its own instant plus its lease |
| ClaimAnswers.OnlyTheSameWorkIsHeldOff | backend/app/ai_reasoning/repository.py:411-433 | beside one claimed row a request is held off iff instrument and key, window under a contract, or state under a contract agree |
| ClaimSql.ImplementationsAgree | backend/app/ai_reasoning/repository.py:1222-1275 | SQL update plus outcome expression decide as the in-memory chain at all instants, if and only if the row is one the service can write |
| ClaimSql.StaleClaimNeedsARace | backend/app/ai_reasoning/repository.py:1261-1274 | STALE_CLAIM is answered only when the row changed between update and refresh; then the answer is the in-memory one for the refreshed row, or says it is held or stale |
| ClaimSql.ClaimsAgree | backend/app/ai_reasoning/repository.py:1160-1275 | on producible rows the whole SQL call and the whole in-memory call give the same acquisition, outcome and table for every row the database may pick, if and only if no two rows conflict |
| ClaimSql.TwoMatchesMayDisagree | backend/app/ai_reasoning/repository.py:1215-1221 | a table made by three service requests on which a pick takes over while the in-memory call refuses |
| LeaseProtocol.LeaseExclusion | backend/app/ai_reasoning/service.py:174-232 | in every reachable state an unclosed claim within its lease owns its ACTIVE_CLAIM row, and no other live claim has that row |
| LeaseProtocol.AcquisitionsAreConserved | backend/app/ai_reasoning/repository.py:434-504 | per row, acquisitions = 1 + expired_claim_count, in every reachable state |
| LeaseProtocol.RowIdentityIsStable | backend/app/ai_reasoning/repository.py:411-433 | over all runs identities stay distinct and requests keep resolving to the same row |
| LeaseProtocol.OldClaimsAreFenced | backend/app/ai_reasoning/repository.py:506-542 | after a take-over no heartbeat or closing under the old claim id ever changes the table |
| LeaseProtocol.TerminalRefusesAlways | backend/app/ai_reasoning/repository.py:434-482 | a row is terminal if and only if no instant allows a take-over or a wait |
| LeaseProtocol.TerminalRowStep | backend/app/ai_reasoning/repository.py:523-542 | a step changes a terminal row if and only if its own claim id closes it again with other contents |
| LeaseProtocol.TerminalRowsStayClosed | backend/app/ai_reasoning/service.py:1115-1147 | if each claim id is closed at most once, the acquisition that ended a row is the last it ever has |
| LeaseProtocol.SecondClosingReopensACommittedRow | backend/app/ai_reasoning/service.py:234-259 | without that, a shutdown release after a commit lets another worker acquire the row |
| StoredResults.SaveAnalysisAppends | backend/app/ai_reasoning/repository.py:681-702 | saving appends, finds the equal payload, or reports the conflict; it never rewrites |
| StoredResults.SaveAnalysisIsIdempotent | backend/app/ai_reasoning/repository.py:681-702 | a retried save returns the stored analysis and changes nothing |
| StoredResults.SaveIsDecidedByColumns | backend/app/ai_reasoning/repository.py:681-702 | which columns make two analyses one work, and which must agree for the later one to be accepted instead of refused |
| ReasoningProcess.PersistenceIsCrashTolerant | backend/app/ai_reasoning/service.py:597-1347 | over all interleavings with crashes: one analysis per request and per logical identity, finished rows name their available analysis, committed artifacts a persisted one |
| ReasoningProcess.ProviderOutputIsImmutable | backend/app/ai_reasoning/repository.py:704-718 | a stored provider output never changes over any run |
| ReasoningProcess.AnalysesAreAppendOnly | backend/app/ai_reasoning/repository.py:681-702 | a persisted analysis keeps its content and place over any run |
| ReasoningProcess.ReachableRowsAgree | migrations/versions/20260731_0022_ai_provider_retry_schedule.py:33-38 | on every row of every reachable state the two claim implementations decide alike |
| ResponseContent.StoredResponsesAreRecovered | backend/app/ai_reasoning/service.py:607-660 | in every reachable state a prepared task asks the provider iff no reusable response of its request is stored; otherwise it goes on with exactly the stored output |
| ResponseContent.AvailableAnalysesSayTheirResponse | backend/app/ai_reasoning/service.py:597-900 | in every reachable state an AVAILABLE analysis, stored or at hand, says exactly what the stored response of its request says |
| ResponseContent.UndisturbedSavesAnalyse | backend/app/ai_reasoning/service.py:607-660 | an undisturbed recovery or last save builds the AVAILABLE analysis of exactly its response |
| UndisturbedTasks.StoredResponseIsCommitted | backend/app/ai_reasoning/service.py:607-660 | a task that finds a stored response and is left alone commits the analysis of exactly that response, without a provider call |
| UndisturbedTasks.AnswerIsCommitted | backend/app/ai_reasoning/service.py:597-1347 | a task whose call is answered and that is left alone commits the analysis of exactly that answer |
| ProcessClosings.FailedCallsEnd | backend/app/ai_reasoning/service.py:1115-1147 | which provider failures close a row for good as FAILED_SCHEMA or FAILED and which let it wait, until exactly which retry time, if and only if, reason by reason |
| ProcessClosings.RefusedCallsEnd | backend/app/ai_reasoning/service.py:1040-1058 | a call refused by the preflight ends the work as FAILED |
| ProcessClosings.PassingFailuresWaitExactly | backend/app/ai_reasoning/service.py:309-323 | from the failing call to the next claim, in any reachable state: later claims wait exactly until the retry time and take over from then on |
| ProcessClosings.RecoveredExactlyAfterATakeover | backend/app/ai_reasoning/service.py:1342-1348 | in every reachable state a finished row says RECOVERED iff a take-over finished it |
| ProcessFailures.ConstructionFaultEnds | backend/app/ai_reasoning/service.py:575-596 | a request that cannot be built ends the work with no request named |
| ProcessFailures.PersistenceFaultEnds | backend/app/ai_reasoning/service.py:1191-1212 | an analysis that cannot be stored ends the work with nothing stored, iff storage fails or a stored analysis of the same work says something else |
| ProcessFailures.PublishedEnds | backend/app/ai_reasoning/service.py:1225-1347 | how a published analysis closes its row: not available, gate or signal not stored, committed or recovered |
| ProcessFailures.BareSaveEnds | backend/app/ai_reasoning/service.py:1213-1224 | a conflict outside the guarded block ends the task with nothing stored and its claim left to expire |
| ProcessFailures.FailedWorkIsRefused | backend/app/ai_reasoning/service.py:1225-1347 | in any reachable state, once failed work is closed every later claim of its row is refused for good |
| ProcessFailures.OutsideClosingsAnswer | backend/app/ai_reasoning/service.py:174-259 | in any reachable state: after the runtime limit no claim gets the row again, after a shutdown the next one takes it over at once |
| ProcessOwnership.OneTaskPersistsPerRow | backend/app/ai_reasoning/service.py:1115-1347 | in every reachable state, of two different tasks between their confirmed heartbeat and their closing on one row at most one has a live claim, and that one owns the row |
| CommittedArtifacts.SavingStepFailsExactly | backend/app/ai_reasoning/service.py:597-900 | a saving step goes on with a failed analysis and an attached response iff the stored output differs, storage fails or accounting fails after the save |
| CommittedArtifacts.CalmRunsCommitAvailable | backend/app/ai_reasoning/service.py:597-1347 | over any run without such a step every COMMITTED response names an AVAILABLE analysis |
| CommittedArtifacts.CommittedArtifactMayNameAFailedAnalysis | backend/app/ai_reasoning/service.py:597-1347 | for every job of the service a run from the start commits its response to its failed analysis |
| Repository.InMemoryRepository.ClaimReasoningCycle | backend/app/ai_reasoning/repository.py:393-504 | the method's new table and answer are those of the claim function |
| Repository.InMemoryRepository.HeartbeatReasoningCycle | backend/app/ai_reasoning/repository.py:506-521 | renews exactly the row held under that claim id, worker and status |
| Repository.InMemoryRepository.ReleaseReasoningCycle | backend/app/ai_reasoning/repository.py:523-542 | closes exactly the row held under that claim id, with the values that `ClosingIsRecorded` names |
| Repository.InMemoryRepository.CompleteAnalysisCycle | backend/app/ai_reasoning/repository.py:629-655 | closes exactly the row held under that claim id; without a claim id, the row of the key whoever holds it; KeyError without a row |
| Repository.InMemoryRepository.SaveMarketAnalysis | backend/app/ai_reasoning/repository.py:681-702 | the stored analyses and the answer are those of the save function, or the conflict and no change |
| Repository.InMemoryRepository.SaveResponseArtifact | backend/app/ai_reasoning/repository.py:704-718 | stores the artifact unless the provider output differs, which is the conflict and no change |
| SignalOutcomes.OutcomeBounds | backend/app/ai_reasoning/signal_outcomes.py:52-172 | over any ordered candle run no assertion fails and a finished trade satisfies -MAE <= P&L <= MFE, risk/reward >= -1, exactly -1 on a stop, never both flags |
| SignalOutcomes.StepSettlesOrStaysOpen | backend/app/ai_reasoning/signal_outcomes.py:72-172 | one candle leaves a trade open or settled, excursions never shrink, a target needs an earlier entry |
| SignalOutcomes.BuyCandleRules | backend/app/ai_reasoning/signal_outcomes.py:72-147 | which status and P&L a BUY candle gives, if and only if, in terms of the prices alone |
| SignalOutcomes.FinishedOutcomesAreFinal | backend/app/ai_reasoning/signal_outcomes.py:63-68 | no further candle changes a finished outcome |
| SignalOutcomes.TargetNeedsEarlierEntry | backend/app/ai_reasoning/signal_outcomes.py:72-125 | TARGET_HIT implies an earlier candle of the run after which the trade was open and entered |
| SignalOutcomes.EligibleSignalsAreTradable | backend/app/ai_reasoning/analysis.py:428-471 | the signal validator gives every eligible signal the geometry the evaluator asserts |
| SignalOutcomes.CandleKeepsBoundsExactlyWhenOrdered | backend/app/ai_reasoning/signal_outcomes.py:72-172 | one candle keeps every open outcome of every tradable signal in its bounds iff its close lies within its range |
| SignalOutcomes.RunsKeepBoundsExactlyWhenOrdered | backend/app/ai_reasoning/signal_outcomes.py:52-172 | the bounds of all accepted signals and all ordered runs survive one more candle iff it is ordered |
| SignalOutcomes.MirrorSymmetry | backend/app/ai_reasoning/signal_outcomes.py:72-172 | reflecting all prices turns a BUY run into a SELL run with the same outcome after every candle |
| SignalResults.AcceptedExactly | backend/app/ai_reasoning/analysis.py:428-471 | which signals the validator accepts, if and only if, by side, eligibility, blockers and geometry |
| SignalResults.StartsAs | backend/app/ai_reasoning/signal_outcomes.py:18-50 | where an outcome starts: completed for a HOLD or a blocked trade, active otherwise |
| SignalResults.StatusOfCandle | backend/app/ai_reasoning/signal_outcomes.py:72-147 | either side: which status a candle gives, if and only if, in terms of touched prices and instants |
| SignalResults.ResultOfCandle | backend/app/ai_reasoning/signal_outcomes.py:92-147 | the P&L of each ending, in prices |
| SignalResults.RatioOfCandle | backend/app/ai_reasoning/signal_outcomes.py:147-172 | a finished outcome satisfies risk/reward * |entry - stop| = P&L: the actual ratio, not the planned one |
| SignalResults.ReasonOfCandle | backend/app/ai_reasoning/signal_outcomes.py:92-147 | the reason code fits the status, and says exactly when a candle left the order of its touches open |
| SignalResults.OutcomeIsExplained | backend/app/ai_reasoning/signal_outcomes.py:52-172 | over any run of an accepted signal to its finish: entry at the first candle that touches it, MFE and MAE the largest excursions from there on, holding time from there to the finish, risk/reward times risk = P&L |
| MarketCandles.AcceptedPayloadIsOrdered | backend/app/integration/models.py:88-97 | exactly which prices the payload validator accepts; an accepted candle is ordered |
| MarketCandles.ProducedStateHasItsCandle | backend/app/market_state/service.py:126-245 | every state synchronised from captures yields a candle: that of a validated payload of the instrument, as new as any frame knowable by then |
| MarketCandles.ProducedStatesKeepBounds | backend/app/ai_reasoning/service.py:1512-1577 | on such states every run of every accepted signal stays in its bounds |
| MarketCandles.ProducedStatesKeepOneActive | backend/app/ai_reasoning/service.py:1512-1577 | on such states only the newest signal of an instrument is ever active |
| MarketCandles.CompactRowsRestoreTheState | backend/app/market_state/repository.py:59-121 | round trip: evidence rows stored without payloads and the frames give back the items that were synchronised |
| MarketEvidence.CaptureSeesNoFuture | backend/app/market_state/service.py:234-270 | a capture succeeds iff neither the candle nor any engine output reaches beyond its cutoff |
| MarketEvidence.FrameIsStoredExactly | backend/app/market_state/service.py:104-124 | exactly which envelopes store a frame, and that it is the frame of the candle |
| MarketEvidence.LatestFrameIsNewest | backend/app/market_state/repository.py:147-157 | among knowable frames of equal close the one taken has the newest cutoff |
| MarketEvidence.LatestFrameIsUsable | backend/app/market_state/repository.py:147-157 | a frame is found iff one of the instrument and timeframe closed by the boundary and was captured by the cutoff, and it is such a one |
| MarketEvidence.StatesKnowNoFuture | backend/app/market_state/service.py:126-245 | no look-ahead, end to end: every item of a synchronised state belongs to a capture that knew nothing after the knowledge cutoff |
| MarketEvidence.StaleExactlyWhenBehind | backend/app/market_state/service.py:158-222 | an item of a synchronised state is STALE iff it was available at capture and no knowable frame closes at its timeframe end |
| MarketEvidence.AlignedIsTheLastMultiple | backend/app/market_state/service.py:78-85 | the end of a timeframe is the last whole multiple of its minutes |
| OutcomeBook.Book.CompleteCycle | backend/app/ai_reasoning/service.py:1501-1577 | a cycle stores the signal, opens its outcome and supersedes the listed ones; a failed assertion leaves what was stored until then |
| OutcomeBook.NewestTwoAreListed | backend/app/ai_reasoning/repository.py:841-873 | the limited listing always contains the newest two signals of the instrument |
| OutcomeBook.SupersedeFinishes | backend/app/ai_reasoning/service.py:1538-1577 | the loop finishes every listed outcome but the current one and touches no other |
| OutcomeBook.CycleEffect | backend/app/ai_reasoning/service.py:1501-1577 | with or without a candle: an earlier signal is live afterwards iff it was live and the cycle does not reach it; what was finished stays; no assertion fails |
| OutcomeBook.CycleKeepsOneActive | backend/app/ai_reasoning/service.py:1501-1577 | a cycle keeps at most one active signal per instrument iff it has a numeric candle or no earlier signal of the instrument is live |
| OutcomeBook.LiveExactlyWhenNeverReached | backend/app/ai_reasoning/service.py:1501-1577 | after any run of cycles a signal is live iff it started live and no later cycle reached it |
| OutcomeBook.OneActiveExactly | backend/app/ai_reasoning/service.py:1501-1577 | after any run at most one signal per instrument is active iff every one with a successor that started live was reached |
| OutcomeBook.AtMostOneActive | backend/app/ai_reasoning/service.py:1501-1577 | over any run of cycles with numeric candles only the newest signal of an instrument may be active, despite the listing limit |
| OutcomeBook.ListedExactlyWhenAmongNewest | backend/app/ai_reasoning/repository.py:841-873 | with one instrument a signal is listed iff it is among the newest hundred |
| OutcomeBook.OldestIsStrandedExactly | backend/app/ai_reasoning/service.py:1528-1538 | the oldest signal of a run stays active for good iff none of the ninety-nine cycles after its own has a numeric candle |
| OutcomeBook.MissingCandleLeavesTwoActive | backend/app/ai_reasoning/service.py:1501-1577 | the smallest instance: one cycle without a numeric candle leaves two signals active |
| OutcomeRuns.ListingIsExact | backend/app/ai_reasoning/repository.py:841-873 | for any stored signals: newest first, only of the instrument and up to the end, and one is left out only when the listing is full of newer ones |
| OutcomeRuns.CycleEvaluates | backend/app/ai_reasoning/service.py:1538-1577 | a cycle stores for an earlier signal its evaluation by the cycle candle as superseded, iff it reaches it |
| OutcomeRuns.StoredOutcomeIsItsRun | backend/app/ai_reasoning/service.py:1501-1577 | after any run of cycles the stored outcome of a signal is that of its own run over what the cycles showed it |
| OutcomeRuns.FirstReachSettles | backend/app/ai_reasoning/service.py:1501-1577 | the first cycle that reaches a live signal settles it for good, with the result, ratio and times of that one candle |
| JsonSchemas.PlainTokensStay | backend/app/ai_reasoning/compact_output.py:280-281 | the token of a label made of lower-case letters and digits is the label |
| TextRules.TokenOfCharacter | backend/app/ai_reasoning/compact_output.py:280-281 | what one character contributes to a token |
| TextRules.TokenOfConcatenation | backend/app/ai_reasoning/compact_output.py:280-281 | tokens are made character by character |
| TextRules.StripIsExact | backend/app/ai_reasoning/compact_output.py:318-338 | a stripped text is what is left between blank ends |
| TextRules.JoinedOfConcatenation | backend/app/ai_reasoning/compact_output.py:326 | joined texts are the stripped ones with one space between |
| Normalizer.NormalizeShapes | backend/app/ai_reasoning/compact_output.py:240-360 | the recursive procedure with its shared change list computes the visit function |
| Normalizer.Pass.VisitValue | backend/app/ai_reasoning/compact_output.py:311-358 | one visit returns the visited value and appends exactly its own changes |
| NormalizerLaws.RelabellingSettles | backend/app/ai_reasoning/compact_output.py:283-309 | a replaced enum label really differs and is not replaced again |
| NormalizerLaws.SameNodeAfterReshape | backend/app/ai_reasoning/compact_output.py:216-237 | a reshaped value is governed by the same schema node |
| NormalizerLaws.VisitSettles | backend/app/ai_reasoning/compact_output.py:311-358 | for every value: changes are empty iff nothing changed, and a second visit is the identity without changes |
| NormalizerMeaning.NormalizationIsLossless | backend/app/ai_reasoning/compact_output.py:240-245 | the output says what the input said: labels by token or by the token lists of `RegimeTokens`, joined texts, wrapped texts, same keys |
| NormalizerMeaning.QuietExactlyWhenCanonical | backend/app/ai_reasoning/compact_output.py:311-358 | a pass records no change if and only if the value is canonical |
| NormalizerMeaning.NormalizerIsIdempotent | backend/app/ai_reasoning/compact_output.py:240-360 | the output is canonical and a second pass returns it with an empty change list |
| CompactContract.CompactSchemaIsOk | backend/app/ai_reasoning/compact_output.py:64-186 | the compact schema meets every condition of the laws |
| CompactContract.CompactNormalizationSettles | backend/app/ai_reasoning/compact_output.py:240-360 | for every provider value, on the actual schema: lossless, idempotent, honest change list |
| CompactContract.NormalizeCompactOutputShapes | backend/app/ai_reasoning/compact_output.py:240-360 | the whole function, on the actual schema |
| EnumLabels.RegimeTextsAnswer | backend/app/ai_reasoning/analysis.py:107-133 | on the actual schema, without the alias table: a regime text becomes or stays bullish, bearish, ranging, transitional or uncertain iff its token is in that label's list, and is recorded under the rule that found it |
| EnumLabels.BullNeverBecomesBearish | backend/app/ai_reasoning/analysis.py:107-133 | a text that says bull never becomes bearish |
| EnumLabels.OutputRegimeIsRead | backend/app/ai_reasoning/compact_output.py:283-309 | in every whole output the regime is read so where it stands |
| OutputShapes.BiasTextsAnswer | backend/app/ai_reasoning/analysis.py:69-105 | which texts become a label of the bias enum |
| OutputShapes.ProseOfSectionIsJoined | backend/app/ai_reasoning/compact_output.py:64-186 | in every output each prose field, by name, is joined from a list of texts where it stands, and otherwise kept |
| OutputShapes.ListOfSectionIsWrapped | backend/app/ai_reasoning/compact_output.py:64-186 | in every output each list field, by name, is wrapped from a single text where it stands, and otherwise kept |
| OutputShapes.RootFieldIsRead | backend/app/ai_reasoning/compact_output.py:145-186 | the same for the summary and the six lists of the output itself |
| Catalogs.DecimalIsInjective | backend/app/ai_reasoning/llm_context.py:380 | catalog numbers render to distinct texts |
| CatalogEntries.DecimalIsRead | backend/app/ai_reasoning/llm_context.py:380 | they are decimal: read back as the number, without a leading zero |
| Catalogs.BuildEvidenceCatalog | backend/app/ai_reasoning/llm_context.py:352-421 | the loops with their early exits build the numbered first eighteen items, or all and two deterministic ones, or fail on an unusable fact |
| Catalogs.EvidenceCatalogShape | backend/app/ai_reasoning/llm_context.py:352-421 | for any request: two to nineteen entries E1..En, all ids distinct |
| CatalogEntries.EntryShowsItsMapping | backend/app/ai_reasoning/llm_context.py:363-394 | an entry shows its mapping: first fact, else first reason, else its type; an uncertainty iff unavailable, degraded or stale; every text a prefix within its limit |
| CatalogEntries.MappingHasItsEntry | backend/app/ai_reasoning/llm_context.py:363-396 | a mapping with fewer than eighteen before it, over all sources in order, is the entry of that number |
| CatalogEntries.CatalogLength | backend/app/ai_reasoning/llm_context.py:352-421 | one entry a mapping and the two deterministic ones with their texts, or the first eighteen mappings alone |
| CatalogEntries.CatalogFailsExactly | backend/app/ai_reasoning/llm_context.py:352-421 | the catalog cannot be built iff one of the first eighteen mappings leads with an empty fact or a deterministic fact with room is too long |
| Catalogs.CandidateZones | backend/app/ai_reasoning/llm_context.py:456-498 | the loop and the sort give the sorted, deduplicated candidates |
| Catalogs.DeduplicatedIsExact | backend/app/ai_reasoning/llm_context.py:494-497 | keys are unique, every usable mapping is represented, nothing else is |
| Catalogs.SortedIsStable | backend/app/ai_reasoning/llm_context.py:498 | ordered by distance, a permutation, equal distances in original order |
| Catalogs.ZoneCatalogIsNearest | backend/app/ai_reasoning/llm_context.py:541-560 | a usable zone of a side is in its catalog, or the catalog holds three that are at least as near; ids are distinct |
| CatalogEntries.ZoneEntryShowsAMapping | backend/app/ai_reasoning/llm_context.py:541-560 | every zone entry shows one usable mapping of its side: bounds in order, middle, distance in percent, timeframe and evidence |
| CatalogEntries.SideOfKind | backend/app/ai_reasoning/llm_context.py:696-699 | the four words that put a zone on each side, whatever their case |
| References.CheckRefs | backend/app/ai_reasoning/compact_output.py:376-391 | the loop with its seen set finds the first duplicate or unknown reference |
| References.Walk | backend/app/ai_reasoning/compact_output.py:363-396 | the recursive walk raises the first fault in document order |
| References.WalkAcceptsExactly | backend/app/ai_reasoning/compact_output.py:363-396 | nothing is raised if and only if every reference list anywhere is duplicate-free and known |
| References.FaultIsTheFirst | backend/app/ai_reasoning/compact_output.py:376-391 | the fault is the first faulty reference at its position, a duplicate iff it occurs before and unknown otherwise |
| References.FaultPathLeadsToIt | backend/app/ai_reasoning/compact_output.py:363-396 | following the path of a fault through the value leads to the reference it names |
| References.ZoneFault | backend/app/ai_reasoning/compact_output.py:399-438 | nothing is raised iff a zone is named exactly when there is one, and is known |
| WireOutput.WalkSeesTheModel | backend/app/ai_reasoning/compact_output.py:363-396 | on a dumped output the walk checks exactly the model's twelve kinds of reference list |
| Resolver.ResolverIsTotalOnKnown | backend/app/ai_reasoning/compact_output.py:442-548 | the resolver fails no lookup iff all looked-up references are known, and then matches them position by position and keeps everything the provider wrote |
| Resolver.AcceptedOutputResolves | backend/app/ai_reasoning/compact_output.py:551-586 | a checked output never fails a lookup; exactly which outputs are accepted; accepted means faithful |
| Resolver.BuiltCatalogsResolveExactly | backend/app/ai_reasoning/compact_output.py:441-548 | for the catalogs of any request: each position is the one named entry, no duplicates, nearest price present iff the side has a zone and equal to its middle |
| Resolver.ValidateCanonicalResponse | backend/app/ai_reasoning/compact_output.py:551-586 | normalise, parse, check, check, resolve: the first failure in that order, or the validation with the dump of the parsed output |
| WireRoundTrip.DumpIsAFixedPoint | backend/app/ai_reasoning/compact_output.py:551-586 | the dump of every output with the enums' labels is canonical: normalising it changes and records nothing |
| WireReading.DumpIsRead | backend/app/ai_reasoning/compact_output.py:551-586 | round trip: reading a dump by the names of its fields gives back the output |
| WireReading.ReaderIsFaithful | backend/app/ai_reasoning/compact_output.py:551-586 | so a parser as the recovery laws ask for exists |
| Resolver.RecoveryIsStable | backend/app/ai_reasoning/service.py:616-629 | validating the stored dump again gives the same dump, model and analysis with no change, iff the parser reads the dump back as the model |
| Resolver.RecoveryNeverChangesAnAnalysis | backend/app/ai_reasoning/service.py:616-660 | with a parser that reads dumps back, any number of recoveries gives the same analysis |
| ProviderAttempts.GroqProvider.RecordAttempt | backend/app/ai_reasoning/provider.py:1214-1261 | every counter keeps counting the full attempt history; the object keeps its last hundred |
| ProviderAttempts.GroqProvider.Reason | backend/app/ai_reasoning/provider.py:1286-1560 | one request records its trace, counts its wire calls and ends as the outcome function says |
| ProviderAttempts.GroqProvider.Correct | backend/app/ai_reasoning/provider.py:1474-1560 | the one bounded correction |
| ProviderAttempts.GroqProvider.Compact | backend/app/ai_reasoning/provider.py:1662-1773 | the one compact retry |
| ProviderAttempts.Serve | backend/app/ai_reasoning/provider.py:1286-1560 | over any sequence of requests on the object: its log grows by their traces, its call counter by their wire calls, each answer is its outcome |
| ProviderAttempts.ServeFromTheStart | backend/app/ai_reasoning/provider.py:1214-1261 | over the life of an account object its own counters add up: kinds to wire calls and rejections, corrections to their ends, valid attempts to answered requests |
| ProviderAttempts.TallyCounts | backend/app/ai_reasoning/provider.py:1216-1256 | the stepwise counters equal the counts their names promise |
| AttemptRecords.CountersMoveExactly | backend/app/ai_reasoning/provider.py:1214-1261 | which counters an attempt moves, by kind, validity, code and status |
| AttemptRecords.FirstRecord | backend/app/ai_reasoning/provider.py:1320-1470 | the record of a first call in terms of the reply |
| AttemptRecords.CorrectionRecord | backend/app/ai_reasoning/provider.py:1474-1560 | the record of a correction, with the code that asked for it when the call failed |
| AttemptRecords.MissingCapacityIsARateLimit | backend/app/ai_reasoning/provider.py:1440-1470 | a correction without capacity ends as a rate limit with the hints of the answer itself |
| ProviderAttempts.OneValidAttemptPerReturn | backend/app/ai_reasoning/provider.py:1286-1773 | a request returns iff one of its attempts is valid, and only its last one |
| ProviderAttempts.CountersAreConserved | backend/app/ai_reasoning/provider.py:1214-1261 | the same for the traces: kinds add up to attempts, corrections to their ends, valid attempts to returns, wire calls and rejections to attempts |
| ProviderAttempts.FollowUpsAreBounded | backend/app/ai_reasoning/provider.py:1471-1474 | at most two attempts a request; follow-ups never outnumber analyses; every analysis is valid or a counted failure |
| ProviderAttempts.CallsEqualAttemptsWithoutRejections | backend/app/ai_reasoning/provider.py:611-660 | http_calls <= attempts, equal if and only if preflight rejected nothing |
| AccountPool.ResetAt | backend/app/ai_reasoning/provider.py:2307-2350 | a reset is never in the past unless the provider names an instant |
| PoolFailures.ResetAtExactly | backend/app/ai_reasoning/provider.py:2307-2350 | which hint decides, and what a number, a duration, an instant and no readable hint give |
| PoolFailures.FailureIsCharged | backend/app/ai_reasoning/provider.py:2199-2261 | status and cooldown a failure leaves, reason by reason |
| PoolFailures.AccountReturnsExactly | backend/app/ai_reasoning/provider.py:2116-2130 | a failed account is asked again exactly from its deadline on |
| PoolFailures.NewAccounts | backend/app/ai_reasoning/provider.py:1867-1905 | a new account is in use iff it has a key, and has no failures |
| PoolFailures.AccountsRecover | backend/app/ai_reasoning/provider.py:2116-2197 | a returned analysis and a finished cooldown make an account AVAILABLE and keep its failure times |
| PoolFailures.CallersFaultsClear | backend/app/ai_reasoning/provider.py:2279-2305 | exactly which failures are not charged to the account |
| PoolFailures.RecentIsExact | backend/app/ai_reasoning/provider.py:2199-2215 | the kept failures are exactly those at most a window old, each as often as it happened |
| AccountPool.HistoryIsRefinedExactly | backend/app/ai_reasoning/provider.py:2199-2215 | at every point of any events the kept failures are the full history cut to the window, iff no failure outside the window at one failure is inside it at the next |
| AccountPool.RecentRefinesHistory | backend/app/ai_reasoning/provider.py:2199-2215 | so they are on a clock that does not go back |
| AccountPool.ClockMustNotGoBack | backend/app/ai_reasoning/provider.py:2210-2215 | an instance with a clock that goes back |
| AccountPool.DeadlineExactlyWhenCooling | backend/app/ai_reasoning/provider.py:2158-2305 | a deadline is set iff the status is RATE_LIMITED, QUOTA_EXHAUSTED, CIRCUIT_OPEN or CONFIGURATION_ERROR; DISABLED iff the account has no key |
| AccountPool.BreakerOpensExactly | backend/app/ai_reasoning/provider.py:2246-2261 | a failure opens the breaker iff it is a hard one or the full history holds the threshold within the window |
| AccountPool.MetadataIsInvisible | backend/app/ai_reasoning/provider.py:2370-2381 | a metadata call at t changes no eligibility answer at t' >= t, whatever happens in between |
| AccountPool.MetadataReachesOlderRequests | backend/app/ai_reasoning/provider.py:2370-2381 | at t' < t it does, if and only if a cooldown ended in between |
| PoolRouting.RouteStopsAtFirst | backend/app/ai_reasoning/provider.py:1928-2075 | the accounts tried are the eligible ones in rotated order up to the first that stops, and the last one decides; which errors stop: `PoolFailures.PassedOnExactly` |
| PoolRouting.FirstSuccessIsReturned | backend/app/ai_reasoning/provider.py:1928-2075 | all but the last tried failed with failover allowed; the search ends early only on a stopping account |
| PoolFailures.PassedOnExactly | backend/app/ai_reasoning/provider.py:2353-2368 | from account to account a request goes on iff the error is one of nine named reasons outside four named phases |
| PoolFailures.RotationIsACircle | backend/app/ai_reasoning/provider.py:1936-1939 | the accounts are asked in a circle from the cursor on |
| PoolFailures.TransportFailuresTryEveryAccount | backend/app/ai_reasoning/provider.py:1928-2075 | a request that only meets unavailable or timed-out accounts outside those phases tries every eligible account |
| PoolFailures.HealthyAccountIsReached | backend/app/ai_reasoning/provider.py:1928-2075 | a healthy account behind accounts that pass on is reached and answers |
| PoolFailures.LastReplyCounts | backend/app/ai_reasoning/provider.py:2077-2114 | an account is asked again exactly while the transport fails and retries are left; the last reply counts |
| PoolFailures.FollowUpExactly | backend/app/ai_reasoning/provider.py:1386-1474 | a compact retry follows exactly a truncated response, a correction exactly a response that does not decode or meet the contract while capacity is left |
| PoolFailures.OutcomeExactly | backend/app/ai_reasoning/provider.py:1286-1773 | how a request on one account ends, by what came back |
| PoolRouting.CorrectionsNeverFailOver | backend/app/ai_reasoning/provider.py:2353-2368 | a request that reached a correction, or was due one without capacity, is never passed to another account |
| PoolRouting.InvalidAnswersAreNotCharged | backend/app/ai_reasoning/provider.py:1999-2006 | invalid answers leave the account available, missing correction capacity rate-limits it |
| PoolRouting.OneRequestIsBounded | backend/app/ai_reasoning/provider.py:1928-2114 | each account at most once, only while eligible, at most 8 * (maximum_retries + 1) calls |
| ProviderPool.GroqProviderPool.Eligible | backend/app/ai_reasoning/provider.py:2116-2130 | answers eligibility and ends exactly the cooldowns that are over |
| ProviderPool.GroqProviderPool.Failure | backend/app/ai_reasoning/provider.py:2199-2261 | the stepwise update computes the failure function |
| ProviderPool.GroqProviderPool.Metadata | backend/app/ai_reasoning/provider.py:2370-2381 | counts the eligible accounts and ends their cooldowns |
| ProviderPool.GroqProviderPool.Attempt | backend/app/ai_reasoning/provider.py:2077-2114 | the retry loop's error, retries and counted calls |
| ProviderPool.GroqProviderPool.Reason | backend/app/ai_reasoning/provider.py:1928-2075 | result, account states, cursor and call counts of one request are those of the routing function |
| ProviderPool.Serve | backend/app/ai_reasoning/provider.py:1928-2075 | over any sequence of requests on the object each is routed from the accounts its predecessor left, the turn passes on, and the calls add up |
| ProviderPool.RequestsAreServedFairly | backend/app/ai_reasoning/provider.py:1936-1939 | of 4k such requests every account has the first turn in exactly k, and is then tried first iff it is eligible |
| ProviderPool.RouteActsByEvents | backend/app/ai_reasoning/provider.py:1928-2075 | whatever a request does to an account is a run of the breaker's events, only checks for one without a key, so the history laws hold for the pool |
| Samples.PrefixSums | training/data/build_dataset.py:230-236 | the cumulative sums |
| Samples.NoneBadBetween | training/data/build_dataset.py:238-244 | a zero difference of prefix sums means nothing bad in between, and conversely |
| Samples.IsValid | training/data/build_dataset.py:230-291 | the prefix-sum masks hold if and only if the naive window scan keeps the cutoff |
| Samples.AssignSplits | training/data/build_dataset.py:300-309 | the masked writes give each row its split |
| Samples.BuildSamples | training/data/build_dataset.py:199-309 | the error, or in order exactly the samples the naive scan keeps, with their split and indices |
| Samples.LabelBounds | training/data/build_dataset.py:317-323 | labels lie at least a bar after the cutoff and not after the target's end |
| Samples.SplitsShareNoLabel | training/data/build_dataset.py:270-309 | for all bars no label time is shared between splits, if and only if train_end <= validation_end + 300 s |
| Samples.KeptExactlyOffTheBoundaries | training/data/build_dataset.py:230-291 | between ordered boundaries a sound window is kept iff no boundary falls from the cutoff on before the end of the target |
| Samples.SampleIsPlaced | training/data/build_dataset.py:199-309 | window of 96 bars and six more, and which split, in terms of the two boundaries |
| MarketBars.GroupIsRun | training/data/prepare_xau.py:83-86 | a cumulative-sum group is a maximal run of identical rows |
| MarketBars.RunSizeIsLength | training/data/prepare_xau.py:88 | the transformed group size is the length of that run |
| MarketBars.StaleExactlyInLongRuns | training/data/prepare_xau.py:80-100 | a row is stale if and only if it lies in sixty or more consecutive identical rows |
| MarketBars.ValidRowsAreOrdered | training/data/prepare_xau.py:62-77 | which rows the validity mask keeps, in terms of their prices |
| MarketBars.BarsAreTheFullBuckets | training/data/prepare_xau.py:102-125 | the bars are exactly those of the buckets with five rows, strictly ordered |
| MarketBars.BarsAreValid | training/data/prepare_xau.py:62-125 | on valid rows a bar is valid, bounds its five rows, attains their extremes and lies in its five minutes |
| MarketBars.NoRowIsUsedTwice | training/data/prepare_xau.py:102-125 | no row belongs to two bars |
| MarketBars.FiveRowsAreFiveMinutes | training/data/prepare_xau.py:119-121 | on minute rows a bar stands for five consecutive minutes, none missing |
| MarketBars.PreparedBarsAreSound | training/data/prepare_xau.py:144-172 | after validity filter, stale filter and resampling every bar consists of five valid raw rows outside stale runs |
| MarketBars.PreparedBarsAreComplete | training/data/prepare_xau.py:144-172 | on minute rows a bar starts at a five-minute mark iff each of its five minutes has a valid row outside the stale runs |
| BoundedSets.BoundedSet.Create | backend/app/core/bounded.py:12-17 | a capacity below one is an error |
| BoundedSets.BoundedSet.AddItem | backend/app/core/bounded.py:28-35 | contents follow the operation history, never exceed the capacity, and evictions = insertions - removals - size |
| BoundedSets.BoundedSet.DiscardItem | backend/app/core/bounded.py:37-38 | so after a discard |
| BoundedSets.HoldsTheMostRecent | backend/app/core/bounded.py:28-35 | after any adds: the last min(capacity, distinct) distinct items by most recent add, in order |
| BoundedSets.SmallerIsSuffixOfLarger | backend/app/core/bounded.py:28-38 | for any adds and discards a smaller set's contents are a suffix of a larger one's |

## Left out

- ReasoningProcess.PersistenceIsCrashTolerant: `process` is modelled on values as a step machine, because tasks interleave between its awaits; the object fields `_active_claims`, `_claim_heartbeats` and the metric counters are not part of it.
- ReasoningProcess.PersistenceIsCrashTolerant: usage records and skip paths of `process` are not modelled; of gate decisions and signals only whether storing them fails.
- ProcessClosings.FailedCallsEnd: the pool's next retry time and the configured longest backoff are inputs of the failing call.
- ProcessFailures.PublishedEnds: the text that names why an analysis is not available is one constant.
- LeaseProtocol.TerminalRowsStayClosed: needs each claim id to be closed at most once; the code does not enforce it, and the row above shows what happens otherwise.
- ClaimSql.ClaimsAgree: two columns on which the take-overs differ (`completed_at`, `previous_claim_id`) are compared as equal; the call's separately committed statements are taken as one step, except that the refreshed row may differ in `StaleClaimNeedsARace`.
- SignalOutcomes.EligibleSignalsAreTradable: the strength label and the confidence fields of the signal validator are not modelled.
- OutcomeBook.CycleEffect: assumes increasing `generated_at` per instrument and distinct signal ids.
- MarketCandles.ProducedStateHasItsCandle: engine outputs are inputs; of two frames with equal close and cutoff either may be the latest; finiteness of floats and the capture's object form are not modelled; frames are stored by `capture_cycle` only.
- Normalizer.NormalizeShapes: case folding and stripping cover ASCII letters and Latin-1 white space; JSON Schema items and branches are always objects; a JSON object is a list of key and value pairs.
- Normalizer.Pass.VisitValue: a change records its path, rule, old and new value; the hash and the type names of the log entry are not modelled.
- CompactContract.CompactSchemaIsOk: the schema is written out by hand as Pydantic would generate it for these models; lengths and patterns are not part of it because the normaliser does not read them.
- Catalogs.BuildEvidenceCatalog: the compact facts of an item, the direction text and the completeness text are inputs; the length limits of the other catalog fields are taken as met.
- Catalogs.CandidateZones: the walk over raw evidence and the choice among alternative key names are inputs, as one mapping per visited object; a boolean price counts as absent.
- Resolver.ValidateCanonicalResponse: Pydantic validation is a parameter that says which values parse to which model.
- ProviderAttempts.GroqProvider.Reason: cancellation, exceptions other than the provider's own, token totals, the response cache and the attempt record's diagnostic fields are not modelled; calls on one account do not overlap.
- ProviderPool.GroqProviderPool.Reason: the account object is present through its contract; daily metrics, logging fields and the sleep between retries are not modelled; one request runs to its end.
- AccountPool.ResetAt: header texts are inputs already read as a number, a duration, an instant or unreadable; times are whole seconds.
- Samples.BuildSamples: label values (log returns, volatility, time to extreme), feature computation and loading are not modelled; a row says whether all its features are finite.
- MarketBars.StaleExactlyInLongRuns: the list of longest runs is not modelled.
- HTTP transport, prompts, database sessions, routes, dashboards, the market-state, forecast, synthesis and decision engines: wiring or other subsystems.
- Hashes and UUIDs: injective constructors and a supply of fresh ids.
- Legacy reasoning-cycle results, managed signals and proposals: not driven by `process`.

/** Persisted analyses and provider-response artifacts: first writer wins, by logical identity. */
module StoredResults {
  import opened Domain

  datatype AnalysisStatus = Available | Invalid | FailedAnalysis

  /** `content` stands for every analytical field; creation time and transport figures are not hashed. */
  datatype Analysis = Analysis(
    analysisId: AnalysisId,
    requestId: RequestId,
    cycleId: nat,
    symbol: string,
    timeframe: string,
    schemaVersion: string,
    status: AnalysisStatus,
    content: string,
    createdAt: Time,
    transport: string)

  datatype ArtifactStatus = ResponseReceived | Normalized | Validated | CommittedArtifact | TerminalSchemaFailure

  datatype Artifact = Artifact(
    requestId: RequestId,
    status: ArtifactStatus,
    providerOutput: string,
    normalizedOutput: Option<string>,
    analysisId: Option<AnalysisId>)

  datatype Conflict = ArtifactConflict

  predicate SameLogicalIdentity(a: Analysis, b: Analysis) {
    || a.requestId == b.requestId
    || (a.symbol == b.symbol && a.timeframe == b.timeframe
        && a.cycleId == b.cycleId && a.schemaVersion == b.schemaVersion)
  }

  /** Equal payload hashes. */
  predicate SamePayload(a: Analysis, b: Analysis) {
    a.(createdAt := b.createdAt, transport := b.transport) == b
  }

  function FirstSame(analyses: seq<Analysis>, value: Analysis): (i: nat)
    ensures i <= |analyses|
    ensures i < |analyses| ==> SameLogicalIdentity(analyses[i], value)
    ensures forall j | 0 <= j < i :: !SameLogicalIdentity(analyses[j], value)
  {
    if analyses == [] || SameLogicalIdentity(analyses[0], value) then 0 else 1 + FirstSame(analyses[1..], value)
  }

  function AnalysisIndex(analyses: seq<Analysis>, id: AnalysisId): (i: nat)
    ensures i <= |analyses|
    ensures i < |analyses| ==> analyses[i].analysisId == id
    ensures forall j | 0 <= j < i :: analyses[j].analysisId != id
  {
    if analyses == [] || analyses[0].analysisId == id then 0 else 1 + AnalysisIndex(analyses[1..], id)
  }

  /** Dictionary assignment under the analysis id. */
  function PutAnalysis(analyses: seq<Analysis>, value: Analysis): seq<Analysis> {
    var i := AnalysisIndex(analyses, value.analysisId);
    if i < |analyses| then analyses[i := value] else analyses + [value]
  }

  function SaveAnalysis(analyses: seq<Analysis>, value: Analysis): Result<(seq<Analysis>, Analysis), Conflict> {
    var i := FirstSame(analyses, value);
    if i < |analyses| then
      if SamePayload(analyses[i], value) then Ok((analyses, analyses[i])) else Err(ArtifactConflict)
    else Ok((PutAnalysis(analyses, value), value))
  }

  function SaveArtifact(artifacts: map<RequestId, Artifact>, value: Artifact)
    : Result<map<RequestId, Artifact>, Conflict>
  {
    if value.requestId in artifacts && artifacts[value.requestId].providerOutput != value.providerOutput then
      Err(ArtifactConflict)
    else Ok(artifacts[value.requestId := value])
  }

  /** At most one analysis per request id and per (symbol, timeframe, cycle, schema), under the derived id. */
  ghost predicate OneAnalysisEach(analyses: seq<Analysis>) {
    && (forall i | 0 <= i < |analyses| :: analyses[i].analysisId == AnalysisOf(analyses[i].requestId))
    && (forall i, j | 0 <= i < j < |analyses| :: !SameLogicalIdentity(analyses[i], analyses[j]))
  }

  /** Saving appends or finds; it never rewrites a stored analysis. */
  lemma SaveAnalysisAppends(analyses: seq<Analysis>, value: Analysis)
    requires OneAnalysisEach(analyses) && value.analysisId == AnalysisOf(value.requestId)
    ensures match SaveAnalysis(analyses, value)
      case Err(_) => exists a | a in analyses :: SameLogicalIdentity(a, value) && !SamePayload(a, value)
      case Ok((analyses', stored)) =>
        && OneAnalysisEach(analyses') && analyses <= analyses'
        && stored in analyses' && SamePayload(stored, value)
        && (|analyses'| == |analyses| || analyses' == analyses + [value])
  {}

  /** A retry of the same save returns what is stored and changes nothing. */
  lemma SaveAnalysisIsIdempotent(analyses: seq<Analysis>, value: Analysis, retry: Analysis)
    requires OneAnalysisEach(analyses) && value.analysisId == AnalysisOf(value.requestId)
    requires SaveAnalysis(analyses, value).Ok? && SamePayload(retry, value)
    ensures var (analyses', stored) := SaveAnalysis(analyses, value).value;
      SaveAnalysis(analyses', retry) == Ok((analyses', stored))
  {
    SaveAnalysisAppends(analyses, value);
    var (analyses', stored) := SaveAnalysis(analyses, value).value;
    var i := FirstSame(analyses', retry);
    var k :| 0 <= k < |analyses'| && analyses'[k] == stored;
    assert SameLogicalIdentity(analyses'[k], retry);
    assert SameLogicalIdentity(analyses'[i], analyses'[k]);
  }

  // ---- column by column ----

  /** The same request, or the same cycle of a symbol and timeframe under one schema. */
  predicate SameWork(a: Analysis, b: Analysis) {
    || a.requestId == b.requestId
    || (a.symbol == b.symbol && a.timeframe == b.timeframe && a.cycleId == b.cycleId
        && a.schemaVersion == b.schemaVersion)
  }

  /** Equal in every column that is hashed; creation time and transport figures may differ. */
  predicate SaysTheSame(a: Analysis, b: Analysis) {
    && a.analysisId == b.analysisId && a.requestId == b.requestId && a.cycleId == b.cycleId && a.symbol == b.symbol
    && a.timeframe == b.timeframe && a.schemaVersion == b.schemaVersion && a.status == b.status
    && a.content == b.content
  }

  /** A first analysis of its work is appended; a later one for the same work changes nothing, and is accepted exactly
    * when it says what the first stored one says. */
  lemma SaveIsDecidedByColumns(analyses: seq<Analysis>, value: Analysis, k: nat)
    requires OneAnalysisEach(analyses) && value.analysisId == AnalysisOf(value.requestId)
    requires k <= |analyses| && forall j | 0 <= j < k :: !SameWork(analyses[j], value)
    requires k < |analyses| ==> SameWork(analyses[k], value)
    ensures SaveAnalysis(analyses, value) ==
      if k == |analyses| then Ok((analyses + [value], value))
      else if SaysTheSame(analyses[k], value) then Ok((analyses, analyses[k]))
      else Err(ArtifactConflict)
  {
    assert forall a, b :: SameWork(a, b) <==> SameLogicalIdentity(a, b);
    FirstIsUnique(analyses, value, k);
    if k == |analyses| {
      NoStoredId(analyses, value);
    }
  }

  lemma FirstIsUnique(analyses: seq<Analysis>, value: Analysis, k: nat)
    requires k <= |analyses| && forall j | 0 <= j < k :: !SameLogicalIdentity(analyses[j], value)
    requires k < |analyses| ==> SameLogicalIdentity(analyses[k], value)
    ensures FirstSame(analyses, value) == k
  {}

  lemma NoStoredId(analyses: seq<Analysis>, value: Analysis)
    requires OneAnalysisEach(analyses) && value.analysisId == AnalysisOf(value.requestId)
    requires forall j | 0 <= j < |analyses| :: !SameLogicalIdentity(analyses[j], value)
    ensures PutAnalysis(analyses, value) == analyses + [value]
  {
    assert forall j | 0 <= j < |analyses| :: analyses[j].requestId != value.requestId;
  }
}

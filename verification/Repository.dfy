/** `InMemoryAIReasoningRepository`: dictionaries updated in place, one call at a time under one lock. Each
  * method is proved against the function that the protocol and process modules reason about. */
module Repository {
  import opened Domain
  import opened ClaimTable
  import opened StoredResults

  class InMemoryRepository {
    var reasoningCycles: seq<Row>
    var nextClaimId: ClaimId
    var analyses: seq<Analysis>
    var responseArtifacts: map<RequestId, Artifact>

    constructor ()
      ensures Cycles() == Table([], 0) && analyses == [] && responseArtifacts == map[]
    {
      reasoningCycles, nextClaimId, analyses, responseArtifacts := [], 0, [], map[];
    }

    function Cycles(): Table
      reads this
    {
      Table(reasoningCycles, nextClaimId)
    }

    /** `next(item for item in ... if ...)` over the rows. */
    method FindMatching(request: ClaimRequest) returns (i: nat)
      ensures i == FirstMatch(reasoningCycles, request)
    {
      i := 0;
      while i < |reasoningCycles| && !Matches(reasoningCycles[i], request)
        invariant i <= |reasoningCycles|
        invariant forall j | 0 <= j < i :: !Matches(reasoningCycles[j], request)
      {
        i := i + 1;
      }
      FirstMatchUnique(reasoningCycles, request, i);
    }

    /** Dictionary lookup by key. */
    method FindKey(key: Key) returns (i: nat)
      ensures i == IndexOf(reasoningCycles, key)
    {
      i := 0;
      while i < |reasoningCycles| && reasoningCycles[i].key != key
        invariant i <= |reasoningCycles|
        invariant forall j | 0 <= j < i :: reasoningCycles[j].key != key
      {
        i := i + 1;
      }
      var first := IndexOf(reasoningCycles, key);
    }

    method ClaimReasoningCycle(request: ClaimRequest) returns (result: ClaimResult)
      modifies this`reasoningCycles, this`nextClaimId
      ensures (Cycles(), result) == Claim(old(Cycles()), request)
    {
      var i := FindMatching(request);
      if i < |reasoningCycles| {
        var existing := reasoningCycles[i];
        if existing.analysisId.Some? && existing.status in {Committed, Recovered} {
          return ClaimResult(false, DuplicateCommittedAnalysis, existing);
        }
        if existing.status == ActiveClaim && existing.leaseExpiresAt > request.at {
          return ClaimResult(false, ActiveClaimHeld, existing);
        }
        if existing.status == WaitingProvider && existing.nextRetryAt.Some?
           && existing.nextRetryAt.value > request.at {
          return ClaimResult(false, ProviderCooldown, existing);
        }
        if existing.status == FailedSchema {
          return ClaimResult(false, Outcome.TerminalSchemaFailure, existing);
        }
        if existing.status == Failed {
          return ClaimResult(false, TerminalProviderFailure, existing);
        }
        var row := existing.(claimId := nextClaimId,
                             claimedBy := Some(request.claimedBy),
                             claimedAt := request.at,
                             heartbeatAt := request.at,
                             leaseExpiresAt := request.at + request.lease,
                             status := ActiveClaim,
                             failureReason := None,
                             nextRetryAt := None,
                             releasedAt := None,
                             expiredClaimCount := existing.expiredClaimCount + 1,
                             previousClaimId := Some(existing.claimId),
                             snapshotId := request.snapshotId);
        reasoningCycles := reasoningCycles[i := row];
        nextClaimId := nextClaimId + 1;
        return ClaimResult(true, ClaimTakeover, row);
      }
      var row := NewRow(request, nextClaimId);
      var k := FindKey(request.key);
      if k < |reasoningCycles| {
        reasoningCycles := reasoningCycles[k := row];
      } else {
        reasoningCycles := reasoningCycles + [row];
      }
      nextClaimId := nextClaimId + 1;
      return ClaimResult(true, ClaimAcquired, row);
    }

    method HeartbeatReasoningCycle(key: Key, claimId: ClaimId, claimedBy: WorkerId, at: Time, lease: nat)
      returns (renewed: bool)
      modifies this`reasoningCycles
      ensures (Cycles(), renewed) == Heartbeat(old(Cycles()), key, claimId, claimedBy, at, lease)
    {
      var i := FindKey(key);
      if i == |reasoningCycles| || reasoningCycles[i].claimId != claimId
         || reasoningCycles[i].claimedBy != Some(claimedBy) || reasoningCycles[i].status != ActiveClaim {
        return false;
      }
      reasoningCycles := reasoningCycles[i := reasoningCycles[i].(heartbeatAt := at, leaseExpiresAt := at + lease)];
      return true;
    }

    /** A release leaves the request id alone. */
    method ReleaseReasoningCycle(key: Key, claimId: ClaimId, releasedAt: Time, status: Status,
                                 failureReason: Option<string>, analysisId: Option<AnalysisId>,
                                 nextRetryAt: Option<Time>)
      returns (released: bool)
      modifies this`reasoningCycles
      ensures (Cycles(), released) ==
        Close(old(Cycles()), key, claimId, Closing(status, None, analysisId, failureReason, nextRetryAt, releasedAt))
    {
      var i := FindKey(key);
      if i == |reasoningCycles| || reasoningCycles[i].claimId != claimId {
        return false;
      }
      reasoningCycles := reasoningCycles[i := reasoningCycles[i].(
        status := status, analysisId := analysisId, failureReason := failureReason, nextRetryAt := nextRetryAt,
        releasedAt := Some(releasedAt), completedAt := Some(releasedAt), claimedBy := None,
        leaseExpiresAt := releasedAt)];
      return true;
    }

    /** Subscripting a missing row raises `KeyError`, which the model reports as an error. Without a claim id the call is
      * not fenced: it closes whichever row is there, in its holder's name. */
    method CompleteAnalysisCycle(key: Key, requestId: Option<RequestId>, analysisId: Option<AnalysisId>,
                                 status: Status, completedAt: Time, claimId: Option<ClaimId>,
                                 failureReason: Option<string>, nextRetryAt: Option<Time>)
      returns (found: Result<(), string>)
      modifies this`reasoningCycles
      ensures found.Ok? <==> IndexOf(old(reasoningCycles), key) < |old(reasoningCycles)|
      ensures Cycles() == Close(old(Cycles()), key, claimId.GetOr(HolderOf(old(Cycles()), key)),
                                Closing(status, Some(requestId), analysisId, failureReason, nextRetryAt, completedAt)).0
    {
      var i := FindKey(key);
      if i == |reasoningCycles| {
        return Err("KeyError");
      }
      if claimId.Some? && reasoningCycles[i].claimId != claimId.value {
        return Ok(());
      }
      reasoningCycles := reasoningCycles[i := reasoningCycles[i].(
        requestId := requestId, analysisId := analysisId, status := status, completedAt := Some(completedAt),
        releasedAt := Some(completedAt), claimedBy := None, leaseExpiresAt := completedAt,
        failureReason := failureReason, nextRetryAt := nextRetryAt)];
      return Ok(());
    }

    /** A conflicting payload raises and changes nothing. */
    method SaveMarketAnalysis(value: Analysis) returns (saved: Result<Analysis, Conflict>)
      modifies this`analyses
      ensures match SaveAnalysis(old(analyses), value)
        case Ok((analyses', stored)) => saved == Ok(stored) && analyses == analyses'
        case Err(conflict) => saved == Err(conflict) && analyses == old(analyses)
    {
      var i := 0;
      while i < |analyses| && !SameLogicalIdentity(analyses[i], value)
        invariant i <= |analyses|
        invariant forall j | 0 <= j < i :: !SameLogicalIdentity(analyses[j], value)
      {
        i := i + 1;
      }
      assert FirstSame(analyses, value) == i;
      if i < |analyses| {
        if !SamePayload(analyses[i], value) {
          return Err(ArtifactConflict);
        }
        return Ok(analyses[i]);
      }
      analyses := PutAnalysis(analyses, value);
      return Ok(value);
    }

    method SaveResponseArtifact(value: Artifact) returns (saved: Result<Artifact, Conflict>)
      modifies this`responseArtifacts
      ensures match SaveArtifact(old(responseArtifacts), value)
        case Ok(artifacts) => saved == Ok(value) && responseArtifacts == artifacts
        case Err(conflict) => saved == Err(conflict) && responseArtifacts == old(responseArtifacts)
    {
      if value.requestId in responseArtifacts
         && responseArtifacts[value.requestId].providerOutput != value.providerOutput {
        return Err(ArtifactConflict);
      }
      responseArtifacts := responseArtifacts[value.requestId := value];
      return Ok(value);
    }
  }
}

/** Which task holds which claim, and what that leaves for two tasks that work on one row. */
module ProcessOwnership {
  import opened Domain
  import opened ClaimTable
  import opened ReasoningProcess
  import LP = LeaseProtocol

  function HeldOf(pc: Pc): Option<HeldClaim> {
    if pc.Ready? || pc.Done? then None else Some(pc.held)
  }

  /** Different tasks hold different claim ids. */
  ghost predicate ClaimsApart(w: World) {
    forall t, u | t in w.tasks && u in w.tasks && t != u
                  && HeldOf(w.tasks[t].pc).Some? && HeldOf(w.tasks[u].pc).Some? ::
      HeldOf(w.tasks[t].pc).value.claimId != HeldOf(w.tasks[u].pc).value.claimId
  }

  lemma HeldIsIssued(w: World, t: TaskId)
    requires Inv(w) && t in w.tasks && HeldOf(w.tasks[t].pc).Some?
    ensures var held := HeldOf(w.tasks[t].pc).value;
      Holds(w, held) && held.claimId < w.leases.table.nextClaimId
  {
    assert HonestPc(w, w.tasks[t].job, w.tasks[t].pc);
  }

  /** A step drops the claim of its task or keeps it; only the first step brings one, and a fresh one. */
  lemma StepKeepsClaim(w: World, task: Task, event: Event, at: Time)
    ensures var before, after := HeldOf(task.pc), HeldOf(StepTask(w, task, event, at).pc);
      if task.pc.Ready? then after.Some? ==> after.value.claimId == w.leases.table.nextClaimId
      else after == None || after == before
  {}

  lemma StepKeepsApart(w: World, action: Action)
    requires Inv(w) && ClaimsApart(w) && Enabled(w, action)
    ensures ClaimsApart(Apply(w, action))
  {
    if action.Step? {
      StepKeepsClaim(w, w.tasks[action.task], action.event, action.at);
      forall t | t in w.tasks && HeldOf(w.tasks[t].pc).Some?
        ensures HeldOf(w.tasks[t].pc).value.claimId < w.leases.table.nextClaimId
      {
        HeldIsIssued(w, t);
      }
    }
  }

  lemma {:induction false} RunKeepsApart(w: World, run: seq<Action>)
    requires Inv(w) && ClaimsApart(w) && Executable(w, run)
    ensures ClaimsApart(After(w, run))
    decreases |run|
  {
    if run != [] {
      StepKeepsInv(w, run[0]);
      StepKeepsApart(w, run[0]);
      RunKeepsApart(Apply(w, run[0]), run[1..]);
    }
  }

  /** Between the confirmed heartbeat and the closing of the claim. */
  predicate Persisting(pc: Pc) {
    pc.Confirmed? || pc.Stored? || pc.Published? || pc.Finishing?
  }

  /** The claim was not closed, and its last renewal is younger than its lease. */
  ghost predicate LiveClaim(s: LP.System, id: ClaimId) {
    id in s.beliefs && s.beliefs[id].closings == 0 && s.now < s.beliefs[id].renewedAt + s.beliefs[id].lease
  }

  /** In every reachable state, of two different tasks that persist results for one row at most one has a live claim;
    * that one owns the row. */
  lemma OneTaskPersistsPerRow(run: seq<Action>, t: TaskId, u: TaskId)
    requires Executable(INITIAL, run)
    requires var w := After(INITIAL, run);
      && t in w.tasks && u in w.tasks && t != u && Persisting(w.tasks[t].pc) && Persisting(w.tasks[u].pc)
      && w.tasks[t].pc.held.key == w.tasks[u].pc.held.key
    ensures var w := After(INITIAL, run);
      LiveClaim(w.leases, w.tasks[t].pc.held.claimId) ==>
        && !LiveClaim(w.leases, w.tasks[u].pc.held.claimId)
        && Lookup(w.leases.table.rows, w.tasks[t].pc.held.key).Some?
        && var row := Lookup(w.leases.table.rows, w.tasks[t].pc.held.key).value;
           row.claimId == w.tasks[t].pc.held.claimId && row.status == ActiveClaim
           && row.claimedBy == Some(w.tasks[t].pc.held.worker)
  {
    StartIsHonest();
    RunKeepsInv(INITIAL, run);
    RunKeepsApart(INITIAL, run);
    var w := After(INITIAL, run);
    HeldIsIssued(w, t);
    HeldIsIssued(w, u);
    if LiveClaim(w.leases, w.tasks[t].pc.held.claimId) {
      ProcessRefinesLeaseProtocol(INITIAL, run);
      LP.LeaseExclusion(LeaseRun(INITIAL, run), w.tasks[t].pc.held.claimId);
    }
  }
}

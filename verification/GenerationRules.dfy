/** The rules of a generation run, read off its stored fields alone: which steps are accepted in a reachable run, what each of them
    leaves, and which runs can be finished at all. */
module GenerationRules {
  import opened Prelude
  import opened PythonText
  import opened GenerationRun
  import opened GenerationInvariants
  import opened GenerationHistory

  /* ---------- claims ---------- */

  predicate IsWorkerName(worker: string) {
    1 <= |Strip(worker)| <= 80
  }

  predicate IsUnclaimed(r: Run) {
    r.status == Queued || r.status == GenerationQueued || r.status == Retryable
  }

  predicate HasLapsed(r: Run, now: int) {
    (r.status == Planning || r.status == Generating) && r.lease.Some? && r.lease.value.expiresAt <= now
  }

  /** A claim gets a run that nobody holds, by its status or because the lease has lapsed, while attempts are left and the rights are
      active. */
  lemma ClaimIsAnswered(r: Run, worker: string, now: int, rightsActive: bool)
    requires Inv(r)
    ensures var answer, held := Next(r, Claim(worker, now, rightsActive)).answer, IsWorking(r.status) && !HasLapsed(r, now);
      && (answer == Claimed <==>
            IsWorkerName(worker) && (IsUnclaimed(r) || HasLapsed(r, now)) && r.attemptCount < r.maxAttempts && rightsActive)
      && (answer == Error("GENERATION_LEASE_CONFLICT") <==> !IsWorkerName(worker) || held)
      && (answer == Claimed || answer == NotClaimed || answer == Error("GENERATION_LEASE_CONFLICT"))
  {
    hide EndRunning, HasApprovedBlueprint, Strip, RowVersionFits, EvidenceFits, DecisionsFit;
  }

  /** The attempts once a lapsed one is given back. */
  function GivenBack(r: Run, now: int): seq<Attempt> {
    var last := |r.attempts| - 1;
    if HasLapsed(r, now) && r.attempts != []
    then r.attempts[last := r.attempts[last].(outcome := OutcomeRetryable, reason := Some("GENERATION_LEASE_CONFLICT"))]
    else r.attempts
  }

  /** A claim of a run without lease. */
  lemma FreeClaimLeaves(r: Run, worker: string, now: int, rightsActive: bool)
    requires r.lease.None? && (HasApprovedBlueprint(r) <==> r.blueprints != []) && (r.status == GenerationQueued ==> r.blueprints != [])
    ensures var after := ClaimFree(r, worker, now, rightsActive).after;
      var stage := if r.blueprints != [] then GeneratingStage else PlanningStage;
      after ==
        if r.attemptCount >= r.maxAttempts then
          r.(status := Failed, reason := Some("GENERATION_RETRY_EXHAUSTED"), rowVersion := r.rowVersion + 1)
        else if !rightsActive then
          r.(status := RightsBlocked, reason := Some("GENERATION_RIGHTS_INACTIVE"), rowVersion := r.rowVersion + 1)
        else
          r.(status := if stage == GeneratingStage then Generating else Planning, reason := None,
             lease := Some(Lease(worker, now + 300)), rowVersion := r.rowVersion + 1, attemptCount := r.attemptCount + 1,
             attempts := r.attempts + [Attempt(r.attemptCount + 1, stage, Running, None, None)])
  {
    hide HasApprovedBlueprint;
  }

  /** What a claim leaves: the next attempt of the stage that the blueprint calls for, under a lease of 300 seconds; or a run that is
      closed for want of attempts or rights. */
  lemma ClaimLeaves(r: Run, worker: string, now: int, rightsActive: bool)
    requires Inv(r) && IsWorkerName(worker) && (IsUnclaimed(r) || HasLapsed(r, now))
    ensures var after := Next(r, Claim(worker, now, rightsActive)).after;
      var row := r.rowVersion + (if HasLapsed(r, now) then 2 else 1);
      var stage := if r.blueprints != [] then GeneratingStage else PlanningStage;
      after ==
        if r.attemptCount >= r.maxAttempts then
          r.(status := Failed, reason := Some("GENERATION_RETRY_EXHAUSTED"), lease := None, rowVersion := row, attempts := GivenBack(r, now))
        else if !rightsActive then
          r.(status := RightsBlocked, reason := Some("GENERATION_RIGHTS_INACTIVE"), lease := None, rowVersion := row,
             attempts := GivenBack(r, now))
        else
          r.(status := if stage == GeneratingStage then Generating else Planning, reason := None,
             lease := Some(Lease(Strip(worker), now + 300)), rowVersion := row, attemptCount := r.attemptCount + 1,
             attempts := GivenBack(r, now) + [Attempt(r.attemptCount + 1, stage, Running, None, None)])
  {
    hide Strip, Inv, HasApprovedBlueprint, ClaimFree, Lapsed, GivenBack;
    StoredMeansApproved(r);
    if HasLapsed(r, now) {
      LapsedIsGivenBack(r, now);
      FreeClaimLeaves(Lapsed(r), Strip(worker), now, rightsActive);
    } else {
      HeldByNobody(r);
      NothingGivenBack(r, now);
      FreeClaimLeaves(r, Strip(worker), now, rightsActive);
    }
  }

  lemma HeldByNobody(r: Run)
    requires Inv(r) && !IsWorking(r.status)
    ensures r.lease.None?
  {
    NoLease(r);
  }

  lemma NothingGivenBack(r: Run, now: int)
    requires !HasLapsed(r, now)
    ensures GivenBack(r, now) == r.attempts
  {}

  lemma LapsedIsGivenBack(r: Run, now: int)
    requires Inv(r) && HasLapsed(r, now)
    ensures Lapsed(r) == r.(status := Retryable, reason := Some("GENERATION_LEASE_CONFLICT"), lease := None, rowVersion := r.rowVersion + 1,
                            attempts := GivenBack(r, now))
    ensures HasApprovedBlueprint(Lapsed(r)) <==> HasApprovedBlueprint(r)
  {
    hide EndRunning, RowVersionFits, EvidenceFits, DecisionsFit, Ended, CompletedIn;
    EndRunningEndsLast(r);
  }

  /** What is stored for a run that a worker may take is an approved blueprint. */
  lemma StoredMeansApproved(r: Run)
    requires Inv(r) && (IsUnclaimed(r) || IsWorking(r.status))
    ensures r.blueprints != [] <==> IsApproved(r)
    ensures HasApprovedBlueprint(r) <==> IsApproved(r)
    ensures r.status == GenerationQueued ==> IsApproved(r)
  {
    hide Ended, CompletedIn;
    ApprovedIsStored(r);
  }

  /* ---------- commits and failures ---------- */

  /** A claim at `t` lets its worker commit the stage at every clock reading before `t + 300`, and at no later one. */
  lemma ClaimLastsFiveMinutes(r: Run, worker: string, t: int, commit: Step)
    requires Inv(r) && Next(r, Claim(worker, t, true)).answer == Claimed
    requires IsCommit(commit) && Strip(commit.worker) == Strip(worker) && commit.rightsActive
    requires commit.PersistBlueprint? <==> r.blueprints == []
    ensures Next(Next(r, Claim(worker, t, true)).after, commit).answer == Saved <==> commit.now < t + 300
  {
    hide Inv, Next, Strip;
    ClaimIsAnswered(r, worker, t, true);
    ClaimLeaves(r, worker, t, true);
    NextKeeps(r, Claim(worker, t, true));
    CommitNeedsLease(Next(r, Claim(worker, t, true)).after, commit);
  }

  /** What an accepted commit leaves: the evidence under its hash, the attempt completed with it, the lease gone. */
  lemma CommitLeaves(r: Run, step: Step)
    requires Inv(r) && IsCommit(step) && Next(r, step).answer == Saved
    ensures r.attempts != []
    ensures var last := |r.attempts| - 1;
      var output := if step.PersistBlueprint? then step.contentHash else step.outputHash;
      var closed := r.(reason := None, lease := None, rowVersion := r.rowVersion + 1,
                       attempts := r.attempts[last := r.attempts[last].(outcome := Completed, output := Some(output))]);
      Next(r, step).after ==
        if step.PersistBlueprint? then
          closed.(status := BlueprintReview, blueprintHash := Some(step.contentHash), blueprints := [Blueprint(1, Reviewable, step.contentHash)])
        else closed.(status := ReviewReady, outputHash := Some(step.outputHash), lessons := step.lessons)
  {
    hide Ended, CompletedIn, Strip, AttemptsFit, RowVersionFits, DecisionsFit;
  }

  /** What a recorded failure leaves: blocked rights and a final failure close the run, a retryable one only when it was the last
      attempt; the attempt keeps the code of its own failure. */
  lemma FailureLeaves(r: Run, step: Step)
    requires Inv(r) && step.FinishFailure? && OwnsLease(r, step.worker)
    ensures r.attempts != []
    ensures var last, exhausted := |r.attempts| - 1, step.retryable && r.attemptCount == r.maxAttempts;
      var (status, outcome) :=
        if step.rightsBlocked then (RightsBlocked, OutcomeRightsBlocked)
        else if step.retryable && !exhausted then (Retryable, OutcomeRetryable)
        else (Failed, OutcomeFailed);
      Next(r, step).after ==
        r.(status := status, reason := Some(if exhausted then "GENERATION_RETRY_EXHAUSTED" else step.reasonCode), lease := None,
           rowVersion := r.rowVersion + 1,
           attempts := r.attempts[last := r.attempts[last].(outcome := outcome, reason := Some(step.reasonCode))])
  {
    hide Ended, CompletedIn, Strip, RowVersionFits, EvidenceFits, DecisionsFit;
  }

  /* ---------- human decisions ---------- */

  /** An approval is saved if and only if the run is in blueprint review at the expected row, and the hash named is that of the one
      blueprint stored. */
  lemma ApprovalIsDecided(r: Run, step: Step)
    requires Inv(r) && step.Approve?
    ensures Next(r, step) ==
      if r.blueprints == [] || step.revision != 1 then Result(r, Error("GENERATION_RESOURCE_NOT_FOUND"))
      else if r.status == BlueprintReview && r.rowVersion == step.expectedRow && r.blueprintHash == Some(step.expectedHash) then
        Result(r.(status := GenerationQueued, rowVersion := r.rowVersion + 1,
                  decisions := [Decision(step.actor, true, step.expectedHash)],
                  blueprints := [Blueprint(1, ApprovedBlueprint, step.expectedHash)]), Saved)
      else Result(r, Error("GENERATION_VERSION_CONFLICT"))
    ensures Next(r, step).answer == Saved <==>
      r.status == BlueprintReview && step.revision == 1 && r.rowVersion == step.expectedRow && r.blueprintHash == Some(step.expectedHash)
  {
    hide Ended, CompletedIn, RowVersionFits;
    if r.blueprints != [] { assert r.blueprints[0] in r.blueprints; }
  }

  /** A rejection is saved if and only if the run is in one of its two reviews at the expected row, and the hash named is that of what
      is reviewed there. */
  lemma RejectionIsDecided(r: Run, step: Step)
    requires Inv(r) && step.Reject?
    ensures var reviewed := if r.status == BlueprintReview then r.blueprintHash else r.outputHash;
      var closed := r.(status := Rejected, reason := Some(step.reasonCode), rowVersion := r.rowVersion + 1);
      Next(r, step) ==
        if r.rowVersion != step.expectedRow then Result(r, Error("GENERATION_VERSION_CONFLICT"))
        else if r.status != BlueprintReview && r.status != ReviewReady then Result(r, Error("GENERATION_STATE_CONFLICT"))
        else if reviewed != Some(step.expectedHash) then Result(r, Error("GENERATION_VERSION_CONFLICT"))
        else if r.status == BlueprintReview then
          Result(closed.(decisions := [Decision(step.actor, false, step.expectedHash)],
                         blueprints := [Blueprint(1, RejectedBlueprint, step.expectedHash)]), Saved)
        else Result(closed.(rejections := [step.expectedHash]), Saved)
    ensures Next(r, step).answer == Saved <==>
      && r.rowVersion == step.expectedRow
      && ((r.status == BlueprintReview && r.blueprintHash == Some(step.expectedHash))
          || (r.status == ReviewReady && r.outputHash == Some(step.expectedHash)))
  {
    hide Ended, CompletedIn, RowVersionFits;
    if r.blueprints != [] { assert r.blueprints[0] in r.blueprints; }
  }

  /** A canonicalization is saved if and only if the run is ready for review at the expected row with the output named, its source is
      ready, its rights are active and the course draft is created. */
  lemma CanonicalizationIsDecided(r: Run, step: Step)
    requires Inv(r) && step.Canonicalize?
    ensures Next(r, step) ==
      if r.status != ReviewReady || r.rowVersion != step.expectedRow || r.outputHash != Some(step.expectedHash) then
        Result(r, Error("GENERATION_OUTPUT_HASH_MISMATCH"))
      else if !step.sourceReady then Result(r, Error("GENERATION_SOURCE_NOT_READY"))
      else if !step.rightsActive then Result(r, Error("GENERATION_RIGHTS_INACTIVE"))
      else if !step.draftCreated then Result(r, Error("SERVICE_CONTRACT_ERROR"))
      else Result(r.(status := Canonicalized, rowVersion := r.rowVersion + 1, canonicalizations := [step.expectedHash]), Saved)
    ensures Next(r, step).answer == Saved <==>
      && r.status == ReviewReady && r.rowVersion == step.expectedRow && r.outputHash == Some(step.expectedHash)
      && step.sourceReady && step.rightsActive && step.draftCreated
  {
    hide Ended, CompletedIn, RowVersionFits;
    ApprovedIsStored(r);
  }

  predicate IsDecision(step: Step) {
    step.Approve? || step.Reject? || step.Canonicalize?
  }

  lemma DecisionExpectsRow(r: Run, step: Step)
    requires Inv(r) && IsDecision(step) && Next(r, step).answer == Saved
    ensures r.rowVersion == step.expectedRow && Next(r, step).after.rowVersion == r.rowVersion + 1
  {
    hide Inv, Next;
    match step
    case Approve(_, _, _, _) => ApprovalIsDecided(r, step);
    case Reject(_, _, _, _) => RejectionIsDecided(r, step);
    case Canonicalize(_, _, _, _, _, _) => CanonicalizationIsDecided(r, step);
  }

  /** Of two human decisions that expect one row version at most one is saved, whatever happens between them. */
  lemma OneDecisionPerRow(r: Run, first: Step, between: seq<Step>, second: Step)
    requires Inv(r) && Possible(between) && IsDecision(first) && IsDecision(second) && second.expectedRow == first.expectedRow
    requires Next(r, first).answer == Saved
    ensures Next(RunOf(Next(r, first).after, between), second).answer != Saved
  {
    hide Inv, Next, RunOf;
    var decided := Next(r, first).after;
    DecisionExpectsRow(r, first);
    NextKeeps(r, first);
    StaysReachable(decided, between);
    ChangesAreCounted(decided, between);
    if Next(RunOf(decided, between), second).answer == Saved { DecisionExpectsRow(RunOf(decided, between), second); }
  }

  lemma {:induction false} StaysReachable(r: Run, steps: seq<Step>)
    requires Inv(r) && Possible(steps)
    ensures Inv(RunOf(r, steps))
  {
    hide Inv, Next;
    if steps != [] {
      var last := |steps| - 1;
      assert steps[last] in steps && forall step | step in steps[..last] :: step in steps;
      StaysReachable(r, steps[..last]);
      NextKeeps(RunOf(r, steps[..last]), steps[last]);
    }
  }

  /* ---------- runs that are finished ---------- */

  /** One worker plans, a human approves, another worker writes the lessons, a human makes them a course. */
  datatype Happy = Happy(planner: string, claimedAt: int, plannedAt: int, contentHash: Hash, approver: nat,
                         writer: string, reclaimedAt: int, writtenAt: int, lessons: seq<Hash>, outputHash: Hash, author: nat)

  function StepsOf(h: Happy, row: int): (steps: seq<Step>)
    ensures |steps| == 6
  {
    [Claim(h.planner, h.claimedAt, true), PersistBlueprint(h.planner, h.plannedAt, true, h.contentHash),
     Approve(h.approver, row + 2, 1, h.contentHash),
     Claim(h.writer, h.reclaimedAt, true), PersistLessons(h.writer, h.writtenAt, true, h.lessons, h.outputHash),
     Canonicalize(h.author, row + 5, h.outputHash, true, true, true)]
  }

  predicate IsTimely(h: Happy) {
    && IsWorkerName(h.planner) && IsWorkerName(h.writer) && h.lessons != []
    && h.plannedAt < h.claimedAt + 300 && h.writtenAt < h.reclaimedAt + 300
  }

  lemma PlanIsApproved(r: Run, h: Happy)
    requires Inv(r) && IsUnclaimed(r) && r.blueprints == [] && r.attemptCount < r.maxAttempts && IsTimely(h)
    ensures var planned := Next(Next(r, StepsOf(h, r.rowVersion)[0]).after, StepsOf(h, r.rowVersion)[1]).after;
      var approved := Next(planned, StepsOf(h, r.rowVersion)[2]).after;
      && Inv(approved) && approved.status == GenerationQueued && approved.rowVersion == r.rowVersion + 3
      && approved.attemptCount == r.attemptCount + 1 && approved.maxAttempts == r.maxAttempts && approved.blueprints != []
  {
    hide Inv, Next, IsUnclaimed, Strip;
    var steps := StepsOf(h, r.rowVersion);
    ClaimIsAnswered(r, h.planner, h.claimedAt, true);
    ClaimLeaves(r, h.planner, h.claimedAt, true);
    NextKeeps(r, steps[0]);
    var claimed := Next(r, steps[0]).after;
    ClaimLastsFiveMinutes(r, h.planner, h.claimedAt, steps[1]);
    CommitLeaves(claimed, steps[1]);
    NextKeeps(claimed, steps[1]);
    var planned := Next(claimed, steps[1]).after;
    ApprovalIsDecided(planned, steps[2]);
    NextKeeps(planned, steps[2]);
    UnclaimedIsNotHeld(r);
  }

  lemma UnclaimedIsNotHeld(r: Run)
    requires IsUnclaimed(r)
    ensures forall now :: !HasLapsed(r, now)
    ensures !IsWorking(r.status)
  {}

  lemma LessonsAreCanonical(r: Run, h: Happy, row: int)
    requires Inv(r) && r.status == GenerationQueued && r.blueprints != [] && r.rowVersion == row + 3 && r.attemptCount < r.maxAttempts
    requires IsTimely(h)
    ensures var steps := StepsOf(h, row);
      var last := Next(Next(Next(r, steps[3]).after, steps[4]).after, steps[5]).after;
      last.status == Canonicalized && last.lessons == h.lessons && last.canonicalizations == [h.outputHash]
  {
    hide Inv, Next, Strip;
    var steps := StepsOf(h, row);
    ClaimIsAnswered(r, h.writer, h.reclaimedAt, true);
    ClaimLeaves(r, h.writer, h.reclaimedAt, true);
    NextKeeps(r, steps[3]);
    var claimed := Next(r, steps[3]).after;
    ClaimLastsFiveMinutes(r, h.writer, h.reclaimedAt, steps[4]);
    CommitLeaves(claimed, steps[4]);
    NextKeeps(claimed, steps[4]);
    CanonicalizationIsDecided(Next(claimed, steps[4]).after, steps[5]);
  }

  lemma OneMoreStep(r: Run, steps: seq<Step>, n: nat)
    requires n < |steps|
    ensures RunOf(r, steps[..n + 1]) == Next(RunOf(r, steps[..n]), steps[n]).after
  {
    hide Next;
    assert steps[..n + 1][..n] == steps[..n];
  }

  /** From every reachable unplanned run with two attempts left, timely commits and decisions at the current rows lead to a course. */
  lemma HappyRunsFinish(r: Run, h: Happy)
    requires Inv(r) && IsUnclaimed(r) && r.blueprints == [] && r.attemptCount + 2 <= r.maxAttempts && IsTimely(h)
    ensures var last := RunOf(r, StepsOf(h, r.rowVersion));
      last.status == Canonicalized && last.lessons == h.lessons && last.canonicalizations == [h.outputHash]
  {
    hide Inv, Next, RunOf, IsUnclaimed, IsTimely;
    var steps := StepsOf(h, r.rowVersion);
    NoStepYet(r, steps);
    forall n | 0 <= n < 6 ensures RunOf(r, steps[..n + 1]) == Next(RunOf(r, steps[..n]), steps[n]).after { OneMoreStep(r, steps, n); }
    PlanIsApproved(r, h);
    LessonsAreCanonical(RunOf(r, steps[..3]), h, r.rowVersion);
    assert steps[..6] == steps;
  }

  lemma NoStepYet(r: Run, steps: seq<Step>)
    ensures RunOf(r, steps[..0]) == r
  {}

  /** A run can become a course if and only if it may have two attempts, one for each stage. */
  lemma FinishingTakesTwoAttempts(maxAttempts: int)
    requires 1 <= maxAttempts <= 10
    ensures (exists steps :: Possible(steps) && RunOf(Started(maxAttempts), steps).status == Canonicalized) <==> maxAttempts >= 2
  {
    hide Inv, Next, RunOf;
    if steps :| Possible(steps) && RunOf(Started(maxAttempts), steps).status == Canonicalized {
      RunKeeps(maxAttempts, steps);
      var r := RunOf(Started(maxAttempts), steps);
      var p := ReviewedRunsHaveTwoCompletions(r);
      ChangesAreCounted(Started(maxAttempts), steps);
      AttemptsAreBounded(r);
    }
    if maxAttempts >= 2 {
      var h := Happy("w", 0, 0, "", 0, "w", 0, 0, [""], "", 0);
      StartedIsInvariant(maxAttempts);
      assert Strip("w") == "w";
      HappyRunsFinish(Started(maxAttempts), h);
      var steps := StepsOf(h, 1);
      assert Possible(steps);
    }
  }

  lemma AttemptsAreBounded(r: Run)
    requires Inv(r)
    ensures |r.attempts| <= r.maxAttempts
  {}
}

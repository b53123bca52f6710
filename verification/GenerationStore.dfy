/** The stored run, changed in place by the service methods behind the guards of the database. */
module GenerationStore {
  import opened Prelude
  import opened PythonText
  import opened GenerationRun
  import opened GenerationInvariants

  /** The status changes that `app.enforce_generation_run_mutation` admits. */
  predicate MayFollow(was: Status, next: Status) {
    was == next
    || match was
       case Queued => next in {Planning, Failed, RightsBlocked}
       case Planning => next in {BlueprintReview, Retryable, Failed, RightsBlocked}
       case BlueprintReview => next in {GenerationQueued, Rejected}
       case GenerationQueued => next in {Generating, Failed, RightsBlocked}
       case Generating => next in {ReviewReady, Retryable, Failed, RightsBlocked}
       case ReviewReady => next in {Canonicalized, Rejected}
       case Retryable => next in {Planning, Generating, Failed, RightsBlocked}
       case _ => false
  }

  /** The columns of the run row. */
  datatype Row = Row(status: Status, rowVersion: int, attemptCount: int, lease: Option<Lease>, reason: Option<Code>,
                     blueprintHash: Option<Hash>, outputHash: Option<Hash>)

  /** What the trigger on the run table demands of one update, given the decisions already stored. */
  predicate RunGuard(was: Row, next: Row, decisions: seq<Decision>, rejections: seq<Hash>, canonicalizations: seq<Hash>) {
    && MayFollow(was.status, next.status)
    && (next.status != was.status ==> next.rowVersion == was.rowVersion + 1)
    && (IsTerminal(was.status) ==> next == was)
    && (was.status == BlueprintReview && next.status == GenerationQueued ==>
          exists d | d in decisions :: d.approves && Some(d.reviewedHash) == was.blueprintHash)
    && (was.status == BlueprintReview && next.status == Rejected ==>
          exists d | d in decisions :: !d.approves && Some(d.reviewedHash) == was.blueprintHash)
    && (was.status == ReviewReady && next.status == Rejected ==> exists h | h in rejections :: Some(h) == was.outputHash)
    && (was.status == ReviewReady && next.status == Canonicalized ==> exists h | h in canonicalizations :: Some(h) == was.outputHash)
  }

  /** What the trigger on the attempt table demands. */
  predicate AttemptGuard(was: Attempt, next: Attempt) {
    next.number == was.number && next.stage == was.stage && (was.outcome != Running ==> next == was)
  }

  /** A run that was never claimed has no approved blueprint. */
  lemma QueuedIsUnapproved(r: Run)
    requires Inv(r)
    ensures r.status == Queued ==> !HasApprovedBlueprint(r)
  {
    hide Ended, CompletedIn, RowVersionFits, DecisionsFit, AttemptsFit;
    ApprovedIsStored(r);
  }

  class Store {
    const maxAttempts: int
    var row: Row
    var attempts: seq<Attempt>
    var blueprints: seq<Blueprint>
    var decisions: seq<Decision>
    var lessons: seq<Hash>
    var rejections: seq<Hash>
    var canonicalizations: seq<Hash>

    constructor (maxAttempts: int)
      requires 1 <= maxAttempts <= 10
      ensures Stored() == Started(maxAttempts) && Inv(Stored())
    {
      StartedIsInvariant(maxAttempts);
      this.maxAttempts := maxAttempts;
      row := Row(Queued, 1, 0, None, None, None, None);
      attempts, blueprints, decisions, lessons, rejections, canonicalizations := [], [], [], [], [], [];
    }

    function Stored(): Run
      reads this
    {
      Run(row.status, row.rowVersion, row.attemptCount, maxAttempts, row.lease, row.reason, row.blueprintHash, row.outputHash,
          attempts, blueprints, decisions, lessons, rejections, canonicalizations)
    }

    /** `run.save()` */
    method SaveRun(next: Row)
      requires RunGuard(row, next, decisions, rejections, canonicalizations)
      modifies this`row
      ensures row == next
    {
      row := next;
    }

    /** `attempt.save()` */
    method SaveAttempt(i: nat, next: Attempt)
      requires i < |attempts| && AttemptGuard(attempts[i], next)
      modifies this`attempts
      ensures attempts == old(attempts)[i := next]
    {
      attempts := attempts[i := next];
    }

    /** `blueprint.save(update_fields=("status",))` */
    method SaveBlueprintStatus(i: nat, status: BlueprintStatus)
      requires i < |blueprints| && blueprints[i].status == Reviewable
      modifies this`blueprints
      ensures blueprints == old(blueprints)[i := old(blueprints)[i].(status := status)]
    {
      blueprints := blueprints[i := blueprints[i].(status := status)];
    }

    /** The bulk update of running attempts, row by row. */
    method EndRunningAttempts(reason: Code)
      modifies this`attempts
      ensures attempts == EndRunning(old(attempts), OutcomeRetryable, reason)
    {
      ghost var was := attempts;
      for i := 0 to |attempts|
        invariant |attempts| == |was|
        invariant attempts[..i] == EndRunning(was, OutcomeRetryable, reason)[..i] && attempts[i..] == was[i..]
      {
        var attempt := attempts[i];
        assert attempt == was[i] by { assert attempts[i..][0] == was[i..][0]; }
        if attempt.outcome == Running {
          SaveAttempt(i, attempt.(outcome := OutcomeRetryable, reason := Some(reason)));
        }
        assert attempts[..i + 1] == attempts[..i] + [attempts[i]] && attempts[i + 1..] == was[i + 1..];
      }
      assert attempts == attempts[..|attempts|];
    }

    /** `_claim` */
    method ClaimRun(worker: string, now: int, rightsActive: bool) returns (answer: Answer)
      requires Inv(Stored())
      modifies this
      ensures Result(Stored(), answer) == Next(old(Stored()), Claim(worker, now, rightsActive)) && Inv(Stored())
    {
      hide Strip, Ended, CompletedIn, Inv, HasApprovedBlueprint;
      ClaimKeeps(Stored(), worker, now, rightsActive);
      var name := Strip(worker);
      if !(1 <= |name| <= MAX_WORKER_ID) { return Error("GENERATION_LEASE_CONFLICT"); }
      if IsTerminal(row.status) || row.status == BlueprintReview || row.status == ReviewReady { return NotClaimed; }
      if IsWorking(row.status) {
        if row.lease.None? || row.lease.value.expiresAt > now { return Error("GENERATION_LEASE_CONFLICT"); }
        EndRunningAttempts("GENERATION_LEASE_CONFLICT");
        SaveRun(row.(status := Retryable, reason := Some("GENERATION_LEASE_CONFLICT"), lease := None, rowVersion := row.rowVersion + 1));
        assert Stored() == Lapsed(old(Stored()));
        LapsedKeeps(old(Stored()));
      }
      answer := StartAttempt(name, now, rightsActive);
    }

    /** The rest of `_claim`, for a run that no attempt holds. */
    method StartAttempt(name: string, now: int, rightsActive: bool) returns (answer: Answer)
      requires Inv(Stored()) && row.status in {Queued, GenerationQueued, Retryable}
      modifies this
      ensures Result(Stored(), answer) == ClaimFree(old(Stored()), name, now, rightsActive)
    {
      hide Inv;
      QueuedIsUnapproved(Stored());
      if row.attemptCount >= maxAttempts {
        SaveRun(row.(status := Failed, reason := Some("GENERATION_RETRY_EXHAUSTED"), rowVersion := row.rowVersion + 1));
        return NotClaimed;
      }
      if !rightsActive {
        SaveRun(row.(status := RightsBlocked, reason := Some("GENERATION_RIGHTS_INACTIVE"), lease := None, rowVersion := row.rowVersion + 1));
        return NotClaimed;
      }
      var generating := row.status == GenerationQueued || exists b | b in blueprints :: b.status == ApprovedBlueprint;
      SaveRun(row.(status := if generating then Generating else Planning, reason := None, attemptCount := row.attemptCount + 1,
                   lease := Some(Lease(name, now + LEASE_SECONDS)), rowVersion := row.rowVersion + 1));
      attempts := attempts + [Attempt(row.attemptCount, if generating then GeneratingStage else PlanningStage, Running, None, None)];
      answer := Claimed;
    }

    /** `_persist_blueprint` */
    method CommitBlueprint(step: Step) returns (answer: Answer)
      requires Inv(Stored()) && step.PersistBlueprint?
      modifies this
      ensures Result(Stored(), answer) == Next(old(Stored()), step) && Inv(Stored())
    {
      hide Strip, Ended, CompletedIn, Inv;
      CommitBlueprintKeeps(Stored(), step);
      if !HasRunning(Stored()) { return Error("GENERATION_STATE_CONFLICT"); }
      if !HoldsLease(Stored(), Planning, step.worker, step.now) { return Error("GENERATION_LEASE_CONFLICT"); }
      if !step.rightsActive { return RightsBlockedError; }
      if exists b | b in blueprints :: b.revision == 1 { return Error("IntegrityError"); }
      blueprints := blueprints + [Blueprint(1, Reviewable, step.contentHash)];
      SaveRun(row.(status := BlueprintReview, blueprintHash := Some(step.contentHash), reason := None, lease := None,
                   rowVersion := row.rowVersion + 1));
      var last := |attempts| - 1;
      SaveAttempt(last, attempts[last].(outcome := Completed, output := Some(step.contentHash)));
      answer := Saved;
    }

    /** `_persist_lessons` */
    method CommitLessons(step: Step) returns (answer: Answer)
      requires Inv(Stored()) && step.PersistLessons? && IsPossible(step)
      modifies this
      ensures Result(Stored(), answer) == Next(old(Stored()), step) && Inv(Stored())
    {
      hide Strip, Ended, CompletedIn, Inv;
      CommitLessonsKeeps(Stored(), step);
      if !HasRunning(Stored()) { return Error("GENERATION_STATE_CONFLICT"); }
      if !HoldsLease(Stored(), Generating, step.worker, step.now) { return Error("GENERATION_LEASE_CONFLICT"); }
      if !step.rightsActive { return RightsBlockedError; }
      for i := 0 to |step.lessons|
        invariant lessons == old(lessons) + step.lessons[..i]
        invariant Stored() == old(Stored()).(lessons := lessons)
      {
        lessons := lessons + [step.lessons[i]];
      }
      assert lessons == old(lessons) + step.lessons;
      SaveRun(row.(status := ReviewReady, outputHash := Some(step.outputHash), reason := None, lease := None,
                   rowVersion := row.rowVersion + 1));
      var last := |attempts| - 1;
      SaveAttempt(last, attempts[last].(outcome := Completed, output := Some(step.outputHash)));
      answer := Saved;
    }

    /** `_finish_failure` */
    method FinishFailureOf(step: Step) returns (answer: Answer)
      requires Inv(Stored()) && step.FinishFailure?
      modifies this
      ensures Result(Stored(), answer) == Next(old(Stored()), step) && Inv(Stored())
    {
      hide Strip, Ended, CompletedIn, Inv;
      FailKeeps(Stored(), step);
      if !HasRunning(Stored()) { return Error("GENERATION_STATE_CONFLICT"); }
      if !IsWorking(row.status) || row.lease.None? || row.lease.value.owner != Strip(step.worker) {
        return Error("GENERATION_LEASE_CONFLICT");
      }
      var exhausted := step.retryable && row.attemptCount >= maxAttempts;
      var status := if step.rightsBlocked then RightsBlocked else if exhausted || !step.retryable then Failed else Retryable;
      SaveRun(row.(status := status, reason := Some(if exhausted then "GENERATION_RETRY_EXHAUSTED" else step.reasonCode), lease := None,
                   rowVersion := row.rowVersion + 1));
      var last := |attempts| - 1;
      var outcome := if step.rightsBlocked then OutcomeRightsBlocked else if row.status == Retryable then OutcomeRetryable else OutcomeFailed;
      SaveAttempt(last, attempts[last].(outcome := outcome, reason := Some(step.reasonCode)));
      answer := Saved;
    }

    /** `approve_blueprint`: the decision is stored before the run may be queued for generation. */
    method ApproveBlueprintOf(step: Step) returns (answer: Answer)
      requires Inv(Stored()) && step.Approve?
      modifies this
      ensures Result(Stored(), answer) == Next(old(Stored()), step) && Inv(Stored())
    {
      hide Ended, CompletedIn, Inv, FindBlueprint;
      ApproveKeeps(Stored(), step);
      var found := FindBlueprint(blueprints, step.revision);
      if found.None? { return Error("GENERATION_RESOURCE_NOT_FOUND"); }
      var blueprint := blueprints[found.value];
      if row.status != BlueprintReview || blueprint.status != Reviewable || row.rowVersion != step.expectedRow
        || row.blueprintHash != Some(step.expectedHash) || blueprint.contentHash != step.expectedHash {
        return Error("GENERATION_VERSION_CONFLICT");
      }
      var decision := Decision(step.actor, true, step.expectedHash);
      decisions := decisions + [decision];
      assert decision in decisions;
      SaveBlueprintStatus(found.value, ApprovedBlueprint);
      SaveRun(row.(status := GenerationQueued, reason := None, rowVersion := row.rowVersion + 1));
      answer := Saved;
    }

    /** `reject_generation` */
    method RejectRunOf(step: Step) returns (answer: Answer)
      requires Inv(Stored()) && step.Reject?
      modifies this
      ensures Result(Stored(), answer) == Next(old(Stored()), step) && Inv(Stored())
    {
      hide Ended, CompletedIn, Inv, FindReviewable;
      RejectKeeps(Stored(), step);
      if row.rowVersion != step.expectedRow { return Error("GENERATION_VERSION_CONFLICT"); }
      if row.status == BlueprintReview {
        var found := FindReviewable(blueprints);
        if found.None? { return Error("GENERATION_STATE_CONFLICT"); }
        if blueprints[found.value].contentHash != step.expectedHash || row.blueprintHash != Some(step.expectedHash) {
          return Error("GENERATION_VERSION_CONFLICT");
        }
        var decision := Decision(step.actor, false, step.expectedHash);
        decisions := decisions + [decision];
        assert decision in decisions;
        SaveBlueprintStatus(found.value, RejectedBlueprint);
      } else if row.status == ReviewReady {
        if row.outputHash != Some(step.expectedHash) { return Error("GENERATION_VERSION_CONFLICT"); }
        rejections := rejections + [step.expectedHash];
        assert step.expectedHash in rejections;
      } else {
        return Error("GENERATION_STATE_CONFLICT");
      }
      SaveRun(row.(status := Rejected, reason := Some(step.reasonCode), rowVersion := row.rowVersion + 1));
      answer := Saved;
    }

    /** `canonicalize_generation`, as far as the run is concerned. */
    method CanonicalizeRunOf(step: Step) returns (answer: Answer)
      requires Inv(Stored()) && step.Canonicalize?
      modifies this
      ensures Result(Stored(), answer) == Next(old(Stored()), step) && Inv(Stored())
    {
      hide Ended, CompletedIn, Inv;
      CanonicalizeKeeps(Stored(), step);
      if row.status != ReviewReady || row.rowVersion != step.expectedRow || row.outputHash != Some(step.expectedHash) {
        return Error("GENERATION_OUTPUT_HASH_MISMATCH");
      }
      if !step.sourceReady || !HasApprovedBlueprint(Stored()) { return Error("GENERATION_SOURCE_NOT_READY"); }
      if !step.rightsActive { return Error("GENERATION_RIGHTS_INACTIVE"); }
      if !step.draftCreated { return Error("SERVICE_CONTRACT_ERROR"); }
      canonicalizations := canonicalizations + [step.expectedHash];
      assert step.expectedHash in canonicalizations;
      SaveRun(row.(status := Canonicalized, reason := None, rowVersion := row.rowVersion + 1));
      answer := Saved;
    }
  }
}

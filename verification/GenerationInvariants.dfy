/** What every interleaving of workers and reviewers keeps. */
module GenerationInvariants {
  import opened Prelude
  import opened PythonText
  import opened GenerationRun

  /* ---------- one step ---------- */

  lemma LapsedKeeps(r: Run)
    requires Inv(r) && IsWorking(r.status)
    ensures Inv(Lapsed(r))
  {
    hide Ended, CompletedIn, EndRunning;
    EndRunningEndsLast(r);
    var last := r.attempts[|r.attempts| - 1];
    LastAttemptEnds(r.attempts, last.(outcome := OutcomeRetryable, reason := Some("GENERATION_LEASE_CONFLICT")));
    var after := Lapsed(r);
    assert forall i :: 0 <= i < |r.attempts| - 1 ==> after.attempts[i] == r.attempts[i];
    SameStages(r.attempts, after.attempts);
  }

  lemma SameStages(was: seq<Attempt>, now: seq<Attempt>)
    requires |was| == |now| && forall i :: 0 <= i < |was| ==> now[i].stage == was[i].stage
    ensures (forall a | a in was :: a.stage == PlanningStage) <==> (forall a | a in now :: a.stage == PlanningStage)
  {
    if forall a | a in was :: a.stage == PlanningStage {
      forall a | a in now ensures a.stage == PlanningStage {
        var i :| 0 <= i < |now| && now[i] == a;
        assert was[i] in was;
      }
    }
    if forall a | a in now :: a.stage == PlanningStage {
      forall a | a in was ensures a.stage == PlanningStage {
        var i :| 0 <= i < |was| && was[i] == a;
        assert now[i] in now;
      }
    }
  }

  /** Whether an approved blueprint is stored is what `IsApproved` says. */
  lemma ApprovedIsStored(r: Run)
    requires |r.blueprints| <= 1
    ensures HasApprovedBlueprint(r) <==> IsApproved(r)
  {
    if IsApproved(r) { assert r.blueprints[0] in r.blueprints; }
  }

  /** A free run that is closed without an attempt. */
  lemma ClosingKeeps(r: Run, status: Status, reason: Code)
    requires Inv(r) && r.status in {Queued, GenerationQueued, Retryable} && (status == Failed || status == RightsBlocked)
    ensures Inv(r.(status := status, reason := Some(reason), lease := None, rowVersion := r.rowVersion + 1))
  {
    hide Ended, CompletedIn;
  }

  lemma StartingKeepsAttempts(r: Run, after: Run, a: Attempt)
    requires AttemptsFit(r) && r.status in {Queued, GenerationQueued, Retryable} && r.attemptCount < r.maxAttempts
    requires after.attempts == r.attempts + [a] && after.attemptCount == r.attemptCount + 1 && after.maxAttempts == r.maxAttempts
    requires a.number == r.attemptCount + 1 && a.outcome == Running && after.lease.Some?
    requires after.status == (if a.stage == GeneratingStage then Generating else Planning)
    requires a.stage == PlanningStage ==> forall x | x in r.attempts :: x.stage == PlanningStage
    ensures AttemptsFit(after) && Ended(after.attempts) == Ended(r.attempts)
    ensures forall st :: CompletedIn(after.attempts, st) == CompletedIn(r.attempts, st)
  {
    hide Ended, CompletedIn;
    OneMoreAttempt(r.attempts, a);
    NotRunning(r);
    assert forall i :: 0 <= i < |r.attempts| ==> r.attempts[i] in r.attempts;
  }

  lemma ClaimFreeKeeps(r: Run, worker: string, now: int, rightsActive: bool)
    requires Inv(r) && r.status in {Queued, GenerationQueued, Retryable}
    ensures Inv(ClaimFree(r, worker, now, rightsActive).after)
  {
    hide Ended, CompletedIn, AttemptsFit, HasApprovedBlueprint, EvidenceFits, DecisionsFit, RowVersionFits;
    ApprovedOnce(r);
    ApprovedIsStored(r);
    NoLease(r);
    if r.attemptCount >= r.maxAttempts {
      ClosingKeeps(r, Failed, "GENERATION_RETRY_EXHAUSTED");
    } else if !rightsActive {
      ClosingKeeps(r, RightsBlocked, "GENERATION_RIGHTS_INACTIVE");
    } else {
      var after := ClaimFree(r, worker, now, rightsActive).after;
      StartingKeepsAttempts(r, after, after.attempts[|r.attempts|]);
      StartingKeepsTheRest(r, after, after.attempts[|r.attempts|]);
    }
  }

  lemma ApprovedOnce(r: Run)
    requires EvidenceFits(r)
    ensures |r.blueprints| <= 1
    ensures r.status == GenerationQueued ==> IsApproved(r)
    ensures !IsApproved(r) ==> forall a | a in r.attempts :: a.stage == PlanningStage
  {
    hide CompletedIn;
  }

  /** Starting an attempt leaves the evidence alone. */
  lemma StartingKeepsTheRest(r: Run, after: Run, a: Attempt)
    requires Inv(r) && r.status in {Queued, GenerationQueued, Retryable}
    requires after == r.(status := after.status, reason := None, attemptCount := after.attemptCount, lease := after.lease,
                         rowVersion := r.rowVersion + 1, attempts := r.attempts + [a])
    requires a.outcome == Running && a.stage == (if r.status == GenerationQueued || IsApproved(r) then GeneratingStage else PlanningStage)
    requires after.status == (if a.stage == GeneratingStage then Generating else Planning)
    requires Ended(after.attempts) == Ended(r.attempts)
    requires forall st :: CompletedIn(after.attempts, st) == CompletedIn(r.attempts, st)
    ensures RowVersionFits(after) && EvidenceFits(after) && DecisionsFit(after)
  {
    hide Ended, CompletedIn, AttemptsFit;
    FreeIsNotClosed(r);
  }

  lemma FreeIsNotClosed(r: Run)
    requires AttemptsFit(r) && r.status in {Queued, GenerationQueued, Retryable}
    ensures !ClosedOutside(r) && !LastClosed(r)
  {}

  lemma NoLease(r: Run)
    requires AttemptsFit(r) && !IsWorking(r.status)
    ensures r.lease.None? && |r.attempts| == r.attemptCount
  {}

  lemma NotRunning(r: Run)
    requires AttemptsFit(r) && !IsWorking(r.status) && !IsTerminal(r.status)
    ensures forall i :: 0 <= i < |r.attempts| ==> r.attempts[i].outcome in {Completed, OutcomeRetryable}
  {}

  lemma ClaimKeeps(r: Run, worker: string, now: int, rightsActive: bool)
    requires Inv(r)
    ensures Inv(ClaimRun(r, worker, now, rightsActive).after)
  {
    hide Inv, ClaimFree, Lapsed;
    if IsWorking(r.status) {
      LapsedKeeps(r);
      LapsedStatus(r);
      ClaimFreeKeeps(Lapsed(r), Strip(worker), now, rightsActive);
    } else if r.status in {Queued, GenerationQueued, Retryable} {
      ClaimFreeKeeps(r, Strip(worker), now, rightsActive);
    }
  }

  lemma LapsedStatus(r: Run)
    ensures Lapsed(r).status == Retryable
  {}

  /** Ending the last attempt of a working run. */
  lemma EndingKeepsAttempts(r: Run, after: Run, next: Attempt)
    requires AttemptsFit(r) && IsWorking(r.status) && next.outcome != Running
    requires next.stage == r.attempts[|r.attempts| - 1].stage && next.number == r.attempts[|r.attempts| - 1].number
    requires after.attempts == r.attempts[|r.attempts| - 1 := next] && after.attemptCount == r.attemptCount
    requires after.maxAttempts == r.maxAttempts && after.lease.None? && !IsWorking(after.status)
    requires next.outcome in {OutcomeFailed, OutcomeRightsBlocked} ==> after.status == Failed || after.status == RightsBlocked
    ensures AttemptsFit(after)
    ensures Ended(after.attempts) == Ended(r.attempts) + 1
    ensures forall st ::
      CompletedIn(after.attempts, st) == CompletedIn(r.attempts, st) + (if next.stage == st && next.outcome == Completed then 1 else 0)
    ensures (forall a | a in r.attempts :: a.stage == PlanningStage) <==> (forall a | a in after.attempts :: a.stage == PlanningStage)
  {
    hide Ended, CompletedIn;
    LastAttemptEnds(r.attempts, next);
    SameStages(r.attempts, after.attempts);
  }

  lemma CommitBlueprintKeeps(r: Run, step: Step)
    requires Inv(r) && step.PersistBlueprint?
    ensures Inv(CommitBlueprint(r, step).after)
  {
    hide Ended, CompletedIn, AttemptsFit;
    if CommitBlueprint(r, step).answer == Saved {
      var last := r.attempts[|r.attempts| - 1];
      PlanningIsPlanned(r);
      EndingKeepsAttempts(r, CommitBlueprint(r, step).after, last.(outcome := Completed, output := Some(step.contentHash)));
    }
  }

  lemma PlanningIsPlanned(r: Run)
    requires AttemptsFit(r)
    ensures r.status == Planning ==> r.attempts != [] && r.attempts[|r.attempts| - 1].stage == PlanningStage
    ensures r.status == Generating ==> r.attempts != [] && r.attempts[|r.attempts| - 1].stage == GeneratingStage
  {}

  lemma CommitLessonsKeeps(r: Run, step: Step)
    requires Inv(r) && step.PersistLessons? && IsPossible(step)
    ensures Inv(CommitLessons(r, step).after)
  {
    hide Ended, CompletedIn, AttemptsFit;
    if CommitLessons(r, step).answer == Saved {
      var last := r.attempts[|r.attempts| - 1];
      PlanningIsPlanned(r);
      EndingKeepsAttempts(r, CommitLessons(r, step).after, last.(outcome := Completed, output := Some(step.outputHash)));
    }
  }

  lemma FailKeeps(r: Run, step: Step)
    requires Inv(r) && step.FinishFailure?
    ensures Inv(Fail(r, step).after)
  {
    hide Ended, CompletedIn, AttemptsFit, EvidenceFits, DecisionsFit, RowVersionFits;
    if Fail(r, step).answer == Saved {
      PlanningIsPlanned(r);
      var after := Fail(r, step).after;
      EndingKeepsAttempts(r, after, after.attempts[|r.attempts| - 1]);
      FailingKeepsTheRest(r, after);
    }
  }

  /** Failing an attempt leaves the evidence alone. */
  lemma FailingKeepsTheRest(r: Run, after: Run)
    requires Inv(r) && IsWorking(r.status) && r.attempts != [] && |after.attempts| == |r.attempts|
    requires after == r.(status := after.status, reason := after.reason, lease := None, rowVersion := r.rowVersion + 1, attempts := after.attempts)
    requires after.status in {Retryable, Failed, RightsBlocked} && after.reason.Some?
    requires LastClosed(after) <==> after.status != Retryable
    requires Ended(after.attempts) == Ended(r.attempts) + 1
    requires forall st :: CompletedIn(after.attempts, st) == CompletedIn(r.attempts, st)
    requires (forall a | a in r.attempts :: a.stage == PlanningStage) <==> (forall a | a in after.attempts :: a.stage == PlanningStage)
    ensures RowVersionFits(after) && EvidenceFits(after) && DecisionsFit(after)
  {
    hide Ended, CompletedIn, AttemptsFit;
  }

  lemma ApproveKeeps(r: Run, step: Step)
    requires Inv(r) && step.Approve?
    ensures Inv(ApproveBlueprint(r, step).after)
  {
    hide Ended, CompletedIn;
  }

  lemma RejectKeeps(r: Run, step: Step)
    requires Inv(r) && step.Reject?
    ensures Inv(RejectRun(r, step).after)
  {
    hide Ended, CompletedIn;
  }

  lemma CanonicalizeKeeps(r: Run, step: Step)
    requires Inv(r) && step.Canonicalize?
    ensures Inv(CanonicalizeRun(r, step).after)
  {
    hide Ended, CompletedIn;
  }

  lemma NextKeeps(r: Run, step: Step)
    requires Inv(r) && IsPossible(step)
    ensures Inv(Next(r, step).after)
  {
    hide Inv, ClaimRun, CommitBlueprint, CommitLessons, Fail, ApproveBlueprint, RejectRun, CanonicalizeRun;
    match step
    case Claim(worker, now, rightsActive) => ClaimKeeps(r, worker, now, rightsActive);
    case PersistBlueprint(_, _, _, _) => CommitBlueprintKeeps(r, step);
    case PersistLessons(_, _, _, _, _) => CommitLessonsKeeps(r, step);
    case FinishFailure(_, _, _, _) => FailKeeps(r, step);
    case Approve(_, _, _, _) => ApproveKeeps(r, step);
    case Reject(_, _, _, _) => RejectKeeps(r, step);
    case Canonicalize(_, _, _, _, _, _) => CanonicalizeKeeps(r, step);
  }

  lemma StartedIsInvariant(maxAttempts: int)
    requires 1 <= maxAttempts <= 10
    ensures Inv(Started(maxAttempts))
  {}

  ghost predicate Possible(steps: seq<Step>) {
    forall step | step in steps :: IsPossible(step)
  }

  lemma {:induction false} RunKeeps(maxAttempts: int, steps: seq<Step>)
    requires 1 <= maxAttempts <= 10 && Possible(steps)
    ensures Inv(RunOf(Started(maxAttempts), steps))
  {
    hide Inv, Next, Started;
    if steps == [] {
      StartedIsInvariant(maxAttempts);
    } else {
      var last := |steps| - 1;
      assert steps[last] in steps && forall step | step in steps[..last] :: step in steps;
      RunKeeps(maxAttempts, steps[..last]);
      NextKeeps(RunOf(Started(maxAttempts), steps[..last]), steps[last]);
    }
  }
}

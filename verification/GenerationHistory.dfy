/** Properties of whole generation runs: bounds, evidence, fencing, and how a slow worker ends its own run. */
module GenerationHistory {
  import opened Prelude
  import opened PythonText
  import opened GenerationRun
  import opened GenerationInvariants

  /* ---------- the shapes that the API schemas demand ---------- */

  /** `CourseGenerationRunV1.require_evidence_shape`, and its bounds on counters. */
  predicate EvidenceShape(r: Run) {
    && 0 <= r.attemptCount <= r.maxAttempts && r.attemptCount <= 10 && 1 <= r.maxAttempts <= 10 && r.rowVersion >= 1
    && (if r.status in {Queued, Planning} then r.blueprintHash.None? && r.outputHash.None?
        else if r.status in {BlueprintReview, GenerationQueued, Generating} then r.blueprintHash.Some? && r.outputHash.None?
        else if r.status in {ReviewReady, Canonicalized} then r.blueprintHash.Some? && r.outputHash.Some?
        else true)
    && (r.status in {Retryable, Failed, RightsBlocked, Rejected} <==> r.reason.Some?)
  }

  /** `CourseGenerationReviewPackageV1.require_package_shape` on the package that `get_generation` reads. */
  predicate PackageShape(r: Run) {
    && (r.blueprintHash.None? <==> r.blueprints == [])
    && (r.outputHash.None? ==> r.lessons == [])
    && (r.outputHash.Some? ==> r.lessons != [])
  }

  lemma ReachableRunsFitTheSchemas(maxAttempts: int, steps: seq<Step>)
    requires 1 <= maxAttempts <= 10 && Possible(steps)
    ensures EvidenceShape(RunOf(Started(maxAttempts), steps)) && PackageShape(RunOf(Started(maxAttempts), steps))
  {
    RunKeeps(maxAttempts, steps);
    AttemptCounts(RunOf(Started(maxAttempts), steps).attempts);
  }

  /* ---------- bounds ---------- */

  lemma RowVersionBound(r: Run)
    requires Inv(r)
    ensures 1 <= r.rowVersion <= 2 * r.maxAttempts + 3
  {
    AttemptCounts(r.attempts);
  }

  lemma StepsBumpRow(r: Run, step: Step)
    ensures var after := Next(r, step).after; after.maxAttempts == r.maxAttempts && (after != r ==> after.rowVersion > r.rowVersion)
  {
    hide EndRunning, EndLast, HasRunning, HasApprovedBlueprint, FindBlueprint, FindReviewable;
  }

  /** How many steps of a run changed it. */
  function Changes(start: Run, steps: seq<Step>): nat {
    if steps == [] then 0
    else
      var last := |steps| - 1;
      var before := RunOf(start, steps[..last]);
      Changes(start, steps[..last]) + (if Next(before, steps[last]).after != before then 1 else 0)
  }

  lemma {:induction false} ChangesAreCounted(start: Run, steps: seq<Step>)
    ensures RunOf(start, steps).rowVersion >= start.rowVersion + Changes(start, steps)
    ensures RunOf(start, steps).maxAttempts == start.maxAttempts
  {
    hide Next;
    if steps != [] {
      var last := |steps| - 1;
      ChangesAreCounted(start, steps[..last]);
      StepsBumpRow(RunOf(start, steps[..last]), steps[last]);
    }
  }

  /** Whatever the actors and the clocks do, a run changes at most 2 * max_attempts + 2 times. */
  lemma RunsEnd(maxAttempts: int, steps: seq<Step>)
    requires 1 <= maxAttempts <= 10 && Possible(steps)
    ensures Changes(Started(maxAttempts), steps) <= 2 * maxAttempts + 2
  {
    RunKeeps(maxAttempts, steps);
    ChangesAreCounted(Started(maxAttempts), steps);
    RowVersionBound(RunOf(Started(maxAttempts), steps));
  }

  lemma TerminalAbsorbs(r: Run, step: Step)
    requires Inv(r) && IsTerminal(r.status)
    ensures Next(r, step).after == r
  {}

  lemma {:induction false} TerminalForever(r: Run, steps: seq<Step>)
    requires Inv(r) && IsTerminal(r.status)
    ensures RunOf(r, steps) == r
  {
    hide Inv, Next;
    if steps != [] {
      TerminalForever(r, steps[..|steps| - 1]);
      TerminalAbsorbs(r, steps[|steps| - 1]);
    }
  }

  /* ---------- evidence ---------- */

  /** The only completed attempt of a stage. */
  lemma {:induction false} OnlyCompleted(attempts: seq<Attempt>, stage: Stage) returns (p: nat)
    requires CompletedIn(attempts, stage) == 1
    ensures p < |attempts| && attempts[p].stage == stage && attempts[p].outcome == Completed
    ensures forall i :: 0 <= i < |attempts| && attempts[i].stage == stage && attempts[i].outcome == Completed ==> i == p
  {
    var last := |attempts| - 1;
    if attempts[last].stage == stage && attempts[last].outcome == Completed {
      p := last;
      NoneCompleted(attempts[..last], stage);
    } else {
      p := OnlyCompleted(attempts[..last], stage);
      assert forall i :: 0 <= i < last ==> attempts[i] == attempts[..last][i];
    }
  }

  lemma {:induction false} NoneCompleted(attempts: seq<Attempt>, stage: Stage)
    requires CompletedIn(attempts, stage) == 0
    ensures forall i :: 0 <= i < |attempts| ==> !(attempts[i].stage == stage && attempts[i].outcome == Completed)
  {
    if attempts != [] {
      var last := |attempts| - 1;
      NoneCompleted(attempts[..last], stage);
      assert forall i :: 0 <= i < last ==> attempts[i] == attempts[..last][i];
    }
  }

  /** A run that reached review was planned once and generated once, in this order; every other attempt was to be retried. */
  lemma ReviewedRunsHaveTwoCompletions(r: Run) returns (p: nat)
    requires Inv(r) && (r.status == ReviewReady || r.status == Canonicalized)
    ensures var last := |r.attempts| - 1;
      && p < last
      && r.attempts[p].stage == PlanningStage && r.attempts[p].outcome == Completed
      && r.attempts[last].stage == GeneratingStage && r.attempts[last].outcome == Completed
      && forall i :: 0 <= i < last && i != p ==> r.attempts[i].outcome == OutcomeRetryable
  {
    p := OnlyCompleted(r.attempts, PlanningStage);
    var q := OnlyCompleted(r.attempts, GeneratingStage);
  }

  /** Lessons exist only after one human approval of exactly the stored blueprint; what is canonical is exactly what was reviewed. */
  lemma LessonsWereApproved(maxAttempts: int, steps: seq<Step>)
    requires 1 <= maxAttempts <= 10 && Possible(steps)
    ensures var r := RunOf(Started(maxAttempts), steps);
      && (r.lessons != [] ==>
            && |r.decisions| == 1 && r.decisions[0].approves && |r.blueprints| == 1
            && r.decisions[0].reviewedHash == r.blueprints[0].contentHash && r.blueprintHash == Some(r.blueprints[0].contentHash))
      && (r.status == Canonicalized ==> |r.canonicalizations| == 1 && Some(r.canonicalizations[0]) == r.outputHash)
  {
    RunKeeps(maxAttempts, steps);
  }

  /** The evidence stored in `r` is still stored, unchanged, in `after`. */
  predicate KeepsEvidence(r: Run, after: Run) {
    && (r.blueprints != [] ==> |after.blueprints| == 1 && after.blueprints[0].contentHash == r.blueprints[0].contentHash)
    && (r.lessons != [] ==> after.lessons == r.lessons && after.outputHash == r.outputHash)
  }

  lemma CommitKeepsEvidence(r: Run, step: Step)
    requires Inv(r) && (step.PersistBlueprint? || step.PersistLessons?)
    ensures KeepsEvidence(r, Next(r, step).after) && Next(r, step).answer != Error("IntegrityError")
  {
    hide Ended, CompletedIn, EndLast, Strip;
  }

  lemma ReviewKeepsEvidence(r: Run, step: Step)
    requires |r.blueprints| <= 1 && (step.Approve? || step.Reject?)
    ensures KeepsEvidence(r, Next(r, step).after) && Next(r, step).answer != Error("IntegrityError")
  {}

  lemma ClaimKeepsEvidence(r: Run, step: Step)
    requires |r.blueprints| <= 1 && step.Claim?
    ensures KeepsEvidence(r, Next(r, step).after) && Next(r, step).answer != Error("IntegrityError")
  {
    hide EndRunning, Strip, HasApprovedBlueprint;
  }

  lemma OtherStepsKeepEvidence(r: Run, step: Step)
    requires |r.blueprints| <= 1 && (step.FinishFailure? || step.Canonicalize?)
    ensures KeepsEvidence(r, Next(r, step).after) && Next(r, step).answer != Error("IntegrityError")
  {
    hide EndLast, Strip, HasApprovedBlueprint;
  }

  /** Neither the blueprint nor the lessons are ever written a second time. */
  lemma EvidenceIsWrittenOnce(r: Run, step: Step)
    requires Inv(r)
    ensures KeepsEvidence(r, Next(r, step).after) && Next(r, step).answer != Error("IntegrityError")
  {
    hide Next, KeepsEvidence, AttemptsFit, RowVersionFits, DecisionsFit;
    match step
    case Claim(_, _, _) => ClaimKeepsEvidence(r, step);
    case PersistBlueprint(_, _, _, _) => CommitKeepsEvidence(r, step);
    case PersistLessons(_, _, _, _, _) => CommitKeepsEvidence(r, step);
    case Approve(_, _, _, _) => ReviewKeepsEvidence(r, step);
    case Reject(_, _, _, _) => ReviewKeepsEvidence(r, step);
    case _ => OtherStepsKeepEvidence(r, step);
  }

  /* ---------- fencing ---------- */

  predicate IsCommitOf(step: Step, worker: string) {
    match step
    case PersistBlueprint(w, _, _, _) => Strip(w) == Strip(worker)
    case PersistLessons(w, _, _, _, _) => Strip(w) == Strip(worker)
    case FinishFailure(w, _, _, _) => Strip(w) == Strip(worker)
    case _ => false
  }

  predicate OwnsLease(r: Run, worker: string) {
    r.lease.Some? && r.lease.value.owner == Strip(worker)
  }

  /** A failure is recorded exactly for the lease owner of the running attempt, whether or not the lease has lapsed. */
  lemma FailureNeedsOwner(r: Run, step: Step)
    requires Inv(r) && step.FinishFailure?
    ensures Next(r, step).answer == Saved <==> OwnsLease(r, step.worker)
    ensures Next(r, step).answer != Saved ==> Next(r, step).after == r
  {}

  /** A commit is accepted exactly from the lease owner, in the stage it claimed, before the lease expires, with active rights. */
  lemma CommitNeedsLease(r: Run, step: Step)
    requires Inv(r) && (step.PersistBlueprint? || step.PersistLessons?)
    ensures Next(r, step).answer == Saved <==>
      && OwnsLease(r, step.worker) && r.lease.value.expiresAt > step.now && step.rightsActive
      && r.status == if step.PersistBlueprint? then Planning else Generating
    ensures Next(r, step).answer != Saved ==> Next(r, step).after == r
  {
    hide Ended, CompletedIn, EndLast;
  }

  lemma LeaseComesFromClaims(r: Run, step: Step, worker: string)
    requires !OwnsLease(r, worker) && (step.Claim? ==> Strip(step.worker) != Strip(worker))
    ensures !OwnsLease(Next(r, step).after, worker)
  {
    hide EndRunning, EndLast, HasRunning, HasApprovedBlueprint, FindBlueprint, FindReviewable, Strip;
  }

  /** Once another worker has taken a run over, no commit of the earlier worker changes anything, ever, as long as later claims
      use other ids. */
  lemma {:induction false} TakenOverForGood(r: Run, steps: seq<Step>, worker: string, commit: Step)
    requires Inv(r) && Possible(steps) && !OwnsLease(r, worker) && IsCommitOf(commit, worker)
    requires forall step | step in steps && step.Claim? :: Strip(step.worker) != Strip(worker)
    ensures !OwnsLease(RunOf(r, steps), worker) && Inv(RunOf(r, steps))
    ensures Next(RunOf(r, steps), commit).after == RunOf(r, steps)
  {
    hide Inv, Next, OwnsLease, Strip;
    if steps != [] {
      var last := |steps| - 1;
      assert steps[last] in steps && forall step | step in steps[..last] :: step in steps;
      TakenOverForGood(r, steps[..last], worker, commit);
      NextKeeps(RunOf(r, steps[..last]), steps[last]);
      LeaseComesFromClaims(RunOf(r, steps[..last]), steps[last], worker);
    }
    NoLeaseNoEffect(RunOf(r, steps), commit, worker);
  }

  lemma NoLeaseNoEffect(r: Run, commit: Step, worker: string)
    requires Inv(r) && !OwnsLease(r, worker) && IsCommitOf(commit, worker)
    ensures Next(r, commit).after == r
  {
    if commit.FinishFailure? { FailureNeedsOwner(r, commit); } else { CommitNeedsLease(r, commit); }
  }

  lemma ClaimTakesOver(r: Run, claim: Step, worker: string)
    requires claim.Claim? && Next(r, claim).answer == Claimed && Strip(claim.worker) != Strip(worker)
    ensures !OwnsLease(Next(r, claim).after, worker)
  {}

  /** Without distinct ids there is no fence: an earlier worker of the same stripped id ends the attempt of a later one. */
  lemma SharedIdIsNoFence(r: Run, claim: Step, commit: Step)
    requires Inv(r) && claim.Claim? && Next(r, claim).answer == Claimed
    requires commit.FinishFailure? && Strip(commit.worker) == Strip(claim.worker)
    ensures var taken := Next(r, claim).after;
      && Next(taken, commit).answer == Saved
      && var now := Next(taken, commit).after; |now.attempts| == |r.attempts| + 1 && now.attempts[|r.attempts|].outcome != Running
  {
    hide Inv, ClaimRun, Strip;
    NextKeeps(r, claim);
    FailureNeedsOwner(Next(r, claim).after, commit);
    ClaimAddsAttempt(r, claim);
  }

  lemma ClaimAddsAttempt(r: Run, claim: Step)
    requires claim.Claim? && Next(r, claim).answer == Claimed
    ensures var after := Next(r, claim).after;
      && |after.attempts| == |r.attempts| + 1 && after.attempts[|r.attempts|].outcome == Running
      && after.lease == Some(Lease(Strip(claim.worker), claim.now + LEASE_SECONDS))
  {}

  /* ---------- `run_generation` after its claim ---------- */

  predicate IsCommit(step: Step) {
    step.PersistBlueprint? || step.PersistLessons?
  }

  /** The status in which a commit finds the run that its worker claimed. */
  function StageOf(step: Step): Status
    requires IsCommit(step)
  {
    if step.PersistBlueprint? then Planning else Generating
  }

  /** The failure that any exception of its own leads to: of the adapter, the document checker or the database. */
  function Unexpected(worker: string): Step {
    FinishFailure(worker, "GENERATION_ADAPTER_FAILED", true, false)
  }

  /** The failure that `run_generation` records for an exception of its commit. */
  function Handler(worker: string, answer: Answer): Step
    requires answer.Error? || answer == RightsBlockedError
  {
    match answer
    case Error(code) =>
      if code == "IntegrityError" then Unexpected(worker)
      else FinishFailure(worker, code, code == "GENERATION_ADAPTER_FAILED", false)
    case _ => FinishFailure(worker, "GENERATION_RIGHTS_INACTIVE", false, true)
  }

  /** A commit, and the failure recorded when it is refused. */
  function AfterCommit(r: Run, step: Step): Run
    requires IsCommit(step)
  {
    var Result(after, answer) := Next(r, step);
    if answer.Error? || answer == RightsBlockedError then Next(after, Handler(step.worker, answer)).after else after
  }

  lemma RefusedCommit(r: Run, step: Step)
    requires Inv(r) && IsCommit(step) && Next(r, step).answer != Saved
    ensures var result := Next(r, step);
      && result.after == r
      && (OwnsLease(r, step.worker) ==>
            if r.lease.value.expiresAt > step.now && r.status == StageOf(step) then result.answer == RightsBlockedError
            else result.answer == Error("GENERATION_LEASE_CONFLICT"))
      && (result.answer.Error? || result.answer == RightsBlockedError)
  {
    hide Ended, CompletedIn, EndLast, Strip;
  }

  lemma RecordedFailure(r: Run, worker: string, code: Code, rightsBlocked: bool)
    requires Inv(r) && OwnsLease(r, worker)
    ensures var after := Next(r, FinishFailure(worker, code, false, rightsBlocked)).after;
      after.status == (if rightsBlocked then RightsBlocked else Failed) && after.reason == Some(code)
  {
    FailureNeedsOwner(r, FinishFailure(worker, code, false, rightsBlocked));
  }

  /** A commit ends the run as failed exactly when its worker still owns the lease but comes too late, or in the wrong stage;
      whether the rights are active does not matter. */
  lemma CommitFailsTheRun(r: Run, step: Step)
    requires Inv(r) && IsCommit(step)
    ensures AfterCommit(r, step).status == Failed <==>
      || r.status == Failed
      || (OwnsLease(r, step.worker) && (r.lease.value.expiresAt <= step.now || r.status != StageOf(step)))
  {
    hide Inv, Next, Strip;
    CommitNeedsLease(r, step);
    if Next(r, step).answer == Saved {
      SavedCommit(r, step);
    } else {
      RefusedCommit(r, step);
      var handler := Handler(step.worker, Next(r, step).answer);
      FailureNeedsOwner(r, handler);
      if OwnsLease(r, step.worker) { RecordedFailure(r, step.worker, handler.reasonCode, handler.rightsBlocked); }
    }
  }

  lemma SavedCommit(r: Run, step: Step)
    requires Inv(r) && IsCommit(step) && Next(r, step).answer == Saved
    ensures AfterCommit(r, step).status in {BlueprintReview, ReviewReady} && IsWorking(r.status)
  {
    hide Ended, CompletedIn, EndLast, Strip;
  }

  /** In its own stage a worker's commit ends the run as failed if and only if its lease has lapsed and nobody has taken it over.
      With attempts left, a claim by any worker at that moment would have started the next attempt. */
  lemma LateCommitFailsTheRun(r: Run, step: Step, other: string)
    requires Inv(r) && IsCommit(step) && r.status == StageOf(step)
    ensures AfterCommit(r, step).status == Failed <==> OwnsLease(r, step.worker) && r.lease.value.expiresAt <= step.now
    ensures AfterCommit(r, step).status == Failed ==> AfterCommit(r, step).reason == Some("GENERATION_LEASE_CONFLICT")
    ensures AfterCommit(r, step).status == Failed && r.attemptCount < r.maxAttempts && 1 <= |Strip(other)| <= MAX_WORKER_ID
      ==> Next(r, Claim(other, step.now, true)).answer == Claimed
  {
    hide Inv, Next, Strip;
    CommitFailsTheRun(r, step);
    if AfterCommit(r, step).status == Failed {
      CommitNeedsLease(r, step);
      RefusedCommit(r, step);
      RecordedFailure(r, step.worker, "GENERATION_LEASE_CONFLICT", false);
      LapsedIsClaimable(r, other, step.now);
    }
  }

  lemma LapsedIsClaimable(r: Run, other: string, now: int)
    requires IsWorking(r.status) && r.lease.Some? && r.lease.value.expiresAt <= now
    ensures r.attemptCount < r.maxAttempts && 1 <= |Strip(other)| <= MAX_WORKER_ID ==> Next(r, Claim(other, now, true)).answer == Claimed
  {
    hide Strip, EndRunning, HasApprovedBlueprint;
  }

  /* ---------- an exception that every attempt raises ---------- */

  /** One claim at a time when nobody holds the run, each followed by the failure that an exception of the adapter leads to. */
  datatype Round = Round(worker: string, now: int)

  predicate AreWorkers(rounds: seq<Round>) {
    forall round | round in rounds :: 1 <= |Strip(round.worker)| <= MAX_WORKER_ID
  }

  function AfterRound(r: Run, round: Round): Run {
    Next(Next(r, Claim(round.worker, round.now, true)).after, Unexpected(round.worker)).after
  }

  function AfterRounds(r: Run, rounds: seq<Round>): Run {
    if rounds == [] then r else AfterRound(AfterRounds(r, rounds[..|rounds| - 1]), rounds[|rounds| - 1])
  }

  predicate IsFree(status: Status) {
    status in {Queued, GenerationQueued, Retryable}
  }

  lemma OneRound(r: Run, round: Round)
    requires Inv(r) && IsFree(r.status) && r.attemptCount < r.maxAttempts && 1 <= |Strip(round.worker)| <= MAX_WORKER_ID
    ensures var after := AfterRound(r, round);
      && after.attemptCount == r.attemptCount + 1 && after.maxAttempts == r.maxAttempts
      && after.status == (if after.attemptCount < r.maxAttempts then Retryable else Failed)
      && after.reason == Some(if after.attemptCount < r.maxAttempts then "GENERATION_ADAPTER_FAILED" else "GENERATION_RETRY_EXHAUSTED")
  {
    hide Strip, Ended, CompletedIn, HasApprovedBlueprint;
  }

  lemma RoundKeeps(r: Run, round: Round)
    requires Inv(r)
    ensures Inv(AfterRound(r, round))
  {
    hide Inv, Next;
    NextKeeps(r, Claim(round.worker, round.now, true));
    NextKeeps(Next(r, Claim(round.worker, round.now, true)).after, Unexpected(round.worker));
  }

  lemma ClosedRound(r: Run, round: Round)
    requires Inv(r) && IsTerminal(r.status)
    ensures AfterRound(r, round) == r
  {
    hide Inv, Next;
    TerminalAbsorbs(r, Claim(round.worker, round.now, true));
    TerminalAbsorbs(r, Unexpected(round.worker));
  }

  /** An exception that every attempt raises is retried until the attempts are used up: the run is failed after exactly as many
      rounds as it had attempts left, and to be retried before. */
  lemma {:induction false} UnexpectedIsRetried(r: Run, rounds: seq<Round>)
    requires Inv(r) && IsFree(r.status) && r.attemptCount < r.maxAttempts && AreWorkers(rounds) && rounds != []
    ensures var after, left := AfterRounds(r, rounds), r.maxAttempts - r.attemptCount;
      && Inv(after)
      && after.status == (if |rounds| < left then Retryable else Failed)
      && after.attemptCount == (if |rounds| < left then r.attemptCount + |rounds| else r.maxAttempts)
      && after.maxAttempts == r.maxAttempts
      && after.reason == Some(if |rounds| < left then "GENERATION_ADAPTER_FAILED" else "GENERATION_RETRY_EXHAUSTED")
  {
    hide Inv, Next, Strip, AfterRound;
    var last := |rounds| - 1;
    var before := AfterRounds(r, rounds[..last]);
    assert rounds[last] in rounds && forall round | round in rounds[..last] :: round in rounds;
    if last > 0 { UnexpectedIsRetried(r, rounds[..last]); } else { assert before == r; }
    RoundKeeps(before, rounds[last]);
    if before.status == Failed { ClosedRound(before, rounds[last]); } else { OneRound(before, rounds[last]); }
  }
}

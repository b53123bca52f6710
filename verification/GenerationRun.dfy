/** One course-generation run: workers claim, commit and fail, humans approve, reject and canonicalize.
    A step is one database transaction; steps of any actors interleave freely, with any clock readings. */
module GenerationRun {
  import opened Prelude
  import opened PythonText

  type Hash = string
  type Code = string

  const LEASE_SECONDS := 300
  const MAX_WORKER_ID := 80

  datatype Status =
    | Queued | Planning | BlueprintReview | GenerationQueued | Generating | ReviewReady | Retryable
    | Canonicalized | Rejected | Failed | RightsBlocked

  datatype Stage = PlanningStage | GeneratingStage

  datatype Outcome = Running | Completed | OutcomeRetryable | OutcomeFailed | OutcomeRightsBlocked

  datatype Attempt = Attempt(number: int, stage: Stage, outcome: Outcome, reason: Option<Code>, output: Option<Hash>)

  datatype Lease = Lease(owner: string, expiresAt: int)

  datatype BlueprintStatus = Reviewable | ApprovedBlueprint | RejectedBlueprint

  datatype Blueprint = Blueprint(revision: int, status: BlueprintStatus, contentHash: Hash)

  datatype Decision = Decision(actor: nat, approves: bool, reviewedHash: Hash)

  datatype Run = Run(
    status: Status, rowVersion: int, attemptCount: int, maxAttempts: int, lease: Option<Lease>, reason: Option<Code>,
    blueprintHash: Option<Hash>, outputHash: Option<Hash>,
    attempts: seq<Attempt>, blueprints: seq<Blueprint>, decisions: seq<Decision>,
    lessons: seq<Hash>, rejections: seq<Hash>, canonicalizations: seq<Hash>)

  datatype Step =
    | Claim(worker: string, now: int, rightsActive: bool)
    | PersistBlueprint(worker: string, now: int, rightsActive: bool, contentHash: Hash)
    | PersistLessons(worker: string, now: int, rightsActive: bool, lessons: seq<Hash>, outputHash: Hash)
    | FinishFailure(worker: string, reasonCode: Code, retryable: bool, rightsBlocked: bool)
    | Approve(actor: nat, expectedRow: int, revision: int, expectedHash: Hash)
    | Reject(actor: nat, expectedRow: int, expectedHash: Hash, reasonCode: Code)
    | Canonicalize(actor: nat, expectedRow: int, expectedHash: Hash, sourceReady: bool, rightsActive: bool, draftCreated: bool)

  /** `RightsBlockedError` is the private exception that `run_generation` turns into a rights-blocked failure. */
  datatype Answer = Claimed | NotClaimed | Saved | Error(code: Code) | RightsBlockedError

  datatype Result = Result(after: Run, answer: Answer)

  predicate IsTerminal(status: Status) {
    status in {Canonicalized, Rejected, Failed, RightsBlocked}
  }

  predicate IsWorking(status: Status) {
    status == Planning || status == Generating
  }

  /** What `start_generation` creates. */
  function Started(maxAttempts: int): Run
    requires 1 <= maxAttempts <= 10
  {
    Run(Queued, 1, 0, maxAttempts, None, None, None, None, [], [], [], [], [], [])
  }

  /* ---------- attempts ---------- */

  /** `.filter(outcome="running").update(...)` */
  function EndRunning(attempts: seq<Attempt>, outcome: Outcome, reason: Code): (r: seq<Attempt>)
    ensures |r| == |attempts|
    ensures forall i :: 0 <= i < |r| ==>
      r[i] == if attempts[i].outcome == Running then attempts[i].(outcome := outcome, reason := Some(reason)) else attempts[i]
  {
    seq(|attempts|, i requires 0 <= i < |attempts| =>
      if attempts[i].outcome == Running then attempts[i].(outcome := outcome, reason := Some(reason)) else attempts[i])
  }

  /** `get(attempt_number=run.attempt_count, outcome="running")` finds the last attempt. */
  predicate HasRunning(r: Run) {
    r.attempts != [] && r.attempts[|r.attempts| - 1].outcome == Running && r.attempts[|r.attempts| - 1].number == r.attemptCount
  }

  function EndLast(attempts: seq<Attempt>, outcome: Outcome, reason: Option<Code>, output: Option<Hash>): seq<Attempt>
    requires attempts != []
  {
    var last := |attempts| - 1;
    attempts[last := attempts[last].(outcome := outcome, reason := reason, output := output)]
  }

  predicate HasApprovedBlueprint(r: Run) {
    exists b | b in r.blueprints :: b.status == ApprovedBlueprint
  }

  /* ---------- the transactions ---------- */

  /** The lease of a lapsed attempt is given back before the claim goes on. */
  function Lapsed(r: Run): Run {
    r.(status := Retryable, reason := Some("GENERATION_LEASE_CONFLICT"), lease := None, rowVersion := r.rowVersion + 1,
       attempts := EndRunning(r.attempts, OutcomeRetryable, "GENERATION_LEASE_CONFLICT"))
  }

  function ClaimFree(r: Run, worker: string, now: int, rightsActive: bool): Result {
    if r.attemptCount >= r.maxAttempts then
      Result(r.(status := Failed, reason := Some("GENERATION_RETRY_EXHAUSTED"), rowVersion := r.rowVersion + 1), NotClaimed)
    else if !rightsActive then
      Result(r.(status := RightsBlocked, reason := Some("GENERATION_RIGHTS_INACTIVE"), lease := None, rowVersion := r.rowVersion + 1),
             NotClaimed)
    else
      var generating := r.status == GenerationQueued || HasApprovedBlueprint(r);
      Result(r.(status := if generating then Generating else Planning, reason := None, attemptCount := r.attemptCount + 1,
                lease := Some(Lease(worker, now + LEASE_SECONDS)), rowVersion := r.rowVersion + 1,
                attempts := r.attempts + [Attempt(r.attemptCount + 1, if generating then GeneratingStage else PlanningStage,
                                                  Running, None, None)]),
             Claimed)
  }

  function ClaimRun(r: Run, worker: string, now: int, rightsActive: bool): Result {
    var name := Strip(worker);
    if !(1 <= |name| <= MAX_WORKER_ID) then Result(r, Error("GENERATION_LEASE_CONFLICT"))
    else if IsTerminal(r.status) || r.status == BlueprintReview || r.status == ReviewReady then Result(r, NotClaimed)
    else if IsWorking(r.status) then
      if r.lease.None? || r.lease.value.expiresAt > now then Result(r, Error("GENERATION_LEASE_CONFLICT"))
      else ClaimFree(Lapsed(r), name, now, rightsActive)
    else ClaimFree(r, name, now, rightsActive)
  }

  /** The commit of an attempt needs the attempt's lease, unexpired. */
  predicate HoldsLease(r: Run, status: Status, worker: string, now: int) {
    r.status == status && r.lease.Some? && r.lease.value.owner == Strip(worker) && r.lease.value.expiresAt > now
  }

  function CommitBlueprint(r: Run, step: Step): Result
    requires step.PersistBlueprint?
  {
    if !HasRunning(r) then Result(r, Error("GENERATION_STATE_CONFLICT"))
    else if !HoldsLease(r, Planning, step.worker, step.now) then Result(r, Error("GENERATION_LEASE_CONFLICT"))
    else if !step.rightsActive then Result(r, RightsBlockedError)
    else if exists b | b in r.blueprints :: b.revision == 1 then Result(r, Error("IntegrityError"))
    else
      Result(r.(status := BlueprintReview, blueprintHash := Some(step.contentHash), reason := None, lease := None,
                rowVersion := r.rowVersion + 1,
                blueprints := r.blueprints + [Blueprint(1, Reviewable, step.contentHash)],
                attempts := EndLast(r.attempts, Completed, r.attempts[|r.attempts| - 1].reason, Some(step.contentHash))), Saved)
  }

  function CommitLessons(r: Run, step: Step): Result
    requires step.PersistLessons?
  {
    if !HasRunning(r) then Result(r, Error("GENERATION_STATE_CONFLICT"))
    else if !HoldsLease(r, Generating, step.worker, step.now) then Result(r, Error("GENERATION_LEASE_CONFLICT"))
    else if !step.rightsActive then Result(r, RightsBlockedError)
    else
      Result(r.(status := ReviewReady, outputHash := Some(step.outputHash), reason := None, lease := None,
                rowVersion := r.rowVersion + 1, lessons := r.lessons + step.lessons,
                attempts := EndLast(r.attempts, Completed, r.attempts[|r.attempts| - 1].reason, Some(step.outputHash))), Saved)
  }

  function Fail(r: Run, step: Step): Result
    requires step.FinishFailure?
  {
    if !HasRunning(r) then Result(r, Error("GENERATION_STATE_CONFLICT"))
    else if !IsWorking(r.status) || r.lease.None? || r.lease.value.owner != Strip(step.worker) then
      Result(r, Error("GENERATION_LEASE_CONFLICT"))
    else
      var exhausted := step.retryable && r.attemptCount >= r.maxAttempts;
      var status := if step.rightsBlocked then RightsBlocked else if exhausted || !step.retryable then Failed else Retryable;
      var outcome := if step.rightsBlocked then OutcomeRightsBlocked else if status == Retryable then OutcomeRetryable else OutcomeFailed;
      Result(r.(status := status, reason := Some(if exhausted then "GENERATION_RETRY_EXHAUSTED" else step.reasonCode), lease := None,
                rowVersion := r.rowVersion + 1,
                attempts := EndLast(r.attempts, outcome, Some(step.reasonCode), r.attempts[|r.attempts| - 1].output)), Saved)
  }

  /** The stored blueprint of the given revision. */
  function FindBlueprint(bs: seq<Blueprint>, revision: int): (i: Option<nat>)
    ensures i.Some? ==> i.value < |bs| && bs[i.value].revision == revision
    ensures i.None? ==> forall b | b in bs :: b.revision != revision
  {
    if bs == [] then None
    else if bs[|bs| - 1].revision == revision then Some(|bs| - 1)
    else FindBlueprint(bs[..|bs| - 1], revision)
  }

  function FindReviewable(bs: seq<Blueprint>): (i: Option<nat>)
    ensures i.Some? ==> i.value < |bs| && bs[i.value].status == Reviewable
    ensures i.None? ==> forall b | b in bs :: b.status != Reviewable
  {
    if bs == [] then None
    else if bs[|bs| - 1].status == Reviewable then Some(|bs| - 1)
    else FindReviewable(bs[..|bs| - 1])
  }

  function ApproveBlueprint(r: Run, step: Step): Result
    requires step.Approve?
  {
    match FindBlueprint(r.blueprints, step.revision)
    case None => Result(r, Error("GENERATION_RESOURCE_NOT_FOUND"))
    case Some(i) =>
      var b := r.blueprints[i];
      if r.status != BlueprintReview || b.status != Reviewable || r.rowVersion != step.expectedRow
        || r.blueprintHash != Some(step.expectedHash) || b.contentHash != step.expectedHash
      then Result(r, Error("GENERATION_VERSION_CONFLICT"))
      else
        Result(r.(status := GenerationQueued, reason := None, rowVersion := r.rowVersion + 1,
                  decisions := r.decisions + [Decision(step.actor, true, step.expectedHash)],
                  blueprints := r.blueprints[i := b.(status := ApprovedBlueprint)]), Saved)
  }

  function RejectRun(r: Run, step: Step): Result
    requires step.Reject?
  {
    var closed := r.(status := Rejected, reason := Some(step.reasonCode), rowVersion := r.rowVersion + 1);
    if r.rowVersion != step.expectedRow then Result(r, Error("GENERATION_VERSION_CONFLICT"))
    else if r.status == BlueprintReview then
      match FindReviewable(r.blueprints)
      case None => Result(r, Error("GENERATION_STATE_CONFLICT"))
      case Some(i) =>
        var b := r.blueprints[i];
        if b.contentHash != step.expectedHash || r.blueprintHash != Some(step.expectedHash)
        then Result(r, Error("GENERATION_VERSION_CONFLICT"))
        else Result(closed.(decisions := r.decisions + [Decision(step.actor, false, step.expectedHash)],
                            blueprints := r.blueprints[i := b.(status := RejectedBlueprint)]), Saved)
    else if r.status == ReviewReady then
      if r.outputHash != Some(step.expectedHash) then Result(r, Error("GENERATION_VERSION_CONFLICT"))
      else Result(closed.(rejections := r.rejections + [step.expectedHash]), Saved)
    else Result(r, Error("GENERATION_STATE_CONFLICT"))
  }

  function CanonicalizeRun(r: Run, step: Step): Result
    requires step.Canonicalize?
  {
    if r.status != ReviewReady || r.rowVersion != step.expectedRow || r.outputHash != Some(step.expectedHash)
    then Result(r, Error("GENERATION_OUTPUT_HASH_MISMATCH"))
    else if !step.sourceReady || !HasApprovedBlueprint(r) then Result(r, Error("GENERATION_SOURCE_NOT_READY"))
    else if !step.rightsActive then Result(r, Error("GENERATION_RIGHTS_INACTIVE"))
    else if !step.draftCreated then Result(r, Error("SERVICE_CONTRACT_ERROR"))
    else
      Result(r.(status := Canonicalized, reason := None, rowVersion := r.rowVersion + 1,
                canonicalizations := r.canonicalizations + [step.expectedHash]), Saved)
  }

  function Next(r: Run, step: Step): Result {
    match step
    case Claim(worker, now, rightsActive) => ClaimRun(r, worker, now, rightsActive)
    case PersistBlueprint(_, _, _, _) => CommitBlueprint(r, step)
    case PersistLessons(_, _, _, _, _) => CommitLessons(r, step)
    case FinishFailure(_, _, _, _) => Fail(r, step)
    case Approve(_, _, _, _) => ApproveBlueprint(r, step)
    case Reject(_, _, _, _) => RejectRun(r, step)
    case Canonicalize(_, _, _, _, _, _) => CanonicalizeRun(r, step)
  }

  /** The adapter never returns a draft without lessons. */
  predicate IsPossible(step: Step) {
    step.PersistLessons? ==> step.lessons != []
  }

  function RunOf(start: Run, steps: seq<Step>): Run {
    if steps == [] then start else Next(RunOf(start, steps[..|steps| - 1]), steps[|steps| - 1]).after
  }

  /* ---------- the invariant ---------- */

  function Ended(attempts: seq<Attempt>): nat {
    if attempts == [] then 0
    else Ended(attempts[..|attempts| - 1]) + (if attempts[|attempts| - 1].outcome != Running then 1 else 0)
  }

  function CompletedIn(attempts: seq<Attempt>, stage: Stage): nat {
    if attempts == [] then 0
    else
      var last := attempts[|attempts| - 1];
      CompletedIn(attempts[..|attempts| - 1], stage) + (if last.stage == stage && last.outcome == Completed then 1 else 0)
  }

  predicate LastClosed(r: Run) {
    r.attempts != [] && r.attempts[|r.attempts| - 1].outcome in {OutcomeFailed, OutcomeRightsBlocked}
  }

  /** The run was ended by a step outside any attempt: a human decision or a refused claim. */
  predicate ClosedOutside(r: Run) {
    IsTerminal(r.status) && !LastClosed(r)
  }

  ghost predicate AttemptsFit(r: Run) {
    && 1 <= r.maxAttempts <= 10 && |r.attempts| == r.attemptCount <= r.maxAttempts
    && (forall i :: 0 <= i < |r.attempts| ==> r.attempts[i].number == i + 1)
    && (forall i :: 0 <= i < |r.attempts| - 1 ==> r.attempts[i].outcome in {Completed, OutcomeRetryable})
    && (IsWorking(r.status) <==> r.lease.Some?)
    && (IsWorking(r.status) <==> r.attempts != [] && r.attempts[|r.attempts| - 1].outcome == Running)
    && (LastClosed(r) ==> r.status == Failed || r.status == RightsBlocked)
    && (forall i, j :: 0 <= i < j < |r.attempts| && r.attempts[i].stage == GeneratingStage ==> r.attempts[j].stage == GeneratingStage)
    && (r.status == Planning ==> r.attempts[|r.attempts| - 1].stage == PlanningStage)
    && (r.status == Generating ==> r.attempts[|r.attempts| - 1].stage == GeneratingStage)
  }

  predicate IsApproved(r: Run) {
    |r.blueprints| == 1 && r.blueprints[0].status == ApprovedBlueprint
  }

  /** Every row version is one effect: an attempt started or ended, the approval, or the closing. */
  predicate RowVersionFits(r: Run) {
    r.rowVersion - 1 == |r.attempts| + Ended(r.attempts) + (if IsApproved(r) then 1 else 0) + (if ClosedOutside(r) then 1 else 0)
  }

  ghost predicate EvidenceFits(r: Run) {
    && |r.blueprints| <= 1 && |r.lessons| >= 0
    && (r.blueprintHash == if r.blueprints == [] then None else Some(r.blueprints[0].contentHash))
    && (r.blueprints != [] ==> r.blueprints[0].revision == 1)
    && (r.outputHash.Some? <==> r.lessons != [])
    && (r.status in {Queued, Planning} ==> r.blueprints == [])
    && (r.status == BlueprintReview <==> |r.blueprints| == 1 && r.blueprints[0].status == Reviewable)
    && (r.status in {GenerationQueued, Generating, ReviewReady, Canonicalized} ==> IsApproved(r))
    && (r.lessons != [] ==> IsApproved(r) && r.status in {ReviewReady, Canonicalized, Rejected})
    && (r.status in {ReviewReady, Canonicalized} ==> r.lessons != [])
    && (|r.blueprints| == 1 && r.blueprints[0].status == RejectedBlueprint ==> r.status == Rejected)
    && CompletedIn(r.attempts, PlanningStage) == |r.blueprints|
    && CompletedIn(r.attempts, GeneratingStage) == (if r.lessons != [] then 1 else 0)
    && (!IsApproved(r) ==> forall a | a in r.attempts :: a.stage == PlanningStage)
    && (r.lessons != [] ==>
          |r.attempts| > 0 && r.attempts[|r.attempts| - 1].stage == GeneratingStage && r.attempts[|r.attempts| - 1].outcome == Completed)
    && (r.reason.Some? <==> r.status in {Retryable, Failed, RightsBlocked, Rejected})
  }

  /** The human decisions, each about the exact hash that was reviewed. */
  predicate DecisionsFit(r: Run) {
    && |r.decisions| <= 1
    && (IsApproved(r) ==> |r.decisions| == 1 && r.decisions[0].approves && Some(r.decisions[0].reviewedHash) == r.blueprintHash)
    && (r.decisions != [] && r.decisions[0].approves ==> IsApproved(r))
    && (r.decisions != [] && !r.decisions[0].approves ==>
          r.status == Rejected && |r.blueprints| == 1 && r.blueprints[0].status == RejectedBlueprint
          && Some(r.decisions[0].reviewedHash) == r.blueprintHash)
    && (r.status == Canonicalized <==> r.canonicalizations != [])
    && |r.canonicalizations| <= 1 && (r.canonicalizations != [] ==> Some(r.canonicalizations[0]) == r.outputHash)
    && |r.rejections| <= 1 && (r.rejections != [] ==> r.status == Rejected && Some(r.rejections[0]) == r.outputHash)
  }

  ghost predicate Inv(r: Run) {
    AttemptsFit(r) && RowVersionFits(r) && EvidenceFits(r) && DecisionsFit(r)
  }

  /* ---------- sequences of attempts ---------- */

  lemma {:induction false} AttemptCounts(attempts: seq<Attempt>)
    ensures Ended(attempts) <= |attempts|
    ensures (forall a | a in attempts :: a.outcome != Running) ==> Ended(attempts) == |attempts|
  {
    if attempts != [] {
      var last := |attempts| - 1;
      AttemptCounts(attempts[..last]);
      assert forall a | a in attempts[..last] :: a in attempts;
      assert attempts[last] in attempts;
    }
  }

  lemma OneMoreAttempt(attempts: seq<Attempt>, a: Attempt)
    ensures Ended(attempts + [a]) == Ended(attempts) + (if a.outcome != Running then 1 else 0)
    ensures forall st :: CompletedIn(attempts + [a], st) == CompletedIn(attempts, st) + (if a.stage == st && a.outcome == Completed then 1 else 0)
  {
    assert (attempts + [a])[..|attempts|] == attempts;
  }

  /** Ending the last attempt counts it as ended, and as completed when it is. */
  lemma LastAttemptEnds(attempts: seq<Attempt>, next: Attempt)
    requires attempts != [] && attempts[|attempts| - 1].outcome == Running && next.outcome != Running
    requires next.stage == attempts[|attempts| - 1].stage
    ensures var ended := attempts[|attempts| - 1 := next];
      && Ended(ended) == Ended(attempts) + 1
      && forall st :: CompletedIn(ended, st) == CompletedIn(attempts, st) + (if next.stage == st && next.outcome == Completed then 1 else 0)
  {
    var last := |attempts| - 1;
    OneMoreAttempt(attempts[..last], attempts[last]);
    OneMoreAttempt(attempts[..last], next);
    assert attempts == attempts[..last] + [attempts[last]];
    assert attempts[last := next] == attempts[..last] + [next];
  }

  /** Only the last attempt can be running, so ending what runs ends the last. */
  lemma EndRunningEndsLast(r: Run)
    requires AttemptsFit(r) && IsWorking(r.status)
    ensures EndRunning(r.attempts, OutcomeRetryable, "GENERATION_LEASE_CONFLICT")
      == EndLast(r.attempts, OutcomeRetryable, Some("GENERATION_LEASE_CONFLICT"), r.attempts[|r.attempts| - 1].output)
  {}
}

/** What every sequence of course commands keeps. */
module CourseInvariants {
  import opened Prelude
  import opened CanonicalJson
  import opened ContentProjection
  import opened CourseVersions

  /* ---------- the invariant ---------- */

  /** Versions form one chain, and only the newest can be edited or under review. */
  ghost predicate IsChain(s: State) {
    && s.versions != []
    && forall k :: 0 <= k < |s.versions| ==>
         && s.versions[k].number == k + 1
         && s.versions[k].predecessor == (if k == 0 then None else Some(k - 1))
         && (k < |s.versions| - 1 ==> IsSettled(s.versions[k].status))
  }

  /** The hashes of a version in each status. */
  ghost predicate HashesFit(site: Site, v: Version) {
    && v.contentHash == site.hash(v.content)
    && match v.status
       case Draft => v.submittedHash.None? && v.approvedHash.None?
       case ChangesRequested => v.approvedHash.None?
       case UnderReview => v.submittedHash == Some(v.contentHash) && v.approvedHash.None?
       case Scheduled => false
       case _ => v.submittedHash == Some(v.contentHash) && v.approvedHash == Some(v.contentHash)
  }

  predicate WasPublished(status: Status) {
    status == Published || status == Withdrawn || status == Archived
  }

  ghost predicate PointerFits(s: State) {
    s.course.pointer.Some? ==> s.course.pointer.value < |s.versions| && s.versions[s.course.pointer.value].status == Published
  }

  /** An approval of the version's content, by an actor other than its last submitter where the policy separates them. */
  ghost predicate IsApproval(s: State, k: nat, i: nat)
    requires k < |s.versions| && i < |s.facts|
  {
    var fact, submitter := s.facts[i], SubmissionActor(s.facts[..i], k);
    && fact.version == k && fact.kind.Moved? && fact.kind.transition == Approve && fact.contentHash == s.versions[k].contentHash
    && submitter.Some? && submitter == SubmissionActor(s.facts, k)
    && fact.kind.selfReview == (submitter == Some(fact.actor))
    && (s.course.policy == SeparateReviewerRequired ==> submitter != Some(fact.actor))
  }

  ghost predicate HasApprovedReview(s: State, k: nat)
    requires k < |s.versions|
  {
    exists r | r in s.reviews :: r.version == k && r.decision == Approved && r.reviewedHash == s.versions[k].contentHash
  }

  ghost predicate IsReviewed(s: State, k: nat)
    requires k < |s.versions|
  {
    && (s.versions[k].status == UnderReview ==> SubmissionActor(s.facts, k).Some?)
    && (IsSettled(s.versions[k].status) ==> HasApprovedReview(s, k) && exists i :: 0 <= i < |s.facts| && IsApproval(s, k, i))
  }

  /** The state that the facts alone describe. */
  datatype Ledger = Ledger(statuses: seq<Status>, pointer: Option<nat>)

  /** The ledger after one more fact, when the fact fits it. */
  function Record(l: Ledger, f: Fact): Option<Ledger> {
    match f.kind
    case SuccessorCreated(source) =>
      if f.version == |l.statuses| && source < |l.statuses| && IsSettled(l.statuses[source])
      then Some(Ledger(l.statuses + [Draft], l.pointer)) else None
    case Moved(t, previous, _) =>
      if f.version >= |l.statuses| || l.statuses[f.version] !in Sources(t) then None
      else if t == Publish && previous != l.pointer then None
      else if t == Withdraw && l.pointer != Some(f.version) then None
      else Some(Ledger(l.statuses[f.version := Target(t)],
                       if t == Publish then Some(f.version) else if t == Withdraw then None else l.pointer))
  }

  function Replay(facts: seq<Fact>): Option<Ledger> {
    if facts == [] then Some(Ledger([Draft], None))
    else
      match Replay(facts[..|facts| - 1])
      case None => None
      case Some(l) => Record(l, facts[|facts| - 1])
  }

  function Statuses(versions: seq<Version>): (ss: seq<Status>)
    ensures |ss| == |versions| && forall k :: 0 <= k < |ss| ==> ss[k] == versions[k].status
  {
    seq(|versions|, k requires 0 <= k < |versions| => versions[k].status)
  }

  ghost predicate LogRebuilds(s: State) {
    Replay(s.facts) == Some(Ledger(Statuses(s.versions), s.course.pointer))
  }

  ghost predicate AllCompleted(s: State) {
    forall sc | sc in s.reservations :: s.reservations[sc].response.Some?
  }

  ghost predicate Inv(site: Site, s: State) {
    && IsChain(s) && PointerFits(s) && LogRebuilds(s) && AllCompleted(s)
    && (forall k :: 0 <= k < |s.versions| ==> HashesFit(site, s.versions[k]))
    && (forall k :: 0 <= k < |s.versions| ==> IsReviewed(s, k))
  }

  /* ---------- one step has one of four effects ---------- */

  datatype Effect = Nothing | Edited | Advanced | Drafted

  /** The effect of a step that is not refused and not replayed. */
  function EffectOf(site: Site, s: State, input: Input): Effect {
    var c := input.command;
    if !Next(site, s, input).outcome.Done? || Next(site, s, input).outcome.replayed then Nothing
    else
      match c
      case Move(_, _, _, _, _, _, _, _) => Advanced
      case Succeed(_, _, _, _, _) => if JudgeSuccessor(site, s, c) == Create then Drafted else Nothing
      case _ => Edited
  }

  /** Equal but for the idempotency records. */
  predicate SameCourse(a: State, b: State) {
    a.course == b.course && a.versions == b.versions && a.reviews == b.reviews && a.facts == b.facts
  }

  lemma MoveEffect(site: Site, s: State, c: Command, actor: Actor, allowsPublication: bool)
    requires c.Move?
    ensures var step := Transit(site, s, c, actor, allowsPublication);
      if step.outcome.Done? && !step.outcome.replayed then
        TransitionError(site, s, c, actor, allowsPublication).None? && c.version < |s.versions|
        && (IsReview(c.transition) ==> actor.membership.Some?)
        && SameCourse(step.after, MovedState(s, c.version, c.transition, actor))
      else step.after == s
  {}

  lemma JudgedInRange(site: Site, s: State, c: Command)
    requires c.Succeed?
    ensures match JudgeSuccessor(site, s, c) {
      case NoSuccessor(_) => true
      case Existing(k) => c.version < |s.versions| && k < |s.versions|
      case Create => c.version < |s.versions|
    }
  {}

  lemma SucceedEffect(site: Site, s: State, c: Command, actor: Actor)
    requires c.Succeed?
    ensures var step := DraftSuccessor(site, s, c, actor);
      if step.outcome.Done? && !step.outcome.replayed && JudgeSuccessor(site, s, c) == Create then
        c.version < |s.versions| && SameCourse(step.after, SucceededState(s, c.version, actor))
      else SameCourse(step.after, s)
  {
    hide JudgeSuccessor, SuccessorVersion, RequestJson, LatestReview, SucceededState;
    JudgedInRange(site, s, c);
  }

  lemma EditEffect(site: Site, s: State, c: Command)
    requires c.Update? || c.Replace?
    ensures var step := Edit(site, s, c);
      if step.outcome.Done? then EditError(s, c).None? && step.after == EditedState(site, s, c) else step.after == s
    ensures Edit(site, s, c).outcome.Done? ==> !Edit(site, s, c).outcome.replayed
  {}

  lemma StepEffects(site: Site, s: State, input: Input)
    ensures var c, after := input.command, Next(site, s, input).after;
      match EffectOf(site, s, input) {
        case Nothing => SameCourse(after, s)
        case Edited => (c.Update? || c.Replace?) && EditError(s, c).None? && after == EditedState(site, s, c)
        case Advanced =>
          && c.Move? && input.authorization.Granted?
          && TransitionError(site, s, c, input.authorization.actor, input.allowsPublication).None?
          && SameCourse(after, MovedState(s, c.version, c.transition, input.authorization.actor))
        case Drafted =>
          && c.Succeed? && input.authorization.Granted? && JudgeSuccessor(site, s, c) == Create
          && SameCourse(after, SucceededState(s, c.version, input.authorization.actor))
      }
  {
    hide TransitionError, EditError, JudgeSuccessor, MovedState, EditedState, SucceededState, Reserve, SnapshotOf, RequestJson;
    var c := input.command;
    match c
    case Move(_, _, _, _, _, _, _, _) => if input.authorization.Granted? { MoveEffect(site, s, c, input.authorization.actor, input.allowsPublication); }
    case Succeed(_, _, _, _, _) => if input.authorization.Granted? { SucceedEffect(site, s, c, input.authorization.actor); }
    case _ => EditEffect(site, s, c);
  }

  /* ---------- preservation ---------- */

  lemma {:induction false} MaxNumberOfChain(versions: seq<Version>)
    requires forall k :: 0 <= k < |versions| ==> versions[k].number == k + 1
    ensures MaxNumber(versions) == |versions|
  {
    if versions != [] { MaxNumberOfChain(versions[..|versions| - 1]); }
  }

  lemma SuccessorIsFound(s: State, k: nat)
    requires IsChain(s) && k + 1 < |s.versions|
    ensures FirstSuccessor(s.versions, k, 0).Some?
  {
    hide FirstSuccessor;
    assert s.versions[k + 1].predecessor == Some(k);
  }

  /** A settled version without successor is the newest one. */
  lemma CreateMeansNewest(site: Site, s: State, c: Command)
    requires IsChain(s) && c.Succeed? && JudgeSuccessor(site, s, c) == Create
    ensures c.version == |s.versions| - 1 && IsSettled(s.versions[c.version].status)
  {
    if c.version + 1 < |s.versions| { SuccessorIsFound(s, c.version); }
  }

  lemma EditKeeps(site: Site, s: State, c: Command)
    requires Inv(site, s) && (c.Update? || c.Replace?) && EditError(s, c).None?
    ensures Inv(site, EditedState(site, s, c))
  {
    var after := EditedState(site, s, c);
    assert Statuses(after.versions) == Statuses(s.versions);
    forall k | 0 <= k < |after.versions| ensures HashesFit(site, after.versions[k]) {
      assert HashesFit(site, s.versions[k]);
    }
    forall k | 0 <= k < |after.versions| ensures IsReviewed(after, k) {
      assert IsReviewed(s, k);
      if k != c.version && IsSettled(s.versions[k].status) {
        var i :| 0 <= i < |s.facts| && IsApproval(s, k, i);
        assert IsApproval(after, k, i);
      }
    }
  }

  lemma ReplayOneMore(facts: seq<Fact>, f: Fact)
    ensures Replay(facts + [f]) == match Replay(facts) { case None => None case Some(l) => Record(l, f) }
  {
    assert (facts + [f])[..|facts|] == facts;
  }

  /** The guard of the transition table, as the policy check states it. */
  lemma TransitionAllowed(site: Site, s: State, c: Command, actor: Actor, allowsPublication: bool)
    requires c.Move? && TransitionError(site, s, c, actor, allowsPublication).None?
    ensures c.version < |s.versions| && s.versions[c.version].status in Sources(c.transition)
    ensures c.transition == Withdraw ==> s.course.pointer == Some(c.version)
    ensures IsReview(c.transition) ==> actor.membership.Some?
  {}

  lemma MoveKeepsLog(site: Site, s: State, c: Command, actor: Actor, allowsPublication: bool)
    requires LogRebuilds(s) && c.Move? && TransitionError(site, s, c, actor, allowsPublication).None?
    ensures LogRebuilds(MovedState(s, c.version, c.transition, actor))
  {
    hide TransitionError, Replay, SubmissionActor;
    TransitionAllowed(site, s, c, actor, allowsPublication);
    var after := MovedState(s, c.version, c.transition, actor);
    ReplayOneMore(s.facts, after.facts[|s.facts|]);
    assert Statuses(after.versions) == Statuses(s.versions)[c.version := Target(c.transition)];
  }

  lemma MoveKeepsHashes(site: Site, s: State, c: Command, actor: Actor, allowsPublication: bool)
    requires forall k :: 0 <= k < |s.versions| ==> HashesFit(site, s.versions[k])
    requires c.Move? && TransitionError(site, s, c, actor, allowsPublication).None?
    ensures var after := MovedState(s, c.version, c.transition, actor);
      forall k :: 0 <= k < |after.versions| ==> HashesFit(site, after.versions[k])
  {
    var after := MovedState(s, c.version, c.transition, actor);
    forall k | 0 <= k < |after.versions| ensures HashesFit(site, after.versions[k]) {
      assert HashesFit(site, s.versions[k]);
    }
  }

  lemma MoveKeepsChain(site: Site, s: State, c: Command, actor: Actor, allowsPublication: bool)
    requires IsChain(s) && PointerFits(s) && c.Move? && TransitionError(site, s, c, actor, allowsPublication).None?
    ensures IsChain(MovedState(s, c.version, c.transition, actor)) && PointerFits(MovedState(s, c.version, c.transition, actor))
  {
    TransitionAllowed(site, s, c, actor, allowsPublication);
  }

  /** A fact about another version, or one that is no submission, does not change who submitted. */
  lemma SubmitterStays(facts: seq<Fact>, f: Fact, k: nat)
    requires !(f.version == k && f.kind.Moved? && f.kind.transition == SubmitReview)
    ensures SubmissionActor(facts + [f], k) == SubmissionActor(facts, k)
  {
    assert (facts + [f])[..|facts|] == facts;
  }

  lemma SubmitterIsLast(facts: seq<Fact>, f: Fact)
    requires f.kind.Moved? && f.kind.transition == SubmitReview
    ensures SubmissionActor(facts + [f], f.version) == Some(f.actor)
  {}

  /** An approval stays one while the version keeps its hash and nobody submits it again. */
  lemma ApprovalStays(s: State, after: State, k: nat, i: nat)
    requires k < |s.versions| && i < |s.facts| && IsApproval(s, k, i)
    requires k < |after.versions| && s.facts <= after.facts && after.versions[k].contentHash == s.versions[k].contentHash
    requires after.course.policy == s.course.policy && SubmissionActor(after.facts, k) == SubmissionActor(s.facts, k)
    ensures IsApproval(after, k, i)
  {
    assert after.facts[..i] == s.facts[..i] && after.facts[i] == s.facts[i];
  }

  lemma ReviewStays(s: State, after: State, k: nat)
    requires k < |s.versions| && IsReviewed(s, k) && k < |after.versions|
    requires s.facts <= after.facts && s.reviews <= after.reviews && after.course.policy == s.course.policy
    requires after.versions[k].contentHash == s.versions[k].contentHash && SubmissionActor(after.facts, k) == SubmissionActor(s.facts, k)
    requires IsSettled(after.versions[k].status) ==> IsSettled(s.versions[k].status)
    requires after.versions[k].status == UnderReview ==> s.versions[k].status == UnderReview
    ensures IsReviewed(after, k)
  {
    if IsSettled(after.versions[k].status) {
      var i :| 0 <= i < |s.facts| && IsApproval(s, k, i);
      ApprovalStays(s, after, k, i);
      var r :| r in s.reviews && r.version == k && r.decision == Approved && r.reviewedHash == s.versions[k].contentHash;
      assert r in after.reviews;
    }
  }

  lemma MoveKeepsReviews(site: Site, s: State, c: Command, actor: Actor, allowsPublication: bool)
    requires Inv(site, s) && c.Move? && TransitionError(site, s, c, actor, allowsPublication).None?
    ensures var after := MovedState(s, c.version, c.transition, actor);
      forall k :: 0 <= k < |after.versions| ==> IsReviewed(after, k)
  {
    TransitionAllowed(site, s, c, actor, allowsPublication);
    var after := MovedState(s, c.version, c.transition, actor);
    var fact := after.facts[|s.facts|];
    forall k | 0 <= k < |after.versions| ensures IsReviewed(after, k) {
      assert IsReviewed(s, k) && HashesFit(site, s.versions[k]);
      if k != c.version || c.transition == Publish || c.transition == Withdraw || c.transition == Archive {
        SubmitterStays(s.facts, fact, k);
        ReviewStays(s, after, k);
      } else if c.transition == SubmitReview {
        SubmitterIsLast(s.facts, fact);
      } else if c.transition == Approve {
        SubmitterStays(s.facts, fact, k);
        assert after.facts[..|s.facts|] == s.facts;
        assert IsApproval(after, k, |s.facts|);
        assert after.reviews[|s.reviews|] in after.reviews;
      }
    }
  }

  lemma MoveKeeps(site: Site, s: State, c: Command, actor: Actor, allowsPublication: bool)
    requires Inv(site, s) && c.Move? && TransitionError(site, s, c, actor, allowsPublication).None?
    ensures Inv(site, MovedState(s, c.version, c.transition, actor))
  {
    hide IsReviewed, HashesFit, IsChain, LogRebuilds, PointerFits, TransitionError;
    MoveKeepsChain(site, s, c, actor, allowsPublication);
    MoveKeepsLog(site, s, c, actor, allowsPublication);
    MoveKeepsHashes(site, s, c, actor, allowsPublication);
    MoveKeepsReviews(site, s, c, actor, allowsPublication);
    TransitionAllowed(site, s, c, actor, allowsPublication);
  }

  lemma SucceedKeeps(site: Site, s: State, c: Command, actor: Actor)
    requires Inv(site, s) && c.Succeed? && JudgeSuccessor(site, s, c) == Create
    ensures Inv(site, SucceededState(s, c.version, actor))
  {
    hide JudgeSuccessor, Replay, SubmissionActor, MaxNumber;
    CreateMeansNewest(site, s, c);
    MaxNumberOfChain(s.versions);
    var after := SucceededState(s, c.version, actor);
    var fact := after.facts[|s.facts|];
    ReplayOneMore(s.facts, fact);
    assert Statuses(after.versions) == Statuses(s.versions) + [Draft];
    forall k | 0 <= k < |after.versions| ensures HashesFit(site, after.versions[k]) && IsReviewed(after, k) {
      if k < |s.versions| {
        assert HashesFit(site, s.versions[k]) && IsReviewed(s, k);
        SubmitterStays(s.facts, fact, k);
        ReviewStays(s, after, k);
      } else {
        assert HashesFit(site, s.versions[c.version]);
      }
    }
  }

  lemma SameCourseKeeps(site: Site, s: State, after: State)
    requires Inv(site, s) && SameCourse(s, after) && AllCompleted(after)
    ensures Inv(site, after)
  {
    forall k | 0 <= k < |after.versions| ensures IsReviewed(after, k) {
      assert IsReviewed(s, k);
      if IsSettled(s.versions[k].status) {
        var i :| 0 <= i < |s.facts| && IsApproval(s, k, i);
        assert IsApproval(after, k, i);
      }
    }
  }

  lemma RecordsComplete(site: Site, s: State, input: Input)
    requires AllCompleted(s)
    ensures AllCompleted(Next(site, s, input).after)
  {
    hide TransitionError, JudgeSuccessor, EditError, MovedVersion, MovedCourse, SuccessorVersion;
  }

  lemma NextKeeps(site: Site, s: State, input: Input)
    requires Inv(site, s)
    ensures Inv(site, Next(site, s, input).after)
  {
    hide Inv, Next, EffectOf, TransitionError, JudgeSuccessor, EditError, MovedState, SucceededState, EditedState, AllCompleted;
    StepEffects(site, s, input);
    InvIsComplete(site, s);
    RecordsComplete(site, s, input);
    var c, after := input.command, Next(site, s, input).after;
    match EffectOf(site, s, input)
    case Nothing => SameCourseKeeps(site, s, after);
    case Edited => EditKeeps(site, s, c);
    case Advanced =>
      var actor := input.authorization.actor;
      MoveKeeps(site, s, c, actor, input.allowsPublication);
      TransitionAllowed(site, s, c, actor, input.allowsPublication);
      SameCourseKeeps(site, MovedState(s, c.version, c.transition, actor), after);
    case Drafted =>
      SucceedKeeps(site, s, c, input.authorization.actor);
      JudgedInRange(site, s, c);
      SameCourseKeeps(site, SucceededState(s, c.version, input.authorization.actor), after);
  }

  lemma InvIsComplete(site: Site, s: State)
    requires Inv(site, s)
    ensures AllCompleted(s)
  {}

  lemma CreatedIsInvariant(site: Site, policy: ReviewerPolicy, origin: Origin, content: Content)
    ensures Inv(site, Created(site, policy, origin, content))
  {
    assert Statuses(Created(site, policy, origin, content).versions) == [Draft];
  }

  /** Every reachable state of a course satisfies the invariant. */
  lemma {:induction false} RunKeeps(site: Site, policy: ReviewerPolicy, origin: Origin, content: Content, inputs: seq<Input>)
    ensures Inv(site, Run(site, Created(site, policy, origin, content), inputs))
  {
    hide Inv, Next, Created;
    if inputs == [] {
      CreatedIsInvariant(site, policy, origin, content);
    } else {
      RunKeeps(site, policy, origin, content, inputs[..|inputs| - 1]);
      NextKeeps(site, Run(site, Created(site, policy, origin, content), inputs[..|inputs| - 1]), inputs[|inputs| - 1]);
    }
  }
}

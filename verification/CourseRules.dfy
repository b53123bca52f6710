/** The rules of the course workflow, read off the stored fields alone: when a command is accepted in a reachable course, which code
    refuses it, and what it leaves. */
module CourseRules {
  import opened Prelude
  import opened CanonicalJson
  import opened ContentProjection
  import opened CourseVersions
  import opened CourseInvariants

  /* ---------- requests that are not in order ---------- */

  /** Before anything is looked up: malformed fields, then the answer of the authorization port. */
  lemma BadRequestsAreRefused(site: Site, s: State, input: Input)
    ensures !input.formatsValid || input.command.expectedRow < 1 ==> Next(site, s, input) == Step(s, Failed(ValidationFailed))
    ensures input.command.Move?
      && (input.command.transition in {Publish, Withdraw}) != input.command.expectedCourseRow.Some?
      ==> Next(site, s, input) == Step(s, Failed(ValidationFailed))
    ensures input.command.Update? && input.command.primaryLocale.None? && input.command.title.None? && input.command.description.None?
      ==> Next(site, s, input) == Step(s, Failed(ValidationFailed))
    ensures input.formatsValid && IsValid(input.command) && input.authorization.Refused?
      ==> Next(site, s, input) == Step(s, Failed(input.authorization.code))
  {
    hide Edit, Transit, DraftSuccessor;
  }

  /* ---------- who submitted ---------- */

  predicate IsSubmission(f: Fact, v: nat) {
    f.version == v && f.kind.Moved? && f.kind.transition == SubmitReview
  }

  /** The last submission of the version was the actor's. */
  ghost predicate LastSubmittedBy(facts: seq<Fact>, v: nat, actor: nat) {
    exists i :: 0 <= i < |facts| && IsSubmission(facts[i], v) && facts[i].actor == actor
                && forall j :: i < j < |facts| ==> !IsSubmission(facts[j], v)
  }

  lemma {:induction false} SubmitterIsLastSubmitter(facts: seq<Fact>, v: nat)
    ensures forall actor: nat :: SubmissionActor(facts, v) == Some(actor) <==> LastSubmittedBy(facts, v, actor)
  {
    if facts != [] {
      var last := |facts| - 1;
      SubmitterIsLastSubmitter(facts[..last], v);
      forall actor: nat ensures SubmissionActor(facts, v) == Some(actor) <==> LastSubmittedBy(facts, v, actor) {
        if IsSubmission(facts[last], v) {
          if facts[last].actor == actor { assert LastSubmittedBy(facts, v, actor); }
        } else {
          OtherFactLast(facts, v, actor);
        }
      }
    }
  }

  lemma OtherFactLast(facts: seq<Fact>, v: nat, actor: nat)
    requires facts != [] && !IsSubmission(facts[|facts| - 1], v)
    ensures LastSubmittedBy(facts, v, actor) <==> LastSubmittedBy(facts[..|facts| - 1], v, actor)
  {
    var rest := facts[..|facts| - 1];
    if i :| 0 <= i < |facts| && IsSubmission(facts[i], v) && facts[i].actor == actor && forall j :: i < j < |facts| ==> !IsSubmission(facts[j], v) {
      assert rest[i] == facts[i];
    }
    if i :| 0 <= i < |rest| && IsSubmission(rest[i], v) && rest[i].actor == actor && forall j :: i < j < |rest| ==> !IsSubmission(rest[j], v) {
      assert facts[i] == rest[i] && forall j :: i < j < |facts| ==> j == |facts| - 1 || facts[j] == rest[j];
    }
  }

  /* ---------- transitions ---------- */

  /** The policy lets the actor review what was submitted last. */
  ghost predicate MayReview(s: State, v: nat, actor: Actor) {
    actor.membership.Some? && !(s.course.policy == SeparateReviewerRequired && LastSubmittedBy(s.facts, v, actor.id))
  }

  ghost predicate MayMove(site: Site, s: State, c: Command, actor: Actor, allowsPublication: bool)
    requires c.Move?
  {
    && c.version < |s.versions|
    && var v := s.versions[c.version];
       && v.rowVersion == c.expectedRow && site.hash(v.content) == c.expectedHash
       && match c.transition
          case SubmitReview => (v.status == Draft || v.status == ChangesRequested) && site.isComplete(v.content)
          case RequestChanges => v.status == UnderReview && MayReview(s, c.version, actor)
          case Approve => v.status == UnderReview && MayReview(s, c.version, actor) && (v.origin == AiAssisted ==> allowsPublication)
          case Publish =>
            v.status == Approved && (v.origin == AiAssisted ==> allowsPublication) && c.expectedCourseRow == Some(s.course.rowVersion)
          case Withdraw => s.course.pointer == Some(c.version) && c.expectedCourseRow == Some(s.course.rowVersion)
          case Archive => v.status == Withdrawn
  }

  /** Why a transition is refused, by the first rule that it breaks. */
  ghost function MoveRefusal(site: Site, s: State, c: Command, actor: Actor, allowsPublication: bool): Option<Code>
    requires c.Move?
  {
    if c.version >= |s.versions| then Some(ResourceNotFound)
    else
      var v := s.versions[c.version];
      if v.rowVersion != c.expectedRow then Some(VersionConflict)
      else if site.hash(v.content) != c.expectedHash then Some(ContentHashMismatch)
      else
        var misplaced := Some(if v.status in {Draft, UnderReview, ChangesRequested} then VersionConflict else CourseVersionImmutable);
        var own := s.course.policy == SeparateReviewerRequired && LastSubmittedBy(s.facts, c.version, actor.id);
        match c.transition
        case SubmitReview =>
          if v.status != Draft && v.status != ChangesRequested then misplaced
          else if !site.isComplete(v.content) then Some(ValidationFailed) else None
        case RequestChanges =>
          if v.status != UnderReview then misplaced
          else if own then Some(ReviewerSeparationRequired)
          else if actor.membership.None? then Some(CoursePermissionDenied) else None
        case Approve =>
          if v.status != UnderReview then misplaced
          else if own then Some(ReviewerSeparationRequired)
          else if v.origin == AiAssisted && !allowsPublication then Some(ValidationFailed)
          else if actor.membership.None? then Some(CoursePermissionDenied) else None
        case Publish =>
          if v.status != Approved then misplaced
          else if v.origin == AiAssisted && !allowsPublication then Some(ValidationFailed)
          else if c.expectedCourseRow != Some(s.course.rowVersion) then Some(VersionConflict) else None
        case Withdraw =>
          if v.status != Published then misplaced
          else if s.course.pointer != Some(c.version) || c.expectedCourseRow != Some(s.course.rowVersion) then Some(VersionConflict) else None
        case Archive => if v.status != Withdrawn then misplaced else None
  }

  /** In a reachable course the checks of `transition_version` come down to these; the stored hashes are never what fails. */
  lemma TransitionErrorIsRefusal(site: Site, s: State, c: Command, actor: Actor, allowsPublication: bool)
    requires Inv(site, s) && c.Move?
    ensures TransitionError(site, s, c, actor, allowsPublication) == MoveRefusal(site, s, c, actor, allowsPublication)
    ensures MoveRefusal(site, s, c, actor, allowsPublication).None? <==> MayMove(site, s, c, actor, allowsPublication)
  {
    hide LastSubmittedBy, SubmissionActor, LogRebuilds, AllCompleted, IsChain;
    if c.version < |s.versions| {
      SubmitterIsLastSubmitter(s.facts, c.version);
      StoredHashes(site, s, c.version);
      assert SubmissionActor(s.facts, c.version) == Some(actor.id) <==> LastSubmittedBy(s.facts, c.version, actor.id);
    }
  }

  lemma StoredHashes(site: Site, s: State, k: nat)
    requires Inv(site, s) && k < |s.versions|
    ensures HashesFit(site, s.versions[k])
    ensures s.versions[k].status == UnderReview ==> SubmissionActor(s.facts, k).Some?
    ensures s.course.pointer == Some(k) ==> s.versions[k].status == Published
  {
    assert IsReviewed(s, k);
  }

  /** What the caller's request must be by itself. */
  predicate IsMoveRequest(input: Input)
    requires input.command.Move?
  {
    var c := input.command;
    && input.formatsValid && c.expectedRow >= 1
    && (if c.transition == Publish || c.transition == Withdraw then c.expectedCourseRow.Some? && c.expectedCourseRow.value >= 1
        else c.expectedCourseRow.None?)
    && input.authorization.Granted? && (c.transition == SubmitReview || input.authorization.actor.isHuman)
  }

  /** A transition is carried out in a reachable course if and only if the request is in order, its key is new to the actor and the
      operation, and the stored fields allow it. */
  lemma MoveIsAccepted(site: Site, s: State, input: Input)
    requires Inv(site, s) && input.command.Move?
    ensures EffectOf(site, s, input) == Advanced <==>
      && IsMoveRequest(input)
      && Scope(input.authorization.actor.id, TransitionOf(input.command.version, input.command.transition), input.command.key) !in s.reservations
      && MayMove(site, s, input.command, input.authorization.actor, input.allowsPublication)
  {
    hide MoveRefusal, MayMove, TransitionError, Inv, MovedState, SnapshotOf, RequestJson;
    if input.authorization.Granted? {
      TransitionErrorIsRefusal(site, s, input.command, input.authorization.actor, input.allowsPublication);
      RecordsHaveResponses(site, s);
    }
  }

  lemma RecordsHaveResponses(site: Site, s: State)
    requires Inv(site, s)
    ensures forall sc | sc in s.reservations :: s.reservations[sc].response.Some?
  {}

  /** A new transition that the stored fields do not allow is refused with the code of the first rule it breaks. */
  lemma MoveIsRefused(site: Site, s: State, input: Input)
    requires Inv(site, s) && input.command.Move? && IsMoveRequest(input)
    requires Scope(input.authorization.actor.id, TransitionOf(input.command.version, input.command.transition), input.command.key) !in s.reservations
    ensures var refusal := MoveRefusal(site, s, input.command, input.authorization.actor, input.allowsPublication);
      refusal.Some? ==> Next(site, s, input) == Step(s, Failed(refusal.value))
  {
    hide MoveRefusal, TransitionError, Inv, MovedState, SnapshotOf, RequestJson;
    TransitionErrorIsRefusal(site, s, input.command, input.authorization.actor, input.allowsPublication);
  }

  /** An actor who is no human may submit only, and is told so before anything is looked up. */
  lemma MachinesMaySubmitOnly(site: Site, s: State, input: Input)
    requires input.command.Move? && input.formatsValid && IsValid(input.command) && input.authorization.Granted?
    requires !input.authorization.actor.isHuman && input.command.transition != SubmitReview
    ensures Next(site, s, input) == Step(s, Failed(HumanActionRequired))
  {}

  /** The version after a transition. */
  function VersionAfter(site: Site, v: Version, t: Transition): Version {
    var next := v.(rowVersion := v.rowVersion + 1);
    match t
    case SubmitReview => next.(status := UnderReview, submittedHash := Some(site.hash(v.content)), approvedHash := None)
    case RequestChanges => next.(status := ChangesRequested)
    case Approve => next.(status := Approved, approvedHash := Some(site.hash(v.content)))
    case Publish => next.(status := Published)
    case Withdraw => next.(status := Withdrawn)
    case Archive => next.(status := Archived)
  }

  /** What a transition leaves: one version moved, the course row counted when the pointer moves, a review for a decision, one fact;
      and what it answers. */
  lemma MoveLeaves(site: Site, s: State, input: Input)
    requires Inv(site, s) && EffectOf(site, s, input) == Advanced && input.command.Move?
    ensures var Step(now, outcome), c, actor := Next(site, s, input), input.command, input.authorization.actor;
      && c.version < |s.versions|
      && var v, own := VersionAfter(site, s.versions[c.version], c.transition), LastSubmittedBy(s.facts, c.version, actor.id);
         && now.versions == s.versions[c.version := v]
         && now.course == (match c.transition
                           case Publish => Course(s.course.policy, Some(c.version), s.course.rowVersion + 1)
                           case Withdraw => Course(s.course.policy, None, s.course.rowVersion + 1)
                           case _ => s.course)
         && now.reviews == s.reviews + (match c.transition
                                        case RequestChanges => [Review(c.version, ChangesRequested, v.contentHash, actor.membership.value, own)]
                                        case Approve => [Review(c.version, Approved, v.contentHash, actor.membership.value, own)]
                                        case _ => [])
         && now.facts == s.facts + [Fact(Moved(c.transition, if c.transition == Publish then s.course.pointer else None,
                                               (c.transition == RequestChanges || c.transition == Approve) && own),
                                         c.version, actor.id, v.contentHash, v.rowVersion)]
         && outcome == Done(SnapshotResponse(Snapshot(now.course, c.version, v, LatestReview(now.reviews, c.version))), false)
  {
    hide Inv, TransitionError, LastSubmittedBy, SubmissionActor, LatestReview, RequestJson, MayMove, MoveRefusal;
    var c, actor := input.command, input.authorization.actor;
    StepEffects(site, s, input);
    TransitionErrorIsRefusal(site, s, c, actor, input.allowsPublication);
    TransitionAllowed(site, s, c, actor, input.allowsPublication);
    StoredHashes(site, s, c.version);
    SubmitterIsLastSubmitter(s.facts, c.version);
    assert SubmissionActor(s.facts, c.version) == Some(actor.id) <==> LastSubmittedBy(s.facts, c.version, actor.id);
  }

  /* ---------- edits ---------- */

  predicate IsEditRequest(input: Input)
    requires input.command.Update? || input.command.Replace?
  {
    var c := input.command;
    && input.formatsValid && c.expectedRow >= 1 && input.authorization.Granted?
    && (c.Update? ==> c.primaryLocale.Some? || c.title.Some? || c.description.Some?)
  }

  predicate MayEdit(s: State, c: Command)
    requires c.Update? || c.Replace?
  {
    && c.version < |s.versions| && s.versions[c.version].rowVersion == c.expectedRow
    && (s.versions[c.version].status == Draft || s.versions[c.version].status == ChangesRequested)
    && (c.Replace? ==> c.materialized.Ok?)
  }

  lemma EditIsAccepted(site: Site, s: State, input: Input)
    requires input.command.Update? || input.command.Replace?
    ensures EffectOf(site, s, input) == Edited <==> IsEditRequest(input) && MayEdit(s, input.command)
  {
    hide EditedState, SnapshotOf;
  }

  /** The codes that refuse an edit, in the order in which they are met. */
  lemma EditIsRefused(site: Site, s: State, input: Input)
    requires (input.command.Update? || input.command.Replace?) && IsEditRequest(input)
    ensures var c, step := input.command, Next(site, s, input);
      if c.version >= |s.versions| then step == Step(s, Failed(ResourceNotFound))
      else if s.versions[c.version].status !in {Draft, ChangesRequested} then step == Step(s, Failed(CourseVersionImmutable))
      else if s.versions[c.version].rowVersion != c.expectedRow then step == Step(s, Failed(VersionConflict))
      else if c.Replace? && c.materialized.Err? then step == Step(s, Failed(c.materialized.error))
      else step.outcome.Done?
  {
    hide EditedState, SnapshotOf;
  }

  /** A text given as nothing or as the empty text leaves the stored one. */
  predicate IsKeptOrGiven(now: string, was: string, given: Option<string>) {
    if given.Some? && given.value != "" then now == given.value else now == was
  }

  /** What an edit leaves: the fields that were given, each in its place, the other fields and the curriculum as they were, or the
      replaced curriculum under the old fields; the hash of exactly that, no review hashes, one more row version. */
  lemma EditLeaves(site: Site, s: State, input: Input)
    requires EffectOf(site, s, input) == Edited && (input.command.Update? || input.command.Replace?)
    ensures var Step(now, outcome), c := Next(site, s, input), input.command;
      && c.version < |s.versions| && |now.versions| == |s.versions|
      && var v, w := s.versions[c.version], now.versions[c.version];
         && (c.Update? ==>
               && IsKeptOrGiven(w.content.meta.primaryLocale, v.content.meta.primaryLocale, c.primaryLocale)
               && IsKeptOrGiven(w.content.meta.title, v.content.meta.title, c.title)
               && IsKeptOrGiven(w.content.meta.description, v.content.meta.description, c.description)
               && w.content.curriculum == v.content.curriculum)
         && (c.Replace? ==>
               c.materialized.Ok? && w.content.curriculum == c.materialized.value && w.content.meta == v.content.meta)
         && w == Version(v.number, v.predecessor, v.status, v.origin, w.content, site.hash(w.content), None, None, v.rowVersion + 1)
         && now == s.(versions := s.versions[c.version := w])
         && outcome == Done(SnapshotResponse(Snapshot(s.course, c.version, w, LatestReview(s.reviews, c.version))), false)
  {
    hide LatestReview;
    StepEffects(site, s, input);
  }

  /* ---------- successor drafts ---------- */

  predicate IsSuccessorRequest(input: Input)
    requires input.command.Succeed?
  {
    input.formatsValid && input.command.courseRow >= 1 && input.command.expectedRow >= 1 && input.authorization.Granted?
  }

  predicate IsFresh(s: State, input: Input)
    requires input.command.Succeed? && input.authorization.Granted?
  {
    Scope(input.authorization.actor.id, SuccessorOf(input.command.version), input.command.key) !in s.reservations
  }

  predicate NamesSettledSource(site: Site, s: State, c: Command)
    requires c.Succeed?
  {
    && c.version < |s.versions| && s.versions[c.version].rowVersion == c.expectedRow
    && site.hash(s.versions[c.version].content) == c.expectedHash
    && s.versions[c.version].status in {Approved, Published, Withdrawn, Archived}
  }

  /** In a reachable course a successor is created for the newest version only, and the one that may be answered with again is the
      editable newest version, for its predecessor. */
  lemma SuccessorIsJudged(site: Site, s: State, c: Command)
    requires Inv(site, s) && c.Succeed?
    ensures JudgeSuccessor(site, s, c) == Create <==>
      NamesSettledSource(site, s, c) && c.version == |s.versions| - 1 && c.courseRow == s.course.rowVersion
    ensures forall k: nat :: JudgeSuccessor(site, s, c) == Existing(k) <==>
      && NamesSettledSource(site, s, c) && k == c.version + 1 == |s.versions| - 1
      && (s.versions[k].status == Draft || s.versions[k].status == ChangesRequested)
      && (c.courseRow == s.course.rowVersion || c.courseRow == s.course.rowVersion - 1)
  {
    hide LogRebuilds, AllCompleted, FirstSuccessor, PointerFits, IsReviewed;
    if c.version < |s.versions| {
      assert HashesFit(site, s.versions[c.version]);
      SuccessorIsNext(s, c.version);
    }
  }

  /** The answer to a new successor request in a reachable course, with the code of the first rule that it breaks. */
  lemma SuccessorIsRefused(site: Site, s: State, c: Command)
    requires Inv(site, s) && c.Succeed?
    ensures JudgeSuccessor(site, s, c) ==
      if c.version >= |s.versions| then NoSuccessor(ResourceNotFound)
      else if s.versions[c.version].rowVersion != c.expectedRow then NoSuccessor(VersionConflict)
      else if site.hash(s.versions[c.version].content) != c.expectedHash then NoSuccessor(ContentHashMismatch)
      else if s.versions[c.version].status in {Draft, UnderReview, ChangesRequested} then NoSuccessor(CourseVersionImmutable)
      else if c.version == |s.versions| - 1 then
        if c.courseRow == s.course.rowVersion then Create else NoSuccessor(VersionConflict)
      else if s.versions[c.version + 1].status !in {Draft, ChangesRequested} then NoSuccessor(CourseVersionImmutable)
      else if c.courseRow == s.course.rowVersion || c.courseRow == s.course.rowVersion - 1 then Existing(c.version + 1)
      else NoSuccessor(VersionConflict)
  {
    hide LogRebuilds, AllCompleted, FirstSuccessor, PointerFits, IsReviewed;
    if c.version < |s.versions| {
      assert HashesFit(site, s.versions[c.version]);
      SuccessorIsNext(s, c.version);
    }
  }

  lemma SuccessorIsNext(s: State, k: nat)
    requires IsChain(s) && k < |s.versions|
    ensures FirstSuccessor(s.versions, k, 0) == if k + 1 < |s.versions| then Some(k + 1) else None
  {
    hide FirstSuccessor;
    var found := FirstSuccessor(s.versions, k, 0);
    if k + 1 < |s.versions| { assert s.versions[k + 1].predecessor == Some(k); }
  }

  lemma SuccessorIsAccepted(site: Site, s: State, input: Input)
    requires Inv(site, s) && input.command.Succeed?
    ensures EffectOf(site, s, input) == Drafted <==>
      && IsSuccessorRequest(input) && IsFresh(s, input) && NamesSettledSource(site, s, input.command)
      && input.command.version == |s.versions| - 1 && input.command.courseRow == s.course.rowVersion
  {
    hide Inv, JudgeSuccessor, SucceededState, SnapshotOf, RequestJson;
    SuccessorIsJudged(site, s, input.command);
    JudgedInRange(site, s, input.command);
    RecordsHaveResponses(site, s);
  }

  /** What a new successor draft is: the next version, with the origin, the content and the content hash of its source, and nothing of
      the source's reviews. */
  lemma SuccessorLeaves(site: Site, s: State, input: Input)
    requires Inv(site, s) && EffectOf(site, s, input) == Drafted && input.command.Succeed?
    ensures var Step(now, outcome), n := Next(site, s, input), |s.versions|;
      && n > 0 && input.command.version == n - 1
      && var v := s.versions[n - 1];
         var draft := Version(n + 1, Some(n - 1), Draft, v.origin, v.content, site.hash(v.content), None, None, 1);
         && now.versions == s.versions + [draft]
         && now.course == Course(s.course.policy, s.course.pointer, s.course.rowVersion + 1)
         && now.reviews == s.reviews
         && now.facts == s.facts + [Fact(SuccessorCreated(n - 1), n, input.authorization.actor.id, draft.contentHash, 1)]
         && outcome == Done(SuccessorResponse(n - 1, n, Snapshot(now.course, n, draft, LatestReview(s.reviews, n))), false)
  {
    hide JudgeSuccessor, LatestReview, RequestJson, MaxNumber, AllCompleted, LogRebuilds, PointerFits, IsReviewed;
    var c := input.command;
    StepEffects(site, s, input);
    CreateMeansNewest(site, s, c);
    MaxNumberOfChain(s.versions);
    assert HashesFit(site, s.versions[c.version]);
  }

  /** An answer with the existing successor leaves the course as it is. */
  lemma SuccessorIsReused(site: Site, s: State, input: Input)
    requires Inv(site, s) && input.command.Succeed? && IsSuccessorRequest(input) && IsFresh(s, input)
    requires NamesSettledSource(site, s, input.command) && input.command.version == |s.versions| - 2
    requires s.versions[|s.versions| - 1].status == Draft || s.versions[|s.versions| - 1].status == ChangesRequested
    requires input.command.courseRow == s.course.rowVersion || input.command.courseRow == s.course.rowVersion - 1
    ensures var Step(now, outcome), k := Next(site, s, input), |s.versions| - 1;
      && SameCourse(now, s)
      && outcome == Done(SuccessorResponse(k - 1, k, Snapshot(s.course, k, s.versions[k], LatestReview(s.reviews, k))), false)
  {
    hide Inv, JudgeSuccessor, LatestReview, RequestJson;
    SuccessorIsJudged(site, s, input.command);
    assert JudgeSuccessor(site, s, input.command) == Existing(|s.versions| - 1);
  }

  /* ---------- every reachable course ---------- */

  /** A new course has one draft of exactly the given content; for an AI-assisted one its curriculum is already the second save. */
  lemma NewCourses(site: Site, policy: ReviewerPolicy, origin: Origin, content: Content)
    ensures var s, row := Created(site, policy, origin, content), if origin == AiAssisted then 2 else 1;
      && s.versions == [Version(1, None, Draft, origin, content, site.hash(content), None, None, row)]
      && s.course == Course(policy, None, 1) && s.reviews == [] && s.facts == [] && s.reservations == map[]
  {}

  /** All versions have the origin of the course, and content that left the author's hands was complete when it did. */
  ghost predicate IsOrderly(site: Site, s: State, origin: Origin) {
    forall k :: 0 <= k < |s.versions| ==>
      s.versions[k].origin == origin && (s.versions[k].status !in {Draft, ChangesRequested} ==> site.isComplete(s.versions[k].content))
  }

  lemma NextIsOrderly(site: Site, s: State, origin: Origin, input: Input)
    requires Inv(site, s) && IsOrderly(site, s, origin)
    ensures IsOrderly(site, Next(site, s, input).after, origin)
  {
    hide Inv, Next, EffectOf, JudgeSuccessor, TransitionError, LatestReview, LastSubmittedBy, MayReview;
    StepEffects(site, s, input);
    var c := input.command;
    match EffectOf(site, s, input)
    case Nothing =>
    case Edited => EditLeaves(site, s, input);
    case Advanced =>
      MoveLeaves(site, s, input);
      MoveIsAccepted(site, s, input);
      if c.transition == Withdraw { StoredHashes(site, s, c.version); }
    case Drafted => SuccessorLeaves(site, s, input);
  }

  /** In every reachable course all versions are of the origin that the course was created with, and whatever is under review,
      approved, published, withdrawn or archived is complete. */
  lemma {:induction false} RunIsOrderly(site: Site, policy: ReviewerPolicy, origin: Origin, content: Content, inputs: seq<Input>)
    ensures IsOrderly(site, Run(site, Created(site, policy, origin, content), inputs), origin)
  {
    hide Inv, Next;
    if inputs != [] {
      var last := |inputs| - 1;
      RunKeeps(site, policy, origin, content, inputs[..last]);
      RunIsOrderly(site, policy, origin, content, inputs[..last]);
      NextIsOrderly(site, Run(site, Created(site, policy, origin, content), inputs[..last]), origin, inputs[last]);
    }
  }

  /** However a course was reached: what its next command publishes is complete and approved, is published by a human, and
      for an AI-assisted course with the consent of the publication port. */
  lemma PublicationsAreOrderly(site: Site, policy: ReviewerPolicy, origin: Origin, content: Content, inputs: seq<Input>, next: Input)
    requires next.command.Move? && next.command.transition == Publish
    requires EffectOf(site, Run(site, Created(site, policy, origin, content), inputs), next) == Advanced
    ensures var s := Run(site, Created(site, policy, origin, content), inputs);
      && next.command.version < |s.versions|
      && var v := s.versions[next.command.version];
         && site.isComplete(v.content) && v.status == Approved && v.approvedHash == v.submittedHash == Some(site.hash(v.content))
         && next.command.expectedHash == site.hash(v.content)
         && next.authorization.Granted? && next.authorization.actor.isHuman
         && (origin == AiAssisted ==> next.allowsPublication)
  {
    hide Inv, Next, EffectOf, Created, LastSubmittedBy;
    var s := Run(site, Created(site, policy, origin, content), inputs);
    RunKeeps(site, policy, origin, content, inputs);
    RunIsOrderly(site, policy, origin, content, inputs);
    MoveIsAccepted(site, s, next);
    StoredHashes(site, s, next.command.version);
  }
}

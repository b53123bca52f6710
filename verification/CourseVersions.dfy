/** The lifecycle of one course: its versions, publication pointer, reviews, facts and idempotency records.
    One step is one command inside its database transaction; a refused command changes nothing. */
module CourseVersions {
  import opened Prelude
  import opened CanonicalJson
  import opened ContentProjection

  type Hash = string

  datatype Status = Draft | UnderReview | ChangesRequested | Approved | Scheduled | Published | Withdrawn | Archived
  datatype Origin = Manual | AiAssisted
  datatype ReviewerPolicy = SelfReviewAllowed | SeparateReviewerRequired
  datatype Transition = SubmitReview | RequestChanges | Approve | Publish | Withdraw | Archive

  /** What a content hash is computed from. */
  datatype Content = Content(meta: Metadata, curriculum: map<int, SectionMeaning>)

  /** A version is known by its place in the order of creation. */
  datatype Version = Version(
    number: int, predecessor: Option<nat>, status: Status, origin: Origin, content: Content,
    contentHash: Hash, submittedHash: Option<Hash>, approvedHash: Option<Hash>, rowVersion: int)

  datatype Course = Course(policy: ReviewerPolicy, pointer: Option<nat>, rowVersion: int)

  datatype Review = Review(version: nat, decision: Status, reviewedHash: Hash, reviewer: nat, selfReview: bool)

  datatype FactKind =
    | Moved(transition: Transition, previous: Option<nat>, selfReview: bool)
    | SuccessorCreated(source: nat)

  datatype Fact = Fact(kind: FactKind, version: nat, actor: nat, contentHash: Hash, aggregateVersion: int)

  datatype Snapshot = Snapshot(course: Course, id: nat, version: Version, latestReview: Option<Review>)

  datatype Response = SnapshotResponse(snapshot: Snapshot) | SuccessorResponse(source: nat, successor: nat, snapshot: Snapshot)

  datatype Operation = TransitionOf(version: nat, transition: Transition) | SuccessorOf(source: nat)
  datatype Scope = Scope(actor: nat, operation: Operation, key: string)

  /** A record without response is reserved and not completed. */
  datatype Reservation = Reservation(requestHash: Hash, response: Option<Response>)

  datatype State = State(course: Course, versions: seq<Version>, reviews: seq<Review>, facts: seq<Fact>,
                         reservations: map<Scope, Reservation>)

  datatype Code =
    | ValidationFailed | ResourceNotFound | TenantAccessInactive | CoursePermissionDenied | HumanActionRequired | VersionConflict
    | ContentHashMismatch | CourseVersionImmutable | ReviewerSeparationRequired | IdempotencyConflict | ServiceContractError

  datatype Actor = Actor(id: nat, membership: Option<nat>, isHuman: bool)

  /** The answer of the authorization port for the permission that the command needs. */
  datatype Authorization = Refused(code: Code) | Granted(actor: Actor)

  datatype Command =
    | Update(version: nat, expectedRow: int, primaryLocale: Option<string>, title: Option<string>, description: Option<string>)
    | Replace(version: nat, expectedRow: int, materialized: Result<map<int, SectionMeaning>, Code>)
    | Move(version: nat, transition: Transition, expectedRow: int, expectedHash: Hash, expectedCourseRow: Option<int>,
           reasonCode: Option<string>, reasonCodes: seq<string>, key: string)
    | Succeed(version: nat, courseRow: int, expectedRow: int, expectedHash: Hash, key: string)

  /** A command with what its environment answers: field formats, authorization, and the publication port. */
  datatype Input = Input(command: Command, formatsValid: bool, authorization: Authorization, allowsPublication: bool)

  datatype Outcome = Done(response: Response, replayed: bool) | Failed(code: Code)

  /** The content hash, the request digest and the completeness check of a deployment. */
  datatype Site = Site(hash: Content -> Hash, digest: Json -> Hash, isComplete: Content -> bool)

  /* ---------- policies ---------- */

  function Sources(t: Transition): set<Status> {
    match t
    case SubmitReview => {Draft, ChangesRequested}
    case RequestChanges => {UnderReview}
    case Approve => {UnderReview}
    case Publish => {Approved}
    case Withdraw => {Published}
    case Archive => {Withdrawn}
  }

  function Target(t: Transition): Status {
    match t
    case SubmitReview => UnderReview
    case RequestChanges => ChangesRequested
    case Approve => Approved
    case Publish => Published
    case Withdraw => Withdrawn
    case Archive => Archived
  }

  predicate IsEditable(status: Status) {
    status == Draft || status == ChangesRequested
  }

  /** The states that a successor may be drafted from, which are also those that refuse edits for good. */
  predicate IsSettled(status: Status) {
    status in {Approved, Scheduled, Published, Withdrawn, Archived}
  }

  predicate IsReview(t: Transition) {
    t == RequestChanges || t == Approve
  }

  predicate MovesPointer(t: Transition) {
    t == Publish || t == Withdraw
  }

  /* ---------- lookups ---------- */

  /** `app.course_submission_actor`: the actor of the last submitted fact. */
  function SubmissionActor(facts: seq<Fact>, v: nat): Option<nat> {
    if facts == [] then None
    else
      var last := facts[|facts| - 1];
      if last.version == v && last.kind.Moved? && last.kind.transition == SubmitReview then Some(last.actor)
      else SubmissionActor(facts[..|facts| - 1], v)
  }

  function LatestReview(reviews: seq<Review>, v: nat): Option<Review> {
    if reviews == [] then None
    else if reviews[|reviews| - 1].version == v then Some(reviews[|reviews| - 1])
    else LatestReview(reviews[..|reviews| - 1], v)
  }

  /** The first version with the given predecessor. */
  function FirstSuccessor(versions: seq<Version>, source: nat, from: nat): (r: Option<nat>)
    requires from <= |versions|
    ensures r.Some? ==> from <= r.value < |versions| && versions[r.value].predecessor == Some(source)
    ensures r.None? ==> forall k :: from <= k < |versions| ==> versions[k].predecessor != Some(source)
    decreases |versions| - from
  {
    if from == |versions| then None
    else if versions[from].predecessor == Some(source) then Some(from)
    else FirstSuccessor(versions, source, from + 1)
  }

  function MaxNumber(versions: seq<Version>): int {
    if versions == [] then 0
    else
      var rest := MaxNumber(versions[..|versions| - 1]);
      var last := versions[|versions| - 1].number;
      if last > rest then last else rest
  }

  function SnapshotOf(s: State, v: nat): Snapshot
    requires v < |s.versions|
  {
    Snapshot(s.course, v, s.versions[v], LatestReview(s.reviews, v))
  }

  /* ---------- requests and idempotency ---------- */

  function OptionalInt(x: Option<int>): Json {
    match x case None => Null case Some(n) => Int(n)
  }

  function OptionalStr(x: Option<string>): Json {
    match x case None => Null case Some(s) => Str(s)
  }

  function Strings(xs: seq<string>): (js: seq<Json>)
    ensures |js| == |xs| && forall i :: 0 <= i < |js| ==> js[i] == Str(xs[i])
  {
    seq(|xs|, i requires 0 <= i < |xs| => Str(xs[i]))
  }

  function TransitionName(t: Transition): string {
    match t
    case SubmitReview => "submit_review"
    case RequestChanges => "request_changes"
    case Approve => "approve"
    case Publish => "publish"
    case Withdraw => "withdraw"
    case Archive => "archive"
  }

  /** The value that the request hash of an idempotent command is computed from. */
  function RequestJson(c: Command): Json
    requires c.Move? || c.Succeed?
  {
    match c
    case Move(_, transition, row, hash, courseRow, reason, reasons, _) =>
      Obj(map["transition" := Str(TransitionName(transition)), "expected_version_row_version" := Int(row),
              "expected_course_row_version" := OptionalInt(courseRow), "expected_content_hash" := Str(hash),
              "reason_code" := OptionalStr(reason), "reason_codes" := Arr(Strings(reasons))])
    case Succeed(_, courseRow, row, hash, _) =>
      Obj(map["expected_course_row_version" := Int(courseRow), "expected_source_version_row_version" := Int(row),
              "expected_source_content_hash" := Str(hash)])
  }

  function ScopeOf(actor: Actor, c: Command): Scope
    requires c.Move? || c.Succeed?
  {
    Scope(actor.id, if c.Move? then TransitionOf(c.version, c.transition) else SuccessorOf(c.version), c.key)
  }

  /** `_reserve`: no record yet, a completed one to replay, or an error. */
  function Reserve(s: State, scope: Scope, requestHash: Hash): Result<Option<Response>, Code> {
    if scope !in s.reservations then Ok(None)
    else if s.reservations[scope].requestHash != requestHash then Err(IdempotencyConflict)
    else if s.reservations[scope].response.None? then Err(VersionConflict)
    else Ok(s.reservations[scope].response)
  }

  function Complete(s: State, scope: Scope, requestHash: Hash, response: Response): State {
    s.(reservations := s.reservations[scope := Reservation(requestHash, Some(response))])
  }

  /* ---------- transitions ---------- */

  predicate IsValid(c: Command) {
    match c
    case Update(_, row, locale, title, description) => row >= 1 && (locale.Some? || title.Some? || description.Some?)
    case Replace(_, row, _) => row >= 1
    case Move(_, t, row, _, courseRow, _, _, _) =>
      row >= 1 && (MovesPointer(t) <==> courseRow.Some?) && (courseRow.Some? ==> courseRow.value >= 1)
    case Succeed(_, courseRow, row, _, _) => courseRow >= 1 && row >= 1
  }

  /** Every check that `transition_version` makes once the version is loaded, in order. */
  function TransitionError(site: Site, s: State, c: Command, actor: Actor, allowsPublication: bool): Option<Code>
    requires c.Move?
  {
    if c.version >= |s.versions| then Some(ResourceNotFound)
    else
      var v := s.versions[c.version];
      var current := site.hash(v.content);
      var submitter := if v.submittedHash.None? then None else SubmissionActor(s.facts, c.version);
      if v.rowVersion != c.expectedRow then Some(VersionConflict)
      else if v.contentHash != current then Some(ServiceContractError)
      else if c.expectedHash != current then Some(ContentHashMismatch)
      else if v.status !in Sources(c.transition) then Some(if IsSettled(v.status) then CourseVersionImmutable else VersionConflict)
      else if IsReview(c.transition) && submitter.None? then Some(ServiceContractError)
      else if IsReview(c.transition) && submitter == Some(actor.id) && s.course.policy == SeparateReviewerRequired
      then Some(ReviewerSeparationRequired)
      else if v.origin == AiAssisted && (c.transition == Approve || c.transition == Publish) && !allowsPublication
      then Some(ValidationFailed)
      else if c.transition == SubmitReview && !site.isComplete(v.content) then Some(ValidationFailed)
      else if IsReview(c.transition) && v.submittedHash != Some(current) then Some(ContentHashMismatch)
      else if c.transition == Publish && (v.submittedHash != Some(current) || v.approvedHash != Some(current))
      then Some(ContentHashMismatch)
      else if c.transition == Withdraw && s.course.pointer != Some(c.version) then Some(VersionConflict)
      else if IsReview(c.transition) && actor.membership.None? then Some(CoursePermissionDenied)
      else if MovesPointer(c.transition) && c.expectedCourseRow != Some(s.course.rowVersion) then Some(VersionConflict)
      else None
  }

  function MovedVersion(v: Version, t: Transition): Version {
    v.(status := Target(t),
       submittedHash := if t == SubmitReview then Some(v.contentHash) else v.submittedHash,
       approvedHash := if t == SubmitReview then None else if t == Approve then Some(v.contentHash) else v.approvedHash,
       rowVersion := v.rowVersion + 1)
  }

  function MovedCourse(course: Course, v: nat, t: Transition): Course {
    match t
    case Publish => course.(pointer := Some(v), rowVersion := course.rowVersion + 1)
    case Withdraw => course.(pointer := None, rowVersion := course.rowVersion + 1)
    case _ => course
  }

  function MovedState(s: State, v: nat, t: Transition, actor: Actor): State
    requires v < |s.versions| && (IsReview(t) ==> actor.membership.Some?)
  {
    var after := MovedVersion(s.versions[v], t);
    var selfReview := IsReview(t) && SubmissionActor(s.facts, v) == Some(actor.id);
    State(MovedCourse(s.course, v, t),
          s.versions[v := after],
          if IsReview(t) then s.reviews + [Review(v, Target(t), after.contentHash, actor.membership.value, selfReview)] else s.reviews,
          s.facts + [Fact(Moved(t, if t == Publish then s.course.pointer else None, selfReview), v, actor.id, after.contentHash, after.rowVersion)],
          s.reservations)
  }

  /* ---------- successor drafts ---------- */

  datatype SuccessorVerdict = NoSuccessor(code: Code) | Existing(id: nat) | Create

  function JudgeSuccessor(site: Site, s: State, c: Command): SuccessorVerdict
    requires c.Succeed?
  {
    if c.version >= |s.versions| then NoSuccessor(ResourceNotFound)
    else
      var v := s.versions[c.version];
      var current := site.hash(v.content);
      if v.contentHash != current then NoSuccessor(ServiceContractError)
      else if v.rowVersion != c.expectedRow then NoSuccessor(VersionConflict)
      else if current != c.expectedHash then NoSuccessor(ContentHashMismatch)
      else if !IsSettled(v.status) then NoSuccessor(CourseVersionImmutable)
      else
        match FirstSuccessor(s.versions, c.version, 0)
        case Some(k) =>
          if !IsEditable(s.versions[k].status) then NoSuccessor(CourseVersionImmutable)
          else if c.courseRow != s.course.rowVersion && c.courseRow != s.course.rowVersion - 1
          then NoSuccessor(VersionConflict)
          else Existing(k)
        case None => if s.course.rowVersion != c.courseRow then NoSuccessor(VersionConflict) else Create
  }

  function SuccessorVersion(s: State, source: nat): Version
    requires source < |s.versions|
  {
    var v := s.versions[source];
    Version(MaxNumber(s.versions) + 1, Some(source), Draft, v.origin, v.content, v.contentHash, None, None, 1)
  }

  function SucceededState(s: State, source: nat, actor: Actor): State
    requires source < |s.versions|
  {
    var draft := SuccessorVersion(s, source);
    State(s.course.(rowVersion := s.course.rowVersion + 1), s.versions + [draft], s.reviews,
          s.facts + [Fact(SuccessorCreated(source), |s.versions|, actor.id, draft.contentHash, 1)], s.reservations)
  }

  /* ---------- edits ---------- */

  function EditError(s: State, c: Command): Option<Code>
    requires c.Update? || c.Replace?
  {
    if c.version >= |s.versions| then Some(ResourceNotFound)
    else if !IsEditable(s.versions[c.version].status) then Some(CourseVersionImmutable)
    else if s.versions[c.version].rowVersion != c.expectedRow then Some(VersionConflict)
    else if c.Replace? && c.materialized.Err? then Some(c.materialized.error)
    else None
  }

  /** `command.title or aggregate.version.title` */
  function Or(given: Option<string>, stored: string): string {
    if given.None? || given.value == "" then stored else given.value
  }

  function EditedContent(content: Content, c: Command): Content
    requires c.Update? || (c.Replace? && c.materialized.Ok?)
  {
    match c
    case Update(_, _, locale, title, description) =>
      var m := content.meta;
      content.(meta := Metadata(Or(locale, m.primaryLocale), Or(title, m.title), Or(description, m.description)))
    case Replace(_, _, materialized) => content.(curriculum := materialized.value)
  }

  function EditedState(site: Site, s: State, c: Command): State
    requires c.Update? || (c.Replace? && c.materialized.Ok?)
    requires c.version < |s.versions|
  {
    var v := s.versions[c.version];
    var content := EditedContent(v.content, c);
    s.(versions := s.versions[c.version := v.(content := content, contentHash := site.hash(content), submittedHash := None,
                                             approvedHash := None, rowVersion := v.rowVersion + 1)])
  }

  /* ---------- one command ---------- */

  datatype Step = Step(after: State, outcome: Outcome)

  function Edit(site: Site, s: State, c: Command): Step
    requires c.Update? || c.Replace?
  {
    match EditError(s, c)
    case Some(code) => Step(s, Failed(code))
    case None =>
      var after := EditedState(site, s, c);
      Step(after, Done(SnapshotResponse(SnapshotOf(after, c.version)), false))
  }

  function Transit(site: Site, s: State, c: Command, actor: Actor, allowsPublication: bool): Step
    requires c.Move?
  {
    if MustBeHuman(c.transition) && !actor.isHuman then Step(s, Failed(HumanActionRequired))
    else
      var scope, requestHash := ScopeOf(actor, c), site.digest(RequestJson(c));
      match Reserve(s, scope, requestHash)
      case Err(code) => Step(s, Failed(code))
      case Ok(Some(response)) => Step(s, Done(response, true))
      case Ok(None) =>
        match TransitionError(site, s, c, actor, allowsPublication)
        case Some(code) => Step(s, Failed(code))
        case None =>
          var after := MovedState(s, c.version, c.transition, actor);
          var response := SnapshotResponse(SnapshotOf(after, c.version));
          Step(Complete(after, scope, requestHash, response), Done(response, false))
  }

  predicate MustBeHuman(t: Transition) {
    t != SubmitReview
  }

  function DraftSuccessor(site: Site, s: State, c: Command, actor: Actor): Step
    requires c.Succeed?
  {
    var scope, requestHash := ScopeOf(actor, c), site.digest(RequestJson(c));
    match Reserve(s, scope, requestHash)
    case Err(code) => Step(s, Failed(code))
    case Ok(Some(response)) => Step(s, Done(response, true))
    case Ok(None) =>
      match JudgeSuccessor(site, s, c)
      case NoSuccessor(code) => Step(s, Failed(code))
      case Existing(k) =>
        var response := SuccessorResponse(c.version, k, SnapshotOf(s, k));
        Step(Complete(s, scope, requestHash, response), Done(response, false))
      case Create =>
        var after := SucceededState(s, c.version, actor);
        var response := SuccessorResponse(c.version, |s.versions|, SnapshotOf(after, |s.versions|));
        Step(Complete(after, scope, requestHash, response), Done(response, false))
  }

  function Next(site: Site, s: State, input: Input): Step {
    var c := input.command;
    if !input.formatsValid || !IsValid(c) then Step(s, Failed(ValidationFailed))
    else
      match input.authorization
      case Refused(code) => Step(s, Failed(code))
      case Granted(actor) =>
        match c
        case Move(_, _, _, _, _, _, _, _) => Transit(site, s, c, actor, input.allowsPublication)
        case Succeed(_, _, _, _, _) => DraftSuccessor(site, s, c, actor)
        case _ => Edit(site, s, c)
  }

  /* ---------- runs ---------- */

  /** `create_course`, and `create_ai_assisted_draft` with its immediate curriculum save. */
  function Created(site: Site, policy: ReviewerPolicy, origin: Origin, content: Content): State {
    State(Course(policy, None, 1),
          [Version(1, None, Draft, origin, content, site.hash(content), None, None, if origin == AiAssisted then 2 else 1)],
          [], [], map[])
  }

  function Run(site: Site, s: State, inputs: seq<Input>): State {
    if inputs == [] then s else Next(site, Run(site, s, inputs[..|inputs| - 1]), inputs[|inputs| - 1]).after
  }
}

/** The stored course, changed row by row behind the guards that the database keeps on every single write. */
module CourseStore {
  import opened Prelude
  import opened CourseVersions
  import opened CourseInvariants

  /** `app.enforce_course_version_mutability`: what one update of a version row may change. */
  predicate VersionGuard(was: Version, next: Version) {
    && next.number == was.number && next.predecessor == was.predecessor
    && (!IsEditable(was.status) ==>
          next.origin == was.origin && next.content == was.content && next.contentHash == was.contentHash)
    && (WasPublished(was.status) ==> next.submittedHash == was.submittedHash && next.approvedHash == was.approvedHash)
    && (was.status == Published ==> next.status == Published || next.status == Withdrawn)
    && (was.status == Withdrawn ==> next.status == Withdrawn || next.status == Archived)
    && (was.status == Archived ==> next.status == Archived)
  }

  class Store {
    var course: Course
    var versions: seq<Version>
    var reviews: seq<Review>
    var facts: seq<Fact>
    var reservations: map<Scope, Reservation>

    constructor (site: Site, policy: ReviewerPolicy, origin: Origin, content: Content)
      ensures Stored() == Created(site, policy, origin, content)
      ensures Inv(site, Stored())
    {
      CreatedIsInvariant(site, policy, origin, content);
      course := Course(policy, None, 1);
      var row := if origin == AiAssisted then 2 else 1;
      versions := [Version(1, None, Draft, origin, content, site.hash(content), None, None, row)];
      reviews, facts, reservations := [], [], map[];
    }

    function Stored(): State
      reads this
    {
      State(course, versions, reviews, facts, reservations)
    }

    /** `app.enforce_course_identity_and_pointer` admits only a published version of the course. */
    method SaveCourse(next: Course)
      requires next.pointer.Some? ==> next.pointer.value < |versions| && versions[next.pointer.value].status == Published
      modifies this`course
      ensures course == next && PointerFits(Stored())
    {
      course := next;
    }

    /** A current version may not leave the published state. */
    method SaveVersion(v: nat, next: Version)
      requires v < |versions| && VersionGuard(versions[v], next) && PointerFits(Stored())
      requires versions[v].status == Published && next.status != Published ==> course.pointer != Some(v)
      modifies this`versions
      ensures versions == old(versions)[v := next] && PointerFits(Stored())
    {
      versions := versions[v := next];
    }

    /** `compare_and_transition_version`: a withdrawal clears the pointer before the version leaves `published`, a publication
        moves it after the version arrives there; `pointer` holds the expected course row, the expected and the new target. */
    method CompareAndTransitionVersion(v: nat, expectedRow: int, expectedStatus: Status, expectedHash: Hash, nextStatus: Status,
        submittedHash: Option<Hash>, approvedHash: Option<Hash>, pointer: Option<(int, Option<nat>, Option<nat>)>)
      returns (ok: bool)
      requires v < |versions| && PointerFits(Stored())
      requires VersionGuard(versions[v], versions[v].(status := nextStatus, submittedHash := submittedHash, approvedHash := approvedHash))
      requires pointer.Some? && pointer.value.2.Some? ==> nextStatus == Published
      requires versions[v].status == Published && nextStatus != Published ==>
        (pointer.Some? && pointer.value.2.None?) || course.pointer != Some(v)
      modifies this`course, this`versions
      ensures ok <==>
        && old(versions)[v].rowVersion == expectedRow && old(versions)[v].status == expectedStatus
        && old(versions)[v].contentHash == expectedHash
        && (pointer.Some? ==>
              && old(course).rowVersion == pointer.value.0 && old(course).pointer == pointer.value.1
              && (pointer.value.2.Some? ==> pointer.value.2.value == v))
      ensures versions == if !ok then old(versions) else old(versions)[v := old(versions)[v].(status := nextStatus,
        submittedHash := submittedHash, approvedHash := approvedHash, rowVersion := expectedRow + 1)]
      ensures course == if !ok || pointer.None? then old(course)
        else old(course).(pointer := pointer.value.2, rowVersion := old(course).rowVersion + 1)
      ensures PointerFits(Stored())
    {
      var version := versions[v];
      if version.rowVersion != expectedRow || version.status != expectedStatus || version.contentHash != expectedHash {
        return false;
      }
      if pointer.Some? {
        var (expectedCourseRow, expectedPointer, target) := pointer.value;
        if course.rowVersion != expectedCourseRow || course.pointer != expectedPointer || (target.Some? && target.value != v) {
          return false;
        }
        if target.None? {
          SaveCourse(course.(pointer := None, rowVersion := course.rowVersion + 1));
        }
      }
      version := version.(status := nextStatus, submittedHash := submittedHash, approvedHash := approvedHash,
                          rowVersion := version.rowVersion + 1);
      SaveVersion(v, version);
      if pointer.Some? && pointer.value.2.Some? {
        SaveCourse(course.(pointer := pointer.value.2, rowVersion := course.rowVersion + 1));
      }
      ok := true;
    }

    /** `_reserve`; the new record is dropped again if the command fails. */
    method ReserveKey(scope: Scope, requestHash: Hash) returns (r: Result<Option<Response>, Code>)
      modifies this`reservations
      ensures r == Reserve(old(Stored()), scope, requestHash)
      ensures reservations == if r == Ok(None) then old(reservations)[scope := Reservation(requestHash, None)] else old(reservations)
    {
      if scope in reservations {
        var record := reservations[scope];
        if record.requestHash != requestHash { return Err(IdempotencyConflict); }
        if record.response.None? { return Err(VersionConflict); }
        return Ok(record.response);
      }
      reservations := reservations[scope := Reservation(requestHash, None)];
      r := Ok(None);
    }

    /** The writes of a transition that passed every check: rows, review, fact. */
    method SaveTransition(site: Site, c: Command, actor: Actor, allowsPublication: bool)
      requires c.Move? && c.version < |versions| && PointerFits(Stored())
      requires var v := versions[c.version];
        && v.rowVersion == c.expectedRow
        && VersionGuard(v, MovedVersion(v, c.transition).(rowVersion := v.rowVersion))
        && (MovesPointer(c.transition) ==> c.expectedCourseRow == Some(course.rowVersion))
        && (IsReview(c.transition) ==> actor.membership.Some?)
        && (v.status == Published ==> c.transition == Withdraw && course.pointer == Some(c.version))
      modifies this
      ensures Stored() == MovedState(old(Stored()), c.version, c.transition, actor)
    {
      hide VersionGuard, SubmissionActor, PointerFits;
      var version, previous := versions[c.version], course.pointer;
      var next := MovedVersion(version, c.transition);
      var pointer := if MovesPointer(c.transition)
        then Some((c.expectedCourseRow.value, previous, if c.transition == Publish then Some(c.version) else None)) else None;
      var saved := CompareAndTransitionVersion(c.version, c.expectedRow, version.status, version.contentHash, next.status,
                                               next.submittedHash, next.approvedHash, pointer);
      assert saved;
      var selfReview := IsReview(c.transition) && SubmissionActor(facts, c.version) == Some(actor.id);
      if IsReview(c.transition) {
        reviews := reviews + [Review(c.version, next.status, next.contentHash, actor.membership.value, selfReview)];
      }
      facts := facts + [Fact(Moved(c.transition, if c.transition == Publish then previous else None, selfReview),
                             c.version, actor.id, next.contentHash, next.rowVersion)];
    }

    /** `transition_version` in its transaction. */
    method TransitionVersion(site: Site, input: Input) returns (outcome: Outcome)
      requires Inv(site, Stored()) && input.command.Move?
      modifies this
      ensures Step(Stored(), outcome) == Next(site, old(Stored()), input)
      ensures Inv(site, Stored())
    {
      hide Inv, TransitionError, LatestReview, SubmissionActor, VersionGuard, MovedState, IsValid, RequestJson, PointerFits;
      NextKeeps(site, Stored(), input);
      var c := input.command;
      if !input.formatsValid || !IsValid(c) { return Failed(ValidationFailed); }
      if input.authorization.Refused? { return Failed(input.authorization.code); }
      var actor := input.authorization.actor;
      if MustBeHuman(c.transition) && !actor.isHuman { return Failed(HumanActionRequired); }
      var scope, requestHash, before := ScopeOf(actor, c), site.digest(RequestJson(c)), reservations;
      var replay := ReserveKey(scope, requestHash);
      if replay.Err? { return Failed(replay.error); }
      if replay.value.Some? { return Done(replay.value.value, true); }
      var error := TransitionError(site, State(course, versions, reviews, facts, before), c, actor, input.allowsPublication);
      if error.Some? {
        reservations := before;
        return Failed(error.value);
      }
      AdmittedWrites(site, State(course, versions, reviews, facts, before), c, actor, input.allowsPublication);
      PointerIgnoresRecords(State(course, versions, reviews, facts, before), Stored());
      SaveTransition(site, c, actor, input.allowsPublication);
      MovedIgnoresRecords(old(Stored()), State(old(course), old(versions), old(reviews), old(facts), before[scope := Reservation(requestHash, None)]),
                          c.version, c.transition, actor);
      var response := SnapshotResponse(SnapshotOf(Stored(), c.version));
      reservations := reservations[scope := Reservation(requestHash, Some(response))];
      outcome := Done(response, false);
    }

    method AddSuccessor(source: nat, actor: Actor)
      requires source < |versions| && PointerFits(Stored())
      modifies this
      ensures Stored() == SucceededState(old(Stored()), source, actor)
    {
      var v, id := versions[source], |versions|;
      versions := versions + [Version(MaxNumber(versions) + 1, Some(source), Draft, v.origin, v.content, v.contentHash, None, None, 1)];
      SaveCourse(course.(rowVersion := course.rowVersion + 1));
      facts := facts + [Fact(SuccessorCreated(source), id, actor.id, v.contentHash, 1)];
    }

    /** `create_successor_draft` in its transaction. */
    method CreateSuccessorDraft(site: Site, input: Input) returns (outcome: Outcome)
      requires Inv(site, Stored()) && input.command.Succeed?
      modifies this
      ensures Step(Stored(), outcome) == Next(site, old(Stored()), input)
      ensures Inv(site, Stored())
    {
      hide Inv, LatestReview, SucceededState, IsValid, RequestJson, JudgeSuccessor, PointerFits;
      NextKeeps(site, Stored(), input);
      InvGivesPointer(site, Stored());
      var c := input.command;
      if !input.formatsValid || !IsValid(c) { return Failed(ValidationFailed); }
      if input.authorization.Refused? { return Failed(input.authorization.code); }
      var actor := input.authorization.actor;
      var scope, requestHash, before := ScopeOf(actor, c), site.digest(RequestJson(c)), reservations;
      var replay := ReserveKey(scope, requestHash);
      if replay.Err? { return Failed(replay.error); }
      if replay.value.Some? { return Done(replay.value.value, true); }
      var loaded := State(course, versions, reviews, facts, before);
      JudgedInRange(site, loaded, c);
      PointerIgnoresRecords(loaded, Stored());
      var response: Response;
      match JudgeSuccessor(site, loaded, c) {
        case NoSuccessor(code) =>
          reservations := before;
          return Failed(code);
        case Existing(k) =>
          response := SuccessorResponse(c.version, k, SnapshotOf(Stored(), k));
        case Create =>
          var id := |versions|;
          AddSuccessor(c.version, actor);
          SucceededIgnoresRecords(loaded, State(old(course), old(versions), old(reviews), old(facts), before[scope := Reservation(requestHash, None)]),
                                  c.version, actor);
          response := SuccessorResponse(c.version, id, SnapshotOf(Stored(), id));
      }
      reservations := reservations[scope := Reservation(requestHash, Some(response))];
      outcome := Done(response, false);
    }

    /** `update_version` and `replace_curriculum` in their transactions. */
    method EditVersion(site: Site, input: Input) returns (outcome: Outcome)
      requires Inv(site, Stored()) && (input.command.Update? || input.command.Replace?)
      modifies this
      ensures Step(Stored(), outcome) == Next(site, old(Stored()), input)
      ensures Inv(site, Stored())
    {
      hide Inv, LatestReview;
      NextKeeps(site, Stored(), input);
      InvGivesPointer(site, Stored());
      var c := input.command;
      if !input.formatsValid || !IsValid(c) { return Failed(ValidationFailed); }
      if input.authorization.Refused? { return Failed(input.authorization.code); }
      var error := EditError(Stored(), c);
      if error.Some? { return Failed(error.value); }
      var version := versions[c.version];
      var content := EditedContent(version.content, c);
      SaveVersion(c.version, version.(content := content, contentHash := site.hash(content), submittedHash := None,
                                      approvedHash := None, rowVersion := version.rowVersion + 1));
      outcome := Done(SnapshotResponse(SnapshotOf(Stored(), c.version)), false);
    }
  }

  /** The effect of a transition does not depend on the idempotency records, and leaves them alone. */
  lemma MovedIgnoresRecords(a: State, b: State, v: nat, t: Transition, actor: Actor)
    requires SameCourse(a, b) && v < |a.versions| && (IsReview(t) ==> actor.membership.Some?)
    ensures MovedState(b, v, t, actor) == MovedState(a, v, t, actor).(reservations := b.reservations)
    ensures MovedState(a, v, t, actor).reservations == a.reservations && |MovedState(a, v, t, actor).versions| == |a.versions|
  {
    hide SubmissionActor;
  }

  lemma SucceededIgnoresRecords(a: State, b: State, source: nat, actor: Actor)
    requires SameCourse(a, b) && source < |a.versions|
    ensures SucceededState(b, source, actor) == SucceededState(a, source, actor).(reservations := b.reservations)
    ensures SucceededState(a, source, actor).reservations == a.reservations
    ensures |SucceededState(a, source, actor).versions| == |a.versions| + 1
  {
    hide MaxNumber;
  }

  lemma PointerIgnoresRecords(a: State, b: State)
    requires SameCourse(a, b)
    ensures PointerFits(a) <==> PointerFits(b)
  {}

  lemma InvGivesPointer(site: Site, s: State)
    requires Inv(site, s)
    ensures PointerFits(s)
  {}

  /** What passes the service's checks passes the database's. */
  lemma AdmittedWrites(site: Site, s: State, c: Command, actor: Actor, allowsPublication: bool)
    requires Inv(site, s) && c.Move? && TransitionError(site, s, c, actor, allowsPublication).None?
    ensures c.version < |s.versions| && PointerFits(s)
    ensures var v := s.versions[c.version];
      && v.rowVersion == c.expectedRow
      && VersionGuard(v, MovedVersion(v, c.transition).(rowVersion := v.rowVersion))
      && (MovesPointer(c.transition) ==> c.expectedCourseRow == Some(s.course.rowVersion))
      && (IsReview(c.transition) ==> actor.membership.Some?)
      && (v.status == Published ==> c.transition == Withdraw && s.course.pointer == Some(c.version))
  {
    assert HashesFit(site, s.versions[c.version]);
  }
}

/** Course commands that load without a lock and save later, with other commands committed in between. */
module CourseRaces {
  import opened Prelude
  import opened CourseVersions
  import opened CourseInvariants
  import opened CourseHistory

  /** The command expects a row version of its version that the loaded state has not reached, or a version that it does not have. */
  predicate IsStillToCome(early: State, c: Command) {
    c.version >= |early.versions| || early.versions[c.version].rowVersion < c.expectedRow
  }

  /* ---------- transitions ---------- */

  predicate Accepts(site: Site, s: State, c: Command, actor: Actor, allowsPublication: bool)
    requires c.Move?
  {
    TransitionError(site, s, c, actor, allowsPublication).None?
  }

  function AtomicTransit(site: Site, s: State, c: Command, actor: Actor, allowsPublication: bool): Option<State>
    requires c.Move?
  {
    if Accepts(site, s, c, actor, allowsPublication) then Some(MovedState(s, c.version, c.transition, actor)) else None
  }

  /** `transition_version` loads without locking: its checks see `early`. `save` loads once more and sees `mid`, which tells it
      whether to write the course and which pointer to expect. The compare-and-set under the locks sees `late`. */
  function StaleTransit(site: Site, early: State, mid: State, late: State, c: Command, actor: Actor, allowsPublication: bool): Option<State>
    requires c.Move? && |early.versions| <= |mid.versions| <= |late.versions|
  {
    var unlocked := if MovesPointer(c.transition) then c.(expectedCourseRow := Some(early.course.rowVersion)) else c;
    if !Accepts(site, early, unlocked, actor, allowsPublication) then None
    else
      var writesCourse := MovedCourse(early.course, c.version, c.transition) != mid.course;
      if writesCourse && c.expectedCourseRow.None? then None
      else if late.versions[c.version].rowVersion != c.expectedRow then None
      else if writesCourse && (late.course.rowVersion != c.expectedCourseRow.value || late.course.pointer != mid.course.pointer) then None
      else
        var written := MovedState(early, c.version, c.transition, actor);
        Some(State(if writesCourse then MovedCourse(late.course, c.version, c.transition) else late.course,
                   late.versions[c.version := written.versions[c.version]],
                   late.reviews + written.reviews[|early.reviews|..],
                   late.facts + written.facts[|early.facts|..],
                   late.reservations))
  }

  /** The inputs on which three reads are not one: an expected row that the first read had not reached; a publication over a
      pointer that moved between the reads; a withdrawal of what was current at the first read only; any other transition when the
      course moved between the first two reads. */
  predicate ReadsDisagree(site: Site, early: State, mid: State, late: State, c: Command, actor: Actor, allowsPublication: bool)
    requires c.Move?
  {
    if IsStillToCome(early, c) then Accepts(site, late, c, actor, allowsPublication)
    else
      match c.transition
      case Publish =>
        !(early.course.pointer == mid.course.pointer == late.course.pointer) && Accepts(site, late, c, actor, allowsPublication)
      case Withdraw =>
        && early.course.pointer == Some(c.version) && mid.course.pointer == late.course.pointer != Some(c.version)
        && Accepts(site, late.(course := late.course.(pointer := Some(c.version))), c, actor, allowsPublication)
      case _ => mid.course != early.course && Accepts(site, late, c, actor, allowsPublication)
  }

  /** A transition that reads three times acts as one step on the last state, except exactly when the reads disagree. */
  lemma StaleTransitIsAtomic(site: Site, early: State, first: seq<Input>, second: seq<Input>, c: Command, actor: Actor,
                             allowsPublication: bool)
    requires Inv(site, early) && c.Move? && IsValid(c)
    ensures var mid := Run(site, early, first);
      var late := Run(site, mid, second);
      && |early.versions| <= |mid.versions| <= |late.versions|
      && ((StaleTransit(site, early, mid, late, c, actor, allowsPublication) == AtomicTransit(site, late, c, actor, allowsPublication))
          <==> !ReadsDisagree(site, early, mid, late, c, actor, allowsPublication))
  {
    hide Next, Inv, TransitionError, MovedVersion, SubmissionActor;
    var mid := Run(site, early, first);
    var late := Run(site, mid, second);
    VersionsGrow(site, early, first);
    VersionsGrow(site, mid, second);
    if IsStillToCome(early, c) {
      StillToComeIsRefused(site, early, c, actor, allowsPublication);
    } else {
      SameRowSameVersion(site, early, first, c.version);
      SameRowSameVersion(site, mid, second, c.version);
      if late.versions[c.version].rowVersion == c.expectedRow {
        SameVersionReads(site, early, first, second, c, actor, allowsPublication);
      } else {
        OtherRowIsRefused(site, late, c, actor, allowsPublication);
      }
    }
  }

  lemma StillToComeIsRefused(site: Site, early: State, c: Command, actor: Actor, allowsPublication: bool)
    requires c.Move? && IsStillToCome(early, c)
    ensures !Accepts(site, early, c, actor, allowsPublication)
    ensures forall row :: !Accepts(site, early, c.(expectedCourseRow := Some(row)), actor, allowsPublication)
  {
    hide SubmissionActor;
  }

  lemma OtherRowIsRefused(site: Site, late: State, c: Command, actor: Actor, allowsPublication: bool)
    requires c.Move? && c.version < |late.versions| && late.versions[c.version].rowVersion != c.expectedRow
    ensures !Accepts(site, late, c, actor, allowsPublication)
    ensures !Accepts(site, late.(course := late.course.(pointer := Some(c.version))), c, actor, allowsPublication)
  {
    hide SubmissionActor;
  }

  /** The checks that a transition makes besides those of the pointer, which see the version and the reviewer policy only. */
  predicate Passes(site: Site, s: State, c: Command, actor: Actor, allowsPublication: bool)
    requires c.Move?
  {
    Accepts(site, s.(course := Course(s.course.policy, Some(c.version), 0)), c.(expectedCourseRow := Some(0)), actor, allowsPublication)
  }

  lemma AcceptsByParts(site: Site, s: State, c: Command, actor: Actor, allowsPublication: bool)
    requires c.Move?
    ensures Accepts(site, s, c, actor, allowsPublication) <==>
      && Passes(site, s, c, actor, allowsPublication)
      && (c.transition == Withdraw ==> s.course.pointer == Some(c.version))
      && (MovesPointer(c.transition) ==> c.expectedCourseRow == Some(s.course.rowVersion))
  {
    hide SubmissionActor;
  }

  lemma PassesAlike(site: Site, a: State, b: State, c: Command, c': Command, actor: Actor, allowsPublication: bool)
    requires c.Move? && c'.Move? && c' == c.(expectedCourseRow := c'.expectedCourseRow) && c.version < |a.versions| && c.version < |b.versions|
    requires a.versions[c.version] == b.versions[c.version] && a.course.policy == b.course.policy
    requires SubmissionActor(a.facts, c.version) == SubmissionActor(b.facts, c.version)
    ensures Passes(site, a, c, actor, allowsPublication) <==> Passes(site, b, c', actor, allowsPublication)
  {
    hide SubmissionActor;
  }

  /** While the version stays as it is, the checks differ in what they see of the course only. */
  lemma SameVersionReads(site: Site, early: State, first: seq<Input>, second: seq<Input>, c: Command, actor: Actor, allowsPublication: bool)
    requires Inv(site, early) && c.Move? && IsValid(c) && c.version < |early.versions| && early.versions[c.version].rowVersion == c.expectedRow
    requires var mid := Run(site, early, first);
      var late := Run(site, mid, second);
      && |early.versions| <= |mid.versions| <= |late.versions|
      && late.versions[c.version] == mid.versions[c.version] == early.versions[c.version]
      && SubmissionActor(late.facts, c.version) == SubmissionActor(early.facts, c.version)
    ensures var mid := Run(site, early, first);
      var late := Run(site, mid, second);
      (StaleTransit(site, early, mid, late, c, actor, allowsPublication) == AtomicTransit(site, late, c, actor, allowsPublication))
      <==> !ReadsDisagree(site, early, mid, late, c, actor, allowsPublication)
  {
    hide Next, Inv, TransitionError, MovedVersion, SubmissionActor, Accepts, Passes, Run;
    var mid := Run(site, early, first);
    var late := Run(site, mid, second);
    PolicyStays(site, early, first);
    PolicyStays(site, mid, second);
    var unlocked := if MovesPointer(c.transition) then c.(expectedCourseRow := Some(early.course.rowVersion)) else c;
    AcceptsByParts(site, early, unlocked, actor, allowsPublication);
    AcceptsByParts(site, late, c, actor, allowsPublication);
    PassesAlike(site, late, early, c, unlocked, actor, allowsPublication);
    var moved := late.(course := late.course.(pointer := Some(c.version)));
    AcceptsByParts(site, moved, c, actor, allowsPublication);
    PassesAlike(site, late, moved, c, c, actor, allowsPublication);
    PointerMoves(site, early, first, c.version);
    PointerMoves(site, mid, second, c.version);
    if Accepts(site, early, unlocked, actor, allowsPublication) {
      AcceptedStatus(site, early, unlocked, actor, allowsPublication);
      SavedAlike(early, late, c, actor);
    }
  }

  lemma AcceptedStatus(site: Site, s: State, c: Command, actor: Actor, allowsPublication: bool)
    requires Inv(site, s) && c.Move? && Accepts(site, s, c, actor, allowsPublication)
    ensures c.version < |s.versions| && (IsReview(c.transition) ==> actor.membership.Some?)
    ensures c.transition == Publish ==> s.course.pointer != Some(c.version)
    ensures c.transition == Withdraw ==> s.course.pointer == Some(c.version)
  {
    hide TransitionError;
    TransitionAllowed(site, s, c, actor, allowsPublication);
    assert PointerFits(s);
  }

  /** What is written for the version, the reviews and the facts is what one step on the later state writes, up to the pointer that
      a publication names as the previous one. */
  lemma SavedAlike(early: State, late: State, c: Command, actor: Actor)
    requires c.Move? && c.version < |early.versions| && c.version < |late.versions|
    requires IsReview(c.transition) ==> actor.membership.Some?
    requires late.versions[c.version] == early.versions[c.version]
    requires SubmissionActor(late.facts, c.version) == SubmissionActor(early.facts, c.version)
    ensures var written, after := MovedState(early, c.version, c.transition, actor), MovedState(late, c.version, c.transition, actor);
      && written.versions[c.version] == after.versions[c.version]
      && late.reviews + written.reviews[|early.reviews|..] == after.reviews
      && (late.facts + written.facts[|early.facts|..] == after.facts
          <==> (c.transition == Publish ==> early.course.pointer == late.course.pointer))
  {
    hide SubmissionActor, MovedVersion;
    var written, after := MovedState(early, c.version, c.transition, actor), MovedState(late, c.version, c.transition, actor);
    assert after.facts[|late.facts|..] == [after.facts[|late.facts|]] && after.facts[..|late.facts|] == late.facts;
    assert written.facts[|early.facts|..] == [written.facts[|early.facts|]];
    assert (late.facts + written.facts[|early.facts|..])[|late.facts|] == written.facts[|early.facts|];
    if IsReview(c.transition) {
      assert written.reviews[|early.reviews|..] == [written.reviews[|early.reviews|]];
    }
  }

  /** The pointer comes to a version, and the next course row leaves it with none, only by a command that succeeds on the version. */
  lemma {:induction false} PointerMoves(site: Site, s: State, inputs: seq<Input>, k: nat)
    requires k < |s.versions|
    ensures var now := Run(site, s, inputs);
      && k < |now.versions|
      && (now.versions[k].rowVersion == s.versions[k].rowVersion ==>
            && (now.course.pointer == Some(k) ==> s.course.pointer == Some(k))
            && (s.course.pointer == Some(k) && now.course.rowVersion == s.course.rowVersion + 1 ==> now.course.pointer.Some?))
  {
    hide Next, SucceedsOn;
    if inputs != [] {
      var last := |inputs| - 1;
      var before := Run(site, s, inputs[..last]);
      PointerMoves(site, s, inputs[..last], k);
      SameRowSameVersion(site, s, inputs[..last], k);
      SameRowSameCourse(site, s, inputs[..last]);
      StepCounts(site, before, inputs[last], k);
      CourseStep(site, before, inputs[last]);
      if !SucceedsOn(site, before, inputs[last], k) { PointerMovesInStep(site, before, inputs[last], k); }
    }
  }

  lemma PointerMovesInStep(site: Site, s: State, input: Input, k: nat)
    requires k < |s.versions| && !SucceedsOn(site, s, input, k)
    ensures var now := Next(site, s, input).after;
      && (now.course.pointer == Some(k) ==> s.course.pointer == Some(k))
      && (s.course.pointer == Some(k) ==> now.course.pointer.Some?)
  {
    hide Next, EffectOf, JudgeSuccessor, TransitionError, LatestReview, SubmissionActor;
    StepEffects(site, s, input);
    var c := input.command;
    match EffectOf(site, s, input)
    case Advanced => TransitionAllowed(site, s, c, input.authorization.actor, input.allowsPublication);
    case Drafted => JudgedInRange(site, s, c);
    case _ =>
  }

  /** With expected rows that had been reached, publications and withdrawals act as one step, and any other transition does so unless
      the course moved between the two loads: then it is refused, although nothing about its version has changed. */
  lemma ReachedTransitIsAtomic(site: Site, early: State, first: seq<Input>, second: seq<Input>, c: Command, actor: Actor,
                               allowsPublication: bool)
    requires Inv(site, early) && c.Move? && IsValid(c) && !IsStillToCome(early, c)
    requires c.expectedCourseRow.Some? ==> c.expectedCourseRow.value <= early.course.rowVersion
    ensures var mid := Run(site, early, first);
      var late := Run(site, mid, second);
      && |early.versions| <= |mid.versions| <= |late.versions|
      && var spurious := !MovesPointer(c.transition) && mid.course != early.course && Accepts(site, late, c, actor, allowsPublication);
         StaleTransit(site, early, mid, late, c, actor, allowsPublication)
         == if spurious then None else AtomicTransit(site, late, c, actor, allowsPublication)
  {
    hide Next, Inv, TransitionError, MovedVersion, SubmissionActor, Run, MovedState;
    var mid := Run(site, early, first);
    var late := Run(site, mid, second);
    StaleTransitIsAtomic(site, early, first, second, c, actor, allowsPublication);
    SameRowSameCourse(site, early, first);
    SameRowSameCourse(site, mid, second);
    AcceptsByParts(site, late, c, actor, allowsPublication);
    AcceptsByParts(site, late.(course := late.course.(pointer := Some(c.version))), c, actor, allowsPublication);
  }

  /** So any command on the course that commits between the two loads and moves the course row, while it leaves the version alone,
      costs an acceptable transition of that version. */
  lemma CourseChangeRefuses(site: Site, early: State, other: Input, c: Command, actor: Actor, allowsPublication: bool)
    requires Inv(site, early) && c.Move? && IsValid(c) && !MovesPointer(c.transition) && Accepts(site, early, c, actor, allowsPublication)
    requires var mid := Next(site, early, other).after;
      mid.course != early.course && c.version < |early.versions| <= |mid.versions| && mid.versions[c.version] == early.versions[c.version]
    ensures var mid := Next(site, early, other).after;
      Accepts(site, mid, c, actor, allowsPublication) && StaleTransit(site, early, mid, mid, c, actor, allowsPublication).None?
  {
    hide Next, Inv, TransitionError, MovedState, SubmissionActor, Accepts, Passes;
    assert [other][..0] == [] && Run(site, early, []) == early;
    var mid := Run(site, early, [other]);
    SameRowSameVersion(site, early, [other], c.version);
    PolicyStays(site, early, [other]);
    AcceptsByParts(site, early, c, actor, allowsPublication);
    AcceptsByParts(site, mid, c, actor, allowsPublication);
    PassesAlike(site, early, mid, c, c, actor, allowsPublication);
  }

  /* ---------- edits ---------- */

  /** An edit is computed from the tree that was loaded, and saved when the stored row version is still the expected one. */
  function StaleEdit(site: Site, early: State, late: State, c: Command): State
    requires (c.Update? || c.Replace?) && |early.versions| <= |late.versions|
  {
    if EditError(early, c).Some? || late.versions[c.version].rowVersion != c.expectedRow then late
    else late.(versions := late.versions[c.version := EditedState(site, early, c).versions[c.version]])
  }

  function AtomicEdit(site: Site, s: State, c: Command): State
    requires c.Update? || c.Replace?
  {
    if EditError(s, c).Some? then s else EditedState(site, s, c)
  }

  /** An edit acts as one step on the state it is saved in, except exactly when its expected row was still to come at the load. */
  lemma StaleEditIsAtomic(site: Site, early: State, between: seq<Input>, c: Command)
    requires c.Update? || c.Replace?
    ensures var late := Run(site, early, between);
      && |early.versions| <= |late.versions|
      && (StaleEdit(site, early, late, c) == AtomicEdit(site, late, c) <==> !(IsStillToCome(early, c) && EditError(late, c).None?))
  {
    hide Next;
    VersionsGrow(site, early, between);
    if !IsStillToCome(early, c) { SameRowSameVersion(site, early, between, c.version); }
  }

  /* ---------- successor drafts ---------- */

  /** The repository looks for a successor once more under its locks. Finding one that is editable and unchanged, one course row
      later, it answers with it, and the service records the fact of a creation. */
  predicate FindsAnother(early: State, late: State, c: Command)
    requires c.Succeed? && c.version < |early.versions| <= |late.versions|
  {
    && late.versions[c.version].rowVersion == c.expectedRow
    && late.versions[c.version].contentHash == early.versions[c.version].contentHash
    && match FirstSuccessor(late.versions, c.version, 0)
       case None => false
       case Some(k) =>
         && IsEditable(late.versions[k].status) && late.course.rowVersion == c.courseRow + 1
         && late.versions[k].contentHash == early.versions[c.version].contentHash
  }

  function SecondFact(late: State, c: Command, actor: Actor): Fact
    requires c.Succeed? && FirstSuccessor(late.versions, c.version, 0).Some?
  {
    var k := FirstSuccessor(late.versions, c.version, 0).value;
    Fact(SuccessorCreated(c.version), k, actor.id, late.versions[k].contentHash, late.versions[k].rowVersion)
  }

  function StaleSuccessor(site: Site, early: State, late: State, c: Command, actor: Actor): State
    requires c.Succeed? && |early.versions| <= |late.versions|
  {
    if JudgeSuccessor(site, early, c) != Create then late
    else if FindsAnother(early, late, c) then late.(facts := late.facts + [SecondFact(late, c, actor)])
    else if late.versions[c.version].rowVersion == c.expectedRow
      && late.versions[c.version].contentHash == early.versions[c.version].contentHash
      && FirstSuccessor(late.versions, c.version, 0).None? && late.course.rowVersion == c.courseRow
    then SucceededState(late, c.version, actor)
    else late
  }

  function AtomicSuccessor(site: Site, s: State, c: Command, actor: Actor): State
    requires c.Succeed?
  {
    if JudgeSuccessor(site, s, c) == Create then SucceededState(s, c.version, actor) else s
  }

  /** Loading early changes the outcome of a successor command exactly when another one was created in between and is found, or when
      the rows that the command expects were still to come and are there when it is saved. */
  lemma StaleSuccessorIsAtomic(site: Site, early: State, between: seq<Input>, c: Command, actor: Actor)
    requires Inv(site, early) && c.Succeed?
    ensures var late := Run(site, early, between);
      && |early.versions| <= |late.versions|
      && var duplicates := JudgeSuccessor(site, early, c) == Create && FindsAnother(early, late, c);
         var comesTooLate := (IsStillToCome(early, c) || early.course.rowVersion < c.courseRow) && JudgeSuccessor(site, late, c) == Create;
         (StaleSuccessor(site, early, late, c, actor) == AtomicSuccessor(site, late, c, actor)) <==> !(duplicates || comesTooLate)
  {
    hide Next, Inv, FirstSuccessor, SucceededState;
    var late := Run(site, early, between);
    VersionsGrow(site, early, between);
    SameRowSameCourse(site, early, between);
    if JudgeSuccessor(site, late, c) == Create { SucceededIsOther(late, c.version, actor); }
    if c.version < |early.versions| {
      SameRowSameVersion(site, early, between, c.version);
      SuccessorsStay(site, early, between, c.version);
      HashIsCurrent(site, early, c.version);
    }
  }

  lemma SucceededIsOther(s: State, source: nat, actor: Actor)
    requires source < |s.versions|
    ensures SucceededState(s, source, actor) != s
  {
    assert |SucceededState(s, source, actor).versions| != |s.versions|;
  }

  lemma HashIsCurrent(site: Site, s: State, k: nat)
    requires Inv(site, s) && k < |s.versions|
    ensures s.versions[k].contentHash == site.hash(s.versions[k].content)
  {
    assert HashesFit(site, s.versions[k]);
  }

  /** A version that has a successor keeps it. */
  lemma SuccessorsStay(site: Site, s: State, inputs: seq<Input>, k: nat)
    requires Inv(site, s) && k < |s.versions|
    ensures FirstSuccessor(s.versions, k, 0).Some? ==> FirstSuccessor(Run(site, s, inputs).versions, k, 0).Some?
  {
    hide Next, FirstSuccessor, Inv;
    if FirstSuccessor(s.versions, k, 0).Some? {
      var n := FirstSuccessor(s.versions, k, 0).value;
      PredecessorStays(site, s, inputs, n);
    }
  }

  lemma {:induction false} PredecessorStays(site: Site, s: State, inputs: seq<Input>, n: nat)
    requires n < |s.versions|
    ensures n < |Run(site, s, inputs).versions| && Run(site, s, inputs).versions[n].predecessor == s.versions[n].predecessor
  {
    hide Next;
    if inputs != [] {
      var last := |inputs| - 1;
      PredecessorStays(site, s, inputs[..last], n);
      PredecessorStaysInStep(site, Run(site, s, inputs[..last]), inputs[last], n);
    }
  }

  lemma PredecessorStaysInStep(site: Site, s: State, input: Input, n: nat)
    requires n < |s.versions|
    ensures n < |Next(site, s, input).after.versions| && Next(site, s, input).after.versions[n].predecessor == s.versions[n].predecessor
  {
    hide Next, EffectOf, JudgeSuccessor, TransitionError, SubmissionActor, LatestReview;
    StepEffects(site, s, input);
    var c := input.command;
    match EffectOf(site, s, input)
    case Advanced => TransitionAllowed(site, s, c, input.authorization.actor, input.allowsPublication);
    case Drafted => JudgedInRange(site, s, c);
    case _ =>
  }

  /** Then the log no longer rebuilds the course: the second creation names a version that exists. */
  lemma SecondFactBreaksTheLog(site: Site, early: State, late: State, c: Command, actor: Actor)
    requires c.Succeed? && c.version < |early.versions| <= |late.versions| && LogRebuilds(late)
    requires JudgeSuccessor(site, early, c) == Create && FindsAnother(early, late, c)
    ensures Replay(StaleSuccessor(site, early, late, c, actor).facts).None?
  {
    hide Replay, JudgeSuccessor;
    ReplayOneMore(late.facts, SecondFact(late, c, actor));
  }

  predicate SameButKey(a: Command, b: Command)
    requires a.Succeed? && b.Succeed?
  {
    a.version == b.version && a.courseRow == b.courseRow && a.expectedRow == b.expectedRow && a.expectedHash == b.expectedHash
  }

  /** Two commands that load the same course and ask for the same successor meet this case, whichever commits first. */
  lemma RacingSuccessorsMeet(site: Site, early: State, c: Command, other: Input)
    requires Inv(site, early) && c.Succeed? && JudgeSuccessor(site, early, c) == Create
    requires other.formatsValid && IsValid(other.command) && other.authorization.Granted?
    requires other.command.Succeed? && SameButKey(c, other.command)
    requires ScopeOf(other.authorization.actor, other.command) !in early.reservations
    ensures var late := Run(site, early, [other]);
      && c.version < |early.versions| <= |late.versions| && FindsAnother(early, late, c)
  {
    hide Inv, Next, JudgeSuccessor, FirstSuccessor, MaxNumber, RequestJson, LatestReview;
    InvIsChained(site, early);
    CreateMeansNewest(site, early, c);
    JudgeIgnoresKey(site, early, c, other.command);
    OtherCreates(site, early, other);
    assert [other][..0] == [] && Run(site, early, []) == early;
    var late := Run(site, early, [other]);
    assert late == Next(site, early, other).after;
    NewestIsFirst(early, late, c.version);
  }

  lemma InvIsChained(site: Site, s: State)
    requires Inv(site, s)
    ensures IsChain(s)
  {}

  lemma JudgeIgnoresKey(site: Site, s: State, a: Command, b: Command)
    requires a.Succeed? && b.Succeed? && SameButKey(a, b)
    ensures JudgeSuccessor(site, s, a) == JudgeSuccessor(site, s, b)
    ensures JudgeSuccessor(site, s, a) == Create ==>
      && a.version < |s.versions| && FirstSuccessor(s.versions, a.version, 0).None?
      && s.versions[a.version].rowVersion == a.expectedRow && s.course.rowVersion == a.courseRow
  {
    hide FirstSuccessor;
  }

  lemma OtherCreates(site: Site, s: State, input: Input)
    requires input.command.Succeed? && input.formatsValid && IsValid(input.command) && input.authorization.Granted?
    requires JudgeSuccessor(site, s, input.command) == Create
    requires ScopeOf(input.authorization.actor, input.command) !in s.reservations
    ensures input.command.version < |s.versions|
    ensures SameCourse(Next(site, s, input).after, SucceededState(s, input.command.version, input.authorization.actor))
  {
    hide JudgeSuccessor, SuccessorVersion, RequestJson, LatestReview, SucceededState;
    JudgedInRange(site, s, input.command);
  }

  /** The draft just appended is the first successor of its source. */
  lemma NewestIsFirst(early: State, late: State, source: nat)
    requires source < |early.versions| && FirstSuccessor(early.versions, source, 0).None?
    requires |late.versions| == |early.versions| + 1 && late.versions[..|early.versions|] == early.versions
    requires late.versions[|early.versions|].predecessor == Some(source)
    ensures FirstSuccessor(late.versions, source, 0) == Some(|early.versions|)
  {
    hide FirstSuccessor;
    assert forall k :: 0 <= k < |early.versions| ==> late.versions[k] == late.versions[..|early.versions|][k] == early.versions[k];
    assert FirstSuccessor(late.versions, source, 0).Some?;
  }
}

/** Properties of whole runs of course commands. */
module CourseHistory {
  import opened Prelude
  import opened CanonicalJson
  import opened CourseVersions
  import opened CourseInvariants

  /* ---------- what a step leaves alone ---------- */

  /** A version as far as it is frozen: everything but its status and row version. */
  predicate SameContent(a: Version, b: Version) {
    && a.number == b.number && a.predecessor == b.predecessor && a.origin == b.origin
    && a.content == b.content && a.contentHash == b.contentHash
  }

  lemma StepKeepsVersions(site: Site, s: State, input: Input, k: nat)
    requires k < |s.versions|
    ensures var after := Next(site, s, input).after;
      && k < |after.versions| && after.course.policy == s.course.policy
      && (!IsEditable(s.versions[k].status) ==> SameContent(after.versions[k], s.versions[k]))
      && (IsSettled(s.versions[k].status) ==>
            && IsSettled(after.versions[k].status)
            && after.versions[k].submittedHash == s.versions[k].submittedHash
            && after.versions[k].approvedHash == s.versions[k].approvedHash)
  {
    hide Next, EffectOf, JudgeSuccessor, TransitionError, SubmissionActor, LatestReview;
    StepEffects(site, s, input);
    var c := input.command;
    match EffectOf(site, s, input)
    case Advanced => TransitionAllowed(site, s, c, input.authorization.actor, input.allowsPublication);
    case Drafted => JudgedInRange(site, s, c);
    case _ =>
  }

  /** From approval on, nothing changes a version's content or review hashes, whatever commands follow. */
  lemma {:induction false} SettledForever(site: Site, s: State, inputs: seq<Input>, k: nat)
    requires k < |s.versions| && IsSettled(s.versions[k].status)
    ensures var after := Run(site, s, inputs);
      && k < |after.versions| && IsSettled(after.versions[k].status) && SameContent(after.versions[k], s.versions[k])
      && after.versions[k].submittedHash == s.versions[k].submittedHash
      && after.versions[k].approvedHash == s.versions[k].approvedHash
  {
    hide Next;
    if inputs != [] {
      var last := |inputs| - 1;
      SettledForever(site, s, inputs[..last], k);
      StepKeepsVersions(site, Run(site, s, inputs[..last]), inputs[last], k);
    }
  }

  /** A version's content cannot change while the version stays under review (or later), that is until changes are requested. */
  lemma {:induction false} FrozenUnderReview(site: Site, s: State, inputs: seq<Input>, k: nat)
    requires k < |s.versions|
    requires forall n | 0 <= n < |inputs| :: var now := Run(site, s, inputs[..n]); k < |now.versions| && !IsEditable(now.versions[k].status)
    ensures k < |Run(site, s, inputs).versions| && SameContent(Run(site, s, inputs).versions[k], s.versions[k])
  {
    hide Next;
    if inputs != [] {
      var last := |inputs| - 1;
      forall n | 0 <= n < last
        ensures var now := Run(site, s, inputs[..last][..n]); k < |now.versions| && !IsEditable(now.versions[k].status)
      {
        assert inputs[..last][..n] == inputs[..n];
      }
      FrozenUnderReview(site, s, inputs[..last], k);
      StepKeepsVersions(site, Run(site, s, inputs[..last]), inputs[last], k);
    }
  }

  /* ---------- optimistic row versions ---------- */

  /** The step changed version `k`: it succeeded on it and was no replay. */
  predicate SucceedsOn(site: Site, s: State, input: Input, k: nat) {
    (EffectOf(site, s, input) == Edited || EffectOf(site, s, input) == Advanced) && input.command.version == k
  }

  /** How many commands of a run succeeded on version `k`. */
  function Successes(site: Site, s: State, inputs: seq<Input>, k: nat): nat {
    if inputs == [] then 0
    else
      var last := |inputs| - 1;
      Successes(site, s, inputs[..last], k) + (if SucceedsOn(site, Run(site, s, inputs[..last]), inputs[last], k) then 1 else 0)
  }

  lemma StepCounts(site: Site, s: State, input: Input, k: nat)
    requires k < |s.versions|
    ensures var after := Next(site, s, input).after;
      && k < |after.versions|
      && (SucceedsOn(site, s, input, k) ==>
            input.command.expectedRow == s.versions[k].rowVersion && after.versions[k].rowVersion == s.versions[k].rowVersion + 1)
      && (!SucceedsOn(site, s, input, k) ==> after.versions[k] == s.versions[k])
  {
    hide Next, EffectOf, JudgeSuccessor, SubmissionActor, LatestReview;
    StepEffects(site, s, input);
    if EffectOf(site, s, input) == Drafted { JudgedInRange(site, s, input.command); }
  }

  /** The row version counts the commands that succeeded on the version. */
  lemma {:induction false} RowVersionCounts(site: Site, s: State, inputs: seq<Input>, k: nat)
    requires k < |s.versions|
    ensures var after := Run(site, s, inputs);
      k < |after.versions| && after.versions[k].rowVersion == s.versions[k].rowVersion + Successes(site, s, inputs, k)
  {
    hide Next, SucceedsOn;
    if inputs != [] {
      var last := |inputs| - 1;
      RowVersionCounts(site, s, inputs[..last], k);
      StepCounts(site, Run(site, s, inputs[..last]), inputs[last], k);
    }
  }

  lemma {:induction false} RunsCompose(site: Site, s: State, a: seq<Input>, b: seq<Input>)
    ensures Run(site, s, a + b) == Run(site, Run(site, s, a), b)
  {
    if b == [] {
      assert a + b == a;
    } else {
      var last := |b| - 1;
      RunsCompose(site, s, a, b[..last]);
      assert (a + b)[..|a + b| - 1] == a + b[..last];
    }
  }

  /** Of the commands that expect one row version of a version, at most one succeeds: the next success expects more. */
  lemma OneSuccessPerRowVersion(site: Site, s: State, inputs: seq<Input>, k: nat, i: nat, j: nat)
    requires k < |s.versions| && i < j < |inputs|
    requires SucceedsOn(site, Run(site, s, inputs[..i]), inputs[i], k) && SucceedsOn(site, Run(site, s, inputs[..j]), inputs[j], k)
    ensures inputs[i].command.expectedRow < inputs[j].command.expectedRow
  {
    hide Next, SucceedsOn;
    var first, later := Run(site, s, inputs[..i]), Run(site, s, inputs[..j]);
    RowVersionCounts(site, s, inputs[..i], k);
    StepCounts(site, first, inputs[i], k);
    assert inputs[..i + 1][..i] == inputs[..i];
    var second := Run(site, s, inputs[..i + 1]);
    RunsCompose(site, s, inputs[..i + 1], inputs[i + 1..j]);
    assert inputs[..i + 1] + inputs[i + 1..j] == inputs[..j];
    RowVersionCounts(site, second, inputs[i + 1..j], k);
    StepCounts(site, later, inputs[j], k);
  }

  /** An unchanged row version means an unchanged version. */
  lemma {:induction false} SameRowSameVersion(site: Site, s: State, inputs: seq<Input>, k: nat)
    requires k < |s.versions|
    ensures var after := Run(site, s, inputs);
      && k < |after.versions| && after.versions[k].rowVersion >= s.versions[k].rowVersion
      && (after.versions[k].rowVersion == s.versions[k].rowVersion ==>
            after.versions[k] == s.versions[k] && SubmissionActor(after.facts, k) == SubmissionActor(s.facts, k))
  {
    hide Next, SucceedsOn;
    if inputs != [] {
      var last := |inputs| - 1;
      var before := Run(site, s, inputs[..last]);
      SameRowSameVersion(site, s, inputs[..last], k);
      StepCounts(site, before, inputs[last], k);
      if !SucceedsOn(site, before, inputs[last], k) { SubmitterStaysInStep(site, before, inputs[last], k); }
    }
  }

  lemma SubmitterStaysInStep(site: Site, s: State, input: Input, k: nat)
    requires k < |s.versions| && !SucceedsOn(site, s, input, k)
    ensures SubmissionActor(Next(site, s, input).after.facts, k) == SubmissionActor(s.facts, k)
  {
    hide Next, EffectOf, JudgeSuccessor, TransitionError, LatestReview, SubmissionActor;
    StepEffects(site, s, input);
    var c, after := input.command, Next(site, s, input).after;
    match EffectOf(site, s, input)
    case Advanced =>
      TransitionAllowed(site, s, c, input.authorization.actor, input.allowsPublication);
      SubmitterStays(s.facts, MovedState(s, c.version, c.transition, input.authorization.actor).facts[|s.facts|], k);
    case Drafted =>
      JudgedInRange(site, s, c);
      SubmitterStays(s.facts, SucceededState(s, c.version, input.authorization.actor).facts[|s.facts|], k);
    case _ =>
  }

  /** An unchanged course row version means an unchanged pointer. */
  lemma {:induction false} SameRowSameCourse(site: Site, s: State, inputs: seq<Input>)
    ensures var after := Run(site, s, inputs).course;
      after.rowVersion >= s.course.rowVersion && (after.rowVersion == s.course.rowVersion ==> after == s.course)
  {
    hide Next;
    if inputs != [] {
      var last := |inputs| - 1;
      SameRowSameCourse(site, s, inputs[..last]);
      CourseStep(site, Run(site, s, inputs[..last]), inputs[last]);
    }
  }

  lemma CourseStep(site: Site, s: State, input: Input)
    ensures var after := Next(site, s, input).after.course; after == s.course || after.rowVersion == s.course.rowVersion + 1
  {
    hide Next, EffectOf, JudgeSuccessor, TransitionError, LatestReview, SubmissionActor;
    StepEffects(site, s, input);
    var c := input.command;
    match EffectOf(site, s, input)
    case Advanced => TransitionAllowed(site, s, c, input.authorization.actor, input.allowsPublication);
    case Drafted => JudgedInRange(site, s, c);
    case _ =>
  }

  lemma {:induction false} VersionsGrow(site: Site, s: State, inputs: seq<Input>)
    ensures |Run(site, s, inputs).versions| >= |s.versions|
  {
    hide Next;
    if |s.versions| > 0 { RowVersionCounts(site, s, inputs, |s.versions| - 1); }
  }

  lemma {:induction false} PolicyStays(site: Site, s: State, inputs: seq<Input>)
    ensures Run(site, s, inputs).course.policy == s.course.policy
  {
    hide Next;
    if inputs != [] {
      var last := |inputs| - 1;
      PolicyStays(site, s, inputs[..last]);
      PolicyStep(site, Run(site, s, inputs[..last]), inputs[last]);
    }
  }

  lemma PolicyStep(site: Site, s: State, input: Input)
    ensures Next(site, s, input).after.course.policy == s.course.policy
  {
    hide Next, EffectOf, JudgeSuccessor, TransitionError, LatestReview, SubmissionActor;
    StepEffects(site, s, input);
    var c := input.command;
    match EffectOf(site, s, input)
    case Advanced => TransitionAllowed(site, s, c, input.authorization.actor, input.allowsPublication);
    case Drafted => JudgedInRange(site, s, c);
    case _ =>
  }

  /* ---------- idempotency ---------- */

  lemma {:induction false} RecordsStay(site: Site, s: State, inputs: seq<Input>, scope: Scope)
    requires AllCompleted(s) && scope in s.reservations
    ensures AllCompleted(Run(site, s, inputs))
    ensures scope in Run(site, s, inputs).reservations && Run(site, s, inputs).reservations[scope] == s.reservations[scope]
  {
    hide Next;
    if inputs != [] {
      var last := |inputs| - 1;
      RecordsStay(site, s, inputs[..last], scope);
      RecordsComplete(site, Run(site, s, inputs[..last]), inputs[last]);
      RecordStaysInStep(site, Run(site, s, inputs[..last]), inputs[last], scope);
    }
  }

  lemma RecordStaysInStep(site: Site, s: State, input: Input, scope: Scope)
    requires AllCompleted(s) && scope in s.reservations
    ensures var after := Next(site, s, input).after.reservations; scope in after && after[scope] == s.reservations[scope]
  {
    hide TransitionError, JudgeSuccessor, EditError, MovedVersion, MovedCourse, SuccessorVersion, SubmissionActor, LatestReview, RequestJson;
  }

  predicate IsIdempotent(c: Command) {
    c.Move? || c.Succeed?
  }

  /** A successful command leaves its completed record. */
  lemma SuccessIsRecorded(site: Site, s: State, input: Input)
    requires IsIdempotent(input.command) && Next(site, s, input).outcome.Done? && input.authorization.Granted?
    ensures var scope := ScopeOf(input.authorization.actor, input.command);
      var after := Next(site, s, input).after.reservations;
      scope in after && after[scope] == Reservation(site.digest(RequestJson(input.command)), Some(Next(site, s, input).outcome.response))
  {
    hide TransitionError, JudgeSuccessor, EditError, MovedState, SucceededState, RequestJson, SnapshotOf;
  }

  /** The key of a completed command, after any further commands: the same request gets the same response and changes nothing;
      a request with another digest is refused and changes nothing. */
  lemma {:induction false} RetryIsReplayed(site: Site, s: State, input: Input, inputs: seq<Input>, again: Input)
    requires AllCompleted(s) && IsIdempotent(input.command) && IsIdempotent(again.command)
    requires input.authorization.Granted? && Next(site, s, input).outcome.Done?
    requires again.formatsValid && IsValid(again.command) && again.authorization.Granted?
    requires again.command.Move? && MustBeHuman(again.command.transition) ==> again.authorization.actor.isHuman
    requires ScopeOf(again.authorization.actor, again.command) == ScopeOf(input.authorization.actor, input.command)
    ensures var later := Run(site, Next(site, s, input).after, inputs);
      Next(site, later, again) ==
        if site.digest(RequestJson(again.command)) == site.digest(RequestJson(input.command))
        then Step(later, Done(Next(site, s, input).outcome.response, true))
        else Step(later, Failed(IdempotencyConflict))
  {
    hide TransitionError, JudgeSuccessor, EditError, MovedState, SucceededState, RequestJson, SnapshotOf, Edit;
    var scope := ScopeOf(input.authorization.actor, input.command);
    SuccessIsRecorded(site, s, input);
    RecordsComplete(site, s, input);
    RecordsStay(site, Next(site, s, input).after, inputs, scope);
  }

  lemma RequestTransitionRows(c: Command)
    requires c.Move?
    ensures var f := RequestJson(c).fields;
      && "expected_version_row_version" in f && f["expected_version_row_version"] == Int(c.expectedRow)
      && "expected_course_row_version" in f && f["expected_course_row_version"] == OptionalInt(c.expectedCourseRow)
  {}

  lemma RequestTransitionTexts(c: Command)
    requires c.Move?
    ensures var f := RequestJson(c).fields;
      && "expected_content_hash" in f && f["expected_content_hash"] == Str(c.expectedHash)
      && "reason_code" in f && f["reason_code"] == OptionalStr(c.reasonCode)
      && "reason_codes" in f && f["reason_codes"] == Arr(Strings(c.reasonCodes))
  {}

  lemma RequestSuccessorFields(c: Command)
    requires c.Succeed?
    ensures var f := RequestJson(c).fields;
      && "expected_course_row_version" in f && f["expected_course_row_version"] == Int(c.courseRow)
      && "expected_source_version_row_version" in f && f["expected_source_version_row_version"] == Int(c.expectedRow)
      && "expected_source_content_hash" in f && f["expected_source_content_hash"] == Str(c.expectedHash)
  {}

  /** Two requests under one key have the same canonical text only if they are the same command. */
  lemma SameRequestSameCommand(actor: Actor, a: Command, b: Command)
    requires IsIdempotent(a) && IsIdempotent(b) && ScopeOf(actor, a) == ScopeOf(actor, b)
    ensures InF002Subset(RequestJson(a)) && InF002Subset(RequestJson(b))
    ensures CanonicalText(RequestJson(a)) == CanonicalText(RequestJson(b)) ==> a == b
  {
    hide RequestJson, CanonicalText, InF002Subset, Strings;
    RequestInSubset(a);
    RequestInSubset(b);
    TextOfSubset(RequestJson(a));
    if CanonicalText(RequestJson(a)) == CanonicalText(RequestJson(b)) {
      CanonicalTextIsInjective(RequestJson(a), RequestJson(b));
      if a.Move? {
        RequestTransitionRows(a);
        RequestTransitionRows(b);
        RequestTransitionTexts(a);
        RequestTransitionTexts(b);
        SameStrings(a.reasonCodes, b.reasonCodes);
      } else {
        RequestSuccessorFields(a);
        RequestSuccessorFields(b);
      }
    }
  }

  lemma TextOfSubset(j: Json)
    requires InF002Subset(j)
    ensures CanonicalText(j).Ok?
  {}

  lemma SameStrings(a: seq<string>, b: seq<string>)
    requires Arr(Strings(a)) == Arr(Strings(b))
    ensures a == b
  {
    assert |Strings(a)| == |Strings(b)|;
    forall i | 0 <= i < |a| ensures a[i] == b[i] { assert Strings(a)[i] == Strings(b)[i]; }
  }

  lemma RequestInSubset(c: Command)
    requires IsIdempotent(c)
    ensures InF002Subset(RequestJson(c))
  {
    if c.Move? {
      var reasons := Arr(Strings(c.reasonCodes));
      forall x | x in reasons.items ensures InF002Subset(x) {
        var i :| 0 <= i < |reasons.items| && reasons.items[i] == x;
      }
    }
  }

  /* ---------- the publication pointer over time ---------- */

  predicate IsPublication(f: Fact, k: nat) {
    f.kind.Moved? && f.kind.transition == Publish && f.version == k
  }

  lemma {:induction false} ReplayPrefix(facts: seq<Fact>, n: nat)
    requires Replay(facts).Some? && n <= |facts|
    ensures Replay(facts[..n]).Some?
  {
    if n == |facts| {
      assert facts[..n] == facts;
    } else {
      ReplayPrefix(facts[..|facts| - 1], n);
      assert facts[..|facts| - 1][..n] == facts[..n];
    }
  }

  lemma RecordKeepsPublished(l: Ledger, f: Fact, k: nat)
    requires Record(l, f).Some? && k < |l.statuses| && WasPublished(l.statuses[k])
    ensures k < |Record(l, f).value.statuses| && WasPublished(Record(l, f).value.statuses[k])
  {}

  /** Once published, a version never returns to a state it could be published from. */
  lemma {:induction false} PublishedStays(facts: seq<Fact>, n: nat, k: nat)
    requires Replay(facts).Some? && n <= |facts| && Replay(facts[..n]).Some?
    requires k < |Replay(facts[..n]).value.statuses| && WasPublished(Replay(facts[..n]).value.statuses[k])
    ensures k < |Replay(facts).value.statuses| && WasPublished(Replay(facts).value.statuses[k])
  {
    if n == |facts| {
      assert facts[..n] == facts;
    } else {
      hide Record, WasPublished;
      var last := |facts| - 1;
      assert facts[..last][..n] == facts[..n];
      PublishedStays(facts[..last], n, k);
      RecordKeepsPublished(Replay(facts[..last]).value, facts[last], k);
    }
  }

  /** A version is published at most once. */
  lemma {:induction false} PublishedOnce(facts: seq<Fact>, i: nat, j: nat, k: nat)
    requires Replay(facts).Some? && i < j < |facts| && IsPublication(facts[i], k)
    ensures !IsPublication(facts[j], k)
  {
    hide Replay;
    ReplayPrefix(facts, i);
    ReplayPrefix(facts, i + 1);
    ReplayPrefix(facts, j);
    ReplayPrefix(facts, j + 1);
    assert facts[..i + 1] == facts[..i] + [facts[i]] && facts[..j + 1] == facts[..j] + [facts[j]];
    ReplayOneMore(facts[..i], facts[i]);
    ReplayOneMore(facts[..j], facts[j]);
    assert facts[..j][..i + 1] == facts[..i + 1];
    PublishedStays(facts[..j], i + 1, k);
  }

  function PointerAfter(facts: seq<Fact>): Option<nat> {
    match Replay(facts) case None => None case Some(l) => l.pointer
  }

  /** Whoever is current was published by a fact before. */
  lemma {:induction false} CurrentWasPublished(facts: seq<Fact>, k: nat) returns (i: nat)
    requires Replay(facts).Some? && PointerAfter(facts) == Some(k)
    ensures i < |facts| && IsPublication(facts[i], k) && forall n :: i < n <= |facts| ==> PointerAfter(facts[..n]) == Some(k)
  {
    var last := |facts| - 1;
    assert facts[..|facts|] == facts;
    if IsPublication(facts[last], k) {
      i := last;
    } else {
      i := CurrentWasPublished(facts[..last], k);
      assert forall n :: i < n <= last ==> facts[..last][..n] == facts[..n];
    }
  }

  /** A version is current during at most one contiguous stretch of the log. */
  lemma {:induction false} OneInterval(facts: seq<Fact>, i: nat, j: nat, n: nat, k: nat)
    requires Replay(facts).Some? && i <= j <= n <= |facts|
    requires PointerAfter(facts[..i]) == Some(k) && PointerAfter(facts[..n]) == Some(k)
    ensures PointerAfter(facts[..j]) == Some(k)
  {
    hide Replay;
    ReplayPrefix(facts, i);
    ReplayPrefix(facts, n);
    var a := CurrentWasPublished(facts[..i], k);
    var b := CurrentWasPublished(facts[..n], k);
    assert facts[..n][b] == facts[b] && facts[..i][a] == facts[a];
    if a < b { PublishedOnce(facts, a, b, k); }
    assert facts[..n][..j] == facts[..j] || j <= b;
  }

  /** In a reachable state every publication fact names the version that was current before it. */
  lemma PublicationNamesPrevious(site: Site, s: State, i: nat, k: nat)
    requires Inv(site, s) && i < |s.facts| && IsPublication(s.facts[i], k)
    ensures Replay(s.facts[..i]).Some? && s.facts[i].kind.previous == PointerAfter(s.facts[..i])
    ensures PointerAfter(s.facts[..i + 1]) == Some(k)
  {
    ReplayPrefix(s.facts, i);
    ReplayPrefix(s.facts, i + 1);
    assert s.facts[..i + 1] == s.facts[..i] + [s.facts[i]];
    ReplayOneMore(s.facts[..i], s.facts[i]);
  }

  /** What a learner is shown was approved: the current version carries one hash for its content, submission and approval. */
  lemma {:induction false} CurrentIsApproved(site: Site, policy: ReviewerPolicy, origin: Origin, content: Content, inputs: seq<Input>, k: nat)
    requires Run(site, Created(site, policy, origin, content), inputs).course.pointer == Some(k)
    ensures var s := Run(site, Created(site, policy, origin, content), inputs);
      && k < |s.versions| && s.versions[k].status == Published
      && s.versions[k].submittedHash == s.versions[k].approvedHash == Some(site.hash(s.versions[k].content))
      && HasApprovedReview(s, k) && exists i :: 0 <= i < |s.facts| && IsApproval(s, k, i)
  {
    hide Next, Created, IsApproval, HasApprovedReview, LogRebuilds;
    RunKeeps(site, policy, origin, content, inputs);
    var s := Run(site, Created(site, policy, origin, content), inputs);
    assert HashesFit(site, s.versions[k]) && IsReviewed(s, k);
  }
}

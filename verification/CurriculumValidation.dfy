/** `validate_replace_curriculum`: accepts exactly the well-formed commands, and so what the replacement relies on. */
module CurriculumValidation {
  import opened Prelude
  import opened CanonicalJson
  import opened PythonText
  import opened RichText
  import opened CourseTree
  import opened CourseRepository
  import opened CurriculumRefinement
  import opened CurriculumRoundTrip

  const MAX_SECTIONS := 100
  const MAX_LESSONS := 200
  const MAX_BLOCKS := 100
  const MAX_TITLE := 160

  /* ---------- well-formed commands ---------- */

  predicate ArePositions(ps: seq<int>) {
    (forall i :: 0 <= i < |ps| ==> ps[i] >= 1) && Distinct(ps)
  }

  predicate IsIdentity(identity: Identity) {
    identity.Kept? ==> identity.expectedRowVersion >= 1
  }

  predicate IsBlockInput(b: BlockInput) {
    IsIdentity(b.identity) && b.body.kind == "rich_text" && b.position >= 1 && IsDocument(b.body.document)
  }

  predicate IsLessonInput(l: LessonInput) {
    && IsIdentity(l.identity) && IsBoundedText(Str(l.body.title), MAX_TITLE) && l.position >= 1
    && 1 <= |l.blocks| <= MAX_BLOCKS && ArePositions(BlockPositions(l.blocks))
    && forall k :: 0 <= k < |l.blocks| ==> IsBlockInput(l.blocks[k])
  }

  predicate IsSectionInput(s: SectionInput) {
    && IsIdentity(s.identity) && IsBoundedText(Str(s.body.title), MAX_TITLE) && s.position >= 1
    && 1 <= |s.lessons| <= MAX_LESSONS && ArePositions(LessonPositions(s.lessons))
    && forall j :: 0 <= j < |s.lessons| ==> IsLessonInput(s.lessons[j])
  }

  /** The stored ids that a list of nodes names, in order. */
  function KeptIds(identities: seq<Identity>): seq<Id> {
    if identities == [] then []
    else
      var last := identities[|identities| - 1];
      KeptIds(identities[..|identities| - 1]) + (if last.Kept? then [last.id] else [])
  }

  function SectionIdentities(nodes: seq<SectionInput>): (r: seq<Identity>)
    ensures |r| == |nodes| && forall i :: 0 <= i < |r| ==> r[i] == nodes[i].identity
  {
    seq(|nodes|, i requires 0 <= i < |nodes| => nodes[i].identity)
  }

  function LessonIdentitiesIn(nodes: seq<LessonInput>): (r: seq<Identity>)
    ensures |r| == |nodes| && forall j :: 0 <= j < |r| ==> r[j] == nodes[j].identity
  {
    seq(|nodes|, j requires 0 <= j < |nodes| => nodes[j].identity)
  }

  function BlockIdentitiesIn(nodes: seq<BlockInput>): (r: seq<Identity>)
    ensures |r| == |nodes| && forall k :: 0 <= k < |r| ==> r[k] == nodes[k].identity
  {
    seq(|nodes|, k requires 0 <= k < |nodes| => nodes[k].identity)
  }

  function LessonIdentities(nodes: seq<SectionInput>): seq<Identity> {
    if nodes == [] then []
    else LessonIdentities(nodes[..|nodes| - 1]) + LessonIdentitiesIn(nodes[|nodes| - 1].lessons)
  }

  function BlockIdentitiesOf(nodes: seq<LessonInput>): seq<Identity> {
    if nodes == [] then []
    else BlockIdentitiesOf(nodes[..|nodes| - 1]) + BlockIdentitiesIn(nodes[|nodes| - 1].blocks)
  }

  function BlockIdentities(nodes: seq<SectionInput>): seq<Identity> {
    if nodes == [] then []
    else BlockIdentities(nodes[..|nodes| - 1]) + BlockIdentitiesOf(nodes[|nodes| - 1].lessons)
  }

  /** No stored id is named twice among the sections, the lessons, the blocks. */
  predicate NamesRowsOnce(nodes: seq<SectionInput>) {
    && Distinct(KeptIds(SectionIdentities(nodes)))
    && Distinct(KeptIds(LessonIdentities(nodes)))
    && Distinct(KeptIds(BlockIdentities(nodes)))
  }

  predicate IsReplacement(expectedRow: int, nodes: seq<SectionInput>) {
    && expectedRow >= 1 && |nodes| <= MAX_SECTIONS && ArePositions(SectionPositions(nodes))
    && (forall i :: 0 <= i < |nodes| ==> IsSectionInput(nodes[i]))
    && NamesRowsOnce(nodes)
  }

  /* ---------- what it gives to the replacement ---------- */

  /** Two different places with kept ids hold different ids. */
  ghost predicate KeptApart(identities: seq<Identity>) {
    forall i, j :: 0 <= i < |identities| && 0 <= j < |identities| && i != j && identities[i].Kept? && identities[j].Kept?
      ==> identities[i].id != identities[j].id
  }

  lemma {:induction false} KeptIdIsListed(identities: seq<Identity>, i: nat)
    requires i < |identities| && identities[i].Kept?
    ensures identities[i].id in KeptIds(identities)
  {
    var last := |identities| - 1;
    if i < last { KeptIdIsListed(identities[..last], i); }
  }

  lemma {:induction false} DistinctKeptIds(identities: seq<Identity>)
    requires Distinct(KeptIds(identities))
    ensures KeptApart(identities)
  {
    if identities != [] {
      var last := |identities| - 1;
      var before, all := KeptIds(identities[..last]), KeptIds(identities);
      assert Distinct(before) by { assert forall i :: 0 <= i < |before| ==> all[i] == before[i]; }
      DistinctKeptIds(identities[..last]);
      if identities[last].Kept? {
        forall i | 0 <= i < last && identities[i].Kept? ensures identities[i].id != identities[last].id {
          KeptIdIsListed(identities[..last], i);
          var n :| 0 <= n < |before| && before[n] == identities[i].id;
          assert all[n] == before[n] && all[|before|] == identities[last].id;
        }
      }
    }
  }

  /** Where the identity of lesson (i, j) stands in the flat list. */
  function LessonPlace(nodes: seq<SectionInput>, i: nat, j: nat): (n: nat)
    requires IsLesson(nodes, i, j)
    ensures n < |LessonIdentities(nodes)| && LessonIdentities(nodes)[n] == nodes[i].lessons[j].identity
    ensures i < |nodes| - 1 ==> n < |LessonIdentities(nodes[..|nodes| - 1])|
    ensures i == |nodes| - 1 ==> n == |LessonIdentities(nodes[..|nodes| - 1])| + j
  {
    var last := |nodes| - 1;
    if i == last then |LessonIdentities(nodes[..last])| + j else LessonPlace(nodes[..last], i, j)
  }

  lemma {:induction false} LessonPlacesDiffer(nodes: seq<SectionInput>, i: nat, j: nat, i': nat, j': nat)
    requires IsLesson(nodes, i, j) && IsLesson(nodes, i', j') && (i != i' || j != j')
    ensures LessonPlace(nodes, i, j) != LessonPlace(nodes, i', j')
  {
    var last := |nodes| - 1;
    if i < last && i' < last { LessonPlacesDiffer(nodes[..last], i, j, i', j'); }
  }

  function BlockPlaceOf(nodes: seq<LessonInput>, j: nat, k: nat): (n: nat)
    requires j < |nodes| && k < |nodes[j].blocks|
    ensures n < |BlockIdentitiesOf(nodes)| && BlockIdentitiesOf(nodes)[n] == nodes[j].blocks[k].identity
    ensures j < |nodes| - 1 ==> n < |BlockIdentitiesOf(nodes[..|nodes| - 1])|
    ensures j == |nodes| - 1 ==> n == |BlockIdentitiesOf(nodes[..|nodes| - 1])| + k
  {
    var last := |nodes| - 1;
    if j == last then |BlockIdentitiesOf(nodes[..last])| + k else BlockPlaceOf(nodes[..last], j, k)
  }

  lemma {:induction false} BlockPlacesOfDiffer(nodes: seq<LessonInput>, j: nat, k: nat, j': nat, k': nat)
    requires j < |nodes| && k < |nodes[j].blocks| && j' < |nodes| && k' < |nodes[j'].blocks| && (j != j' || k != k')
    ensures BlockPlaceOf(nodes, j, k) != BlockPlaceOf(nodes, j', k')
  {
    var last := |nodes| - 1;
    if j < last && j' < last { BlockPlacesOfDiffer(nodes[..last], j, k, j', k'); }
  }

  function BlockPlace(nodes: seq<SectionInput>, i: nat, j: nat, k: nat): (n: nat)
    requires IsBlock(nodes, i, j, k)
    ensures n < |BlockIdentities(nodes)| && BlockIdentities(nodes)[n] == nodes[i].lessons[j].blocks[k].identity
    ensures i < |nodes| - 1 ==> n < |BlockIdentities(nodes[..|nodes| - 1])|
    ensures i == |nodes| - 1 ==> n == |BlockIdentities(nodes[..|nodes| - 1])| + BlockPlaceOf(nodes[i].lessons, j, k)
  {
    var last := |nodes| - 1;
    if i == last then |BlockIdentities(nodes[..last])| + BlockPlaceOf(nodes[i].lessons, j, k) else BlockPlace(nodes[..last], i, j, k)
  }

  lemma {:induction false} BlockPlacesDiffer(nodes: seq<SectionInput>, i: nat, j: nat, k: nat, i': nat, j': nat, k': nat)
    requires IsBlock(nodes, i, j, k) && IsBlock(nodes, i', j', k') && (i != i' || j != j' || k != k')
    ensures BlockPlace(nodes, i, j, k) != BlockPlace(nodes, i', j', k')
  {
    var last := |nodes| - 1;
    if i < last && i' < last {
      BlockPlacesDiffer(nodes[..last], i, j, k, i', j', k');
    } else if i == last && i' == last {
      BlockPlacesOfDiffer(nodes[i].lessons, j, k, j', k');
    }
  }

  lemma NamesOnce(expectedRow: int, nodes: seq<SectionInput>)
    requires IsReplacement(expectedRow, nodes)
    ensures NamesRowsOnce(nodes)
  {}

  predicate IsTitle(title: string) {
    !IsBlank(title) && |title| <= 160
  }

  /** The bounds of an accepted command. */
  lemma ValidCommandsAreBounded(expectedRow: int, nodes: seq<SectionInput>)
    requires IsReplacement(expectedRow, nodes)
    ensures expectedRow >= 1 && |nodes| <= 100
    ensures forall s | s in nodes :: IsTitle(s.body.title) && s.position >= 1 && 1 <= |s.lessons| <= 200
    ensures forall s | s in nodes :: forall l | l in s.lessons :: IsTitle(l.body.title) && l.position >= 1 && 1 <= |l.blocks| <= 100
    ensures forall s | s in nodes :: forall l | l in s.lessons :: forall b | b in l.blocks :: b.position >= 1 && b.body.kind == "rich_text"
  {
    hide NamesRowsOnce, ArePositions, IsDocument, IsBlank;
  }

  /** What the validator accepts is what the replacement assumes: unique positions and ids. */
  lemma ValidCommandsFit(expectedRow: int, nodes: seq<SectionInput>)
    requires IsReplacement(expectedRow, nodes)
    ensures DistinctPositions(nodes) && KeptOnce(nodes)
  {
    hide IsReplacement, KeptIds, LessonIdentities, BlockIdentities, LessonPlace, BlockPlace, DistinctPositions, Distinct;
    PositionsFit(expectedRow, nodes);
    NamesOnce(expectedRow, nodes);
    DistinctKeptIds(SectionIdentities(nodes));
    DistinctKeptIds(LessonIdentities(nodes));
    DistinctKeptIds(BlockIdentities(nodes));
    var lessons, blocks := LessonIdentities(nodes), BlockIdentities(nodes);
    forall i, j, i', j' | IsLesson(nodes, i, j) && IsLesson(nodes, i', j') && (i != i' || j != j')
      ensures var a, b := nodes[i].lessons[j].identity, nodes[i'].lessons[j'].identity; a.Kept? && b.Kept? ==> a.id != b.id
    {
      LessonPlacesDiffer(nodes, i, j, i', j');
      assert lessons[LessonPlace(nodes, i, j)] == nodes[i].lessons[j].identity;
      assert lessons[LessonPlace(nodes, i', j')] == nodes[i'].lessons[j'].identity;
    }
    forall i, j, k, i', j', k' | IsBlock(nodes, i, j, k) && IsBlock(nodes, i', j', k') && (i != i' || j != j' || k != k')
      ensures var a, b := nodes[i].lessons[j].blocks[k].identity, nodes[i'].lessons[j'].blocks[k'].identity;
        a.Kept? && b.Kept? ==> a.id != b.id
    {
      BlockPlacesDiffer(nodes, i, j, k, i', j', k');
      assert blocks[BlockPlace(nodes, i, j, k)] == nodes[i].lessons[j].blocks[k].identity;
      assert blocks[BlockPlace(nodes, i', j', k')] == nodes[i'].lessons[j'].blocks[k'].identity;
    }
  }

  lemma PositionsFit(expectedRow: int, nodes: seq<SectionInput>)
    requires IsReplacement(expectedRow, nodes)
    ensures DistinctPositions(nodes)
  {
    hide IsBoundedText, NamesRowsOnce, IsBlockInput;
    forall i, j, j' | IsLesson(nodes, i, j) && IsLesson(nodes, i, j') && j != j'
      ensures nodes[i].lessons[j].position != nodes[i].lessons[j'].position
    {
      assert IsSectionInput(nodes[i]);
      var ps := LessonPositions(nodes[i].lessons);
      assert ps[j] != ps[j'];
    }
    forall i, j, k, k' | IsBlock(nodes, i, j, k) && IsBlock(nodes, i, j, k') && k != k'
      ensures nodes[i].lessons[j].blocks[k].position != nodes[i].lessons[j].blocks[k'].position
    {
      assert IsSectionInput(nodes[i]) && IsLessonInput(nodes[i].lessons[j]);
      var ps := BlockPositions(nodes[i].lessons[j].blocks);
      assert ps[k] != ps[k'];
    }
    forall i, i' | 0 <= i < i' < |nodes| ensures nodes[i].position != nodes[i'].position {
      var ps := SectionPositions(nodes);
      assert ps[i] != ps[i'];
    }
  }

  /* ---------- the validator ---------- */

  /** `_unique_positions` looks at one position more than the maximum. */
  method UniquePositions(ps: seq<int>, path: string, maximum: nat, errors: Collector)
    requires |errors.errors| <= MAX_ERRORS
    modifies errors
    ensures Records(old(errors.errors), errors.errors, ArePositions(ps[..Visited(|ps|, maximum)]))
  {
    var positions := ps[..Visited(|ps|, maximum)];
    for i := 0 to |positions|
      invariant Records(old(errors.errors), errors.errors, forall k :: 0 <= k < i ==> positions[k] >= 1)
    {
      errors.AddUnless(positions[i] >= 1, Indexed(path, i) + ".position", "invalid_integer");
    }
    DistinctSize(positions);
    errors.AddUnless(|Elements(positions)| == |positions|, path, "duplicate_position");
  }

  method CheckIdentity(identity: Identity, path: string, errors: Collector)
    requires |errors.errors| <= MAX_ERRORS
    modifies errors
    ensures Records(old(errors.errors), errors.errors, IsIdentity(identity))
  {
    errors.AddUnless(identity.New? || identity.expectedRowVersion >= 1, path + ".expected_row_version", "invalid_integer");
  }

  method CheckBlock(b: BlockInput, path: string, errors: Collector) returns (typeError: bool)
    requires |errors.errors| <= MAX_ERRORS
    modifies errors
    ensures typeError <==> RaisesTypeError(b.body.document)
    ensures !typeError ==> Records(old(errors.errors), errors.errors, IsBlockInput(b))
  {
    hide IsDocument, RaisesTypeError;
    CheckIdentity(b.identity, path, errors);
    errors.AddUnless(b.body.kind == "rich_text", path + ".kind", "unsupported");
    errors.AddUnless(b.position >= 1, path + ".position", "invalid_integer");
    typeError := ValidateDocument(b.body.document, path + ".document", errors);
  }

  predicate LessonHead(l: LessonInput) {
    && IsIdentity(l.identity) && IsBoundedText(Str(l.body.title), MAX_TITLE) && l.position >= 1
    && 1 <= |l.blocks| <= MAX_BLOCKS && ArePositions(BlockPositions(l.blocks)[..Visited(|l.blocks|, MAX_BLOCKS)])
  }

  /** The part of a lesson that the checker visits. */
  predicate IsLessonVisited(l: LessonInput) {
    LessonHead(l) && forall k :: 0 <= k < Visited(|l.blocks|, MAX_BLOCKS) ==> IsBlockInput(l.blocks[k])
  }

  lemma LessonVisited(l: LessonInput)
    ensures IsLessonVisited(l) <==> IsLessonInput(l)
  {
    hide IsBlockInput, IsBoundedText, ArePositions;
    if |l.blocks| <= MAX_BLOCKS { assert BlockPositions(l.blocks)[..|l.blocks|] == BlockPositions(l.blocks); }
  }

  method CheckLessonHead(l: LessonInput, path: string, errors: Collector)
    requires |errors.errors| <= MAX_ERRORS
    modifies errors
    ensures Records(old(errors.errors), errors.errors, LessonHead(l))
  {
    hide IsBoundedText, IsIdentity, ArePositions;
    CheckIdentity(l.identity, path, errors);
    BoundedText(Str(l.body.title), path + ".title", MAX_TITLE, errors);
    errors.AddUnless(l.position >= 1, path + ".position", "invalid_integer");
    errors.AddUnless(1 <= |l.blocks| <= MAX_BLOCKS, path + ".content_blocks", "invalid_length");
    UniquePositions(BlockPositions(l.blocks), path + ".content_blocks", MAX_BLOCKS, errors);
  }

  method CheckLesson(l: LessonInput, path: string, errors: Collector) returns (typeError: bool)
    requires |errors.errors| <= MAX_ERRORS
    modifies errors
    ensures typeError <==> exists k :: 0 <= k < Visited(|l.blocks|, MAX_BLOCKS) && RaisesTypeError(l.blocks[k].body.document)
    ensures !typeError ==> Records(old(errors.errors), errors.errors, IsLessonInput(l))
  {
    hide IsBlockInput, RaisesTypeError, LessonHead, IsLessonInput;
    LessonVisited(l);
    CheckLessonHead(l, path, errors);
    for k := 0 to Visited(|l.blocks|, MAX_BLOCKS)
      invariant Records(old(errors.errors), errors.errors, LessonHead(l) && forall n :: 0 <= n < k ==> IsBlockInput(l.blocks[n]))
      invariant forall n :: 0 <= n < k ==> !RaisesTypeError(l.blocks[n].body.document)
    {
      typeError := CheckBlock(l.blocks[k], Indexed(path + ".content_blocks", k), errors);
      if typeError { return; }
    }
    return false;
  }

  predicate LessonRaises(l: LessonInput) {
    exists k :: 0 <= k < Visited(|l.blocks|, MAX_BLOCKS) && RaisesTypeError(l.blocks[k].body.document)
  }

  predicate SectionHead(s: SectionInput) {
    && IsIdentity(s.identity) && IsBoundedText(Str(s.body.title), MAX_TITLE) && s.position >= 1
    && 1 <= |s.lessons| <= MAX_LESSONS && ArePositions(LessonPositions(s.lessons)[..Visited(|s.lessons|, MAX_LESSONS)])
  }

  predicate IsSectionVisited(s: SectionInput) {
    SectionHead(s) && forall j :: 0 <= j < Visited(|s.lessons|, MAX_LESSONS) ==> IsLessonInput(s.lessons[j])
  }

  lemma SectionVisited(s: SectionInput)
    ensures IsSectionVisited(s) <==> IsSectionInput(s)
  {
    hide IsLessonInput, IsBoundedText, ArePositions;
    if |s.lessons| <= MAX_LESSONS { assert LessonPositions(s.lessons)[..|s.lessons|] == LessonPositions(s.lessons); }
  }

  method CheckSectionHead(s: SectionInput, path: string, errors: Collector)
    requires |errors.errors| <= MAX_ERRORS
    modifies errors
    ensures Records(old(errors.errors), errors.errors, SectionHead(s))
  {
    hide IsBoundedText, IsIdentity, ArePositions;
    CheckIdentity(s.identity, path, errors);
    BoundedText(Str(s.body.title), path + ".title", MAX_TITLE, errors);
    errors.AddUnless(s.position >= 1, path + ".position", "invalid_integer");
    errors.AddUnless(1 <= |s.lessons| <= MAX_LESSONS, path + ".lessons", "invalid_length");
    UniquePositions(LessonPositions(s.lessons), path + ".lessons", MAX_LESSONS, errors);
  }

  method CheckSection(s: SectionInput, path: string, errors: Collector) returns (typeError: bool)
    requires |errors.errors| <= MAX_ERRORS
    modifies errors
    ensures typeError <==> exists j :: 0 <= j < Visited(|s.lessons|, MAX_LESSONS) && LessonRaises(s.lessons[j])
    ensures !typeError ==> Records(old(errors.errors), errors.errors, IsSectionInput(s))
  {
    hide IsLessonInput, LessonRaises, SectionHead, IsSectionInput;
    SectionVisited(s);
    CheckSectionHead(s, path, errors);
    for j := 0 to Visited(|s.lessons|, MAX_LESSONS)
      invariant Records(old(errors.errors), errors.errors, SectionHead(s) && forall n :: 0 <= n < j ==> IsLessonInput(s.lessons[n]))
      invariant forall n :: 0 <= n < j ==> !LessonRaises(s.lessons[n])
    {
      typeError := CheckLesson(s.lessons[j], Indexed(path + ".lessons", j), errors);
      if typeError {
        assert LessonRaises(s.lessons[j]) by { LessonRaisesWhen(s.lessons[j]); }
        return;
      }
      LessonRaisesWhen(s.lessons[j]);
    }
    return false;
  }

  lemma LessonRaisesWhen(l: LessonInput)
    ensures LessonRaises(l) <==> exists k :: 0 <= k < Visited(|l.blocks|, MAX_BLOCKS) && RaisesTypeError(l.blocks[k].body.document)
  {}

  /* ---------- ids that appear once ---------- */

  lemma OneKeptIdMore(log: seq<Identity>, identity: Identity)
    ensures KeptIds(log + [identity]) == KeptIds(log) + (if identity.Kept? then [identity.id] else [])
    ensures Distinct(KeptIds(log + [identity])) <==> Distinct(KeptIds(log)) && !(identity.Kept? && identity.id in KeptIds(log))
  {
    assert (log + [identity])[..|log|] == log;
    var before, after := KeptIds(log), KeptIds(log + [identity]);
    assert forall i :: 0 <= i < |before| ==> after[i] == before[i];
    if identity.Kept? && identity.id in before {
      var i :| 0 <= i < |before| && before[i] == identity.id;
      assert after[i] == after[|before|];
    }
  }

  ghost predicate IsSeen(seen: set<Id>, log: seq<Identity>) {
    forall id :: id in seen <==> id in KeptIds(log)
  }

  /** The duplicate check of one node; `unique` tells whether its id is new to the log. */
  method NoteIdentity(identity: Identity, seen: set<Id>, ghost log: seq<Identity>, path: string, errors: Collector)
    returns (next: set<Id>, ghost unique: bool)
    requires |errors.errors| <= MAX_ERRORS && IsSeen(seen, log)
    modifies errors
    ensures Records(old(errors.errors), errors.errors, unique) && IsSeen(next, log + [identity])
    ensures Distinct(KeptIds(log + [identity])) <==> Distinct(KeptIds(log)) && unique
  {
    OneKeptIdMore(log, identity);
    next := seen;
    unique := true;
    if identity.Kept? {
      unique := identity.id !in seen;
      errors.AddUnless(identity.id !in seen, path + ".id", "duplicate_id");
      next := seen + {identity.id};
    }
  }

  method NoteBlocks(blocks: seq<BlockInput>, seen: set<Id>, ghost log: seq<Identity>, path: string, errors: Collector)
    returns (next: set<Id>, ghost noted: seq<Identity>, ghost unique: bool)
    requires |errors.errors| <= MAX_ERRORS && IsSeen(seen, log)
    modifies errors
    ensures Records(old(errors.errors), errors.errors, unique) && IsSeen(next, noted)
    ensures Distinct(KeptIds(noted)) <==> Distinct(KeptIds(log)) && unique
    ensures |blocks| <= MAX_BLOCKS ==> noted == log + BlockIdentitiesIn(blocks)
  {
    hide KeptIds, IsSeen, Distinct;
    next, noted, unique := seen, log, true;
    for k := 0 to Visited(|blocks|, MAX_BLOCKS)
      invariant Records(old(errors.errors), errors.errors, unique) && IsSeen(next, noted)
      invariant Distinct(KeptIds(noted)) <==> Distinct(KeptIds(log)) && unique
      invariant noted == log + BlockIdentitiesIn(blocks)[..k]
    {
      ghost var one: bool;
      next, one := NoteIdentity(blocks[k].identity, next, noted, Indexed(path, k), errors);
      noted, unique := noted + [blocks[k].identity], unique && one;
    }
  }

  /** The sizes that let the loop visit every block. */
  predicate AreSmall(lessons: seq<LessonInput>) {
    forall l | l in lessons :: |l.blocks| <= MAX_BLOCKS
  }

  lemma OneSmallMore(lessons: seq<LessonInput>, j: nat)
    requires j < |lessons|
    ensures AreSmall(lessons[..j + 1]) <==> AreSmall(lessons[..j]) && |lessons[j].blocks| <= MAX_BLOCKS
  {
    assert lessons[..j + 1] == lessons[..j] + [lessons[j]];
    assert lessons[j] in lessons[..j + 1] && forall l | l in lessons[..j] :: l in lessons[..j + 1];
  }

  method NoteLessons(lessons: seq<LessonInput>, seenLessons: set<Id>, seenBlocks: set<Id>,
      ghost lessonLog: seq<Identity>, ghost blockLog: seq<Identity>, path: string, errors: Collector)
    returns (nextLessons: set<Id>, nextBlocks: set<Id>, ghost notedLessons: seq<Identity>, ghost notedBlocks: seq<Identity>,
             ghost unique: bool)
    requires |errors.errors| <= MAX_ERRORS && IsSeen(seenLessons, lessonLog) && IsSeen(seenBlocks, blockLog)
    modifies errors
    ensures Records(old(errors.errors), errors.errors, unique) && IsSeen(nextLessons, notedLessons) && IsSeen(nextBlocks, notedBlocks)
    ensures Distinct(KeptIds(notedLessons)) && Distinct(KeptIds(notedBlocks))
      <==> Distinct(KeptIds(lessonLog)) && Distinct(KeptIds(blockLog)) && unique
    ensures |lessons| <= MAX_LESSONS && AreSmall(lessons) ==>
      notedLessons == lessonLog + LessonIdentitiesIn(lessons) && notedBlocks == blockLog + BlockIdentitiesOf(lessons)
  {
    hide KeptIds, IsSeen, BlockIdentitiesOf, Distinct, AreSmall;
    nextLessons, nextBlocks, notedLessons, notedBlocks, unique := seenLessons, seenBlocks, lessonLog, blockLog, true;
    NoBlockIdentities(lessons);
    for j := 0 to Visited(|lessons|, MAX_LESSONS)
      invariant Records(old(errors.errors), errors.errors, unique)
      invariant IsSeen(nextLessons, notedLessons) && IsSeen(nextBlocks, notedBlocks)
      invariant Distinct(KeptIds(notedLessons)) && Distinct(KeptIds(notedBlocks))
        <==> Distinct(KeptIds(lessonLog)) && Distinct(KeptIds(blockLog)) && unique
      invariant notedLessons == lessonLog + LessonIdentitiesIn(lessons)[..j]
      invariant AreSmall(lessons[..j]) ==> notedBlocks == blockLog + BlockIdentitiesOf(lessons[..j])
    {
      var here := Indexed(path, j);
      ghost var one: bool, blocks: seq<Identity>, all: bool;
      nextLessons, one := NoteIdentity(lessons[j].identity, nextLessons, notedLessons, here, errors);
      nextBlocks, blocks, all := NoteBlocks(lessons[j].blocks, nextBlocks, notedBlocks, here + ".content_blocks", errors);
      BlockIdentitiesGrow(lessons, j);
      OneSmallMore(lessons, j);
      notedLessons, notedBlocks, unique := notedLessons + [lessons[j].identity], blocks, unique && one && all;
    }
    if |lessons| <= MAX_LESSONS { assert lessons[..|lessons|] == lessons; }
  }

  lemma NoBlockIdentities(lessons: seq<LessonInput>)
    ensures BlockIdentitiesOf(lessons[..0]) == []
  {}

  lemma BlockIdentitiesGrow(lessons: seq<LessonInput>, j: nat)
    requires j < |lessons|
    ensures BlockIdentitiesOf(lessons[..j + 1]) == BlockIdentitiesOf(lessons[..j]) + BlockIdentitiesIn(lessons[j].blocks)
  {
    assert lessons[..j + 1][..j] == lessons[..j];
  }

  lemma IdentitiesGrow(nodes: seq<SectionInput>, i: nat)
    requires i < |nodes|
    ensures LessonIdentities(nodes[..i + 1]) == LessonIdentities(nodes[..i]) + LessonIdentitiesIn(nodes[i].lessons)
    ensures BlockIdentities(nodes[..i + 1]) == BlockIdentities(nodes[..i]) + BlockIdentitiesOf(nodes[i].lessons)
  {
    assert nodes[..i + 1][..i] == nodes[..i];
  }

  predicate SectionRaises(s: SectionInput) {
    exists j :: 0 <= j < Visited(|s.lessons|, MAX_LESSONS) && LessonRaises(s.lessons[j])
  }

  /** The sizes that let the loops visit every node. */
  lemma SectionSizes(s: SectionInput)
    requires IsSectionInput(s)
    ensures |s.lessons| <= MAX_LESSONS && AreSmall(s.lessons)
  {
    forall l | l in s.lessons ensures |l.blocks| <= MAX_BLOCKS {
      var j :| 0 <= j < |s.lessons| && s.lessons[j] == l;
    }
  }

  ghost predicate AllSections(nodes: seq<SectionInput>, n: nat)
    requires n <= |nodes|
  {
    forall i :: 0 <= i < n ==> IsSectionInput(nodes[i])
  }

  predicate CommandHead(expectedRow: int, nodes: seq<SectionInput>) {
    expectedRow >= 1 && |nodes| <= MAX_SECTIONS && ArePositions(SectionPositions(nodes)[..Visited(|nodes|, MAX_SECTIONS)])
  }

  method CheckCommandHead(expectedRow: int, nodes: seq<SectionInput>, errors: Collector)
    requires |errors.errors| <= MAX_ERRORS
    modifies errors
    ensures Records(old(errors.errors), errors.errors, CommandHead(expectedRow, nodes))
  {
    hide ArePositions;
    errors.AddUnless(expectedRow >= 1, "expected_version_row_version", "invalid_integer");
    errors.AddUnless(|nodes| <= MAX_SECTIONS, "sections", "too_many");
    UniquePositions(SectionPositions(nodes), "sections", MAX_SECTIONS, errors);
  }

  /** `validate_replace_curriculum` accepts a command exactly when it is well formed. */
  method ValidateReplaceCurriculum(expectedRow: int, nodes: seq<SectionInput>) returns (r: Verdict)
    ensures r.Accepted? <==> IsReplacement(expectedRow, nodes)
    ensures r.TypeErrorRaised? <==> exists i :: 0 <= i < Visited(|nodes|, MAX_SECTIONS) && SectionRaises(nodes[i])
    ensures r.Rejected? ==> 1 <= |r.errors| <= MAX_ERRORS
  {
    hide IsSectionInput, CommandHead, IsReplacement, KeptIds, IsSeen, LessonIdentities, BlockIdentities, SectionRaises, Distinct;
    var errors := new Collector();
    CheckCommandHead(expectedRow, nodes, errors);
    var sectionIds: set<Id>, lessonIds: set<Id>, blockIds: set<Id> := {}, {}, {};
    ghost var sections: seq<Identity>, lessons: seq<Identity>, blocks: seq<Identity> := [], [], [];
    NothingNoted(nodes);
    for i := 0 to Visited(|nodes|, MAX_SECTIONS)
      invariant IsSeen(sectionIds, sections) && IsSeen(lessonIds, lessons) && IsSeen(blockIds, blocks)
      invariant Records([], errors.errors, CommandHead(expectedRow, nodes) && AllSections(nodes, i)
        && Distinct(KeptIds(sections)) && Distinct(KeptIds(lessons)) && Distinct(KeptIds(blocks)))
      invariant sections == SectionIdentities(nodes)[..i]
      invariant AllSections(nodes, i) ==> lessons == LessonIdentities(nodes[..i]) && blocks == BlockIdentities(nodes[..i])
      invariant forall n :: 0 <= n < i ==> !SectionRaises(nodes[n])
    {
      var path := Indexed("sections", i);
      var typeError := CheckSection(nodes[i], path, errors);
      SectionRaisesWhen(nodes[i]);
      if typeError {
        RaisingIsRefused(expectedRow, nodes, i);
        return TypeErrorRaised;
      }
      ghost var one: bool, all: bool;
      sectionIds, one := NoteIdentity(nodes[i].identity, sectionIds, sections, path, errors);
      ghost var moreLessons: seq<Identity>, moreBlocks: seq<Identity>;
      lessonIds, blockIds, moreLessons, moreBlocks, all :=
        NoteLessons(nodes[i].lessons, lessonIds, blockIds, lessons, blocks, path + ".lessons", errors);
      IdentitiesGrow(nodes, i);
      if IsSectionInput(nodes[i]) { SectionSizes(nodes[i]); }
      sections, lessons, blocks := sections + [nodes[i].identity], moreLessons, moreBlocks;
    }
    AcceptedMeansReplacement(expectedRow, nodes, sections, lessons, blocks);
    r := if errors.errors == [] then Accepted else Rejected(errors.errors);
  }

  lemma NothingNoted(nodes: seq<SectionInput>)
    ensures IsSeen({}, []) && Distinct(KeptIds([])) && LessonIdentities(nodes[..0]) == [] && BlockIdentities(nodes[..0]) == []
  {}

  lemma SectionRaisesWhen(s: SectionInput)
    ensures SectionRaises(s) <==> exists j :: 0 <= j < Visited(|s.lessons|, MAX_LESSONS) && LessonRaises(s.lessons[j])
  {}

  /** The checks of the visited nodes are those of the whole command. */
  lemma AcceptedMeansReplacement(expectedRow: int, nodes: seq<SectionInput>,
                                 sections: seq<Identity>, lessons: seq<Identity>, blocks: seq<Identity>)
    requires var n := Visited(|nodes|, MAX_SECTIONS);
      && n <= |nodes| && sections == SectionIdentities(nodes)[..n]
      && (AllSections(nodes, n) ==> lessons == LessonIdentities(nodes[..n]) && blocks == BlockIdentities(nodes[..n]))
    ensures IsReplacement(expectedRow, nodes) <==>
      && CommandHead(expectedRow, nodes) && AllSections(nodes, Visited(|nodes|, MAX_SECTIONS))
      && Distinct(KeptIds(sections)) && Distinct(KeptIds(lessons)) && Distinct(KeptIds(blocks))
  {
    hide IsSectionInput, ArePositions, KeptIds, LessonIdentities, BlockIdentities, Distinct;
    if |nodes| <= MAX_SECTIONS {
      assert Visited(|nodes|, MAX_SECTIONS) == |nodes| && nodes[..|nodes|] == nodes;
      assert SectionPositions(nodes)[..|nodes|] == SectionPositions(nodes);
      assert SectionIdentities(nodes)[..|nodes|] == SectionIdentities(nodes);
    }
  }

  /** A command with a document that makes the checker raise is not well formed. */
  lemma RaisingIsRefused(expectedRow: int, nodes: seq<SectionInput>, i: nat)
    requires i < |nodes| && SectionRaises(nodes[i])
    ensures !IsReplacement(expectedRow, nodes)
  {
    hide RaisesTypeError, IsDocument, ArePositions;
    var s := nodes[i];
    var j :| 0 <= j < Visited(|s.lessons|, MAX_LESSONS) && LessonRaises(s.lessons[j]);
    var l := s.lessons[j];
    var k :| 0 <= k < Visited(|l.blocks|, MAX_BLOCKS) && RaisesTypeError(l.blocks[k].body.document);
    DocumentsAreHashable(l.blocks[k].body.document);
    assert !IsBlockInput(l.blocks[k]);
    assert !IsLessonInput(l);
    assert !IsSectionInput(s);
  }
}

/** The compiled draft becomes the first version of a course: validated, materialized and stored without refusal. */
module DraftStorage {
  import opened Prelude
  import opened CanonicalJson
  import opened RichText
  import opened CourseTree
  import opened CurriculumService
  import opened CurriculumTable
  import opened CourseRepository
  import opened CurriculumRefinement
  import opened CurriculumRoundTrip
  import opened CurriculumReplacement
  import opened CurriculumValidation
  import opened PositionOffset
  import opened SuccessorDraft
  import Compiler = CourseCompiler
  import opened CompilerCorrectness
  import opened DraftCorrectness

  /** Section i of the draft is compiled from source section i. */
  ghost predicate IsCompiled(sections: seq<Compiler.SourceSection>, draft: seq<SectionInput>) {
    IsValidSource(sections) && |draft| == |sections| && forall i :: 0 <= i < |sections| ==> draft[i] == CompiledSection(sections[i])
  }

  /** One new lesson of one new rich-text block, under a new section. */
  predicate IsSingle(s: SectionInput) {
    && s.identity.New? && |s.lessons| == 1 && s.lessons[0].identity.New? && s.lessons[0].position == 1
    && |s.lessons[0].blocks| == 1 && s.lessons[0].blocks[0].identity.New? && s.lessons[0].blocks[0].position == 1
  }

  lemma CompiledIsSingle(sections: seq<Compiler.SourceSection>, draft: seq<SectionInput>)
    requires IsCompiled(sections, draft)
    ensures 1 <= |draft| <= 100 && forall i :: 0 <= i < |draft| ==> IsSingle(draft[i]) && draft[i].position == i + 1
  {}

  lemma {:induction false} NewNodesKeepNothing(identities: seq<Identity>)
    requires forall x | x in identities :: x.New?
    ensures KeptIds(identities) == []
  {
    if identities != [] {
      var last := |identities| - 1;
      assert identities[last] in identities && forall x | x in identities[..last] :: x in identities;
      NewNodesKeepNothing(identities[..last]);
    }
  }

  lemma {:induction false} SinglesAreNew(draft: seq<SectionInput>)
    requires forall i :: 0 <= i < |draft| ==> IsSingle(draft[i])
    ensures forall x | x in LessonIdentities(draft) :: x.New?
    ensures forall x | x in BlockIdentities(draft) :: x.New?
  {
    if draft != [] {
      hide IsSingle, LessonIdentitiesIn, BlockIdentitiesOf;
      var last := |draft| - 1;
      SinglesAreNew(draft[..last]);
      SingleIsNew(draft[last]);
    }
  }

  lemma SingleIsNew(s: SectionInput)
    requires IsSingle(s)
    ensures LessonIdentitiesIn(s.lessons) == [New] && BlockIdentitiesOf(s.lessons) == [New]
  {
    var lessons := s.lessons;
    assert lessons[..0] == [] && BlockIdentitiesOf(lessons[..0]) == [];
    assert BlockIdentitiesIn(lessons[0].blocks) == [New];
  }

  /** `validate_replace_curriculum` accepts a compiled draft. */
  lemma CompiledIsReplacement(sections: seq<Compiler.SourceSection>, draft: seq<SectionInput>)
    requires IsCompiled(sections, draft)
    ensures IsReplacement(1, draft)
  {
    hide IsSectionInput, KeptIds, LessonIdentities, BlockIdentities;
    CompiledIsSingle(sections, draft);
    SinglesAreNew(draft);
    NewNodesKeepNothing(SectionIdentities(draft));
    NewNodesKeepNothing(LessonIdentities(draft));
    NewNodesKeepNothing(BlockIdentities(draft));
    forall i | 0 <= i < |draft| ensures IsSectionInput(draft[i]) { CompiledIsInput(sections, i); }
  }

  lemma CompiledIsInput(sections: seq<Compiler.SourceSection>, i: nat)
    requires IsValidSource(sections) && i < |sections|
    ensures IsSectionInput(CompiledSection(sections[i]))
  {
    hide IsDocument, Compiler.LessonDocument;
    CompiledSectionIsComplete(sections, i);
    var s := CompiledSection(sections[i]);
    assert s.lessons[0] in s.lessons && s.lessons[0].blocks[0] in s.lessons[0].blocks;
    assert IsCompleteLesson(s.lessons[0]);
  }

  lemma SingleOrder(key: int)
    ensures Order([key]) == [0]
  {
    hide Order, IsStableOrder;
    OrderOfAscending([key]);
  }

  lemma SortedSingle(s: SectionInput)
    requires IsSingle(s)
    ensures SortedSection(s) == s
  {
    hide Order, IsStableOrder;
    var l := s.lessons[0];
    SingleOrder(l.position);
    SingleOrder(l.blocks[0].position);
    assert LessonPositions(s.lessons) == [l.position] && BlockPositions(l.blocks) == [l.blocks[0].position];
    assert SortedBlocks(l.blocks) == l.blocks;
    assert SortedLesson(l) == l;
    assert SortedLessons(s.lessons) == s.lessons;
  }

  lemma SortedDraft(draft: seq<SectionInput>)
    requires forall i :: 0 <= i < |draft| ==> IsSingle(draft[i]) && draft[i].position == i + 1
    ensures SortedSections(draft) == draft
  {
    hide Order, IsStableOrder, IsSingle, SortedSection;
    OrderOfAscending(SectionPositions(draft));
    forall i | 0 <= i < |draft| ensures SortedSection(draft[i]) == draft[i] { SortedSingle(draft[i]); }
  }

  lemma SinglesArePreserved(t: Tables, v: Id, draft: seq<SectionInput>, naming: Naming)
    requires forall i :: 0 <= i < |draft| ==> IsSingle(draft[i])
    ensures AllPreserved(t, v, draft, naming)
  {}

  lemma SinglesAreSmall(draft: seq<SectionInput>)
    requires |draft| <= 100 && forall i :: 0 <= i < |draft| ==> IsSingle(draft[i]) && draft[i].position == i + 1
    ensures CommandWithin(POSITION_OFFSET, draft)
  {}

  lemma NewVersionHasNoRows(t: Tables, v: Id)
    requires VersionIsNew(t, v)
    ensures forall b: int :: StoredWithin(b, t.sections, v) && StoredWithin(b, t.lessons, v) && StoredWithin(b, t.blocks, v)
  {}

  /** A version without rows takes a compiled draft: the service accepts it, and the database refuses none of its writes. */
  lemma CompiledIsStored(t: Tables, v: Id, sections: seq<Compiler.SourceSection>, draft: seq<SectionInput>, f: Naming, g: Naming, scans: Scans)
    requires IsCompiled(sections, draft) && Integrity(t) && VersionIsNew(t, v)
    requires NamesAreFresh(t, f) && NamesAreFresh(t, g) && AreScans(t, v, scans)
    ensures DistinctPositions(draft) && KeptOnce(draft)
    ensures Materialized(TablesOf(t, v), v, draft, f) == Ok(SortSections(SectionsFor(TablesOf(t, v), v, draft, f)))
    ensures ShiftsClear(t, v, scans) && NodesPass(t, v, SortedSections(draft), g)
  {
    hide Integrity, NamesAreFresh, DistinctPositions, KeptOnce, Placeable, AllPreserved, NodesMatch, NodesPass, Materialized, ShiftsClear,
         SortedSections, SortSections, IsReplacement, IsScan, IsCompiled, VersionIsNew, CommandWithin, StoredWithin, TablesOf;
    CompiledIsSingle(sections, draft);
    CompiledIsReplacement(sections, draft);
    ValidCommandsFit(1, draft);
    SortedDraft(draft);
    SinglesArePreserved(TablesOf(t, v), v, draft, f);
    SinglesArePreserved(TablesOf(t, v), v, draft, g);
    PreservedIsAccepted(TablesOf(t, v), v, draft, f);
    AnnouncedTree(t, v, draft, f);
    PreservedIsAccepted(TablesOf(t, v), v, draft, g);
    ServiceAndRepositoryAgree(t, v, draft, g);
    AcceptedIsPlaceable(t, v, draft, g);
    SinglesAreSmall(draft);
    NewVersionHasNoRows(t, v);
    SmallPositionsNeverClash(t, v, draft, g, scans);
  }

  /** A tree section that holds exactly the lesson compiled from a source section. */
  predicate HoldsLesson(section: Section, s: Compiler.SourceSection) {
    var title := Compiler.Cut(s.title, Compiler.MAX_TITLE);
    && section.entry.row.position == s.position && section.entry.row.body == SectionBody(title) && |section.lessons| == 1
    && var lesson := section.lessons[0];
       && lesson.entry.row.position == 1 && lesson.entry.row.body == LessonBody(title, true) && |lesson.blocks| == 1
       && lesson.blocks[0].row.position == 1
       && lesson.blocks[0].row.body == BlockBody("rich_text", Compiler.LessonDocument(title, s.elements))
  }

  lemma OneSectionFor(t: Tables, v: Id, s: Compiler.SourceSection, names: SectionNames)
    ensures HoldsLesson(SectionFor(t, v, CompiledSection(s), names), s)
  {
    hide Compiler.LessonDocument, Order, IsStableOrder;
    var node := CompiledSection(s);
    var section := SectionFor(t, v, node, names);
    var lessons := LessonsFor(t, v, section.entry.id, node.lessons, names.lessons);
    assert Positions(LessonEntries(lessons)) == [1];
    SingleOrder(1);
    assert SortLessons(lessons) == lessons;
    var blocks := BlocksFor(t, v, lessons[0].entry.id, node.lessons[0].blocks, names.lessons(0).blocks);
    assert Positions(blocks) == [1];
    assert SortBlocks(blocks) == blocks;
  }

  /** The announced course: section i holds exactly the lesson of source section i. */
  lemma CompiledTree(t: Tables, v: Id, sections: seq<Compiler.SourceSection>, draft: seq<SectionInput>, naming: Naming)
    requires IsCompiled(sections, draft)
    ensures var tree := SortSections(SectionsFor(t, v, draft, naming));
      |tree| == |sections| && forall i :: 0 <= i < |sections| ==> HoldsLesson(tree[i], sections[i])
  {
    hide HoldsLesson, SectionFor, CompiledSection, Order, IsStableOrder;
    CompiledIsSingle(sections, draft);
    var tree := SectionsFor(t, v, draft, naming);
    SectionPositionsOf(t, v, draft, naming);
    SortIsIdentity(tree, SectionPositions(draft));
    forall i | 0 <= i < |sections| ensures HoldsLesson(tree[i], sections[i]) { OneSectionFor(t, v, sections[i], naming(i)); }
  }

  /** The stored tree equals the announced one up to the ids of its nodes, so it holds the same lessons. */
  lemma StoredTree(t: Tables, announced: seq<Section>, after: seq<Section>, sections: seq<Compiler.SourceSection>)
    requires SameTree(t, announced, after) && |announced| == |sections|
    requires forall i :: 0 <= i < |sections| ==> HoldsLesson(announced[i], sections[i])
    ensures |after| == |sections| && forall i :: 0 <= i < |sections| ==> HoldsLesson(after[i], sections[i])
  {
    hide Compiler.LessonDocument;
    forall i | 0 <= i < |sections| ensures HoldsLesson(after[i], sections[i]) {
      assert SameSection(t, announced[i], after[i]);
      assert SameLesson(t, announced[i].lessons[0], after[i].lessons[0]);
    }
  }

  /** The service accepts the draft, and the database refuses none of its writes. */
  ghost predicate IsAdmitted(t: Tables, v: Id, draft: seq<SectionInput>, f: Naming, g: Naming, scans: Scans)
    requires AreScans(t, v, scans)
  {
    Materialized(TablesOf(t, v), v, draft, f).Ok? && ShiftsClear(t, v, scans) && NodesPass(t, v, SortedSections(draft), g)
  }

  ghost predicate HoldLessons(tree: seq<Section>, sections: seq<Compiler.SourceSection>) {
    |tree| == |sections| && forall i :: 0 <= i < |sections| ==> HoldsLesson(tree[i], sections[i])
  }

  /** The rows that the replacement leaves for the version stand for a tree of exactly these lessons; other versions stay. */
  ghost predicate AreStored(t: Tables, v: Id, now: Tables, sections: seq<Compiler.SourceSection>) {
    && Integrity(now) && (forall other | other != v :: TablesOf(now, other) == TablesOf(t, other))
    && exists tree :: Represents(now, v, tree) && HoldLessons(tree, sections)
  }

  lemma CompiledRows(t: Tables, v: Id, sections: seq<Compiler.SourceSection>, draft: seq<SectionInput>, g: Naming)
    requires IsCompiled(sections, draft) && Integrity(t) && NamesAreFresh(t, g)
    ensures AreStored(t, v, Replaced(t, v, SortedSections(draft), g), sections)
  {
    hide Integrity, NamesAreFresh, DistinctPositions, KeptOnce, Placeable, AllPreserved, NodesMatch, Materialized, Replaced, Represents,
         SortedSections, SortSections, SectionsFor, IsReplacement, IsCompiled, TablesOf, HoldsLesson;
    CompiledIsSingle(sections, draft);
    CompiledIsReplacement(sections, draft);
    ValidCommandsFit(1, draft);
    SortedDraft(draft);
    SinglesArePreserved(TablesOf(t, v), v, draft, g);
    PreservedIsAccepted(TablesOf(t, v), v, draft, g);
    ServiceAndRepositoryAgree(t, v, draft, g);
    AcceptedIsPlaceable(t, v, draft, g);
    ReplacedRepresents(t, v, draft, g);
    ReplacedKeepsIntegrity(t, v, draft, g);
    CompiledTree(TablesOf(t, v), v, sections, draft, g);
    assert HoldLessons(SortSections(SectionsFor(TablesOf(t, v), v, draft, g)), sections);
  }
}

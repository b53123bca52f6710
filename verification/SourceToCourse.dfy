/** From page text to the course draft: what normalization produces is what the compiler accepts. */
module SourceToCourse {
  import opened Prelude
  import opened PythonText
  import opened CanonicalJson
  import opened CourseTree
  import opened StableIds
  import opened Extraction
  import opened PageNormalization
  import Compiler = CourseCompiler
  import opened CompilerCorrectness
  import opened DraftCorrectness
  import opened DocumentReading
  import opened TextConservation
  import opened GenerationEvidence
  import Repository = CourseRepository
  import opened SuccessorDraft
  import RoundTrip = CurriculumRoundTrip
  import Service = CurriculumService
  import Storage = DraftStorage

  function ElementsOf(elements: seq<NormalizedElement>): (es: seq<Compiler.Element>)
    ensures |es| == |elements| && forall k :: 0 <= k < |es| ==> es[k] == elements[k].element
  {
    seq(|elements|, k requires 0 <= k < |elements| => elements[k].element)
  }

  /** A normalized section as the generator loads it. */
  function Loaded(s: NormalizedSection): Compiler.SourceSection {
    Compiler.SourceSection(s.id, s.position, s.title, ElementsOf(s.elements))
  }

  function LoadedAll(sections: seq<NormalizedSection>): (r: seq<Compiler.SourceSection>)
    ensures |r| == |sections| && forall i :: 0 <= i < |r| ==> r[i] == Loaded(sections[i])
  {
    seq(|sections|, i requires 0 <= i < |sections| => Loaded(sections[i]))
  }

  /** The limits that the generator adds to those of the normalization. */
  predicate IsWithinLimits(s: NormalizedSection) {
    |s.elements| <= 499 && forall e | e in s.elements :: |e.element.text| <= 10_000
  }

  /** The sections of a normalized source, page by page. */
  ghost predicate AreSectionsOf(u: Uuids, sha: string -> string, o: Origin, pages: seq<Page>, sections: seq<NormalizedSection>) {
    |sections| == |pages| && forall i :: 0 <= i < |pages| ==> IsSectionOf(u, sha, o, pages[i], i + 1, sections[i])
  }

  /** The element texts of a section, joined by spaces, are all the words of its page in order, and none is blank. */
  lemma PageTextIsConserved(u: Uuids, sha: string -> string, o: Origin, page: Page, position: nat, s: NormalizedSection)
    requires IsSectionOf(u, sha, o, page, position, s)
    ensures ElementsOf(s.elements) != [] && forall e | e in ElementsOf(s.elements) :: !IsBlank(e.text)
    ensures Join(" ", Texts(ElementsOf(s.elements))) == Join(" ", Words(NormalizedLines(page.text)))
  {
    hide NormalizedLines, Join, Words, IsBlank, AreElements, HasText;
    var lines := NormalizedLines(page.text);
    var elements :| AreElements(lines, elements) && s.elements == Placed(u, sha, o, page.number, elements)
      && elements != [] && Join(" ", Texts(elements)) == Join(" ", Words(lines));
    assert ElementsOf(s.elements) == elements;
    ElementsAreNotBlank(lines, elements);
  }

  lemma TitleIsUsable(lines: seq<string>, page: nat)
    requires HasText(lines)
    ensures !IsBlank(Compiler.Cut(TitleOf(lines, page), Compiler.MAX_TITLE))
  {
    hide HasText, FirstText;
    var title := TitleOf(lines, page);
    var cut := Compiler.Cut(title, Compiler.MAX_TITLE);
    if HeadingOf(lines).Some? && HeadingOf(lines).value != "" {
      StrippedIsNotBlank(lines[FirstText(lines)]);
      assert cut == title;
    } else {
      assert cut[0] == 'P' && cut[0] in cut && !IsSpace('P');
    }
  }

  lemma LoadedSectionIsValid(u: Uuids, sha: string -> string, o: Origin, page: Page, position: nat, section: NormalizedSection)
    requires IsSectionOf(u, sha, o, page, position, section) && IsWithinLimits(section)
    ensures 1 <= |section.elements| <= 499 && Compiler.HasUsableTexts(ElementsOf(section.elements))
    ensures !IsBlank(Compiler.Cut(section.title, Compiler.MAX_TITLE))
  {
    hide NormalizedLines, Join, Words, IsBlank, AreElements, HasText, StableId, TitleOf;
    PageTextIsConserved(u, sha, o, page, position, section);
    TitleIsUsable(NormalizedLines(page.text), page.number);
    var elements := ElementsOf(section.elements);
    forall e | e in elements ensures Compiler.IsUsableText(e.text) {
      var k :| 0 <= k < |elements| && elements[k] == e;
      assert section.elements[k] in section.elements;
    }
  }

  /** Every normalized source within the generator's limits is a valid source, so it compiles. */
  lemma NormalizedSourcesAreValid(u: Uuids, sha: string -> string, o: Origin, pages: seq<Page>, sections: seq<NormalizedSection>)
    requires AreIdeal(u) && 1 <= |pages| <= 100 && AreSectionsOf(u, sha, o, pages, sections)
    requires forall s | s in sections :: IsWithinLimits(s)
    ensures IsValidSource(LoadedAll(sections))
  {
    hide NormalizedLines, Join, Words, IsBlank, AreElements, HasText, AreIdeal, StableId, TitleOf;
    var loaded := LoadedAll(sections);
    forall i, j | 0 <= i < j < |loaded| ensures loaded[i].id != loaded[j].id {
      SectionIdsDiffer(u, sha, o, i + 1, j + 1, sections[i].title, sections[j].title);
    }
    forall s | s in loaded
      ensures 1 <= |s.elements| <= 499 && Compiler.HasUsableTexts(s.elements) && !IsBlank(Compiler.Cut(s.title, Compiler.MAX_TITLE))
    {
      var i :| 0 <= i < |loaded| && loaded[i] == s;
      assert sections[i] in sections;
      LoadedSectionIsValid(u, sha, o, pages[i], i + 1, sections[i]);
    }
  }

  /** The first line of a page that is not blank. */
  function FirstLineOf(page: Page): string {
    var lines := NormalizedLines(page.text);
    if HasText(lines) then Strip(lines[FirstText(lines)]) else ""
  }

  /** The heading rule: a first line of at most 120 characters is the page's title and its only heading; otherwise the page is titled
      by its number and has paragraphs only. */
  lemma HeadingRule(u: Uuids, sha: string -> string, o: Origin, page: Page, position: nat, s: NormalizedSection)
    requires IsSectionOf(u, sha, o, page, position, s)
    ensures FirstLineOf(page) != "" && s.elements != []
    ensures s.title == if |FirstLineOf(page)| <= 120 then FirstLineOf(page) else "Page " + Decimal(page.number)
    ensures forall k :: 0 <= k < |s.elements| ==>
      (s.elements[k].element.kind == Compiler.HeadingElement <==> k == 0 && |FirstLineOf(page)| <= 120)
    ensures |FirstLineOf(page)| <= 120 ==> s.elements[0].element.text == FirstLineOf(page)
  {
    hide NormalizedLines, Join, Words, IsBlank, FirstText, BodyLines, AreRuns, RunText;
    var lines := NormalizedLines(page.text);
    var elements :| AreElements(lines, elements) && s.elements == Placed(u, sha, o, page.number, elements) && elements != []
      && Join(" ", Texts(elements)) == Join(" ", Words(lines));
    var first := if HeadingOf(lines).Some? then 1 else 0;
    var runs: seq<Span> :| AreRuns(BodyLines(lines), runs) && AreParagraphs(BodyLines(lines), runs, elements[first..]);
    assert forall k :: first <= k < |elements| ==> elements[k] == elements[first..][k - first];
  }

  /** A stored section that holds one page: a required lesson of one rich-text block, both at position 1, under the title of the page,
      whose document reads as that title and then the page's elements, each with its kind and text; the texts below the title,
      joined by spaces, are the words of the page, and its characters but for white space are those of the page, in order. */
  ghost predicate HoldsPage(section: Section, page: Page, position: int, s: NormalizedSection) {
    var title := if |s.title| <= 160 then s.title else s.title[..160];
    && section.entry.row.position == position && section.entry.row.body.title == title && |section.lessons| == 1
    && var lesson := section.lessons[0];
       && lesson.entry.row.position == 1 && lesson.entry.row.body.title == title && lesson.entry.row.body.isRequired
       && |lesson.blocks| == 1 && lesson.blocks[0].row.position == 1 && lesson.blocks[0].row.body.kind == "rich_text"
       && var document := lesson.blocks[0].row.body.document;
          && ReadsAs(document, title, ElementsOf(s.elements))
          && Join(" ", TextsBelowTitle(document)) == Join(" ", Words(NormalizedLines(page.text)))
          && Ink(Join(" ", TextsBelowTitle(document))) == Ink(page.text)
  }

  /** The rows of the version stand for a tree whose section i holds page i. */
  ghost predicate HoldPages(now: Tables, v: Id, pages: seq<Page>, sections: seq<NormalizedSection>)
    requires |sections| == |pages|
  {
    exists tree ::
      Represents(now, v, tree) && |tree| == |pages| && forall i :: 0 <= i < |pages| ==> HoldsPage(tree[i], pages[i], i + 1, sections[i])
  }

  lemma TextsReadBack(document: Json, title: string, elements: seq<Compiler.Element>)
    requires ReadsAs(document, title, elements)
    ensures TextsBelowTitle(document) == Texts(elements)
  {
    assert forall k :: 0 <= k < |elements| ==> TextsBelowTitle(document)[k] == elements[k].text;
  }

  lemma LessonHoldsPage(u: Uuids, sha: string -> string, o: Origin, page: Page, position: nat, s: NormalizedSection, section: Section)
    requires IsSectionOf(u, sha, o, page, position, s) && Storage.HoldsLesson(section, Loaded(s))
    ensures HoldsPage(section, page, position, s)
  {
    hide NormalizedLines, Join, Words, Ink, ReadsAs, Compiler.LessonDocument, AreElements, HasText;
    PageTextIsConserved(u, sha, o, page, position, s);
    WordsHaveThePagesInk(page.text);
    var title := Compiler.Cut(s.title, Compiler.MAX_TITLE);
    LessonDocumentReads(title, ElementsOf(s.elements));
    TextsReadBack(Compiler.LessonDocument(title, ElementsOf(s.elements)), title, ElementsOf(s.elements));
  }

  lemma RowsHoldPages(u: Uuids, sha: string -> string, o: Origin, pages: seq<Page>, sections: seq<NormalizedSection>,
                      t: Tables, v: Id, now: Tables)
    requires AreSectionsOf(u, sha, o, pages, sections) && Storage.AreStored(t, v, now, LoadedAll(sections))
    ensures HoldPages(now, v, pages, sections)
  {
    hide HoldsPage, Storage.HoldsLesson, Represents, IsSectionOf, Repository.Integrity;
    var tree :| Represents(now, v, tree) && Storage.HoldLessons(tree, LoadedAll(sections));
    forall i | 0 <= i < |pages| ensures HoldsPage(tree[i], pages[i], i + 1, sections[i]) {
      LessonHoldsPage(u, sha, o, pages[i], i + 1, sections[i], tree[i]);
    }
  }

  lemma DraftIsStored(t: Tables, v: Id, f: Service.Naming, g: Service.Naming, scans: Repository.Scans,
                      loaded: seq<Compiler.SourceSection>, draft: seq<SectionInput>)
    requires IsValidSource(loaded) && DraftsFrom(loaded, Ok(draft))
    requires Repository.Integrity(t) && VersionIsNew(t, v) && Repository.AreScans(t, v, scans)
    requires RoundTrip.NamesAreFresh(t, f) && RoundTrip.NamesAreFresh(t, g)
    ensures Storage.IsAdmitted(t, v, draft, f, g, scans)
    ensures Storage.AreStored(t, v, Repository.Replaced(t, v, RoundTrip.SortedSections(draft), g), loaded)
  {
    hide IsValidSource, Repository.Integrity, VersionIsNew, RoundTrip.NamesAreFresh, Repository.Replaced, Storage.AreStored, CompiledSection,
         RoundTrip.SortedSections, Service.SectionsFor, Service.Materialized, Repository.ShiftsClear, Repository.NodesPass, SortSections;
    Storage.CompiledIsStored(t, v, loaded, draft, f, g, scans);
    Storage.CompiledRows(t, v, loaded, draft, g);
  }

  /** From the pages to the stored course: the normalized sections are planned, stored as evidence, generated, stored, canonicalized
      and stored as the curriculum of the new version. No check fails and no insert or update is refused, and section i of the stored
      course holds page i. */
  lemma PagesReachTheStoredCourse(u: Uuids, sha: string -> string, digest: Json -> string, o: Origin, pages: seq<Page>,
                                  sections: seq<NormalizedSection>, rows: Rows, run: Id, sourceTitle: string, read: Reads,
                                  t: Tables, v: Id, f: Service.Naming, g: Service.Naming, scans: Repository.Scans)
    requires AreIdeal(u) && 1 <= |pages| <= 100 && AreSectionsOf(u, sha, o, pages, sections)
    requires forall s | s in sections :: IsWithinLimits(s)
    requires !IsBlank(Compiler.Cut(Strip(sourceTitle), Compiler.MAX_TITLE))
    requires AreDerived(u, rows) && HasNoPlan(rows, run) && HasNoLessons(rows, run)
    requires Repository.Integrity(t) && VersionIsNew(t, v) && Repository.AreScans(t, v, scans)
    requires RoundTrip.NamesAreFresh(t, f) && RoundTrip.NamesAreFresh(t, g)
    ensures var loaded := LoadedAll(sections);
      var plan := Compiler.Planned(u, run, sourceTitle, loaded);
      && plan.Ok? && Compiler.BlueprintError(u, run, plan.value, loaded).None? && PlanFits(rows, u, run, plan.value.items)
      && var planned := WithPlan(rows, u, run, plan.value.items);
         ReadsBlueprint(planned, run, read) ==>
           var blueprint := plan.value.(items := read.blueprint);
           var lessons := Compiler.Generated(u, digest, run, blueprint, loaded);
           && lessons.Ok? && Compiler.LessonsError(u, digest, blueprint, lessons.value, loaded).None?
           && LessonsFit(planned, u, run, lessons.value)
           && (ReadsDraft(WithLessons(planned, u, run, lessons.value), run, read) ==>
                 var draft := Compiler.Canonicalized(read.modules, read.lessonItems, read.artifacts, read.edges);
                 && draft.Ok? && Storage.IsAdmitted(t, v, draft.value, f, g, scans)
                 && var now := Repository.Replaced(t, v, RoundTrip.SortedSections(draft.value), g);
                    Storage.AreStored(t, v, now, loaded) && HoldPages(now, v, pages, sections))
  {
    hide AreIdeal, AreSectionsOf, IsValidSource, IsBlank, Compiler.Planned, Compiler.Generated, Compiler.Canonicalized, Compiler.BlueprintError,
         Compiler.LessonsError, PlanFits, WithPlan, WithLessons, LessonsFit, ReadsBlueprint, ReadsDraft, AreDerived, HasNoPlan, HasNoLessons,
         Repository.Integrity, VersionIsNew, RoundTrip.NamesAreFresh, Repository.AreScans, Repository.Replaced,
         RoundTrip.SortedSections, Storage.IsAdmitted, Storage.AreStored, HoldPages, IsWithinLimits, Strip;
    var loaded := LoadedAll(sections);
    NormalizedSourcesAreValid(u, sha, o, pages, sections);
    EvidenceCompiles(u, digest, rows, run, sourceTitle, loaded, read);
    var plan := Compiler.Planned(u, run, sourceTitle, loaded).value;
    var planned := WithPlan(rows, u, run, plan.items);
    if ReadsBlueprint(planned, run, read) {
      var lessons := Compiler.Generated(u, digest, run, plan.(items := read.blueprint), loaded).value;
      if ReadsDraft(WithLessons(planned, u, run, lessons), run, read) {
        var draft := Compiler.Canonicalized(read.modules, read.lessonItems, read.artifacts, read.edges);
        DraftIsStored(t, v, f, g, scans, loaded, draft.value);
        RowsHoldPages(u, sha, o, pages, sections, t, v, Repository.Replaced(t, v, RoundTrip.SortedSections(draft.value), g));
      }
    }
  }
}

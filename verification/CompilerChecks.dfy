/** What the checks of the compiler let through, on any input: the stored blueprint, the generated lessons, the rows of a draft. */
module CompilerChecks {
  import opened Prelude
  import opened PythonText
  import opened CanonicalJson
  import opened RichText
  import opened CourseTree
  import opened StableIds
  import opened CourseCompiler
  import opened CompilerCorrectness
  import opened DraftCorrectness

  /* ---------- counting ---------- */

  /** As many different elements as places means that no element repeats. */
  lemma {:induction false} SizeMeansDistinct<T>(xs: seq<T>)
    ensures |Elements(xs)| <= |xs|
    ensures |Elements(xs)| == |xs| <==> Distinct(xs)
  {
    if xs != [] {
      var last := |xs| - 1;
      SizeMeansDistinct(xs[..last]);
      assert xs == xs[..last] + [xs[last]];
      assert Elements(xs) == Elements(xs[..last]) + {xs[last]};
      if xs[last] in xs[..last] {
        assert Elements(xs) == Elements(xs[..last]);
        var i :| 0 <= i < last && xs[i] == xs[last];
        assert !Distinct(xs);
      } else {
        if Distinct(xs[..last]) {
          assert Distinct(xs) by { assert forall i :: 0 <= i < last ==> xs[i] == xs[..last][i]; }
        }
        if Distinct(xs) { assert Distinct(xs[..last]); }
      }
    }
  }

  function SectionsOf(items: seq<Item>): (r: seq<Id>)
    ensures |r| == |items| && forall i :: 0 <= i < |r| ==> r[i] == items[i].sourceSection
  {
    seq<Id>(|items|, i requires 0 <= i < |items| => items[i].sourceSection)
  }

  function IdsOfSections(sections: seq<SourceSection>): (r: seq<Id>)
    ensures |r| == |sections| && forall i :: 0 <= i < |r| ==> r[i] == sections[i].id
  {
    seq<Id>(|sections|, i requires 0 <= i < |sections| => sections[i].id)
  }

  function ItemsOfLessons(lessons: seq<GeneratedLesson>): (r: seq<Id>)
    ensures |r| == |lessons| && forall i :: 0 <= i < |r| ==> r[i] == lessons[i].item
  {
    seq<Id>(|lessons|, i requires 0 <= i < |lessons| => lessons[i].item)
  }

  /** A set of one field of the elements of a list, however it is written. */
  lemma FieldSet<T>(xs: seq<T>, field: T -> Id, ids: seq<Id>)
    requires |ids| == |xs| && forall i :: 0 <= i < |xs| ==> ids[i] == field(xs[i])
    ensures forall x :: x in Elements(ids) <==> exists y :: y in xs && field(y) == x
  {
    forall x ensures x in Elements(ids) <==> exists y :: y in xs && field(y) == x {
      if x in Elements(ids) {
        var i :| 0 <= i < |ids| && ids[i] == x;
        assert xs[i] in xs && field(xs[i]) == x;
      }
      if y :| y in xs && field(y) == x {
        var i :| 0 <= i < |xs| && xs[i] == y;
        assert ids[i] == x;
      }
    }
  }

  lemma ItemIdsAre(items: seq<Item>)
    ensures ItemIds(items) == Elements(IdsOf(items))
  {
    FieldSet(items, (x: Item) => x.id, IdsOf(items));
  }

  lemma ItemSectionsAre(items: seq<Item>)
    ensures (set item | item in items :: item.sourceSection) == Elements(SectionsOf(items))
  {
    FieldSet(items, (x: Item) => x.sourceSection, SectionsOf(items));
  }

  lemma SectionIdsAre(sections: seq<SourceSection>)
    ensures SectionIds(sections) == Elements(IdsOfSections(sections))
  {
    FieldSet(sections, (x: SourceSection) => x.id, IdsOfSections(sections));
  }

  lemma LessonItemsAre(lessons: seq<GeneratedLesson>)
    ensures LessonItemIds(lessons) == Elements(ItemsOfLessons(lessons))
  {
    FieldSet(lessons, (x: GeneratedLesson) => x.item, ItemsOfLessons(lessons));
  }

  lemma ItemIdsCount(items: seq<Item>)
    ensures |ItemIds(items)| == |items| <==> HasDistinctIds(items)
  {
    hide ItemIds;
    ItemIdsAre(items);
    SizeMeansDistinct(IdsOf(items));
    assert Distinct(IdsOf(items)) <==> HasDistinctIds(items) by {
      assert forall i :: 0 <= i < |items| ==> IdsOf(items)[i] == items[i].id;
      if HasDistinctIds(items) { assert Distinct(IdsOf(items)); }
      if Distinct(IdsOf(items)) {
        forall i, j | 0 <= i < j < |items| ensures items[i].id != items[j].id { assert IdsOf(items)[i] != IdsOf(items)[j]; }
      }
    }
  }

  lemma {:induction false} KindsPartition(items: seq<Item>)
    ensures |ItemsOf(items, ModuleItem)| + |ItemsOf(items, LessonItem)| == |items|
  {
    if items != [] { KindsPartition(items[..|items| - 1]); }
  }

  lemma {:induction false} ByIdIsListed(items: seq<Item>, id: Id)
    ensures ById(items, id).Some? <==> exists x | x in items :: x.id == id
    ensures ById(items, id).Some? ==> ById(items, id).value in items && ById(items, id).value.id == id
  {
    if items != [] {
      var last := |items| - 1;
      ByIdIsListed(items[..last], id);
      assert items == items[..last] + [items[last]];
    }
  }

  lemma ByIdIsThe(items: seq<Item>, x: Item)
    requires HasDistinctIds(items) && x in items
    ensures ById(items, x.id) == Some(x)
  {
    forall y | y in items && y.id == x.id ensures y == x {
      var i :| 0 <= i < |items| && items[i] == x;
      var j :| 0 <= j < |items| && items[j] == y;
    }
    ByIdFinds(items, x);
  }

  /* ---------- the plan ---------- */

  function First160(s: string): string {
    if |s| <= 160 then s else s[..160]
  }

  /** The module of a section at its position, and the module's one lesson, both under the first 160 characters of the title. */
  predicate ArePlannedFor(u: Uuids, run: Id, s: SourceSection, m: Item, l: Item) {
    && m == Item(ModuleId(u, run, s.id), ModuleItem, None, s.position, First160(s.title), s.id)
    && l == Item(LessonId(u, run, s.id), LessonItem, Some(ModuleId(u, run, s.id)), 1, First160(s.title), s.id)
  }

  lemma {:induction false} PlannedPairs(u: Uuids, run: Id, sections: seq<SourceSection>)
    ensures var items := PlannedItems(u, run, sections);
      |items| == 2 * |sections| && forall i :: 0 <= i < |sections| ==> ArePlannedFor(u, run, sections[i], items[2 * i], items[2 * i + 1])
  {
    hide ArePlannedFor, ModuleOf, LessonOf;
    if sections != [] {
      var last := |sections| - 1;
      PlannedPairs(u, run, sections[..last]);
      LastPair(u, run, sections[last]);
    }
  }

  lemma LastPair(u: Uuids, run: Id, s: SourceSection)
    ensures ArePlannedFor(u, run, s, ModuleOf(u, run, s), LessonOf(u, run, s))
  {}

  /** The planner refuses exactly an empty or too long list, a wrong numbering and a blank title; otherwise it plans the two items of
      each section in turn. */
  lemma PlanIs(u: Uuids, run: Id, sourceTitle: string, sections: seq<SourceSection>)
    ensures var plan := Planned(u, run, sourceTitle, sections);
      && (plan.Err? <==> |sections| == 0 || |sections| > 100 || IsBlank(sourceTitle)
                         || exists i :: 0 <= i < |sections| && sections[i].position != i + 1)
      && (plan.Err? ==> plan.error == SourceInvalid)
      && (plan.Ok? ==>
            && plan.value.title == First160(Strip(sourceTitle)) && |plan.value.items| == 2 * |sections|
            && forall i :: 0 <= i < |sections| ==> ArePlannedFor(u, run, sections[i], plan.value.items[2 * i], plan.value.items[2 * i + 1]))
  {
    hide Strip, PlannedItems, ArePlannedFor, IsBlank;
    PlannedPairs(u, run, sections);
  }

  /* ---------- the stored blueprint ---------- */

  /** The lesson names one of the modules as its parent, and their section is one. */
  ghost predicate IsUnder(l: Item, modules: seq<Item>) {
    exists m :: m in modules && l.parent == Some(m.id) && l.sourceSection == m.sourceSection
  }

  /** Modules under different ids whose sections are those of the source, and as many lessons, each under a module of its section. */
  ghost predicate IsSoundBlueprint(u: Uuids, run: Id, b: Blueprint, sections: seq<SourceSection>) {
    var modules, lessons := ItemsOf(b.items, ModuleItem), ItemsOf(b.items, LessonItem);
    && b.id == BlueprintId(u, run) && !IsBlank(b.title)
    && |modules| == |lessons| == |sections| && HasDistinctIds(modules)
    && Elements(SectionsOf(modules)) == Elements(IdsOfSections(sections))
    && forall l | l in lessons :: IsUnder(l, modules)
  }

  lemma ParentIsChecked(l: Item, modules: seq<Item>)
    requires HasDistinctIds(modules)
    ensures IsUnder(l, modules) <==>
      l.parent.Some? && ById(modules, l.parent.value).Some? && ById(modules, l.parent.value).value.sourceSection == l.sourceSection
  {
    if l.parent.Some? { ByIdIsListed(modules, l.parent.value); }
    if IsUnder(l, modules) {
      var m :| m in modules && l.parent == Some(m.id) && l.sourceSection == m.sourceSection;
      ByIdIsThe(modules, m);
    }
  }

  /** Lessons add no section to those of their modules. */
  lemma LessonsAddNoSection(items: seq<Item>, modules: seq<Item>, lessons: seq<Item>)
    requires forall x :: x in items <==> x in modules || x in lessons
    requires forall l | l in lessons :: IsUnder(l, modules)
    ensures Elements(SectionsOf(items)) == Elements(SectionsOf(modules))
  {
    hide IsUnder;
    var section := (x: Item) => x.sourceSection;
    FieldSet(items, section, SectionsOf(items));
    FieldSet(modules, section, SectionsOf(modules));
    forall x ensures x in Elements(SectionsOf(items)) <==> x in Elements(SectionsOf(modules)) {
      if x in Elements(SectionsOf(items)) {
        var item :| item in items && section(item) == x;
        if item in lessons { SectionOfParent(item, modules, x); } else { assert item in modules; }
      }
      if x in Elements(SectionsOf(modules)) {
        var m :| m in modules && section(m) == x;
        assert m in items;
      }
    }
  }

  lemma SectionOfParent(l: Item, modules: seq<Item>, x: Id)
    requires IsUnder(l, modules) && l.sourceSection == x
    ensures x in Elements(SectionsOf(modules))
  {
    var m :| m in modules && l.parent == Some(m.id) && l.sourceSection == m.sourceSection;
    var i :| 0 <= i < |modules| && modules[i] == m;
    assert SectionsOf(modules)[i] == x;
  }

  lemma ItemsAreSplit(items: seq<Item>)
    ensures forall x :: x in items <==> x in ItemsOf(items, ModuleItem) || x in ItemsOf(items, LessonItem)
  {
    hide ItemsOf;
    forall x ensures x in items <==> x in ItemsOf(items, ModuleItem) || x in ItemsOf(items, LessonItem) {
      ItemsOfHolds(items, ModuleItem, x);
      ItemsOfHolds(items, LessonItem, x);
    }
  }

  /** `_validate_blueprint` accepts exactly these. */
  lemma BlueprintIsChecked(u: Uuids, run: Id, b: Blueprint, sections: seq<SourceSection>)
    ensures BlueprintError(u, run, b, sections).None? <==> IsSoundBlueprint(u, run, b, sections)
  {
    hide ItemsOf, BlueprintId, IsBlank, ItemIds, ById, SectionIds, IsUnder, Elements;
    var modules, lessons := ItemsOf(b.items, ModuleItem), ItemsOf(b.items, LessonItem);
    KindsPartition(b.items);
    ItemIdsCount(modules);
    ItemSectionsAre(b.items);
    SectionIdsAre(sections);
    ItemsAreSplit(b.items);
    if HasDistinctIds(modules) {
      forall l | l in lessons
        ensures IsUnder(l, modules) <==>
          l.parent.Some? && ById(modules, l.parent.value).Some? && ById(modules, l.parent.value).value.sourceSection == l.sourceSection
      {
        ParentIsChecked(l, modules);
      }
    }
    if forall l | l in lessons :: IsUnder(l, modules) { LessonsAddNoSection(b.items, modules, lessons); }
  }

  /** So, with different section ids, no two modules of an accepted blueprint are of one section. */
  lemma OneModulePerSection(u: Uuids, run: Id, b: Blueprint, sections: seq<SourceSection>)
    requires Distinct(IdsOfSections(sections)) && BlueprintError(u, run, b, sections).None?
    ensures Distinct(SectionsOf(ItemsOf(b.items, ModuleItem)))
  {
    hide ItemsOf, BlueprintId, IsBlank, BlueprintError, Elements, Distinct;
    BlueprintIsChecked(u, run, b, sections);
    SizeMeansDistinct(SectionsOf(ItemsOf(b.items, ModuleItem)));
    SizeMeansDistinct(IdsOfSections(sections));
  }

  const TWO_SECTIONS := [SourceSection(1, 1, "A", []), SourceSection(2, 2, "B", [])]
  const TWO_MODULES := [Item(3, ModuleItem, None, 1, "A", 1), Item(4, ModuleItem, None, 2, "B", 2)]
  const TWO_LESSONS := [Item(5, LessonItem, Some(3), 1, "A", 1), Item(6, LessonItem, Some(3), 2, "A", 1)]

  /** Lessons are not held to the same: two of them under one module, and none under another, pass; no rows of lessons and edges can
      then be canonicalized. */
  lemma DoubledLessonsPass(u: Uuids, run: Id)
    ensures BlueprintError(u, run, Blueprint(BlueprintId(u, run), "T", TWO_MODULES + TWO_LESSONS), TWO_SECTIONS).None?
    ensures forall artifacts, edges :: Canonicalized(TWO_MODULES, TWO_LESSONS, artifacts, edges) == Err(ProvenanceInvalid)
  {
    hide BlueprintId, BlueprintError, ItemsOf;
    FourItems(TWO_MODULES[0], TWO_MODULES[1], TWO_LESSONS[0], TWO_LESSONS[1]);
    assert TWO_MODULES + TWO_LESSONS == [TWO_MODULES[0], TWO_MODULES[1], TWO_LESSONS[0], TWO_LESSONS[1]];
    assert 'T' in "T" && !IsSpace('T');
    assert TWO_MODULES[0] in TWO_MODULES;
    assert IsUnder(TWO_LESSONS[0], TWO_MODULES) && IsUnder(TWO_LESSONS[1], TWO_MODULES);
    assert SectionsOf(TWO_MODULES) == IdsOfSections(TWO_SECTIONS);
    BlueprintIsChecked(u, run, Blueprint(BlueprintId(u, run), "T", TWO_MODULES + TWO_LESSONS), TWO_SECTIONS);
    assert TWO_LESSONS[..1] == [TWO_LESSONS[0]] && [TWO_LESSONS[0]][..0] == [];
    assert LessonsByParent([TWO_LESSONS[0]]) == Some(map[3 := TWO_LESSONS[0]]);
  }

  lemma FourItems(a: Item, b: Item, c: Item, d: Item)
    requires a.kind == b.kind == ModuleItem && c.kind == d.kind == LessonItem
    ensures ItemsOf([a, b, c, d], ModuleItem) == [a, b] && ItemsOf([a, b, c, d], LessonItem) == [c, d]
  {
    var items := [a, b, c, d];
    assert items[..3] == [a, b, c] && items[..3][..2] == [a, b] && [a, b][..1] == [a] && [a][..0] == [];
    assert ItemsOf([a], ModuleItem) == [a] && ItemsOf([a], LessonItem) == [];
    assert ItemsOf([a, b], ModuleItem) == [a, b] && ItemsOf([a, b], LessonItem) == [];
    assert ItemsOf([a, b, c], ModuleItem) == [a, b] && ItemsOf([a, b, c], LessonItem) == [c];
  }

  /* ---------- the generated lessons ---------- */

  ghost predicate IsOfItem(l: GeneratedLesson, expected: seq<Item>) {
    exists item :: item in expected && item.id == l.item && item.sourceSection == l.sourceSection
  }

  /** A lesson from its item's section, which is one of the source, with the hash of what it says and a document of the grammar. */
  ghost predicate IsSoundLesson(u: Uuids, digest: Json -> string, expected: seq<Item>, sections: seq<SourceSection>, l: GeneratedLesson) {
    && IsOfItem(l, expected) && l.sourceSection in IdsOfSections(sections)
    && l.contentHash == digest(Obj(map["schema_version" := Str("course-draft.v1"), "id" := Str(u.show(l.id)),
                                       "blueprint_lesson_item_id" := Str(u.show(l.item)), "source_section_id" := Str(u.show(l.sourceSection)),
                                       "title" := Str(l.title), "document" := l.document]))
    && IsDocument(l.document)
  }

  /** One sound lesson for each lesson item. */
  ghost predicate AreSoundLessons(u: Uuids, digest: Json -> string, b: Blueprint, lessons: seq<GeneratedLesson>, sections: seq<SourceSection>) {
    var expected := ItemsOf(b.items, LessonItem);
    && Distinct(ItemsOfLessons(lessons)) && Elements(ItemsOfLessons(lessons)) == Elements(IdsOf(expected))
    && forall l | l in lessons :: IsSoundLesson(u, digest, expected, sections, l)
  }

  lemma {:induction false} NoFirstProblem(u: Uuids, digest: Json -> string, expected: seq<Item>, sections: seq<SourceSection>,
                                          lessons: seq<GeneratedLesson>)
    ensures FirstProblem(u, digest, expected, sections, lessons).None?
      <==> forall l | l in lessons :: LessonProblem(u, digest, expected, sections, l).None?
  {
    hide LessonProblem;
    if lessons != [] {
      var last := |lessons| - 1;
      NoFirstProblem(u, digest, expected, sections, lessons[..last]);
      assert lessons == lessons[..last] + [lessons[last]];
    }
  }

  lemma LessonIsChecked(u: Uuids, digest: Json -> string, expected: seq<Item>, sections: seq<SourceSection>, l: GeneratedLesson)
    requires HasDistinctIds(expected)
    ensures LessonProblem(u, digest, expected, sections, l).None? <==> IsSoundLesson(u, digest, expected, sections, l)
  {
    hide IsDocument, SectionIds;
    SectionIdsAre(sections);
    ByIdIsListed(expected, l.item);
    if IsOfItem(l, expected) {
      var item :| item in expected && item.id == l.item && item.sourceSection == l.sourceSection;
      ByIdIsThe(expected, item);
    }
  }

  /** `_validate_lessons` accepts exactly these, for a blueprint whose lesson items have different ids, as stored ones have. */
  lemma LessonsAreChecked(u: Uuids, digest: Json -> string, b: Blueprint, lessons: seq<GeneratedLesson>, sections: seq<SourceSection>)
    requires HasDistinctIds(ItemsOf(b.items, LessonItem))
    ensures LessonsError(u, digest, b, lessons, sections).None? <==> AreSoundLessons(u, digest, b, lessons, sections)
  {
    hide IsSoundLesson, LessonProblem, ItemsOf, FirstProblem, ItemIds, LessonItemIds, Distinct, Elements;
    var expected := ItemsOf(b.items, LessonItem);
    LessonItemsAre(lessons);
    ItemIdsAre(expected);
    SizeMeansDistinct(ItemsOfLessons(lessons));
    NoFirstProblem(u, digest, expected, sections, lessons);
    forall l | l in lessons ensures LessonProblem(u, digest, expected, sections, l).None? <==> IsSoundLesson(u, digest, expected, sections, l) {
      LessonIsChecked(u, digest, expected, sections, l);
    }
  }

  /* ---------- the rows of a draft ---------- */

  /** A lesson item under the module, a lesson for the item, an edge from the lesson, all of one section; the document is of the
      grammar. */
  predicate IsTrace(m: Item, l: Item, a: GeneratedLesson, e: SourceEdge) {
    && l.parent == Some(m.id) && a.item == l.id && e.target == GeneratedArtifact(a.id)
    && m.sourceSection == l.sourceSection == a.sourceSection == e.sourceSection
    && IsDocument(a.document)
  }

  /** The module is traced to its source, and becomes a section of one required lesson of one block. */
  ghost predicate IsTracedAs(m: Item, lessonItems: seq<Item>, artifacts: seq<GeneratedLesson>, edges: seq<SourceEdge>, section: SectionInput) {
    exists l, a, e :: l in lessonItems && a in artifacts && e in edges && IsTrace(m, l, a, e)
      && section == SectionInput(New, m.position, SectionBody(m.title),
                                 [LessonInput(New, 1, LessonBody(a.title, true), [BlockInput(New, 1, BlockBody("rich_text", a.document))])])
  }

  ghost predicate IsTraced(m: Item, lessonItems: seq<Item>, artifacts: seq<GeneratedLesson>, edges: seq<SourceEdge>) {
    exists l, a, e :: l in lessonItems && a in artifacts && e in edges && IsTrace(m, l, a, e)
  }

  predicate HaveOwnParents(items: seq<Item>) {
    (forall i :: 0 <= i < |items| ==> items[i].parent.Some?)
    && forall i, j :: 0 <= i < j < |items| ==> items[i].parent != items[j].parent
  }

  predicate HaveOwnItems(artifacts: seq<GeneratedLesson>) {
    forall i, j :: 0 <= i < j < |artifacts| ==> artifacts[i].item != artifacts[j].item
  }

  predicate HaveOwnTargets(edges: seq<SourceEdge>) {
    AreLessonEdges(edges) && forall i, j :: 0 <= i < j < |edges| ==> edges[i].target != edges[j].target
  }

  /** As many lesson items, lessons and edges as modules, no two of one owner, and every module traced. */
  ghost predicate HasProvenance(modules: seq<Item>, lessonItems: seq<Item>, artifacts: seq<GeneratedLesson>, edges: seq<SourceEdge>) {
    && modules != [] && |modules| == |lessonItems| == |artifacts| == |edges|
    && (forall i :: 0 <= i < |modules| ==> modules[i].position == i + 1)
    && HaveOwnParents(lessonItems) && HaveOwnItems(artifacts) && HaveOwnTargets(edges)
    && forall i :: 0 <= i < |modules| ==> IsTraced(modules[i], lessonItems, artifacts, edges)
  }

  lemma {:induction false} LessonsByParentNeeds(items: seq<Item>)
    ensures LessonsByParent(items).Some? <==> HaveOwnParents(items)
  {
    if items != [] {
      var last := |items| - 1;
      LessonsByParentNeeds(items[..last]);
      if HaveOwnParents(items[..last]) { LessonsByParentHolds(items[..last]); }
      if HaveOwnParents(items) {
        assert HaveOwnParents(items[..last]);
        var m := LessonsByParent(items[..last]).value;
        assert items[last].parent.value !in m;
      }
    }
  }

  lemma {:induction false} ArtifactsByItemCount(artifacts: seq<GeneratedLesson>)
    ensures |ArtifactsByItem(artifacts)| == |artifacts| <==> HaveOwnItems(artifacts)
    ensures |ArtifactsByItem(artifacts)| <= |artifacts|
  {
    if artifacts != [] {
      var last := |artifacts| - 1;
      ArtifactsByItemCount(artifacts[..last]);
      if HaveOwnItems(artifacts[..last]) { ArtifactsByItemHolds(artifacts[..last]); }
      if HaveOwnItems(artifacts) {
        assert HaveOwnItems(artifacts[..last]);
        ArtifactsByItemHolds(artifacts);
      }
    }
  }

  lemma {:induction false} EdgesByArtifactCount(edges: seq<SourceEdge>)
    ensures |EdgesByArtifact(edges)| == |edges| <==> HaveOwnTargets(edges)
    ensures |EdgesByArtifact(edges)| <= |edges|
  {
    if edges != [] {
      var last := |edges| - 1;
      EdgesByArtifactCount(edges[..last]);
      OneMoreTarget(edges);
      if HaveOwnTargets(edges[..last]) { EdgesByArtifactHolds(edges[..last]); }
      if HaveOwnTargets(edges) {
        hide EdgesByArtifact, HaveOwnTargets;
        TargetsAreOwn(edges);
        EdgesByArtifactHolds(edges);
      }
    }
  }

  lemma TargetsAreOwn(edges: seq<SourceEdge>)
    requires HaveOwnTargets(edges)
    ensures AreLessonEdges(edges) && forall i, j :: 0 <= i < j < |edges| ==> edges[i].target != edges[j].target
  {}

  lemma OneMoreTarget(edges: seq<SourceEdge>)
    requires edges != []
    ensures var last := |edges| - 1;
      HaveOwnTargets(edges) <==>
        && HaveOwnTargets(edges[..last]) && edges[last].target.GeneratedArtifact?
        && forall i :: 0 <= i < last ==> edges[i].target != edges[last].target
  {
    var last := |edges| - 1;
    assert forall i :: 0 <= i < last ==> edges[i] == edges[..last][i];
    if HaveOwnTargets(edges[..last]) && edges[last].target.GeneratedArtifact? && forall i :: 0 <= i < last ==> edges[i].target != edges[last].target {
      assert AreLessonEdges(edges);
    }
  }

  lemma {:induction false} DraftSectionsNeed(modules: seq<Item>, lessons: map<Id, Item>, artifacts: map<Id, GeneratedLesson>,
                                             edges: map<Id, SourceEdge>)
    ensures var r := DraftSections(modules, lessons, artifacts, edges);
      && (r.Ok? <==> forall i :: 0 <= i < |modules| ==> DraftSection(modules[i], lessons, artifacts, edges).Ok?)
      && (r.Ok? ==>
            && |r.value| == |modules|
            && forall i :: 0 <= i < |modules| ==> Ok(r.value[i]) == DraftSection(modules[i], lessons, artifacts, edges))
  {
    hide DraftSection;
    if modules != [] {
      var last := |modules| - 1;
      DraftSectionsNeed(modules[..last], lessons, artifacts, edges);
      assert forall i :: 0 <= i < last ==> modules[i] == modules[..last][i];
    }
  }

  lemma LessonLookup(items: seq<Item>, id: Id)
    requires HaveOwnParents(items) && LessonsByParent(items).Some?
    ensures var m := LessonsByParent(items).value;
      && (id in m ==> m[id] in items && m[id].parent == Some(id))
      && (forall l | l in items && l.parent == Some(id) :: id in m && m[id] == l)
  {
    hide LessonsByParent;
    LessonsByParentHolds(items);
    var m := LessonsByParent(items).value;
    if id in m {
      var i :| 0 <= i < |items| && items[i].parent == Some(id);
      assert m[items[i].parent.value] == items[i];
    }
    forall l | l in items && l.parent == Some(id) ensures id in m && m[id] == l {
      var i :| 0 <= i < |items| && items[i] == l;
      assert m[items[i].parent.value] == items[i];
    }
  }

  lemma ArtifactLookup(artifacts: seq<GeneratedLesson>, id: Id)
    requires HaveOwnItems(artifacts)
    ensures var m := ArtifactsByItem(artifacts);
      && (id in m ==> m[id] in artifacts && m[id].item == id)
      && (forall a | a in artifacts && a.item == id :: id in m && m[id] == a)
  {
    hide ArtifactsByItem;
    ArtifactsByItemHolds(artifacts);
    var m := ArtifactsByItem(artifacts);
    if id in m {
      var i :| 0 <= i < |artifacts| && artifacts[i].item == id;
      assert m[artifacts[i].item] == artifacts[i];
    }
    forall a | a in artifacts && a.item == id ensures id in m && m[id] == a {
      var i :| 0 <= i < |artifacts| && artifacts[i] == a;
      assert m[artifacts[i].item] == artifacts[i];
    }
  }

  lemma EdgeLookup(edges: seq<SourceEdge>, id: Id)
    requires HaveOwnTargets(edges)
    ensures var m := EdgesByArtifact(edges);
      && (id in m ==> m[id] in edges && m[id].target == GeneratedArtifact(id))
      && (forall e | e in edges && e.target == GeneratedArtifact(id) :: id in m && m[id] == e)
  {
    hide EdgesByArtifact;
    EdgesByArtifactHolds(edges);
    var m := EdgesByArtifact(edges);
    if id in m {
      var i :| 0 <= i < |edges| && edges[i].target == GeneratedArtifact(id);
      assert m[edges[i].target.artifact] == edges[i];
    }
    forall e | e in edges && e.target == GeneratedArtifact(id) ensures id in m && m[id] == e {
      var i :| 0 <= i < |edges| && edges[i] == e;
      assert m[edges[i].target.artifact] == edges[i];
    }
  }

  /** The dictionaries find the trace of a module exactly when there is one. */
  lemma TracedSection(m: Item, lessonItems: seq<Item>, artifacts: seq<GeneratedLesson>, edges: seq<SourceEdge>)
    requires HaveOwnParents(lessonItems) && HaveOwnItems(artifacts) && HaveOwnTargets(edges) && LessonsByParent(lessonItems).Some?
    ensures var r := DraftSection(m, LessonsByParent(lessonItems).value, ArtifactsByItem(artifacts), EdgesByArtifact(edges));
      && (r.Ok? <==> IsTraced(m, lessonItems, artifacts, edges))
      && (r.Ok? ==> IsTracedAs(m, lessonItems, artifacts, edges, r.value))
  {
    hide IsDocument, LessonsByParent, ArtifactsByItem, EdgesByArtifact, HaveOwnParents, HaveOwnItems, HaveOwnTargets;
    var byParent, byItem, byArtifact := LessonsByParent(lessonItems).value, ArtifactsByItem(artifacts), EdgesByArtifact(edges);
    LessonLookup(lessonItems, m.id);
    if m.id in byParent {
      ArtifactLookup(artifacts, byParent[m.id].id);
      if byParent[m.id].id in byItem { EdgeLookup(edges, byItem[byParent[m.id].id].id); }
    }
    var r := DraftSection(m, byParent, byItem, byArtifact);
    if r.Ok? {
      var l := byParent[m.id];
      var a := byItem[l.id];
      assert IsTrace(m, l, a, byArtifact[a.id]);
    }
    if IsTraced(m, lessonItems, artifacts, edges) {
      var l, a, e :| l in lessonItems && a in artifacts && e in edges && IsTrace(m, l, a, e);
      assert byParent[m.id] == l && byItem[l.id] == a && byArtifact[a.id] == e;
    }
  }

  /** Whatever rows are read: the canonicalization makes a draft exactly when they have this provenance, and then section i of the draft
      is module i as it is traced. */
  lemma ProvenanceIsChecked(modules: seq<Item>, lessonItems: seq<Item>, artifacts: seq<GeneratedLesson>, edges: seq<SourceEdge>)
    ensures var draft := Canonicalized(modules, lessonItems, artifacts, edges);
      && (draft.Ok? <==> HasProvenance(modules, lessonItems, artifacts, edges))
      && (draft.Ok? ==>
            && |draft.value| == |modules|
            && forall i :: 0 <= i < |modules| ==> IsTracedAs(modules[i], lessonItems, artifacts, edges, draft.value[i]))
  {
    hide IsDocument, LessonsByParent, ArtifactsByItem, EdgesByArtifact, DraftSection, DraftSections, IsTraced, IsTracedAs, HaveOwnParents,
         HaveOwnItems, HaveOwnTargets;
    LessonsByParentNeeds(lessonItems);
    ArtifactsByItemCount(artifacts);
    EdgesByArtifactCount(edges);
    if HaveOwnParents(lessonItems) && HaveOwnItems(artifacts) && HaveOwnTargets(edges) {
      var byParent, byItem, byArtifact := LessonsByParent(lessonItems).value, ArtifactsByItem(artifacts), EdgesByArtifact(edges);
      DraftSectionsNeed(modules, byParent, byItem, byArtifact);
      forall i | 0 <= i < |modules|
        ensures var r := DraftSection(modules[i], byParent, byItem, byArtifact);
          && (r.Ok? <==> IsTraced(modules[i], lessonItems, artifacts, edges))
          && (r.Ok? ==> IsTracedAs(modules[i], lessonItems, artifacts, edges, r.value))
      {
        TracedSection(modules[i], lessonItems, artifacts, edges);
      }
    }
  }
}

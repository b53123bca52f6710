/** Every valid source compiles: no check of the pipeline fails, and section i of the draft is source section i. */
module CompilerCorrectness {
  import opened Prelude
  import opened PythonText
  import opened CanonicalJson
  import opened RichText
  import opened CourseTree
  import opened StableIds
  import opened CourseCompiler

  /** What `_load_source_sections` admits. */
  ghost predicate IsUsableSource(sections: seq<SourceSection>) {
    && 1 <= |sections| <= MAX_SECTIONS && IsNumbered(sections)
    && (forall i, j :: 0 <= i < j < |sections| ==> sections[i].id != sections[j].id)
    && (forall s | s in sections :: s.elements != [] && HasUsableTexts(s.elements) && !IsBlank(Cut(s.title, MAX_TITLE)))
  }

  /** With its heading, a document of a short section has at most 500 nodes. */
  predicate IsShort(s: SourceSection) {
    |s.elements| <= 499
  }

  ghost predicate IsValidSource(sections: seq<SourceSection>) {
    IsUsableSource(sections) && forall s | s in sections :: IsShort(s)
  }

  /** A query's answer: the stored rows, each once, in some order. */
  ghost predicate IsAnswer<T>(stored: seq<T>, answer: seq<T>) {
    Distinct(answer) && (forall x | x in answer :: x in stored) && (forall x | x in stored :: x in answer)
  }

  predicate KindOrder(a: Item, b: Item) {
    (a.kind == LessonItem && b.kind == ModuleItem)
    || (a.kind == b.kind && (a.position < b.position || (a.position == b.position && a.id < b.id)))
  }

  /** `order_by("kind", "position", "id")` */
  ghost predicate IsReload(stored: seq<Item>, loaded: seq<Item>) {
    IsAnswer(stored, loaded) && forall i, j :: 0 <= i < j < |loaded| ==> KindOrder(loaded[i], loaded[j])
  }

  /** `order_by("position", "id")` of modules. */
  predicate InPositionOrder(modules: seq<Item>) {
    forall i, j :: 0 <= i < j < |modules| ==> modules[i].position <= modules[j].position
  }

  /* ---------- lists without repetition ---------- */

  lemma SameElementsSameLength<T>(a: seq<T>, b: seq<T>)
    requires IsAnswer(a, b) && Distinct(a)
    ensures |a| == |b|
  {
    DistinctSize(a);
    DistinctSize(b);
    assert Elements(a) == Elements(b);
  }

  /* ---------- the planned items ---------- */

  function Modules(u: Uuids, run: Id, sections: seq<SourceSection>): (ms: seq<Item>)
    ensures |ms| == |sections| && forall i :: 0 <= i < |ms| ==> ms[i] == ModuleOf(u, run, sections[i])
  {
    seq(|sections|, i requires 0 <= i < |sections| => ModuleOf(u, run, sections[i]))
  }

  function Lessons(u: Uuids, run: Id, sections: seq<SourceSection>): (ls: seq<Item>)
    ensures |ls| == |sections| && forall i :: 0 <= i < |ls| ==> ls[i] == LessonOf(u, run, sections[i])
  {
    seq(|sections|, i requires 0 <= i < |sections| => LessonOf(u, run, sections[i]))
  }

  lemma ItemsOfTwo(items: seq<Item>, a: Item, b: Item, kind: ItemKind)
    requires a.kind == ModuleItem && b.kind == LessonItem
    ensures ItemsOf(items + [a, b], kind) == ItemsOf(items, kind) + [if kind == ModuleItem then a else b]
  {
    assert (items + [a, b])[..|items| + 1] == items + [a];
    assert (items + [a])[..|items|] == items;
  }

  lemma {:induction false} PlannedKinds(u: Uuids, run: Id, sections: seq<SourceSection>)
    ensures ItemsOf(PlannedItems(u, run, sections), ModuleItem) == Modules(u, run, sections)
    ensures ItemsOf(PlannedItems(u, run, sections), LessonItem) == Lessons(u, run, sections)
    ensures |PlannedItems(u, run, sections)| == 2 * |sections|
  {
    hide StableId;
    if sections != [] {
      var last := |sections| - 1;
      PlannedKinds(u, run, sections[..last]);
      var m, l := ModuleOf(u, run, sections[last]), LessonOf(u, run, sections[last]);
      ItemsOfTwo(PlannedItems(u, run, sections[..last]), m, l, ModuleItem);
      ItemsOfTwo(PlannedItems(u, run, sections[..last]), m, l, LessonItem);
    }
  }

  lemma {:induction false} ItemsOfHolds(items: seq<Item>, kind: ItemKind, x: Item)
    ensures x in ItemsOf(items, kind) <==> x in items && x.kind == kind
  {
    if items != [] {
      var last := |items| - 1;
      ItemsOfHolds(items[..last], kind, x);
      assert items == items[..last] + [items[last]];
    }
  }

  lemma {:induction false} ItemsOfDistinct(items: seq<Item>, kind: ItemKind)
    requires Distinct(items)
    ensures Distinct(ItemsOf(items, kind))
  {
    if items != [] {
      var last := |items| - 1;
      ItemsOfDistinct(items[..last], kind);
      ItemsOfHolds(items[..last], kind, items[last]);
    }
  }

  /** Of two modules, or of two lessons, the ids are equal only if run and section are. */
  lemma SameItemId(u: Uuids, run: Id, a: Id, run': Id, b: Id)
    requires AreIdeal(u)
    ensures ModuleId(u, run, a) == ModuleId(u, run', b) ==> run == run' && a == b
    ensures LessonId(u, run, a) == LessonId(u, run', b) ==> run == run' && a == b
  {
    var m, l := "generation-blueprint-module", "generation-blueprint-lesson";
    if ModuleId(u, run, a) == ModuleId(u, run', b) { SameThree(u, m, run, a, run', b); }
    if LessonId(u, run, a) == LessonId(u, run', b) { SameThree(u, l, run, a, run', b); }
  }

  lemma SameThree(u: Uuids, kind: string, run: Id, a: Id, run': Id, b: Id)
    requires AreIdeal(u) && HasNoColon(kind) && StableId(u, [kind, u.show(run), u.show(a)]) == StableId(u, [kind, u.show(run'), u.show(b)])
    ensures run == run' && a == b
  {
    var x, y := [kind, u.show(run), u.show(a)], [kind, u.show(run'), u.show(b)];
    SameIdSameParts(u, x, y);
    assert x[1] == y[1] && x[2] == y[2];
  }

  lemma ModuleIdsDiffer(u: Uuids, run: Id, a: Id, b: Id)
    requires AreIdeal(u) && a != b
    ensures ModuleId(u, run, a) != ModuleId(u, run, b) && LessonId(u, run, a) != LessonId(u, run, b)
  {
    hide AreIdeal;
    SameItemId(u, run, a, run, b);
  }

  lemma KindsDiffer(u: Uuids, run: Id, a: Id, run': Id, b: Id)
    requires AreIdeal(u)
    ensures ModuleId(u, run, a) != LessonId(u, run', b)
  {
    var m, l := ["generation-blueprint-module", u.show(run), u.show(a)], ["generation-blueprint-lesson", u.show(run'), u.show(b)];
    assert m[0][21] == 'm' && l[0][21] == 'l';
    if ModuleId(u, run, a) == LessonId(u, run', b) { SameIdSameParts(u, m, l); }
  }

  lemma {:induction false} PlannedItemSource(u: Uuids, run: Id, sections: seq<SourceSection>, x: Item) returns (i: nat)
    requires x in PlannedItems(u, run, sections)
    ensures i < |sections| && (x == ModuleOf(u, run, sections[i]) || x == LessonOf(u, run, sections[i]))
  {
    hide StableId;
    var last := |sections| - 1;
    if x in PlannedItems(u, run, sections[..last]) { i := PlannedItemSource(u, run, sections[..last], x); } else { i := last; }
  }

  predicate HasDistinctIds(items: seq<Item>) {
    forall i, j :: 0 <= i < j < |items| ==> items[i].id != items[j].id
  }

  /** Modules and lessons share a table: all items of a plan have different ids. */
  lemma {:induction false} AllItemIdsDiffer(u: Uuids, run: Id, sections: seq<SourceSection>)
    requires AreIdeal(u) && forall i, j :: 0 <= i < j < |sections| ==> sections[i].id != sections[j].id
    ensures HasDistinctIds(PlannedItems(u, run, sections))
  {
    hide AreIdeal, StableId, ModuleId, LessonId;
    if sections != [] {
      var last := |sections| - 1;
      var s, before := sections[last], PlannedItems(u, run, sections[..last]);
      var m, l := ModuleOf(u, run, s), LessonOf(u, run, s);
      AllItemIdsDiffer(u, run, sections[..last]);
      KindsDiffer(u, run, s.id, run, s.id);
      forall x | x in before ensures x.id != m.id && x.id != l.id {
        var i := PlannedItemSource(u, run, sections[..last], x);
        ModuleIdsDiffer(u, run, sections[i].id, s.id);
        KindsDiffer(u, run, sections[i].id, run, s.id);
        KindsDiffer(u, run, s.id, run, sections[i].id);
      }
      TwoMoreDiffer(before, m, l);
    }
  }

  lemma TwoMoreDiffer(items: seq<Item>, a: Item, b: Item)
    requires HasDistinctIds(items) && a.id != b.id && forall x | x in items :: x.id != a.id && x.id != b.id
    ensures HasDistinctIds(items + [a, b])
  {
    assert forall i :: 0 <= i < |items| ==> items[i] in items;
  }

  lemma SameArtifactId(u: Uuids, run: Id, a: Id, run': Id, b: Id)
    requires AreIdeal(u) && ArtifactId(u, run, a) == ArtifactId(u, run', b)
    ensures run == run' && a == b
  {
    var x := ["generated-lesson-artifact", u.show(run), u.show(a), Decimal(1)];
    var y := ["generated-lesson-artifact", u.show(run'), u.show(b), Decimal(1)];
    SameIdSameParts(u, x, y);
    assert x[1] == y[1] && x[2] == y[2];
  }

  lemma ArtifactIdsDiffer(u: Uuids, run: Id, a: Id, b: Id)
    requires AreIdeal(u) && a != b
    ensures ArtifactId(u, run, a) != ArtifactId(u, run, b)
  {
    hide AreIdeal;
    if ArtifactId(u, run, a) == ArtifactId(u, run, b) { SameArtifactId(u, run, a, run, b); }
  }

  /** Edges of items and of lessons share a table: their ids are equal only if run, kind and target are. */
  lemma SameEdgeId(u: Uuids, run: Id, a: EdgeTarget, run': Id, b: EdgeTarget)
    requires AreIdeal(u) && EdgeId(u, run, a) == EdgeId(u, run', b)
    ensures run == run' && a == b
  {
    var x := ["generation-source-edge", u.show(run), EdgeKind(a), u.show(TargetId(a))];
    var y := ["generation-source-edge", u.show(run'), EdgeKind(b), u.show(TargetId(b))];
    SameIdSameParts(u, x, y);
    assert x[1] == y[1] && x[2] == y[2] && x[3] == y[3];
    assert EdgeKind(a)[0] == EdgeKind(b)[0];
  }

  lemma PlannedIdsDiffer(u: Uuids, run: Id, sections: seq<SourceSection>)
    requires AreIdeal(u) && IsUsableSource(sections)
    ensures forall i, j :: 0 <= i < j < |sections| ==>
      ModuleOf(u, run, sections[i]).id != ModuleOf(u, run, sections[j]).id && LessonOf(u, run, sections[i]).id != LessonOf(u, run, sections[j]).id
    ensures Distinct(Modules(u, run, sections)) && Distinct(Lessons(u, run, sections))
  {
    hide AreIdeal, StableId;
    forall i, j | 0 <= i < j < |sections|
      ensures ModuleOf(u, run, sections[i]).id != ModuleOf(u, run, sections[j]).id
      ensures LessonOf(u, run, sections[i]).id != LessonOf(u, run, sections[j]).id
    {
      ModuleIdsDiffer(u, run, sections[i].id, sections[j].id);
    }
  }

  /** An item that shares its id with no other is what a dictionary holds for the id. */
  lemma {:induction false} ByIdFinds(items: seq<Item>, x: Item)
    requires x in items && forall y | y in items :: y.id == x.id ==> y == x
    ensures ById(items, x.id) == Some(x)
  {
    var last := |items| - 1;
    assert items == items[..last] + [items[last]];
    if items[last].id != x.id { ByIdFinds(items[..last], x); }
  }

  lemma {:induction false} SectionByIdFinds(sections: seq<SourceSection>, s: SourceSection)
    requires s in sections && forall t | t in sections :: t.id == s.id ==> t == s
    ensures SectionById(sections, s.id) == Some(s)
  {
    var last := |sections| - 1;
    assert sections == sections[..last] + [sections[last]];
    if sections[last].id != s.id { SectionByIdFinds(sections[..last], s); }
  }

  function IdsOf(items: seq<Item>): (ids: seq<Id>)
    ensures |ids| == |items| && forall i :: 0 <= i < |ids| ==> ids[i] == items[i].id
  {
    seq(|items|, i requires 0 <= i < |items| => items[i].id)
  }

  /** The number of different ids of a list of items without repeated ids. */
  lemma ItemIdsSize(items: seq<Item>)
    requires HasDistinctIds(items)
    ensures |ItemIds(items)| == |items|
  {
    var ids := IdsOf(items);
    assert Distinct(ids);
    DistinctSize(ids);
    forall x ensures x in ItemIds(items) <==> x in ids {
      if x in ItemIds(items) {
        var item :| item in items && item.id == x;
        var i :| 0 <= i < |items| && items[i] == item;
        assert ids[i] == x;
      }
      if x in ids {
        var i :| 0 <= i < |ids| && ids[i] == x;
        assert items[i] in items;
      }
    }
    assert ItemIds(items) == Elements(ids);
  }

  /** The planner's own output passes the check before it is stored. */
  lemma PlanIsValid(u: Uuids, run: Id, sourceTitle: string, sections: seq<SourceSection>)
    requires AreIdeal(u) && IsUsableSource(sections) && !IsBlank(Cut(Strip(sourceTitle), MAX_TITLE))
    ensures Planned(u, run, sourceTitle, sections).Ok?
    ensures BlueprintError(u, run, Planned(u, run, sourceTitle, sections).value, sections).None?
  {
    hide AreIdeal, StableId, Strip, ItemsOf, PlannedItems, ItemIds;
    var b := Planned(u, run, sourceTitle, sections).value;
    var modules, lessons := Modules(u, run, sections), Lessons(u, run, sections);
    PlannedKinds(u, run, sections);
    PlannedIdsDiffer(u, run, sections);
    ItemIdsSize(modules);
    PlannedSections(u, run, sections);
    forall lesson | lesson in lessons
      ensures lesson.parent.Some? && ById(modules, lesson.parent.value).Some?
      ensures ById(modules, lesson.parent.value).value.sourceSection == lesson.sourceSection
    {
      var i :| 0 <= i < |lessons| && lessons[i] == lesson;
      ModuleIsFound(u, run, sections, i);
    }
  }

  lemma ModuleIsFound(u: Uuids, run: Id, sections: seq<SourceSection>, i: nat)
    requires AreIdeal(u) && IsUsableSource(sections) && i < |sections|
    ensures ById(Modules(u, run, sections), ModuleId(u, run, sections[i].id)) == Some(ModuleOf(u, run, sections[i]))
  {
    hide AreIdeal, StableId, IsUsableSource;
    var modules := Modules(u, run, sections);
    PlannedIdsDiffer(u, run, sections);
    forall y | y in modules ensures y.id == modules[i].id ==> y == modules[i] {
      var j :| 0 <= j < |modules| && modules[j] == y;
    }
    ByIdFinds(modules, modules[i]);
  }

  lemma LessonIsFound(u: Uuids, run: Id, sections: seq<SourceSection>, items: seq<Item>, i: nat)
    requires AreIdeal(u) && IsUsableSource(sections) && i < |sections| && IsAnswer(Lessons(u, run, sections), items)
    ensures ById(items, LessonId(u, run, sections[i].id)) == Some(LessonOf(u, run, sections[i]))
  {
    hide AreIdeal, StableId, IsUsableSource;
    var lessons := Lessons(u, run, sections);
    PlannedIdsDiffer(u, run, sections);
    forall y | y in items ensures y.id == lessons[i].id ==> y == lessons[i] {
      assert y in lessons;
      var j :| 0 <= j < |lessons| && lessons[j] == y;
    }
    assert lessons[i] in lessons;
    ByIdFinds(items, lessons[i]);
  }

  lemma {:induction false} SectionIsFound(sections: seq<SourceSection>, i: nat)
    requires IsUsableSource(sections) && i < |sections|
    ensures SectionById(sections, sections[i].id) == Some(sections[i])
  {
    forall t | t in sections ensures t.id == sections[i].id ==> t == sections[i] {
      var j :| 0 <= j < |sections| && sections[j] == t;
    }
    SectionByIdFinds(sections, sections[i]);
  }

  lemma {:induction false} PlannedSections(u: Uuids, run: Id, sections: seq<SourceSection>)
    ensures (set item | item in PlannedItems(u, run, sections) :: item.sourceSection) == SectionIds(sections)
  {
    hide StableId;
    if sections != [] {
      var last := |sections| - 1;
      PlannedSections(u, run, sections[..last]);
      assert sections == sections[..last] + [sections[last]];
      var before := PlannedItems(u, run, sections[..last]);
      var m, l := ModuleOf(u, run, sections[last]), LessonOf(u, run, sections[last]);
      SetOfTwoMore(before, m, l);
      assert SectionIds(sections) == SectionIds(sections[..last]) + {sections[last].id};
    }
  }

  lemma SetOfTwoMore(items: seq<Item>, a: Item, b: Item)
    requires a.sourceSection == b.sourceSection
    ensures (set item | item in items + [a, b] :: item.sourceSection) == (set item | item in items :: item.sourceSection) + {a.sourceSection}
  {
    assert a in items + [a, b];
  }

  /* ---------- generation from the reloaded blueprint ---------- */

  /** What source section `s` becomes. */
  function ArtifactOf(u: Uuids, digest: Json -> string, run: Id, s: SourceSection): GeneratedLesson {
    LessonFrom(u, digest, run, LessonOf(u, run, s), s)
  }

  lemma {:induction false} LessonsFromAll(u: Uuids, digest: Json -> string, run: Id, items: seq<Item>, sections: seq<SourceSection>)
    requires forall i :: 0 <= i < |items| ==> SectionById(sections, items[i].sourceSection).Some? && LessonError(items[i], sections).None?
    ensures var r := LessonsFrom(u, digest, run, items, sections);
      && r.Ok? && |r.value| == |items|
      && forall i :: 0 <= i < |items| ==>
           r.value[i] == LessonFrom(u, digest, run, items[i], SectionById(sections, items[i].sourceSection).value)
  {
    hide LessonError, SectionById, LessonFrom;
    if items != [] { LessonsFromAll(u, digest, run, items[..|items| - 1], sections); }
  }

  /** The lesson items of a reloaded blueprint are the planned ones, in whatever order. */
  lemma ReloadedLessons(u: Uuids, run: Id, sections: seq<SourceSection>, loaded: seq<Item>)
    requires AreIdeal(u) && IsUsableSource(sections) && IsAnswer(PlannedItems(u, run, sections), loaded)
    ensures IsAnswer(Lessons(u, run, sections), ItemsOf(loaded, LessonItem))
    ensures |ItemsOf(loaded, LessonItem)| == |sections|
  {
    hide AreIdeal, StableId, IsUsableSource, ItemsOf, PlannedItems;
    PlannedKinds(u, run, sections);
    PlannedIdsDiffer(u, run, sections);
    ItemsOfDistinct(loaded, LessonItem);
    var stored, lessons := PlannedItems(u, run, sections), Lessons(u, run, sections);
    forall x | x in ItemsOf(loaded, LessonItem) ensures x in lessons {
      ItemsOfHolds(loaded, LessonItem, x);
      ItemsOfHolds(stored, LessonItem, x);
    }
    forall x | x in lessons ensures x in ItemsOf(loaded, LessonItem) {
      ItemsOfHolds(loaded, LessonItem, x);
      ItemsOfHolds(stored, LessonItem, x);
    }
    SameElementsSameLength(lessons, ItemsOf(loaded, LessonItem));
  }

  lemma SectionCanBeGenerated(u: Uuids, run: Id, sections: seq<SourceSection>, i: nat)
    requires IsValidSource(sections) && i < |sections|
    ensures SectionById(sections, sections[i].id) == Some(sections[i])
    ensures LessonError(LessonOf(u, run, sections[i]), sections).None?
    ensures IsDocument(LessonDocument(Cut(sections[i].title, MAX_TITLE), sections[i].elements))
  {
    hide IsDocument, LessonDocument, StableId;
    var s := sections[i];
    assert s in sections;
    SectionIsFound(sections, i);
    DocumentFits(Cut(s.title, MAX_TITLE), s.elements);
  }

  /** From a reloaded blueprint the generator makes exactly the lesson of every section, in the order of the items it was given. */
  lemma GenerationSucceeds(u: Uuids, digest: Json -> string, run: Id, b: Blueprint, sections: seq<SourceSection>)
    requires AreIdeal(u) && IsValidSource(sections) && IsAnswer(PlannedItems(u, run, sections), b.items)
    ensures var items, r := ItemsOf(b.items, LessonItem), Generated(u, digest, run, b, sections);
      && |items| == |sections| && r.Ok? && |r.value| == |items|
      && forall n :: 0 <= n < |items| ==> exists i ::
           (0 <= i < |sections| && items[n] == LessonOf(u, run, sections[i]) && r.value[n] == ArtifactOf(u, digest, run, sections[i]))
  {
    hide AreIdeal, StableId, IsUsableSource, ItemsOf, PlannedItems, IsDocument, LessonFrom, LessonError, SectionById;
    ReloadedLessons(u, run, sections, b.items);
    var items, lessons := ItemsOf(b.items, LessonItem), Lessons(u, run, sections);
    SourceHasSections(sections);
    forall n | 0 <= n < |items|
      ensures exists i :: (0 <= i < |sections| && items[n] == LessonOf(u, run, sections[i])
        && SectionById(sections, items[n].sourceSection) == Some(sections[i]) && LessonError(items[n], sections).None?)
    {
      assert items[n] in lessons;
      var i :| 0 <= i < |lessons| && lessons[i] == items[n];
      SectionCanBeGenerated(u, run, sections, i);
    }
    LessonsFromAll(u, digest, run, items, sections);
  }

  predicate Raises(item: Item, sections: seq<SourceSection>) {
    LessonError(item, sections) == Some(LifecycleErrorRaised)
  }

  lemma {:induction false} LessonsFromRaises(u: Uuids, digest: Json -> string, run: Id, items: seq<Item>, sections: seq<SourceSection>)
    requires forall i :: 0 <= i < |items| ==> Raises(items[i], sections) || LessonError(items[i], sections).None?
    ensures var r := LessonsFrom(u, digest, run, items, sections);
      if exists i :: 0 <= i < |items| && Raises(items[i], sections) then r == Err(LifecycleErrorRaised) else r.Ok?
  {
    hide LessonError, SectionById, LessonFrom;
    if items != [] {
      var last := |items| - 1;
      LessonsFromRaises(u, digest, run, items[..last], sections);
      assert forall i :: 0 <= i < last ==> items[..last][i] == items[i];
      FoundByLessons(items[last], sections);
    }
  }

  /** An item without error has its section. */
  lemma FoundByLessons(item: Item, sections: seq<SourceSection>)
    ensures LessonError(item, sections).None? ==> SectionById(sections, item.sourceSection).Some?
  {
    hide IsDocument, LessonDocument;
  }

  lemma SectionRaises(u: Uuids, run: Id, sections: seq<SourceSection>, i: nat)
    requires IsUsableSource(sections) && i < |sections|
    ensures var item := LessonOf(u, run, sections[i]);
      if IsShort(sections[i]) then LessonError(item, sections).None? else Raises(item, sections)
  {
    hide IsDocument, LessonDocument, StableId;
    var s := sections[i];
    assert s in sections;
    SectionIsFound(sections, i);
    DocumentFits(Cut(s.title, MAX_TITLE), s.elements);
  }

  /** Of the usable sources exactly those with short sections only are generated; any other leaves the generator with the exception
      of the document checker, each time. */
  lemma GenerationRaises(u: Uuids, digest: Json -> string, run: Id, b: Blueprint, sections: seq<SourceSection>)
    requires AreIdeal(u) && IsUsableSource(sections) && IsAnswer(PlannedItems(u, run, sections), b.items)
    ensures Generated(u, digest, run, b, sections) == Err(LifecycleErrorRaised) <==> exists s | s in sections :: !IsShort(s)
    ensures Generated(u, digest, run, b, sections).Ok? <==> IsValidSource(sections)
  {
    hide AreIdeal, StableId, IsUsableSource, ItemsOf, PlannedItems, LessonError, SectionById, LessonsFrom, IsShort;
    ReloadedLessons(u, run, sections, b.items);
    SourceHasSections(sections);
    var items, lessons := ItemsOf(b.items, LessonItem), Lessons(u, run, sections);
    forall n | 0 <= n < |items|
      ensures exists i ::
        && 0 <= i < |sections| && items[n] == LessonOf(u, run, sections[i])
        && (if IsShort(sections[i]) then LessonError(items[n], sections).None? else Raises(items[n], sections))
    {
      assert items[n] in lessons;
      var i :| 0 <= i < |lessons| && lessons[i] == items[n];
      SectionRaises(u, run, sections, i);
    }
    LessonsFromRaises(u, digest, run, items, sections);
    if s :| s in sections && !IsShort(s) {
      var i :| 0 <= i < |sections| && sections[i] == s;
      assert lessons[i] in items;
      var n :| 0 <= n < |items| && items[n] == lessons[i];
      SectionRaises(u, run, sections, i);
      assert Raises(items[n], sections);
    }
  }

  lemma SourceHasSections(sections: seq<SourceSection>)
    requires IsUsableSource(sections)
    ensures 1 <= |sections| <= MAX_SECTIONS
  {}

  lemma {:induction false} NoProblem(u: Uuids, digest: Json -> string, expected: seq<Item>, sections: seq<SourceSection>, lessons: seq<GeneratedLesson>)
    requires forall n :: 0 <= n < |lessons| ==> LessonProblem(u, digest, expected, sections, lessons[n]).None?
    ensures FirstProblem(u, digest, expected, sections, lessons).None?
  {
    hide LessonProblem;
    if lessons != [] { NoProblem(u, digest, expected, sections, lessons[..|lessons| - 1]); }
  }

  lemma ArtifactHasNoProblem(u: Uuids, digest: Json -> string, run: Id, sections: seq<SourceSection>, items: seq<Item>, i: nat)
    requires AreIdeal(u) && IsValidSource(sections) && i < |sections| && IsAnswer(Lessons(u, run, sections), items)
    ensures LessonProblem(u, digest, items, sections, ArtifactOf(u, digest, run, sections[i])).None?
  {
    hide AreIdeal, StableId, IsDocument, LessonDocument, LessonProjection;
    LessonIsFound(u, run, sections, items, i);
    SectionCanBeGenerated(u, run, sections, i);
    assert sections[i] in sections;
  }

  /** The generated lessons pass the check before they are stored. */
  lemma GeneratedLessonsAreValid(u: Uuids, digest: Json -> string, run: Id, b: Blueprint, sections: seq<SourceSection>)
    requires AreIdeal(u) && IsValidSource(sections) && IsAnswer(PlannedItems(u, run, sections), b.items)
    requires Generated(u, digest, run, b, sections).Ok?
    ensures LessonsError(u, digest, b, Generated(u, digest, run, b, sections).value, sections).None?
  {
    hide AreIdeal, StableId, IsUsableSource, ItemsOf, PlannedItems, IsDocument, LessonFrom, Generated, FirstProblem, LessonProblem;
    GenerationSucceeds(u, digest, run, b, sections);
    ReloadedLessons(u, run, sections, b.items);
    var lessons, items := Generated(u, digest, run, b, sections).value, ItemsOf(b.items, LessonItem);
    forall n | 0 <= n < |lessons| ensures LessonProblem(u, digest, items, sections, lessons[n]).None? && lessons[n].item == items[n].id {
      var i :| 0 <= i < |sections| && items[n] == LessonOf(u, run, sections[i]) && lessons[n] == ArtifactOf(u, digest, run, sections[i]);
      ArtifactHasNoProblem(u, digest, run, sections, items, i);
      ArtifactNames(u, digest, run, sections[i]);
    }
    NoProblem(u, digest, items, sections, lessons);
    AnswerIdsDiffer(u, run, sections, items);
    ItemIdsSize(items);
    forall k ensures k in LessonItemIds(lessons) <==> k in ItemIds(items) {
      if k in LessonItemIds(lessons) {
        var l :| l in lessons && l.item == k;
        var n :| 0 <= n < |lessons| && lessons[n] == l;
        assert items[n] in items;
      }
      if k in ItemIds(items) {
        var x :| x in items && x.id == k;
        var n :| 0 <= n < |items| && items[n] == x;
        assert lessons[n] in lessons;
      }
    }
  }

  lemma ArtifactNames(u: Uuids, digest: Json -> string, run: Id, s: SourceSection)
    ensures var a := ArtifactOf(u, digest, run, s);
      && a.item == LessonId(u, run, s.id) && a.sourceSection == s.id && a.id == ArtifactId(u, run, LessonId(u, run, s.id))
      && a.title == Cut(s.title, MAX_TITLE) && a.document == LessonDocument(Cut(s.title, MAX_TITLE), s.elements)
  {}

  lemma AnswerIdsDiffer(u: Uuids, run: Id, sections: seq<SourceSection>, items: seq<Item>)
    requires AreIdeal(u) && IsUsableSource(sections) && IsAnswer(Lessons(u, run, sections), items)
    ensures HasDistinctIds(items)
  {
    hide AreIdeal, StableId, IsUsableSource;
    PlannedIdsDiffer(u, run, sections);
    var lessons := Lessons(u, run, sections);
    forall i, j | 0 <= i < j < |items| ensures items[i].id != items[j].id {
      assert items[i] in lessons && items[j] in lessons;
      var n :| 0 <= n < |lessons| && lessons[n] == items[i];
      var m :| 0 <= m < |lessons| && lessons[m] == items[j];
    }
  }
}

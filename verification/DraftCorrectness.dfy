/** Canonicalization of a compiled source: the draft has the source's sections in the source's order. */
module DraftCorrectness {
  import opened Prelude
  import opened PythonText
  import opened CanonicalJson
  import opened RichText
  import opened CourseTree
  import opened StableIds
  import opened CourseCompiler
  import opened CompilerCorrectness

  /* ---------- dictionaries of rows with different keys ---------- */

  lemma {:induction false} LessonsByParentHolds(items: seq<Item>)
    requires forall i :: 0 <= i < |items| ==> items[i].parent.Some?
    requires forall i, j :: 0 <= i < j < |items| ==> items[i].parent != items[j].parent
    ensures var m := LessonsByParent(items);
      && m.Some? && (forall i :: 0 <= i < |items| ==> items[i].parent.value in m.value && m.value[items[i].parent.value] == items[i])
      && (forall k | k in m.value :: exists i :: 0 <= i < |items| && items[i].parent == Some(k))
  {
    if items != [] {
      var last := |items| - 1;
      LessonsByParentHolds(items[..last]);
    }
  }

  lemma {:induction false} ArtifactsByItemHolds(artifacts: seq<GeneratedLesson>)
    requires forall i, j :: 0 <= i < j < |artifacts| ==> artifacts[i].item != artifacts[j].item
    ensures var m := ArtifactsByItem(artifacts);
      && |m| == |artifacts| && (forall i :: 0 <= i < |artifacts| ==> artifacts[i].item in m && m[artifacts[i].item] == artifacts[i])
      && (forall k | k in m :: exists i :: 0 <= i < |artifacts| && artifacts[i].item == k)
  {
    if artifacts != [] {
      var last := |artifacts| - 1;
      ArtifactsByItemHolds(artifacts[..last]);
      assert artifacts[last].item !in ArtifactsByItem(artifacts[..last]);
    }
  }

  predicate AreLessonEdges(edges: seq<SourceEdge>) {
    forall i :: 0 <= i < |edges| ==> edges[i].target.GeneratedArtifact?
  }

  lemma {:induction false} EdgesByArtifactHolds(edges: seq<SourceEdge>)
    requires AreLessonEdges(edges) && forall i, j :: 0 <= i < j < |edges| ==> edges[i].target != edges[j].target
    ensures var m := EdgesByArtifact(edges);
      && |m| == |edges| && (forall i :: 0 <= i < |edges| ==> edges[i].target.artifact in m && m[edges[i].target.artifact] == edges[i])
      && (forall k | k in m :: exists i :: 0 <= i < |edges| && edges[i].target == GeneratedArtifact(k))
  {
    if edges != [] {
      var last := |edges| - 1;
      EdgesByArtifactHolds(edges[..last]);
      assert edges[last].target.artifact !in EdgesByArtifact(edges[..last]);
    }
  }

  /* ---------- the stored rows of a compiled source ---------- */

  function Artifacts(u: Uuids, digest: Json -> string, run: Id, sections: seq<SourceSection>): (gs: seq<GeneratedLesson>)
    ensures |gs| == |sections| && forall i :: 0 <= i < |gs| ==> gs[i] == ArtifactOf(u, digest, run, sections[i])
  {
    seq(|sections|, i requires 0 <= i < |sections| => ArtifactOf(u, digest, run, sections[i]))
  }

  function ItemPositions(items: seq<Item>): (ps: seq<int>)
    ensures |ps| == |items| && forall i :: 0 <= i < |ps| ==> ps[i] == items[i].position
  {
    seq(|items|, i requires 0 <= i < |items| => items[i].position)
  }

  /** Items with different positions that are read in position order come out as they were numbered. */
  lemma PositionOrderIsUnique(planned: seq<Item>, items: seq<Item>)
    requires IsAnswer(planned, items) && InPositionOrder(items) && AreNumbered(planned)
    ensures items == planned
  {
    var ps, qs := ItemPositions(items), ItemPositions(planned);
    forall i, j | 0 <= i < j < |items| ensures ps[i] < ps[j] {
      assert items[i] in planned && items[j] in planned;
      var a :| 0 <= a < |planned| && planned[a] == items[i];
      var b :| 0 <= b < |planned| && planned[b] == items[j];
    }
    forall x | x in ps ensures x in qs {
      var i :| 0 <= i < |items| && ps[i] == x;
      assert items[i] in planned;
      var a :| 0 <= a < |planned| && planned[a] == items[i];
      assert qs[a] == x;
    }
    forall x | x in qs ensures x in ps {
      var a :| 0 <= a < |planned| && qs[a] == x;
      assert planned[a] in items;
      var i :| 0 <= i < |items| && items[i] == planned[a];
      assert ps[i] == x;
    }
    AscendingIsUnique(ps, qs);
    assert |items| == |ps| == |qs| == |planned|;
    forall i | 0 <= i < |items| ensures items[i] == planned[i] {
      assert items[i] in planned;
      var a :| 0 <= a < |planned| && planned[a] == items[i];
      assert ps[i] == qs[i] && qs[a] == ps[i];
    }
  }

  /** Modules in position order are the planned modules, in source order. */
  lemma ModulesInOrder(u: Uuids, run: Id, sections: seq<SourceSection>, modules: seq<Item>)
    requires IsValidSource(sections) && IsAnswer(Modules(u, run, sections), modules) && InPositionOrder(modules)
    ensures modules == Modules(u, run, sections)
  {
    hide StableId, IsAnswer, InPositionOrder;
    PositionOrderIsUnique(Modules(u, run, sections), modules);
  }

  lemma LessonParentsDiffer(u: Uuids, run: Id, sections: seq<SourceSection>, items: seq<Item>)
    requires AreIdeal(u) && IsValidSource(sections) && IsAnswer(Lessons(u, run, sections), items)
    ensures forall i :: 0 <= i < |items| ==> items[i].parent.Some?
    ensures forall i, j :: 0 <= i < j < |items| ==> items[i].parent != items[j].parent
  {
    hide AreIdeal, StableId, IsUsableSource;
    PlannedIdsDiffer(u, run, sections);
    var lessons := Lessons(u, run, sections);
    forall i | 0 <= i < |items| ensures items[i].parent.Some? {
      assert items[i] in lessons;
    }
    forall i, j | 0 <= i < j < |items| ensures items[i].parent != items[j].parent {
      assert items[i] in lessons && items[j] in lessons;
      var n :| 0 <= n < |lessons| && lessons[n] == items[i];
      var m :| 0 <= m < |lessons| && lessons[m] == items[j];
      assert n != m && ModuleOf(u, run, sections[n]).id != ModuleOf(u, run, sections[m]).id;
    }
  }

  lemma ArtifactKeysDiffer(u: Uuids, digest: Json -> string, run: Id, sections: seq<SourceSection>)
    requires AreIdeal(u) && IsValidSource(sections)
    ensures var gs := Artifacts(u, digest, run, sections);
      forall i, j :: 0 <= i < j < |gs| ==> gs[i].item != gs[j].item && gs[i].id != gs[j].id
  {
    hide AreIdeal, StableId, IsUsableSource, ArtifactOf, ArtifactId;
    PlannedIdsDiffer(u, run, sections);
    var gs := Artifacts(u, digest, run, sections);
    forall i, j | 0 <= i < j < |gs| ensures gs[i].item != gs[j].item && gs[i].id != gs[j].id {
      ArtifactNames(u, digest, run, sections[i]);
      ArtifactNames(u, digest, run, sections[j]);
      assert LessonOf(u, run, sections[i]).id != LessonOf(u, run, sections[j]).id;
      ArtifactIdsDiffer(u, run, gs[i].item, gs[j].item);
    }
  }

  /** Rows with different keys keep them in whatever order they are read. */
  lemma ArtifactAnswerKeys(gs: seq<GeneratedLesson>, answer: seq<GeneratedLesson>)
    requires IsAnswer(gs, answer)
    requires forall i, j :: 0 <= i < j < |gs| ==> gs[i].item != gs[j].item && gs[i].id != gs[j].id
    ensures |answer| == |gs|
    ensures forall i, j :: 0 <= i < j < |answer| ==> answer[i].item != answer[j].item
  {
    assert Distinct(gs);
    SameElementsSameLength(gs, answer);
    forall i, j | 0 <= i < j < |answer| ensures answer[i].item != answer[j].item {
      assert answer[i] in gs && answer[j] in gs;
      var n :| 0 <= n < |gs| && gs[n] == answer[i];
      var m :| 0 <= m < |gs| && gs[m] == answer[j];
    }
  }

  lemma EdgeAnswerKeys(u: Uuids, run: Id, gs: seq<GeneratedLesson>, edges: seq<SourceEdge>)
    requires IsAnswer(LessonEdges(u, run, gs), edges)
    requires forall i, j :: 0 <= i < j < |gs| ==> gs[i].item != gs[j].item && gs[i].id != gs[j].id
    ensures |edges| == |gs|
    ensures AreLessonEdges(edges) && forall i, j :: 0 <= i < j < |edges| ==> edges[i].target != edges[j].target
  {
    var stored := LessonEdges(u, run, gs);
    assert Distinct(stored);
    SameElementsSameLength(stored, edges);
    forall i | 0 <= i < |edges| ensures edges[i].target.GeneratedArtifact? { assert edges[i] in stored; }
    forall i, j | 0 <= i < j < |edges| ensures edges[i].target != edges[j].target {
      assert edges[i] in stored && edges[j] in stored;
      var n :| 0 <= n < |stored| && stored[n] == edges[i];
      var m :| 0 <= m < |stored| && stored[m] == edges[j];
    }
  }

  lemma {:induction false} DraftSectionsAll(modules: seq<Item>, lessons: map<Id, Item>, artifacts: map<Id, GeneratedLesson>,
                                            edges: map<Id, SourceEdge>)
    requires forall i :: 0 <= i < |modules| ==> DraftSection(modules[i], lessons, artifacts, edges).Ok?
    ensures var r := DraftSections(modules, lessons, artifacts, edges);
      && r.Ok? && |r.value| == |modules|
      && forall i :: 0 <= i < |modules| ==> Ok(r.value[i]) == DraftSection(modules[i], lessons, artifacts, edges)
  {
    hide DraftSection;
    if modules != [] { DraftSectionsAll(modules[..|modules| - 1], lessons, artifacts, edges); }
  }

  /** The curriculum section that source section `s` becomes. */
  function CompiledSection(s: SourceSection): SectionInput {
    var title := Cut(s.title, MAX_TITLE);
    DraftOf(title, s.position, title, LessonDocument(title, s.elements))
  }

  /** The stored rows of one compiled section join to its curriculum section. */
  lemma OneDraftSection(u: Uuids, digest: Json -> string, run: Id, sections: seq<SourceSection>, i: nat,
                        lessons: map<Id, Item>, artifacts: map<Id, GeneratedLesson>, edges: map<Id, SourceEdge>)
    requires IsValidSource(sections) && i < |sections|
    requires var m, l, a := ModuleOf(u, run, sections[i]), LessonOf(u, run, sections[i]), ArtifactOf(u, digest, run, sections[i]);
      && m.id in lessons && lessons[m.id] == l && l.id in artifacts && artifacts[l.id] == a
      && a.id in edges && edges[a.id] == LessonEdge(u, run, a)
    ensures DraftSection(ModuleOf(u, run, sections[i]), lessons, artifacts, edges) == Ok(CompiledSection(sections[i]))
  {
    hide StableId, IsDocument, LessonDocument;
    SectionCanBeGenerated(u, run, sections, i);
    ArtifactNames(u, digest, run, sections[i]);
  }

  /** Whatever order the rows of the lessons, artifacts and edges are read in, canonicalization trips no provenance check, and
      section i of the draft is the section compiled from source section i. */
  lemma CanonicalizationSucceeds(u: Uuids, digest: Json -> string, run: Id, sections: seq<SourceSection>, modules: seq<Item>,
                                 lessonItems: seq<Item>, artifacts: seq<GeneratedLesson>, edges: seq<SourceEdge>)
    requires AreIdeal(u) && IsValidSource(sections)
    requires IsAnswer(Modules(u, run, sections), modules) && InPositionOrder(modules)
    requires IsAnswer(Lessons(u, run, sections), lessonItems)
    requires IsAnswer(Artifacts(u, digest, run, sections), artifacts)
    requires IsAnswer(LessonEdges(u, run, Artifacts(u, digest, run, sections)), edges)
    ensures var r := Canonicalized(modules, lessonItems, artifacts, edges);
      && r.Ok? && |r.value| == |sections| && forall i :: 0 <= i < |sections| ==> r.value[i] == CompiledSection(sections[i])
  {
    hide AreIdeal, StableId, IsDocument, LessonsByParent, ArtifactsByItem, EdgesByArtifact, ArtifactOf, DraftSections, DraftSection;
    var gs := Artifacts(u, digest, run, sections);
    ModulesInOrder(u, run, sections, modules);
    PlannedIdsDiffer(u, run, sections);
    SameElementsSameLength(Lessons(u, run, sections), lessonItems);
    LessonParentsDiffer(u, run, sections, lessonItems);
    LessonsByParentHolds(lessonItems);
    ArtifactKeysDiffer(u, digest, run, sections);
    ArtifactAnswerKeys(gs, artifacts);
    ArtifactsByItemHolds(artifacts);
    EdgeAnswerKeys(u, run, gs, edges);
    EdgesByArtifactHolds(edges);
    var lessons, byItem, byArtifact := LessonsByParent(lessonItems).value, ArtifactsByItem(artifacts), EdgesByArtifact(edges);
    forall i | 0 <= i < |modules| ensures DraftSection(modules[i], lessons, byItem, byArtifact) == Ok(CompiledSection(sections[i])) {
      RowsAreJoined(u, digest, run, sections, lessonItems, artifacts, edges, i);
      OneDraftSection(u, digest, run, sections, i, lessons, byItem, byArtifact);
    }
    DraftSectionsAll(modules, lessons, byItem, byArtifact);
  }

  lemma {:induction false} RowsAreJoined(u: Uuids, digest: Json -> string, run: Id, sections: seq<SourceSection>,
                      lessonItems: seq<Item>, artifacts: seq<GeneratedLesson>, edges: seq<SourceEdge>, i: nat)
    requires i < |sections| && LessonsByParent(lessonItems).Some?
    requires IsAnswer(Lessons(u, run, sections), lessonItems)
    requires IsAnswer(Artifacts(u, digest, run, sections), artifacts)
    requires IsAnswer(LessonEdges(u, run, Artifacts(u, digest, run, sections)), edges)
    requires var m := LessonsByParent(lessonItems).value;
      forall n :: 0 <= n < |lessonItems| ==>
        lessonItems[n].parent.Some? && lessonItems[n].parent.value in m && m[lessonItems[n].parent.value] == lessonItems[n]
    requires var m := ArtifactsByItem(artifacts); forall n :: 0 <= n < |artifacts| ==> artifacts[n].item in m && m[artifacts[n].item] == artifacts[n]
    requires AreLessonEdges(edges)
    requires var m := EdgesByArtifact(edges);
      forall n :: 0 <= n < |edges| ==> edges[n].target.artifact in m && m[edges[n].target.artifact] == edges[n]
    ensures var lessons, byItem, byArtifact := LessonsByParent(lessonItems).value, ArtifactsByItem(artifacts), EdgesByArtifact(edges);
      var m, l, a := ModuleOf(u, run, sections[i]), LessonOf(u, run, sections[i]), ArtifactOf(u, digest, run, sections[i]);
      && m.id in lessons && lessons[m.id] == l && l.id in byItem && byItem[l.id] == a && a.id in byArtifact && byArtifact[a.id] == LessonEdge(u, run, a)
  {
    hide StableId, LessonsByParent, ArtifactsByItem, EdgesByArtifact, ArtifactOf;
    var l, a := LessonOf(u, run, sections[i]), ArtifactOf(u, digest, run, sections[i]);
    assert Lessons(u, run, sections)[i] in lessonItems;
    var n :| 0 <= n < |lessonItems| && lessonItems[n] == l;
    assert Artifacts(u, digest, run, sections)[i] in artifacts;
    var p :| 0 <= p < |artifacts| && artifacts[p] == a;
    assert LessonEdges(u, run, Artifacts(u, digest, run, sections))[i] in edges;
    var q :| 0 <= q < |edges| && edges[q] == LessonEdge(u, run, a);
    ArtifactNames(u, digest, run, sections[i]);
  }

  /** The generated lessons are stored as the artifacts of the sections. */
  lemma StoredArtifacts(u: Uuids, digest: Json -> string, run: Id, b: Blueprint, sections: seq<SourceSection>)
    requires AreIdeal(u) && IsValidSource(sections) && IsAnswer(PlannedItems(u, run, sections), b.items)
    ensures Generated(u, digest, run, b, sections).Ok?
    ensures IsAnswer(Artifacts(u, digest, run, sections), Generated(u, digest, run, b, sections).value)
  {
    hide AreIdeal, StableId, IsUsableSource, ItemsOf, PlannedItems, IsDocument, LessonFrom, Generated, ArtifactOf, IsAnswer;
    GenerationSucceeds(u, digest, run, b, sections);
    ReloadedLessons(u, run, sections, b.items);
    ArtifactKeysDiffer(u, digest, run, sections);
    PlannedIdsDiffer(u, run, sections);
    var gs, lessons, items := Artifacts(u, digest, run, sections), Generated(u, digest, run, b, sections).value, ItemsOf(b.items, LessonItem);
    var planned := Lessons(u, run, sections);
    forall n | 0 <= n < |items| ensures ArePaired(planned, gs, items[n], lessons[n]) {
      var i :| 0 <= i < |sections| && items[n] == LessonOf(u, run, sections[i]) && lessons[n] == ArtifactOf(u, digest, run, sections[i]);
      assert items[n] == planned[i] && lessons[n] == gs[i];
    }
    PairedAnswer(planned, items, gs, lessons);
  }

  predicate ArePaired(planned: seq<Item>, gs: seq<GeneratedLesson>, item: Item, lesson: GeneratedLesson)
    requires |planned| == |gs|
  {
    exists i :: 0 <= i < |planned| && item == planned[i] && lesson == gs[i]
  }

  /** What belongs to the answers of one query is an answer to the other. */
  lemma PairedAnswer(planned: seq<Item>, items: seq<Item>, gs: seq<GeneratedLesson>, lessons: seq<GeneratedLesson>)
    requires |planned| == |gs| && |items| == |lessons| && IsAnswer(planned, items) && Distinct(planned)
    requires forall i, j :: 0 <= i < j < |gs| ==> gs[i].id != gs[j].id
    requires forall n :: 0 <= n < |items| ==> ArePaired(planned, gs, items[n], lessons[n])
    ensures IsAnswer(gs, lessons)
  {
    forall n, m | 0 <= n < m < |lessons| ensures lessons[n] != lessons[m] {
      assert ArePaired(planned, gs, items[n], lessons[n]) && ArePaired(planned, gs, items[m], lessons[m]);
      var i :| 0 <= i < |planned| && items[n] == planned[i] && lessons[n] == gs[i];
      var j :| 0 <= j < |planned| && items[m] == planned[j] && lessons[m] == gs[j];
      assert i != j;
    }
    forall x | x in lessons ensures x in gs {
      var n :| 0 <= n < |lessons| && lessons[n] == x;
      assert ArePaired(planned, gs, items[n], lessons[n]);
    }
    forall x | x in gs ensures x in lessons {
      var i :| 0 <= i < |gs| && gs[i] == x;
      assert planned[i] in items;
      var n :| 0 <= n < |items| && items[n] == planned[i];
      assert ArePaired(planned, gs, items[n], lessons[n]);
      var j :| 0 <= j < |planned| && items[n] == planned[j] && lessons[n] == gs[j];
      assert i == j;
    }
  }

  /** The whole way: plan, store, reload in (kind, position, id) order, generate, store, canonicalize. No check fails, and the
      draft has, in source order, one section with one lesson for every source section, holding its title and elements in order. */
  lemma SourcesCompile(u: Uuids, digest: Json -> string, run: Id, sourceTitle: string, sections: seq<SourceSection>, loaded: seq<Item>,
                       modules: seq<Item>, lessonItems: seq<Item>, artifacts: seq<GeneratedLesson>, edges: seq<SourceEdge>)
    requires AreIdeal(u) && IsValidSource(sections) && !IsBlank(Cut(Strip(sourceTitle), MAX_TITLE))
    requires IsReload(PlannedItems(u, run, sections), loaded)
    requires IsAnswer(ItemsOf(loaded, ModuleItem), modules) && InPositionOrder(modules)
    requires IsAnswer(ItemsOf(loaded, LessonItem), lessonItems)
    ensures Planned(u, run, sourceTitle, sections).Ok?
    ensures BlueprintError(u, run, Planned(u, run, sourceTitle, sections).value, sections).None?
    ensures var b := Planned(u, run, sourceTitle, sections).value.(items := loaded);
      var lessons := Generated(u, digest, run, b, sections);
      && lessons.Ok? && LessonsError(u, digest, b, lessons.value, sections).None?
      && (IsAnswer(lessons.value, artifacts) && IsAnswer(LessonEdges(u, run, lessons.value), edges) ==>
            var draft := Canonicalized(modules, lessonItems, artifacts, edges);
            && draft.Ok? && |draft.value| == |sections|
            && forall i :: 0 <= i < |sections| ==> draft.value[i] == CompiledSection(sections[i]))
  {
    hide AreIdeal, StableId, IsUsableSource, ItemsOf, PlannedItems, IsDocument, Generated, Canonicalized, Strip, BlueprintError, LessonsError;
    PlanIsValid(u, run, sourceTitle, sections);
    var b := Planned(u, run, sourceTitle, sections).value.(items := loaded);
    StoredArtifacts(u, digest, run, b, sections);
    GeneratedLessonsAreValid(u, digest, run, b, sections);
    var lessons, gs := Generated(u, digest, run, b, sections).value, Artifacts(u, digest, run, sections);
    if IsAnswer(lessons, artifacts) && IsAnswer(LessonEdges(u, run, lessons), edges) {
      ReloadedModules(u, run, sections, loaded);
      ReloadedLessons(u, run, sections, loaded);
      AnswersCompose(Modules(u, run, sections), ItemsOf(loaded, ModuleItem), modules);
      AnswersCompose(Lessons(u, run, sections), ItemsOf(loaded, LessonItem), lessonItems);
      AnswersCompose(gs, lessons, artifacts);
      EdgesOfAnswer(u, run, gs, lessons);
      AnswersCompose2(LessonEdges(u, run, gs), LessonEdges(u, run, lessons), edges);
      CanonicalizationSucceeds(u, digest, run, sections, modules, lessonItems, artifacts, edges);
    }
  }

  lemma AnswersCompose<T>(a: seq<T>, b: seq<T>, c: seq<T>)
    requires IsAnswer(a, b) && IsAnswer(b, c)
    ensures IsAnswer(a, c)
  {}

  lemma AnswersCompose2<T>(a: seq<T>, b: seq<T>, c: seq<T>)
    requires (forall x | x in a :: x in b) && (forall x | x in b :: x in a) && IsAnswer(b, c)
    ensures IsAnswer(a, c)
  {}

  lemma EdgesOfAnswer(u: Uuids, run: Id, gs: seq<GeneratedLesson>, lessons: seq<GeneratedLesson>)
    requires IsAnswer(gs, lessons)
    ensures forall x | x in LessonEdges(u, run, gs) :: x in LessonEdges(u, run, lessons)
    ensures forall x | x in LessonEdges(u, run, lessons) :: x in LessonEdges(u, run, gs)
  {
    forall x | x in LessonEdges(u, run, gs) ensures x in LessonEdges(u, run, lessons) {
      var i :| 0 <= i < |gs| && LessonEdges(u, run, gs)[i] == x;
      assert gs[i] in lessons;
      var j :| 0 <= j < |lessons| && lessons[j] == gs[i];
      assert LessonEdges(u, run, lessons)[j] == x;
    }
    forall x | x in LessonEdges(u, run, lessons) ensures x in LessonEdges(u, run, gs) {
      var i :| 0 <= i < |lessons| && LessonEdges(u, run, lessons)[i] == x;
      assert lessons[i] in gs;
      var j :| 0 <= j < |gs| && gs[j] == lessons[i];
      assert LessonEdges(u, run, gs)[j] == x;
    }
  }

  lemma ReloadedModules(u: Uuids, run: Id, sections: seq<SourceSection>, loaded: seq<Item>)
    requires AreIdeal(u) && IsValidSource(sections) && IsAnswer(PlannedItems(u, run, sections), loaded)
    ensures IsAnswer(Modules(u, run, sections), ItemsOf(loaded, ModuleItem))
  {
    hide AreIdeal, StableId, IsUsableSource, ItemsOf, PlannedItems;
    PlannedKinds(u, run, sections);
    ItemsOfDistinct(loaded, ModuleItem);
    var stored, modules := PlannedItems(u, run, sections), Modules(u, run, sections);
    forall x | x in ItemsOf(loaded, ModuleItem) ensures x in modules {
      ItemsOfHolds(loaded, ModuleItem, x);
      ItemsOfHolds(stored, ModuleItem, x);
    }
    forall x | x in modules ensures x in ItemsOf(loaded, ModuleItem) {
      ItemsOfHolds(loaded, ModuleItem, x);
      ItemsOfHolds(stored, ModuleItem, x);
    }
  }

  /* ---------- the draft is a complete course ---------- */

  predicate IsBoundedTitle(title: string) {
    !IsBlank(title) && |title| <= 160
  }

  predicate IsCompleteLesson(l: LessonInput) {
    && l.position >= 1 && IsBoundedTitle(l.body.title) && 1 <= |l.blocks| <= 100
    && (forall i, j :: 0 <= i < j < |l.blocks| ==> l.blocks[i].position != l.blocks[j].position)
    && forall b | b in l.blocks :: b.position >= 1 && b.body.kind == "rich_text" && IsDocument(b.body.document)
  }

  predicate IsCompleteSection(s: SectionInput) {
    && s.position >= 1 && IsBoundedTitle(s.body.title) && 1 <= |s.lessons| <= 200
    && (forall i, j :: 0 <= i < j < |s.lessons| ==> s.lessons[i].position != s.lessons[j].position)
    && forall l | l in s.lessons :: IsCompleteLesson(l)
  }

  /** The curriculum checks of `validate_complete_course`, on the sections of a draft. */
  predicate IsComplete(draft: seq<SectionInput>) {
    && 1 <= |draft| <= 100
    && (forall i, j :: 0 <= i < j < |draft| ==> draft[i].position != draft[j].position)
    && (forall s | s in draft :: IsCompleteSection(s))
    && exists s | s in draft :: exists l | l in s.lessons :: l.body.isRequired
  }

  lemma CompiledSectionIsComplete(sections: seq<SourceSection>, i: nat)
    requires IsValidSource(sections) && i < |sections|
    ensures IsCompleteSection(CompiledSection(sections[i]))
  {
    hide IsDocument, LessonDocument;
    var anyIds := Uuids(name => 0, id => "");
    SectionCanBeGenerated(anyIds, 0, sections, i);
    assert sections[i] in sections;
  }

  /** A compiled draft can be submitted for review as it is. */
  lemma CompiledDraftsAreComplete(sections: seq<SourceSection>, draft: seq<SectionInput>)
    requires IsValidSource(sections) && |draft| == |sections|
    requires forall i :: 0 <= i < |sections| ==> draft[i] == CompiledSection(sections[i])
    ensures IsComplete(draft)
  {
    hide IsCompleteSection;
    forall s | s in draft ensures IsCompleteSection(s) {
      var i :| 0 <= i < |draft| && draft[i] == s;
      CompiledSectionIsComplete(sections, i);
    }
    assert draft[0] in draft && draft[0].lessons[0] in draft[0].lessons;
  }
}

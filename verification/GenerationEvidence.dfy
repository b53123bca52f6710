/** The stored evidence of all generation runs: items, artifacts and source edges under their primary keys. */
module GenerationEvidence {
  import opened Prelude
  import opened PythonText
  import opened CanonicalJson
  import opened CourseTree
  import opened StableIds
  import opened CourseCompiler
  import opened CompilerCorrectness
  import opened DraftCorrectness

  /** A row and the run that it belongs to. */
  datatype Owned<+T> = Owned(run: Id, row: T)

  type Table<T> = map<Id, Owned<T>>

  datatype Rows = Rows(items: Table<Item>, artifacts: Table<GeneratedLesson>, edges: Table<SourceEdge>)

  /* ---------- a loop of inserts ---------- */

  /** The primary key, and the unique constraint that `clash` stands for within one run. */
  predicate Fits<T>(rows: Table<T>, run: Id, id: T -> Id, clash: (T, T) -> bool, x: T) {
    id(x) !in rows && forall k | k in rows :: rows[k].run == run ==> !clash(rows[k].row, x)
  }

  ghost predicate AllFit<T>(rows: Table<T>, run: Id, id: T -> Id, clash: (T, T) -> bool, xs: seq<T>) {
    && (forall i :: 0 <= i < |xs| ==> Fits(rows, run, id, clash, xs[i]))
    && (forall i, j :: 0 <= i < j < |xs| ==> id(xs[i]) != id(xs[j]) && !clash(xs[i], xs[j]))
  }

  function Added<T>(rows: Table<T>, run: Id, id: T -> Id, xs: seq<T>): Table<T> {
    if xs == [] then rows
    else Added(rows, run, id, xs[..|xs| - 1])[id(xs[|xs| - 1]) := Owned(run, xs[|xs| - 1])]
  }

  /** The old rows stay, every listed row is there under its id, and no other row is new. */
  ghost predicate IsAdded<T>(rows: Table<T>, run: Id, id: T -> Id, xs: seq<T>, now: Table<T>) {
    && (forall k | k in rows :: k in now && now[k] == rows[k])
    && (forall i :: 0 <= i < |xs| ==> id(xs[i]) in now && now[id(xs[i])] == Owned(run, xs[i]))
    && (forall k | k in now && k !in rows :: exists i :: 0 <= i < |xs| && id(xs[i]) == k)
  }

  lemma {:induction false} AddedAt<T>(rows: Table<T>, run: Id, id: T -> Id, clash: (T, T) -> bool, xs: seq<T>)
    requires AllFit(rows, run, id, clash, xs)
    ensures IsAdded(rows, run, id, xs, Added(rows, run, id, xs))
  {
    hide IsAdded;
    if xs == [] {
      NothingIsAdded(rows, run, id);
    } else {
      var last := |xs| - 1;
      AddedAt(rows, run, id, clash, xs[..last]);
      assert Fits(rows, run, id, clash, xs[last]);
      OneMoreIsAdded(rows, run, id, xs, Added(rows, run, id, xs[..last]));
    }
  }

  lemma NothingIsAdded<T>(rows: Table<T>, run: Id, id: T -> Id)
    ensures IsAdded(rows, run, id, [], rows)
  {}

  lemma OneMoreIsAdded<T>(rows: Table<T>, run: Id, id: T -> Id, xs: seq<T>, now: Table<T>)
    requires xs != [] && IsAdded(rows, run, id, xs[..|xs| - 1], now)
    requires id(xs[|xs| - 1]) !in rows && forall i :: 0 <= i < |xs| - 1 ==> id(xs[i]) != id(xs[|xs| - 1])
    ensures IsAdded(rows, run, id, xs, now[id(xs[|xs| - 1]) := Owned(run, xs[|xs| - 1])])
  {
    var last := |xs| - 1;
    var more := now[id(xs[last]) := Owned(run, xs[last])];
    forall i | 0 <= i < |xs| ensures id(xs[i]) in more && more[id(xs[i])] == Owned(run, xs[i]) {
      if i < last { assert xs[..last][i] == xs[i]; }
    }
    forall k | k in more && k !in rows ensures exists i :: 0 <= i < |xs| && id(xs[i]) == k {
      if k != id(xs[last]) {
        var i :| 0 <= i < last && id(xs[..last][i]) == k;
        assert id(xs[i]) == k;
      }
    }
  }

  /** The next row fits what has been inserted exactly when it fits what was there and its predecessors. */
  lemma FitsNext<T>(rows: Table<T>, run: Id, id: T -> Id, clash: (T, T) -> bool, xs: seq<T>, n: nat)
    requires n < |xs| && AllFit(rows, run, id, clash, xs[..n])
    ensures Fits(Added(rows, run, id, xs[..n]), run, id, clash, xs[n]) <==> AllFit(rows, run, id, clash, xs[..n + 1])
  {
    var before, more := xs[..n], xs[..n + 1];
    var now := Added(rows, run, id, before);
    AddedAt(rows, run, id, clash, before);
    assert more[n] == xs[n] && forall i :: 0 <= i < n ==> more[i] == before[i];
    if Fits(now, run, id, clash, xs[n]) {
      forall i | 0 <= i < n ensures id(more[i]) != id(xs[n]) && !clash(more[i], xs[n]) {
        assert now[id(before[i])] == Owned(run, before[i]);
      }
      assert Fits(rows, run, id, clash, more[n]) by { assert forall k | k in rows :: k in now && now[k] == rows[k]; }
    }
    if AllFit(rows, run, id, clash, more) {
      assert Fits(rows, run, id, clash, more[n]);
      forall k | k in now ensures k != id(xs[n]) && (now[k].run == run ==> !clash(now[k].row, xs[n])) {
        if k !in rows {
          var i :| 0 <= i < n && id(before[i]) == k;
          assert id(more[i]) != id(more[n]) && !clash(more[i], more[n]);
        }
      }
    }
  }

  lemma AllFitPrefix<T>(rows: Table<T>, run: Id, id: T -> Id, clash: (T, T) -> bool, xs: seq<T>, n: nat)
    requires n <= |xs| && AllFit(rows, run, id, clash, xs)
    ensures AllFit(rows, run, id, clash, xs[..n])
  {}

  /** `objects.create(...)` for every row of a list: the constraints admit all of them exactly when the list fits. */
  method CreateAll<T>(rows: Table<T>, run: Id, id: T -> Id, clash: (T, T) -> bool, xs: seq<T>) returns (ok: bool, now: Table<T>)
    ensures ok <==> AllFit(rows, run, id, clash, xs)
    ensures now == if ok then Added(rows, run, id, xs) else rows
  {
    hide AllFit, Fits;
    now := rows;
    NothingFits(rows, run, id, clash);
    assert xs[..0] == [];
    for n := 0 to |xs|
      invariant AllFit(rows, run, id, clash, xs[..n]) && now == Added(rows, run, id, xs[..n])
    {
      FitsNext(rows, run, id, clash, xs, n);
      assert xs[..n + 1][..n] == xs[..n];
      if !Fits(now, run, id, clash, xs[n]) {
        if AllFit(rows, run, id, clash, xs) { AllFitPrefix(rows, run, id, clash, xs, n + 1); }
        return false, rows;
      }
      now := now[id(xs[n]) := Owned(run, xs[n])];
    }
    assert xs[..|xs|] == xs;
    ok := true;
  }

  lemma NothingFits<T>(rows: Table<T>, run: Id, id: T -> Id, clash: (T, T) -> bool)
    ensures AllFit(rows, run, id, clash, [])
  {}

  /* ---------- the three tables ---------- */

  function ItemKey(x: Item): Id { x.id }

  function ArtifactKey(x: GeneratedLesson): Id { x.id }

  function EdgeKey(x: SourceEdge): Id { x.id }

  /** `uq` on blueprint, kind, parent and position; a run has one blueprint, and rows without parent never collide. */
  predicate SamePlace(a: Item, b: Item) {
    a.kind == b.kind && a.parent.Some? && a.parent == b.parent && a.position == b.position
  }

  /** `uq` on run, blueprint item and revision. */
  predicate SameItem(a: GeneratedLesson, b: GeneratedLesson) {
    a.item == b.item
  }

  predicate NoClash(a: SourceEdge, b: SourceEdge) {
    false
  }

  ghost predicate PlanFits(s: Rows, u: Uuids, run: Id, plan: seq<Item>) {
    AllFit(s.items, run, ItemKey, SamePlace, plan) && AllFit(s.edges, run, EdgeKey, NoClash, ItemEdges(u, run, plan))
  }

  function WithPlan(s: Rows, u: Uuids, run: Id, plan: seq<Item>): Rows {
    s.(items := Added(s.items, run, ItemKey, plan), edges := Added(s.edges, run, EdgeKey, ItemEdges(u, run, plan)))
  }

  /** `item_models[...]` finds a lesson item of the run for every lesson. */
  ghost predicate HaveItems(s: Rows, run: Id, lessons: seq<GeneratedLesson>) {
    forall x | x in lessons :: x.item in s.items && s.items[x.item].run == run && s.items[x.item].row.kind == LessonItem
  }

  ghost predicate LessonsFit(s: Rows, u: Uuids, run: Id, lessons: seq<GeneratedLesson>) {
    && HaveItems(s, run, lessons)
    && AllFit(s.artifacts, run, ArtifactKey, SameItem, lessons)
    && AllFit(s.edges, run, EdgeKey, NoClash, LessonEdges(u, run, lessons))
  }

  function WithLessons(s: Rows, u: Uuids, run: Id, lessons: seq<GeneratedLesson>): Rows {
    s.(artifacts := Added(s.artifacts, run, ArtifactKey, lessons), edges := Added(s.edges, run, EdgeKey, LessonEdges(u, run, lessons)))
  }

  class Evidence {
    var items: Table<Item>
    var artifacts: Table<GeneratedLesson>
    var edges: Table<SourceEdge>

    constructor ()
      ensures Stored() == Rows(map[], map[], map[])
    {
      items, artifacts, edges := map[], map[], map[];
    }

    function Stored(): Rows
      reads this
    {
      Rows(items, artifacts, edges)
    }

    /** The inserts of `_persist_blueprint` in its transaction: a refused row undoes them all. */
    method PersistBlueprint(u: Uuids, run: Id, plan: seq<Item>) returns (ok: bool)
      modifies this
      ensures ok <==> PlanFits(old(Stored()), u, run, plan)
      ensures Stored() == if ok then WithPlan(old(Stored()), u, run, plan) else old(Stored())
    {
      hide AllFit;
      var was := items;
      ok, items := CreateAll(items, run, ItemKey, SamePlace, plan);
      if !ok { return; }
      ok, edges := CreateAll(edges, run, EdgeKey, NoClash, ItemEdges(u, run, plan));
      if !ok { items := was; }
    }

    /** The inserts of `_persist_lessons`; the source inserts the edge of a lesson right after the lesson. */
    method PersistLessons(u: Uuids, run: Id, lessons: seq<GeneratedLesson>) returns (ok: bool)
      modifies this
      ensures ok <==> LessonsFit(old(Stored()), u, run, lessons)
      ensures Stored() == if ok then WithLessons(old(Stored()), u, run, lessons) else old(Stored())
    {
      hide AllFit;
      if exists x | x in lessons :: x.item !in items || items[x.item].run != run || items[x.item].row.kind != LessonItem { return false; }
      var was := artifacts;
      ok, artifacts := CreateAll(artifacts, run, ArtifactKey, SameItem, lessons);
      if !ok { return; }
      ok, edges := CreateAll(edges, run, EdgeKey, NoClash, LessonEdges(u, run, lessons));
      if !ok { artifacts := was; }
    }
  }

  /* ---------- derived ids never clash ---------- */

  function ItemIdOf(u: Uuids, run: Id, x: Item): Id {
    if x.kind == ModuleItem then ModuleId(u, run, x.sourceSection) else LessonId(u, run, x.sourceSection)
  }

  function ArtifactIdOf(u: Uuids, run: Id, x: GeneratedLesson): Id {
    ArtifactId(u, run, x.item)
  }

  function EdgeIdOf(u: Uuids, run: Id, x: SourceEdge): Id {
    EdgeId(u, run, x.target)
  }

  ghost predicate AreKeyed<T>(u: Uuids, rows: Table<T>, derived: (Uuids, Id, T) -> Id) {
    forall k | k in rows :: k == derived(u, rows[k].run, rows[k].row)
  }

  /** Every stored row carries the id that is derived for it in its run. */
  ghost predicate AreDerived(u: Uuids, s: Rows) {
    AreKeyed(u, s.items, ItemIdOf) && AreKeyed(u, s.artifacts, ArtifactIdOf) && AreKeyed(u, s.edges, EdgeIdOf)
  }

  lemma AddedAreKeyed<T>(u: Uuids, rows: Table<T>, run: Id, id: T -> Id, clash: (T, T) -> bool, xs: seq<T>, derived: (Uuids, Id, T) -> Id)
    requires AllFit(rows, run, id, clash, xs) && AreKeyed(u, rows, derived) && forall x | x in xs :: id(x) == derived(u, run, x)
    ensures AreKeyed(u, Added(rows, run, id, xs), derived)
  {
    AddedAt(rows, run, id, clash, xs);
  }

  /** Nothing of the run's blueprint is stored. */
  ghost predicate HasNoPlan(s: Rows, run: Id) {
    (forall k | k in s.items :: s.items[k].run != run)
    && (forall k | k in s.edges :: s.edges[k].run == run ==> s.edges[k].row.target.GeneratedArtifact?)
  }

  /** Nothing of the run's lessons is stored. */
  ghost predicate HasNoLessons(s: Rows, run: Id) {
    (forall k | k in s.artifacts :: s.artifacts[k].run != run)
    && (forall k | k in s.edges :: s.edges[k].run == run ==> s.edges[k].row.target.BlueprintItem?)
  }

  lemma PlannedIds(u: Uuids, run: Id, sections: seq<SourceSection>, x: Item)
    requires x in PlannedItems(u, run, sections)
    ensures x.id == ItemIdOf(u, run, x)
    ensures x.kind == ModuleItem <==> x.parent.None?
    ensures x.parent.Some? ==> x.parent == Some(ModuleId(u, run, x.sourceSection))
  {
    hide StableId;
    var i := PlannedItemSource(u, run, sections, x);
  }

  /** An item of a plan has an id that no item of another run has. */
  lemma PlannedItemIsNew(u: Uuids, s: Rows, run: Id, sections: seq<SourceSection>, x: Item)
    requires AreIdeal(u) && AreDerived(u, s) && HasNoPlan(s, run) && x in PlannedItems(u, run, sections)
    ensures Fits(s.items, run, ItemKey, SamePlace, x)
  {
    hide AreIdeal, ModuleId, LessonId;
    PlannedIds(u, run, sections, x);
    if x.id in s.items {
      var o := s.items[x.id];
      SameItemId(u, run, x.sourceSection, o.run, o.row.sourceSection);
      KindsDiffer(u, run, x.sourceSection, o.run, o.row.sourceSection);
      KindsDiffer(u, o.run, o.row.sourceSection, run, x.sourceSection);
    }
  }

  /** Two items of a plan differ in id and place. */
  lemma PlannedPlacesDiffer(u: Uuids, run: Id, sections: seq<SourceSection>, i: nat, j: nat)
    requires AreIdeal(u) && IsUsableSource(sections) && i < j < |PlannedItems(u, run, sections)|
    ensures var plan := PlannedItems(u, run, sections); plan[i].id != plan[j].id && !SamePlace(plan[i], plan[j])
  {
    hide AreIdeal, ModuleId, LessonId;
    var plan := PlannedItems(u, run, sections);
    AllItemIdsDiffer(u, run, sections);
    PlannedIds(u, run, sections, plan[i]);
    PlannedIds(u, run, sections, plan[j]);
    SameItemId(u, run, plan[i].sourceSection, run, plan[j].sourceSection);
  }

  lemma EdgeIsNew(u: Uuids, s: Rows, run: Id, edge: SourceEdge)
    requires AreIdeal(u) && AreDerived(u, s) && edge.id == EdgeId(u, run, edge.target)
    requires forall k | k in s.edges && s.edges[k].run == run :: s.edges[k].row.target != edge.target
    ensures Fits(s.edges, run, EdgeKey, NoClash, edge)
  {
    hide AreIdeal, EdgeId;
    if edge.id in s.edges {
      var o := s.edges[edge.id];
      SameEdgeId(u, run, edge.target, o.run, o.row.target);
    }
  }

  lemma EdgesFit(u: Uuids, s: Rows, run: Id, edges: seq<SourceEdge>)
    requires AreIdeal(u) && AreDerived(u, s)
    requires forall edge | edge in edges :: edge.id == EdgeIdOf(u, run, edge)
    requires forall i, j :: 0 <= i < j < |edges| ==> edges[i].target != edges[j].target
    requires forall edge, k | edge in edges && k in s.edges && s.edges[k].run == run :: s.edges[k].row.target != edge.target
    ensures AllFit(s.edges, run, EdgeKey, NoClash, edges)
    ensures AreKeyed(u, Added(s.edges, run, EdgeKey, edges), EdgeIdOf)
  {
    hide AreIdeal, EdgeId, Fits;
    forall i | 0 <= i < |edges| ensures Fits(s.edges, run, EdgeKey, NoClash, edges[i]) {
      EdgeIsNew(u, s, run, edges[i]);
    }
    forall i, j | 0 <= i < j < |edges| ensures edges[i].id != edges[j].id {
      if edges[i].id == edges[j].id { SameEdgeId(u, run, edges[i].target, run, edges[j].target); }
    }
    AddedAreKeyed(u, s.edges, run, EdgeKey, NoClash, edges, EdgeIdOf);
  }

  /** The plan of a usable source is stored whatever other runs have stored: no id and no place is taken. */
  lemma PlanIsStored(u: Uuids, s: Rows, run: Id, sections: seq<SourceSection>)
    requires AreIdeal(u) && IsUsableSource(sections) && AreDerived(u, s) && HasNoPlan(s, run)
    ensures PlanFits(s, u, run, PlannedItems(u, run, sections))
    ensures AreDerived(u, WithPlan(s, u, run, PlannedItems(u, run, sections)))
  {
    hide AreIdeal, IsUsableSource, PlannedItems, ModuleId, LessonId, ArtifactId, EdgeId, Fits, SamePlace, AreKeyed;
    var plan := PlannedItems(u, run, sections);
    forall x | x in plan ensures Fits(s.items, run, ItemKey, SamePlace, x) && x.id == ItemIdOf(u, run, x) {
      PlannedItemIsNew(u, s, run, sections, x);
      PlannedIds(u, run, sections, x);
    }
    forall i, j | 0 <= i < j < |plan| ensures plan[i].id != plan[j].id && !SamePlace(plan[i], plan[j]) {
      PlannedPlacesDiffer(u, run, sections, i, j);
    }
    AddedAreKeyed(u, s.items, run, ItemKey, SamePlace, plan, ItemIdOf);
    EdgesFit(u, s, run, ItemEdges(u, run, plan));
  }

  /** So are lessons for different items, beside the edges of the plan. */
  lemma LessonsAreStored(u: Uuids, s: Rows, run: Id, lessons: seq<GeneratedLesson>)
    requires AreIdeal(u) && AreDerived(u, s) && HasNoLessons(s, run)
    requires HaveItems(s, run, lessons) && forall x | x in lessons :: x.id == ArtifactIdOf(u, run, x)
    requires forall i, j :: 0 <= i < j < |lessons| ==> lessons[i].item != lessons[j].item
    ensures LessonsFit(s, u, run, lessons)
    ensures AreDerived(u, WithLessons(s, u, run, lessons))
  {
    hide AreIdeal, ModuleId, LessonId, ArtifactId, EdgeId, Fits, AreKeyed;
    forall i | 0 <= i < |lessons| ensures Fits(s.artifacts, run, ArtifactKey, SameItem, lessons[i]) {
      ArtifactIsNew(u, s, run, lessons[i]);
    }
    forall i, j | 0 <= i < j < |lessons| ensures lessons[i].id != lessons[j].id {
      if lessons[i].id == lessons[j].id { SameArtifactId(u, run, lessons[i].item, run, lessons[j].item); }
    }
    AddedAreKeyed(u, s.artifacts, run, ArtifactKey, SameItem, lessons, ArtifactIdOf);
    EdgesFit(u, s, run, LessonEdges(u, run, lessons));
  }

  lemma ArtifactIsNew(u: Uuids, s: Rows, run: Id, lesson: GeneratedLesson)
    requires AreIdeal(u) && AreDerived(u, s) && HasNoLessons(s, run) && lesson.id == ArtifactId(u, run, lesson.item)
    ensures Fits(s.artifacts, run, ArtifactKey, SameItem, lesson)
  {
    hide AreIdeal, ArtifactId;
    if lesson.id in s.artifacts {
      SameArtifactId(u, run, lesson.item, s.artifacts[lesson.id].run, s.artifacts[lesson.id].row.item);
    }
  }

  /** All edges of a plan together with all edges of its lessons have different ids. */
  lemma AllEdgeIdsDiffer(u: Uuids, run: Id, items: seq<Item>, lessons: seq<GeneratedLesson>)
    requires AreIdeal(u) && HasDistinctIds(items) && forall i, j :: 0 <= i < j < |lessons| ==> lessons[i].id != lessons[j].id
    ensures var edges := ItemEdges(u, run, items) + LessonEdges(u, run, lessons);
      forall i, j :: 0 <= i < j < |edges| ==> edges[i].id != edges[j].id
  {
    hide AreIdeal, EdgeId;
    var edges := ItemEdges(u, run, items) + LessonEdges(u, run, lessons);
    forall i, j | 0 <= i < j < |edges| ensures edges[i].id != edges[j].id {
      assert edges[i].id == EdgeId(u, run, edges[i].target) && edges[j].id == EdgeId(u, run, edges[j].target);
      assert edges[i].target != edges[j].target;
      if edges[i].id == edges[j].id { SameEdgeId(u, run, edges[i].target, run, edges[j].target); }
    }
  }

  /* ---------- queries ---------- */

  /** The rows of a run that a filter admits, each once. */
  ghost predicate IsQuery<T>(rows: Table<T>, run: Id, filter: T -> bool, answer: seq<T>) {
    && Distinct(answer)
    && (forall x | x in answer :: filter(x) && exists k :: k in rows && rows[k] == Owned(run, x))
    && (forall k | k in rows && rows[k].run == run && filter(rows[k].row) :: rows[k].row in answer)
  }

  /** A query for rows that were added to none answers with those of the added rows that the filter admits. */
  lemma QueryOfAdded<T>(rows: Table<T>, run: Id, id: T -> Id, clash: (T, T) -> bool, xs: seq<T>, filter: T -> bool, answer: seq<T>)
    requires AllFit(rows, run, id, clash, xs) && IsQuery(Added(rows, run, id, xs), run, filter, answer)
    requires forall k | k in rows && rows[k].run == run :: !filter(rows[k].row)
    ensures Distinct(answer) && forall x | x in answer :: x in xs && filter(x)
    ensures forall x | x in xs && filter(x) :: x in answer
  {
    var now := Added(rows, run, id, xs);
    AddedAt(rows, run, id, clash, xs);
    forall x | x in answer ensures x in xs && filter(x) {
      var k :| k in now && now[k] == Owned(run, x);
      if k !in rows { var i :| 0 <= i < |xs| && id(xs[i]) == k; }
    }
    forall x | x in xs && filter(x) ensures x in answer {
      var i :| 0 <= i < |xs| && xs[i] == x;
      assert now[id(x)] == Owned(run, x);
    }
  }

  /* ---------- from the stored plan to the draft ---------- */

  predicate IsAny(x: Item) {
    true
  }

  predicate IsModule(x: Item) {
    x.kind == ModuleItem
  }

  predicate IsLesson(x: Item) {
    x.kind == LessonItem
  }

  predicate IsFirstRevision(x: GeneratedLesson) {
    true
  }

  predicate IsLessonEdge(x: SourceEdge) {
    x.target.GeneratedArtifact?
  }

  /** What the stages of a run read: the stored blueprint before generation, the four lists of the canonicalization. */
  datatype Reads = Reads(blueprint: seq<Item>, modules: seq<Item>, lessonItems: seq<Item>,
                         artifacts: seq<GeneratedLesson>, edges: seq<SourceEdge>)

  ghost predicate ReadsBlueprint(s: Rows, run: Id, read: Reads) {
    IsQuery(s.items, run, IsAny, read.blueprint) && forall i, j :: 0 <= i < j < |read.blueprint| ==> KindOrder(read.blueprint[i], read.blueprint[j])
  }

  ghost predicate ReadsDraft(s: Rows, run: Id, read: Reads) {
    && IsQuery(s.items, run, IsModule, read.modules) && InPositionOrder(read.modules)
    && IsQuery(s.items, run, IsLesson, read.lessonItems)
    && IsQuery(s.artifacts, run, IsFirstRevision, read.artifacts)
    && IsQuery(s.edges, run, IsLessonEdge, read.edges)
  }

  /** The stored plan is read back in full. */
  lemma BlueprintIsReloaded(u: Uuids, s: Rows, run: Id, sections: seq<SourceSection>, read: Reads)
    requires AreIdeal(u) && IsUsableSource(sections) && AreDerived(u, s) && HasNoPlan(s, run)
    requires ReadsBlueprint(WithPlan(s, u, run, PlannedItems(u, run, sections)), run, read)
    ensures IsReload(PlannedItems(u, run, sections), read.blueprint)
  {
    hide AreIdeal, IsUsableSource, PlannedItems, ModuleId, LessonId, AreDerived, AllFit, Added, IsQuery;
    var plan := PlannedItems(u, run, sections);
    PlanIsStored(u, s, run, sections);
    QueryOfAdded(s.items, run, ItemKey, SamePlace, plan, IsAny, read.blueprint);
  }

  lemma FilteredAnswer(stored: seq<Item>, loaded: seq<Item>, kind: ItemKind, answer: seq<Item>)
    requires IsAnswer(stored, loaded) && Distinct(answer)
    requires forall x :: x in answer <==> x in stored && x.kind == kind
    ensures IsAnswer(ItemsOf(loaded, kind), answer)
  {
    hide ItemsOf;
    forall x ensures x in ItemsOf(loaded, kind) <==> x in answer { ItemsOfHolds(loaded, kind, x); }
  }

  /** The plan leaves no trace of lessons, and every lesson item is in the item table. */
  lemma PlanLeavesNoLessons(u: Uuids, s: Rows, run: Id, sections: seq<SourceSection>)
    requires AreIdeal(u) && IsUsableSource(sections) && AreDerived(u, s) && HasNoPlan(s, run) && HasNoLessons(s, run)
    ensures var now := WithPlan(s, u, run, PlannedItems(u, run, sections));
      && HasNoLessons(now, run)
      && forall x | x in PlannedItems(u, run, sections) :: x.id in now.items && now.items[x.id] == Owned(run, x)
  {
    hide AreIdeal, IsUsableSource, PlannedItems, ModuleId, LessonId, EdgeId, AreDerived, AllFit, Added;
    var plan := PlannedItems(u, run, sections);
    var edges := ItemEdges(u, run, plan);
    PlanIsStored(u, s, run, sections);
    AddedAt(s.items, run, ItemKey, SamePlace, plan);
    AddedAt(s.edges, run, EdgeKey, NoClash, edges);
  }

  /** The generated lessons of a stored plan fit the artifacts and the edges that are there. */
  lemma GeneratedIsStored(u: Uuids, digest: Json -> string, s: Rows, run: Id, sections: seq<SourceSection>, lessons: seq<GeneratedLesson>)
    requires AreIdeal(u) && IsValidSource(sections) && AreDerived(u, s) && HasNoPlan(s, run) && HasNoLessons(s, run)
    requires IsAnswer(Artifacts(u, digest, run, sections), lessons)
    ensures LessonsFit(WithPlan(s, u, run, PlannedItems(u, run, sections)), u, run, lessons)
  {
    hide AreIdeal, IsUsableSource, PlannedItems, AreDerived, AllFit, ModuleId, LessonId, ArtifactId, EdgeId, WithPlan, HasNoLessons;
    var now := WithPlan(s, u, run, PlannedItems(u, run, sections));
    PlanIsStored(u, s, run, sections);
    PlanLeavesNoLessons(u, s, run, sections);
    PlannedKinds(u, run, sections);
    forall x | x in lessons
      ensures x.id == ArtifactIdOf(u, run, x)
      ensures x.item in now.items && now.items[x.item].run == run && now.items[x.item].row.kind == LessonItem
    {
      var i :| 0 <= i < |sections| && Artifacts(u, digest, run, sections)[i] == x;
      ArtifactNames(u, digest, run, sections[i]);
      var item := Lessons(u, run, sections)[i];
      ItemsOfHolds(PlannedItems(u, run, sections), LessonItem, item);
    }
    ArtifactKeysDiffer(u, digest, run, sections);
    ArtifactAnswerKeys(Artifacts(u, digest, run, sections), lessons);
    LessonsAreStored(u, now, run, lessons);
  }

  /** The canonicalization reads exactly the modules and lesson items of the plan, the generated lessons and their edges. */
  lemma DraftIsRead(u: Uuids, s: Rows, run: Id, sections: seq<SourceSection>, lessons: seq<GeneratedLesson>, read: Reads)
    requires AreIdeal(u) && IsUsableSource(sections) && AreDerived(u, s) && HasNoPlan(s, run) && HasNoLessons(s, run)
    requires ReadsBlueprint(WithPlan(s, u, run, PlannedItems(u, run, sections)), run, read)
    requires LessonsFit(WithPlan(s, u, run, PlannedItems(u, run, sections)), u, run, lessons)
    requires ReadsDraft(WithLessons(WithPlan(s, u, run, PlannedItems(u, run, sections)), u, run, lessons), run, read)
    ensures IsAnswer(ItemsOf(read.blueprint, ModuleItem), read.modules) && IsAnswer(ItemsOf(read.blueprint, LessonItem), read.lessonItems)
    ensures IsAnswer(lessons, read.artifacts) && IsAnswer(LessonEdges(u, run, lessons), read.edges)
  {
    hide AreIdeal, IsUsableSource, PlannedItems, ModuleId, LessonId, ArtifactId, EdgeId, AreDerived, AllFit, Added, IsQuery, ItemsOf;
    var plan := PlannedItems(u, run, sections);
    var now := WithPlan(s, u, run, plan);
    PlanIsStored(u, s, run, sections);
    PlanLeavesNoLessons(u, s, run, sections);
    BlueprintIsReloaded(u, s, run, sections, read);
    QueryOfAdded(s.items, run, ItemKey, SamePlace, plan, IsModule, read.modules);
    FilteredAnswer(plan, read.blueprint, ModuleItem, read.modules);
    QueryOfAdded(s.items, run, ItemKey, SamePlace, plan, IsLesson, read.lessonItems);
    FilteredAnswer(plan, read.blueprint, LessonItem, read.lessonItems);
    QueryOfAdded(now.artifacts, run, ArtifactKey, SameItem, lessons, IsFirstRevision, read.artifacts);
    QueryOfAdded(now.edges, run, EdgeKey, NoClash, LessonEdges(u, run, lessons), IsLessonEdge, read.edges);
  }

  lemma ModulesAreOrdered(s: Rows, run: Id, read: Reads)
    requires ReadsDraft(s, run, read)
    ensures InPositionOrder(read.modules)
  {}

  lemma StoredAndChecked(u: Uuids, digest: Json -> string, run: Id, b: Blueprint, sections: seq<SourceSection>)
    requires AreIdeal(u) && IsValidSource(sections) && IsReload(PlannedItems(u, run, sections), b.items)
    ensures var lessons := Generated(u, digest, run, b, sections);
      lessons.Ok? && LessonsError(u, digest, b, lessons.value, sections).None? && IsAnswer(Artifacts(u, digest, run, sections), lessons.value)
  {
    hide AreIdeal, IsUsableSource, PlannedItems, Generated, LessonsError, IsAnswer;
    assert IsAnswer(PlannedItems(u, run, sections), b.items);
    StoredArtifacts(u, digest, run, b, sections);
    GeneratedLessonsAreValid(u, digest, run, b, sections);
  }

  /** The whole run over the stored rows: planned, stored, read back, generated, stored, read back and canonicalized. Whatever
      other runs have stored, no check fails and no insert is refused, and section i of the draft is compiled from section i. */
  lemma EvidenceCompiles(u: Uuids, digest: Json -> string, s: Rows, run: Id, sourceTitle: string, sections: seq<SourceSection>, read: Reads)
    requires AreIdeal(u) && IsValidSource(sections) && !IsBlank(Cut(Strip(sourceTitle), MAX_TITLE))
    requires AreDerived(u, s) && HasNoPlan(s, run) && HasNoLessons(s, run)
    ensures var plan := Planned(u, run, sourceTitle, sections);
      && plan.Ok? && BlueprintError(u, run, plan.value, sections).None? && PlanFits(s, u, run, plan.value.items)
      && var stored := WithPlan(s, u, run, plan.value.items);
         ReadsBlueprint(stored, run, read) ==>
           var blueprint := plan.value.(items := read.blueprint);
           var lessons := Generated(u, digest, run, blueprint, sections);
           && lessons.Ok? && LessonsError(u, digest, blueprint, lessons.value, sections).None? && LessonsFit(stored, u, run, lessons.value)
           && (ReadsDraft(WithLessons(stored, u, run, lessons.value), run, read) ==>
                 DraftsFrom(sections, Canonicalized(read.modules, read.lessonItems, read.artifacts, read.edges)))
  {
    hide AreIdeal, IsUsableSource, PlannedItems, AreDerived, HasNoPlan, HasNoLessons, PlanFits, WithPlan, WithLessons, LessonsFit, IsReload,
         Generated, Canonicalized, Strip, BlueprintError, LessonsError, ItemsOf, ReadsDraft, ReadsBlueprint, IsAnswer, IsBlank;
    PlanIsValid(u, run, sourceTitle, sections);
    var plan := PlannedItems(u, run, sections);
    PlanIsStored(u, s, run, sections);
    var stored := WithPlan(s, u, run, plan);
    if ReadsBlueprint(stored, run, read) {
      BlueprintIsReloaded(u, s, run, sections, read);
      var blueprint := Planned(u, run, sourceTitle, sections).value.(items := read.blueprint);
      StoredAndChecked(u, digest, run, blueprint, sections);
      var lessons := Generated(u, digest, run, blueprint, sections).value;
      GeneratedIsStored(u, digest, s, run, sections, lessons);
      if ReadsDraft(WithLessons(stored, u, run, lessons), run, read) {
        DraftIsRead(u, s, run, sections, lessons, read);
        ModulesAreOrdered(WithLessons(stored, u, run, lessons), run, read);
        SourcesCompile(u, digest, run, sourceTitle, sections, read.blueprint, read.modules, read.lessonItems, read.artifacts, read.edges);
      }
    }
  }

  predicate DraftsFrom(sections: seq<SourceSection>, draft: Result<seq<SectionInput>, CompileError>) {
    draft.Ok? && |draft.value| == |sections| && forall i :: 0 <= i < |sections| ==> draft.value[i] == CompiledSection(sections[i])
  }
}

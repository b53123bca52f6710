/** The service side of a curriculum replacement: the tree `_materialize_curriculum` computes and the payload made of it. */
module CurriculumService {
  import opened Prelude
  import opened CourseTree

  /** The ids that `new_uuid` would give to the nodes of a command, by their place in it. */
  datatype LessonNames = LessonNames(id: Id, blocks: nat -> Id)
  datatype SectionNames = SectionNames(id: Id, lessons: nat -> LessonNames)
  type Naming = nat -> SectionNames

  datatype LifecycleError = ResourceNotFound | VersionConflict

  /* ---------- one node ---------- */

  function IdOf(identity: Identity, newId: Id): Id {
    match identity
    case New => newId
    case Kept(id, _) => id
  }

  /** `_preserved`, and the parent check that follows it for lessons and blocks. */
  function PreservedError<T>(rows: map<Id, Row<T>>, identity: Identity, parent: Id): Option<LifecycleError> {
    match identity
    case New => None
    case Kept(id, expected) =>
      if id !in rows then Some(ResourceNotFound)
      else if expected != rows[id].rowVersion then Some(VersionConflict)
      else if rows[id].parent != parent then Some(ResourceNotFound)
      else None
  }

  /** A kept row's version grows by one exactly when its position or body changes; a new row starts at one. */
  function RowVersion<T(==)>(rows: map<Id, Row<T>>, identity: Identity, position: int, body: T): int {
    match identity
    case New => 1
    case Kept(id, _) =>
      if id !in rows then 1
      else if rows[id].position != position || rows[id].body != body then rows[id].rowVersion + 1
      else rows[id].rowVersion
  }

  function EntryFor<T(==)>(rows: map<Id, Row<T>>, version: Id, parent: Id, identity: Identity, newId: Id, position: int, body: T)
    : (e: Entry<T>)
    ensures e.id == IdOf(identity, newId) && e.row.position == position && e.row.body == body && e.row.parent == parent
  {
    Entry(IdOf(identity, newId), Row(version, parent, position, RowVersion(rows, identity, position, body), body))
  }

  /* ---------- the tree of a command ---------- */

  function BlockFor(t: Tables, v: Id, lesson: Id, node: BlockInput, newId: Id): Block {
    EntryFor(t.blocks, v, lesson, node.identity, newId, node.position, node.body)
  }

  function BlocksFor(t: Tables, v: Id, lesson: Id, nodes: seq<BlockInput>, names: nat -> Id): (bs: seq<Block>)
    ensures |bs| == |nodes| && forall k :: 0 <= k < |bs| ==> bs[k] == BlockFor(t, v, lesson, nodes[k], names(k))
  {
    seq(|nodes|, k requires 0 <= k < |nodes| => BlockFor(t, v, lesson, nodes[k], names(k)))
  }

  function LessonFor(t: Tables, v: Id, section: Id, node: LessonInput, names: LessonNames): Lesson {
    var entry := EntryFor(t.lessons, v, section, node.identity, names.id, node.position, node.body);
    Lesson(entry, SortBlocks(BlocksFor(t, v, entry.id, node.blocks, names.blocks)))
  }

  function LessonsFor(t: Tables, v: Id, section: Id, nodes: seq<LessonInput>, names: nat -> LessonNames): (ls: seq<Lesson>)
    ensures |ls| == |nodes| && forall j :: 0 <= j < |ls| ==> ls[j] == LessonFor(t, v, section, nodes[j], names(j))
  {
    seq(|nodes|, j requires 0 <= j < |nodes| => LessonFor(t, v, section, nodes[j], names(j)))
  }

  function SectionFor(t: Tables, v: Id, node: SectionInput, names: SectionNames): Section {
    var entry := EntryFor(t.sections, v, v, node.identity, names.id, node.position, node.body);
    Section(entry, SortLessons(LessonsFor(t, v, entry.id, node.lessons, names.lessons)))
  }

  function SectionsFor(t: Tables, v: Id, nodes: seq<SectionInput>, naming: Naming): (ss: seq<Section>)
    ensures |ss| == |nodes| && forall i :: 0 <= i < |ss| ==> ss[i] == SectionFor(t, v, nodes[i], naming(i))
  {
    seq(|nodes|, i requires 0 <= i < |nodes| => SectionFor(t, v, nodes[i], naming(i)))
  }

  /* ---------- the errors of a command, in the order they are met ---------- */

  function FirstSome<E>(xs: seq<Option<E>>): Option<E> {
    if xs == [] then None else if xs[0].Some? then xs[0] else FirstSome(xs[1..])
  }

  lemma {:induction false} FirstSomeAt<E>(xs: seq<Option<E>>, k: nat)
    requires k < |xs| && xs[k].Some? && forall i :: 0 <= i < k ==> xs[i].None?
    ensures FirstSome(xs) == xs[k]
  {
    if k > 0 { FirstSomeAt(xs[1..], k - 1); }
  }

  lemma {:induction false} FirstSomeOfNone<E>(xs: seq<Option<E>>)
    ensures FirstSome(xs).None? <==> forall i :: 0 <= i < |xs| ==> xs[i].None?
  {
    if xs != [] {
      FirstSomeOfNone(xs[1..]);
      assert forall i :: 0 < i < |xs| ==> xs[i] == xs[1..][i - 1];
    }
  }

  function BlockErrors(t: Tables, lesson: Id, nodes: seq<BlockInput>): (es: seq<Option<LifecycleError>>)
    ensures |es| == |nodes|
    ensures forall k :: 0 <= k < |es| ==> es[k] == PreservedError(t.blocks, nodes[k].identity, lesson)
  {
    seq(|nodes|, k requires 0 <= k < |nodes| => PreservedError(t.blocks, nodes[k].identity, lesson))
  }

  function LessonError(t: Tables, section: Id, node: LessonInput, names: LessonNames): Option<LifecycleError> {
    var own := PreservedError(t.lessons, node.identity, section);
    if own.Some? then own else FirstSome(BlockErrors(t, IdOf(node.identity, names.id), node.blocks))
  }

  function LessonErrors(t: Tables, section: Id, nodes: seq<LessonInput>, names: nat -> LessonNames): (es: seq<Option<LifecycleError>>)
    ensures |es| == |nodes| && forall j :: 0 <= j < |es| ==> es[j] == LessonError(t, section, nodes[j], names(j))
  {
    seq(|nodes|, j requires 0 <= j < |nodes| => LessonError(t, section, nodes[j], names(j)))
  }

  function SectionError(t: Tables, v: Id, node: SectionInput, names: SectionNames): Option<LifecycleError> {
    var own := PreservedError(t.sections, node.identity, v);
    if own.Some? then own else FirstSome(LessonErrors(t, IdOf(node.identity, names.id), node.lessons, names.lessons))
  }

  function SectionErrors(t: Tables, v: Id, nodes: seq<SectionInput>, naming: Naming): (es: seq<Option<LifecycleError>>)
    ensures |es| == |nodes| && forall i :: 0 <= i < |es| ==> es[i] == SectionError(t, v, nodes[i], naming(i))
  {
    seq(|nodes|, i requires 0 <= i < |nodes| => SectionError(t, v, nodes[i], naming(i)))
  }

  /** What `_materialize_curriculum` computes from the dictionaries `t` of the current tree. */
  function Materialized(t: Tables, v: Id, nodes: seq<SectionInput>, naming: Naming): Result<seq<Section>, LifecycleError> {
    match FirstSome(SectionErrors(t, v, nodes, naming))
    case Some(e) => Err(e)
    case None => Ok(SortSections(SectionsFor(t, v, nodes, naming)))
  }

  /* ---------- the loops ---------- */

  method Preserve<T(==)>(rows: map<Id, Row<T>>, v: Id, parent: Id, identity: Identity, newId: Id, position: int, body: T)
    returns (r: Result<Entry<T>, LifecycleError>)
    ensures r == match PreservedError(rows, identity, parent) {
                   case Some(e) => Err(e)
                   case None => Ok(EntryFor(rows, v, parent, identity, newId, position, body))
                 }
  {
    var id, rowVersion := newId, 1;
    if identity.Kept? {
      id := identity.id;
      if id !in rows { return Err(ResourceNotFound); }
      var previous := rows[id];
      if identity.expectedRowVersion != previous.rowVersion { return Err(VersionConflict); }
      if previous.parent != parent { return Err(ResourceNotFound); }
      var changed := previous.position != position || previous.body != body;
      rowVersion := previous.rowVersion + (if changed then 1 else 0);
    }
    r := Ok(Entry(id, Row(v, parent, position, rowVersion, body)));
  }

  method MaterializeBlocks(t: Tables, v: Id, lesson: Id, nodes: seq<BlockInput>, names: nat -> Id)
    returns (r: Result<seq<Block>, LifecycleError>)
    ensures var e := FirstSome(BlockErrors(t, lesson, nodes));
      r == if e.Some? then Err(e.value) else Ok(BlocksFor(t, v, lesson, nodes, names))
  {
    hide FirstSome, PreservedError, EntryFor, BlockErrors, BlocksFor;
    ghost var errors := BlockErrors(t, lesson, nodes);
    var blocks: seq<Block> := [];
    for k := 0 to |nodes|
      invariant blocks == BlocksFor(t, v, lesson, nodes, names)[..k]
      invariant forall i :: 0 <= i < k ==> errors[i].None?
    {
      var block := Preserve(t.blocks, v, lesson, nodes[k].identity, names(k), nodes[k].position, nodes[k].body);
      if block.Err? {
        FirstSomeAt(errors, k);
        return Err(block.error);
      }
      blocks := blocks + [block.value];
    }
    FirstSomeOfNone(errors);
    assert blocks == BlocksFor(t, v, lesson, nodes, names);
    r := Ok(blocks);
  }

  method MaterializeLessons(t: Tables, v: Id, section: Id, nodes: seq<LessonInput>, names: nat -> LessonNames)
    returns (r: Result<seq<Lesson>, LifecycleError>)
    ensures var e := FirstSome(LessonErrors(t, section, nodes, names));
      r == if e.Some? then Err(e.value) else Ok(LessonsFor(t, v, section, nodes, names))
  {
    hide FirstSome, PreservedError, EntryFor, SortBlocks, BlocksFor, BlockErrors;
    ghost var errors := LessonErrors(t, section, nodes, names);
    var lessons: seq<Lesson> := [];
    for j := 0 to |nodes|
      invariant lessons == LessonsFor(t, v, section, nodes, names)[..j]
      invariant forall i :: 0 <= i < j ==> errors[i].None?
    {
      var node := nodes[j];
      var entry := Preserve(t.lessons, v, section, node.identity, names(j).id, node.position, node.body);
      if entry.Err? {
        FirstSomeAt(errors, j);
        return Err(entry.error);
      }
      var blocks := MaterializeBlocks(t, v, entry.value.id, node.blocks, names(j).blocks);
      if blocks.Err? {
        FirstSomeAt(errors, j);
        return Err(blocks.error);
      }
      lessons := lessons + [Lesson(entry.value, SortBlocks(blocks.value))];
    }
    FirstSomeOfNone(errors);
    assert lessons == LessonsFor(t, v, section, nodes, names);
    r := Ok(lessons);
  }

  /** The current sections all belong to the version, so a section needs no parent check of its own. */
  method MaterializeCurriculum(t: Tables, v: Id, nodes: seq<SectionInput>, naming: Naming)
    returns (r: Result<seq<Section>, LifecycleError>)
    requires forall k | k in t.sections :: t.sections[k].parent == v
    ensures r == Materialized(t, v, nodes, naming)
  {
    hide FirstSome, PreservedError, EntryFor, SortLessons, SortSections, LessonsFor, LessonErrors;
    ghost var errors := SectionErrors(t, v, nodes, naming);
    var sections: seq<Section> := [];
    for i := 0 to |nodes|
      invariant sections == SectionsFor(t, v, nodes, naming)[..i]
      invariant forall k :: 0 <= k < i ==> errors[k].None?
    {
      var node := nodes[i];
      var entry := Preserve(t.sections, v, v, node.identity, naming(i).id, node.position, node.body);
      if entry.Err? {
        FirstSomeAt(errors, i);
        return Err(entry.error);
      }
      var lessons := MaterializeLessons(t, v, entry.value.id, node.lessons, naming(i).lessons);
      if lessons.Err? {
        FirstSomeAt(errors, i);
        return Err(lessons.error);
      }
      sections := sections + [Section(entry.value, SortLessons(lessons.value))];
    }
    FirstSomeOfNone(errors);
    assert sections == SectionsFor(t, v, nodes, naming);
    r := Ok(SortSections(sections));
  }
}

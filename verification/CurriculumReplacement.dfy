/** The whole replacement: service, adapter and repository together leave the tree that the service announced. */
module CurriculumReplacement {
  import opened Prelude
  import opened CanonicalJson
  import opened CourseTree
  import opened ContentProjection
  import opened CurriculumService
  import opened CurriculumFaults
  import opened CurriculumTable
  import opened CourseRepository
  import opened CurriculumRefinement
  import opened CurriculumRoundTrip

  /* ---------- equal up to the ids of new nodes ---------- */

  /** The same row, and the same id unless both ids are new. */
  predicate SameEntry<T(==)>(stored: map<Id, Row<T>>, a: Entry<T>, b: Entry<T>) {
    && a.row.(parent := b.row.parent) == b.row
    && (a.id in stored || b.id in stored ==> a.id == b.id)
  }

  predicate SameBlocks(t: Tables, a: seq<Block>, b: seq<Block>) {
    |a| == |b| && forall k :: 0 <= k < |a| ==> SameEntry(t.blocks, a[k], b[k])
  }

  predicate SameLesson(t: Tables, a: Lesson, b: Lesson) {
    SameEntry(t.lessons, a.entry, b.entry) && SameBlocks(t, a.blocks, b.blocks)
  }

  predicate SameLessons(t: Tables, a: seq<Lesson>, b: seq<Lesson>) {
    |a| == |b| && forall j :: 0 <= j < |a| ==> SameLesson(t, a[j], b[j])
  }

  predicate SameSection(t: Tables, a: Section, b: Section) {
    SameEntry(t.sections, a.entry, b.entry) && SameLessons(t, a.lessons, b.lessons)
  }

  predicate SameTree(t: Tables, a: seq<Section>, b: seq<Section>) {
    |a| == |b| && forall i :: 0 <= i < |a| ==> SameSection(t, a[i], b[i])
  }

  lemma SortIsIdentity<T>(xs: seq<T>, keys: seq<int>)
    requires |xs| == |keys| && StrictlyAscending(keys)
    ensures Permute(xs, Order(keys)) == xs
  {
    OrderOfAscending(keys);
  }

  lemma SameEntries<T>(rows: map<Id, Row<T>>, v: Id, parent: Id, parent': Id, identity: Identity, name: Id, name': Id, position: int, body: T)
    requires name !in rows && name' !in rows
    ensures SameEntry(rows, EntryFor(rows, v, parent, identity, name, position, body), EntryFor(rows, v, parent', identity, name', position, body))
  {}

  lemma SameBlocksFor(t: Tables, v: Id, lesson: Id, lesson': Id, nodes: seq<BlockInput>, names: nat -> Id, names': nat -> Id)
    requires Distinct(BlockPositions(nodes))
    requires forall k: nat :: names(k) !in t.blocks && names'(k) !in t.blocks
    ensures SameBlocks(t, SortBlocks(BlocksFor(t, v, lesson, nodes, names)), SortBlocks(BlocksFor(t, v, lesson', SortedBlocks(nodes), names')))
  {
    hide EntryFor, SameEntry, IsStableOrder, Order;
    var keys := BlockPositions(nodes);
    var order := Order(keys);
    InRangeOrder(keys);
    PermuteSorts(keys, keys);
    var blocks, blocks' := BlocksFor(t, v, lesson, nodes, names), BlocksFor(t, v, lesson', SortedBlocks(nodes), names');
    assert Positions(blocks) == keys && Positions(blocks') == Permute(keys, order);
    SortIsIdentity(blocks', Positions(blocks'));
    forall k | 0 <= k < |order| ensures SameEntry(t.blocks, SortBlocks(blocks)[k], blocks'[k]) {
      var node := nodes[order[k]];
      SameEntries(t.blocks, v, lesson, lesson', node.identity, names(order[k]), names'(k), node.position, node.body);
    }
  }

  predicate HasDistinctBlocks(node: LessonInput) {
    Distinct(BlockPositions(node.blocks))
  }

  ghost predicate FreshLessonNames(t: Tables, names: LessonNames) {
    names.id !in t.lessons && forall k: nat :: names.blocks(k) !in t.blocks
  }

  lemma SameLessonFor(t: Tables, v: Id, section: Id, section': Id, node: LessonInput, names: LessonNames, names': LessonNames)
    requires HasDistinctBlocks(node) && FreshLessonNames(t, names) && FreshLessonNames(t, names')
    ensures SameLesson(t, LessonFor(t, v, section, node, names), LessonFor(t, v, section', SortedLesson(node), names'))
  {
    hide SameEntry, EntryFor, SameBlocks;
    SameEntries(t.lessons, v, section, section', node.identity, names.id, names'.id, node.position, node.body);
    SameBlocksFor(t, v, IdOf(node.identity, names.id), IdOf(node.identity, names'.id), node.blocks, names.blocks, names'.blocks);
  }

  lemma SameLessonsFor(t: Tables, v: Id, section: Id, section': Id, nodes: seq<LessonInput>, names: nat -> LessonNames, names': nat -> LessonNames)
    requires Distinct(LessonPositions(nodes)) && forall n | n in nodes :: HasDistinctBlocks(n)
    requires forall j: nat :: FreshLessonNames(t, names(j)) && FreshLessonNames(t, names'(j))
    ensures SameLessons(t, SortLessons(LessonsFor(t, v, section, nodes, names)), SortLessons(LessonsFor(t, v, section', SortedLessons(nodes), names')))
  {
    hide SameLesson, LessonFor, IsStableOrder, Order, FreshLessonNames, HasDistinctBlocks, SortedLesson;
    var keys := LessonPositions(nodes);
    var order := Order(keys);
    InRangeOrder(keys);
    PermuteSorts(keys, keys);
    var sorted := SortedLessons(nodes);
    var lessons, lessons' := LessonsFor(t, v, section, nodes, names), LessonsFor(t, v, section', sorted, names');
    LessonPositionsOf(t, v, section, nodes, names);
    LessonPositionsOf(t, v, section', sorted, names');
    SortedLessonPositions(nodes);
    SortIsIdentity(lessons', LessonPositions(sorted));
    forall j | 0 <= j < |order| ensures SameLesson(t, SortLessons(lessons)[j], lessons'[j]) {
      assert nodes[order[j]] in nodes;
      SameLessonFor(t, v, section, section', nodes[order[j]], names(order[j]), names'(j));
    }
  }

  lemma SortedLessonPositions(nodes: seq<LessonInput>)
    ensures LessonPositions(SortedLessons(nodes)) == Permute(LessonPositions(nodes), Order(LessonPositions(nodes)))
  {}

  lemma SortedSectionPositions(nodes: seq<SectionInput>)
    ensures SectionPositions(SortedSections(nodes)) == Permute(SectionPositions(nodes), Order(SectionPositions(nodes)))
  {}

  lemma SameSectionFor(t: Tables, v: Id, nodes: seq<SectionInput>, i: nat, f: Naming, g: Naming, i': nat)
    requires DistinctPositions(nodes) && NamesAreFresh(t, f) && NamesAreFresh(t, g) && i < |nodes|
    ensures SameSection(t, SectionFor(t, v, nodes[i], f(i)), SectionFor(t, v, SortedSection(nodes[i]), g(i')))
  {
    hide SameEntry, EntryFor, SameLessons;
    var node := nodes[i];
    SameEntries(t.sections, v, v, v, node.identity, f(i).id, g(i').id, node.position, node.body);
    assert forall j, j' | 0 <= j < j' < |node.lessons| :: IsLesson(nodes, i, j) && IsLesson(nodes, i, j');
    forall n | n in node.lessons ensures HasDistinctBlocks(n) {
      var j :| 0 <= j < |node.lessons| && node.lessons[j] == n;
      assert forall k, k' | 0 <= k < k' < |n.blocks| :: IsBlock(nodes, i, j, k) && IsBlock(nodes, i, j, k');
    }
    SameLessonsFor(t, v, SectionId(nodes, f, i), IdOf(node.identity, g(i').id), node.lessons, f(i).lessons, g(i').lessons);
  }

  /** Materializing a command, and materializing it sorted under other names, give the same tree up to new ids. */
  lemma SameMaterialized(t: Tables, v: Id, nodes: seq<SectionInput>, f: Naming, g: Naming)
    requires DistinctPositions(nodes) && NamesAreFresh(t, f) && NamesAreFresh(t, g)
    ensures SameTree(t, SortSections(SectionsFor(t, v, nodes, f)), SortSections(SectionsFor(t, v, SortedSections(nodes), g)))
  {
    hide SameSection, SectionFor, IsStableOrder, Order, NamesAreFresh, SortedSection;
    var keys := SectionPositions(nodes);
    var order := Order(keys);
    InRangeOrder(keys);
    PermuteSorts(keys, keys);
    var sorted := SortedSections(nodes);
    var sections, sections' := SectionsFor(t, v, nodes, f), SectionsFor(t, v, sorted, g);
    SectionPositionsOf(t, v, nodes, f);
    SectionPositionsOf(t, v, sorted, g);
    SortedSectionPositions(nodes);
    SortIsIdentity(sections', SectionPositions(sorted));
    forall i | 0 <= i < |order| ensures SameSection(t, SortSections(sections)[i], sections'[i]) {
      SameSectionFor(t, v, nodes, order[i], f, g, i);
    }
  }

  /** Trees that are equal up to new ids say the same, so they have the same content hash. */
  lemma SameTreeSameMeaning(t: Tables, a: seq<Section>, b: seq<Section>)
    requires SameTree(t, a, b) && HasPositions(a) && HasPositions(b)
    ensures Meaning(a) == Meaning(b)
  {
    hide ByKey;
    forall i | 0 <= i < |a| ensures MeaningOfSection(a[i]) == MeaningOfSection(b[i]) {
      SameSectionSameMeaning(t, a[i], b[i]);
    }
    assert Positions(SectionEntries(a)) == Positions(SectionEntries(b));
    assert MeaningsOfSections(a) == MeaningsOfSections(b);
  }

  lemma SameSectionSameMeaning(t: Tables, a: Section, b: Section)
    requires SameSection(t, a, b) && SectionHasPositions(a) && SectionHasPositions(b)
    ensures MeaningOfSection(a) == MeaningOfSection(b)
  {
    hide ByKey;
    forall j | 0 <= j < |a.lessons| ensures MeaningOfLesson(a.lessons[j]) == MeaningOfLesson(b.lessons[j]) {
      var x, y := a.lessons[j].blocks, b.lessons[j].blocks;
      assert SameLesson(t, a.lessons[j], b.lessons[j]);
      assert Positions(x) == Positions(y) && BlockBodies(x) == BlockBodies(y);
    }
    assert Positions(LessonEntries(a.lessons)) == Positions(LessonEntries(b.lessons));
    assert MeaningsOfLessons(a.lessons) == MeaningsOfLessons(b.lessons);
  }

  lemma RepresentedHasPositions(t: Tables, v: Id, tree: seq<Section>)
    requires Represents(t, v, tree)
    ensures HasPositions(tree)
  {}

  /* ---------- the dictionaries of the current tree ---------- */

  /** `{item.id: item for item in items}` */
  function EntryMap<T>(entries: seq<Entry<T>>): map<Id, Row<T>> {
    if entries == [] then map[]
    else EntryMap(entries[..|entries| - 1])[entries[|entries| - 1].id := entries[|entries| - 1].row]
  }

  function AllLessons(tree: seq<Section>): seq<Lesson> {
    if tree == [] then [] else AllLessons(tree[..|tree| - 1]) + tree[|tree| - 1].lessons
  }

  function AllBlocks(lessons: seq<Lesson>): seq<Block> {
    if lessons == [] then [] else AllBlocks(lessons[..|lessons| - 1]) + lessons[|lessons| - 1].blocks
  }

  function Dictionaries(tree: seq<Section>): Tables {
    var lessons := AllLessons(tree);
    Tables(EntryMap(SectionEntries(tree)), EntryMap(LessonEntries(lessons)), EntryMap(AllBlocks(lessons)))
  }

  lemma {:induction false} AllLessonsHolds(tree: seq<Section>, l: Lesson)
    ensures l in AllLessons(tree) <==> exists s :: s in tree && l in s.lessons
  {
    if tree != [] {
      var last := |tree| - 1;
      AllLessonsHolds(tree[..last], l);
      assert tree == tree[..last] + [tree[last]];
    }
  }

  lemma {:induction false} AllBlocksHolds(lessons: seq<Lesson>, b: Block)
    ensures b in AllBlocks(lessons) <==> exists l :: l in lessons && b in l.blocks
  {
    if lessons != [] {
      var last := |lessons| - 1;
      AllBlocksHolds(lessons[..last], b);
      assert lessons == lessons[..last] + [lessons[last]];
    }
  }

  lemma {:induction false} EntryMapHolds<T>(rows: Rows<T>, entries: seq<Entry<T>>)
    requires forall e | e in entries :: e.id in rows && rows[e.id] == e.row
    ensures forall k :: k in EntryMap(entries) <==> exists e :: e in entries && e.id == k
    ensures forall k | k in EntryMap(entries) :: k in rows && EntryMap(entries)[k] == rows[k]
  {
    if entries != [] {
      var last := |entries| - 1;
      EntryMapHolds(rows, entries[..last]);
      assert entries == entries[..last] + [entries[last]];
    }
  }

  lemma EntryMapIsOfVersion<T>(rows: Rows<T>, v: Id, entries: seq<Entry<T>>)
    requires forall e | e in entries :: e.id in rows && rows[e.id] == e.row && e.row.version == v
    requires forall k | k in rows && rows[k].version == v :: Entry(k, rows[k]) in entries
    ensures EntryMap(entries) == OfVersion(rows, v)
  {
    EntryMapHolds(rows, entries);
    assert EntryMap(entries).Keys == OfVersion(rows, v).Keys;
  }

  /** The dictionaries that `_materialize_curriculum` and `_curriculum_payload` build are the stored rows of the version. */
  lemma DictionariesAreStored(t: Tables, v: Id, tree: seq<Section>)
    requires Integrity(t) && Represents(t, v, tree)
    ensures Dictionaries(tree) == TablesOf(t, v)
  {
    var sections, lessons := SectionEntries(tree), AllLessons(tree);
    forall e | e in sections ensures exists s :: s in tree && s.entry == e {
      var i :| 0 <= i < |sections| && sections[i] == e;
      assert tree[i] in tree;
    }
    EntryMapIsOfVersion(t.sections, v, sections);
    LessonsAreStored(t, v, tree);
    BlocksAreStored(t, v, tree);
  }

  lemma LessonsAreStored(t: Tables, v: Id, tree: seq<Section>)
    requires Integrity(t) && Represents(t, v, tree)
    ensures EntryMap(LessonEntries(AllLessons(tree))) == OfVersion(t.lessons, v)
    ensures forall l | l in AllLessons(tree) :: l.entry.id in t.lessons && t.lessons[l.entry.id].version == v
    ensures forall k | k in t.lessons && t.lessons[k].version == v :: exists l :: l in AllLessons(tree) && l.entry == Entry(k, t.lessons[k])
  {
    var lessons := AllLessons(tree);
    var entries := LessonEntries(lessons);
    forall l | l in lessons ensures l.entry.id in t.lessons && t.lessons[l.entry.id] == l.entry.row && l.entry.row.version == v {
      AllLessonsHolds(tree, l);
      var s :| s in tree && l in s.lessons;
      LessonInSection(s, l);
      SectionInTree(tree, s);
    }
    forall e | e in entries ensures e.id in t.lessons && t.lessons[e.id] == e.row && e.row.version == v {
      var n :| 0 <= n < |entries| && entries[n] == e;
      assert lessons[n] in lessons;
    }
    forall k | k in t.lessons && t.lessons[k].version == v
      ensures Entry(k, t.lessons[k]) in entries && exists l :: l in lessons && l.entry == Entry(k, t.lessons[k])
    {
      var l := StoredLessonIsListed(t, v, tree, k);
      LessonInList(lessons, l);
    }
    EntryMapIsOfVersion(t.lessons, v, entries);
  }

  lemma StoredLessonIsListed(t: Tables, v: Id, tree: seq<Section>, k: Id) returns (l: Lesson)
    requires Integrity(t) && Represents(t, v, tree) && k in t.lessons && t.lessons[k].version == v
    ensures l in AllLessons(tree) && l.entry == Entry(k, t.lessons[k])
  {
    var s := t.lessons[k].parent;
    assert Entry(s, t.sections[s]) in SectionEntries(tree);
    var i :| 0 <= i < |tree| && SectionEntries(tree)[i] == Entry(s, t.sections[s]);
    var here := tree[i];
    assert here in tree && Entry(k, t.lessons[k]) in LessonEntries(here.lessons);
    var j :| 0 <= j < |here.lessons| && LessonEntries(here.lessons)[j] == Entry(k, t.lessons[k]);
    l := here.lessons[j];
    AllLessonsHolds(tree, l);
  }

  lemma {:induction false} BlocksAreStored(t: Tables, v: Id, tree: seq<Section>)
    requires Integrity(t) && Represents(t, v, tree)
    ensures EntryMap(AllBlocks(AllLessons(tree))) == OfVersion(t.blocks, v)
  {
    hide AllLessons, AllBlocks;
    LessonsAreStored(t, v, tree);
    var lessons := AllLessons(tree);
    var blocks := AllBlocks(lessons);
    forall b | b in blocks ensures b.id in t.blocks && t.blocks[b.id] == b.row && b.row.version == v {
      AllBlocksHolds(lessons, b);
      var l :| l in lessons && b in l.blocks;
      AllLessonsHolds(tree, l);
    }
    forall k | k in t.blocks && t.blocks[k].version == v ensures Entry(k, t.blocks[k]) in blocks {
      var p := t.blocks[k].parent;
      var l :| l in lessons && l.entry == Entry(p, t.lessons[p]);
      AllLessonsHolds(tree, l);
      AllBlocksHolds(lessons, Entry(k, t.blocks[k]));
    }
    EntryMapIsOfVersion(t.blocks, v, blocks);
  }

  lemma LessonInSection(s: Section, l: Lesson)
    requires l in s.lessons
    ensures l.entry in LessonEntries(s.lessons)
  {
    var j :| 0 <= j < |s.lessons| && s.lessons[j] == l;
    assert LessonEntries(s.lessons)[j] == l.entry;
  }

  lemma LessonInList(lessons: seq<Lesson>, l: Lesson)
    requires l in lessons
    ensures l.entry in LessonEntries(lessons)
  {
    var j :| 0 <= j < |lessons| && lessons[j] == l;
    assert LessonEntries(lessons)[j] == l.entry;
  }

  lemma SectionInTree(tree: seq<Section>, s: Section)
    requires s in tree
    ensures s.entry in SectionEntries(tree)
  {
    var i :| 0 <= i < |tree| && tree[i] == s;
    assert SectionEntries(tree)[i] == s.entry;
  }

  /* ---------- the whole operation ---------- */

  datatype ReplaceError = Lifecycle(error: LifecycleError) | IntegrityError

  lemma FreshInDictionaries(t: Tables, v: Id, naming: Naming)
    requires NamesAreFresh(t, naming)
    ensures NamesAreFresh(TablesOf(t, v), naming)
  {}

  /** `replace_curriculum` after validation and the row-version check, with the adapter's `save` inlined: `f` names the nodes in
      the service, `g` in the database. An IntegrityError passes through `save`, which translates persistence conflicts only. */
  method ReplaceCurriculum(repository: Repository, v: Id, current: seq<Section>, nodes: seq<SectionInput>, f: Naming, g: Naming, scans: Scans)
    returns (r: Option<ReplaceError>, ghost after: seq<Section>)
    requires Integrity(repository.Stored()) && Represents(repository.Stored(), v, current)
    requires DistinctPositions(nodes) && KeptOnce(nodes)
    requires NamesAreFresh(repository.Stored(), f) && NamesAreFresh(repository.Stored(), g)
    requires AreScans(repository.Stored(), v, scans)
    modifies repository.sections, repository.lessons, repository.blocks
    ensures var was, now := old(repository.Stored()), repository.Stored();
      match Materialized(TablesOf(was, v), v, nodes, f) {
        case Err(e) => r == Some(Lifecycle(e)) && now == was && IsFirstFault(was, v, nodes, f, e)
        case Ok(announced) =>
          && HasNoFault(was, v, nodes, f)
          && r.None? == (ShiftsClear(was, v, scans) && NodesPass(was, v, SortedSections(nodes), g))
          && (r.Some? ==> r.value == IntegrityError && now == was)
          && (r.None? ==>
                && Represents(now, v, after) && SameTree(TablesOf(was, v), announced, after)
                && HasPositions(announced) && HasPositions(after) && Meaning(announced) == Meaning(after)
                && Integrity(now) && forall u | u != v :: TablesOf(now, u) == TablesOf(was, u))
      }
  {
    hide Represents, Integrity, NamesAreFresh, DistinctPositions, KeptOnce, Placeable, AllPreserved, NodesMatch, NodesPass, Replaced,
         Materialized, SortedSections, SectionsFor, SortSections, TablesOf, AreScans, ShiftsClear, Addressed, Meaning, HasPositions, SameTree, IsFirstFault,
         HasNoFault;
    after := [];
    ghost var was := repository.Stored();
    DictionariesAreStored(was, v, current);
    FirstFaultIsReported(was, v, nodes, f);
    var dictionaries := Dictionaries(current);
    SectionsBelong(was, v);
    var announced := MaterializeCurriculum(dictionaries, v, nodes, f);
    if announced.Err? {
      return Some(Lifecycle(announced.error)), [];
    }
    AnnouncedTree(was, v, nodes, f);
    AcceptedIsPreserved(dictionaries, v, nodes, f);
    FreshInDictionaries(was, v, f);
    FreshInDictionaries(was, v, g);
    PayloadOfMaterialized(dictionaries, v, nodes, f);
    var payload := CurriculumPayload(dictionaries, announced.value);
    SortedIsPreserved(was, v, nodes, f, g);
    SortedKeepsOnce(nodes);
    SortedKeepsPositions(nodes);
    AcceptedIsPlaceable(was, v, payload, g);
    CommandIsAddressed(was, v, payload, g);
    PreservedIsAccepted(dictionaries, v, payload, g);
    ServiceAndRepositoryAgree(was, v, payload, g);
    var e := repository.ReplaceCurriculumRows(v, payload, g, scans);
    if e.Some? {
      return Some(if e.value.Conflict? then Lifecycle(VersionConflict) else IntegrityError), [];
    }
    after := SortSections(SectionsFor(dictionaries, v, payload, g));
    ReplacedRepresents(was, v, payload, g);
    ReplacedKeepsIntegrity(was, v, payload, g);
    SameMaterialized(dictionaries, v, nodes, f, g);
    MaterializedHasPositions(dictionaries, v, nodes, f);
    RepresentedHasPositions(repository.Stored(), v, after);
    SameTreeSameMeaning(dictionaries, announced.value, after);
    r := None;
  }

  lemma SectionsBelong(t: Tables, v: Id)
    requires Integrity(t)
    ensures forall k | k in TablesOf(t, v).sections :: TablesOf(t, v).sections[k].parent == v
  {}

  lemma AnnouncedTree(t: Tables, v: Id, nodes: seq<SectionInput>, f: Naming)
    requires Materialized(TablesOf(t, v), v, nodes, f).Ok?
    ensures Materialized(TablesOf(t, v), v, nodes, f).value == SortSections(SectionsFor(TablesOf(t, v), v, nodes, f))
  {}

  lemma MaterializedHasPositions(t: Tables, v: Id, nodes: seq<SectionInput>, naming: Naming)
    requires DistinctPositions(nodes)
    ensures HasPositions(SortSections(SectionsFor(t, v, nodes, naming)))
  {
    var sections := SectionsFor(t, v, nodes, naming);
    var keys := SectionPositions(nodes);
    SectionPositionsOf(t, v, nodes, naming);
    PermuteSorts(keys, keys);
    var tree := SortSections(sections);
    assert Positions(SectionEntries(tree)) == Permute(keys, Order(keys));
    forall s | s in tree ensures SectionHasPositions(s) {
      var i := IndexOfSorted(sections, keys, s);
      SectionForHasPositions(t, v, nodes, naming, i);
    }
  }

  lemma SectionForHasPositions(t: Tables, v: Id, nodes: seq<SectionInput>, naming: Naming, i: nat)
    requires DistinctPositions(nodes) && i < |nodes|
    ensures SectionHasPositions(SectionFor(t, v, nodes[i], naming(i)))
  {
    hide LessonFor, LessonHasPositions, Order, IsStableOrder, EntryFor, LessonPositions;
    var node := nodes[i];
    var section := SectionId(nodes, naming, i);
    var lessons := LessonsFor(t, v, section, node.lessons, naming(i).lessons);
    var keys := LessonPositions(node.lessons);
    LessonPositionsOf(t, v, section, node.lessons, naming(i).lessons);
    DistinctLessonPositions(nodes, i);
    InRangeOrder(keys);
    PermuteSorts(keys, keys);
    assert Positions(LessonEntries(SortLessons(lessons))) == Permute(keys, Order(keys));
    forall l | l in SortLessons(lessons) ensures LessonHasPositions(l) {
      var j := IndexOfSorted(lessons, keys, l);
      LessonForHasPositions(t, v, nodes, naming, i, j);
    }
  }

  lemma DistinctLessonPositions(nodes: seq<SectionInput>, i: nat)
    requires DistinctPositions(nodes) && i < |nodes|
    ensures Distinct(LessonPositions(nodes[i].lessons))
  {
    assert forall j, j' | 0 <= j < j' < |nodes[i].lessons| :: IsLesson(nodes, i, j) && IsLesson(nodes, i, j');
  }

  lemma LessonForHasPositions(t: Tables, v: Id, nodes: seq<SectionInput>, naming: Naming, i: nat, j: nat)
    requires DistinctPositions(nodes) && IsLesson(nodes, i, j)
    ensures LessonHasPositions(LessonFor(t, v, SectionId(nodes, naming, i), nodes[i].lessons[j], naming(i).lessons(j)))
  {
    var node := nodes[i].lessons[j];
    var blocks := BlocksFor(t, v, LessonId(nodes, naming, i, j), node.blocks, naming(i).lessons(j).blocks);
    var keys := BlockPositions(node.blocks);
    assert Positions(blocks) == keys;
    assert forall k, k' | 0 <= k < k' < |node.blocks| :: IsBlock(nodes, i, j, k) && IsBlock(nodes, i, j, k');
    PermuteSorts(keys, keys);
    assert Positions(SortBlocks(blocks)) == Permute(keys, Order(keys));
  }
}

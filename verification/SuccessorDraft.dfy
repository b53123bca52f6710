/** The successor draft: cloned rows under new ids in the repository, a copied tree in the service, one content. */
module SuccessorDraft {
  import opened Prelude
  import opened CourseTree
  import opened ContentProjection
  import opened CurriculumService
  import opened CurriculumTable
  import opened CourseRepository
  import opened CurriculumRefinement
  import opened CurriculumReplacement
  import opened SnapshotLoading

  /** The ids that the clones of stored rows are created with. */
  datatype CloneNames = CloneNames(section: Id -> Id, lesson: Id -> Id, block: Id -> Id)

  ghost predicate FreshFor<T>(rows: Rows<T>, name: Id -> Id) {
    && (forall k: Id :: name(k) !in rows)
    && (forall k: Id, m: Id :: k != m ==> name(k) != name(m))
  }

  ghost predicate CloneNamesAreFresh(t: Tables, names: CloneNames) {
    FreshFor(t.sections, names.section) && FreshFor(t.lessons, names.lesson) && FreshFor(t.blocks, names.block)
  }

  function CloneRow<T>(row: Row<T>, u: Id, parent: Id): Row<T> {
    Row(u, parent, row.position, 1, row.body)
  }

  /** `now` is `was` and, under new ids and parents, one clone of every listed row. */
  ghost predicate HasClones<T>(was: Rows<T>, now: Rows<T>, listing: seq<Entry<T>>, u: Id, name: Id -> Id, parentOf: Id -> Id) {
    && (forall k | k in was :: k in now && now[k] == was[k])
    && (forall e | e in listing :: name(e.id) in now && now[name(e.id)] == CloneRow(e.row, u, parentOf(e.row.parent)))
    && (forall m | m in now && m !in was :: exists e :: e in listing && m == name(e.id))
  }

  /** Different parents have different clones, and no stored row lies under a clone. */
  ghost predicate ParentsAreFresh<T>(was: Rows<T>, listing: seq<Entry<T>>, parentOf: Id -> Id) {
    && (forall d, e | d in listing && e in listing && d.row.parent != e.row.parent :: parentOf(d.row.parent) != parentOf(e.row.parent))
    && (forall k, e | k in was && e in listing :: was[k].parent != parentOf(e.row.parent))
  }

  lemma ListedOnce<T>(rows: Rows<T>, v: Id, listing: seq<Entry<T>>, i: nat, n: nat)
    requires UniqueSiblings(rows) && IsListing(rows, v, listing) && i < n < |listing|
    ensures listing[i].id != listing[n].id
    ensures listing[i].row.parent == listing[n].row.parent ==> listing[i].row.position != listing[n].row.position
  {
    assert ListedBefore(listing[i], listing[n]) && listing[i] in listing && listing[n] in listing;
  }

  /** No constraint refuses the next clone: under its parent lie only clones of its siblings. */
  lemma CloneIsClear<T>(was: Rows<T>, now: Rows<T>, v: Id, listing: seq<Entry<T>>, n: nat, u: Id, name: Id -> Id, parentOf: Id -> Id)
    requires UniqueSiblings(was) && IsListing(was, v, listing) && n < |listing|
    requires FreshFor(was, name) && HasClones(was, now, listing[..n], u, name, parentOf)
    requires ParentsAreFresh(was, listing, parentOf)
    requires 1 <= listing[n].row.position <= MAX_POSITION
    ensures var e := listing[n]; Clear(now, name(e.id), CloneRow(e.row, u, parentOf(e.row.parent)))
  {
    hide IsListing, UniqueSiblings, FreshFor;
    var e := listing[n];
    assert e in listing;
    forall k | k in now && k != name(e.id) ensures now[k].parent != parentOf(e.row.parent) || now[k].position != e.row.position {
      if k !in was {
        var d :| d in listing[..n] && k == name(d.id);
        var i :| 0 <= i < n && listing[..n][i] == d;
        assert d in listing;
        ListedOnce(was, v, listing, i, n);
      }
    }
  }

  lemma OneCloneMore<T>(was: Rows<T>, now: Rows<T>, v: Id, listing: seq<Entry<T>>, n: nat, u: Id, name: Id -> Id, parentOf: Id -> Id)
    requires UniqueSiblings(was) && IsListing(was, v, listing) && n < |listing|
    requires FreshFor(was, name) && HasClones(was, now, listing[..n], u, name, parentOf)
    ensures var e := listing[n];
      HasClones(was, now[name(e.id) := CloneRow(e.row, u, parentOf(e.row.parent))], listing[..n + 1], u, name, parentOf)
  {
    hide IsListing, UniqueSiblings, CloneRow;
    var e := listing[n];
    assert listing[..n + 1] == listing[..n] + [e];
    forall d | d in listing[..n] ensures d.id != e.id {
      var i :| 0 <= i < n && listing[..n][i] == d;
      ListedOnce(was, v, listing, i, n);
    }
  }

  method CloneRows<T(==)>(table: Table<T>, v: Id, listing: seq<Entry<T>>, u: Id, name: Id -> Id, parents: map<Id, Id>, ghost parentOf: Id -> Id)
    returns (ids: map<Id, Id>)
    requires UniqueSiblings(table.rows) && IsListing(table.rows, v, listing) && FreshFor(table.rows, name)
    requires ParentsAreFresh(table.rows, listing, parentOf)
    requires forall e | e in listing :: 1 <= e.row.position <= MAX_POSITION
    requires forall e | e in listing :: e.row.parent in parents && parents[e.row.parent] == parentOf(e.row.parent)
    modifies table
    ensures HasClones(old(table.rows), table.rows, listing, u, name, parentOf)
    ensures forall e | e in listing :: e.id in ids && ids[e.id] == name(e.id)
  {
    hide HasClones, IsListing, UniqueSiblings, FreshFor, ParentsAreFresh, CloneRow;
    ghost var was := table.rows;
    ids := map[];
    NothingCloned(was, u, name, parentOf);
    assert listing[..0] == [];
    for n := 0 to |listing|
      invariant HasClones(was, table.rows, listing[..n], u, name, parentOf)
      invariant forall e | e in listing[..n] :: e.id in ids && ids[e.id] == name(e.id)
    {
      var e := listing[n];
      assert e in listing && listing[..n + 1] == listing[..n] + [e];
      CloneIsClear(was, table.rows, v, listing, n, u, name, parentOf);
      OneCloneMore(was, table.rows, v, listing, n, u, name, parentOf);
      var created := table.Write(name(e.id), CloneRow(e.row, u, parents[e.row.parent]));
      assert created;
      ids := ids[e.id := name(e.id)];
    }
    assert listing[..|listing|] == listing;
  }

  lemma NothingCloned<T>(was: Rows<T>, u: Id, name: Id -> Id, parentOf: Id -> Id)
    ensures HasClones(was, was, [], u, name, parentOf)
  {}

  predicate PositionsStored<T>(rows: Rows<T>) {
    forall k | k in rows :: 1 <= rows[k].position <= MAX_POSITION
  }

  /** The check constraints of the position columns. */
  ghost predicate PositionsAreStored(t: Tables) {
    PositionsStored(t.sections) && PositionsStored(t.lessons) && PositionsStored(t.blocks)
  }

  ghost predicate TablesCloned(was: Tables, now: Tables, v: Id, u: Id, listings: Listings, names: CloneNames) {
    && HasClones(was.sections, now.sections, listings.sections, u, names.section, (p: Id) => u)
    && HasClones(was.lessons, now.lessons, listings.lessons, u, names.lesson, names.section)
    && HasClones(was.blocks, now.blocks, listings.blocks, u, names.block, names.lesson)
  }

  /** No row belongs to version `u` yet. */
  ghost predicate VersionIsNew(t: Tables, u: Id) {
    && (forall k | k in t.sections :: t.sections[k].version != u)
    && (forall k | k in t.lessons :: t.lessons[k].version != u)
    && (forall k | k in t.blocks :: t.blocks[k].version != u)
  }

  /** The cloning loops of `create_successor_draft`: `u` is the id of the successor just created. */
  method CloneCurriculum(repository: Repository, v: Id, u: Id, listings: Listings, names: CloneNames)
    requires Integrity(repository.Stored()) && PositionsAreStored(repository.Stored()) && AreListings(repository.Stored(), v, listings)
    requires CloneNamesAreFresh(repository.Stored(), names) && VersionIsNew(repository.Stored(), u)
    modifies repository.sections, repository.lessons, repository.blocks
    ensures TablesCloned(old(repository.Stored()), repository.Stored(), v, u, listings, names)
  {
    hide HasClones, IsListing, UniqueSiblings, FreshFor, ParentsAreFresh;
    ghost var was := repository.Stored();
    SectionParentsFresh(was, v, u, listings);
    LessonParentsFresh(was, v, listings, names);
    BlockParentsFresh(was, v, listings, names);
    ListedPositions(was.sections, v, listings.sections);
    ListedPositions(was.lessons, v, listings.lessons);
    ListedPositions(was.blocks, v, listings.blocks);
    ListedParents(was, v, listings);
    var sectionIds := CloneRows(repository.sections, v, listings.sections, u, names.section, map[v := u], (p: Id) => u);
    var lessonIds := CloneRows(repository.lessons, v, listings.lessons, u, names.lesson, sectionIds, names.section);
    var _ := CloneRows(repository.blocks, v, listings.blocks, u, names.block, lessonIds, names.lesson);
  }

  lemma SectionParentsFresh(t: Tables, v: Id, u: Id, listings: Listings)
    requires Integrity(t) && VersionIsNew(t, u) && IsListing(t.sections, v, listings.sections)
    ensures ParentsAreFresh(t.sections, listings.sections, (p: Id) => u)
  {}

  lemma LessonParentsFresh(t: Tables, v: Id, listings: Listings, names: CloneNames)
    requires Integrity(t) && CloneNamesAreFresh(t, names) && IsListing(t.lessons, v, listings.lessons)
    ensures ParentsAreFresh(t.lessons, listings.lessons, names.section)
  {}

  lemma BlockParentsFresh(t: Tables, v: Id, listings: Listings, names: CloneNames)
    requires Integrity(t) && CloneNamesAreFresh(t, names) && IsListing(t.blocks, v, listings.blocks)
    ensures ParentsAreFresh(t.blocks, listings.blocks, names.lesson)
  {}

  lemma ListedPositions<T>(rows: Rows<T>, v: Id, listing: seq<Entry<T>>)
    requires PositionsStored(rows) && IsListing(rows, v, listing)
    ensures forall e | e in listing :: 1 <= e.row.position <= MAX_POSITION
  {}

  /** The parent of every listed row is listed before it. */
  lemma ListedParents(t: Tables, v: Id, listings: Listings)
    requires Integrity(t) && AreListings(t, v, listings)
    ensures forall e | e in listings.sections :: e.row.parent == v
    ensures forall e | e in listings.lessons :: exists s :: s in listings.sections && s.id == e.row.parent
    ensures forall e | e in listings.blocks :: exists l :: l in listings.lessons && l.id == e.row.parent
  {
    forall e | e in listings.lessons ensures exists s :: s in listings.sections && s.id == e.row.parent {
      assert Entry(e.row.parent, t.sections[e.row.parent]) in listings.sections;
    }
    forall e | e in listings.blocks ensures exists l :: l in listings.lessons && l.id == e.row.parent {
      assert Entry(e.row.parent, t.lessons[e.row.parent]) in listings.lessons;
    }
  }

  /* ---------- the tree of the successor ---------- */

  function CloneBlocks(blocks: seq<Block>, u: Id, lesson: Id, names: CloneNames): (bs: seq<Block>)
    ensures |bs| == |blocks| && forall k :: 0 <= k < |bs| ==> bs[k] == Entry(names.block(blocks[k].id), CloneRow(blocks[k].row, u, lesson))
  {
    seq(|blocks|, k requires 0 <= k < |blocks| => Entry(names.block(blocks[k].id), CloneRow(blocks[k].row, u, lesson)))
  }

  function CloneLesson(l: Lesson, u: Id, section: Id, names: CloneNames): Lesson {
    var id := names.lesson(l.entry.id);
    Lesson(Entry(id, CloneRow(l.entry.row, u, section)), CloneBlocks(l.blocks, u, id, names))
  }

  function CloneLessons(lessons: seq<Lesson>, u: Id, section: Id, names: CloneNames): (ls: seq<Lesson>)
    ensures |ls| == |lessons| && forall j :: 0 <= j < |ls| ==> ls[j] == CloneLesson(lessons[j], u, section, names)
  {
    seq(|lessons|, j requires 0 <= j < |lessons| => CloneLesson(lessons[j], u, section, names))
  }

  function CloneSection(s: Section, u: Id, names: CloneNames): Section {
    var id := names.section(s.entry.id);
    Section(Entry(id, CloneRow(s.entry.row, u, u)), CloneLessons(s.lessons, u, id, names))
  }

  /** The source tree with every id replaced and every row version reset. */
  function CloneTree(tree: seq<Section>, u: Id, names: CloneNames): (ss: seq<Section>)
    ensures |ss| == |tree| && forall i :: 0 <= i < |ss| ==> ss[i] == CloneSection(tree[i], u, names)
  {
    seq(|tree|, i requires 0 <= i < |tree| => CloneSection(tree[i], u, names))
  }

  /** Cloned rows list the clone of a parent as the stored rows list the parent. */
  lemma ClonesList<T>(was: Rows<T>, now: Rows<T>, v: Id, listing: seq<Entry<T>>, u: Id, name: Id -> Id, parentOf: Id -> Id,
                      parent: Id, entries: seq<Entry<T>>, clones: seq<Entry<T>>)
    requires HasClones(was, now, listing, u, name, parentOf) && IsListing(was, v, listing) && Lists(was, parent, entries)
    requires forall k | k in was && was[k].parent == parent :: was[k].version == v
    requires forall k | k in was :: was[k].parent != parentOf(parent)
    requires forall e | e in listing && parentOf(e.row.parent) == parentOf(parent) :: e.row.parent == parent
    requires |clones| == |entries|
    requires forall n :: 0 <= n < |entries| ==> clones[n] == Entry(name(entries[n].id), CloneRow(entries[n].row, u, parentOf(parent)))
    ensures Lists(now, parentOf(parent), clones)
  {
    forall i, j | 0 <= i < j < |clones| ensures clones[i].row.position < clones[j].row.position {
      assert Positions(entries)[i] < Positions(entries)[j];
    }
    forall e | e in clones ensures e.id in now && now[e.id] == e.row && e.row.parent == parentOf(parent) {
      var n :| 0 <= n < |clones| && clones[n] == e;
      assert entries[n] in entries;
      assert Entry(entries[n].id, was[entries[n].id]) in listing;
    }
    forall m | m in now && now[m].parent == parentOf(parent) ensures Entry(m, now[m]) in clones {
      var e :| e in listing && m == name(e.id);
      assert Entry(e.id, was[e.id]) in entries;
      var n :| 0 <= n < |entries| && entries[n] == Entry(e.id, was[e.id]);
      assert clones[n] == Entry(m, now[m]);
    }
  }

  /** Reloading the successor gives the cloned tree. */
  lemma CloneRepresents(was: Tables, now: Tables, v: Id, u: Id, listings: Listings, names: CloneNames, tree: seq<Section>)
    requires Integrity(was) && AreListings(was, v, listings) && CloneNamesAreFresh(was, names) && VersionIsNew(was, u)
    requires TablesCloned(was, now, v, u, listings, names) && Represents(was, v, tree)
    ensures Represents(now, u, CloneTree(tree, u, names))
  {
    hide HasClones, IsListing, Lists, Integrity, FreshFor;
    var clone := CloneTree(tree, u, names);
    SectionClonesList(was, now, v, u, listings, names, tree);
    forall s | s in clone ensures Lists(now.lessons, s.entry.id, LessonEntries(s.lessons)) {
      var i :| 0 <= i < |clone| && clone[i] == s;
      assert tree[i] in tree;
      LessonClonesList(was, now, v, u, listings, names, tree, tree[i]);
    }
    forall s, l | s in clone && l in s.lessons ensures Lists(now.blocks, l.entry.id, l.blocks) {
      var i :| 0 <= i < |clone| && clone[i] == s;
      var j :| 0 <= j < |s.lessons| && s.lessons[j] == l;
      assert tree[i] in tree && tree[i].lessons[j] in tree[i].lessons;
      BlockClonesList(was, now, v, u, listings, names, tree, tree[i], tree[i].lessons[j]);
    }
  }

  lemma SectionClonesList(was: Tables, now: Tables, v: Id, u: Id, listings: Listings, names: CloneNames, tree: seq<Section>)
    requires Integrity(was) && AreListings(was, v, listings) && VersionIsNew(was, u)
    requires TablesCloned(was, now, v, u, listings, names) && Represents(was, v, tree)
    ensures Lists(now.sections, u, SectionEntries(CloneTree(tree, u, names)))
  {
    hide HasClones, Lists;
    var clones := SectionEntries(CloneTree(tree, u, names));
    ListedParents(was, v, listings);
    ClonesList(was.sections, now.sections, v, listings.sections, u, names.section, (p: Id) => u, v, SectionEntries(tree), clones);
  }

  lemma LessonClonesList(was: Tables, now: Tables, v: Id, u: Id, listings: Listings, names: CloneNames, tree: seq<Section>, s: Section)
    requires Integrity(was) && AreListings(was, v, listings) && CloneNamesAreFresh(was, names)
    requires TablesCloned(was, now, v, u, listings, names) && Represents(was, v, tree) && s in tree
    ensures Lists(now.lessons, names.section(s.entry.id), LessonEntries(CloneLessons(s.lessons, u, names.section(s.entry.id), names)))
  {
    hide HasClones;
    SectionInTree(tree, s);
    ClonesList(was.lessons, now.lessons, v, listings.lessons, u, names.lesson, names.section, s.entry.id, LessonEntries(s.lessons),
               LessonEntries(CloneLessons(s.lessons, u, names.section(s.entry.id), names)));
  }

  lemma BlockClonesList(was: Tables, now: Tables, v: Id, u: Id, listings: Listings, names: CloneNames, tree: seq<Section>, s: Section, l: Lesson)
    requires Integrity(was) && AreListings(was, v, listings) && CloneNamesAreFresh(was, names)
    requires TablesCloned(was, now, v, u, listings, names) && Represents(was, v, tree) && s in tree && l in s.lessons
    ensures Lists(now.blocks, names.lesson(l.entry.id), CloneBlocks(l.blocks, u, names.lesson(l.entry.id), names))
  {
    hide HasClones;
    SectionInTree(tree, s);
    LessonInSection(s, l);
    ClonesList(was.blocks, now.blocks, v, listings.blocks, u, names.block, names.lesson, l.entry.id, l.blocks,
               CloneBlocks(l.blocks, u, names.lesson(l.entry.id), names));
  }
}

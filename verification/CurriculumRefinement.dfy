/** The row-by-row replacement reaches the tree that the service computed. */
module CurriculumRefinement {
  import opened Prelude
  import opened CourseTree
  import opened CurriculumService
  import opened CurriculumTable
  import opened CourseRepository

  /* ---------- what validation and fresh ids give ---------- */

  /** No two nodes of one kind name the same row. */
  ghost predicate DistinctNodes(nodes: seq<SectionInput>, naming: Naming) {
    && (forall i, i' :: 0 <= i < i' < |nodes| ==> SectionId(nodes, naming, i) != SectionId(nodes, naming, i'))
    && (forall i, j, i', j' | IsLesson(nodes, i, j) && IsLesson(nodes, i', j') && (i != i' || j != j') ::
          LessonId(nodes, naming, i, j) != LessonId(nodes, naming, i', j'))
    && (forall i, j, k, i', j', k' | IsBlock(nodes, i, j, k) && IsBlock(nodes, i', j', k') && (i != i' || j != j' || k != k') ::
          BlockId(nodes, naming, i, j, k) != BlockId(nodes, naming, i', j', k'))
  }

  /** Positions are unique among the siblings of the command. */
  ghost predicate DistinctPositions(nodes: seq<SectionInput>) {
    && (forall i, i' :: 0 <= i < i' < |nodes| ==> nodes[i].position != nodes[i'].position)
    && (forall i, j, j' | IsLesson(nodes, i, j) && IsLesson(nodes, i, j') && j != j' ::
          nodes[i].lessons[j].position != nodes[i].lessons[j'].position)
    && (forall i, j, k, k' | IsBlock(nodes, i, j, k) && IsBlock(nodes, i, j, k') && k != k' ::
          nodes[i].lessons[j].blocks[k].position != nodes[i].lessons[j].blocks[k'].position)
  }

  /** The ids of new nodes are not in use. */
  ghost predicate NewIdsUnused(t: Tables, nodes: seq<SectionInput>, naming: Naming) {
    && (forall i | 0 <= i < |nodes| :: nodes[i].identity.New? ==> naming(i).id !in t.sections)
    && (forall i, j | IsLesson(nodes, i, j) :: nodes[i].lessons[j].identity.New? ==> naming(i).lessons(j).id !in t.lessons)
    && (forall i, j, k | IsBlock(nodes, i, j, k) ::
          nodes[i].lessons[j].blocks[k].identity.New? ==> naming(i).lessons(j).blocks(k) !in t.blocks)
  }

  ghost predicate Placeable(t: Tables, nodes: seq<SectionInput>, naming: Naming) {
    DistinctNodes(nodes, naming) && DistinctPositions(nodes) && NewIdsUnused(t, nodes, naming)
  }

  lemma AddressesConcat<T>(rows: Rows<T>, a: seq<Flat<T>>, b: seq<Flat<T>>)
    requires Addresses(rows, a) && Addresses(rows, b)
    requires forall x, y | x in a && y in b :: x.id != y.id && (x.parent == y.parent ==> x.position != y.position)
    ensures Addresses(rows, a + b)
  {
    forall n, m | 0 <= n < m < |a + b|
      ensures (a + b)[n].id != (a + b)[m].id
      ensures (a + b)[n].parent == (a + b)[m].parent ==> (a + b)[n].position != (a + b)[m].position
    {
      if n < |a| && m >= |a| { assert a[n] in a && b[m - |a|] in b; }
    }
  }

  lemma SectionsAddressed(t: Tables, v: Id, nodes: seq<SectionInput>, naming: Naming)
    requires Placeable(t, nodes, naming)
    ensures Addresses(t.sections, SectionFlats(v, nodes, naming))
  {
    var flats := SectionFlats(v, nodes, naming);
    forall n, m | 0 <= n < m < |flats| ensures flats[n].id != flats[m].id && flats[n].position != flats[m].position {
      assert flats[n].id == SectionId(nodes, naming, n) && flats[m].id == SectionId(nodes, naming, m);
    }
  }

  lemma NothingAddressed<T>(rows: Rows<T>)
    ensures Addresses(rows, [])
  {}

  lemma LessonsInAddressed(t: Tables, nodes: seq<SectionInput>, naming: Naming, i: nat)
    requires Placeable(t, nodes, naming) && i < |nodes|
    ensures Addresses(t.lessons, LessonFlatsIn(SectionId(nodes, naming, i), nodes[i].lessons, naming(i).lessons))
  {
    var here := LessonFlatsIn(SectionId(nodes, naming, i), nodes[i].lessons, naming(i).lessons);
    assert forall j | 0 <= j < |here| :: IsLesson(nodes, i, j) && here[j].id == LessonId(nodes, naming, i, j);
  }

  lemma OtherSectionOtherLesson(t: Tables, nodes: seq<SectionInput>, naming: Naming, i: nat, j: nat, i': nat, j': nat)
    requires Placeable(t, nodes, naming) && IsLesson(nodes, i, j) && IsLesson(nodes, i', j') && i != i'
    ensures LessonId(nodes, naming, i, j) != LessonId(nodes, naming, i', j') && SectionId(nodes, naming, i) != SectionId(nodes, naming, i')
  {}

  lemma {:induction false} LessonsAddressed(t: Tables, nodes: seq<SectionInput>, naming: Naming, n: nat)
    requires Placeable(t, nodes, naming) && n <= |nodes|
    ensures Addresses(t.lessons, LessonFlats(nodes[..n], naming))
  {
    hide Placeable, Addresses, LessonFlatsIn;
    if n == 0 {
      assert nodes[..0] == [] && LessonFlats(nodes[..0], naming) == [];
      NothingAddressed(t.lessons);
    } else {
      var i := n - 1;
      LessonsAddressed(t, nodes, naming, i);
      LessonFlatsPrefix(nodes, naming, i);
      LessonsInAddressed(t, nodes, naming, i);
      var here := LessonFlatsIn(SectionId(nodes, naming, i), nodes[i].lessons, naming(i).lessons);
      forall x, y | x in LessonFlats(nodes[..i], naming) && y in here ensures x.id != y.id && x.parent != y.parent {
        var i', j' := LessonFlatPlace(nodes[..i], naming, x);
        var j :| 0 <= j < |here| && here[j] == y;
        assert IsLesson(nodes, i', j') && IsLesson(nodes, i, j);
        assert x.id == LessonId(nodes, naming, i', j') && x.parent == SectionId(nodes, naming, i');
        OtherSectionOtherLesson(t, nodes, naming, i', j', i, j);
      }
      AddressesConcat(t.lessons, LessonFlats(nodes[..i], naming), here);
    }
  }

  lemma BlocksInAddressed(t: Tables, nodes: seq<SectionInput>, naming: Naming, i: nat, j: nat)
    requires Placeable(t, nodes, naming) && IsLesson(nodes, i, j)
    ensures Addresses(t.blocks, BlockFlatsIn(LessonId(nodes, naming, i, j), nodes[i].lessons[j].blocks, naming(i).lessons(j).blocks))
  {
    var here := BlockFlatsIn(LessonId(nodes, naming, i, j), nodes[i].lessons[j].blocks, naming(i).lessons(j).blocks);
    assert forall k | 0 <= k < |here| :: IsBlock(nodes, i, j, k) && here[k].id == BlockId(nodes, naming, i, j, k);
  }

  lemma {:induction false} BlocksOfAddressed(t: Tables, nodes: seq<SectionInput>, naming: Naming, i: nat, m: nat)
    requires Placeable(t, nodes, naming) && i < |nodes| && m <= |nodes[i].lessons|
    ensures Addresses(t.blocks, BlockFlatsOf(nodes[i].lessons[..m], naming(i).lessons))
  {
    if m > 0 {
      var j, names, lessons := m - 1, naming(i).lessons, nodes[i].lessons;
      BlocksOfAddressed(t, nodes, naming, i, j);
      BlockFlatsOfPrefix(lessons, names, j);
      BlocksInAddressed(t, nodes, naming, i, j);
      var here := BlockFlatsIn(LessonId(nodes, naming, i, j), lessons[j].blocks, names(j).blocks);
      forall x, y | x in BlockFlatsOf(lessons[..j], names) && y in here ensures x.id != y.id && x.parent != y.parent {
        var j', k' := BlockFlatOfPlace(lessons[..j], names, x);
        var k :| 0 <= k < |here| && here[k] == y;
        assert IsBlock(nodes, i, j', k') && IsBlock(nodes, i, j, k) && IsLesson(nodes, i, j');
        assert x.id == BlockId(nodes, naming, i, j', k') && x.parent == LessonId(nodes, naming, i, j');
        assert y.id == BlockId(nodes, naming, i, j, k);
      }
      AddressesConcat(t.blocks, BlockFlatsOf(lessons[..j], names), here);
    }
  }

  lemma {:induction false} BlocksAddressed(t: Tables, nodes: seq<SectionInput>, naming: Naming, n: nat)
    requires Placeable(t, nodes, naming) && n <= |nodes|
    ensures Addresses(t.blocks, BlockFlats(nodes[..n], naming))
  {
    if n > 0 {
      var i := n - 1;
      var names, lessons := naming(i).lessons, nodes[i].lessons;
      BlocksAddressed(t, nodes, naming, i);
      BlockFlatsPrefix(nodes, naming, i);
      BlocksOfAddressed(t, nodes, naming, i, |lessons|);
      assert lessons[..|lessons|] == lessons;
      var here := BlockFlatsOf(lessons, names);
      forall x, y | x in BlockFlats(nodes[..i], naming) && y in here ensures x.id != y.id && x.parent != y.parent {
        var i', j', k' := BlockFlatPlace(nodes[..i], naming, x);
        var j, k := BlockFlatOfPlace(lessons, names, y);
        assert IsBlock(nodes, i', j', k') && IsBlock(nodes, i, j, k) && IsLesson(nodes, i', j') && IsLesson(nodes, i, j);
        assert x.id == BlockId(nodes, naming, i', j', k') && x.parent == LessonId(nodes, naming, i', j');
        assert y.id == BlockId(nodes, naming, i, j, k) && y.parent == LessonId(nodes, naming, i, j);
      }
      AddressesConcat(t.blocks, BlockFlats(nodes[..i], naming), here);
    }
  }

  lemma CommandIsAddressed(t: Tables, v: Id, nodes: seq<SectionInput>, naming: Naming)
    requires Placeable(t, nodes, naming)
    ensures Addressed(t, v, nodes, naming)
  {
    hide Addresses, Placeable;
    SectionsAddressed(t, v, nodes, naming);
    LessonsAddressed(t, nodes, naming, |nodes|);
    BlocksAddressed(t, nodes, naming, |nodes|);
    assert nodes[..|nodes|] == nodes;
  }

  /* ---------- the settled tables stand for the materialized tree ---------- */

  /** The dictionaries that the service and the repository build from the rows of one version. */
  function OfVersion<T>(rows: Rows<T>, v: Id): (r: Rows<T>)
    ensures forall k :: k in r <==> k in rows && rows[k].version == v
    ensures forall k | k in r :: r[k] == rows[k]
  {
    map k | k in rows && rows[k].version == v :: rows[k]
  }

  function TablesOf(t: Tables, v: Id): Tables {
    Tables(OfVersion(t.sections, v), OfVersion(t.lessons, v), OfVersion(t.blocks, v))
  }

  /** Sorted entries that are exactly the written rows under one parent list that parent. */
  lemma SettledLists<T>(rows: Rows<T>, v: Id, flats: seq<Flat<T>>, parent: Id, entries: seq<Entry<T>>)
    requires Addresses(rows, flats) && AllMatch(rows, v, flats) && Distinct(Positions(entries))
    requires forall k | k in rows && rows[k].parent == parent :: rows[k].version == v
    requires forall e | e in entries :: exists f :: f in flats && f.parent == parent && e == Entry(f.id, Target(rows, v, f))
    requires forall f | f in flats && f.parent == parent :: Entry(f.id, Target(rows, v, f)) in entries
    ensures Lists(Settled(rows, v, flats), parent, Permute(entries, Order(Positions(entries))))
  {
    hide Settled, Target, Addresses, Order;
    var now := Settled(rows, v, flats);
    var sorted := Permute(entries, Order(Positions(entries)));
    PermuteSorts(entries, Positions(entries));
    assert Positions(sorted) == Permute(Positions(entries), Order(Positions(entries)));
    forall e | e in sorted ensures e.id in now && now[e.id] == e.row && e.row.parent == parent {
      var f :| f in flats && f.parent == parent && e == Entry(f.id, Target(rows, v, f));
      SettledFlat(rows, v, flats, f);
      TargetParent(rows, v, f);
    }
    forall k | k in now && now[k].parent == parent ensures Entry(k, now[k]) in sorted {
      SettledAt(rows, v, flats, k);
      assert k in Ids(flats);
      var f :| f in flats && f.id == k;
      SettledFlat(rows, v, flats, f);
      TargetParent(rows, v, f);
    }
  }

  lemma TargetParent<T>(rows: Rows<T>, v: Id, f: Flat<T>)
    ensures Target(rows, v, f).parent == f.parent
  {}

  /** On rows that match, the service and the repository compute the same row. */
  lemma SameRow<T>(rows: Rows<T>, v: Id, f: Flat<T>, name: Id)
    requires Matches(rows, v, f) && f.id == IdOf(f.identity, name)
    ensures EntryFor(OfVersion(rows, v), v, f.parent, f.identity, name, f.position, f.body) == Entry(f.id, Target(rows, v, f))
  {}

  lemma OwnSections(t: Tables, v: Id)
    requires Integrity(t)
    ensures forall k | k in t.sections && t.sections[k].parent == v :: t.sections[k].version == v
  {}

  lemma SectionsAreListed(t: Tables, v: Id, nodes: seq<SectionInput>, naming: Naming)
    requires Integrity(t) && Placeable(t, nodes, naming) && NodesMatch(t, v, nodes, naming)
    ensures Lists(Replaced(t, v, nodes, naming).sections, v, SectionEntries(SortSections(SectionsFor(TablesOf(t, v), v, nodes, naming))))
  {
    hide Placeable, Addresses, Settled, Lists, Order, EntryFor, Target, Integrity, Matches, SortSections;
    OwnSections(t, v);
    var flats, sections := SectionFlats(v, nodes, naming), SectionsFor(TablesOf(t, v), v, nodes, naming);
    var entries := SectionEntries(sections);
    CommandIsAddressed(t, v, nodes, naming);
    forall i | 0 <= i < |nodes| ensures entries[i] == Entry(flats[i].id, Target(t.sections, v, flats[i])) {
      assert flats[i] in flats && entries[i] == sections[i].entry && sections[i] == SectionFor(TablesOf(t, v), v, nodes[i], naming(i));
      SameRow(t.sections, v, flats[i], naming(i).id);
    }
    forall e | e in entries ensures exists f :: f in flats && f.parent == v && e == Entry(f.id, Target(t.sections, v, f)) {
      var i :| 0 <= i < |entries| && entries[i] == e;
      assert flats[i] in flats;
    }
    forall f | f in flats ensures Entry(f.id, Target(t.sections, v, f)) in entries {
      var i :| 0 <= i < |flats| && flats[i] == f;
      assert entries[i] in entries;
    }
    SectionPositionsDistinct(t, v, nodes, naming);
    SettledLists(t.sections, v, flats, v, entries);
    SortedEntries(sections);
  }

  lemma SortedEntries(sections: seq<Section>)
    ensures var entries := SectionEntries(sections); SectionEntries(SortSections(sections)) == Permute(entries, Order(Positions(entries)))
  {}

  lemma SectionPositionsDistinct(t: Tables, v: Id, nodes: seq<SectionInput>, naming: Naming)
    requires Placeable(t, nodes, naming)
    ensures Distinct(Positions(SectionEntries(SectionsFor(TablesOf(t, v), v, nodes, naming))))
  {}

  lemma LessonPositionsDistinct(t: Tables, v: Id, nodes: seq<SectionInput>, naming: Naming, i: nat)
    requires Placeable(t, nodes, naming) && i < |nodes|
    ensures Distinct(Positions(LessonEntries(LessonsFor(TablesOf(t, v), v, SectionId(nodes, naming, i), nodes[i].lessons, naming(i).lessons))))
  {
    var lessons := nodes[i].lessons;
    assert forall j, j' | 0 <= j < j' < |lessons| :: IsLesson(nodes, i, j) && IsLesson(nodes, i, j') && lessons[j].position != lessons[j'].position;
  }

  lemma BlockPositionsDistinct(t: Tables, v: Id, nodes: seq<SectionInput>, naming: Naming, i: nat, j: nat)
    requires Placeable(t, nodes, naming) && IsLesson(nodes, i, j)
    ensures Distinct(Positions(BlocksFor(TablesOf(t, v), v, LessonId(nodes, naming, i, j), nodes[i].lessons[j].blocks, naming(i).lessons(j).blocks)))
  {
    var blocks := nodes[i].lessons[j].blocks;
    assert forall k, k' | 0 <= k < k' < |blocks| :: IsBlock(nodes, i, j, k) && IsBlock(nodes, i, j, k') && blocks[k].position != blocks[k'].position;
  }

  /** A stored child of a written section is a row of the version. */
  lemma OwnLessons(t: Tables, v: Id, nodes: seq<SectionInput>, naming: Naming, i: nat)
    requires Integrity(t) && Placeable(t, nodes, naming) && NodesMatch(t, v, nodes, naming) && i < |nodes|
    ensures forall k | k in t.lessons && t.lessons[k].parent == SectionId(nodes, naming, i) :: t.lessons[k].version == v
  {
    assert SectionFlats(v, nodes, naming)[i] in SectionFlats(v, nodes, naming);
  }

  lemma OwnBlocks(t: Tables, v: Id, nodes: seq<SectionInput>, naming: Naming, i: nat, j: nat)
    requires Integrity(t) && Placeable(t, nodes, naming) && NodesMatch(t, v, nodes, naming) && IsLesson(nodes, i, j)
    ensures forall k | k in t.blocks && t.blocks[k].parent == LessonId(nodes, naming, i, j) :: t.blocks[k].version == v
  {
    LessonFlatIsListed(nodes, naming, i, j);
  }

  lemma LessonsAreListed(t: Tables, v: Id, nodes: seq<SectionInput>, naming: Naming, i: nat)
    requires Integrity(t) && Placeable(t, nodes, naming) && NodesMatch(t, v, nodes, naming) && i < |nodes|
    ensures var s := SectionFor(TablesOf(t, v), v, nodes[i], naming(i));
      Lists(Replaced(t, v, nodes, naming).lessons, s.entry.id, LessonEntries(s.lessons))
  {
    hide Placeable, Addresses, Settled, Lists, Order, EntryFor, Target, LessonFlats, Integrity;
    var section, flats := SectionId(nodes, naming, i), LessonFlats(nodes, naming);
    var lessons := LessonsFor(TablesOf(t, v), v, section, nodes[i].lessons, naming(i).lessons);
    var entries := LessonEntries(lessons);
    CommandIsAddressed(t, v, nodes, naming);
    forall j | 0 <= j < |entries|
      ensures LessonFlatAt(nodes, naming, i, j) in flats
      ensures var f := LessonFlatAt(nodes, naming, i, j); entries[j] == Entry(f.id, Target(t.lessons, v, f))
    {
      LessonFlatIsListed(nodes, naming, i, j);
      SameRow(t.lessons, v, LessonFlatAt(nodes, naming, i, j), naming(i).lessons(j).id);
    }
    forall e | e in entries ensures exists f :: f in flats && f.parent == section && e == Entry(f.id, Target(t.lessons, v, f)) {
      var j :| 0 <= j < |entries| && entries[j] == e;
      var f := LessonFlatAt(nodes, naming, i, j);
      assert f in flats && f.parent == section;
    }
    forall f | f in flats && f.parent == section ensures Entry(f.id, Target(t.lessons, v, f)) in entries {
      var i', j := LessonFlatPlace(nodes, naming, f);
      SameSectionSameIndex(t, nodes, naming, i, i');
      assert entries[j] in entries;
    }
    LessonPositionsDistinct(t, v, nodes, naming, i);
    OwnLessons(t, v, nodes, naming, i);
    SettledLists(t.lessons, v, flats, section, entries);
    assert LessonEntries(SortLessons(lessons)) == Permute(entries, Order(Positions(entries)));
  }

  lemma SameSectionSameIndex(t: Tables, nodes: seq<SectionInput>, naming: Naming, i: nat, i': nat)
    requires Placeable(t, nodes, naming) && i < |nodes| && i' < |nodes| && SectionId(nodes, naming, i) == SectionId(nodes, naming, i')
    ensures i == i'
  {}

  lemma SameLessonSameIndex(t: Tables, nodes: seq<SectionInput>, naming: Naming, i: nat, j: nat, i': nat, j': nat)
    requires Placeable(t, nodes, naming) && IsLesson(nodes, i, j) && IsLesson(nodes, i', j')
    requires LessonId(nodes, naming, i, j) == LessonId(nodes, naming, i', j')
    ensures i == i' && j == j'
  {}

  lemma BlocksAreListed(t: Tables, v: Id, nodes: seq<SectionInput>, naming: Naming, i: nat, j: nat)
    requires Integrity(t) && Placeable(t, nodes, naming) && NodesMatch(t, v, nodes, naming) && IsLesson(nodes, i, j)
    ensures var l := LessonFor(TablesOf(t, v), v, SectionId(nodes, naming, i), nodes[i].lessons[j], naming(i).lessons(j));
      Lists(Replaced(t, v, nodes, naming).blocks, l.entry.id, l.blocks)
  {
    hide Placeable, Addresses, Settled, Lists, Order, EntryFor, Target, BlockFlats, Integrity;
    var lesson, flats := LessonId(nodes, naming, i, j), BlockFlats(nodes, naming);
    var blocks := BlocksFor(TablesOf(t, v), v, lesson, nodes[i].lessons[j].blocks, naming(i).lessons(j).blocks);
    CommandIsAddressed(t, v, nodes, naming);
    forall k | 0 <= k < |blocks|
      ensures BlockFlatAt(nodes, naming, i, j, k) in flats
      ensures var f := BlockFlatAt(nodes, naming, i, j, k); blocks[k] == Entry(f.id, Target(t.blocks, v, f))
    {
      BlockFlatIsListed(nodes, naming, i, j, k);
      SameRow(t.blocks, v, BlockFlatAt(nodes, naming, i, j, k), naming(i).lessons(j).blocks(k));
    }
    forall e | e in blocks ensures exists f :: f in flats && f.parent == lesson && e == Entry(f.id, Target(t.blocks, v, f)) {
      var k :| 0 <= k < |blocks| && blocks[k] == e;
      var f := BlockFlatAt(nodes, naming, i, j, k);
      assert f in flats && f.parent == lesson;
    }
    forall f | f in flats && f.parent == lesson ensures Entry(f.id, Target(t.blocks, v, f)) in blocks {
      var i', j', k := BlockFlatPlace(nodes, naming, f);
      SameLessonSameIndex(t, nodes, naming, i, j, i', j');
      assert blocks[k] in blocks;
    }
    BlockPositionsDistinct(t, v, nodes, naming, i, j);
    OwnBlocks(t, v, nodes, naming, i, j);
    SettledLists(t.blocks, v, flats, lesson, blocks);
  }

  /** The replaced rows of the version are exactly the materialized tree, in order, with their edges. */
  lemma ReplacedRepresents(t: Tables, v: Id, nodes: seq<SectionInput>, naming: Naming)
    requires Integrity(t) && Placeable(t, nodes, naming) && NodesMatch(t, v, nodes, naming)
    ensures Represents(Replaced(t, v, nodes, naming), v, SortSections(SectionsFor(TablesOf(t, v), v, nodes, naming)))
  {
    hide Integrity, Placeable, NodesMatch, Replaced, Lists, TablesOf, Order, EntryFor;
    var dicts, now := TablesOf(t, v), Replaced(t, v, nodes, naming);
    var sections := SectionsFor(dicts, v, nodes, naming);
    var tree := SortSections(sections);
    SectionsAreListed(t, v, nodes, naming);
    forall s | s in tree ensures Lists(now.lessons, s.entry.id, LessonEntries(s.lessons)) {
      var i := IndexOfSorted(sections, Positions(SectionEntries(sections)), s);
      LessonsAreListed(t, v, nodes, naming, i);
    }
    forall s, l | s in tree && l in s.lessons ensures Lists(now.blocks, l.entry.id, l.blocks) {
      var i := IndexOfSorted(sections, Positions(SectionEntries(sections)), s);
      var lessons := LessonsFor(dicts, v, SectionId(nodes, naming, i), nodes[i].lessons, naming(i).lessons);
      var j := IndexOfSorted(lessons, Positions(LessonEntries(lessons)), l);
      BlocksAreListed(t, v, nodes, naming, i, j);
    }
  }

  lemma {:induction false} IndexOfSorted<T>(xs: seq<T>, keys: seq<int>, x: T) returns (i: nat)
    requires |keys| == |xs| && x in Permute(xs, Order(keys))
    ensures i < |xs| && xs[i] == x
  {
    var ys := Permute(xs, Order(keys));
    var n :| 0 <= n < |ys| && ys[n] == x;
    i := Order(keys)[n];
  }

  /** The settled rows of the version are exactly the written ones; a kept row keeps its row version exactly when it is unchanged,
      and otherwise gains one. */
  lemma SettledExactly<T>(rows: Rows<T>, v: Id, flats: seq<Flat<T>>)
    requires Addresses(rows, flats) && AllMatch(rows, v, flats)
    ensures forall k | k in Settled(rows, v, flats) && Settled(rows, v, flats)[k].version == v :: exists f :: f in flats && f.id == k
    ensures forall f | f in flats :: f.id in Settled(rows, v, flats) && IsWrittenAs(rows, v, f, Settled(rows, v, flats)[f.id])
  {
    hide Settled, Addresses, Matches, Target;
    forall k | k in Settled(rows, v, flats) && Settled(rows, v, flats)[k].version == v ensures exists f :: f in flats && f.id == k {
      SettledAt(rows, v, flats, k);
      assert k in Ids(flats);
    }
    forall f | f in flats ensures f.id in Settled(rows, v, flats) && IsWrittenAs(rows, v, f, Settled(rows, v, flats)[f.id]) {
      SettledFlat(rows, v, flats, f);
      AddressedFlat(rows, flats, f);
      TargetIsWrittenAs(rows, v, f);
    }
  }

  /** What one write leaves of the row that was there. */
  ghost predicate IsWrittenAs<T>(rows: Rows<T>, v: Id, f: Flat<T>, now: Row<T>) {
    && now == Row(v, f.parent, f.position, now.rowVersion, f.body)
    && match f.identity
       case New => f.id !in rows && now.rowVersion == 1
       case Kept(id, _) =>
         && f.id == id && id in rows && rows[id].parent == f.parent
         && (now.rowVersion == rows[id].rowVersion || now.rowVersion == rows[id].rowVersion + 1)
         && (now.rowVersion == rows[id].rowVersion <==> now == rows[id])
  }

  lemma AddressedFlat<T>(rows: Rows<T>, flats: seq<Flat<T>>, f: Flat<T>)
    requires Addresses(rows, flats) && f in flats
    ensures IsFlat(f) && (f.identity.New? ==> f.id !in rows)
  {}

  lemma TargetIsWrittenAs<T>(rows: Rows<T>, v: Id, f: Flat<T>)
    requires IsFlat(f) && (f.identity.New? ==> f.id !in rows) && Matches(rows, v, f)
    ensures IsWrittenAs(rows, v, f, Target(rows, v, f))
  {}

  /** After a replacement the version holds, in each table, the rows of the command's nodes and no others. */
  lemma ReplacedExactly(t: Tables, v: Id, nodes: seq<SectionInput>, naming: Naming)
    requires Placeable(t, nodes, naming) && NodesMatch(t, v, nodes, naming)
    ensures var r := Replaced(t, v, nodes, naming);
      && (forall k | k in r.sections && r.sections[k].version == v :: exists i :: 0 <= i < |nodes| && k == SectionId(nodes, naming, i))
      && (forall k | k in r.lessons && r.lessons[k].version == v :: exists i, j :: IsLesson(nodes, i, j) && k == LessonId(nodes, naming, i, j))
      && (forall k | k in r.blocks && r.blocks[k].version == v ::
            exists i, j, n :: IsBlock(nodes, i, j, n) && k == BlockId(nodes, naming, i, j, n))
    ensures var r := Replaced(t, v, nodes, naming);
      && (forall f | f in SectionFlats(v, nodes, naming) :: f.id in r.sections && IsWrittenAs(t.sections, v, f, r.sections[f.id]))
      && (forall f | f in LessonFlats(nodes, naming) :: f.id in r.lessons && IsWrittenAs(t.lessons, v, f, r.lessons[f.id]))
      && (forall f | f in BlockFlats(nodes, naming) :: f.id in r.blocks && IsWrittenAs(t.blocks, v, f, r.blocks[f.id]))
  {
    hide Placeable, Addresses, Settled, LessonFlats, BlockFlats, IsWrittenAs, Matches;
    CommandIsAddressed(t, v, nodes, naming);
    var r, ss := Replaced(t, v, nodes, naming), SectionFlats(v, nodes, naming);
    SettledExactly(t.sections, v, ss);
    SettledExactly(t.lessons, v, LessonFlats(nodes, naming));
    SettledExactly(t.blocks, v, BlockFlats(nodes, naming));
    forall k | k in r.sections && r.sections[k].version == v ensures exists i :: 0 <= i < |nodes| && k == SectionId(nodes, naming, i) {
      var f :| f in ss && f.id == k;
      var i :| 0 <= i < |ss| && ss[i] == f;
      assert k == SectionId(nodes, naming, i);
    }
    forall k | k in r.lessons && r.lessons[k].version == v
      ensures exists i, j :: IsLesson(nodes, i, j) && k == LessonId(nodes, naming, i, j)
    {
      var f :| f in LessonFlats(nodes, naming) && f.id == k;
      var i, j := LessonFlatPlace(nodes, naming, f);
      assert k == LessonId(nodes, naming, i, j);
    }
    forall k | k in r.blocks && r.blocks[k].version == v
      ensures exists i, j, n :: IsBlock(nodes, i, j, n) && k == BlockId(nodes, naming, i, j, n)
    {
      var f :| f in BlockFlats(nodes, naming) && f.id == k;
      var i, j, n := BlockFlatPlace(nodes, naming, f);
      assert k == BlockId(nodes, naming, i, j, n);
    }
  }

  /** Rows of other versions are untouched, and the foreign keys and unique positions still hold. */
  lemma ReplacedKeepsIntegrity(t: Tables, v: Id, nodes: seq<SectionInput>, naming: Naming)
    requires Integrity(t) && Placeable(t, nodes, naming) && NodesMatch(t, v, nodes, naming)
    ensures Integrity(Replaced(t, v, nodes, naming))
    ensures forall u | u != v :: TablesOf(Replaced(t, v, nodes, naming), u) == TablesOf(t, u)
  {
    hide Integrity, Placeable, NodesMatch, Addresses, Settled;
    var now := Replaced(t, v, nodes, naming);
    CommandIsAddressed(t, v, nodes, naming);
    IntegrityGives(t);
    MatchGives(t, v, nodes, naming);
    SettledKeepsSiblings(t.sections, v, SectionFlats(v, nodes, naming));
    forall f, k | f in LessonFlats(nodes, naming) && k in t.lessons && t.lessons[k].parent == f.parent ensures t.lessons[k].version == v {
      var i, j := LessonFlatPlace(nodes, naming, f);
      OwnLessons(t, v, nodes, naming, i);
    }
    SettledKeepsSiblings(t.lessons, v, LessonFlats(nodes, naming));
    forall f, k | f in BlockFlats(nodes, naming) && k in t.blocks && t.blocks[k].parent == f.parent ensures t.blocks[k].version == v {
      var i, j, n := BlockFlatPlace(nodes, naming, f);
      OwnBlocks(t, v, nodes, naming, i, j);
    }
    SettledKeepsSiblings(t.blocks, v, BlockFlats(nodes, naming));
    forall k | k in now.sections ensures now.sections[k].parent == now.sections[k].version {
      SettledSectionParent(t, v, nodes, naming, k);
    }
    forall k | k in now.lessons
      ensures now.lessons[k].parent in now.sections && now.sections[now.lessons[k].parent].version == now.lessons[k].version
    {
      LessonKeepsItsSection(t, v, nodes, naming, k);
    }
    forall k | k in now.blocks
      ensures now.blocks[k].parent in now.lessons && now.lessons[now.blocks[k].parent].version == now.blocks[k].version
    {
      BlockKeepsItsLesson(t, v, nodes, naming, k);
    }
    IntegrityFrom(now);
  }

  lemma IntegrityGives(t: Tables)
    requires Integrity(t)
    ensures UniqueSiblings(t.sections) && UniqueSiblings(t.lessons) && UniqueSiblings(t.blocks)
    ensures forall k | k in t.sections :: t.sections[k].parent == t.sections[k].version
  {}

  lemma IntegrityFrom(t: Tables)
    requires UniqueSiblings(t.sections) && UniqueSiblings(t.lessons) && UniqueSiblings(t.blocks)
    requires forall k | k in t.sections :: t.sections[k].parent == t.sections[k].version
    requires forall k | k in t.lessons :: t.lessons[k].parent in t.sections && t.sections[t.lessons[k].parent].version == t.lessons[k].version
    requires forall k | k in t.blocks :: t.blocks[k].parent in t.lessons && t.lessons[t.blocks[k].parent].version == t.blocks[k].version
    ensures Integrity(t)
  {}

  lemma MatchGives(t: Tables, v: Id, nodes: seq<SectionInput>, naming: Naming)
    requires NodesMatch(t, v, nodes, naming)
    ensures AllMatch(t.sections, v, SectionFlats(v, nodes, naming))
    ensures AllMatch(t.lessons, v, LessonFlats(nodes, naming)) && AllMatch(t.blocks, v, BlockFlats(nodes, naming))
  {}

  lemma SettledSectionParent(t: Tables, v: Id, nodes: seq<SectionInput>, naming: Naming, k: Id)
    requires Integrity(t) && Addresses(t.sections, SectionFlats(v, nodes, naming)) && AllMatch(t.sections, v, SectionFlats(v, nodes, naming))
    requires k in Settled(t.sections, v, SectionFlats(v, nodes, naming))
    ensures var r := Settled(t.sections, v, SectionFlats(v, nodes, naming))[k]; r.parent == r.version
  {
    hide Settled, Addresses;
    var flats := SectionFlats(v, nodes, naming);
    SettledAt(t.sections, v, flats, k);
    if k in Ids(flats) {
      var f :| f in flats && f.id == k;
      SettledFlat(t.sections, v, flats, f);
    }
  }

  lemma SettledKeepsSiblings<T>(rows: Rows<T>, v: Id, flats: seq<Flat<T>>)
    requires Addresses(rows, flats) && AllMatch(rows, v, flats) && UniqueSiblings(rows)
    requires forall f, k | f in flats && k in rows && rows[k].parent == f.parent :: rows[k].version == v
    ensures UniqueSiblings(Settled(rows, v, flats))
    ensures forall u | u != v :: OfVersion(Settled(rows, v, flats), u) == OfVersion(rows, u)
  {
    hide Settled, AllMatch;
    var now := Settled(rows, v, flats);
    forall k, m | k in now && m in now && k != m && now[k].parent == now[m].parent
      ensures now[k].version == now[m].version && now[k].position != now[m].position
    {
      SettledAt(rows, v, flats, k);
      SettledAt(rows, v, flats, m);
      if k in Ids(flats) {
        var f :| f in flats && f.id == k;
        SettledFlat(rows, v, flats, f);
        if m in Ids(flats) {
          var g :| g in flats && g.id == m;
          SettledFlat(rows, v, flats, g);
        }
      } else if m in Ids(flats) {
        var g :| g in flats && g.id == m;
        SettledFlat(rows, v, flats, g);
      }
    }
    forall u | u != v ensures OfVersion(now, u) == OfVersion(rows, u) {
      forall k ensures k in OfVersion(now, u) <==> k in OfVersion(rows, u) {
        SettledVersion(rows, v, flats, k);
      }
      forall k | k in OfVersion(rows, u) ensures OfVersion(now, u)[k] == OfVersion(rows, u)[k] {
        SettledVersion(rows, v, flats, k);
      }
    }
  }

  lemma SettledVersion<T>(rows: Rows<T>, v: Id, flats: seq<Flat<T>>, k: Id)
    requires Addresses(rows, flats) && AllMatch(rows, v, flats)
    ensures var now := Settled(rows, v, flats);
      && (k in now && now[k].version != v <==> k in rows && rows[k].version != v)
      && (k in now && now[k].version != v ==> now[k] == rows[k])
  {
    hide Settled, Addresses;
    SettledAt(rows, v, flats, k);
    if k in Ids(flats) {
      var f :| f in flats && f.id == k;
      SettledFlat(rows, v, flats, f);
    }
  }
}

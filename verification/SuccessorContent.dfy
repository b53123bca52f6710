/** The copied, the cloned and the source tree have one content and therefore one hash. */
module SuccessorContent {
  import opened Prelude
  import opened CanonicalJson
  import opened CourseTree
  import opened ContentProjection
  import opened CurriculumService
  import opened CurriculumTable
  import opened CourseRepository
  import opened CurriculumRefinement
  import opened CurriculumReplacement
  import opened SnapshotLoading
  import opened SuccessorDraft

  /* ---------- `_copy_successor` ---------- */

  function CopyBlocks(blocks: seq<Block>, u: Id, lesson: Id, names: nat -> Id): (bs: seq<Block>)
    ensures |bs| == |blocks| && forall k :: 0 <= k < |bs| ==> bs[k] == Entry(names(k), CloneRow(blocks[k].row, u, lesson))
  {
    seq(|blocks|, k requires 0 <= k < |blocks| => Entry(names(k), CloneRow(blocks[k].row, u, lesson)))
  }

  function CopyLesson(l: Lesson, u: Id, section: Id, names: LessonNames): Lesson {
    Lesson(Entry(names.id, CloneRow(l.entry.row, u, section)), CopyBlocks(SortBlocks(l.blocks), u, names.id, names.blocks))
  }

  function CopyLessons(lessons: seq<Lesson>, u: Id, section: Id, names: nat -> LessonNames): (ls: seq<Lesson>)
    ensures |ls| == |lessons| && forall j :: 0 <= j < |ls| ==> ls[j] == CopyLesson(lessons[j], u, section, names(j))
  {
    seq(|lessons|, j requires 0 <= j < |lessons| => CopyLesson(lessons[j], u, section, names(j)))
  }

  function CopySection(s: Section, u: Id, names: SectionNames): Section {
    Section(Entry(names.id, CloneRow(s.entry.row, u, u)), CopyLessons(SortLessons(s.lessons), u, names.id, names.lessons))
  }

  function CopySections(tree: seq<Section>, u: Id, naming: Naming): (ss: seq<Section>)
    ensures |ss| == |tree| && forall i :: 0 <= i < |ss| ==> ss[i] == CopySection(tree[i], u, naming(i))
  {
    seq(|tree|, i requires 0 <= i < |tree| => CopySection(tree[i], u, naming(i)))
  }

  function CopyTree(tree: seq<Section>, u: Id, naming: Naming): seq<Section> {
    CopySections(SortSections(tree), u, naming)
  }

  method CopySuccessor(tree: seq<Section>, u: Id, naming: Naming) returns (copy: seq<Section>)
    ensures copy == CopyTree(tree, u, naming)
  {
    hide SortSections, SortLessons, SortBlocks, CloneRow;
    copy := [];
    var sections := SortSections(tree);
    for i := 0 to |sections|
      invariant copy == CopySections(sections, u, naming)[..i]
    {
      var sectionId := naming(i).id;
      var lessons: seq<Lesson> := [];
      var sourceLessons := SortLessons(sections[i].lessons);
      for j := 0 to |sourceLessons|
        invariant lessons == CopyLessons(sourceLessons, u, sectionId, naming(i).lessons)[..j]
      {
        var lessonId := naming(i).lessons(j).id;
        var blocks: seq<Block> := [];
        var sourceBlocks := SortBlocks(sourceLessons[j].blocks);
        for k := 0 to |sourceBlocks|
          invariant blocks == CopyBlocks(sourceBlocks, u, lessonId, naming(i).lessons(j).blocks)[..k]
        {
          blocks := blocks + [Entry(naming(i).lessons(j).blocks(k), CloneRow(sourceBlocks[k].row, u, lessonId))];
        }
        assert blocks == CopyBlocks(sourceBlocks, u, lessonId, naming(i).lessons(j).blocks);
        lessons := lessons + [Lesson(Entry(lessonId, CloneRow(sourceLessons[j].entry.row, u, sectionId)), blocks)];
      }
      assert lessons == CopyLessons(sourceLessons, u, sectionId, naming(i).lessons);
      copy := copy + [Section(Entry(sectionId, CloneRow(sections[i].entry.row, u, u)), lessons)];
    }
    assert copy == CopySections(sections, u, naming);
  }

  /* ---------- the copy says what the source says ---------- */

  lemma CopiedBlocksMean(blocks: seq<Block>, u: Id, lesson: Id, names: nat -> Id)
    requires Distinct(Positions(blocks))
    ensures var copy := CopyBlocks(SortBlocks(blocks), u, lesson, names);
      Distinct(Positions(copy)) && ByKey(Positions(copy), BlockBodies(copy)) == ByKey(Positions(blocks), BlockBodies(blocks))
  {
    hide ByKey, Order, IsStableOrder;
    var copy, keys := CopyBlocks(SortBlocks(blocks), u, lesson, names), Positions(blocks);
    OrderCovers(keys);
    ByKeyIgnoresOrder(keys, BlockBodies(blocks));
    assert Positions(copy) == Permute(keys, Order(keys)) && BlockBodies(copy) == Permute(BlockBodies(blocks), Order(keys));
  }

  lemma CopiedLessonMeans(l: Lesson, u: Id, section: Id, names: LessonNames)
    requires LessonHasPositions(l)
    ensures LessonHasPositions(CopyLesson(l, u, section, names)) && MeaningOfLesson(CopyLesson(l, u, section, names)) == MeaningOfLesson(l)
  {
    CopiedBlocksMean(l.blocks, u, names.id, names.blocks);
  }

  lemma CopiedSectionMeans(s: Section, u: Id, names: SectionNames)
    requires SectionHasPositions(s)
    ensures SectionHasPositions(CopySection(s, u, names)) && MeaningOfSection(CopySection(s, u, names)) == MeaningOfSection(s)
  {
    hide ByKey, Order, IsStableOrder, CopyLesson, LessonHasPositions, MeaningOfLesson;
    var keys := Positions(LessonEntries(s.lessons));
    OrderCovers(keys);
    var order, copies := Order(keys), CopySection(s, u, names).lessons;
    forall j | 0 <= j < |copies|
      ensures LessonHasPositions(copies[j]) && MeaningOfLesson(copies[j]) == MeaningOfLesson(s.lessons[order[j]])
      ensures copies[j].entry.row.position == keys[order[j]]
    {
      assert s.lessons[order[j]] in s.lessons;
      CopiedLessonMeans(s.lessons[order[j]], u, names.id, names.lessons(j));
      CopiedLessonPosition(s.lessons[order[j]], u, names.id, names.lessons(j));
    }
    ByKeyIgnoresOrder(keys, MeaningsOfLessons(s.lessons));
    assert Positions(LessonEntries(copies)) == Permute(keys, order);
    assert MeaningsOfLessons(copies) == Permute(MeaningsOfLessons(s.lessons), order);
  }

  lemma CopiedLessonPosition(l: Lesson, u: Id, section: Id, names: LessonNames)
    ensures CopyLesson(l, u, section, names).entry.row.position == l.entry.row.position
  {}

  /** The service's copy of a tree means what the tree means. */
  lemma CopyKeepsMeaning(tree: seq<Section>, u: Id, naming: Naming)
    requires HasPositions(tree)
    ensures HasPositions(CopyTree(tree, u, naming)) && Meaning(CopyTree(tree, u, naming)) == Meaning(tree)
  {
    hide ByKey, Order, IsStableOrder, CopySection, SectionHasPositions, MeaningOfSection;
    var keys := Positions(SectionEntries(tree));
    OrderCovers(keys);
    var order, copies := Order(keys), CopyTree(tree, u, naming);
    forall i | 0 <= i < |copies|
      ensures SectionHasPositions(copies[i]) && MeaningOfSection(copies[i]) == MeaningOfSection(tree[order[i]])
      ensures copies[i].entry.row.position == keys[order[i]]
    {
      assert tree[order[i]] in tree;
      CopiedSectionMeans(tree[order[i]], u, naming(i));
      CopiedSectionPosition(tree[order[i]], u, naming(i));
    }
    ByKeyIgnoresOrder(keys, MeaningsOfSections(tree));
    assert Positions(SectionEntries(copies)) == Permute(keys, order);
    assert MeaningsOfSections(copies) == Permute(MeaningsOfSections(tree), order);
  }

  lemma CopiedSectionPosition(s: Section, u: Id, names: SectionNames)
    ensures CopySection(s, u, names).entry.row.position == s.entry.row.position
  {}

  /* ---------- the clone says what the source says ---------- */

  lemma CloneKeepsMeaning(tree: seq<Section>, u: Id, names: CloneNames)
    requires HasPositions(tree)
    ensures HasPositions(CloneTree(tree, u, names)) && Meaning(CloneTree(tree, u, names)) == Meaning(tree)
  {
    hide ByKey, CloneSection, SectionHasPositions, MeaningOfSection;
    var clone := CloneTree(tree, u, names);
    forall i | 0 <= i < |tree|
      ensures SectionHasPositions(clone[i]) && MeaningOfSection(clone[i]) == MeaningOfSection(tree[i])
      ensures clone[i].entry.row.position == tree[i].entry.row.position
    {
      assert tree[i] in tree;
      ClonedSectionMeans(tree[i], u, names);
    }
    assert Positions(SectionEntries(clone)) == Positions(SectionEntries(tree));
    assert MeaningsOfSections(clone) == MeaningsOfSections(tree);
  }

  lemma ClonedSectionMeans(s: Section, u: Id, names: CloneNames)
    requires SectionHasPositions(s)
    ensures SectionHasPositions(CloneSection(s, u, names)) && MeaningOfSection(CloneSection(s, u, names)) == MeaningOfSection(s)
    ensures CloneSection(s, u, names).entry.row.position == s.entry.row.position
  {
    hide ByKey;
    var clone := CloneSection(s, u, names);
    forall j | 0 <= j < |s.lessons|
      ensures LessonHasPositions(clone.lessons[j]) && MeaningOfLesson(clone.lessons[j]) == MeaningOfLesson(s.lessons[j])
    {
      assert s.lessons[j] in s.lessons;
      var x, y := clone.lessons[j].blocks, s.lessons[j].blocks;
      assert Positions(x) == Positions(y) && BlockBodies(x) == BlockBodies(y);
    }
    assert Positions(LessonEntries(clone.lessons)) == Positions(LessonEntries(s.lessons));
    assert MeaningsOfLessons(clone.lessons) == MeaningsOfLessons(s.lessons);
  }

  /* ---------- the clone is the copy ---------- */

  const NO_LESSON := LessonNames(0, k => 0)
  const NO_SECTION := SectionNames(0, j => NO_LESSON)

  function BlockNames(blocks: seq<Block>, names: CloneNames): (ids: seq<Id>)
    ensures |ids| == |blocks| && forall k :: 0 <= k < |ids| ==> ids[k] == names.block(blocks[k].id)
  {
    seq<Id>(|blocks|, k requires 0 <= k < |blocks| => names.block(blocks[k].id))
  }

  function NamesOfLesson(l: Lesson, names: CloneNames): LessonNames {
    var ids := BlockNames(l.blocks, names);
    LessonNames(names.lesson(l.entry.id), k => if 0 <= k < |ids| then ids[k] else 0)
  }

  function NamesOfSection(s: Section, names: CloneNames): SectionNames {
    SectionNames(names.section(s.entry.id), j => if 0 <= j < |s.lessons| then NamesOfLesson(s.lessons[j], names) else NO_LESSON)
  }

  /** The ids that the repository gave to the clones, by the places of their nodes. */
  function NamingOf(tree: seq<Section>, names: CloneNames): Naming {
    i => if 0 <= i < |tree| then NamesOfSection(tree[i], names) else NO_SECTION
  }

  lemma LessonCopyIsClone(l: Lesson, u: Id, section: Id, names: CloneNames)
    requires StrictlyAscending(Positions(l.blocks))
    ensures CopyLesson(l, u, section, NamesOfLesson(l, names)) == CloneLesson(l, u, section, names)
  {
    SortIsIdentity(l.blocks, Positions(l.blocks));
    var copy, clone := CopyLesson(l, u, section, NamesOfLesson(l, names)), CloneLesson(l, u, section, names);
    assert copy.blocks == clone.blocks;
  }

  lemma SectionCopyIsClone(s: Section, u: Id, names: CloneNames)
    requires StrictlyAscending(Positions(LessonEntries(s.lessons)))
    requires forall l | l in s.lessons :: StrictlyAscending(Positions(l.blocks))
    ensures CopySection(s, u, NamesOfSection(s, names)) == CloneSection(s, u, names)
  {
    hide CopyLesson, CloneLesson, NamesOfLesson, Order;
    SortIsIdentity(s.lessons, Positions(LessonEntries(s.lessons)));
    var id := names.section(s.entry.id);
    forall j | 0 <= j < |s.lessons|
      ensures CopyLesson(s.lessons[j], u, id, NamesOfLesson(s.lessons[j], names)) == CloneLesson(s.lessons[j], u, id, names)
    {
      LessonCopyIsClone(s.lessons[j], u, id, names);
    }
    var copy, clone := CopySection(s, u, NamesOfSection(s, names)), CloneSection(s, u, names);
    assert copy.lessons == clone.lessons;
  }

  /** Given the repository's ids, the service's copy of a stored tree is the clone: the same order, edges, versions, row versions
      and bodies. */
  lemma CopyIsTheClone(t: Tables, v: Id, tree: seq<Section>, u: Id, names: CloneNames)
    requires Represents(t, v, tree)
    ensures CopyTree(tree, u, NamingOf(tree, names)) == CloneTree(tree, u, names)
  {
    hide CopySection, CloneSection, NamesOfSection, Order;
    SortIsIdentity(tree, Positions(SectionEntries(tree)));
    forall i | 0 <= i < |tree| ensures CopySection(tree[i], u, NamesOfSection(tree[i], names)) == CloneSection(tree[i], u, names) {
      assert tree[i] in tree;
      SectionCopyIsClone(tree[i], u, names);
    }
    assert CopyTree(tree, u, NamingOf(tree, names)) == CloneTree(tree, u, names);
  }

  /** Under its own ids the service's copy differs from it in the ids alone. */
  lemma CopiesAreTheSame(tree: seq<Section>, u: Id, f: Naming, g: Naming)
    ensures SameTree(Tables(map[], map[], map[]), CopyTree(tree, u, f), CopyTree(tree, u, g))
  {
    hide SortSections, SortLessons, SortBlocks;
    var a, b := CopyTree(tree, u, f), CopyTree(tree, u, g);
    forall i | 0 <= i < |a| ensures SameSection(Tables(map[], map[], map[]), a[i], b[i]) {
      assert forall j :: 0 <= j < |a[i].lessons| ==> SameLesson(Tables(map[], map[], map[]), a[i].lessons[j], b[i].lessons[j]);
    }
  }

  /** Whatever tree is loaded for the successor is the service's copy of the source, up to the ids of its nodes. */
  lemma ReloadedIsTheCopy(was: Tables, now: Tables, v: Id, u: Id, listings: Listings, names: CloneNames, tree: seq<Section>,
                          loaded: seq<Section>, naming: Naming)
    requires Integrity(was) && AreListings(was, v, listings) && CloneNamesAreFresh(was, names) && VersionIsNew(was, u)
    requires TablesCloned(was, now, v, u, listings, names) && Represents(was, v, tree) && Represents(now, u, loaded)
    ensures loaded == CopyTree(tree, u, NamingOf(tree, names))
    ensures SameTree(Tables(map[], map[], map[]), CopyTree(tree, u, naming), loaded)
  {
    hide Integrity, AreListings, CloneNamesAreFresh, VersionIsNew, TablesCloned, Represents, CopyTree, CloneTree, SameTree, NamingOf;
    CloneRepresents(was, now, v, u, listings, names, tree);
    CopyIsTheClone(was, v, tree, u, names);
    TreeIsUnique(now, u, CloneTree(tree, u, names), loaded);
    CopiesAreTheSame(tree, u, naming, NamingOf(tree, names));
  }

  lemma SortedBlockIsOne(blocks: seq<Block>, k: nat)
    requires k < |SortBlocks(blocks)|
    ensures SortBlocks(blocks)[k] in blocks
  {}

  lemma CopiedLessonIsHashable(l: Lesson, u: Id, section: Id, names: LessonNames)
    requires LessonIsHashable(l)
    ensures LessonIsHashable(CopyLesson(l, u, section, names))
  {
    hide SortBlocks, InF002Subset;
    var copy := CopyLesson(l, u, section, names);
    forall b | b in copy.blocks ensures InF002Subset(b.row.body.document) {
      var k :| 0 <= k < |copy.blocks| && copy.blocks[k] == b;
      SortedBlockIsOne(l.blocks, k);
    }
  }

  lemma SortedLessonIsOne(lessons: seq<Lesson>, j: nat)
    requires j < |SortLessons(lessons)|
    ensures SortLessons(lessons)[j] in lessons
  {}

  lemma CopiedSectionIsHashable(s: Section, u: Id, names: SectionNames)
    requires SectionIsHashable(s)
    ensures SectionIsHashable(CopySection(s, u, names))
  {
    hide CopyLesson, LessonIsHashable, SortLessons;
    var copy := CopySection(s, u, names);
    forall l | l in copy.lessons ensures LessonIsHashable(l) {
      var j :| 0 <= j < |copy.lessons| && copy.lessons[j] == l;
      SortedLessonIsOne(s.lessons, j);
      CopiedLessonIsHashable(SortLessons(s.lessons)[j], u, names.id, names.lessons(j));
    }
  }

  lemma CopyIsHashable(tree: seq<Section>, u: Id, naming: Naming)
    requires HasHashableDocuments(tree)
    ensures HasHashableDocuments(CopyTree(tree, u, naming))
  {
    hide CopySection, SectionIsHashable;
    var copy := CopyTree(tree, u, naming);
    forall s | s in copy ensures SectionIsHashable(s) {
      var i :| 0 <= i < |copy| && copy[i] == s;
      assert SortSections(tree)[i] in tree;
      CopiedSectionIsHashable(SortSections(tree)[i], u, naming(i));
    }
  }

  lemma ClonedLessonIsHashable(l: Lesson, u: Id, section: Id, names: CloneNames)
    requires LessonIsHashable(l)
    ensures LessonIsHashable(CloneLesson(l, u, section, names))
  {
    var clone := CloneLesson(l, u, section, names);
    forall b | b in clone.blocks ensures InF002Subset(b.row.body.document) {
      var k :| 0 <= k < |clone.blocks| && clone.blocks[k] == b;
      assert l.blocks[k] in l.blocks;
    }
  }

  lemma CloneIsHashable(tree: seq<Section>, u: Id, names: CloneNames)
    requires HasHashableDocuments(tree)
    ensures HasHashableDocuments(CloneTree(tree, u, names))
  {
    hide CloneLesson, LessonIsHashable;
    var clone := CloneTree(tree, u, names);
    forall s | s in clone ensures SectionIsHashable(s) {
      var i :| 0 <= i < |clone| && clone[i] == s;
      assert tree[i] in tree;
      forall l | l in s.lessons ensures LessonIsHashable(l) {
        var j :| 0 <= j < |s.lessons| && s.lessons[j] == l;
        assert tree[i].lessons[j] in tree[i].lessons;
        ClonedLessonIsHashable(tree[i].lessons[j], u, names.section(tree[i].entry.id), names);
      }
    }
  }

  /** The hash of the copy is the source's hash, which the repository compares, and the hash of the stored clone is the copy's,
      which the adapter compares. */
  lemma SuccessorHashesAgree(sha: string -> string, meta: Metadata, tree: seq<Section>, u: Id, naming: Naming, u': Id, names: CloneNames)
    requires HasPositions(tree) && HasHashableDocuments(tree)
    ensures HasHashableDocuments(CopyTree(tree, u, naming)) && HasHashableDocuments(CloneTree(tree, u', names))
    ensures ContentHash(sha, meta, CopyTree(tree, u, naming)) == ContentHash(sha, meta, tree)
    ensures ContentHash(sha, meta, CloneTree(tree, u', names)) == ContentHash(sha, meta, CopyTree(tree, u, naming))
  {
    CopyIsHashable(tree, u, naming);
    CloneIsHashable(tree, u', names);
    CopyKeepsMeaning(tree, u, naming);
    CloneKeepsMeaning(tree, u', names);
    HashIdentifiesContent(sha, meta, CopyTree(tree, u, naming), meta, tree);
    HashIdentifiesContent(sha, meta, CloneTree(tree, u', names), meta, CopyTree(tree, u, naming));
  }

  /* ---------- nothing is shared ---------- */

  lemma ClonesAreNew<T>(was: Rows<T>, now: Rows<T>, v: Id, listing: seq<Entry<T>>, u: Id, name: Id -> Id, parentOf: Id -> Id)
    requires HasClones(was, now, listing, u, name, parentOf) && FreshFor(was, name) && UniqueSiblings(was) && IsListing(was, v, listing)
    requires ParentsAreFresh(was, listing, parentOf) && forall k | k in was :: was[k].version != u
    ensures UniqueSiblings(now)
    ensures forall k :: k in now && now[k].version == u <==> k in now && k !in was
    ensures forall w | w != u :: OfVersion(now, w) == OfVersion(was, w)
  {
    hide UniqueSiblings;
    forall k | k in now && k !in was ensures now[k].version == u {
      var e :| e in listing && k == name(e.id);
    }
    ClonesAreSiblings(was, now, v, listing, u, name, parentOf);
    forall w | w != u ensures OfVersion(now, w) == OfVersion(was, w) {
      assert OfVersion(now, w).Keys == OfVersion(was, w).Keys;
    }
  }

  lemma ClonesHaveOwnParents<T>(was: Rows<T>, now: Rows<T>, v: Id, listing: seq<Entry<T>>, u: Id, name: Id -> Id, parentOf: Id -> Id)
    requires HasClones(was, now, listing, u, name, parentOf) && ParentsAreFresh(was, listing, parentOf)
    ensures forall k, m | k in now && k !in was && m in was :: now[k].parent != now[m].parent
  {
    forall k, m | k in now && k !in was && m in was ensures now[k].parent != now[m].parent {
      var d :| d in listing && k == name(d.id);
    }
  }

  lemma ClonesAreSiblings<T>(was: Rows<T>, now: Rows<T>, v: Id, listing: seq<Entry<T>>, u: Id, name: Id -> Id, parentOf: Id -> Id)
    requires HasClones(was, now, listing, u, name, parentOf) && FreshFor(was, name) && UniqueSiblings(was) && IsListing(was, v, listing)
    requires ParentsAreFresh(was, listing, parentOf)
    ensures UniqueSiblings(now)
  {
    ClonesHaveOwnParents(was, now, v, listing, u, name, parentOf);
    forall k, m | k in now && m in now && k != m && now[k].parent == now[m].parent
      ensures now[k].version == now[m].version && now[k].position != now[m].position
    {
      if k !in was {
        var d :| d in listing && k == name(d.id);
        var e :| e in listing && m == name(e.id);
        assert d.id != e.id && d.row.parent == e.row.parent;
        assert was[d.id].position != was[e.id].position;
      }
    }
  }

  lemma ClonedLessonsHaveSections(was: Tables, now: Tables, v: Id, u: Id, listings: Listings, names: CloneNames)
    requires Integrity(was) && AreListings(was, v, listings) && TablesCloned(was, now, v, u, listings, names)
    ensures forall k | k in now.lessons ::
      now.lessons[k].parent in now.sections && now.sections[now.lessons[k].parent].version == now.lessons[k].version
  {
    hide IsListing, UniqueSiblings;
    ListedParents(was, v, listings);
    forall k | k in now.lessons
      ensures now.lessons[k].parent in now.sections && now.sections[now.lessons[k].parent].version == now.lessons[k].version
    {
      if k !in was.lessons {
        var e :| e in listings.lessons && k == names.lesson(e.id);
        var s :| s in listings.sections && s.id == e.row.parent;
      }
    }
  }

  lemma ClonedBlocksHaveLessons(was: Tables, now: Tables, v: Id, u: Id, listings: Listings, names: CloneNames)
    requires Integrity(was) && AreListings(was, v, listings) && TablesCloned(was, now, v, u, listings, names)
    ensures forall k | k in now.blocks ::
      now.blocks[k].parent in now.lessons && now.lessons[now.blocks[k].parent].version == now.blocks[k].version
  {
    hide IsListing, UniqueSiblings;
    ListedParents(was, v, listings);
    forall k | k in now.blocks
      ensures now.blocks[k].parent in now.lessons && now.lessons[now.blocks[k].parent].version == now.blocks[k].version
    {
      if k !in was.blocks {
        var e :| e in listings.blocks && k == names.block(e.id);
        var l :| l in listings.lessons && l.id == e.row.parent;
      }
    }
  }

  lemma ClonedSectionsLieInTheirVersion(was: Tables, now: Tables, v: Id, u: Id, listings: Listings, names: CloneNames)
    requires Integrity(was) && TablesCloned(was, now, v, u, listings, names)
    ensures forall k | k in now.sections :: now.sections[k].parent == now.sections[k].version
  {
    hide UniqueSiblings;
    forall k | k in now.sections ensures now.sections[k].parent == now.sections[k].version {
      if k !in was.sections {
        var e :| e in listings.sections && k == names.section(e.id);
      }
    }
  }

  /** The clone's rows are all new, every older version keeps its rows, and the foreign keys hold. */
  lemma CloneKeepsEverythingElse(was: Tables, now: Tables, v: Id, u: Id, listings: Listings, names: CloneNames)
    requires Integrity(was) && AreListings(was, v, listings) && CloneNamesAreFresh(was, names) && VersionIsNew(was, u)
    requires TablesCloned(was, now, v, u, listings, names)
    ensures forall w | w != u :: TablesOf(now, w) == TablesOf(was, w)
    ensures forall k | k in TablesOf(now, u).sections :: k !in was.sections
    ensures forall k | k in TablesOf(now, u).lessons :: k !in was.lessons
    ensures forall k | k in TablesOf(now, u).blocks :: k !in was.blocks
    ensures Integrity(now)
  {
    hide IsListing, UniqueSiblings, FreshFor, ParentsAreFresh, HasClones, Integrity;
    SectionParentsFresh(was, v, u, listings);
    LessonParentsFresh(was, v, listings, names);
    BlockParentsFresh(was, v, listings, names);
    IntegrityGives(was);
    ClonesAreNew(was.sections, now.sections, v, listings.sections, u, names.section, (p: Id) => u);
    ClonesAreNew(was.lessons, now.lessons, v, listings.lessons, u, names.lesson, names.section);
    ClonesAreNew(was.blocks, now.blocks, v, listings.blocks, u, names.block, names.lesson);
    ClonedSectionsLieInTheirVersion(was, now, v, u, listings, names);
    ClonedLessonsHaveSections(was, now, v, u, listings, names);
    ClonedBlocksHaveLessons(was, now, v, u, listings, names);
    IntegrityFrom(now);
  }
}

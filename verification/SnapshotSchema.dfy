/** The snapshot contract of the API: it accepts a tree exactly when the tables can hold it, and its own content projection is
    the hashed one. */
module SnapshotSchema {
  import opened Prelude
  import opened CanonicalJson
  import opened CourseTree
  import opened ContentProjection
  import opened CurriculumTable
  import opened CourseRepository
  import opened CurriculumReplacement

  /* ---------- the second content projection, in list order ---------- */

  function ListedLesson(l: Lesson): Json {
    Obj(map["title" := Str(l.entry.row.body.title), "position" := Int(l.entry.row.position),
            "is_required" := Bool(l.entry.row.body.isRequired), "content_blocks" := Arr(BlockList(l.blocks))])
  }

  function ListedLessons(lessons: seq<Lesson>): (js: seq<Json>)
    ensures |js| == |lessons| && forall i :: 0 <= i < |js| ==> js[i] == ListedLesson(lessons[i])
  {
    seq(|lessons|, i requires 0 <= i < |lessons| => ListedLesson(lessons[i]))
  }

  function ListedSection(s: Section): Json {
    Obj(map["title" := Str(s.entry.row.body.title), "position" := Int(s.entry.row.position),
            "lessons" := Arr(ListedLessons(s.lessons))])
  }

  function ListedSections(sections: seq<Section>): (js: seq<Json>)
    ensures |js| == |sections| && forall i :: 0 <= i < |js| ==> js[i] == ListedSection(sections[i])
  {
    seq(|sections|, i requires 0 <= i < |sections| => ListedSection(sections[i]))
  }

  function ListedProjection(meta: Metadata, tree: seq<Section>): Json {
    Obj(map["primary_locale" := Str(meta.primaryLocale), "title" := Str(meta.title),
            "description" := Str(meta.description), "sections" := Arr(ListedSections(tree))])
  }

  /* ---------- the consistency check ---------- */

  function EntryIds<T>(entries: seq<Entry<T>>): (ids: seq<Id>)
    ensures |ids| == |entries| && forall i :: 0 <= i < |ids| ==> ids[i] == entries[i].id
  {
    seq(|entries|, i requires 0 <= i < |entries| => entries[i].id)
  }

  predicate IsBlockOf(v: Id, lesson: Id, b: Block) {
    b.row.version == v && b.row.parent == lesson
  }

  predicate IsLessonOf(v: Id, section: Id, l: Lesson) {
    && l.entry.row.version == v && l.entry.row.parent == section && StrictlyAscending(Positions(l.blocks))
    && forall b | b in l.blocks :: IsBlockOf(v, l.entry.id, b)
  }

  /** The parent of a section row is its version. */
  predicate IsSectionOf(v: Id, s: Section) {
    && s.entry.row.version == v && s.entry.row.parent == v && StrictlyAscending(Positions(LessonEntries(s.lessons)))
    && forall l | l in s.lessons :: IsLessonOf(v, s.entry.id, l)
  }

  /** Every level in ascending position, every id once, every node in the version and under its parent. */
  predicate IsConsistent(v: Id, tree: seq<Section>) {
    && StrictlyAscending(Positions(SectionEntries(tree)))
    && (forall s | s in tree :: IsSectionOf(v, s))
    && Distinct(EntryIds(SectionEntries(tree)))
    && Distinct(EntryIds(LessonEntries(AllLessons(tree))))
    && Distinct(EntryIds(AllBlocks(AllLessons(tree))))
  }

  /** `_require_ordered_unique_positions` */
  method RequireOrderedUniquePositions(positions: seq<int>) returns (ok: bool)
    ensures ok <==> StrictlyAscending(positions)
  {
    DistinctSize(positions);
    if |positions| != |Elements(positions)| { return false; }
    PermuteSorts(positions, positions);
    if StrictlyAscending(positions) { SortIsIdentity(positions, positions); }
    ok := positions == Permute(positions, Order(positions));
  }

  lemma {:induction false} OneIdMore(ids: seq<Id>, id: Id)
    ensures Distinct(ids + [id]) <==> Distinct(ids) && id !in ids
  {
    var all := ids + [id];
    if id in ids {
      var i :| 0 <= i < |ids| && ids[i] == id;
      assert all[i] == all[|ids|];
    }
    assert forall i :: 0 <= i < |ids| ==> all[i] == ids[i];
  }

  ghost predicate IsSeen(seen: set<Id>, ids: seq<Id>) {
    Distinct(ids) && forall id :: id in seen <==> id in ids
  }

  lemma {:induction false} SeenOneMore(seen: set<Id>, ids: seq<Id>, id: Id)
    requires IsSeen(seen, ids)
    ensures Distinct(ids + [id]) <==> id !in seen
    ensures id !in seen ==> IsSeen(seen + {id}, ids + [id])
  {
    OneIdMore(ids, id);
  }

  method RequireBlocks(v: Id, lesson: Id, blocks: seq<Block>, seen: set<Id>, ghost before: seq<Id>) returns (ok: bool, next: set<Id>)
    requires IsSeen(seen, before)
    ensures ok <==> Distinct(before + EntryIds(blocks)) && forall b | b in blocks :: IsBlockOf(v, lesson, b)
    ensures ok ==> IsSeen(next, before + EntryIds(blocks))
  {
    hide IsSeen, Distinct;
    next := seen;
    var ids := EntryIds(blocks);
    SeenIsDistinct(seen, before);
    assert before + ids[..0] == before;
    for k := 0 to |blocks|
      invariant IsSeen(next, before + ids[..k]) && Distinct(before + ids[..k])
      invariant forall i :: 0 <= i < k ==> IsBlockOf(v, lesson, blocks[i])
    {
      SeenOneMore(next, before + ids[..k], blocks[k].id);
      assert before + ids[..k] + [ids[k]] == before + ids[..k + 1];
      if blocks[k].id in next {
        WithinDistinct(before + ids[..k + 1], before + ids);
        return false, next;
      }
      next := next + {blocks[k].id};
      if blocks[k].row.version != v || blocks[k].row.parent != lesson {
        assert blocks[k] in blocks && !IsBlockOf(v, lesson, blocks[k]);
        return false, next;
      }
    }
    assert ids[..|blocks|] == ids;
    ok := true;
  }

  lemma SeenIsDistinct(seen: set<Id>, ids: seq<Id>)
    requires IsSeen(seen, ids)
    ensures Distinct(ids)
  {}

  method RequireLessons(v: Id, section: Id, lessons: seq<Lesson>, seenLessons: set<Id>, seenBlocks: set<Id>,
      ghost lessonsBefore: seq<Id>, ghost blocksBefore: seq<Id>)
    returns (ok: bool, nextLessons: set<Id>, nextBlocks: set<Id>)
    requires IsSeen(seenLessons, lessonsBefore) && IsSeen(seenBlocks, blocksBefore)
    ensures ok <==>
      && Distinct(lessonsBefore + EntryIds(LessonEntries(lessons))) && Distinct(blocksBefore + EntryIds(AllBlocks(lessons)))
      && forall l | l in lessons :: IsLessonOf(v, section, l)
    ensures ok ==>
      IsSeen(nextLessons, lessonsBefore + EntryIds(LessonEntries(lessons))) && IsSeen(nextBlocks, blocksBefore + EntryIds(AllBlocks(lessons)))
  {
    hide IsSeen, Distinct, IsBlockOf, AllBlocks, StrictlyAscending;
    nextLessons, nextBlocks := seenLessons, seenBlocks;
    ghost var ids, blockIds := EntryIds(LessonEntries(lessons)), EntryIds(AllBlocks(lessons));
    SeenIsDistinct(seenLessons, lessonsBefore);
    SeenIsDistinct(seenBlocks, blocksBefore);
    NoBlocks(lessons);
    assert lessonsBefore + ids[..0] == lessonsBefore && blocksBefore + EntryIds(AllBlocks(lessons[..0])) == blocksBefore;
    for j := 0 to |lessons|
      invariant IsSeen(nextLessons, lessonsBefore + ids[..j]) && IsSeen(nextBlocks, blocksBefore + EntryIds(AllBlocks(lessons[..j])))
      invariant Distinct(lessonsBefore + ids[..j]) && Distinct(blocksBefore + EntryIds(AllBlocks(lessons[..j])))
      invariant forall i :: 0 <= i < j ==> IsLessonOf(v, section, lessons[i])
    {
      var lesson := lessons[j];
      assert lesson in lessons;
      SeenOneMore(nextLessons, lessonsBefore + ids[..j], lesson.entry.id);
      assert lessonsBefore + ids[..j] + [ids[j]] == lessonsBefore + ids[..j + 1];
      WithinDistinct(lessonsBefore + ids[..j + 1], lessonsBefore + ids);
      if lesson.entry.id in nextLessons { return false, nextLessons, nextBlocks; }
      nextLessons := nextLessons + {lesson.entry.id};
      if lesson.entry.row.version != v || lesson.entry.row.parent != section { return false, nextLessons, nextBlocks; }
      var ordered := RequireOrderedUniquePositions(Positions(lesson.blocks));
      if !ordered { return false, nextLessons, nextBlocks; }
      BlocksPrefix(lessons, j);
      ghost var so := blocksBefore + EntryIds(AllBlocks(lessons[..j]));
      assert so + EntryIds(lesson.blocks) == blocksBefore + EntryIds(AllBlocks(lessons[..j + 1]));
      WithinDistinct(so + EntryIds(lesson.blocks), blocksBefore + blockIds);
      ok, nextBlocks := RequireBlocks(v, lesson.entry.id, lesson.blocks, nextBlocks, so);
      if !ok { return false, nextLessons, nextBlocks; }
      SeenIsDistinct(nextBlocks, so + EntryIds(lesson.blocks));
    }
    assert ids[..|lessons|] == ids && lessons[..|lessons|] == lessons;
    ok := true;
  }

  lemma NoBlocks(lessons: seq<Lesson>)
    ensures AllBlocks(lessons[..0]) == []
  {}

  lemma NoLessons(tree: seq<Section>)
    ensures AllLessons(tree[..0]) == []
  {}

  lemma {:induction false} BlocksPrefix(lessons: seq<Lesson>, j: nat)
    requires j < |lessons|
    ensures AllBlocks(lessons[..j + 1]) == AllBlocks(lessons[..j]) + lessons[j].blocks
    ensures AllBlocks(lessons[..j + 1]) <= AllBlocks(lessons)
  {
    var last := |lessons| - 1;
    assert lessons[..j + 1][..j] == lessons[..j];
    if j < last {
      BlocksPrefix(lessons[..last], j);
      assert lessons[..last][..j + 1] == lessons[..j + 1] && lessons[..last][..j] == lessons[..j];
    } else {
      assert lessons[..j + 1] == lessons;
    }
  }

  lemma {:induction false} LessonsPrefix(tree: seq<Section>, i: nat)
    requires i < |tree|
    ensures AllLessons(tree[..i + 1]) == AllLessons(tree[..i]) + tree[i].lessons
    ensures AllLessons(tree[..i + 1]) <= AllLessons(tree)
  {
    var last := |tree| - 1;
    assert tree[..i + 1][..i] == tree[..i];
    if i < last {
      LessonsPrefix(tree[..last], i);
      assert tree[..last][..i + 1] == tree[..i + 1] && tree[..last][..i] == tree[..i];
    } else {
      assert tree[..i + 1] == tree;
    }
  }

  lemma {:induction false} BlocksConcat(a: seq<Lesson>, b: seq<Lesson>)
    ensures AllBlocks(a + b) == AllBlocks(a) + AllBlocks(b)
  {
    if b == [] {
      assert a + b == a;
    } else {
      var last := |b| - 1;
      BlocksConcat(a, b[..last]);
      assert (a + b)[..|a + b| - 1] == a + b[..last];
    }
  }

  /** `require_consistent_snapshot_edges_and_hash`, up to the hash: it accepts exactly the consistent trees. */
  method RequireConsistentTree(v: Id, tree: seq<Section>) returns (ok: bool)
    ensures ok <==> IsConsistent(v, tree)
  {
    hide IsSeen, Distinct, IsLessonOf, AllBlocks, AllLessons, StrictlyAscending;
    var ordered := RequireOrderedUniquePositions(Positions(SectionEntries(tree)));
    if !ordered { return false; }
    ghost var ids := EntryIds(SectionEntries(tree));
    DistinctSize(ids);
    if |Elements(EntryIds(SectionEntries(tree)))| != |tree| { return false; }
    var lessonIds: set<Id>, blockIds: set<Id> := {}, {};
    ghost var allLessons, allBlocks := EntryIds(LessonEntries(AllLessons(tree))), EntryIds(AllBlocks(AllLessons(tree)));
    NothingSeen(tree);
    for i := 0 to |tree|
      invariant IsSeen(lessonIds, EntryIds(LessonEntries(AllLessons(tree[..i])))) && IsSeen(blockIds, EntryIds(AllBlocks(AllLessons(tree[..i]))))
      invariant forall k :: 0 <= k < i ==> IsSectionOf(v, tree[k])
    {
      var section := tree[i];
      assert section in tree;
      if section.entry.row.version != v || section.entry.row.parent != v { return false; }
      ordered := RequireOrderedUniquePositions(Positions(LessonEntries(section.lessons)));
      if !ordered { return false; }
      ghost var ls, bs := EntryIds(LessonEntries(AllLessons(tree[..i]))), EntryIds(AllBlocks(AllLessons(tree[..i])));
      SectionPrefix(tree, i);
      WithinDistinct(ls + EntryIds(LessonEntries(section.lessons)), allLessons);
      WithinDistinct(bs + EntryIds(AllBlocks(section.lessons)), allBlocks);
      ok, lessonIds, blockIds := RequireLessons(v, section.entry.id, section.lessons, lessonIds, blockIds, ls, bs);
      if !ok { return false; }
    }
    assert tree[..|tree|] == tree;
    SeenIsDistinct(lessonIds, allLessons);
    SeenIsDistinct(blockIds, allBlocks);
    ok := true;
  }

  lemma NothingSeen(tree: seq<Section>)
    ensures IsSeen({}, EntryIds(LessonEntries(AllLessons(tree[..0])))) && IsSeen({}, EntryIds(AllBlocks(AllLessons(tree[..0]))))
  {
    NoLessons(tree);
  }

  lemma LessonIdsConcat(a: seq<Lesson>, b: seq<Lesson>)
    ensures EntryIds(LessonEntries(a + b)) == EntryIds(LessonEntries(a)) + EntryIds(LessonEntries(b))
  {}

  lemma BlockIdsConcat(a: seq<Block>, b: seq<Block>)
    ensures EntryIds(a + b) == EntryIds(a) + EntryIds(b)
  {}

  /** The ids up to and including one section. */
  lemma {:induction false} SectionPrefix(tree: seq<Section>, i: nat)
    requires i < |tree|
    ensures var ls, here := EntryIds(LessonEntries(AllLessons(tree[..i]))), EntryIds(LessonEntries(tree[i].lessons));
      && EntryIds(LessonEntries(AllLessons(tree[..i + 1]))) == ls + here
      && ls + here <= EntryIds(LessonEntries(AllLessons(tree)))
    ensures var bs, here := EntryIds(AllBlocks(AllLessons(tree[..i]))), EntryIds(AllBlocks(tree[i].lessons));
      && EntryIds(AllBlocks(AllLessons(tree[..i + 1]))) == bs + here
      && bs + here <= EntryIds(AllBlocks(AllLessons(tree)))
  {
    hide AllLessons, AllBlocks, LessonEntries, EntryIds;
    LessonsPrefix(tree, i);
    var before, here, so, all := AllLessons(tree[..i]), tree[i].lessons, AllLessons(tree[..i + 1]), AllLessons(tree);
    var rest := all[|so|..];
    assert all == so + rest;
    LessonIdsConcat(before, here);
    LessonIdsConcat(so, rest);
    BlocksConcat(before, here);
    BlocksConcat(so, rest);
    BlockIdsConcat(AllBlocks(before), AllBlocks(here));
    BlockIdsConcat(AllBlocks(so), AllBlocks(rest));
  }

  lemma WithinDistinct(some: seq<Id>, all: seq<Id>)
    requires some <= all
    ensures Distinct(all) ==> Distinct(some)
  {
    assert some == all[..|some|];
  }

  /* ---------- the tables hold exactly the consistent trees ---------- */

  lemma NothingRepeats()
    ensures Distinct<Id>([])
  {}

  lemma {:induction false} ConcatIsDistinct(a: seq<Id>, b: seq<Id>)
    requires Distinct(a) && Distinct(b) && forall id | id in a :: id !in b
    ensures Distinct(a + b)
  {
    forall i, j | 0 <= i < j < |a + b| ensures (a + b)[i] != (a + b)[j] {
      if i < |a| && j >= |a| { assert a[i] in a && b[j - |a|] in b; }
    }
  }

  lemma {:induction false} IdIsListed<T>(entries: seq<Entry<T>>, id: Id) returns (e: Entry<T>)
    requires id in EntryIds(entries)
    ensures e in entries && e.id == id
  {
    var i :| 0 <= i < |entries| && EntryIds(entries)[i] == id;
    e := entries[i];
  }

  lemma NotListed<T>(entries: seq<Entry<T>>, id: Id)
    requires forall e | e in entries :: e.id != id
    ensures id !in EntryIds(entries)
  {
    assert forall i :: 0 <= i < |entries| ==> entries[i] in entries;
  }

  /** Entries in ascending position that are stored rows have different ids. */
  lemma AscendingIdsDiffer<T>(rows: Rows<T>, entries: seq<Entry<T>>)
    requires StrictlyAscending(Positions(entries)) && forall e | e in entries :: e.id in rows && rows[e.id] == e.row
    ensures Distinct(EntryIds(entries))
  {
    forall i, j | 0 <= i < j < |entries| ensures entries[i].id != entries[j].id {
      assert entries[i] in entries && entries[j] in entries && Positions(entries)[i] < Positions(entries)[j];
    }
  }

  lemma {:induction false} LessonEntryIn(lessons: seq<Lesson>, e: Entry<LessonBody>) returns (l: Lesson)
    requires e in LessonEntries(lessons)
    ensures l in lessons && l.entry == e
  {
    var i :| 0 <= i < |lessons| && LessonEntries(lessons)[i] == e;
    l := lessons[i];
  }

  lemma {:induction false} LessonIdsDiffer(t: Tables, v: Id, tree: seq<Section>, n: nat)
    requires Represents(t, v, tree) && n <= |tree|
    ensures Distinct(EntryIds(LessonEntries(AllLessons(tree[..n]))))
  {
    hide AllLessons, Distinct;
    if n == 0 {
      NoLessons(tree);
      NothingRepeats();
      assert EntryIds(LessonEntries(AllLessons(tree[..0]))) == [];
    } else {
      var i := n - 1;
      LessonIdsDiffer(t, v, tree, i);
      LessonsPrefix(tree, i);
      var before, here := EntryIds(LessonEntries(AllLessons(tree[..i]))), EntryIds(LessonEntries(tree[i].lessons));
      assert tree[i] in tree;
      AscendingIdsDiffer(t.lessons, LessonEntries(tree[i].lessons));
      AscendingIdsDiffer(t.sections, SectionEntries(tree));
      forall id | id in before ensures id !in here {
        var e := IdIsListed(LessonEntries(AllLessons(tree[..i])), id);
        var l := LessonEntryIn(AllLessons(tree[..i]), e);
        AllLessonsHolds(tree[..i], l);
        var s :| s in tree[..i] && l in s.lessons;
        LessonInSection(s, l);
        EarlierSection(tree, i, s);
        assert forall d | d in LessonEntries(tree[i].lessons) :: d.row == t.lessons[d.id] && d.row.parent == tree[i].entry.id;
        NotListed(LessonEntries(tree[i].lessons), id);
      }
      ConcatIsDistinct(before, here);
      assert EntryIds(LessonEntries(AllLessons(tree[..n]))) == before + here;
    }
  }

  lemma EarlierSection(tree: seq<Section>, i: nat, s: Section)
    requires i < |tree| && s in tree[..i] && Distinct(EntryIds(SectionEntries(tree)))
    ensures s in tree && s.entry.id != tree[i].entry.id
  {
    var k :| 0 <= k < i && tree[..i][k] == s;
    assert EntryIds(SectionEntries(tree))[k] != EntryIds(SectionEntries(tree))[i];
  }

  lemma {:induction false} BlockIdsDiffer(rows: BlockRows, lessons: seq<Lesson>, n: nat)
    requires Distinct(EntryIds(LessonEntries(lessons))) && (forall l | l in lessons :: Lists(rows, l.entry.id, l.blocks)) && n <= |lessons|
    ensures Distinct(EntryIds(AllBlocks(lessons[..n])))
  {
    hide AllBlocks, Distinct;
    if n == 0 {
      NoBlocks(lessons);
      NothingRepeats();
      assert EntryIds(AllBlocks(lessons[..0])) == [];
    } else {
      var j := n - 1;
      BlockIdsDiffer(rows, lessons, j);
      BlocksPrefix(lessons, j);
      assert lessons[j] in lessons;
      var before, here := EntryIds(AllBlocks(lessons[..j])), EntryIds(lessons[j].blocks);
      AscendingIdsDiffer(rows, lessons[j].blocks);
      forall id | id in before ensures id !in here {
        var e := IdIsListed(AllBlocks(lessons[..j]), id);
        AllBlocksHolds(lessons[..j], e);
        var l :| l in lessons[..j] && e in l.blocks;
        EarlierLesson(lessons, j, l);
        assert forall d | d in lessons[j].blocks :: d.row == rows[d.id] && d.row.parent == lessons[j].entry.id;
        NotListed(lessons[j].blocks, id);
      }
      ConcatIsDistinct(before, here);
      BlockIdsConcat(AllBlocks(lessons[..j]), lessons[j].blocks);
    }
  }

  lemma EarlierLesson(lessons: seq<Lesson>, j: nat, l: Lesson)
    requires j < |lessons| && l in lessons[..j] && Distinct(EntryIds(LessonEntries(lessons)))
    ensures l in lessons && l.entry.id != lessons[j].entry.id
  {
    var k :| 0 <= k < j && lessons[..j][k] == l;
    assert EntryIds(LessonEntries(lessons))[k] != EntryIds(LessonEntries(lessons))[j];
  }

  lemma RepresentedSection(t: Tables, v: Id, tree: seq<Section>, s: Section)
    requires Integrity(t) && Represents(t, v, tree) && s in tree
    ensures IsSectionOf(v, s)
  {
    hide UniqueSiblings;
    SectionInTree(tree, s);
    forall l | l in s.lessons ensures IsLessonOf(v, s.entry.id, l) {
      LessonInSection(s, l);
    }
  }

  /** Whatever the tables hold is a consistent snapshot. */
  lemma RepresentedIsConsistent(t: Tables, v: Id, tree: seq<Section>)
    requires Integrity(t) && Represents(t, v, tree)
    ensures IsConsistent(v, tree)
  {
    hide Integrity, AllLessons, AllBlocks, IsSectionOf;
    forall s | s in tree ensures IsSectionOf(v, s) { RepresentedSection(t, v, tree, s); }
    AscendingIdsDiffer(t.sections, SectionEntries(tree));
    LessonIdsDiffer(t, v, tree, |tree|);
    assert tree[..|tree|] == tree;
    var lessons := AllLessons(tree);
    forall l | l in lessons ensures Lists(t.blocks, l.entry.id, l.blocks) {
      AllLessonsHolds(tree, l);
    }
    BlockIdsDiffer(t.blocks, lessons, |lessons|);
    assert lessons[..|lessons|] == lessons;
  }

  /* ---------- and every consistent snapshot can be stored ---------- */

  lemma {:induction false} EntryMapOfDistinct<T>(entries: seq<Entry<T>>)
    requires Distinct(EntryIds(entries))
    ensures forall e | e in entries :: e.id in EntryMap(entries) && EntryMap(entries)[e.id] == e.row
    ensures forall k | k in EntryMap(entries) :: Entry(k, EntryMap(entries)[k]) in entries
  {
    if entries != [] {
      var last := |entries| - 1;
      assert EntryIds(entries)[..last] == EntryIds(entries[..last]);
      EntryMapOfDistinct(entries[..last]);
      assert entries == entries[..last] + [entries[last]];
      forall e | e in entries[..last] ensures e.id != entries[last].id {
        var i :| 0 <= i < last && entries[i] == e;
        assert EntryIds(entries)[i] != EntryIds(entries)[last];
      }
    }
  }

  lemma SameIdSameEntry<T>(entries: seq<Entry<T>>, i: nat, j: nat)
    requires Distinct(EntryIds(entries)) && i < |entries| && j < |entries| && entries[i].id == entries[j].id
    ensures i == j
  {
    assert EntryIds(entries)[i] == entries[i].id && EntryIds(entries)[j] == entries[j].id;
  }

  lemma SameSectionId(tree: seq<Section>, a: Section, b: Section)
    requires Distinct(EntryIds(SectionEntries(tree))) && a in tree && b in tree && a.entry.id == b.entry.id
    ensures a == b
  {
    var i :| 0 <= i < |tree| && tree[i] == a;
    var j :| 0 <= j < |tree| && tree[j] == b;
    SameIdSameEntry(SectionEntries(tree), i, j);
  }

  lemma SameLessonId(lessons: seq<Lesson>, a: Lesson, b: Lesson)
    requires Distinct(EntryIds(LessonEntries(lessons))) && a in lessons && b in lessons && a.entry.id == b.entry.id
    ensures a == b
  {
    var i :| 0 <= i < |lessons| && lessons[i] == a;
    var j :| 0 <= j < |lessons| && lessons[j] == b;
    SameIdSameEntry(LessonEntries(lessons), i, j);
  }

  /** Where a stored lesson of the dictionaries stands in the tree. */
  lemma {:induction false} LessonOfDictionary(v: Id, tree: seq<Section>, k: Id) returns (s: Section, l: Lesson)
    requires IsConsistent(v, tree) && k in Dictionaries(tree).lessons
    ensures s in tree && l in s.lessons && l in AllLessons(tree) && l.entry == Entry(k, Dictionaries(tree).lessons[k])
    ensures l.entry.row.parent == s.entry.id && l.entry.row.version == v
  {
    hide AllLessons, AllBlocks, EntryMap, StrictlyAscending, Distinct, IsBlockOf;
    EntryMapOfDistinct(LessonEntries(AllLessons(tree)));
    l := LessonEntryIn(AllLessons(tree), Entry(k, Dictionaries(tree).lessons[k]));
    AllLessonsHolds(tree, l);
    s :| s in tree && l in s.lessons;
    assert IsSectionOf(v, s) && IsLessonOf(v, s.entry.id, l);
  }

  lemma {:induction false} BlockOfDictionary(v: Id, tree: seq<Section>, k: Id) returns (l: Lesson)
    requires IsConsistent(v, tree) && k in Dictionaries(tree).blocks
    ensures l in AllLessons(tree) && Entry(k, Dictionaries(tree).blocks[k]) in l.blocks && StrictlyAscending(Positions(l.blocks))
    ensures Dictionaries(tree).blocks[k].parent == l.entry.id && Dictionaries(tree).blocks[k].version == v
  {
    hide AllLessons, AllBlocks, EntryMap, StrictlyAscending, Distinct;
    EntryMapOfDistinct(AllBlocks(AllLessons(tree)));
    var b := Entry(k, Dictionaries(tree).blocks[k]);
    AllBlocksHolds(AllLessons(tree), b);
    l :| l in AllLessons(tree) && b in l.blocks;
    AllLessonsHolds(tree, l);
    var s :| s in tree && l in s.lessons;
    assert IsSectionOf(v, s) && IsLessonOf(v, s.entry.id, l) && IsBlockOf(v, l.entry.id, b);
  }

  /** Rows at two places of an ascending list have different positions. */
  lemma DifferentPlaces<T>(entries: seq<Entry<T>>, a: Entry<T>, b: Entry<T>)
    requires StrictlyAscending(Positions(entries)) && a in entries && b in entries && a.id != b.id
    ensures a.row.position != b.row.position
  {
    var i :| 0 <= i < |entries| && entries[i] == a;
    var j :| 0 <= j < |entries| && entries[j] == b;
    assert Positions(entries)[i] == a.row.position && Positions(entries)[j] == b.row.position;
  }

  lemma {:induction false} ConsistentSections(v: Id, tree: seq<Section>)
    requires IsConsistent(v, tree)
    ensures var rows := Dictionaries(tree).sections;
      UniqueSiblings(rows) && (forall k | k in rows :: rows[k].parent == rows[k].version == v) && Lists(rows, v, SectionEntries(tree))
  {
    hide AllLessons, AllBlocks, EntryMap, Distinct;
    var entries, rows := SectionEntries(tree), Dictionaries(tree).sections;
    EntryMapOfDistinct(entries);
    forall e | e in entries ensures e.row.parent == e.row.version == v {
      var i :| 0 <= i < |entries| && entries[i] == e;
      assert tree[i] in tree;
    }
    forall k, m | k in rows && m in rows && k != m ensures rows[k].position != rows[m].position {
      DifferentPlaces(entries, Entry(k, rows[k]), Entry(m, rows[m]));
    }
  }

  lemma {:induction false} ConsistentLessons(v: Id, tree: seq<Section>)
    requires IsConsistent(v, tree)
    ensures var d := Dictionaries(tree);
      && UniqueSiblings(d.lessons)
      && (forall k | k in d.lessons :: d.lessons[k].parent in d.sections && d.lessons[k].version == v)
      && (forall s | s in tree :: Lists(d.lessons, s.entry.id, LessonEntries(s.lessons)))
  {
    hide AllLessons, AllBlocks, EntryMap, Distinct, IsLessonOf;
    var rows := Dictionaries(tree).lessons;
    EntryMapOfDistinct(LessonEntries(AllLessons(tree)));
    EntryMapOfDistinct(SectionEntries(tree));
    forall k | k in rows ensures rows[k].parent in Dictionaries(tree).sections && rows[k].version == v {
      var s, l := LessonOfDictionary(v, tree, k);
      SectionInTree(tree, s);
    }
    forall k, m | k in rows && m in rows && k != m && rows[k].parent == rows[m].parent ensures rows[k].position != rows[m].position {
      var s, l := LessonOfDictionary(v, tree, k);
      var s', l' := LessonOfDictionary(v, tree, m);
      SameSectionId(tree, s, s');
      LessonInSection(s, l);
      LessonInSection(s, l');
      DifferentPlaces(LessonEntries(s.lessons), l.entry, l'.entry);
    }
    forall s | s in tree ensures Lists(rows, s.entry.id, LessonEntries(s.lessons)) { LessonsOfSection(v, tree, s); }
  }

  lemma {:induction false} LessonsOfSection(v: Id, tree: seq<Section>, s: Section)
    requires IsConsistent(v, tree) && s in tree
    ensures Lists(Dictionaries(tree).lessons, s.entry.id, LessonEntries(s.lessons))
  {
    hide AllLessons, AllBlocks, EntryMap, Distinct;
    var rows := Dictionaries(tree).lessons;
    EntryMapOfDistinct(LessonEntries(AllLessons(tree)));
    forall e | e in LessonEntries(s.lessons) ensures e.id in rows && rows[e.id] == e.row && e.row.parent == s.entry.id {
      var l := LessonEntryIn(s.lessons, e);
      AllLessonsHolds(tree, l);
      LessonInList(AllLessons(tree), l);
      assert IsSectionOf(v, s) && IsLessonOf(v, s.entry.id, l);
    }
    forall k | k in rows && rows[k].parent == s.entry.id ensures Entry(k, rows[k]) in LessonEntries(s.lessons) {
      var s', l := LessonOfDictionary(v, tree, k);
      SameSectionId(tree, s, s');
      LessonInSection(s, l);
    }
  }

  lemma {:induction false} ConsistentBlocks(v: Id, tree: seq<Section>)
    requires IsConsistent(v, tree)
    ensures var d := Dictionaries(tree);
      && UniqueSiblings(d.blocks)
      && (forall k | k in d.blocks :: d.blocks[k].parent in d.lessons && d.blocks[k].version == v)
      && (forall l | l in AllLessons(tree) :: Lists(d.blocks, l.entry.id, l.blocks))
  {
    hide AllLessons, AllBlocks, EntryMap, Distinct, IsSectionOf;
    var rows, lessons := Dictionaries(tree).blocks, AllLessons(tree);
    EntryMapOfDistinct(AllBlocks(lessons));
    EntryMapOfDistinct(LessonEntries(lessons));
    forall k | k in rows ensures rows[k].parent in Dictionaries(tree).lessons && rows[k].version == v {
      var l := BlockOfDictionary(v, tree, k);
      LessonInList(lessons, l);
    }
    forall k, m | k in rows && m in rows && k != m && rows[k].parent == rows[m].parent ensures rows[k].position != rows[m].position {
      var l := BlockOfDictionary(v, tree, k);
      var l' := BlockOfDictionary(v, tree, m);
      SameLessonId(lessons, l, l');
      DifferentPlaces(l.blocks, Entry(k, rows[k]), Entry(m, rows[m]));
    }
    forall l | l in lessons ensures Lists(rows, l.entry.id, l.blocks) { BlocksOfLesson(v, tree, l); }
  }

  lemma {:induction false} BlocksOfLesson(v: Id, tree: seq<Section>, l: Lesson)
    requires IsConsistent(v, tree) && l in AllLessons(tree)
    ensures Lists(Dictionaries(tree).blocks, l.entry.id, l.blocks)
  {
    hide AllLessons, AllBlocks, EntryMap, Distinct;
    var rows, lessons := Dictionaries(tree).blocks, AllLessons(tree);
    EntryMapOfDistinct(AllBlocks(lessons));
    AllLessonsHolds(tree, l);
    var s :| s in tree && l in s.lessons;
    assert IsSectionOf(v, s) && IsLessonOf(v, s.entry.id, l);
    forall e | e in l.blocks ensures e.id in rows && rows[e.id] == e.row && e.row.parent == l.entry.id {
      AllBlocksHolds(lessons, e);
      assert IsBlockOf(v, l.entry.id, e);
    }
    forall k | k in rows && rows[k].parent == l.entry.id ensures Entry(k, rows[k]) in l.blocks {
      var l' := BlockOfDictionary(v, tree, k);
      SameLessonId(lessons, l, l');
    }
  }

  lemma {:induction false} ConsistentIsRepresented(v: Id, tree: seq<Section>)
    requires IsConsistent(v, tree)
    ensures Integrity(Dictionaries(tree)) && Represents(Dictionaries(tree), v, tree)
  {
    hide AllLessons, AllBlocks, EntryMap, IsConsistent, UniqueSiblings, Lists;
    ConsistentSections(v, tree);
    ConsistentLessons(v, tree);
    ConsistentBlocks(v, tree);
    forall s, l | s in tree && l in s.lessons ensures l in AllLessons(tree) { AllLessonsHolds(tree, l); }
  }

  /** The contract accepts a tree exactly when some tables that obey the constraints hold it. */
  lemma {:induction false} ConsistentMeansStorable(v: Id, tree: seq<Section>)
    ensures IsConsistent(v, tree) <==> exists t :: Integrity(t) && Represents(t, v, tree)
  {
    hide IsConsistent, Integrity, Represents, Dictionaries;
    if IsConsistent(v, tree) {
      ConsistentIsRepresented(v, tree);
    }
    forall t | Integrity(t) && Represents(t, v, tree) ensures IsConsistent(v, tree) {
      RepresentedIsConsistent(t, v, tree);
    }
  }

  /* ---------- one projection ---------- */

  lemma {:induction false} ListedLessonIsSorted(v: Id, section: Id, l: Lesson)
    requires IsLessonOf(v, section, l)
    ensures ListedLesson(l) == LessonJson(l)
  {
    SortIsIdentity(l.blocks, Positions(l.blocks));
  }

  lemma {:induction false} ListedSectionIsSorted(v: Id, s: Section)
    requires IsSectionOf(v, s)
    ensures ListedSection(s) == SectionJson(s)
  {
    hide ListedLesson, LessonJson, Order, IsLessonOf;
    SortIsIdentity(s.lessons, Positions(LessonEntries(s.lessons)));
    forall j | 0 <= j < |s.lessons| ensures ListedLesson(s.lessons[j]) == LessonJson(s.lessons[j]) {
      ListedLessonIsSorted(v, s.entry.id, s.lessons[j]);
    }
    assert ListedLessons(s.lessons) == LessonList(s.lessons);
  }

  /** On a consistent tree the contract computes the projection, and so the hash, that the service stored. */
  lemma {:induction false} ProjectionsAreOne(meta: Metadata, v: Id, tree: seq<Section>)
    requires IsConsistent(v, tree)
    ensures ListedProjection(meta, tree) == Projection(meta, tree)
  {
    hide ListedSection, SectionJson, Order, IsSectionOf, AllLessons, AllBlocks;
    SortIsIdentity(tree, Positions(SectionEntries(tree)));
    forall i | 0 <= i < |tree| ensures ListedSection(tree[i]) == SectionJson(tree[i]) {
      assert tree[i] in tree;
      ListedSectionIsSorted(v, tree[i]);
    }
    assert ListedSections(tree) == SectionList(tree);
  }
}

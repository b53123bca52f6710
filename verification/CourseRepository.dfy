/** `_replace_curriculum_rows`: one version's sections, lessons and blocks changed row by row, and the tree they then stand for. */
module CourseRepository {
  import opened Prelude
  import opened CourseTree
  import opened CurriculumService
  import opened CurriculumTable

  /* ---------- the writes of a command, in the order of the nested loops ---------- */

  function SectionFlat(v: Id, node: SectionInput, names: SectionNames): Flat<SectionBody> {
    Flat(IdOf(node.identity, names.id), node.identity, v, node.position, node.body)
  }

  function LessonFlat(section: Id, node: LessonInput, names: LessonNames): Flat<LessonBody> {
    Flat(IdOf(node.identity, names.id), node.identity, section, node.position, node.body)
  }

  function BlockFlat(lesson: Id, node: BlockInput, name: Id): Flat<BlockBody> {
    Flat(IdOf(node.identity, name), node.identity, lesson, node.position, node.body)
  }

  function SectionFlats(v: Id, nodes: seq<SectionInput>, naming: Naming): (fs: seq<Flat<SectionBody>>)
    ensures |fs| == |nodes| && forall i :: 0 <= i < |fs| ==> fs[i] == SectionFlat(v, nodes[i], naming(i))
  {
    seq(|nodes|, i requires 0 <= i < |nodes| => SectionFlat(v, nodes[i], naming(i)))
  }

  function LessonFlatsIn(section: Id, nodes: seq<LessonInput>, names: nat -> LessonNames): (fs: seq<Flat<LessonBody>>)
    ensures |fs| == |nodes| && forall j :: 0 <= j < |fs| ==> fs[j] == LessonFlat(section, nodes[j], names(j))
  {
    seq(|nodes|, j requires 0 <= j < |nodes| => LessonFlat(section, nodes[j], names(j)))
  }

  function LessonFlats(nodes: seq<SectionInput>, naming: Naming): seq<Flat<LessonBody>> {
    if nodes == [] then []
    else
      var i := |nodes| - 1;
      LessonFlats(nodes[..i], naming) + LessonFlatsIn(IdOf(nodes[i].identity, naming(i).id), nodes[i].lessons, naming(i).lessons)
  }

  function BlockFlatsIn(lesson: Id, nodes: seq<BlockInput>, names: nat -> Id): (fs: seq<Flat<BlockBody>>)
    ensures |fs| == |nodes| && forall k :: 0 <= k < |fs| ==> fs[k] == BlockFlat(lesson, nodes[k], names(k))
  {
    seq(|nodes|, k requires 0 <= k < |nodes| => BlockFlat(lesson, nodes[k], names(k)))
  }

  function BlockFlatsOf(nodes: seq<LessonInput>, names: nat -> LessonNames): seq<Flat<BlockBody>> {
    if nodes == [] then []
    else
      var j := |nodes| - 1;
      BlockFlatsOf(nodes[..j], names) + BlockFlatsIn(IdOf(nodes[j].identity, names(j).id), nodes[j].blocks, names(j).blocks)
  }

  function BlockFlats(nodes: seq<SectionInput>, naming: Naming): seq<Flat<BlockBody>> {
    if nodes == [] then []
    else
      var i := |nodes| - 1;
      BlockFlats(nodes[..i], naming) + BlockFlatsOf(nodes[i].lessons, naming(i).lessons)
  }

  /* ---------- prefixes of the loops ---------- */

  lemma {:induction false} LessonFlatsPrefix(nodes: seq<SectionInput>, naming: Naming, i: nat)
    requires i <= |nodes|
    ensures LessonFlats(nodes[..i], naming) <= LessonFlats(nodes, naming)
    ensures i < |nodes| ==>
      LessonFlats(nodes[..i + 1], naming)
      == LessonFlats(nodes[..i], naming) + LessonFlatsIn(IdOf(nodes[i].identity, naming(i).id), nodes[i].lessons, naming(i).lessons)
  {
    if i < |nodes| {
      assert nodes[..i + 1][..i] == nodes[..i];
      if i + 1 < |nodes| {
        LessonFlatsPrefix(nodes[..|nodes| - 1], naming, i);
        assert nodes[..|nodes| - 1][..i] == nodes[..i];
      } else {
        assert nodes[..i + 1] == nodes;
      }
    } else {
      assert nodes[..i] == nodes;
    }
  }

  lemma {:induction false} BlockFlatsOfPrefix(nodes: seq<LessonInput>, names: nat -> LessonNames, j: nat)
    requires j <= |nodes|
    ensures BlockFlatsOf(nodes[..j], names) <= BlockFlatsOf(nodes, names)
    ensures j < |nodes| ==>
      BlockFlatsOf(nodes[..j + 1], names)
      == BlockFlatsOf(nodes[..j], names) + BlockFlatsIn(IdOf(nodes[j].identity, names(j).id), nodes[j].blocks, names(j).blocks)
  {
    if j < |nodes| {
      assert nodes[..j + 1][..j] == nodes[..j];
      if j + 1 < |nodes| {
        BlockFlatsOfPrefix(nodes[..|nodes| - 1], names, j);
        assert nodes[..|nodes| - 1][..j] == nodes[..j];
      } else {
        assert nodes[..j + 1] == nodes;
      }
    } else {
      assert nodes[..j] == nodes;
    }
  }

  lemma {:induction false} BlockFlatsPrefix(nodes: seq<SectionInput>, naming: Naming, i: nat)
    requires i <= |nodes|
    ensures BlockFlats(nodes[..i], naming) <= BlockFlats(nodes, naming)
    ensures i < |nodes| ==>
      BlockFlats(nodes[..i + 1], naming)
      == BlockFlats(nodes[..i], naming) + BlockFlatsOf(nodes[i].lessons, naming(i).lessons)
  {
    if i < |nodes| {
      assert nodes[..i + 1][..i] == nodes[..i];
      if i + 1 < |nodes| {
        BlockFlatsPrefix(nodes[..|nodes| - 1], naming, i);
        assert nodes[..|nodes| - 1][..i] == nodes[..i];
      } else {
        assert nodes[..i + 1] == nodes;
      }
    } else {
      assert nodes[..i] == nodes;
    }
  }

  /* ---------- the operation ---------- */

  ghost predicate AllMatch<T>(rows: Rows<T>, v: Id, flats: seq<Flat<T>>) {
    forall f | f in flats :: Matches(rows, v, f)
  }

  /** What the writes of a table become once rows that no node kept are deleted. */
  ghost function Settled<T>(rows: Rows<T>, v: Id, flats: seq<Flat<T>>): Rows<T> {
    Retained(Written(rows, v, flats), v, Ids(flats))
  }

  ghost function Replaced(t: Tables, v: Id, nodes: seq<SectionInput>, naming: Naming): Tables {
    Tables(Settled(t.sections, v, SectionFlats(v, nodes, naming)),
           Settled(t.lessons, v, LessonFlats(nodes, naming)),
           Settled(t.blocks, v, BlockFlats(nodes, naming)))
  }

  /** The foreign keys: a child lies in the version of its parent, and siblings have distinct positions. */
  ghost predicate Integrity(t: Tables) {
    && UniqueSiblings(t.sections) && UniqueSiblings(t.lessons) && UniqueSiblings(t.blocks)
    && (forall k | k in t.sections :: t.sections[k].parent == t.sections[k].version)
    && (forall k | k in t.lessons :: t.lessons[k].parent in t.sections && t.sections[t.lessons[k].parent].version == t.lessons[k].version)
    && (forall k | k in t.blocks :: t.blocks[k].parent in t.lessons && t.lessons[t.blocks[k].parent].version == t.blocks[k].version)
  }

  ghost predicate Addressed(t: Tables, v: Id, nodes: seq<SectionInput>, naming: Naming) {
    && Addresses(t.sections, SectionFlats(v, nodes, naming))
    && Addresses(t.lessons, LessonFlats(nodes, naming))
    && Addresses(t.blocks, BlockFlats(nodes, naming))
  }

  ghost predicate NodesMatch(t: Tables, v: Id, nodes: seq<SectionInput>, naming: Naming) {
    && AllMatch(t.sections, v, SectionFlats(v, nodes, naming))
    && AllMatch(t.lessons, v, LessonFlats(nodes, naming))
    && AllMatch(t.blocks, v, BlockFlats(nodes, naming))
  }

  ghost predicate NodesPass(t: Tables, v: Id, nodes: seq<SectionInput>, naming: Naming) {
    && Passes(t.sections, v, SectionFlats(v, nodes, naming))
    && Passes(t.lessons, v, LessonFlats(nodes, naming))
    && Passes(t.blocks, v, BlockFlats(nodes, naming))
  }

  /** The orders in which the database walks the rows of the version while it shifts them. */
  datatype Scans = Scans(sections: seq<Id>, lessons: seq<Id>, blocks: seq<Id>)

  ghost predicate AreScans(t: Tables, v: Id, scans: Scans) {
    IsScan(t.sections, v, scans.sections) && IsScan(t.lessons, v, scans.lessons) && IsScan(t.blocks, v, scans.blocks)
  }

  ghost predicate ShiftsClear(t: Tables, v: Id, scans: Scans)
    requires AreScans(t, v, scans)
  {
    ShiftClear(t.blocks, v, scans.blocks) && ShiftClear(t.lessons, v, scans.lessons) && ShiftClear(t.sections, v, scans.sections)
  }

  class Repository {
    const sections: Table<SectionBody>
    const lessons: Table<LessonBody>
    const blocks: Table<BlockBody>

    constructor (initial: Tables)
      ensures fresh(sections) && fresh(lessons) && fresh(blocks)
      ensures Stored() == initial
    {
      sections := new Table(initial.sections);
      lessons := new Table(initial.lessons);
      blocks := new Table(initial.blocks);
    }

    function Stored(): Tables
      reads sections, lessons, blocks
    {
      Tables(sections.rows, lessons.rows, blocks.rows)
    }

    method PlaceBlocks(original: Rows<BlockBody>, v: Id, lesson: Id, nodes: seq<BlockInput>, names: nat -> Id,
                       ghost before: seq<Flat<BlockBody>>)
      returns (r: Option<PersistenceError>, kept: set<Id>)
      requires Addresses(original, before + BlockFlatsIn(lesson, nodes, names)) && Passes(original, v, before)
      requires blocks.rows == Written(original, v, before)
      modifies blocks
      ensures r.None? <==> Passes(original, v, before + BlockFlatsIn(lesson, nodes, names))
      ensures r.None? ==> blocks.rows == Written(original, v, before + BlockFlatsIn(lesson, nodes, names))
      ensures r.None? ==> kept == Ids(BlockFlatsIn(lesson, nodes, names))
      ensures r == Some(Conflict) ==> !AllMatch(original, v, BlockFlatsIn(lesson, nodes, names))
    {
      hide Passes, Written, Addresses, Matches, BlockFlat, BlockFlatsIn, Ids;
      kept := {};
      NoIds<BlockBody>();
      ghost var flats := BlockFlatsIn(lesson, nodes, names);
      ghost var so := before;
      assert before + flats[..0] == before;
      for k := 0 to |nodes|
        invariant so == before + flats[..k]
        invariant Passes(original, v, so)
        invariant blocks.rows == Written(original, v, so)
        invariant kept == Ids(flats[..k])
      {
        var node := nodes[k];
        var f := Flat(IdOf(node.identity, names(k)), node.identity, lesson, node.position, node.body);
        assert f == flats[k] by { NameOfBlockFlat(lesson, node, names(k)); }
        assert so + [f] == before + flats[..k + 1];
        assert so + [f] == (before + flats)[..|before| + k + 1];
        AddressesPrefix(original, before + flats, |before| + k + 1);
        r := blocks.Place(original, v, so, f);
        if r.Some? {
          if Passes(original, v, before + flats) { PassesPrefix(original, v, before + flats, so + [f]); }
          return;
        }
        so := so + [f];
        kept := kept + {f.id};
        IdsOneMore(flats, k);
      }
      assert flats[..|nodes|] == flats;
      r := None;
    }

    method PlaceLessons(original: Tables, v: Id, section: Id, nodes: seq<LessonInput>, names: nat -> LessonNames,
                        ghost lessonsBefore: seq<Flat<LessonBody>>, ghost blocksBefore: seq<Flat<BlockBody>>)
      returns (r: Option<PersistenceError>, keptLessons: set<Id>, keptBlocks: set<Id>)
      requires Addresses(original.lessons, lessonsBefore + LessonFlatsIn(section, nodes, names))
      requires Addresses(original.blocks, blocksBefore + BlockFlatsOf(nodes, names))
      requires Passes(original.lessons, v, lessonsBefore) && Passes(original.blocks, v, blocksBefore)
      requires lessons.rows == Written(original.lessons, v, lessonsBefore)
      requires blocks.rows == Written(original.blocks, v, blocksBefore)
      modifies lessons, blocks
      ensures r.None? <==>
        && Passes(original.lessons, v, lessonsBefore + LessonFlatsIn(section, nodes, names))
        && Passes(original.blocks, v, blocksBefore + BlockFlatsOf(nodes, names))
      ensures r.None? ==> lessons.rows == Written(original.lessons, v, lessonsBefore + LessonFlatsIn(section, nodes, names))
      ensures r.None? ==> blocks.rows == Written(original.blocks, v, blocksBefore + BlockFlatsOf(nodes, names))
      ensures r.None? ==> keptLessons == Ids(LessonFlatsIn(section, nodes, names)) && keptBlocks == Ids(BlockFlatsOf(nodes, names))
      ensures r == Some(Conflict)
        ==> !AllMatch(original.lessons, v, LessonFlatsIn(section, nodes, names)) || !AllMatch(original.blocks, v, BlockFlatsOf(nodes, names))
    {
      hide Passes, Written, Addresses, Matches, BlockFlatsOf, LessonFlat, LessonFlatsIn, BlockFlatsIn, Ids, AllMatch;
      keptLessons, keptBlocks := {}, {};
      NoIds<LessonBody>();
      NoIds<BlockBody>();
      ghost var ls := LessonFlatsIn(section, nodes, names);
      ghost var bs := BlockFlatsOf(nodes, names);
      ghost var lessonsSo, blocksSo := lessonsBefore, blocksBefore;
      NoBlocksYet(nodes, names);
      assert lessonsBefore + ls[..0] == lessonsBefore && blocksBefore + BlockFlatsOf(nodes[..0], names) == blocksBefore;
      for j := 0 to |nodes|
        invariant lessonsSo == lessonsBefore + ls[..j] && blocksSo == blocksBefore + BlockFlatsOf(nodes[..j], names)
        invariant Passes(original.lessons, v, lessonsSo) && Passes(original.blocks, v, blocksSo)
        invariant lessons.rows == Written(original.lessons, v, lessonsSo)
        invariant blocks.rows == Written(original.blocks, v, blocksSo)
        invariant keptLessons == Ids(ls[..j]) && keptBlocks == Ids(BlockFlatsOf(nodes[..j], names))
      {
        var node := nodes[j];
        var f := Flat(IdOf(node.identity, names(j).id), node.identity, section, node.position, node.body);
        assert f == ls[j] by { NameOfLessonFlat(section, node, names(j)); }
        assert lessonsSo + [f] == lessonsBefore + ls[..j + 1] == (lessonsBefore + ls)[..|lessonsBefore| + j + 1];
        AddressesPrefix(original.lessons, lessonsBefore + ls, |lessonsBefore| + j + 1);
        r := lessons.Place(original.lessons, v, lessonsSo, f);
        if r.Some? {
          if Passes(original.lessons, v, lessonsBefore + ls) {
            PassesPrefix(original.lessons, v, lessonsBefore + ls, lessonsSo + [f]);
          }
          MatchAt(original.lessons, v, ls, j);
          return;
        }
        ghost var one := BlockFlatsIn(f.id, node.blocks, names(j).blocks);
        BlockFlatsOfPrefix(nodes, names, j);
        BlockFlatsOfPrefix(nodes, names, j + 1);
        assert blocksSo + one == blocksBefore + BlockFlatsOf(nodes[..j + 1], names);
        PrefixUnder(blocksBefore, BlockFlatsOf(nodes[..j + 1], names), bs);
        AddressesPrefix(original.blocks, blocksBefore + bs, |blocksSo + one|);
        var kept: set<Id>;
        r, kept := PlaceBlocks(original.blocks, v, f.id, node.blocks, names(j).blocks, blocksSo);
        if r.Some? {
          if Passes(original.blocks, v, blocksBefore + bs) { PassesPrefix(original.blocks, v, blocksBefore + bs, blocksSo + one); }
          MatchesAmong(original.blocks, v, one, BlockFlatsOf(nodes[..j], names), bs);
          return;
        }
        lessonsSo, blocksSo := lessonsSo + [f], blocksSo + one;
        keptLessons, keptBlocks := keptLessons + {f.id}, keptBlocks + kept;
        IdsOneMore(ls, j);
        IdsConcat(BlockFlatsOf(nodes[..j], names), one);
      }
      assert ls[..|nodes|] == ls && nodes[..|nodes|] == nodes;
      r := None;
    }

    /** `_replace_curriculum_rows` inside its transaction: on an error every row is what it was. */
    method ReplaceCurriculumRows(v: Id, nodes: seq<SectionInput>, naming: Naming, scans: Scans) returns (r: Option<PersistenceError>)
      requires Integrity(Stored()) && Addressed(Stored(), v, nodes, naming) && AreScans(Stored(), v, scans)
      modifies sections, lessons, blocks
      ensures r.None? <==> ShiftsClear(old(Stored()), v, scans) && NodesPass(old(Stored()), v, nodes, naming)
      ensures Stored() == if r.None? then Replaced(old(Stored()), v, nodes, naming) else old(Stored())
      ensures r == Some(Conflict) ==> !NodesMatch(old(Stored()), v, nodes, naming)
    {
      var original := Stored();
      var keptSections, keptLessons, keptBlocks;
      r, keptSections, keptLessons, keptBlocks := WriteNodes(original, v, nodes, naming, scans);
      if r.Some? {
        sections.rows, lessons.rows, blocks.rows := original.sections, original.lessons, original.blocks;
        return;
      }
      NodesPassMatch(original, v, nodes, naming);
      NothingCascades(original, v, nodes, naming);
      blocks.DeleteExcept(v, keptBlocks);
      lessons.DeleteExcept(v, keptLessons);
      blocks.Cascade(lessons.rows.Keys);
      sections.DeleteExcept(v, keptSections);
      lessons.Cascade(sections.rows.Keys);
      blocks.Cascade(lessons.rows.Keys);
    }

    /** The three shifts and the loop over the sections. */
    method WriteNodes(original: Tables, v: Id, nodes: seq<SectionInput>, naming: Naming, scans: Scans)
      returns (r: Option<PersistenceError>, keptSections: set<Id>, keptLessons: set<Id>, keptBlocks: set<Id>)
      requires original == Stored()
      requires Integrity(original) && Addressed(original, v, nodes, naming) && AreScans(original, v, scans)
      modifies sections, lessons, blocks
      ensures r.None? <==> ShiftsClear(original, v, scans) && NodesPass(original, v, nodes, naming)
      ensures r.None? ==>
        && Stored() == Tables(Written(original.sections, v, SectionFlats(v, nodes, naming)),
                              Written(original.lessons, v, LessonFlats(nodes, naming)),
                              Written(original.blocks, v, BlockFlats(nodes, naming)))
        && keptSections == Ids(SectionFlats(v, nodes, naming))
        && keptLessons == Ids(LessonFlats(nodes, naming))
        && keptBlocks == Ids(BlockFlats(nodes, naming))
      ensures r == Some(Conflict) ==> !NodesMatch(original, v, nodes, naming)
    {
      hide Passes, Written, Addresses, Matches, LessonFlats, BlockFlats, ShiftClear, IsScan, UniqueSiblings, Shifted;
      keptSections, keptLessons, keptBlocks := {}, {}, {};
      ghost var ss, ls, bs := SectionFlats(v, nodes, naming), LessonFlats(nodes, naming), BlockFlats(nodes, naming);
      ghost var ssSo: seq<Flat<SectionBody>>, lsSo: seq<Flat<LessonBody>>, bsSo: seq<Flat<BlockBody>> := [], [], [];
      var ok := blocks.Shift(v, scans.blocks);
      if !ok { return Some(RefusedByDatabase), {}, {}, {}; }
      ok := lessons.Shift(v, scans.lessons);
      if !ok { return Some(RefusedByDatabase), {}, {}, {}; }
      ok := sections.Shift(v, scans.sections);
      if !ok { return Some(RefusedByDatabase), {}, {}, {}; }
      NothingWritten(original.sections, v);
      NothingWritten(original.lessons, v);
      NothingWritten(original.blocks, v);
      NoFlatsYet(nodes, naming);
      for i := 0 to |nodes|
        invariant ssSo == ss[..i] && lsSo == LessonFlats(nodes[..i], naming) && bsSo == BlockFlats(nodes[..i], naming)
        invariant Passes(original.sections, v, ssSo) && Passes(original.lessons, v, lsSo) && Passes(original.blocks, v, bsSo)
        invariant sections.rows == Written(original.sections, v, ssSo)
        invariant lessons.rows == Written(original.lessons, v, lsSo)
        invariant blocks.rows == Written(original.blocks, v, bsSo)
        invariant keptSections == Ids(ssSo) && keptLessons == Ids(lsSo) && keptBlocks == Ids(bsSo)
      {
        var node := nodes[i];
        var f := Flat(IdOf(node.identity, naming(i).id), node.identity, v, node.position, node.body);
        assert f == ss[i] && ssSo + [f] == ss[..i + 1];
        AddressesPrefix(original.sections, ss, i + 1);
        r := sections.Place(original.sections, v, ssSo, f);
        if r.Some? {
          if Passes(original.sections, v, ss) { PassesPrefix(original.sections, v, ss, ssSo + [f]); }
          return;
        }
        ghost var lessonsHere := LessonFlatsIn(f.id, node.lessons, naming(i).lessons);
        ghost var blocksHere := BlockFlatsOf(node.lessons, naming(i).lessons);
        LessonFlatsPrefix(nodes, naming, i);
        BlockFlatsPrefix(nodes, naming, i);
        LessonFlatsPrefix(nodes, naming, i + 1);
        BlockFlatsPrefix(nodes, naming, i + 1);
        assert ls[..|lsSo + lessonsHere|] == lsSo + lessonsHere && bs[..|bsSo + blocksHere|] == bsSo + blocksHere;
        AddressesPrefix(original.lessons, ls, |lsSo + lessonsHere|);
        AddressesPrefix(original.blocks, bs, |bsSo + blocksHere|);
        var moreLessons, moreBlocks;
        r, moreLessons, moreBlocks := PlaceLessons(original, v, f.id, node.lessons, naming(i).lessons, lsSo, bsSo);
        if r.Some? {
          if Passes(original.lessons, v, ls) { PassesPrefix(original.lessons, v, ls, lsSo + lessonsHere); }
          if Passes(original.blocks, v, bs) { PassesPrefix(original.blocks, v, bs, bsSo + blocksHere); }
          MatchesAmong(original.lessons, v, lessonsHere, lsSo, ls);
          MatchesAmong(original.blocks, v, blocksHere, bsSo, bs);
          return;
        }
        IdsOneMore(ss, i);
        IdsConcat(lsSo, lessonsHere);
        IdsConcat(bsSo, blocksHere);
        ssSo, lsSo, bsSo := ssSo + [f], lsSo + lessonsHere, bsSo + blocksHere;
        keptSections, keptLessons, keptBlocks := keptSections + {f.id}, keptLessons + moreLessons, keptBlocks + moreBlocks;
      }
      assert ss[..|nodes|] == ss && nodes[..|nodes|] == nodes;
      r := None;
    }
  }

  lemma NoIds<T>()
    ensures Ids<T>([]) == {}
  {}

  lemma NameOfLessonFlat(section: Id, node: LessonInput, names: LessonNames)
    ensures LessonFlat(section, node, names) == Flat(IdOf(node.identity, names.id), node.identity, section, node.position, node.body)
  {}

  lemma NameOfBlockFlat(lesson: Id, node: BlockInput, name: Id)
    ensures BlockFlat(lesson, node, name) == Flat(IdOf(node.identity, name), node.identity, lesson, node.position, node.body)
  {}

  lemma NoBlocksYet(nodes: seq<LessonInput>, names: nat -> LessonNames)
    ensures BlockFlatsOf(nodes[..0], names) == []
  {}

  lemma IdsOneMore<T>(flats: seq<Flat<T>>, n: nat)
    requires n < |flats|
    ensures Ids(flats[..n + 1]) == Ids(flats[..n]) + {flats[n].id}
  {
    assert flats[..n + 1] == flats[..n] + [flats[n]];
  }

  lemma IdsConcat<T>(a: seq<Flat<T>>, b: seq<Flat<T>>)
    ensures Ids(a + b) == Ids(a) + Ids(b)
  {}

  lemma PrefixUnder<T>(before: seq<T>, part: seq<T>, all: seq<T>)
    requires part <= all
    ensures before + part <= before + all && (before + all)[..|before + part|] == before + part
  {}

  lemma MatchAt<T>(rows: Rows<T>, v: Id, flats: seq<Flat<T>>, n: nat)
    requires n < |flats|
    ensures AllMatch(rows, v, flats) ==> Matches(rows, v, flats[n])
  {}

  lemma {:induction false} MatchesAmong<T>(rows: Rows<T>, v: Id, some: seq<Flat<T>>, before: seq<Flat<T>>, all: seq<Flat<T>>)
    requires before + some <= all
    ensures AllMatch(rows, v, all) ==> AllMatch(rows, v, some)
  {
    if AllMatch(rows, v, all) {
      forall f | f in some ensures Matches(rows, v, f) {
        assert f in before + some;
        assert f in all;
      }
    }
  }

  lemma NothingWritten<T>(rows: Rows<T>, v: Id)
    ensures Written(rows, v, []) == Shifted(rows, v) && Passes(rows, v, [])
  {}

  lemma NoFlatsYet(nodes: seq<SectionInput>, naming: Naming)
    ensures LessonFlats(nodes[..0], naming) == [] && BlockFlats(nodes[..0], naming) == []
  {}

  lemma NodesPassMatch(t: Tables, v: Id, nodes: seq<SectionInput>, naming: Naming)
    requires NodesPass(t, v, nodes, naming)
    ensures NodesMatch(t, v, nodes, naming)
  {}

  /* ---------- where a write comes from ---------- */

  predicate IsLesson(nodes: seq<SectionInput>, i: int, j: int) {
    0 <= i < |nodes| && 0 <= j < |nodes[i].lessons|
  }

  predicate IsBlock(nodes: seq<SectionInput>, i: int, j: int, k: int) {
    IsLesson(nodes, i, j) && 0 <= k < |nodes[i].lessons[j].blocks|
  }

  function SectionId(nodes: seq<SectionInput>, naming: Naming, i: nat): Id
    requires i < |nodes|
  {
    IdOf(nodes[i].identity, naming(i).id)
  }

  function LessonId(nodes: seq<SectionInput>, naming: Naming, i: nat, j: nat): Id
    requires IsLesson(nodes, i, j)
  {
    IdOf(nodes[i].lessons[j].identity, naming(i).lessons(j).id)
  }

  function BlockId(nodes: seq<SectionInput>, naming: Naming, i: nat, j: nat, k: nat): Id
    requires IsBlock(nodes, i, j, k)
  {
    IdOf(nodes[i].lessons[j].blocks[k].identity, naming(i).lessons(j).blocks(k))
  }

  function LessonFlatAt(nodes: seq<SectionInput>, naming: Naming, i: nat, j: nat): Flat<LessonBody>
    requires IsLesson(nodes, i, j)
  {
    LessonFlat(SectionId(nodes, naming, i), nodes[i].lessons[j], naming(i).lessons(j))
  }

  function BlockFlatAt(nodes: seq<SectionInput>, naming: Naming, i: nat, j: nat, k: nat): Flat<BlockBody>
    requires IsBlock(nodes, i, j, k)
  {
    BlockFlat(LessonId(nodes, naming, i, j), nodes[i].lessons[j].blocks[k], naming(i).lessons(j).blocks(k))
  }

  lemma {:induction false} LessonFlatPlace(nodes: seq<SectionInput>, naming: Naming, f: Flat<LessonBody>) returns (i: nat, j: nat)
    requires f in LessonFlats(nodes, naming)
    ensures IsLesson(nodes, i, j) && f == LessonFlatAt(nodes, naming, i, j)
  {
    var last := |nodes| - 1;
    if f in LessonFlats(nodes[..last], naming) {
      i, j := LessonFlatPlace(nodes[..last], naming, f);
    } else {
      i := last;
      var here := LessonFlatsIn(IdOf(nodes[i].identity, naming(i).id), nodes[i].lessons, naming(i).lessons);
      j :| 0 <= j < |here| && here[j] == f;
    }
  }

  lemma {:induction false} LessonFlatIsListed(nodes: seq<SectionInput>, naming: Naming, i: nat, j: nat)
    requires IsLesson(nodes, i, j)
    ensures LessonFlatAt(nodes, naming, i, j) in LessonFlats(nodes, naming)
  {
    LessonFlatsPrefix(nodes, naming, i);
    LessonFlatsPrefix(nodes, naming, i + 1);
    var here := LessonFlatsIn(IdOf(nodes[i].identity, naming(i).id), nodes[i].lessons, naming(i).lessons);
    assert here[j] in LessonFlats(nodes[..i + 1], naming);
  }

  lemma {:induction false} BlockFlatOfPlace(nodes: seq<LessonInput>, names: nat -> LessonNames, f: Flat<BlockBody>) returns (j: nat, k: nat)
    requires f in BlockFlatsOf(nodes, names)
    ensures j < |nodes| && k < |nodes[j].blocks|
    ensures f == BlockFlat(IdOf(nodes[j].identity, names(j).id), nodes[j].blocks[k], names(j).blocks(k))
  {
    var last := |nodes| - 1;
    if f in BlockFlatsOf(nodes[..last], names) {
      j, k := BlockFlatOfPlace(nodes[..last], names, f);
    } else {
      j := last;
      var here := BlockFlatsIn(IdOf(nodes[j].identity, names(j).id), nodes[j].blocks, names(j).blocks);
      k :| 0 <= k < |here| && here[k] == f;
    }
  }

  lemma {:induction false} BlockFlatPlace(nodes: seq<SectionInput>, naming: Naming, f: Flat<BlockBody>) returns (i: nat, j: nat, k: nat)
    requires f in BlockFlats(nodes, naming)
    ensures IsBlock(nodes, i, j, k) && f == BlockFlatAt(nodes, naming, i, j, k)
  {
    var last := |nodes| - 1;
    if f in BlockFlats(nodes[..last], naming) {
      i, j, k := BlockFlatPlace(nodes[..last], naming, f);
    } else {
      i := last;
      j, k := BlockFlatOfPlace(nodes[i].lessons, naming(i).lessons, f);
    }
  }

  lemma {:induction false} BlockFlatIsListed(nodes: seq<SectionInput>, naming: Naming, i: nat, j: nat, k: nat)
    requires IsBlock(nodes, i, j, k)
    ensures BlockFlatAt(nodes, naming, i, j, k) in BlockFlats(nodes, naming)
  {
    BlockFlatsPrefix(nodes, naming, i);
    BlockFlatsPrefix(nodes, naming, i + 1);
    BlockFlatsOfPrefix(nodes[i].lessons, naming(i).lessons, j);
    BlockFlatsOfPrefix(nodes[i].lessons, naming(i).lessons, j + 1);
    var lesson := nodes[i].lessons[j];
    var here := BlockFlatsIn(IdOf(lesson.identity, naming(i).lessons(j).id), lesson.blocks, naming(i).lessons(j).blocks);
    assert here[k] in BlockFlatsOf(nodes[i].lessons[..j + 1], naming(i).lessons);
    assert here[k] in BlockFlatsOf(nodes[i].lessons, naming(i).lessons);
    assert here[k] in BlockFlats(nodes[..i + 1], naming);
  }

  /* ---------- the settled tables ---------- */

  /** A settled table holds the written rows and the rows of other versions, and nothing else. */
  lemma {:induction false} SettledAt<T>(rows: Rows<T>, v: Id, flats: seq<Flat<T>>, k: Id)
    requires Addresses(rows, flats) && AllMatch(rows, v, flats)
    ensures k in Settled(rows, v, flats) <==> k in Ids(flats) || (k in rows && rows[k].version != v)
    ensures k in Settled(rows, v, flats) && k !in Ids(flats) ==> Settled(rows, v, flats)[k] == rows[k]
    ensures k in Ids(flats) && k in rows ==> rows[k].version == v
  {
    WrittenAt(rows, v, flats, k);
    if k in Ids(flats) {
      var f :| f in flats && f.id == k;
      var n :| 0 <= n < |flats| && flats[n] == f;
      WrittenFlat(rows, v, flats, n);
    }
  }

  lemma {:induction false} SettledFlat<T>(rows: Rows<T>, v: Id, flats: seq<Flat<T>>, f: Flat<T>)
    requires Addresses(rows, flats) && f in flats
    ensures f.id in Settled(rows, v, flats) && Settled(rows, v, flats)[f.id] == Target(rows, v, f)
  {
    var n :| 0 <= n < |flats| && flats[n] == f;
    WrittenFlat(rows, v, flats, n);
  }

  /** No written or foreign row loses its parent to the deletions. */
  lemma NothingCascades(t: Tables, v: Id, nodes: seq<SectionInput>, naming: Naming)
    requires Integrity(t) && Addressed(t, v, nodes, naming) && NodesMatch(t, v, nodes, naming)
    ensures var r := Replaced(t, v, nodes, naming);
      && WithParents(r.lessons, r.sections.Keys) == r.lessons
      && WithParents(r.blocks, r.lessons.Keys) == r.blocks
  {
    hide Settled, Integrity, Addressed, NodesMatch, LessonFlats, BlockFlats;
    var r := Replaced(t, v, nodes, naming);
    forall k | k in r.lessons ensures r.lessons[k].parent in r.sections { LessonKeepsItsSection(t, v, nodes, naming, k); }
    forall k | k in r.blocks ensures r.blocks[k].parent in r.lessons { BlockKeepsItsLesson(t, v, nodes, naming, k); }
  }

  lemma LessonKeepsItsSection(t: Tables, v: Id, nodes: seq<SectionInput>, naming: Naming, k: Id)
    requires Integrity(t) && Addressed(t, v, nodes, naming) && NodesMatch(t, v, nodes, naming)
    requires k in Replaced(t, v, nodes, naming).lessons
    ensures var r := Replaced(t, v, nodes, naming);
      r.lessons[k].parent in r.sections && r.sections[r.lessons[k].parent].version == r.lessons[k].version
  {
    hide Settled, Addresses, Matches;
    var ss, ls := SectionFlats(v, nodes, naming), LessonFlats(nodes, naming);
    SettledAt(t.lessons, v, ls, k);
    if k in Ids(ls) {
      var f :| f in ls && f.id == k;
      SettledFlat(t.lessons, v, ls, f);
      var i, j := LessonFlatPlace(nodes, naming, f);
      assert ss[i] in ss;
      SettledFlat(t.sections, v, ss, ss[i]);
    } else {
      SettledAt(t.sections, v, ss, t.lessons[k].parent);
    }
  }

  lemma BlockKeepsItsLesson(t: Tables, v: Id, nodes: seq<SectionInput>, naming: Naming, k: Id)
    requires Integrity(t) && Addressed(t, v, nodes, naming) && NodesMatch(t, v, nodes, naming)
    requires k in Replaced(t, v, nodes, naming).blocks
    ensures var r := Replaced(t, v, nodes, naming);
      r.blocks[k].parent in r.lessons && r.lessons[r.blocks[k].parent].version == r.blocks[k].version
  {
    hide Settled, Addresses, Matches, BlockFlats, LessonFlats;
    var ls, bs := LessonFlats(nodes, naming), BlockFlats(nodes, naming);
    SettledAt(t.blocks, v, bs, k);
    if k in Ids(bs) {
      var f :| f in bs && f.id == k;
      SettledFlat(t.blocks, v, bs, f);
      var i, j, n := BlockFlatPlace(nodes, naming, f);
      LessonFlatIsListed(nodes, naming, i, j);
      SettledFlat(t.lessons, v, ls, LessonFlatAt(nodes, naming, i, j));
    } else {
      SettledAt(t.lessons, v, ls, t.blocks[k].parent);
    }
  }
}

/** How large positions may grow before the shift by a constant offset runs into itself. */
module PositionOffset {
  import opened Prelude
  import opened CanonicalJson
  import opened CourseTree
  import opened CurriculumService
  import opened CurriculumTable
  import opened CourseRepository
  import opened CurriculumRefinement

  predicate StoredWithin<T>(b: int, rows: Rows<T>, v: Id) {
    forall k | k in rows && rows[k].version == v :: 1 <= rows[k].position <= b
  }

  ghost predicate CommandWithin(b: int, nodes: seq<SectionInput>) {
    && (forall i | 0 <= i < |nodes| :: 1 <= nodes[i].position <= b)
    && (forall i, j | IsLesson(nodes, i, j) :: 1 <= nodes[i].lessons[j].position <= b)
    && (forall i, j, k | IsBlock(nodes, i, j, k) :: 1 <= nodes[i].lessons[j].blocks[k].position <= b)
  }

  /** A replacement that the service would hand to the repository, with every position between 1 and `b`. */
  ghost predicate Within(b: int, t: Tables, v: Id, nodes: seq<SectionInput>, naming: Naming, scans: Scans) {
    && Integrity(t) && Placeable(t, nodes, naming) && NodesMatch(t, v, nodes, naming) && AreScans(t, v, scans)
    && StoredWithin(b, t.sections, v) && StoredWithin(b, t.lessons, v) && StoredWithin(b, t.blocks, v)
    && CommandWithin(b, nodes)
  }

  lemma SmallPositionsNeverClash(t: Tables, v: Id, nodes: seq<SectionInput>, naming: Naming, scans: Scans)
    requires Within(POSITION_OFFSET, t, v, nodes, naming, scans)
    ensures ShiftsClear(t, v, scans) && NodesPass(t, v, nodes, naming)
  {
    hide Passes, Matches, Integrity, Placeable, IsScan, ShiftClear, LessonFlats, BlockFlats;
    SmallPositionsShift(t.sections, v, scans.sections);
    SmallPositionsShift(t.lessons, v, scans.lessons);
    SmallPositionsShift(t.blocks, v, scans.blocks);
    OwnSections(t, v);
    SmallPositionsPass(t.sections, v, SectionFlats(v, nodes, naming));
    forall f | f in LessonFlats(nodes, naming)
      ensures 1 <= f.position <= POSITION_OFFSET && forall k | k in t.lessons && t.lessons[k].parent == f.parent :: t.lessons[k].version == v
    {
      var i, j := LessonFlatPlace(nodes, naming, f);
      OwnLessons(t, v, nodes, naming, i);
    }
    SmallPositionsPass(t.lessons, v, LessonFlats(nodes, naming));
    forall f | f in BlockFlats(nodes, naming)
      ensures 1 <= f.position <= POSITION_OFFSET && forall k | k in t.blocks && t.blocks[k].parent == f.parent :: t.blocks[k].version == v
    {
      var i, j, k := BlockFlatPlace(nodes, naming, f);
      OwnBlocks(t, v, nodes, naming, i, j);
    }
    SmallPositionsPass(t.blocks, v, BlockFlats(nodes, naming));
  }

  const VERSION: Id := 7
  const BODY := SectionBody("Start")

  /** One stored section at position 1, and a command that drops it for a new section at offset + 1. */
  const ONE_SECTION := Tables(map[1 := Row(VERSION, VERSION, 1, 1, BODY)], map[], map[])

  const FAR_SECTION := SectionInput(New, POSITION_OFFSET + 1, BODY, [])

  function FarNames(): Naming {
    i => SectionNames(2, j => LessonNames(0, k => 0))
  }

  lemma FarSectionIsRefused()
    ensures !Passes(ONE_SECTION.sections, VERSION, SectionFlats(VERSION, [FAR_SECTION], FarNames()))
  {
    var flats := SectionFlats(VERSION, [FAR_SECTION], FarNames());
    assert flats[0] == Flat(2, New, VERSION, POSITION_OFFSET + 1, BODY);
    assert 1 in ONE_SECTION.sections && 1 !in Ids(flats[..0]);
    assert !Avoids(ONE_SECTION.sections, VERSION, flats[..0], flats[0]);
  }

  lemma FarCommandHasNoChildren()
    ensures LessonFlats([FAR_SECTION], FarNames()) == [] && BlockFlats([FAR_SECTION], FarNames()) == []
  {
    assert [FAR_SECTION][..0] == [] && LessonFlats([], FarNames()) == [] && BlockFlats([], FarNames()) == [];
  }

  lemma FarCommandMatches()
    ensures NodesMatch(ONE_SECTION, VERSION, [FAR_SECTION], FarNames()) && Placeable(ONE_SECTION, [FAR_SECTION], FarNames())
  {
    FarCommandHasNoChildren();
  }

  /** The new section is refused: the old one, shifted to offset + 1, is deleted only after the loop. */
  lemma OffsetPlusOneClashes(b: int)
    requires b > POSITION_OFFSET
    ensures Within(b, ONE_SECTION, VERSION, [FAR_SECTION], FarNames(), Scans([1], [], []))
    ensures !NodesPass(ONE_SECTION, VERSION, [FAR_SECTION], FarNames())
  {
    hide Passes, NodesMatch, Placeable;
    FarCommandMatches();
    FarSectionIsRefused();
    assert IsScan(ONE_SECTION.sections, VERSION, [1]) by { assert 1 in [1]; }
  }

  /** The offset is the exact bound: for every tree, command, naming and order of the shift, and for no larger one. */
  lemma OffsetIsTheBound(b: int)
    ensures (forall t, v, nodes, naming, scans | Within(b, t, v, nodes, naming, scans) ::
               ShiftsClear(t, v, scans) && NodesPass(t, v, nodes, naming))
      <==> b <= 1_000_000
  {
    if b <= POSITION_OFFSET {
      forall t, v, nodes, naming, scans | Within(b, t, v, nodes, naming, scans)
        ensures ShiftsClear(t, v, scans) && NodesPass(t, v, nodes, naming)
      {
        assert Within(POSITION_OFFSET, t, v, nodes, naming, scans);
        SmallPositionsNeverClash(t, v, nodes, naming, scans);
      }
    } else {
      OffsetPlusOneClashes(b);
    }
  }

  /** Beyond the bound even the shift depends on the order in which the database visits the rows. */
  lemma ShiftDependsOnOrder()
    ensures var rows: Rows<SectionBody> :=
        map[1 := Row(VERSION, VERSION, 1, 1, BODY), 2 := Row(VERSION, VERSION, POSITION_OFFSET + 1, 1, BODY)];
      && IsScan(rows, VERSION, [1, 2]) && !ShiftClear(rows, VERSION, [1, 2])
      && IsScan(rows, VERSION, [2, 1]) && ShiftClear(rows, VERSION, [2, 1])
  {
    var rows: Rows<SectionBody> :=
      map[1 := Row(VERSION, VERSION, 1, 1, BODY), 2 := Row(VERSION, VERSION, POSITION_OFFSET + 1, 1, BODY)];
    var up, down: seq<Id> := [1, 2], [2, 1];
    assert forall k :: k in up <==> k == 1 || k == 2;
    assert forall k :: k in down <==> k == 1 || k == 2;
    assert rows[up[0]].position + POSITION_OFFSET == rows[up[1]].position;
  }
}

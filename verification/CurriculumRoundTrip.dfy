/** From the command through the service's tree and the adapter's payload to the repository's rows, and back to a tree. */
module CurriculumRoundTrip {
  import opened Prelude
  import opened CourseTree
  import opened CurriculumService
  import opened CurriculumTable
  import opened CourseRepository
  import opened CurriculumRefinement

  /* ---------- the payload of a tree ---------- */

  /** A node of the incoming tree is kept, at the stored row version, when its id is stored. */
  function IdentityIn<T>(rows: map<Id, Row<T>>, id: Id): Identity {
    if id in rows then Kept(id, rows[id].rowVersion) else New
  }

  function PayloadBlock(t: Tables, b: Block): BlockInput {
    BlockInput(IdentityIn(t.blocks, b.id), b.row.position, b.row.body)
  }

  function PayloadBlocks(t: Tables, blocks: seq<Block>): (ns: seq<BlockInput>)
    ensures |ns| == |blocks| && forall k :: 0 <= k < |ns| ==> ns[k] == PayloadBlock(t, blocks[k])
  {
    seq(|blocks|, k requires 0 <= k < |blocks| => PayloadBlock(t, blocks[k]))
  }

  function PayloadLesson(t: Tables, l: Lesson): LessonInput {
    LessonInput(IdentityIn(t.lessons, l.entry.id), l.entry.row.position, l.entry.row.body, PayloadBlocks(t, l.blocks))
  }

  function PayloadLessons(t: Tables, lessons: seq<Lesson>): (ns: seq<LessonInput>)
    ensures |ns| == |lessons| && forall j :: 0 <= j < |ns| ==> ns[j] == PayloadLesson(t, lessons[j])
  {
    seq(|lessons|, j requires 0 <= j < |lessons| => PayloadLesson(t, lessons[j]))
  }

  function PayloadSection(t: Tables, s: Section): SectionInput {
    SectionInput(IdentityIn(t.sections, s.entry.id), s.entry.row.position, s.entry.row.body, PayloadLessons(t, s.lessons))
  }

  function Payload(t: Tables, tree: seq<Section>): (ns: seq<SectionInput>)
    ensures |ns| == |tree| && forall i :: 0 <= i < |ns| ==> ns[i] == PayloadSection(t, tree[i])
  {
    seq(|tree|, i requires 0 <= i < |tree| => PayloadSection(t, tree[i]))
  }

  /** `_curriculum_payload`: `t` holds the dictionaries of the current tree. */
  method CurriculumPayload(t: Tables, incoming: seq<Section>) returns (payload: seq<SectionInput>)
    ensures payload == Payload(t, incoming)
  {
    payload := [];
    for i := 0 to |incoming|
      invariant payload == Payload(t, incoming)[..i]
    {
      var section := incoming[i];
      var lessons: seq<LessonInput> := [];
      for j := 0 to |section.lessons|
        invariant lessons == PayloadLessons(t, section.lessons)[..j]
      {
        var lesson := section.lessons[j];
        var blocks: seq<BlockInput> := [];
        for k := 0 to |lesson.blocks|
          invariant blocks == PayloadBlocks(t, lesson.blocks)[..k]
        {
          var block := lesson.blocks[k];
          blocks := blocks + [BlockInput(IdentityIn(t.blocks, block.id), block.row.position, block.row.body)];
        }
        assert blocks == PayloadBlocks(t, lesson.blocks);
        var row := lesson.entry.row;
        lessons := lessons + [LessonInput(IdentityIn(t.lessons, lesson.entry.id), row.position, row.body, blocks)];
      }
      assert lessons == PayloadLessons(t, section.lessons);
      var row := section.entry.row;
      payload := payload + [SectionInput(IdentityIn(t.sections, section.entry.id), row.position, row.body, lessons)];
    }
  }

  /* ---------- a command with every level in position order ---------- */

  function BlockPositions(nodes: seq<BlockInput>): (ps: seq<int>)
    ensures |ps| == |nodes| && forall k :: 0 <= k < |ps| ==> ps[k] == nodes[k].position
  {
    seq(|nodes|, k requires 0 <= k < |nodes| => nodes[k].position)
  }

  function LessonPositions(nodes: seq<LessonInput>): (ps: seq<int>)
    ensures |ps| == |nodes| && forall j :: 0 <= j < |ps| ==> ps[j] == nodes[j].position
  {
    seq(|nodes|, j requires 0 <= j < |nodes| => nodes[j].position)
  }

  function SectionPositions(nodes: seq<SectionInput>): (ps: seq<int>)
    ensures |ps| == |nodes| && forall i :: 0 <= i < |ps| ==> ps[i] == nodes[i].position
  {
    seq(|nodes|, i requires 0 <= i < |nodes| => nodes[i].position)
  }

  function SortedBlocks(nodes: seq<BlockInput>): seq<BlockInput> {
    Permute(nodes, Order(BlockPositions(nodes)))
  }

  function SortedLesson(node: LessonInput): LessonInput {
    node.(blocks := SortedBlocks(node.blocks))
  }

  function SortedLessons(nodes: seq<LessonInput>): (r: seq<LessonInput>)
    ensures var order := Order(LessonPositions(nodes));
      |r| == |nodes| && forall j :: 0 <= j < |r| ==> r[j] == SortedLesson(nodes[order[j]])
  {
    var order := Order(LessonPositions(nodes));
    seq(|order|, j requires 0 <= j < |order| => SortedLesson(nodes[order[j]]))
  }

  function SortedSection(node: SectionInput): SectionInput {
    node.(lessons := SortedLessons(node.lessons))
  }

  function SortedSections(nodes: seq<SectionInput>): (r: seq<SectionInput>)
    ensures var order := Order(SectionPositions(nodes));
      |r| == |nodes| && forall i :: 0 <= i < |r| ==> r[i] == SortedSection(nodes[order[i]])
  {
    var order := Order(SectionPositions(nodes));
    seq(|order|, i requires 0 <= i < |order| => SortedSection(nodes[order[i]]))
  }

  /* ---------- a command that the service accepts ---------- */

  /** No node of the command is refused. */
  ghost predicate AllPreserved(t: Tables, v: Id, nodes: seq<SectionInput>, naming: Naming) {
    && (forall i | 0 <= i < |nodes| :: PreservedError(t.sections, nodes[i].identity, v).None?)
    && (forall i, j | IsLesson(nodes, i, j) ::
          PreservedError(t.lessons, nodes[i].lessons[j].identity, SectionId(nodes, naming, i)).None?)
    && (forall i, j, k | IsBlock(nodes, i, j, k) ::
          PreservedError(t.blocks, nodes[i].lessons[j].blocks[k].identity, LessonId(nodes, naming, i, j)).None?)
  }

  lemma LessonAccepted(t: Tables, section: Id, node: LessonInput, names: LessonNames)
    ensures LessonError(t, section, node, names).None? <==>
      && PreservedError(t.lessons, node.identity, section).None?
      && forall k :: 0 <= k < |node.blocks| ==> PreservedError(t.blocks, node.blocks[k].identity, IdOf(node.identity, names.id)).None?
  {
    FirstSomeOfNone(BlockErrors(t, IdOf(node.identity, names.id), node.blocks));
  }

  lemma SectionAccepted(t: Tables, v: Id, node: SectionInput, names: SectionNames)
    ensures SectionError(t, v, node, names).None? <==>
      && PreservedError(t.sections, node.identity, v).None?
      && forall j :: 0 <= j < |node.lessons| ==> LessonError(t, IdOf(node.identity, names.id), node.lessons[j], names.lessons(j)).None?
  {
    FirstSomeOfNone(LessonErrors(t, IdOf(node.identity, names.id), node.lessons, names.lessons));
  }

  lemma MaterializedWithoutErrors(t: Tables, v: Id, nodes: seq<SectionInput>, naming: Naming)
    ensures Materialized(t, v, nodes, naming).Ok? <==> FirstSome(SectionErrors(t, v, nodes, naming)).None?
  {}

  lemma AcceptedIsPreserved(t: Tables, v: Id, nodes: seq<SectionInput>, naming: Naming)
    requires Materialized(t, v, nodes, naming).Ok?
    ensures AllPreserved(t, v, nodes, naming)
  {
    hide PreservedError, Materialized, SectionError, LessonError;
    MaterializedWithoutErrors(t, v, nodes, naming);
    var errors := SectionErrors(t, v, nodes, naming);
    FirstSomeOfNone(errors);
    forall i | 0 <= i < |nodes|
      ensures SectionError(t, v, nodes[i], naming(i)).None? && PreservedError(t.sections, nodes[i].identity, v).None?
    {
      assert errors[i].None?;
      SectionAccepted(t, v, nodes[i], naming(i));
    }
    forall i, j | IsLesson(nodes, i, j)
      ensures LessonError(t, SectionId(nodes, naming, i), nodes[i].lessons[j], naming(i).lessons(j)).None?
      ensures PreservedError(t.lessons, nodes[i].lessons[j].identity, SectionId(nodes, naming, i)).None?
    {
      SectionAccepted(t, v, nodes[i], naming(i));
      LessonAccepted(t, SectionId(nodes, naming, i), nodes[i].lessons[j], naming(i).lessons(j));
    }
    forall i, j, k | IsBlock(nodes, i, j, k)
      ensures PreservedError(t.blocks, nodes[i].lessons[j].blocks[k].identity, LessonId(nodes, naming, i, j)).None?
    {
      assert IsLesson(nodes, i, j);
      LessonAccepted(t, SectionId(nodes, naming, i), nodes[i].lessons[j], naming(i).lessons(j));
    }
  }

  lemma PreservedIsAccepted(t: Tables, v: Id, nodes: seq<SectionInput>, naming: Naming)
    requires AllPreserved(t, v, nodes, naming)
    ensures Materialized(t, v, nodes, naming).Ok?
  {
    hide PreservedError, Materialized, SectionError, LessonError;
    MaterializedWithoutErrors(t, v, nodes, naming);
    var errors := SectionErrors(t, v, nodes, naming);
    FirstSomeOfNone(errors);
    forall i | 0 <= i < |nodes| ensures SectionError(t, v, nodes[i], naming(i)).None? {
      SectionAccepted(t, v, nodes[i], naming(i));
      var section := SectionId(nodes, naming, i);
      forall j | 0 <= j < |nodes[i].lessons| ensures LessonError(t, section, nodes[i].lessons[j], naming(i).lessons(j)).None? {
        assert IsLesson(nodes, i, j);
        LessonAccepted(t, section, nodes[i].lessons[j], naming(i).lessons(j));
        var lesson := LessonId(nodes, naming, i, j);
        forall k | 0 <= k < |nodes[i].lessons[j].blocks|
          ensures PreservedError(t.blocks, nodes[i].lessons[j].blocks[k].identity, lesson).None?
        {
          assert IsBlock(nodes, i, j, k);
        }
      }
    }
  }

  lemma PreservedMatches<T>(rows: Rows<T>, v: Id, f: Flat<T>)
    requires IsFlat(f)
    ensures PreservedError(OfVersion(rows, v), f.identity, f.parent).None? <==> Matches(rows, v, f)
  {}

  /** The service accepts a command exactly when the repository finds every row it names. */
  lemma ServiceAndRepositoryAgree(t: Tables, v: Id, nodes: seq<SectionInput>, naming: Naming)
    ensures Materialized(TablesOf(t, v), v, nodes, naming).Ok? <==> NodesMatch(t, v, nodes, naming)
  {
    hide PreservedError, Matches, OfVersion, Materialized, LessonFlats, BlockFlats;
    if NodesMatch(t, v, nodes, naming) {
      MatchedIsPreserved(t, v, nodes, naming);
      PreservedIsAccepted(TablesOf(t, v), v, nodes, naming);
    }
    if Materialized(TablesOf(t, v), v, nodes, naming).Ok? {
      AcceptedIsPreserved(TablesOf(t, v), v, nodes, naming);
      var ss := SectionFlats(v, nodes, naming);
      forall f | f in ss ensures Matches(t.sections, v, f) {
        var i :| 0 <= i < |ss| && ss[i] == f;
        PreservedMatches(t.sections, v, f);
      }
      forall f | f in LessonFlats(nodes, naming) ensures Matches(t.lessons, v, f) {
        var i, j := LessonFlatPlace(nodes, naming, f);
        PreservedMatches(t.lessons, v, f);
      }
      forall f | f in BlockFlats(nodes, naming) ensures Matches(t.blocks, v, f) {
        var i, j, k := BlockFlatPlace(nodes, naming, f);
        PreservedMatches(t.blocks, v, f);
      }
    }
  }

  lemma MatchedIsPreserved(t: Tables, v: Id, nodes: seq<SectionInput>, naming: Naming)
    requires NodesMatch(t, v, nodes, naming)
    ensures AllPreserved(TablesOf(t, v), v, nodes, naming)
  {
    hide PreservedError, Matches, OfVersion, LessonFlats, BlockFlats;
    var dicts := TablesOf(t, v);
    var ss := SectionFlats(v, nodes, naming);
    forall i | 0 <= i < |nodes| ensures PreservedError(dicts.sections, nodes[i].identity, v).None? {
      assert ss[i] in ss;
      PreservedMatches(t.sections, v, ss[i]);
    }
    forall i, j | IsLesson(nodes, i, j)
      ensures PreservedError(dicts.lessons, nodes[i].lessons[j].identity, SectionId(nodes, naming, i)).None?
    {
      LessonFlatIsListed(nodes, naming, i, j);
      PreservedMatches(t.lessons, v, LessonFlatAt(nodes, naming, i, j));
    }
    forall i, j, k | IsBlock(nodes, i, j, k)
      ensures PreservedError(dicts.blocks, nodes[i].lessons[j].blocks[k].identity, LessonId(nodes, naming, i, j)).None?
    {
      BlockFlatIsListed(nodes, naming, i, j, k);
      PreservedMatches(t.blocks, v, BlockFlatAt(nodes, naming, i, j, k));
    }
  }

  /* ---------- fresh names ---------- */

  /** `uuid4`: no name is in use as a row id or given twice. */
  ghost predicate NamesAreFresh(t: Tables, naming: Naming) {
    && (forall i: nat :: naming(i).id !in t.sections)
    && (forall i: nat, j: nat :: naming(i).lessons(j).id !in t.lessons)
    && (forall i: nat, j: nat, k: nat :: naming(i).lessons(j).blocks(k) !in t.blocks)
    && (forall i: nat, i': nat :: i != i' ==> naming(i).id != naming(i').id)
    && (forall i: nat, j: nat, i': nat, j': nat :: (i != i' || j != j') ==> naming(i).lessons(j).id != naming(i').lessons(j').id)
    && (forall i: nat, j: nat, k: nat, i': nat, j': nat, k': nat ::
          (i != i' || j != j' || k != k') ==> naming(i).lessons(j).blocks(k) != naming(i').lessons(j').blocks(k'))
  }

  ghost predicate SectionsKeptOnce(nodes: seq<SectionInput>) {
    forall i, i' | 0 <= i < |nodes| && 0 <= i' < |nodes| && i != i' && nodes[i].identity.Kept? && nodes[i'].identity.Kept? ::
      nodes[i].identity.id != nodes[i'].identity.id
  }

  ghost predicate LessonsKeptOnce(nodes: seq<SectionInput>) {
    forall i, j, i', j' | IsLesson(nodes, i, j) && IsLesson(nodes, i', j') && (i != i' || j != j') ::
      var a, b := nodes[i].lessons[j].identity, nodes[i'].lessons[j'].identity;
      a.Kept? && b.Kept? ==> a.id != b.id
  }

  ghost predicate BlocksKeptOnce(nodes: seq<SectionInput>) {
    forall i, j, k, i', j', k' | IsBlock(nodes, i, j, k) && IsBlock(nodes, i', j', k') && (i != i' || j != j' || k != k') ::
      var a, b := nodes[i].lessons[j].blocks[k].identity, nodes[i'].lessons[j'].blocks[k'].identity;
      a.Kept? && b.Kept? ==> a.id != b.id
  }

  /** `validate_replace_curriculum`: an id appears at most once among the sections, the lessons, the blocks. */
  ghost predicate KeptOnce(nodes: seq<SectionInput>) {
    SectionsKeptOnce(nodes) && LessonsKeptOnce(nodes) && BlocksKeptOnce(nodes)
  }

  /** Validation and fresh names make an accepted command placeable. */
  lemma AcceptedIsPlaceable(t: Tables, v: Id, nodes: seq<SectionInput>, naming: Naming)
    requires NamesAreFresh(t, naming) && KeptOnce(nodes) && DistinctPositions(nodes)
    requires AllPreserved(TablesOf(t, v), v, nodes, naming)
    ensures Placeable(t, nodes, naming)
  {
    forall i, i' | 0 <= i < i' < |nodes| ensures SectionId(nodes, naming, i) != SectionId(nodes, naming, i') {
      assert PreservedError(TablesOf(t, v).sections, nodes[i].identity, v).None?;
      assert PreservedError(TablesOf(t, v).sections, nodes[i'].identity, v).None?;
    }
    LessonsArePlaceable(t, v, nodes, naming);
    BlocksArePlaceable(t, v, nodes, naming);
  }

  lemma LessonsArePlaceable(t: Tables, v: Id, nodes: seq<SectionInput>, naming: Naming)
    requires NamesAreFresh(t, naming) && KeptOnce(nodes) && AllPreserved(TablesOf(t, v), v, nodes, naming)
    ensures forall i, j, i', j' | IsLesson(nodes, i, j) && IsLesson(nodes, i', j') && (i != i' || j != j') ::
      LessonId(nodes, naming, i, j) != LessonId(nodes, naming, i', j')
  {
    forall i, j, i', j' | IsLesson(nodes, i, j) && IsLesson(nodes, i', j') && (i != i' || j != j')
      ensures LessonId(nodes, naming, i, j) != LessonId(nodes, naming, i', j')
    {
      var a, b := nodes[i].lessons[j].identity, nodes[i'].lessons[j'].identity;
      assert a.Kept? ==> a.id in t.lessons;
      assert b.Kept? ==> b.id in t.lessons;
    }
  }

  lemma BlocksArePlaceable(t: Tables, v: Id, nodes: seq<SectionInput>, naming: Naming)
    requires NamesAreFresh(t, naming) && KeptOnce(nodes) && AllPreserved(TablesOf(t, v), v, nodes, naming)
    ensures forall i, j, k, i', j', k' | IsBlock(nodes, i, j, k) && IsBlock(nodes, i', j', k') && (i != i' || j != j' || k != k') ::
      BlockId(nodes, naming, i, j, k) != BlockId(nodes, naming, i', j', k')
  {
    forall i, j, k, i', j', k' | IsBlock(nodes, i, j, k) && IsBlock(nodes, i', j', k') && (i != i' || j != j' || k != k')
      ensures BlockId(nodes, naming, i, j, k) != BlockId(nodes, naming, i', j', k')
    {
      var a, b := nodes[i].lessons[j].blocks[k].identity, nodes[i'].lessons[j'].blocks[k'].identity;
      assert a.Kept? ==> a.id in t.blocks;
      assert b.Kept? ==> b.id in t.blocks;
    }
  }

  /* ---------- sorting a command keeps what was accepted ---------- */

  /** Where node `i` of the sorted list comes from. */
  function From(keys: seq<int>, i: nat): (n: nat)
    requires i < |keys|
    ensures n < |keys|
  {
    Order(keys)[i]
  }

  lemma FromIsInjective(keys: seq<int>, i: nat, i': nat)
    requires i < |keys| && i' < |keys| && i != i'
    ensures From(keys, i) != From(keys, i')
  {}

  function LessonFrom(nodes: seq<SectionInput>, i: nat, j: nat): (r: (nat, nat))
    requires IsLesson(SortedSections(nodes), i, j)
    ensures IsLesson(nodes, r.0, r.1)
  {
    var i' := From(SectionPositions(nodes), i);
    (i', From(LessonPositions(nodes[i'].lessons), j))
  }

  function BlockFrom(nodes: seq<SectionInput>, i: nat, j: nat, k: nat): (r: (nat, nat, nat))
    requires IsBlock(SortedSections(nodes), i, j, k)
    ensures IsBlock(nodes, r.0, r.1, r.2)
  {
    var (i', j') := LessonFrom(nodes, i, j);
    (i', j', From(BlockPositions(nodes[i'].lessons[j'].blocks), k))
  }

  lemma SortedSectionAt(nodes: seq<SectionInput>, i: nat)
    requires i < |nodes|
    ensures SortedSections(nodes)[i] == SortedSection(nodes[From(SectionPositions(nodes), i)])
  {}

  lemma SortedLessonAt(nodes: seq<SectionInput>, i: nat, j: nat)
    requires IsLesson(SortedSections(nodes), i, j)
    ensures var (i', j') := LessonFrom(nodes, i, j);
      && i' == From(SectionPositions(nodes), i)
      && SortedSections(nodes)[i].lessons[j] == SortedLesson(nodes[i'].lessons[j'])
  {
    SortedSectionAt(nodes, i);
  }

  lemma SortedBlockAt(nodes: seq<SectionInput>, i: nat, j: nat, k: nat)
    requires IsBlock(SortedSections(nodes), i, j, k)
    ensures var (i', j', k') := BlockFrom(nodes, i, j, k);
      && (i', j') == LessonFrom(nodes, i, j)
      && SortedSections(nodes)[i].lessons[j].blocks[k] == nodes[i'].lessons[j'].blocks[k']
  {
    SortedLessonAt(nodes, i, j);
  }

  lemma LessonFromIsInjective(nodes: seq<SectionInput>, i: nat, j: nat, i': nat, j': nat)
    requires IsLesson(SortedSections(nodes), i, j) && IsLesson(SortedSections(nodes), i', j') && (i != i' || j != j')
    ensures LessonFrom(nodes, i, j) != LessonFrom(nodes, i', j')
  {
    if i != i' {
      FromIsInjective(SectionPositions(nodes), i, i');
    } else {
      SortedSectionAt(nodes, i);
      FromIsInjective(LessonPositions(nodes[From(SectionPositions(nodes), i)].lessons), j, j');
    }
  }

  lemma BlockFromIsInjective(nodes: seq<SectionInput>, i: nat, j: nat, k: nat, i': nat, j': nat, k': nat)
    requires IsBlock(SortedSections(nodes), i, j, k) && IsBlock(SortedSections(nodes), i', j', k') && (i != i' || j != j' || k != k')
    ensures BlockFrom(nodes, i, j, k) != BlockFrom(nodes, i', j', k')
  {
    if i != i' || j != j' {
      LessonFromIsInjective(nodes, i, j, i', j');
    } else {
      SortedLessonAt(nodes, i, j);
      var (n, m) := LessonFrom(nodes, i, j);
      FromIsInjective(BlockPositions(nodes[n].lessons[m].blocks), k, k');
    }
  }

  lemma SortedSectionsKeptOnce(nodes: seq<SectionInput>)
    requires SectionsKeptOnce(nodes)
    ensures SectionsKeptOnce(SortedSections(nodes))
  {
    hide From, SortedSections;
    var sorted := SortedSections(nodes);
    forall i, i' | 0 <= i < |sorted| && 0 <= i' < |sorted| && i != i' && sorted[i].identity.Kept? && sorted[i'].identity.Kept?
      ensures sorted[i].identity.id != sorted[i'].identity.id
    {
      SortedSectionAt(nodes, i);
      SortedSectionAt(nodes, i');
      FromIsInjective(SectionPositions(nodes), i, i');
    }
  }

  lemma SortedLessonsKeptOnce(nodes: seq<SectionInput>)
    requires LessonsKeptOnce(nodes)
    ensures LessonsKeptOnce(SortedSections(nodes))
  {
    hide From, LessonFrom, SortedSections;
    var sorted := SortedSections(nodes);
    forall i, j, i', j' | IsLesson(sorted, i, j) && IsLesson(sorted, i', j') && (i != i' || j != j')
      ensures var a, b := sorted[i].lessons[j].identity, sorted[i'].lessons[j'].identity;
        a.Kept? && b.Kept? ==> a.id != b.id
    {
      SortedLessonAt(nodes, i, j);
      SortedLessonAt(nodes, i', j');
      LessonFromIsInjective(nodes, i, j, i', j');
    }
  }

  lemma BlocksApart(nodes: seq<SectionInput>, i: nat, j: nat, k: nat, i': nat, j': nat, k': nat)
    requires BlocksKeptOnce(nodes) && IsBlock(nodes, i, j, k) && IsBlock(nodes, i', j', k') && (i != i' || j != j' || k != k')
    ensures var a, b := nodes[i].lessons[j].blocks[k].identity, nodes[i'].lessons[j'].blocks[k'].identity;
      a.Kept? && b.Kept? ==> a.id != b.id
  {}

  lemma SortedBlocksApart(nodes: seq<SectionInput>, i: nat, j: nat, k: nat, i': nat, j': nat, k': nat)
    requires BlocksKeptOnce(nodes) && IsBlock(SortedSections(nodes), i, j, k) && IsBlock(SortedSections(nodes), i', j', k')
    requires i != i' || j != j' || k != k'
    ensures var a, b := SortedSections(nodes)[i].lessons[j].blocks[k].identity, SortedSections(nodes)[i'].lessons[j'].blocks[k'].identity;
      a.Kept? && b.Kept? ==> a.id != b.id
  {
    hide From, LessonFrom, BlockFrom, SortedSections, BlocksKeptOnce;
    SortedBlockAt(nodes, i, j, k);
    SortedBlockAt(nodes, i', j', k');
    BlockFromIsInjective(nodes, i, j, k, i', j', k');
    var (n, m, l) := BlockFrom(nodes, i, j, k);
    var (n', m', l') := BlockFrom(nodes, i', j', k');
    BlocksApart(nodes, n, m, l, n', m', l');
  }

  lemma SortedBlocksKeptOnce(nodes: seq<SectionInput>)
    requires BlocksKeptOnce(nodes)
    ensures BlocksKeptOnce(SortedSections(nodes))
  {
    hide SortedSections;
    var sorted := SortedSections(nodes);
    forall i, j, k, i', j', k' | IsBlock(sorted, i, j, k) && IsBlock(sorted, i', j', k') && (i != i' || j != j' || k != k')
      ensures var a, b := sorted[i].lessons[j].blocks[k].identity, sorted[i'].lessons[j'].blocks[k'].identity;
        a.Kept? && b.Kept? ==> a.id != b.id
    {
      SortedBlocksApart(nodes, i, j, k, i', j', k');
    }
  }

  lemma SortedKeepsOnce(nodes: seq<SectionInput>)
    requires KeptOnce(nodes)
    ensures KeptOnce(SortedSections(nodes))
  {
    hide SortedSections, SectionsKeptOnce, LessonsKeptOnce, BlocksKeptOnce;
    SortedSectionsKeptOnce(nodes);
    SortedLessonsKeptOnce(nodes);
    SortedBlocksKeptOnce(nodes);
  }

  lemma SortedKeepsPositions(nodes: seq<SectionInput>)
    requires DistinctPositions(nodes)
    ensures DistinctPositions(SortedSections(nodes))
  {
    hide From, LessonFrom, BlockFrom, SortedSections;
    var sorted := SortedSections(nodes);
    forall i, i' | 0 <= i < i' < |sorted| ensures sorted[i].position != sorted[i'].position {
      SortedSectionAt(nodes, i);
      SortedSectionAt(nodes, i');
      FromIsInjective(SectionPositions(nodes), i, i');
    }
    forall i, j, j' | IsLesson(sorted, i, j) && IsLesson(sorted, i, j') && j != j'
      ensures sorted[i].lessons[j].position != sorted[i].lessons[j'].position
    {
      SortedLessonAt(nodes, i, j);
      SortedLessonAt(nodes, i, j');
      LessonFromIsInjective(nodes, i, j, i, j');
    }
    forall i, j, k, k' | IsBlock(sorted, i, j, k) && IsBlock(sorted, i, j, k') && k != k'
      ensures sorted[i].lessons[j].blocks[k].position != sorted[i].lessons[j].blocks[k'].position
    {
      SortedBlockAt(nodes, i, j, k);
      SortedBlockAt(nodes, i, j, k');
      BlockFromIsInjective(nodes, i, j, k, i, j, k');
    }
  }

  /** Stored parents are stored rows, so a kept lesson of a new section was refused, whichever name the section got. */
  lemma KeptHasKeptParent<T>(rows: Rows<T>, identity: Identity, parent: Identity, name: Id, name': Id, parents: set<Id>)
    requires forall k | k in rows :: rows[k].parent in parents
    requires name !in parents && PreservedError(rows, identity, IdOf(parent, name)).None?
    ensures PreservedError(rows, identity, IdOf(parent, name')).None?
  {}

  /** A command accepted under one naming is accepted, sorted, under another. */
  lemma SortedIsPreserved(t: Tables, v: Id, nodes: seq<SectionInput>, f: Naming, g: Naming)
    requires Integrity(t) && NamesAreFresh(t, f) && AllPreserved(TablesOf(t, v), v, nodes, f)
    ensures AllPreserved(TablesOf(t, v), v, SortedSections(nodes), g)
  {
    hide From, LessonFrom, BlockFrom, SortedSections, PreservedError, OfVersion;
    var dicts, sorted := TablesOf(t, v), SortedSections(nodes);
    forall i | 0 <= i < |sorted| ensures PreservedError(dicts.sections, sorted[i].identity, v).None? {
      SortedSectionAt(nodes, i);
    }
    forall i, j | IsLesson(sorted, i, j) ensures PreservedError(dicts.lessons, sorted[i].lessons[j].identity, SectionId(sorted, g, i)).None? {
      SortedLessonAt(nodes, i, j);
      SortedSectionAt(nodes, i);
      var (i', j') := LessonFrom(nodes, i, j);
      KeptHasKeptParent(dicts.lessons, nodes[i'].lessons[j'].identity, nodes[i'].identity, f(i').id, g(i).id, t.sections.Keys);
    }
    forall i, j, k | IsBlock(sorted, i, j, k)
      ensures PreservedError(dicts.blocks, sorted[i].lessons[j].blocks[k].identity, LessonId(sorted, g, i, j)).None?
    {
      SortedBlockAt(nodes, i, j, k);
      SortedLessonAt(nodes, i, j);
      var (i', j', k') := BlockFrom(nodes, i, j, k);
      var lesson := nodes[i'].lessons[j'];
      KeptHasKeptParent(dicts.blocks, lesson.blocks[k'].identity, lesson.identity, f(i').lessons(j').id, g(i).lessons(j).id, t.lessons.Keys);
    }
  }

  /* ---------- the payload of the service's tree is the sorted command ---------- */

  lemma PayloadOfEntry<T>(rows: Rows<T>, identity: Identity, name: Id, parent: Id)
    requires PreservedError(rows, identity, parent).None? && name !in rows
    ensures IdentityIn(rows, IdOf(identity, name)) == identity
  {}

  lemma PayloadOfBlocks(t: Tables, v: Id, lesson: Id, nodes: seq<BlockInput>, names: nat -> Id)
    requires forall k :: 0 <= k < |nodes| ==> PreservedError(t.blocks, nodes[k].identity, lesson).None?
    requires forall k: nat :: names(k) !in t.blocks
    ensures PayloadBlocks(t, SortBlocks(BlocksFor(t, v, lesson, nodes, names))) == SortedBlocks(nodes)
  {
    hide PreservedError, IdentityIn, EntryFor, IsStableOrder;
    var blocks := BlocksFor(t, v, lesson, nodes, names);
    assert Positions(blocks) == BlockPositions(nodes);
    var order := Order(BlockPositions(nodes));
    InRangeOrder(BlockPositions(nodes));
    forall k | 0 <= k < |order| ensures PayloadBlock(t, blocks[order[k]]) == nodes[order[k]] {
      PayloadOfEntry(t.blocks, nodes[order[k]].identity, names(order[k]), lesson);
    }
  }

  lemma InRangeOrder(keys: seq<int>)
    ensures |Order(keys)| == |keys| && forall i :: 0 <= i < |keys| ==> Order(keys)[i] < |keys|
  {}

  lemma PayloadOfLesson(t: Tables, v: Id, section: Id, node: LessonInput, names: LessonNames)
    requires PreservedError(t.lessons, node.identity, section).None? && names.id !in t.lessons
    requires forall k :: 0 <= k < |node.blocks| ==> PreservedError(t.blocks, node.blocks[k].identity, IdOf(node.identity, names.id)).None?
    requires forall k: nat :: names.blocks(k) !in t.blocks
    ensures PayloadLesson(t, LessonFor(t, v, section, node, names)) == SortedLesson(node)
  {
    PayloadOfEntry(t.lessons, node.identity, names.id, section);
    PayloadOfBlocks(t, v, IdOf(node.identity, names.id), node.blocks, names.blocks);
  }

  lemma PayloadOfLessons(t: Tables, v: Id, section: Id, nodes: seq<LessonInput>, names: nat -> LessonNames)
    requires forall j :: 0 <= j < |nodes| ==> PayloadLesson(t, LessonFor(t, v, section, nodes[j], names(j))) == SortedLesson(nodes[j])
    ensures PayloadLessons(t, SortLessons(LessonsFor(t, v, section, nodes, names))) == SortedLessons(nodes)
  {
    hide IsStableOrder, PayloadLesson, SortedLesson;
    var lessons := LessonsFor(t, v, section, nodes, names);
    LessonPositionsOf(t, v, section, nodes, names);
    InRangeOrder(LessonPositions(nodes));
    var order := Order(LessonPositions(nodes));
    assert forall j :: 0 <= j < |order| ==> SortLessons(lessons)[j] == lessons[order[j]];
  }

  lemma LessonPositionsOf(t: Tables, v: Id, section: Id, nodes: seq<LessonInput>, names: nat -> LessonNames)
    ensures Positions(LessonEntries(LessonsFor(t, v, section, nodes, names))) == LessonPositions(nodes)
  {}

  lemma SectionPositionsOf(t: Tables, v: Id, nodes: seq<SectionInput>, naming: Naming)
    ensures Positions(SectionEntries(SectionsFor(t, v, nodes, naming))) == SectionPositions(nodes)
  {}

  lemma PayloadOfSection(t: Tables, v: Id, nodes: seq<SectionInput>, naming: Naming, i: nat)
    requires AllPreserved(t, v, nodes, naming) && NamesAreFresh(t, naming) && i < |nodes|
    ensures PayloadSection(t, SectionFor(t, v, nodes[i], naming(i))) == SortedSection(nodes[i])
  {
    hide PreservedError, IdentityIn, EntryFor, LessonFor, PayloadLesson, SortedLesson;
    var section := SectionId(nodes, naming, i);
    PayloadOfEntry(t.sections, nodes[i].identity, naming(i).id, v);
    forall j | 0 <= j < |nodes[i].lessons|
      ensures PayloadLesson(t, LessonFor(t, v, section, nodes[i].lessons[j], naming(i).lessons(j))) == SortedLesson(nodes[i].lessons[j])
    {
      assert IsLesson(nodes, i, j);
      assert forall k :: 0 <= k < |nodes[i].lessons[j].blocks| ==> IsBlock(nodes, i, j, k);
      PayloadOfLesson(t, v, section, nodes[i].lessons[j], naming(i).lessons(j));
    }
    PayloadOfLessons(t, v, section, nodes[i].lessons, naming(i).lessons);
  }

  lemma PayloadOfMaterialized(t: Tables, v: Id, nodes: seq<SectionInput>, naming: Naming)
    requires AllPreserved(t, v, nodes, naming) && NamesAreFresh(t, naming)
    ensures Payload(t, SortSections(SectionsFor(t, v, nodes, naming))) == SortedSections(nodes)
  {
    hide IsStableOrder, SectionFor, SortedSection, PayloadSection, AllPreserved, NamesAreFresh;
    var sections := SectionsFor(t, v, nodes, naming);
    SectionPositionsOf(t, v, nodes, naming);
    InRangeOrder(SectionPositions(nodes));
    var order := Order(SectionPositions(nodes));
    forall i | 0 <= i < |order| ensures PayloadSection(t, SortSections(sections)[i]) == SortedSection(nodes[order[i]]) {
      PayloadOfSection(t, v, nodes, naming, order[i]);
    }
  }
}

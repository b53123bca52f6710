/** Curriculum rows, the tree they stand for, and the replacement command. */
module CourseTree {
  import opened Prelude
  import opened CanonicalJson

  /** A UUID; the order of the numbers is the order PostgreSQL sorts ids in. */
  type Id = nat

  /** The columns that the three curriculum tables share; `parent` is the version, section or lesson of the row. */
  datatype Row<+T> = Row(version: Id, parent: Id, position: int, rowVersion: int, body: T)

  datatype SectionBody = SectionBody(title: string)
  datatype LessonBody = LessonBody(title: string, isRequired: bool)
  datatype BlockBody = BlockBody(kind: string, document: Json)

  datatype Entry<+T> = Entry(id: Id, row: Row<T>)

  type Block = Entry<BlockBody>
  datatype Lesson = Lesson(entry: Entry<LessonBody>, blocks: seq<Block>)
  datatype Section = Section(entry: Entry<SectionBody>, lessons: seq<Lesson>)

  /** A node of a command either keeps a stored row, at the row version the caller saw, or is new. */
  datatype Identity = New | Kept(id: Id, expectedRowVersion: int)

  datatype BlockInput = BlockInput(identity: Identity, position: int, body: BlockBody)
  datatype LessonInput = LessonInput(identity: Identity, position: int, body: LessonBody, blocks: seq<BlockInput>)
  datatype SectionInput = SectionInput(identity: Identity, position: int, body: SectionBody, lessons: seq<LessonInput>)

  function Positions<T>(entries: seq<Entry<T>>): (ps: seq<int>)
    ensures |ps| == |entries| && forall i :: 0 <= i < |ps| ==> ps[i] == entries[i].row.position
  {
    seq(|entries|, i requires 0 <= i < |entries| => entries[i].row.position)
  }

  function LessonEntries(lessons: seq<Lesson>): (es: seq<Entry<LessonBody>>)
    ensures |es| == |lessons| && forall i :: 0 <= i < |es| ==> es[i] == lessons[i].entry
  {
    seq(|lessons|, i requires 0 <= i < |lessons| => lessons[i].entry)
  }

  function SectionEntries(sections: seq<Section>): (es: seq<Entry<SectionBody>>)
    ensures |es| == |sections| && forall i :: 0 <= i < |es| ==> es[i] == sections[i].entry
  {
    seq(|sections|, i requires 0 <= i < |sections| => sections[i].entry)
  }

  /* ---------- sorted(..., key=lambda item: item.position) ---------- */

  function SortBlocks(blocks: seq<Block>): seq<Block> {
    Permute(blocks, Order(Positions(blocks)))
  }

  function SortLessons(lessons: seq<Lesson>): seq<Lesson> {
    Permute(lessons, Order(Positions(LessonEntries(lessons))))
  }

  function SortSections(sections: seq<Section>): seq<Section> {
    Permute(sections, Order(Positions(SectionEntries(sections))))
  }

  /** Permuting by a stable order keeps the elements and sorts the keys. */
  lemma PermuteSorts<T>(xs: seq<T>, keys: seq<int>)
    requires |keys| == |xs| && Distinct(keys)
    ensures var ys := Permute(xs, Order(keys));
      && |ys| == |xs|
      && StrictlyAscending(Permute(keys, Order(keys)))
      && (forall x | x in xs :: x in ys)
      && (forall x | x in ys :: x in xs)
  {
    var order := Order(keys);
    forall i, j | 0 <= i < j < |keys| ensures keys[order[i]] < keys[order[j]] {
      assert order[i] != order[j];
    }
    forall x | x in xs ensures x in Permute(xs, order) {
      var k :| 0 <= k < |xs| && xs[k] == x;
      assert k in order;
      var i :| 0 <= i < |order| && order[i] == k;
      assert Permute(xs, order)[i] == x;
    }
  }

  /* ---------- what the rows of one version stand for ---------- */

  /** `entries` are the rows under `parent`, in ascending position. */
  ghost predicate Lists<T>(rows: map<Id, Row<T>>, parent: Id, entries: seq<Entry<T>>) {
    && StrictlyAscending(Positions(entries))
    && (forall e | e in entries :: e.id in rows && rows[e.id] == e.row && e.row.parent == parent)
    && (forall k | k in rows && rows[k].parent == parent :: Entry(k, rows[k]) in entries)
  }

  type SectionRows = map<Id, Row<SectionBody>>
  type LessonRows = map<Id, Row<LessonBody>>
  type BlockRows = map<Id, Row<BlockBody>>

  /** The three tables as one value. */
  datatype Tables = Tables(sections: SectionRows, lessons: LessonRows, blocks: BlockRows)

  ghost predicate Represents(t: Tables, version: Id, tree: seq<Section>) {
    && Lists(t.sections, version, SectionEntries(tree))
    && (forall s | s in tree :: Lists(t.lessons, s.entry.id, LessonEntries(s.lessons)))
    && (forall s, l | s in tree && l in s.lessons :: Lists(t.blocks, l.entry.id, l.blocks))
  }

  lemma ListingIsUnique<T>(rows: map<Id, Row<T>>, parent: Id, a: seq<Entry<T>>, b: seq<Entry<T>>)
    requires Lists(rows, parent, a) && Lists(rows, parent, b)
    ensures a == b
  {
    ListedToo(rows, parent, a, b);
    ListedToo(rows, parent, b, a);
    SameEntriesSameList(a, b);
  }

  lemma ListedToo<T>(rows: map<Id, Row<T>>, parent: Id, a: seq<Entry<T>>, b: seq<Entry<T>>)
    requires Lists(rows, parent, a) && Lists(rows, parent, b)
    ensures StrictlyAscending(Positions(a)) && forall e | e in a :: e in b
  {
    forall e | e in a ensures e in b { assert Entry(e.id, rows[e.id]) in b; }
  }

  lemma PositionsToo<T>(a: seq<Entry<T>>, b: seq<Entry<T>>)
    requires forall e | e in a :: e in b
    ensures forall p | p in Positions(a) :: p in Positions(b)
  {
    forall p | p in Positions(a) ensures p in Positions(b) {
      var i :| 0 <= i < |a| && Positions(a)[i] == p;
      assert a[i] in b;
      var j :| 0 <= j < |b| && b[j] == a[i];
      assert Positions(b)[j] == p;
    }
  }

  /** Lists in ascending position with the same entries are the same list. */
  lemma SameEntriesSameList<T>(a: seq<Entry<T>>, b: seq<Entry<T>>)
    requires StrictlyAscending(Positions(a)) && StrictlyAscending(Positions(b))
    requires (forall e | e in a :: e in b) && (forall e | e in b :: e in a)
    ensures a == b
  {
    PositionsToo(a, b);
    PositionsToo(b, a);
    AscendingIsUnique(Positions(a), Positions(b));
    assert |a| == |Positions(a)| == |Positions(b)| == |b|;
    forall i | 0 <= i < |a| ensures a[i] == b[i] {
      assert a[i] in b;
      var j :| 0 <= j < |b| && b[j] == a[i];
      assert Positions(b)[j] == Positions(a)[i] == Positions(b)[i];
    }
  }

  /** The rows determine the tree. */
  lemma TreeIsUnique(t: Tables, version: Id, a: seq<Section>, b: seq<Section>)
    requires Represents(t, version, a) && Represents(t, version, b)
    ensures a == b
  {
    ListingIsUnique(t.sections, version, SectionEntries(a), SectionEntries(b));
    assert |a| == |SectionEntries(a)| == |b|;
    forall i | 0 <= i < |a| ensures a[i] == b[i] {
      assert SectionEntries(a)[i] == SectionEntries(b)[i];
      LessonsAreUnique(t, a[i], b[i]);
    }
  }

  lemma LessonsAreUnique(t: Tables, a: Section, b: Section)
    requires a.entry == b.entry
    requires Lists(t.lessons, a.entry.id, LessonEntries(a.lessons)) && Lists(t.lessons, b.entry.id, LessonEntries(b.lessons))
    requires forall l | l in a.lessons :: Lists(t.blocks, l.entry.id, l.blocks)
    requires forall l | l in b.lessons :: Lists(t.blocks, l.entry.id, l.blocks)
    ensures a == b
  {
    ListingIsUnique(t.lessons, a.entry.id, LessonEntries(a.lessons), LessonEntries(b.lessons));
    assert |a.lessons| == |LessonEntries(a.lessons)| == |b.lessons|;
    forall i | 0 <= i < |a.lessons| ensures a.lessons[i] == b.lessons[i] {
      assert LessonEntries(a.lessons)[i] == LessonEntries(b.lessons)[i];
      ListingIsUnique(t.blocks, a.lessons[i].entry.id, a.lessons[i].blocks, b.lessons[i].blocks);
    }
  }
}

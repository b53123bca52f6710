/** The product content of a course version and the hash that identifies it. */
module ContentProjection {
  import opened Prelude
  import opened CanonicalJson
  import opened CourseTree

  datatype Metadata = Metadata(primaryLocale: string, title: string, description: string)

  /* ---------- the projection, siblings sorted by position ---------- */

  function BlockJson(b: Block): Json {
    Obj(map["kind" := Str(b.row.body.kind), "position" := Int(b.row.position), "document" := b.row.body.document])
  }

  function LessonJson(l: Lesson): Json {
    Obj(map["title" := Str(l.entry.row.body.title), "position" := Int(l.entry.row.position),
            "is_required" := Bool(l.entry.row.body.isRequired), "content_blocks" := Arr(BlockList(SortBlocks(l.blocks)))])
  }

  function SectionJson(s: Section): Json {
    Obj(map["title" := Str(s.entry.row.body.title), "position" := Int(s.entry.row.position),
            "lessons" := Arr(LessonList(SortLessons(s.lessons)))])
  }

  function BlockList(blocks: seq<Block>): (js: seq<Json>)
    ensures |js| == |blocks| && forall i :: 0 <= i < |js| ==> js[i] == BlockJson(blocks[i])
  {
    seq(|blocks|, i requires 0 <= i < |blocks| => BlockJson(blocks[i]))
  }

  function LessonList(lessons: seq<Lesson>): (js: seq<Json>)
    ensures |js| == |lessons| && forall i :: 0 <= i < |js| ==> js[i] == LessonJson(lessons[i])
  {
    seq(|lessons|, i requires 0 <= i < |lessons| => LessonJson(lessons[i]))
  }

  function SectionList(sections: seq<Section>): (js: seq<Json>)
    ensures |js| == |sections| && forall i :: 0 <= i < |js| ==> js[i] == SectionJson(sections[i])
  {
    seq(|sections|, i requires 0 <= i < |sections| => SectionJson(sections[i]))
  }

  function Projection(meta: Metadata, tree: seq<Section>): Json {
    Obj(map["primary_locale" := Str(meta.primaryLocale), "title" := Str(meta.title),
            "description" := Str(meta.description), "sections" := Arr(SectionList(SortSections(tree)))])
  }

  /** `content_projection`: three nested loops that append to lists. */
  method Project(meta: Metadata, tree: seq<Section>) returns (projection: Json)
    ensures projection == Projection(meta, tree)
  {
    hide SortSections, SortLessons, SortBlocks;
    var sections: seq<Json> := [];
    var sortedSections := SortSections(tree);
    for i := 0 to |sortedSections|
      invariant sections == SectionList(sortedSections)[..i]
    {
      var lessons: seq<Json> := [];
      var sortedLessons := SortLessons(sortedSections[i].lessons);
      for j := 0 to |sortedLessons|
        invariant lessons == LessonList(sortedLessons)[..j]
      {
        var blocks: seq<Json> := [];
        var sortedBlocks := SortBlocks(sortedLessons[j].blocks);
        for k := 0 to |sortedBlocks|
          invariant blocks == BlockList(sortedBlocks)[..k]
        {
          blocks := blocks + [BlockJson(sortedBlocks[k])];
        }
        var entry := sortedLessons[j].entry;
        assert blocks == BlockList(sortedBlocks);
        lessons := lessons + [Obj(map["title" := Str(entry.row.body.title), "position" := Int(entry.row.position),
                                      "is_required" := Bool(entry.row.body.isRequired), "content_blocks" := Arr(blocks)])];
      }
      var entry := sortedSections[i].entry;
      assert lessons == LessonList(sortedLessons);
      sections := sections + [Obj(map["title" := Str(entry.row.body.title), "position" := Int(entry.row.position),
                                      "lessons" := Arr(lessons)])];
    }
    assert sections == SectionList(sortedSections);
    projection := Obj(map["primary_locale" := Str(meta.primaryLocale), "title" := Str(meta.title),
                          "description" := Str(meta.description), "sections" := Arr(sections)]);
  }

  /* ---------- what the projection is about: content by position, without ids, row versions or list order ---------- */

  datatype LessonMeaning = LessonMeaning(body: LessonBody, blocks: map<int, BlockBody>)
  datatype SectionMeaning = SectionMeaning(body: SectionBody, lessons: map<int, LessonMeaning>)

  function IndexOf(keys: seq<int>, k: int): (i: nat)
    requires k in keys
    ensures i < |keys| && keys[i] == k
  {
    if keys[0] == k then 0 else 1 + IndexOf(keys[1..], k)
  }

  /** The values of a list, by key. */
  function ByKey<V>(keys: seq<int>, values: seq<V>): (m: map<int, V>)
    requires |keys| == |values| && Distinct(keys)
    ensures forall k :: k in m <==> k in keys
    ensures forall i :: 0 <= i < |keys| ==> keys[i] in m && m[keys[i]] == values[i]
  {
    var m := map k | k in keys :: values[IndexOf(keys, k)];
    assert forall i :: 0 <= i < |keys| ==> keys[i] in m && keys[IndexOf(keys, keys[i])] == keys[i];
    m
  }

  function BlockBodies(blocks: seq<Block>): (bodies: seq<BlockBody>)
    ensures |bodies| == |blocks| && forall i :: 0 <= i < |bodies| ==> bodies[i] == blocks[i].row.body
  {
    seq(|blocks|, i requires 0 <= i < |blocks| => blocks[i].row.body)
  }

  predicate LessonHasPositions(l: Lesson) {
    Distinct(Positions(l.blocks))
  }

  predicate SectionHasPositions(s: Section) {
    Distinct(Positions(LessonEntries(s.lessons))) && forall l | l in s.lessons :: LessonHasPositions(l)
  }

  /** Positions are unique among siblings, as the unique constraints of the three tables keep them. */
  predicate HasPositions(tree: seq<Section>) {
    Distinct(Positions(SectionEntries(tree))) && forall s | s in tree :: SectionHasPositions(s)
  }

  function MeaningOfLesson(l: Lesson): LessonMeaning
    requires LessonHasPositions(l)
  {
    LessonMeaning(l.entry.row.body, ByKey(Positions(l.blocks), BlockBodies(l.blocks)))
  }

  function MeaningsOfLessons(lessons: seq<Lesson>): (ms: seq<LessonMeaning>)
    requires forall l | l in lessons :: LessonHasPositions(l)
    ensures |ms| == |lessons| && forall i :: 0 <= i < |ms| ==> ms[i] == MeaningOfLesson(lessons[i])
  {
    seq(|lessons|, i requires 0 <= i < |lessons| => MeaningOfLesson(lessons[i]))
  }

  function MeaningOfSection(s: Section): SectionMeaning
    requires SectionHasPositions(s)
  {
    SectionMeaning(s.entry.row.body, ByKey(Positions(LessonEntries(s.lessons)), MeaningsOfLessons(s.lessons)))
  }

  function MeaningsOfSections(tree: seq<Section>): (ms: seq<SectionMeaning>)
    requires forall s | s in tree :: SectionHasPositions(s)
    ensures |ms| == |tree| && forall i :: 0 <= i < |ms| ==> ms[i] == MeaningOfSection(tree[i])
  {
    seq(|tree|, i requires 0 <= i < |tree| => MeaningOfSection(tree[i]))
  }

  function Meaning(tree: seq<Section>): map<int, SectionMeaning>
    requires HasPositions(tree)
  {
    ByKey(Positions(SectionEntries(tree)), MeaningsOfSections(tree))
  }

  /* ---------- equal projections, equal meanings ---------- */

  /** `order` lists every index once. */
  predicate Covers(order: seq<nat>, n: nat) {
    InRange(order, n) && |order| == n && forall k :: 0 <= k < n ==> k in order
  }

  lemma ByKeyOfPermutation<V>(keys: seq<int>, values: seq<V>, order: seq<nat>)
    requires |keys| == |values| && Distinct(keys) && Covers(order, |keys|)
    requires Distinct(Permute(keys, order))
    ensures ByKey(Permute(keys, order), Permute(values, order)) == ByKey(keys, values)
  {
    hide ByKey, Permute, IndexOf;
    var ks, vs := Permute(keys, order), Permute(values, order);
    var m, n := ByKey(ks, vs), ByKey(keys, values);
    forall k | k in keys ensures k in m && m[k] == n[k] {
      var j :| 0 <= j < |keys| && keys[j] == k;
      assert j in order;
      var i :| 0 <= i < |order| && order[i] == j;
      assert m[ks[i]] == vs[i] == values[j];
    }
    forall k | k in ks ensures k in keys {
      var i :| 0 <= i < |ks| && ks[i] == k;
      assert k == keys[order[i]];
    }
    assert m.Keys == n.Keys;
  }

  /** Reordering keys and values together does not change the map. */
  lemma {:induction false} ByKeyIgnoresOrder<V>(keys: seq<int>, values: seq<V>)
    requires |keys| == |values| && Distinct(keys)
    ensures Covers(Order(keys), |keys|) && Distinct(Permute(keys, Order(keys)))
    ensures ByKey(Permute(keys, Order(keys)), Permute(values, Order(keys))) == ByKey(keys, values)
  {
    hide ByKey, Permute, Order, IsStableOrder, Distinct, StrictlyAscending;
    OrderCovers(keys);
    PermuteSorts(keys, keys);
    AscendingIsDistinct(Permute(keys, Order(keys)));
    ByKeyOfPermutation(keys, values, Order(keys));
  }

  /** Ascending keys and their values are determined by the map. */
  lemma AscendingByKeyIsUnique<V>(ka: seq<int>, va: seq<V>, kb: seq<int>, vb: seq<V>)
    requires |ka| == |va| && |kb| == |vb| && StrictlyAscending(ka) && StrictlyAscending(kb)
    requires ByKey(ka, va) == ByKey(kb, vb)
    ensures ka == kb && va == vb
  {
    AscendingIsUnique(ka, kb);
    forall i | 0 <= i < |va| ensures va[i] == vb[i] {
      assert va[i] == ByKey(ka, va)[ka[i]] == ByKey(kb, vb)[kb[i]] == vb[i];
    }
  }

  predicate InRange(order: seq<nat>, n: nat) {
    forall i :: 0 <= i < |order| ==> order[i] < n
  }

  /** `ja[i]` writes exactly the key and the value at `i`. */
  predicate Writes<V(==)>(ka: seq<int>, va: seq<V>, ja: seq<Json>, kb: seq<int>, vb: seq<V>, jb: seq<Json>)
    requires |ka| == |va| == |ja| && |kb| == |vb| == |jb|
  {
    forall i, j | 0 <= i < |ja| && 0 <= j < |jb| :: ja[i] == jb[j] <==> (ka[i] == kb[j] && va[i] == vb[j])
  }

  lemma PermutedListsAgree<V>(ka: seq<int>, va: seq<V>, ja: seq<Json>, oa: seq<nat>,
                              kb: seq<int>, vb: seq<V>, jb: seq<Json>, ob: seq<nat>)
    requires |ka| == |va| == |ja| && |kb| == |vb| == |jb| && InRange(oa, |ka|) && InRange(ob, |kb|)
    requires Writes(ka, va, ja, kb, vb, jb)
    ensures Permute(ja, oa) == Permute(jb, ob) <==> Permute(ka, oa) == Permute(kb, ob) && Permute(va, oa) == Permute(vb, ob)
  {
    if |oa| == |ob| {
      forall i | 0 <= i < |oa|
        ensures Permute(ja, oa)[i] == Permute(jb, ob)[i]
          <==> Permute(ka, oa)[i] == Permute(kb, ob)[i] && Permute(va, oa)[i] == Permute(vb, ob)[i]
      {
        assert ja[oa[i]] == jb[ob[i]] <==> (ka[oa[i]] == kb[ob[i]] && va[oa[i]] == vb[ob[i]]);
      }
    } else {
      assert |Permute(ja, oa)| != |Permute(jb, ob)| && |Permute(ka, oa)| != |Permute(kb, ob)|;
    }
  }

  /** Lists written in ascending key order are equal exactly when they map the same keys to the same values. */
  lemma {:induction false} SortedListsAgree<V>(ka: seq<int>, va: seq<V>, ja: seq<Json>, kb: seq<int>, vb: seq<V>, jb: seq<Json>)
    requires |ka| == |va| == |ja| && |kb| == |vb| == |jb| && Distinct(ka) && Distinct(kb)
    requires Writes(ka, va, ja, kb, vb, jb)
    ensures Permute(ja, Order(ka)) == Permute(jb, Order(kb)) <==> ByKey(ka, va) == ByKey(kb, vb)
  {
    hide Writes;
    var oa, ob := Order(ka), Order(kb);
    ByKeyIgnoresOrder(ka, va);
    ByKeyIgnoresOrder(kb, vb);
    PermuteSorts(ka, ka);
    PermuteSorts(kb, kb);
    PermutedListsAgree(ka, va, ja, oa, kb, vb, jb, ob);
    if ByKey(ka, va) == ByKey(kb, vb) {
      AscendingByKeyIsUnique(Permute(ka, oa), Permute(va, oa), Permute(kb, ob), Permute(vb, ob));
    }
  }

  lemma BlockFields(x: Block)
    ensures var f := BlockJson(x).fields;
      && "kind" in f && f["kind"] == Str(x.row.body.kind)
      && "position" in f && f["position"] == Int(x.row.position)
      && "document" in f && f["document"] == x.row.body.document
  {}

  lemma BlocksAgree(a: Block, b: Block)
    ensures BlockJson(a) == BlockJson(b) <==> a.row.position == b.row.position && a.row.body == b.row.body
  {
    BlockFields(a);
    BlockFields(b);
    if BlockJson(a) == BlockJson(b) {
      hide BlockJson;
      assert a.row.body.kind == b.row.body.kind;
    }
  }

  lemma SortedBlockList(xs: seq<Block>)
    ensures BlockList(SortBlocks(xs)) == Permute(BlockList(xs), Order(Positions(xs)))
  {
    var order := Order(Positions(xs));
    assert forall i | 0 <= i < |order| :: BlockList(SortBlocks(xs))[i] == BlockList(xs)[order[i]];
  }

  lemma BlockListsAgree(a: seq<Block>, b: seq<Block>)
    requires Distinct(Positions(a)) && Distinct(Positions(b))
    ensures BlockList(SortBlocks(a)) == BlockList(SortBlocks(b))
      <==> ByKey(Positions(a), BlockBodies(a)) == ByKey(Positions(b), BlockBodies(b))
  {
    hide ByKey, Order, Permute;
    var pa, pb, va, vb := Positions(a), Positions(b), BlockBodies(a), BlockBodies(b);
    forall i, j | 0 <= i < |a| && 0 <= j < |b|
      ensures BlockList(a)[i] == BlockList(b)[j] <==> (pa[i] == pb[j] && va[i] == vb[j])
    {
      BlocksAgree(a[i], b[j]);
    }
    SortedListsAgree(pa, va, BlockList(a), pb, vb, BlockList(b));
    SortedBlockList(a);
    SortedBlockList(b);
  }

  lemma LessonFields(x: Lesson)
    ensures var f := LessonJson(x).fields;
      && "title" in f && f["title"] == Str(x.entry.row.body.title)
      && "position" in f && f["position"] == Int(x.entry.row.position)
      && "is_required" in f && f["is_required"] == Bool(x.entry.row.body.isRequired)
      && "content_blocks" in f && f["content_blocks"] == Arr(BlockList(SortBlocks(x.blocks)))
  {
    hide BlockList, SortBlocks;
  }

  /** Lessons are written alike when what is written is alike. */
  lemma LessonsWrittenAlike(a: Lesson, b: Lesson)
    requires a.entry.row.position == b.entry.row.position && a.entry.row.body == b.entry.row.body
    requires BlockList(SortBlocks(a.blocks)) == BlockList(SortBlocks(b.blocks))
    ensures LessonJson(a) == LessonJson(b)
  {
    hide BlockList, SortBlocks;
  }

  lemma LessonsAgree(a: Lesson, b: Lesson)
    requires LessonHasPositions(a) && LessonHasPositions(b)
    ensures LessonJson(a) == LessonJson(b)
      <==> a.entry.row.position == b.entry.row.position && MeaningOfLesson(a) == MeaningOfLesson(b)
  {
    hide LessonJson, BlockList, SortBlocks, ByKey, BlockBodies, Positions;
    BlockListsAgree(a.blocks, b.blocks);
    LessonFields(a);
    LessonFields(b);
    if a.entry.row.position == b.entry.row.position && MeaningOfLesson(a) == MeaningOfLesson(b) { LessonsWrittenAlike(a, b); }
  }

  lemma SortedLessonList(xs: seq<Lesson>)
    ensures LessonList(SortLessons(xs)) == Permute(LessonList(xs), Order(Positions(LessonEntries(xs))))
  {
    var order := Order(Positions(LessonEntries(xs)));
    assert forall i | 0 <= i < |order| :: LessonList(SortLessons(xs))[i] == LessonList(xs)[order[i]];
  }

  lemma LessonListsAgree(a: seq<Lesson>, b: seq<Lesson>)
    requires Distinct(Positions(LessonEntries(a))) && Distinct(Positions(LessonEntries(b)))
    requires forall l | l in a :: LessonHasPositions(l)
    requires forall l | l in b :: LessonHasPositions(l)
    ensures LessonList(SortLessons(a)) == LessonList(SortLessons(b))
      <==> ByKey(Positions(LessonEntries(a)), MeaningsOfLessons(a)) == ByKey(Positions(LessonEntries(b)), MeaningsOfLessons(b))
  {
    hide ByKey, Order, Permute;
    var pa, pb, va, vb := Positions(LessonEntries(a)), Positions(LessonEntries(b)), MeaningsOfLessons(a), MeaningsOfLessons(b);
    forall i, j | 0 <= i < |a| && 0 <= j < |b|
      ensures LessonList(a)[i] == LessonList(b)[j] <==> (pa[i] == pb[j] && va[i] == vb[j])
    {
      LessonsAgree(a[i], b[j]);
    }
    SortedListsAgree(pa, va, LessonList(a), pb, vb, LessonList(b));
    SortedLessonList(a);
    SortedLessonList(b);
  }

  lemma SectionFields(x: Section)
    ensures var f := SectionJson(x).fields;
      && "title" in f && f["title"] == Str(x.entry.row.body.title)
      && "position" in f && f["position"] == Int(x.entry.row.position)
      && "lessons" in f && f["lessons"] == Arr(LessonList(SortLessons(x.lessons)))
  {
    hide LessonList, SortLessons;
  }

  lemma SectionsWrittenAlike(a: Section, b: Section)
    requires a.entry.row.position == b.entry.row.position && a.entry.row.body == b.entry.row.body
    requires LessonList(SortLessons(a.lessons)) == LessonList(SortLessons(b.lessons))
    ensures SectionJson(a) == SectionJson(b)
  {
    hide LessonList, SortLessons;
  }

  lemma SectionsAgree(a: Section, b: Section)
    requires SectionHasPositions(a) && SectionHasPositions(b)
    ensures SectionJson(a) == SectionJson(b)
      <==> a.entry.row.position == b.entry.row.position && MeaningOfSection(a) == MeaningOfSection(b)
  {
    hide SectionJson, LessonList, SortLessons, ByKey, MeaningsOfLessons, Positions, LessonEntries;
    LessonListsAgree(a.lessons, b.lessons);
    SectionFields(a);
    SectionFields(b);
    if a.entry.row.position == b.entry.row.position && MeaningOfSection(a) == MeaningOfSection(b) { SectionsWrittenAlike(a, b); }
  }

  lemma SortedSectionList(xs: seq<Section>)
    ensures SectionList(SortSections(xs)) == Permute(SectionList(xs), Order(Positions(SectionEntries(xs))))
  {
    var order := Order(Positions(SectionEntries(xs)));
    assert forall i | 0 <= i < |order| :: SectionList(SortSections(xs))[i] == SectionList(xs)[order[i]];
  }

  lemma SectionListsAgree(a: seq<Section>, b: seq<Section>)
    requires HasPositions(a) && HasPositions(b)
    ensures SectionList(SortSections(a)) == SectionList(SortSections(b)) <==> Meaning(a) == Meaning(b)
  {
    hide ByKey, Order, Permute;
    var pa, pb, va, vb := Positions(SectionEntries(a)), Positions(SectionEntries(b)), MeaningsOfSections(a), MeaningsOfSections(b);
    forall i, j | 0 <= i < |a| && 0 <= j < |b|
      ensures SectionList(a)[i] == SectionList(b)[j] <==> (pa[i] == pb[j] && va[i] == vb[j])
    {
      SectionsAgree(a[i], b[j]);
    }
    SortedListsAgree(pa, va, SectionList(a), pb, vb, SectionList(b));
    SortedSectionList(a);
    SortedSectionList(b);
  }

  lemma ProjectionFields(meta: Metadata, tree: seq<Section>)
    ensures var f := Projection(meta, tree).fields;
      && "primary_locale" in f && f["primary_locale"] == Str(meta.primaryLocale)
      && "title" in f && f["title"] == Str(meta.title)
      && "description" in f && f["description"] == Str(meta.description)
      && "sections" in f && f["sections"] == Arr(SectionList(SortSections(tree)))
  {
    hide SectionList, SortSections;
  }

  lemma ProjectionsWrittenAlike(meta: Metadata, a: seq<Section>, b: seq<Section>)
    requires SectionList(SortSections(a)) == SectionList(SortSections(b))
    ensures Projection(meta, a) == Projection(meta, b)
  {
    hide SectionList, SortSections;
  }

  lemma ProjectionsAgree(ma: Metadata, a: seq<Section>, mb: Metadata, b: seq<Section>)
    requires HasPositions(a) && HasPositions(b)
    ensures Projection(ma, a) == Projection(mb, b) <==> ma == mb && Meaning(a) == Meaning(b)
  {
    hide Projection, Meaning, SectionList, SortSections, HasPositions;
    SectionListsAgree(a, b);
    ProjectionFields(ma, a);
    ProjectionFields(mb, b);
    if ma == mb && Meaning(a) == Meaning(b) { ProjectionsWrittenAlike(ma, a, b); }
  }

  /* ---------- canonical text and hash ---------- */

  predicate LessonIsHashable(l: Lesson) {
    forall b | b in l.blocks :: InF002Subset(b.row.body.document)
  }

  predicate SectionIsHashable(s: Section) {
    forall l | l in s.lessons :: LessonIsHashable(l)
  }

  predicate HasHashableDocuments(tree: seq<Section>) {
    forall s | s in tree :: SectionIsHashable(s)
  }

  lemma BlockInSubset(b: Block)
    requires InF002Subset(b.row.body.document)
    ensures InF002Subset(BlockJson(b))
  {
    var fields := BlockJson(b).fields;
    assert forall k | k in fields :: k == "kind" || k == "position" || k == "document";
  }

  lemma LessonInSubset(l: Lesson)
    requires LessonIsHashable(l)
    ensures InF002Subset(LessonJson(l))
  {
    var items := BlockList(SortBlocks(l.blocks));
    forall x | x in items ensures InF002Subset(x) {
      var i :| 0 <= i < |items| && items[i] == x;
      BlockInSubset(SortBlocks(l.blocks)[i]);
    }
  }

  lemma SectionInSubset(s: Section)
    requires SectionIsHashable(s)
    ensures InF002Subset(SectionJson(s))
  {
    var items := LessonList(SortLessons(s.lessons));
    forall x | x in items ensures InF002Subset(x) {
      var i :| 0 <= i < |items| && items[i] == x;
      assert SortLessons(s.lessons)[i] in s.lessons;
      LessonInSubset(SortLessons(s.lessons)[i]);
    }
  }

  lemma ProjectionInSubset(meta: Metadata, tree: seq<Section>)
    requires HasHashableDocuments(tree)
    ensures InF002Subset(Projection(meta, tree))
  {
    var items := SectionList(SortSections(tree));
    forall x | x in items ensures InF002Subset(x) {
      var i :| 0 <= i < |items| && items[i] == x;
      assert SortSections(tree)[i] in tree;
      SectionInSubset(SortSections(tree)[i]);
    }
  }

  /** Two snapshots have the same canonical bytes exactly when they say the same. */
  lemma SameTextSameContent(ma: Metadata, a: seq<Section>, mb: Metadata, b: seq<Section>)
    requires HasPositions(a) && HasPositions(b) && HasHashableDocuments(a) && HasHashableDocuments(b)
    ensures CanonicalText(Projection(ma, a)) == CanonicalText(Projection(mb, b)) <==> ma == mb && Meaning(a) == Meaning(b)
  {
    ProjectionInSubset(ma, a);
    ProjectionInSubset(mb, b);
    ProjectionsAgree(ma, a, mb, b);
    if CanonicalText(Projection(ma, a)) == CanonicalText(Projection(mb, b)) {
      CanonicalTextIsInjective(Projection(ma, a), Projection(mb, b));
    }
  }

  /** `canonical_content_hash`, over whatever digest `sha` is. */
  ghost function ContentHash(sha: string -> string, meta: Metadata, tree: seq<Section>): string
    requires HasHashableDocuments(tree)
  {
    ProjectionInSubset(meta, tree);
    "sha256:" + sha(CanonicalText(Projection(meta, tree)).value)
  }

  /** The texts of two snapshots do not collide under `sha`. */
  ghost predicate AreSeparated(sha: string -> string, a: Result<string, JsonError>, b: Result<string, JsonError>) {
    a.Ok? && b.Ok? && (sha(a.value) == sha(b.value) ==> a.value == b.value)
  }

  /** The hash depends on nothing but metadata and meaning, and when `sha` separates the two texts it separates the contents. */
  lemma HashIdentifiesContent(sha: string -> string, ma: Metadata, a: seq<Section>, mb: Metadata, b: seq<Section>)
    requires HasPositions(a) && HasPositions(b) && HasHashableDocuments(a) && HasHashableDocuments(b)
    ensures ma == mb && Meaning(a) == Meaning(b) ==> ContentHash(sha, ma, a) == ContentHash(sha, mb, b)
    ensures AreSeparated(sha, CanonicalText(Projection(ma, a)), CanonicalText(Projection(mb, b)))
      <==> (ContentHash(sha, ma, a) == ContentHash(sha, mb, b) ==> ma == mb && Meaning(a) == Meaning(b))
  {
    hide Projection, Meaning, HasPositions, HasHashableDocuments;
    ProjectionInSubset(ma, a);
    ProjectionInSubset(mb, b);
    SameTextSameContent(ma, a, mb, b);
    HashOfText(sha, ma, a);
    HashOfText(sha, mb, b);
  }

  lemma HashOfText(sha: string -> string, meta: Metadata, tree: seq<Section>)
    requires HasHashableDocuments(tree)
    ensures CanonicalText(Projection(meta, tree)).Ok?
    ensures ContentHash(sha, meta, tree)[7..] == sha(CanonicalText(Projection(meta, tree)).value)
    ensures ContentHash(sha, meta, tree) == "sha256:" + ContentHash(sha, meta, tree)[7..]
  {
    ProjectionInSubset(meta, tree);
  }
}

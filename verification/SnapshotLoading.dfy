/** `load_snapshot`: ordered query answers grouped by parent and assembled into the tree they stand for. */
module SnapshotLoading {
  import opened Prelude
  import opened CourseTree
  import opened CurriculumTable
  import opened CourseRepository
  import opened CurriculumRefinement

  /** `order_by(parent, "position", "id")` */
  predicate ListedBefore<T>(a: Entry<T>, b: Entry<T>) {
    a.row.parent < b.row.parent
    || (a.row.parent == b.row.parent && (a.row.position < b.row.position || (a.row.position == b.row.position && a.id < b.id)))
  }

  predicate InListingOrder<T>(listing: seq<Entry<T>>) {
    forall i, j :: 0 <= i < j < |listing| ==> ListedBefore(listing[i], listing[j])
  }

  /** The answer of a query for the rows of a version. */
  ghost predicate IsListing<T>(rows: Rows<T>, v: Id, listing: seq<Entry<T>>) {
    && InListingOrder(listing)
    && (forall e | e in listing :: e.id in rows && rows[e.id] == e.row && e.row.version == v)
    && (forall k | k in rows && rows[k].version == v :: Entry(k, rows[k]) in listing)
  }

  datatype Listings = Listings(sections: seq<Entry<SectionBody>>, lessons: seq<Entry<LessonBody>>, blocks: seq<Block>)

  ghost predicate AreListings(t: Tables, v: Id, l: Listings) {
    IsListing(t.sections, v, l.sections) && IsListing(t.lessons, v, l.lessons) && IsListing(t.blocks, v, l.blocks)
  }

  /** The entries of a listing under one parent, in its order. */
  function Under<T>(listing: seq<Entry<T>>, parent: Id): seq<Entry<T>> {
    if listing == [] then []
    else
      var last := listing[|listing| - 1];
      Under(listing[..|listing| - 1], parent) + (if last.row.parent == parent then [last] else [])
  }

  lemma {:induction false} UnderHolds<T>(listing: seq<Entry<T>>, parent: Id, e: Entry<T>)
    ensures e in Under(listing, parent) <==> e in listing && e.row.parent == parent
  {
    if listing != [] {
      var n := |listing| - 1;
      UnderHolds(listing[..n], parent, e);
      assert listing == listing[..n] + [listing[n]];
    }
  }

  lemma {:induction false} UnderKeepsOrder<T>(listing: seq<Entry<T>>, parent: Id)
    requires InListingOrder(listing)
    ensures InListingOrder(Under(listing, parent))
  {
    if listing != [] {
      var n := |listing| - 1;
      UnderKeepsOrder(listing[..n], parent);
      var before := Under(listing[..n], parent);
      forall i | 0 <= i < |before| ensures ListedBefore(before[i], listing[n]) {
        UnderHolds(listing[..n], parent, before[i]);
        var m :| 0 <= m < n && listing[..n][m] == before[i];
      }
    }
  }

  /** What the listing holds under a parent is the list of that parent's rows. */
  lemma UnderLists<T>(rows: Rows<T>, v: Id, listing: seq<Entry<T>>, parent: Id)
    requires UniqueSiblings(rows) && IsListing(rows, v, listing)
    requires forall k | k in rows && rows[k].parent == parent :: rows[k].version == v
    ensures Lists(rows, parent, Under(listing, parent))
  {
    var us := Under(listing, parent);
    UnderKeepsOrder(listing, parent);
    forall e | e in us ensures e in listing && e.row.parent == parent { UnderHolds(listing, parent, e); }
    forall k | k in rows && rows[k].parent == parent ensures Entry(k, rows[k]) in us { UnderHolds(listing, parent, Entry(k, rows[k])); }
    forall i, j | 0 <= i < j < |us| ensures us[i].row.position < us[j].row.position {
      assert us[i] in us && us[j] in us && ListedBefore(us[i], us[j]);
    }
  }

  /** `rows.setdefault(item.parent, []).append(item)` over a listing. */
  method GroupByParent<T>(listing: seq<Entry<T>>) returns (groups: map<Id, seq<Entry<T>>>)
    ensures forall p: Id :: Under(listing, p) == if p in groups then groups[p] else []
  {
    groups := map[];
    for n := 0 to |listing|
      invariant forall p: Id :: Under(listing[..n], p) == if p in groups then groups[p] else []
    {
      var e := listing[n];
      assert listing[..n + 1][..n] == listing[..n];
      var so := if e.row.parent in groups then groups[e.row.parent] else [];
      groups := groups[e.row.parent := so + [e]];
    }
    assert listing[..|listing|] == listing;
  }

  method LoadSnapshot(t: Tables, v: Id, listings: Listings) returns (tree: seq<Section>)
    requires Integrity(t) && AreListings(t, v, listings)
    ensures Represents(t, v, tree)
  {
    hide Integrity, Under, Lists, IsListing;
    var lessonRows := GroupByParent(listings.lessons);
    var blockRows := GroupByParent(listings.blocks);
    tree := [];
    for i := 0 to |listings.sections|
      invariant SectionEntries(tree) == listings.sections[..i]
      invariant forall s | s in tree :: LessonEntries(s.lessons) == Under(listings.lessons, s.entry.id)
      invariant forall s, l | s in tree && l in s.lessons :: l.blocks == Under(listings.blocks, l.entry.id)
    {
      var section := listings.sections[i];
      var here := if section.id in lessonRows then lessonRows[section.id] else [];
      var lessons: seq<Lesson> := [];
      for j := 0 to |here|
        invariant LessonEntries(lessons) == here[..j]
        invariant forall l | l in lessons :: l.blocks == Under(listings.blocks, l.entry.id)
      {
        lessons := lessons + [Lesson(here[j], if here[j].id in blockRows then blockRows[here[j].id] else [])];
      }
      tree := tree + [Section(section, lessons)];
    }
    assert SectionEntries(tree) == listings.sections;
    LoadedRepresents(t, v, listings, tree);
  }

  lemma LoadedRepresents(t: Tables, v: Id, listings: Listings, tree: seq<Section>)
    requires Integrity(t) && AreListings(t, v, listings)
    requires SectionEntries(tree) == listings.sections
    requires forall s | s in tree :: LessonEntries(s.lessons) == Under(listings.lessons, s.entry.id)
    requires forall s, l | s in tree && l in s.lessons :: l.blocks == Under(listings.blocks, l.entry.id)
    ensures Represents(t, v, tree)
  {
    hide Under, Lists;
    SectionsLoaded(t, v, listings.sections);
    forall s | s in tree ensures Lists(t.lessons, s.entry.id, LessonEntries(s.lessons)) {
      SectionIsStored(t, v, listings, tree, s);
      UnderLists(t.lessons, v, listings.lessons, s.entry.id);
    }
    forall s, l | s in tree && l in s.lessons ensures Lists(t.blocks, l.entry.id, l.blocks) {
      LessonIsStored(t, v, listings, s, l);
      UnderLists(t.blocks, v, listings.blocks, l.entry.id);
    }
  }

  lemma SectionIsStored(t: Tables, v: Id, listings: Listings, tree: seq<Section>, s: Section)
    requires IsListing(t.sections, v, listings.sections) && SectionEntries(tree) == listings.sections && s in tree
    ensures s.entry.id in t.sections && t.sections[s.entry.id].version == v
  {
    var i :| 0 <= i < |tree| && tree[i] == s;
    assert SectionEntries(tree)[i] in listings.sections;
  }

  lemma LessonIsStored(t: Tables, v: Id, listings: Listings, s: Section, l: Lesson)
    requires IsListing(t.lessons, v, listings.lessons) && LessonEntries(s.lessons) == Under(listings.lessons, s.entry.id) && l in s.lessons
    ensures l.entry.id in t.lessons && t.lessons[l.entry.id].version == v
  {
    var j :| 0 <= j < |s.lessons| && s.lessons[j] == l;
    assert LessonEntries(s.lessons)[j] == l.entry;
    UnderHolds(listings.lessons, s.entry.id, l.entry);
  }

  /** Sections have one parent, the version, so the whole listing is their list. */
  lemma SectionsLoaded(t: Tables, v: Id, listing: seq<Entry<SectionBody>>)
    requires Integrity(t) && IsListing(t.sections, v, listing)
    ensures Lists(t.sections, v, listing)
  {
    forall i, j | 0 <= i < j < |listing| ensures listing[i].row.position < listing[j].row.position {
      assert listing[i] in listing && listing[j] in listing && ListedBefore(listing[i], listing[j]);
    }
  }
}

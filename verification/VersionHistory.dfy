/** The version history of a course, read page by page while successor drafts may be added. */
module VersionHistory {
  import opened Prelude
  import opened CourseTree
  import opened CourseVersions
  import opened CourseInvariants
  import opened CourseHistory

  /** What a cursor carries, and what orders the history. */
  datatype Key = Key(number: int, id: Id)

  predicate Older(a: Key, b: Key) {
    a.number < b.number || (a.number == b.number && a.id < b.id)
  }

  /** The rows in order of creation. */
  predicate IsTable(rows: seq<Key>) {
    forall i, j :: 0 <= i < j < |rows| ==> Older(rows[i], rows[j])
  }

  function Reverse<T>(xs: seq<T>): (r: seq<T>)
    ensures |r| == |xs| && forall i :: 0 <= i < |r| ==> r[i] == xs[|xs| - 1 - i]
  {
    seq(|xs|, i requires 0 <= i < |xs| => xs[|xs| - 1 - i])
  }

  /** The filter of the query: the rows before the cursor. */
  function Before(rows: seq<Key>, cursor: Option<Key>): seq<Key> {
    if rows == [] then []
    else
      var last := rows[|rows| - 1];
      Before(rows[..|rows| - 1], cursor) + (if cursor.None? || Older(last, cursor.value) then [last] else [])
  }

  datatype PageResult = PageOf(page: seq<Key>, next: Option<Key>) | LimitRefused

  /** `list_version_summaries`: one row more than asked for tells whether there is a further page. */
  method ListVersionSummaries(rows: seq<Key>, limit: int, cursor: Option<Key>) returns (r: PageResult)
    ensures r == Page(rows, limit, cursor)
  {
    if limit < 1 || limit > 100 { return LimitRefused; }
    var query := Reverse(Before(rows, cursor));
    var versions := if |query| > limit + 1 then query[..limit + 1] else query;
    var hasMore := |versions| > limit;
    var page := if hasMore then versions[..limit] else versions;
    var next := None;
    if hasMore {
      next := Some(page[|page| - 1]);
    }
    r := PageOf(page, next);
  }

  function Page(rows: seq<Key>, limit: int, cursor: Option<Key>): PageResult {
    if limit < 1 || limit > 100 then LimitRefused
    else
      var query := Reverse(Before(rows, cursor));
      if |query| > limit then PageOf(query[..limit], Some(query[limit - 1])) else PageOf(query, None)
  }

  /** The table at each request: rows are only ever added, each newer than all before it. */
  ghost predicate IsHistory(tables: nat -> seq<Key>) {
    (forall i: nat :: IsTable(tables(i))) && (forall i: nat, j: nat :: i <= j ==> tables(i) <= tables(j))
  }

  lemma {:induction false} NoCursor(rows: seq<Key>)
    ensures Before(rows, None) == rows
  {
    if rows != [] { NoCursor(rows[..|rows| - 1]); }
  }

  /** Whatever was added since, the rows before a row of the table are those created before it. */
  lemma {:induction false} BeforeRow(rows: seq<Key>, p: nat)
    requires IsTable(rows) && p < |rows|
    ensures Before(rows, Some(rows[p])) == rows[..p]
  {
    var last := |rows| - 1;
    if p < last {
      BeforeRow(rows[..last], p);
      assert rows[..last][..p] == rows[..p];
    } else {
      AllBefore(rows[..last], rows[last]);
    }
  }

  lemma {:induction false} AllBefore(rows: seq<Key>, cursor: Key)
    requires forall k :: 0 <= k < |rows| ==> Older(rows[k], cursor)
    ensures Before(rows, Some(cursor)) == rows
  {
    hide Older;
    if rows != [] { AllBefore(rows[..|rows| - 1], cursor); }
  }

  ghost predicate Follows(tables: nat -> seq<Key>, i: nat, cursor: Option<Key>) {
    cursor.Some? ==> cursor.value in tables(i)
  }

  /** Everything a client lists that starts at page `i` and follows the cursors to the end. */
  ghost function Listed(tables: nat -> seq<Key>, limits: nat -> int, i: nat, cursor: Option<Key>): seq<Key>
    requires IsHistory(tables) && (forall n: nat :: 1 <= limits(n) <= 100) && Follows(tables, i, cursor)
    decreases |Before(tables(i), cursor)|
  {
    var r := Page(tables(i), limits(i), cursor);
    if r.next.None? then r.page
    else
      NextPageIsSmaller(tables, limits, i, cursor);
      r.page + Listed(tables, limits, i + 1, r.next)
  }

  /** The rows before a cursor, as an index into the table. */
  lemma CursorIndex(rows: seq<Key>, cursor: Option<Key>) returns (p: nat)
    requires IsTable(rows) && (cursor.Some? ==> cursor.value in rows)
    ensures p <= |rows| && Before(rows, cursor) == rows[..p]
    ensures cursor.Some? ==> p < |rows| && rows[p] == cursor.value
  {
    if cursor.None? {
      p := |rows|;
      NoCursor(rows);
      assert rows[..p] == rows;
    } else {
      p :| 0 <= p < |rows| && rows[p] == cursor.value;
      BeforeRow(rows, p);
    }
  }

  lemma PageOfPrefix(rows: seq<Key>, limit: int, cursor: Option<Key>, p: nat)
    requires p <= |rows| && Before(rows, cursor) == rows[..p] && 1 <= limit <= 100
    ensures Page(rows, limit, cursor) ==
      if p > limit then PageOf(Reverse(rows[p - limit..p]), Some(rows[p - limit])) else PageOf(Reverse(rows[..p]), None)
  {
    hide Before;
    if p > limit { assert Reverse(rows[..p])[..limit] == Reverse(rows[p - limit..p]); }
  }

  /** The next page starts where this one ended, in the larger table too. */
  lemma NextPageIsSmaller(tables: nat -> seq<Key>, limits: nat -> int, i: nat, cursor: Option<Key>)
    requires IsHistory(tables) && 1 <= limits(i) <= 100 && Follows(tables, i, cursor)
    requires Page(tables(i), limits(i), cursor).next.Some?
    ensures var r := Page(tables(i), limits(i), cursor);
      && Follows(tables, i + 1, r.next)
      && |Before(tables(i + 1), r.next)| < |Before(tables(i), cursor)|
      && Reverse(Before(tables(i), cursor)) == r.page + Reverse(Before(tables(i + 1), r.next))
  {
    hide Before, Page, IsTable;
    var rows, more := tables(i), tables(i + 1);
    var p := CursorIndex(rows, cursor);
    PageOfPrefix(rows, limits(i), cursor, p);
    var q := p - limits(i);
    assert rows <= more && more[q] == rows[q] && more[..q] == rows[..q];
    BeforeRow(more, q);
    assert rows[..p] == rows[..q] + rows[q..p];
    ReverseConcat(rows[..q], rows[q..p]);
  }

  lemma ReverseConcat<T>(a: seq<T>, b: seq<T>)
    ensures Reverse(a + b) == Reverse(b) + Reverse(a)
  {}

  lemma OnlyPage(rows: seq<Key>, limit: int, cursor: Option<Key>)
    requires 1 <= limit <= 100 && Page(rows, limit, cursor).next.None?
    ensures Page(rows, limit, cursor).page == Reverse(Before(rows, cursor))
  {}

  lemma {:induction false} ListedFrom(tables: nat -> seq<Key>, limits: nat -> int, i: nat, cursor: Option<Key>)
    requires IsHistory(tables) && (forall n: nat :: 1 <= limits(n) <= 100) && Follows(tables, i, cursor)
    ensures Listed(tables, limits, i, cursor) == Reverse(Before(tables(i), cursor))
    decreases |Before(tables(i), cursor)|
  {
    hide Before, IsHistory;
    var r := Page(tables(i), limits(i), cursor);
    if r.next.Some? {
      NextPageIsSmaller(tables, limits, i, cursor);
      ListedFrom(tables, limits, i + 1, r.next);
    } else {
      OnlyPage(tables(i), limits(i), cursor);
    }
  }

  /** Following the cursors to the end lists every version that existed at the first page exactly once, newest first,
      whatever the page sizes and whatever drafts were added in between. */
  lemma FollowingListsEverything(tables: nat -> seq<Key>, limits: nat -> int)
    requires IsHistory(tables) && forall n: nat :: 1 <= limits(n) <= 100
    ensures var listed := Listed(tables, limits, 0, None);
      && listed == Reverse(tables(0))
      && (forall i, j :: 0 <= i < j < |listed| ==> Older(listed[j], listed[i]))
      && (forall r :: r in listed <==> r in tables(0))
  {
    hide Listed, Before, IsTable;
    ListedFrom(tables, limits, 0, None);
    NoCursor(tables(0));
    NewestFirst(tables(0));
  }

  lemma NewestFirst(rows: seq<Key>)
    requires IsTable(rows)
    ensures var listed := Reverse(rows);
      (forall i, j :: 0 <= i < j < |listed| ==> Older(listed[j], listed[i])) && (forall r :: r in listed <==> r in rows)
  {
    hide Older;
    var listed := Reverse(rows);
    forall r ensures r in listed <==> r in rows {
      if r in rows {
        var k :| 0 <= k < |rows| && rows[k] == r;
        assert listed[|rows| - 1 - k] == r;
      }
    }
  }

  /* ---------- the tables that course commands produce ---------- */

  /** The rows of a course, each version under the id it was created with. */
  function TableOf(s: State, ids: nat -> Id): (rows: seq<Key>)
    ensures |rows| == |s.versions| && forall k :: 0 <= k < |rows| ==> rows[k] == Key(s.versions[k].number, ids(k))
  {
    seq(|s.versions|, k requires 0 <= k < |s.versions| => Key(s.versions[k].number, ids(k)))
  }

  lemma ChainIsTable(s: State, ids: nat -> Id)
    requires IsChain(s)
    ensures IsTable(TableOf(s, ids))
  {}

  lemma TablesGrow(site: Site, s: State, more: seq<Input>, ids: nat -> Id)
    requires IsChain(s) && IsChain(Run(site, s, more))
    ensures TableOf(s, ids) <= TableOf(Run(site, s, more), ids)
  {
    hide Next, Run;
    VersionsGrow(site, s, more);
    PrefixTables(s, Run(site, s, more), ids);
  }

  lemma PrefixTables(a: State, b: State, ids: nat -> Id)
    requires IsChain(a) && IsChain(b) && |a.versions| <= |b.versions|
    ensures TableOf(a, ids) <= TableOf(b, ids)
  {
    var x, y := TableOf(a, ids), TableOf(b, ids);
    forall k | 0 <= k < |x| ensures x[k] == y[k] {
      assert a.versions[k].number == k + 1 && b.versions[k].number == k + 1;
    }
    assert y[..|x|] == x;
  }

  function TableAfter(site: Site, start: State, inputs: seq<Input>, ids: nat -> Id): seq<Key> {
    TableOf(Run(site, start, inputs), ids)
  }

  /** The successive tables of any run of commands are such a history. */
  lemma RunsAreHistories(site: Site, policy: ReviewerPolicy, origin: Origin, content: Content, inputs: nat -> seq<Input>, ids: nat -> Id)
    requires forall i: nat, j: nat :: i <= j ==> inputs(i) <= inputs(j)
    ensures IsHistory((i: nat) => TableAfter(site, Created(site, policy, origin, content), inputs(i), ids))
  {
    hide Next, Created, Run, TableOf, Inv, IsChain, IsTable;
    var start := Created(site, policy, origin, content);
    forall i: nat ensures IsTable(TableAfter(site, start, inputs(i), ids)) {
      RunKeeps(site, policy, origin, content, inputs(i));
      InvIsChain(site, Run(site, start, inputs(i)));
      ChainIsTable(Run(site, start, inputs(i)), ids);
    }
    forall i: nat, j: nat | i <= j ensures TableAfter(site, start, inputs(i), ids) <= TableAfter(site, start, inputs(j), ids) {
      RunKeeps(site, policy, origin, content, inputs(i));
      RunKeeps(site, policy, origin, content, inputs(j));
      InvIsChain(site, Run(site, start, inputs(i)));
      InvIsChain(site, Run(site, start, inputs(j)));
      var more := inputs(j)[|inputs(i)|..];
      assert inputs(i) + more == inputs(j);
      RunsCompose(site, start, inputs(i), more);
      TablesGrow(site, Run(site, start, inputs(i)), more, ids);
    }
  }

  lemma InvIsChain(site: Site, s: State)
    requires Inv(site, s)
    ensures IsChain(s)
  {}
}

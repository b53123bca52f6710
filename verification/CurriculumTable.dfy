/** One curriculum table: its constraints, the position shift, and a list of row writes made one at a time. */
module CurriculumTable {
  import opened Prelude
  import opened CourseTree
  import opened CurriculumService

  const POSITION_OFFSET := 1_000_000
  /** The largest value of PostgreSQL's integer column behind `PositiveIntegerField`. */
  const MAX_POSITION := 2_147_483_647

  type Rows<T> = map<Id, Row<T>>

  /** A parent belongs to one version, and no two of its children share a position. */
  ghost predicate UniqueSiblings<T>(rows: Rows<T>) {
    forall k, m | k in rows && m in rows && k != m && rows[k].parent == rows[m].parent ::
      rows[k].version == rows[m].version && rows[k].position != rows[m].position
  }

  /** The check and unique constraints admit `row` at `id`. */
  predicate Clear<T>(rows: Rows<T>, id: Id, row: Row<T>) {
    && 1 <= row.position <= MAX_POSITION
    && forall k | k in rows && k != id :: rows[k].parent != row.parent || rows[k].position != row.position
  }

  function Up<T>(row: Row<T>): Row<T> {
    row.(position := row.position + POSITION_OFFSET)
  }

  /** Every row of the version, its position raised by the offset. */
  function Shifted<T>(rows: Rows<T>, v: Id): (r: Rows<T>)
    ensures r.Keys == rows.Keys
  {
    map k | k in rows :: if rows[k].version == v then Up(rows[k]) else rows[k]
  }

  /** One intended write: to the row that `identity` keeps, or to a new row `id`. */
  datatype Flat<+T> = Flat(id: Id, identity: Identity, parent: Id, position: int, body: T)

  predicate IsFlat<T>(f: Flat<T>) {
    f.identity.Kept? ==> f.id == f.identity.id
  }

  /** A kept row is one of the version's, under the same parent, at the row version the writer saw. */
  predicate Matches<T>(rows: Rows<T>, v: Id, f: Flat<T>) {
    match f.identity
    case New => true
    case Kept(id, expected) => id in rows && rows[id].version == v && rows[id].parent == f.parent && rows[id].rowVersion == expected
  }

  /** The row that a write leaves. */
  function Target<T(==)>(rows: Rows<T>, v: Id, f: Flat<T>): Row<T> {
    Row(v, f.parent, f.position, RowVersion(rows, f.identity, f.position, f.body), f.body)
  }

  ghost function Ids<T>(flats: seq<Flat<T>>): set<Id> {
    set f | f in flats :: f.id
  }

  /** The table after the shift and the given writes. */
  ghost function Written<T>(rows: Rows<T>, v: Id, flats: seq<Flat<T>>): Rows<T> {
    if flats == [] then Shifted(rows, v)
    else
      var last := flats[|flats| - 1];
      Written(rows, v, flats[..|flats| - 1])[last.id := Target(rows, v, last)]
  }

  /** What holds of every write list the command gives rise to: each row is written once, new rows have unused ids,
      and siblings have distinct positions. */
  ghost predicate Addresses<T>(rows: Rows<T>, flats: seq<Flat<T>>) {
    && (forall n, m :: 0 <= n < m < |flats| ==> flats[n].id != flats[m].id)
    && (forall n, m :: 0 <= n < m < |flats| && flats[n].parent == flats[m].parent ==> flats[n].position != flats[m].position)
    && (forall f | f in flats :: IsFlat(f) && (f.identity.New? ==> f.id !in rows))
  }

  lemma LastIsFlat<T>(rows: Rows<T>, before: seq<Flat<T>>, f: Flat<T>)
    requires Addresses(rows, before + [f])
    ensures IsFlat(f)
  {
    assert f in before + [f];
  }

  lemma WrittenOneMore<T>(rows: Rows<T>, v: Id, before: seq<Flat<T>>, f: Flat<T>)
    ensures Written(rows, v, before + [f]) == Written(rows, v, before)[f.id := Target(rows, v, f)]
  {
    assert (before + [f])[..|before|] == before;
  }

  lemma AddressesPrefix<T>(rows: Rows<T>, flats: seq<Flat<T>>, n: nat)
    requires Addresses(rows, flats) && n <= |flats|
    ensures Addresses(rows, flats[..n])
  {
    assert forall f | f in flats[..n] :: f in flats;
  }

  lemma {:induction false} WrittenAt<T>(rows: Rows<T>, v: Id, flats: seq<Flat<T>>, k: Id)
    ensures k in Written(rows, v, flats) <==> k in rows || k in Ids(flats)
    ensures k in rows && k !in Ids(flats) ==> Written(rows, v, flats)[k] == Shifted(rows, v)[k]
  {
    if flats != [] {
      var last := flats[|flats| - 1];
      WrittenAt(rows, v, flats[..|flats| - 1], k);
      assert flats == flats[..|flats| - 1] + [last];
      assert Ids(flats) == Ids(flats[..|flats| - 1]) + {last.id};
    }
  }

  lemma {:induction false} WrittenFlat<T>(rows: Rows<T>, v: Id, flats: seq<Flat<T>>, n: nat)
    requires Addresses(rows, flats) && n < |flats|
    ensures flats[n].id in Written(rows, v, flats) && Written(rows, v, flats)[flats[n].id] == Target(rows, v, flats[n])
  {
    var last := |flats| - 1;
    if n < last {
      AddressesPrefix(rows, flats, last);
      WrittenFlat(rows, v, flats[..last], n);
    }
  }

  /** No stored sibling that is still to be touched or dropped sits, shifted, where `f` goes. */
  ghost predicate Avoids<T>(rows: Rows<T>, v: Id, before: seq<Flat<T>>, f: Flat<T>) {
    && 1 <= f.position <= MAX_POSITION
    && forall k | k in rows && k != f.id && k !in Ids(before) ::
         rows[k].parent == f.parent ==> Shifted(rows, v)[k].position != f.position
  }

  /** The constraints admit the next write exactly when it avoids the untouched shifted rows. */
  lemma ClearMeansAvoids<T>(rows: Rows<T>, v: Id, before: seq<Flat<T>>, f: Flat<T>)
    requires Addresses(rows, before + [f])
    ensures Clear(Written(rows, v, before), f.id, Target(rows, v, f)) <==> Avoids(rows, v, before, f)
  {
    var now := Written(rows, v, before);
    var all := before + [f];
    assert all[|before|] == f;
    AddressesPrefix(rows, all, |before|);
    assert all[..|before|] == before;
    forall k | k in now && k != f.id
      ensures now[k].parent != f.parent || now[k].position != f.position
        <==> !(k in rows && k !in Ids(before) && rows[k].parent == f.parent && Shifted(rows, v)[k].position == f.position)
    {
      WrittenAt(rows, v, before, k);
      if k in Ids(before) {
        var g :| g in before && g.id == k;
        var n :| 0 <= n < |before| && before[n] == g;
        WrittenFlat(rows, v, before, n);
        assert all[n] == g;
      } else {
        assert f in all;
      }
    }
    forall k | k in rows ensures k in now { WrittenAt(rows, v, before, k); }
  }

  /** Every write of the list finds its row and is admitted. */
  ghost predicate Passes<T>(rows: Rows<T>, v: Id, flats: seq<Flat<T>>) {
    forall n :: 0 <= n < |flats| ==> Matches(rows, v, flats[n]) && Avoids(rows, v, flats[..n], flats[n])
  }

  lemma PassesOneMore<T>(rows: Rows<T>, v: Id, before: seq<Flat<T>>, f: Flat<T>)
    requires Passes(rows, v, before)
    ensures Passes(rows, v, before + [f]) <==> Matches(rows, v, f) && Avoids(rows, v, before, f)
  {
    var all := before + [f];
    assert all[..|before|] == before;
    assert forall n :: 0 <= n < |before| ==> all[n] == before[n] && all[..n] == before[..n];
  }

  lemma PassesPrefix<T>(rows: Rows<T>, v: Id, flats: seq<Flat<T>>, prefix: seq<Flat<T>>)
    requires Passes(rows, v, flats) && prefix <= flats
    ensures Passes(rows, v, prefix)
  {
    assert forall n :: 0 <= n < |prefix| ==> prefix[n] == flats[n] && prefix[..n] == flats[..n];
  }

  /** The rows that share a parent with a write belong to the version. */
  ghost predicate OwnParents<T>(rows: Rows<T>, v: Id, flats: seq<Flat<T>>) {
    forall f, k | f in flats && k in rows && rows[k].parent == f.parent :: rows[k].version == v
  }

  /** Positions no larger than the offset never clash, in the shift or in any write. */
  predicate SmallPositions<T>(rows: Rows<T>, v: Id) {
    forall k | k in rows && rows[k].version == v :: 1 <= rows[k].position <= POSITION_OFFSET
  }

  lemma SmallPositionsPass<T>(rows: Rows<T>, v: Id, flats: seq<Flat<T>>)
    requires SmallPositions(rows, v) && OwnParents(rows, v, flats)
    requires forall f | f in flats :: Matches(rows, v, f) && 1 <= f.position <= POSITION_OFFSET
    ensures Passes(rows, v, flats)
  {
    assert forall n :: 0 <= n < |flats| ==> flats[n] in flats;
  }

  /* ---------- the shift, row by row ---------- */

  /** The database updates the rows of the version one at a time, in an order of its own. */
  ghost predicate IsScan<T>(rows: Rows<T>, v: Id, order: seq<Id>) {
    && (forall i, j :: 0 <= i < j < |order| ==> order[i] != order[j])
    && (forall k :: k in order <==> k in rows && rows[k].version == v)
  }

  /** No row is raised to the place of a sibling that is raised later, nor past the column's range. */
  ghost predicate ShiftClear<T>(rows: Rows<T>, v: Id, order: seq<Id>)
    requires IsScan(rows, v, order)
  {
    && (forall k | k in order :: 1 <= rows[k].position + POSITION_OFFSET <= MAX_POSITION)
    && (forall i, j :: 0 <= i < j < |order| && rows[order[i]].parent == rows[order[j]].parent
          ==> rows[order[i]].position + POSITION_OFFSET != rows[order[j]].position)
  }

  lemma SmallPositionsShift<T>(rows: Rows<T>, v: Id, order: seq<Id>)
    requires IsScan(rows, v, order) && SmallPositions(rows, v)
    ensures ShiftClear(rows, v, order)
  {
    assert forall i :: 0 <= i < |order| ==> order[i] in order;
  }

  /** The rows after the first `n` of the scan have been raised. */
  ghost predicate RaisedSoFar<T>(original: Rows<T>, now: Rows<T>, order: seq<Id>, n: nat)
    requires n <= |order|
  {
    && now.Keys == original.Keys
    && forall k | k in original :: now[k] == if k in order[..n] then Up(original[k]) else original[k]
  }

  /** Raising row `order[n]` is admitted exactly when it does not land on a sibling raised later. */
  lemma RaiseIsClear<T>(original: Rows<T>, now: Rows<T>, v: Id, order: seq<Id>, n: nat)
    requires UniqueSiblings(original) && IsScan(original, v, order) && n < |order|
    requires RaisedSoFar(original, now, order, n)
    ensures order[n] in now && now[order[n]] == original[order[n]]
    ensures Clear(now, order[n], Up(now[order[n]])) <==>
      && 1 <= original[order[n]].position + POSITION_OFFSET <= MAX_POSITION
      && forall j :: n < j < |order| && original[order[n]].parent == original[order[j]].parent
           ==> original[order[n]].position + POSITION_OFFSET != original[order[j]].position
  {
    var id := order[n];
    assert id in order && id !in order[..n];
    if Clear(now, id, Up(now[id])) {
      forall j | n < j < |order| && original[id].parent == original[order[j]].parent
        ensures original[id].position + POSITION_OFFSET != original[order[j]].position
      {
        assert order[j] in order && order[j] !in order[..n];
      }
    }
    if forall j :: n < j < |order| && original[id].parent == original[order[j]].parent
         ==> original[id].position + POSITION_OFFSET != original[order[j]].position {
      assert forall m | 0 <= m < n :: order[..n][m] == order[m] && order[m] in order[..n];
      forall k | k in now && k != id ensures now[k].parent != original[id].parent || now[k].position != original[id].position + POSITION_OFFSET {
        if k in original && original[k].parent == original[id].parent && k !in order[..n] {
          assert original[k].version == v && k in order;
          var j :| 0 <= j < |order| && order[j] == k;
        }
      }
    }
  }

  datatype PersistenceError = Conflict | RefusedByDatabase

  class Table<T(==)> {
    var rows: Rows<T>

    constructor (initial: Rows<T>)
      ensures rows == initial
    {
      rows := initial;
    }

    /** One UPDATE or INSERT of one row. */
    method Write(id: Id, row: Row<T>) returns (ok: bool)
      modifies this
      ensures ok == Clear(old(rows), id, row)
      ensures rows == if ok then old(rows)[id := row] else old(rows)
    {
      ok := 1 <= row.position <= MAX_POSITION
        && forall k | k in rows && k != id :: rows[k].parent != row.parent || rows[k].position != row.position;
      if ok { rows := rows[id := row]; }
    }

    /** `.update(position=F("position") + POSITION_OFFSET)` */
    method Shift(v: Id, order: seq<Id>) returns (ok: bool)
      requires UniqueSiblings(rows) && IsScan(rows, v, order)
      modifies this
      ensures ok == ShiftClear(old(rows), v, order)
      ensures ok ==> rows == Shifted(old(rows), v)
    {
      ghost var original := rows;
      for n := 0 to |order|
        invariant RaisedSoFar(original, rows, order, n)
        invariant forall i :: 0 <= i < n ==> 1 <= original[order[i]].position + POSITION_OFFSET <= MAX_POSITION
        invariant forall i, j :: 0 <= i < n && i < j < |order| && original[order[i]].parent == original[order[j]].parent ==>
                                   original[order[i]].position + POSITION_OFFSET != original[order[j]].position
      {
        RaiseIsClear(original, rows, v, order, n);
        ghost var before := rows;
        ok := Write(order[n], Up(rows[order[n]]));
        if !ok {
          assert order[n] in order;
          return;
        }
        RaisedOneMore(original, before, rows, order, n);
      }
      ok := true;
      AllRaised(original, rows, v, order);
    }

    /** `.exclude(id__in=kept).delete()`, and the cascade to rows whose parent is gone. */
    method DeleteExcept(v: Id, kept: set<Id>)
      modifies this
      ensures rows == Retained(old(rows), v, kept)
    {
      rows := map k | k in rows && (rows[k].version != v || k in kept) :: rows[k];
    }

    method Cascade(parents: set<Id>)
      modifies this
      ensures rows == WithParents(old(rows), parents)
    {
      rows := map k | k in rows && rows[k].parent in parents :: rows[k];
    }

    /** The lookup, the comparison and the write of one node. */
    method Place(original: Rows<T>, v: Id, ghost before: seq<Flat<T>>, f: Flat<T>) returns (r: Option<PersistenceError>)
      requires Addresses(original, before + [f]) && Passes(original, v, before)
      requires rows == Written(original, v, before)
      modifies this
      ensures r.None? <==> Passes(original, v, before + [f])
      ensures r.None? ==> rows == Written(original, v, before + [f])
      ensures r == Some(Conflict) <==> !Matches(original, v, f)
    {
      hide Written, Passes, Avoids, Addresses, Clear;
      LastIsFlat(original, before, f);
      WrittenOneMore(original, v, before, f);
      PassesOneMore(original, v, before, f);
      ClearMeansAvoids(original, v, before, f);
      var rowVersion := 1;
      if f.identity.Kept? {
        if f.id !in original || original[f.id].version != v || original[f.id].parent != f.parent
          || original[f.id].rowVersion != f.identity.expectedRowVersion {
          return Some(Conflict);
        }
        var changed := original[f.id].position != f.position || original[f.id].body != f.body;
        rowVersion := original[f.id].rowVersion + (if changed then 1 else 0);
      }
      var ok := Write(f.id, Row(v, f.parent, f.position, rowVersion, f.body));
      r := if ok then None else Some(RefusedByDatabase);
    }
  }

  lemma RaisedOneMore<T>(original: Rows<T>, before: Rows<T>, now: Rows<T>, order: seq<Id>, n: nat)
    requires n < |order| && order[n] in original && order[n] !in order[..n] && RaisedSoFar(original, before, order, n)
    requires now == before[order[n] := Up(original[order[n]])]
    ensures RaisedSoFar(original, now, order, n + 1)
  {
    assert order[..n + 1] == order[..n] + [order[n]];
  }

  lemma AllRaised<T>(original: Rows<T>, now: Rows<T>, v: Id, order: seq<Id>)
    requires IsScan(original, v, order) && RaisedSoFar(original, now, order, |order|)
    ensures now == Shifted(original, v)
  {
    assert order[..|order|] == order;
  }

  function Retained<T>(rows: Rows<T>, v: Id, kept: set<Id>): Rows<T> {
    map k | k in rows && (rows[k].version != v || k in kept) :: rows[k]
  }

  function WithParents<T>(rows: Rows<T>, parents: set<Id>): Rows<T> {
    map k | k in rows && rows[k].parent in parents :: rows[k]
  }
}

/** Which node of a replacement command is refused, and why: in terms of the stored rows and the places of the command. */
module CurriculumFaults {
  import opened Prelude
  import opened CourseTree
  import opened CurriculumService
  import opened CurriculumRefinement

  /** A node of a command, by its index among its siblings and those of its ancestors. */
  datatype Place = SectionAt(i: nat) | LessonAt(i: nat, j: nat) | BlockAt(i: nat, j: nat, k: nat)

  predicate IsPlace(nodes: seq<SectionInput>, p: Place) {
    && p.i < |nodes|
    && (p.SectionAt? || p.j < |nodes[p.i].lessons|)
    && (!p.BlockAt? || p.k < |nodes[p.i].lessons[p.j].blocks|)
  }

  /** The order in which the loops visit the nodes: a section before its lessons, a lesson before its blocks, siblings as listed. */
  predicate IsEarlier(p: Place, q: Place) {
    || p.i < q.i
    || (p.i == q.i && p.SectionAt? && !q.SectionAt?)
    || (p.i == q.i && !p.SectionAt? && !q.SectionAt? && p.j < q.j)
    || (p.i == q.i && p.LessonAt? && q.BlockAt? && p.j == q.j)
    || (p.i == q.i && p.BlockAt? && q.BlockAt? && p.j == q.j && p.k < q.k)
  }

  /** The version has no such row: not found. It has one, at another row version: a conflict. It has it under another parent: not found. */
  function Fault<T>(rows: map<Id, Row<T>>, v: Id, identity: Identity, parent: Id): Option<LifecycleError> {
    if identity.New? then None
    else if identity.id !in rows || rows[identity.id].version != v then Some(ResourceNotFound)
    else if rows[identity.id].rowVersion != identity.expectedRowVersion then Some(VersionConflict)
    else if rows[identity.id].parent != parent then Some(ResourceNotFound)
    else None
  }

  function GivenId(identity: Identity, newId: Id): Id {
    if identity.New? then newId else identity.id
  }

  function FaultAt(t: Tables, v: Id, nodes: seq<SectionInput>, f: Naming, p: Place): Option<LifecycleError>
    requires IsPlace(nodes, p)
  {
    var s := nodes[p.i];
    if p.SectionAt? then Fault(t.sections, v, s.identity, v)
    else
      var l := s.lessons[p.j];
      if p.LessonAt? then Fault(t.lessons, v, l.identity, GivenId(s.identity, f(p.i).id))
      else Fault(t.blocks, v, l.blocks[p.k].identity, GivenId(l.identity, f(p.i).lessons(p.j).id))
  }

  /** The first node that is at fault has this fault. */
  ghost predicate IsFirstFault(t: Tables, v: Id, nodes: seq<SectionInput>, f: Naming, e: LifecycleError) {
    exists p :: IsPlace(nodes, p) && FaultAt(t, v, nodes, f, p) == Some(e)
                && forall q :: IsPlace(nodes, q) && IsEarlier(q, p) ==> FaultAt(t, v, nodes, f, q).None?
  }

  ghost predicate HasNoFault(t: Tables, v: Id, nodes: seq<SectionInput>, f: Naming) {
    forall p :: IsPlace(nodes, p) ==> FaultAt(t, v, nodes, f, p).None?
  }

  lemma FaultIsPreservedError<T>(rows: map<Id, Row<T>>, v: Id, identity: Identity, parent: Id)
    ensures PreservedError(OfVersion(rows, v), identity, parent) == Fault(rows, v, identity, parent)
  {}

  lemma {:induction false} FirstSomeIsAt<E>(xs: seq<Option<E>>) returns (k: nat)
    requires FirstSome(xs).Some?
    ensures k < |xs| && xs[k] == FirstSome(xs) && forall i :: 0 <= i < k ==> xs[i].None?
  {
    if xs[0].Some? {
      k := 0;
    } else {
      k := FirstSomeIsAt(xs[1..]);
      k := k + 1;
    }
  }

  /** The errors of the service, node by node, are these faults. */
  lemma ErrorsAreFaults(t: Tables, v: Id, nodes: seq<SectionInput>, f: Naming, i: nat)
    requires i < |nodes|
    ensures var s, names := nodes[i], f(i);
      && PreservedError(TablesOf(t, v).sections, s.identity, v) == FaultAt(t, v, nodes, f, SectionAt(i))
      && IdOf(s.identity, names.id) == GivenId(s.identity, names.id)
      && forall j :: 0 <= j < |s.lessons| ==>
           && PreservedError(TablesOf(t, v).lessons, s.lessons[j].identity, GivenId(s.identity, names.id)) == FaultAt(t, v, nodes, f, LessonAt(i, j))
           && IdOf(s.lessons[j].identity, names.lessons(j).id) == GivenId(s.lessons[j].identity, names.lessons(j).id)
           && forall k :: 0 <= k < |s.lessons[j].blocks| ==>
                PreservedError(TablesOf(t, v).blocks, s.lessons[j].blocks[k].identity, GivenId(s.lessons[j].identity, names.lessons(j).id))
                  == FaultAt(t, v, nodes, f, BlockAt(i, j, k))
  {
    hide PreservedError, Fault, OfVersion;
    var s, names := nodes[i], f(i);
    FaultIsPreservedError(t.sections, v, s.identity, v);
    forall j | 0 <= j < |s.lessons|
      ensures PreservedError(TablesOf(t, v).lessons, s.lessons[j].identity, GivenId(s.identity, names.id)) == FaultAt(t, v, nodes, f, LessonAt(i, j))
      ensures forall k :: 0 <= k < |s.lessons[j].blocks| ==>
        PreservedError(TablesOf(t, v).blocks, s.lessons[j].blocks[k].identity, GivenId(s.lessons[j].identity, names.lessons(j).id))
          == FaultAt(t, v, nodes, f, BlockAt(i, j, k))
    {
      FaultIsPreservedError(t.lessons, v, s.lessons[j].identity, GivenId(s.identity, names.id));
      forall k | 0 <= k < |s.lessons[j].blocks|
        ensures PreservedError(TablesOf(t, v).blocks, s.lessons[j].blocks[k].identity, GivenId(s.lessons[j].identity, names.lessons(j).id))
          == FaultAt(t, v, nodes, f, BlockAt(i, j, k))
      {
        FaultIsPreservedError(t.blocks, v, s.lessons[j].blocks[k].identity, GivenId(s.lessons[j].identity, names.lessons(j).id));
      }
    }
  }

  lemma LessonFaults(t: Tables, v: Id, nodes: seq<SectionInput>, f: Naming, i: nat, j: nat)
    requires i < |nodes| && j < |nodes[i].lessons|
    ensures var e := LessonError(TablesOf(t, v), GivenId(nodes[i].identity, f(i).id), nodes[i].lessons[j], f(i).lessons(j));
      if e.None? then
        && FaultAt(t, v, nodes, f, LessonAt(i, j)).None?
        && forall k: nat :: k < |nodes[i].lessons[j].blocks| ==> FaultAt(t, v, nodes, f, BlockAt(i, j, k)).None?
      else exists p ::
        && IsPlace(nodes, p) && !p.SectionAt? && p.i == i && p.j == j && FaultAt(t, v, nodes, f, p) == e
        && forall q :: IsPlace(nodes, q) && !q.SectionAt? && q.i == i && q.j == j && IsEarlier(q, p) ==> FaultAt(t, v, nodes, f, q).None?
  {
    hide PreservedError, Fault, FaultAt, TablesOf, FirstSome, IdOf, GivenId;
    ErrorsAreFaults(t, v, nodes, f, i);
    var l := nodes[i].lessons[j];
    var errors := BlockErrors(TablesOf(t, v), IdOf(l.identity, f(i).lessons(j).id), l.blocks);
    if FaultAt(t, v, nodes, f, LessonAt(i, j)).Some? {
      assert IsPlace(nodes, LessonAt(i, j));
    } else if FirstSome(errors).Some? {
      var k := FirstSomeIsAt(errors);
      var p := BlockAt(i, j, k);
      assert IsPlace(nodes, p) && FaultAt(t, v, nodes, f, p) == errors[k];
      forall q | IsPlace(nodes, q) && !q.SectionAt? && q.i == i && q.j == j && IsEarlier(q, p) ensures FaultAt(t, v, nodes, f, q).None? {
        if q.BlockAt? { assert errors[q.k].None?; } else { assert q == LessonAt(i, j); }
      }
    } else {
      FirstSomeOfNone(errors);
      forall k: nat | k < |l.blocks| ensures FaultAt(t, v, nodes, f, BlockAt(i, j, k)).None? { assert errors[k].None?; }
    }
  }

  lemma SectionFaults(t: Tables, v: Id, nodes: seq<SectionInput>, f: Naming, i: nat)
    requires i < |nodes|
    ensures var e := SectionError(TablesOf(t, v), v, nodes[i], f(i));
      if e.None? then forall q :: IsPlace(nodes, q) && q.i == i ==> FaultAt(t, v, nodes, f, q).None?
      else exists p ::
        && IsPlace(nodes, p) && p.i == i && FaultAt(t, v, nodes, f, p) == e
        && forall q :: IsPlace(nodes, q) && q.i == i && IsEarlier(q, p) ==> FaultAt(t, v, nodes, f, q).None?
  {
    hide PreservedError, Fault, FaultAt, TablesOf, FirstSome, IdOf, GivenId, LessonError;
    ErrorsAreFaults(t, v, nodes, f, i);
    var lessons := nodes[i].lessons;
    var errors := LessonErrors(TablesOf(t, v), IdOf(nodes[i].identity, f(i).id), lessons, f(i).lessons);
    if FaultAt(t, v, nodes, f, SectionAt(i)).Some? {
      assert IsPlace(nodes, SectionAt(i));
    } else if FirstSome(errors).Some? {
      var j := FirstSomeIsAt(errors);
      LessonFaults(t, v, nodes, f, i, j);
      var p :| IsPlace(nodes, p) && !p.SectionAt? && p.i == i && p.j == j && FaultAt(t, v, nodes, f, p) == errors[j]
        && forall q :: IsPlace(nodes, q) && !q.SectionAt? && q.i == i && q.j == j && IsEarlier(q, p) ==> FaultAt(t, v, nodes, f, q).None?;
      forall q | IsPlace(nodes, q) && q.i == i && IsEarlier(q, p) ensures FaultAt(t, v, nodes, f, q).None? {
        if q.SectionAt? {
          assert q == SectionAt(i);
        } else if q.j < j {
          NoFaultIn(t, v, nodes, f, q, errors);
        }
      }
    } else {
      FirstSomeOfNone(errors);
      forall q | IsPlace(nodes, q) && q.i == i ensures FaultAt(t, v, nodes, f, q).None? {
        if q.SectionAt? { assert q == SectionAt(i); } else { NoFaultIn(t, v, nodes, f, q, errors); }
      }
    }
  }

  lemma NoFaultIn(t: Tables, v: Id, nodes: seq<SectionInput>, f: Naming, q: Place, errors: seq<Option<LifecycleError>>)
    requires IsPlace(nodes, q) && !q.SectionAt?
    requires errors == LessonErrors(TablesOf(t, v), IdOf(nodes[q.i].identity, f(q.i).id), nodes[q.i].lessons, f(q.i).lessons)
    requires errors[q.j].None?
    ensures FaultAt(t, v, nodes, f, q).None?
  {
    hide PreservedError, Fault, FaultAt, TablesOf, LessonError;
    ErrorsAreFaults(t, v, nodes, f, q.i);
    LessonFaults(t, v, nodes, f, q.i, q.j);
    assert q == LessonAt(q.i, q.j) || q == BlockAt(q.i, q.j, q.k);
  }

  /** The service refuses a command with the fault of its first faulty node, and only then. */
  lemma FirstFaultIsReported(t: Tables, v: Id, nodes: seq<SectionInput>, f: Naming)
    ensures match Materialized(TablesOf(t, v), v, nodes, f) {
      case Err(e) => IsFirstFault(t, v, nodes, f, e)
      case Ok(_) => HasNoFault(t, v, nodes, f)
    }
  {
    hide FaultAt, TablesOf, FirstSome, SectionError;
    var errors := SectionErrors(TablesOf(t, v), v, nodes, f);
    if FirstSome(errors).Some? {
      var i := FirstSomeIsAt(errors);
      SectionFaults(t, v, nodes, f, i);
      var p :| IsPlace(nodes, p) && p.i == i && FaultAt(t, v, nodes, f, p) == errors[i]
        && forall q :: IsPlace(nodes, q) && q.i == i && IsEarlier(q, p) ==> FaultAt(t, v, nodes, f, q).None?;
      forall q | IsPlace(nodes, q) && IsEarlier(q, p) ensures FaultAt(t, v, nodes, f, q).None? {
        if q.i < i {
          assert errors[q.i].None?;
          SectionFaults(t, v, nodes, f, q.i);
        }
      }
    } else {
      FirstSomeOfNone(errors);
      forall q | IsPlace(nodes, q) ensures FaultAt(t, v, nodes, f, q).None? {
        assert errors[q.i].None?;
        SectionFaults(t, v, nodes, f, q.i);
      }
    }
  }
}

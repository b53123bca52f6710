/** Result types and the stable ordering that every `sorted(..., key=...)` and `order_by` of the model uses. */
module Prelude {
  datatype Option<+T> = None | Some(value: T)

  datatype Result<+T, +E> = Ok(value: T) | Err(error: E)

  predicate StrictlyAscending(keys: seq<int>) {
    forall i, j :: 0 <= i < j < |keys| ==> keys[i] < keys[j]
  }

  predicate Distinct<T(==)>(xs: seq<T>) {
    forall i, j :: 0 <= i < j < |xs| ==> xs[i] != xs[j]
  }

  /** `set(items)` */
  function Elements<T(==)>(xs: seq<T>): set<T> {
    set x | x in xs
  }

  /** `len(items) == len(set(items))` says that no item repeats. */
  lemma {:induction false} DistinctSize<T>(xs: seq<T>)
    ensures |Elements(xs)| <= |xs| && (|Elements(xs)| == |xs| <==> Distinct(xs))
  {
    if xs == [] {
      assert Elements(xs) == {};
    } else {
      var last := |xs| - 1;
      DistinctSize(xs[..last]);
      assert xs == xs[..last] + [xs[last]];
      assert Elements(xs) == Elements(xs[..last]) + {xs[last]};
      if xs[last] in xs[..last] {
        var i :| 0 <= i < last && xs[..last][i] == xs[last];
        assert Elements(xs) == Elements(xs[..last]);
      } else {
        assert xs[last] !in Elements(xs[..last]);
        if Distinct(xs[..last]) {
          forall i, j | 0 <= i < j < |xs| ensures xs[i] != xs[j] {
            if j == last { assert xs[..last][i] == xs[i]; }
          }
        }
      }
    }
  }

  /** `order` lists every index of `keys` once, by ascending key, equal keys keeping their original order. */
  predicate IsStableOrder(keys: seq<int>, order: seq<nat>) {
    && |order| == |keys|
    && (forall i :: 0 <= i < |order| ==> order[i] < |keys|)
    && (forall k :: 0 <= k < |keys| ==> k in order)
    && Distinct(order)
    && (forall i, j :: 0 <= i < j < |order| ==>
          keys[order[i]] < keys[order[j]] || (keys[order[i]] == keys[order[j]] && order[i] < order[j]))
  }

  /** Where the last index of `keys` belongs among the already ordered earlier ones. */
  function InsertionPoint(keys: seq<int>, order: seq<nat>): (at: nat)
    requires |keys| > 0 && IsStableOrder(keys[..|keys| - 1], order)
    ensures at <= |order|
    ensures forall i :: 0 <= i < at ==> keys[order[i]] <= keys[|keys| - 1]
    ensures forall i :: at <= i < |order| ==> keys[|keys| - 1] < keys[order[i]]
  {
    InsertionPointFrom(keys, order, 0)
  }

  function InsertionPointFrom(keys: seq<int>, order: seq<nat>, from: nat): (at: nat)
    requires |keys| > 0 && IsStableOrder(keys[..|keys| - 1], order) && from <= |order|
    requires forall i :: 0 <= i < from ==> keys[order[i]] <= keys[|keys| - 1]
    ensures at <= |order|
    ensures forall i :: 0 <= i < at ==> keys[order[i]] <= keys[|keys| - 1]
    ensures forall i :: at <= i < |order| ==> keys[|keys| - 1] < keys[order[i]]
    decreases |order| - from
  {
    if from == |order| || keys[|keys| - 1] < keys[order[from]] then from
    else InsertionPointFrom(keys, order, from + 1)
  }

  /** The stable sorting permutation, by insertion. */
  function Order(keys: seq<int>): (order: seq<nat>)
    ensures IsStableOrder(keys, order)
  {
    if keys == [] then []
    else
      var last := |keys| - 1;
      var rest := Order(keys[..last]);
      var at := InsertionPoint(keys, rest);
      var order := rest[..at] + [last] + rest[at..];
      InsertedIsStableOrder(keys, rest, at);
      order
  }

  lemma InsertedIsStableOrder(keys: seq<int>, rest: seq<nat>, at: nat)
    requires |keys| > 0 && IsStableOrder(keys[..|keys| - 1], rest) && at <= |rest|
    requires forall i :: 0 <= i < at ==> keys[rest[i]] <= keys[|keys| - 1]
    requires forall i :: at <= i < |rest| ==> keys[|keys| - 1] < keys[rest[i]]
    ensures IsStableOrder(keys, rest[..at] + [|keys| - 1] + rest[at..])
  {
    var last := |keys| - 1;
    var order := rest[..at] + [last] + rest[at..];
    InsertedCovers(rest, at, last);
    forall i, j | 0 <= i < j < |order|
      ensures order[i] != order[j]
      ensures keys[order[i]] < keys[order[j]] || (keys[order[i]] == keys[order[j]] && order[i] < order[j])
    {
      InsertedPair(keys, rest, at, i, j);
    }
  }

  /** Two places of the list with the last index inserted. */
  lemma InsertedPair(keys: seq<int>, rest: seq<nat>, at: nat, i: nat, j: nat)
    requires |keys| > 0 && IsStableOrder(keys[..|keys| - 1], rest) && at <= |rest| && i < j <= |rest|
    requires forall i :: 0 <= i < at ==> keys[rest[i]] <= keys[|keys| - 1]
    requires forall i :: at <= i < |rest| ==> keys[|keys| - 1] < keys[rest[i]]
    ensures var order := rest[..at] + [|keys| - 1] + rest[at..];
      && order[i] < |keys| && order[j] < |keys| && order[i] != order[j]
      && (keys[order[i]] < keys[order[j]] || (keys[order[i]] == keys[order[j]] && order[i] < order[j]))
  {
    var last := |keys| - 1;
    var before := keys[..last];
    var order := rest[..at] + [last] + rest[at..];
    assert order[i] == if i < at then rest[i] else if i == at then last else rest[i - 1];
    assert order[j] == if j < at then rest[j] else if j == at then last else rest[j - 1];
    if i != at && j != at {
      var i', j' := if i < at then i else i - 1, if j < at then j else j - 1;
      assert rest[i'] != rest[j'] && before[rest[i']] == keys[order[i]] && before[rest[j']] == keys[order[j]];
    }
  }

  lemma InsertedCovers(rest: seq<nat>, at: nat, last: nat)
    requires at <= |rest| == last
    requires forall k :: 0 <= k < last ==> k in rest
    ensures forall k :: 0 <= k <= last ==> k in rest[..at] + [last] + rest[at..]
  {
    forall k | 0 <= k < last ensures k in rest[..at] + [last] + rest[at..] {
      assert k in rest && rest == rest[..at] + rest[at..];
    }
  }

  function Permute<T>(xs: seq<T>, order: seq<nat>): (ys: seq<T>)
    requires forall i :: 0 <= i < |order| ==> order[i] < |xs|
    ensures |ys| == |order| && forall i :: 0 <= i < |ys| ==> ys[i] == xs[order[i]]
  {
    seq(|order|, i requires 0 <= i < |order| => xs[order[i]])
  }

  /** Sorting what is already strictly ascending changes nothing. */
  lemma {:induction false} OrderOfAscending(keys: seq<int>)
    requires StrictlyAscending(keys)
    ensures Order(keys) == seq(|keys|, i => i)
  {
    hide Order;
    var order := Order(keys);
    forall i, j | 0 <= i < j < |order| ensures order[i] < order[j] {
      assert keys[order[i]] <= keys[order[j]];
    }
    AscendingIndices(order);
  }

  /** As many indices in ascending order as there are indices. */
  lemma AscendingIndices(order: seq<nat>)
    requires forall i, j :: 0 <= i < j < |order| ==> order[i] < order[j]
    requires forall i :: 0 <= i < |order| ==> order[i] < |order|
    ensures order == seq(|order|, i => i)
  {
    forall i | 0 <= i < |order| ensures order[i] == i {
      IndexIsReached(order, i);
      IndexIsLeft(order, i);
    }
  }

  lemma {:induction false} IndexIsReached(order: seq<nat>, i: nat)
    requires i < |order| && forall i, j :: 0 <= i < j < |order| ==> order[i] < order[j]
    ensures order[i] >= i
  {
    if i > 0 { IndexIsReached(order, i - 1); }
  }

  lemma {:induction false} IndexIsLeft(order: seq<nat>, i: nat)
    requires i < |order| && forall i, j :: 0 <= i < j < |order| ==> order[i] < order[j]
    requires forall i :: 0 <= i < |order| ==> order[i] < |order|
    ensures order[i] <= i
    decreases |order| - i
  {
    if i + 1 < |order| { IndexIsLeft(order, i + 1); }
  }

  /** What a stable order is, without its keys. */
  lemma OrderCovers(keys: seq<int>)
    ensures |Order(keys)| == |keys|
    ensures forall i :: 0 <= i < |keys| ==> Order(keys)[i] < |keys|
    ensures forall k :: 0 <= k < |keys| ==> k in Order(keys)
  {}

  lemma AscendingIsDistinct(keys: seq<int>)
    requires StrictlyAscending(keys)
    ensures Distinct(keys)
  {}

  /** Two strictly ascending listings of the same integers are the same listing. */
  lemma {:induction false} AscendingIsUnique(a: seq<int>, b: seq<int>)
    requires StrictlyAscending(a) && StrictlyAscending(b)
    requires forall x :: x in a <==> x in b
    ensures a == b
  {
    if a == [] {
      assert forall i | 0 <= i < |b| :: b[i] in a;
    } else {
      assert a[0] in b && b != [] && b[0] in a;
      assert a[0] == b[0];
      forall x ensures x in a[1..] <==> x in b[1..] {
        if x in a[1..] { assert x in a && x != a[0]; }
        if x in b[1..] { assert x in b && x != b[0]; }
      }
      AscendingIsUnique(a[1..], b[1..]);
    }
  }
}

/**
 Sequence operations keyed by an id: drop every element with a given id,
 and replace every element with a given id. Both are generic in the element
 type; `idOf` reads an element's id.
 */
module ListOps {
  import opened Records

  /** `a` can be obtained from `b` by deleting elements: its elements occur
      in `b` in the same relative order. */
  predicate IsSubsequence<T(==)>(a: seq<T>, b: seq<T>)
    decreases |b|
  {
    || a == []
    || (b != [] && ((a[0] == b[0] && IsSubsequence(a[1..], b[1..])) || IsSubsequence(a, b[1..])))
  }

  /** No element of `xs` has id `id`. */
  predicate NoneWithId<T>(xs: seq<T>, idOf: T -> Id, id: Id) {
    forall i :: 0 <= i < |xs| ==> idOf(xs[i]) != id
  }

  /** `filter(x => idOf(x) !== id)`: the elements with another id, in their
      original order, each as often as in `xs`. */
  function RemoveWhereId<T(==)>(xs: seq<T>, idOf: T -> Id, id: Id): (r: seq<T>)
    ensures |r| <= |xs|
    ensures NoneWithId(r, idOf, id)
    ensures forall x :: x in r ==> x in xs && idOf(x) != id
    ensures forall x :: x in xs && idOf(x) != id ==> x in r
    ensures IsSubsequence(r, xs)
    ensures multiset(r) <= multiset(xs)
    ensures forall x :: x in xs ==> multiset(r)[x] == if idOf(x) == id then 0 else multiset(xs)[x]
  {
    if xs == [] then []
    else
      var rest := RemoveWhereId(xs[1..], idOf, id);
      assert xs == [xs[0]] + xs[1..];
      if idOf(xs[0]) == id then rest
      else
        var r := [xs[0]] + rest;
        assert r[1..] == rest;
        r
  }

  /** `map(x => idOf(x) == idOf(y) ? y : x)`: `y` stands in for every element
      sharing its id, every other element stays where it was. */
  function ReplaceWhereId<T>(xs: seq<T>, idOf: T -> Id, y: T): (r: seq<T>)
    ensures |r| == |xs|
    ensures forall i :: 0 <= i < |xs| && idOf(xs[i]) == idOf(y) ==> r[i] == y
    ensures forall i :: 0 <= i < |xs| && idOf(xs[i]) != idOf(y) ==> r[i] == xs[i]
  {
    if xs == [] then []
    else [if idOf(xs[0]) == idOf(y) then y else xs[0]] + ReplaceWhereId(xs[1..], idOf, y)
  }

  /** Removing an id no element carries returns the sequence unchanged. */
  lemma {:induction false} RemoveAbsentId<T>(xs: seq<T>, idOf: T -> Id, id: Id)
    requires NoneWithId(xs, idOf, id)
    ensures RemoveWhereId(xs, idOf, id) == xs
  {
    if xs != [] {
      RemoveAbsentId(xs[1..], idOf, id);
      assert xs == [xs[0]] + xs[1..];
    }
  }

  /** Removing an id twice is removing it once. */
  lemma RemoveIdempotent<T>(xs: seq<T>, idOf: T -> Id, id: Id)
    ensures RemoveWhereId(RemoveWhereId(xs, idOf, id), idOf, id) == RemoveWhereId(xs, idOf, id)
  {
    RemoveAbsentId(RemoveWhereId(xs, idOf, id), idOf, id);
  }

  /** Replacing an id no element carries returns the sequence unchanged. */
  lemma ReplaceAbsentId<T>(xs: seq<T>, idOf: T -> Id, y: T)
    requires NoneWithId(xs, idOf, idOf(y))
    ensures ReplaceWhereId(xs, idOf, y) == xs
  {
  }

  /** Removing an id after replacing it is removing it from the original. */
  lemma {:induction false} RemoveAfterReplace<T>(xs: seq<T>, idOf: T -> Id, y: T)
    ensures RemoveWhereId(ReplaceWhereId(xs, idOf, y), idOf, idOf(y)) == RemoveWhereId(xs, idOf, idOf(y))
  {
    if xs != [] {
      RemoveAfterReplace(xs[1..], idOf, y);
      var r := ReplaceWhereId(xs, idOf, y);
      assert r[1..] == ReplaceWhereId(xs[1..], idOf, y);
    }
  }

  /** Removing the id of an element just appended (to a sequence without
      that id) gives back the original sequence. */
  lemma {:induction false} RemoveAppended<T>(xs: seq<T>, idOf: T -> Id, x: T)
    requires NoneWithId(xs, idOf, idOf(x))
    ensures RemoveWhereId(xs + [x], idOf, idOf(x)) == xs
  {
    if xs == [] {
      assert [x][1..] == [];
    } else {
      assert (xs + [x])[1..] == xs[1..] + [x];
      RemoveAppended(xs[1..], idOf, x);
      assert xs == [xs[0]] + xs[1..];
    }
  }
}

// Orders in which the elements of a set, or the keys of a map, may be visited.
module Orders {

  predicate NoRepeats<T(==)>(s: seq<T>) {
    forall i, j | 0 <= i < j < |s| :: s[i] != s[j]
  }

  ghost predicate Enumerates<T(!new)>(order: seq<T>, elements: set<T>) {
    NoRepeats(order) && forall x :: x in order <==> x in elements
  }

  lemma EachOnce<T(!new)>(order: seq<T>, elements: set<T>, i: nat)
    requires Enumerates(order, elements) && i < |order|
    ensures order[i] in elements && order[i] !in order[..i]
  {
    assert order[i] in order;
  }

  lemma AppendNew<T>(order: seq<T>, x: T)
    requires NoRepeats(order) && x !in order
    ensures NoRepeats(order + [x])
  {
  }
}

/** Optional values, and lists of identities without repetition. */
module Lists {

  datatype Option<T> = None | Some(value: T)

  ghost predicate Distinct(list: seq<nat>) {
    forall i, j :: 0 <= i < j < |list| ==> list[i] != list[j]
  }

  lemma {:induction false} DistinctSize(list: seq<nat>, all: set<nat>)
    requires Distinct(list) && forall x :: x in list ==> x in all
    ensures |list| <= |all|
  {
    if list != [] {
      assert forall x :: x in list[1..] ==> x in all - {list[0]};
      DistinctSize(list[1..], all - {list[0]});
    }
  }

  /** The list without x. */
  function Without(list: seq<nat>, x: nat): (r: seq<nat>)
    ensures forall y :: y in r <==> y in list && y != x
  {
    if list == [] then [] else (if list[0] == x then [] else [list[0]]) + Without(list[1..], x)
  }

  lemma {:induction false} WithoutDistinct(list: seq<nat>, x: nat)
    requires Distinct(list)
    ensures Distinct(Without(list, x))
  {
    if list != [] {
      var rest := Without(list[1..], x);
      WithoutDistinct(list[1..], x);
      assert forall j :: 0 <= j < |rest| ==> rest[j] in rest;
    }
  }

  lemma {:induction false} WithoutAbsent(list: seq<nat>, x: nat)
    requires x !in list
    ensures Without(list, x) == list
  {
    if list != [] {
      WithoutAbsent(list[1..], x);
    }
  }
}

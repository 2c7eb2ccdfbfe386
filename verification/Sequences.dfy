/** `retain` and `filter`, and what they keep. */
module Sequences {

  function Filter<T>(list: seq<T>, keep: T -> bool): seq<T> {
    if list == [] then []
    else
      var last := |list| - 1;
      Filter(list[..last], keep) + if keep(list[last]) then [list[last]] else []
  }

  lemma {:induction false} FilterMember<T>(list: seq<T>, keep: T -> bool, x: T)
    ensures x in Filter(list, keep) <==> x in list && keep(x)
    decreases |list|
  {
    if list != [] {
      var last := |list| - 1;
      FilterMember(list[..last], keep, x);
      assert list == list[..last] + [list[last]];
    }
  }

  lemma FilterMembers<T>(list: seq<T>, keep: T -> bool)
    ensures forall x :: x in Filter(list, keep) <==> x in list && keep(x)
  {
    forall x ensures x in Filter(list, keep) <==> x in list && keep(x) {
      FilterMember(list, keep, x);
    }
  }

  lemma {:induction false} FilterAll<T>(list: seq<T>, keep: T -> bool)
    requires forall i | 0 <= i < |list| :: keep(list[i])
    ensures Filter(list, keep) == list
    decreases |list|
  {
    if list != [] {
      FilterAll(list[..|list| - 1], keep);
      assert list == list[..|list| - 1] + [list[|list| - 1]];
    }
  }

  ghost predicate Distinct<T, K>(list: seq<T>, key: T -> K) {
    forall i, j | 0 <= i < j < |list| :: key(list[i]) != key(list[j])
  }

  lemma {:induction false} FilterDistinct<T, K>(list: seq<T>, keep: T -> bool, key: T -> K)
    requires Distinct(list, key)
    ensures Distinct(Filter(list, keep), key)
    decreases |list|
  {
    if list != [] {
      var last := |list| - 1;
      var rest := Filter(list[..last], keep);
      FilterDistinct(list[..last], keep, key);
      forall i | 0 <= i < |rest| ensures key(rest[i]) != key(list[last]) {
        FilterMember(list[..last], keep, rest[i]);
        var k :| 0 <= k < last && list[k] == rest[i];
      }
    }
  }

  method Retain<T>(list: seq<T>, keep: T -> bool) returns (kept: seq<T>)
    ensures kept == Filter(list, keep)
  {
    kept := [];
    for i := 0 to |list|
      invariant kept == Filter(list[..i], keep)
    {
      assert list[..i + 1][..i] == list[..i];
      if keep(list[i]) { kept := kept + [list[i]]; }
    }
    assert list[..|list|] == list;
  }
}

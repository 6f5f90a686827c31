/** The iteration orders of a Go map: any arrangement of its keys. */
module Orders {

  ghost predicate NoDup<T(!new)>(s: seq<T>) {
    forall i, j :: 0 <= i < j < |s| ==> s[i] != s[j]
  }

  ghost predicate Enumerates<T(!new)>(order: seq<T>, keys: set<T>) {
    NoDup(order) && forall k :: k in order <==> k in keys
  }

  function ToFront<T>(order: seq<T>, i: nat): seq<T>
    requires i < |order|
  {
    [order[i]] + order[..i] + order[i + 1..]
  }

  lemma ToFrontEnumerates<T(!new)>(order: seq<T>, keys: set<T>, i: nat)
    requires Enumerates(order, keys) && i < |order|
    ensures Enumerates(ToFront(order, i), keys)
  {
    var o := ToFront(order, i);
    assert order == order[..i] + [order[i]] + order[i + 1..];
  }
}

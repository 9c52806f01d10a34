/** Searching a list from the front, selecting from it in order, and counting. */
module Lists {
  /** The position of the first item that satisfies p, or the length if there is none. */
  function FirstIndex<T>(items: seq<T>, p: T -> bool): (i: nat)
    ensures i <= |items|
    ensures i < |items| ==> p(items[i])
    ensures forall j :: 0 <= j < i ==> !p(items[j])
  {
    if items == [] then 0 else if p(items[0]) then 0 else 1 + FirstIndex(items[1..], p)
  }

  lemma SubsetCount(a: set<nat>, b: set<nat>)
    requires a <= b
    ensures |a| <= |b|
    ensures |a| == |b| ==> a == b
  {
    assert b == a + (b - a);
    assert |b| == |a| + |b - a|;
  }

  ghost predicate Increasing(picked: seq<nat>) {
    forall j, k :: 0 <= j < k < |picked| ==> picked[j] < picked[k]
  }

  /** The items at these places, in order. */
  ghost predicate SelectsAt<T>(items: seq<T>, out: seq<T>, picked: seq<nat>) {
    && Increasing(picked) && |out| == |picked|
    && forall k :: 0 <= k < |picked| ==> picked[k] < |items| && out[k] == items[picked[k]]
  }

  lemma SelectsNext<T>(items: seq<T>, out: seq<T>, picked: seq<nat>, last: T)
    requires SelectsAt(items, out, picked)
    ensures SelectsAt(items + [last], out, picked)
    ensures SelectsAt(items + [last], out + [last], picked + [|items|])
    ensures |items| in picked + [|items|] && |items| !in picked
    ensures forall i: nat :: i < |items| ==> (i in picked + [|items|] <==> i in picked)
  {
  }
}

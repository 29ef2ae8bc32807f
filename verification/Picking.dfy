/** What it means that a list keeps exactly the items of another that pass a test, in their order. */
module Picking {

  /** `places` are, in increasing order, all places of `items` whose item passes the test. */
  ghost predicate Picks<T(!new)>(items: seq<T>, test: T -> bool, places: seq<nat>) {
    && (forall k :: 0 <= k < |places| ==> places[k] < |items| && test(items[places[k]]))
    && (forall j, k :: 0 <= j < k < |places| ==> places[j] < places[k])
    && (forall i: nat :: i < |items| && test(items[i]) ==> i in places)
  }

  lemma {:induction false} PicksNone<T(!new)>(test: T -> bool)
    ensures Picks([], test, [])
  {
  }

  lemma {:induction false} PicksNext<T(!new)>(items: seq<T>, x: T, test: T -> bool, places: seq<nat>)
    requires Picks(items, test, places)
    ensures Picks(items + [x], test, if test(x) then places + [|items|] else places)
  {
    var all := items + [x];
    var more := if test(x) then places + [|items|] else places;
    assert forall i :: 0 <= i < |items| ==> all[i] == items[i];
    forall i: nat | i < |all| && test(all[i]) ensures i in more {
      if i == |items| { assert more[|places|] == i; }
    }
  }

  lemma {:induction false} PicksInOrder<T(!new)>(items: seq<T>, test: T -> bool, places: seq<nat>)
    requires Picks(items, test, places)
    ensures forall k :: 0 <= k < |places| ==> places[k] < |items|
    ensures forall j, k :: 0 <= j < k < |places| ==> places[j] < places[k]
  {
  }
}

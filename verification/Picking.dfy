/** Picking some elements out of a list, in the list's order. */
module Picking {
  ghost predicate Ascending(places: seq<nat>) {
    forall j, k :: 0 <= j < k < |places| ==> places[j] < places[k]
  }

  /** The list's elements at these places, in the order of the list. */
  ghost predicate PickedBy<T>(chosen: seq<T>, listed: seq<T>, places: seq<nat>) {
    && |places| == |chosen| && Ascending(places)
    && forall k :: 0 <= k < |places| ==> places[k] < |listed| && chosen[k] == listed[places[k]]
  }

  /** One more element in the list, picked or not. */
  lemma PickedSnoc<T>(chosen: seq<T>, listed: seq<T>, last: T, places: seq<nat>)
    requires PickedBy(chosen, listed, places)
    ensures PickedBy(chosen, listed + [last], places)
    ensures PickedBy(chosen + [last], listed + [last], places + [|listed|])
  {
  }

  lemma NothingPicked<T>()
    ensures PickedBy<T>([], [], [])
  {
  }

  lemma PickedPlaces<T>(chosen: seq<T>, listed: seq<T>, places: seq<nat>)
    requires PickedBy(chosen, listed, places)
    ensures Ascending(places) && |places| == |chosen|
  {
  }

  lemma {:induction false} PickedCount(places: seq<nat>, picked: set<nat>)
    requires Ascending(places) && forall i :: i in picked <==> i in places
    ensures |picked| == |places|
    decreases |places|
  {
    if places == [] {
      assert picked == {};
    } else {
      var before, last := places[..|places| - 1], places[|places| - 1];
      assert places == before + [last] && last in picked;
      PickedCount(before, picked - {last});
    }
  }
}

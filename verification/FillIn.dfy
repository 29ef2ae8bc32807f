/** Filling in the missing results of a list of lookups, in order: the pattern shared by the embedding
    cache and by re-ingestion, where only what was not found is requested, in batches. */
module FillIn {

  type Vector = seq<real>

  datatype Found = Miss | Hit(vec: Vector)

  function Pointwise<K>(keys: seq<K>, vec: K -> Vector): seq<Vector> {
    seq(|keys|, i requires 0 <= i < |keys| => vec(keys[i]))
  }

  ghost predicate Ascending(places: seq<nat>, n: nat) {
    && (forall j :: 0 <= j < |places| ==> places[j] < n)
    && (forall i, j :: 0 <= i < j < |places| ==> places[i] < places[j])
  }

  /** The places that found nothing. */
  function MissPlaces(results: seq<Found>): seq<nat> {
    if results == [] then []
    else
      var n := |results| - 1;
      if results[n].Miss? then MissPlaces(results[..n]) + [n] else MissPlaces(results[..n])
  }

  lemma {:induction false} MissPlacesNext(results: seq<Found>, found: Found)
    ensures MissPlaces(results + [found])
         == if found.Miss? then MissPlaces(results) + [|results|] else MissPlaces(results)
  {
    assert (results + [found])[..|results|] == results;
  }

  lemma {:induction false} MissPlacesMeaning(results: seq<Found>)
    ensures Ascending(MissPlaces(results), |results|)
    ensures forall i :: 0 <= i < |results| ==> (results[i].Miss? <==> i in MissPlaces(results))
  {
    if results != [] {
      MissPlacesMeaning(results[..|results| - 1]);
    }
  }

  function ItemsAt<K>(keys: seq<K>, places: seq<nat>): seq<K>
    requires forall j :: 0 <= j < |places| ==> places[j] < |keys|
  {
    seq(|places|, j requires 0 <= j < |places| => keys[places[j]])
  }

  /** The state of the fill-in loop: the first `n` missing places have been filled. */
  ghost predicate Filled<K>(keys: seq<K>, results: seq<Found>, missing: seq<nat>, n: nat, vec: K -> Vector) {
    && |results| == |keys| && Ascending(missing, |keys|) && n <= |missing|
    && (forall j :: 0 <= j < n ==> results[missing[j]] == Hit(vec(keys[missing[j]])))
    && (forall i :: 0 <= i < |keys| && i !in missing ==> results[i] == Hit(vec(keys[i])))
  }

  lemma {:induction false} FillOne<K>(keys: seq<K>, results: seq<Found>, missing: seq<nat>, n: nat, vec: K -> Vector)
    requires Filled(keys, results, missing, n, vec) && n < |missing|
    ensures missing[n] < |keys| == |results|
    ensures Filled(keys, results[missing[n] := Hit(vec(keys[missing[n]]))], missing, n + 1, vec)
  {
  }

  /** Python's `[r for r in results if r is not None]`. */
  function Collect(results: seq<Found>): seq<Vector> {
    if results == [] then []
    else
      var before, last := Collect(results[..|results| - 1]), results[|results| - 1];
      if last.Hit? then before + [last.vec] else before
  }

  lemma {:induction false} CollectAll<K>(keys: seq<K>, results: seq<Found>, vec: K -> Vector)
    requires |results| == |keys| && forall i :: 0 <= i < |keys| ==> results[i] == Hit(vec(keys[i]))
    ensures Collect(results) == Pointwise(keys, vec)
  {
    if keys != [] {
      var n := |keys| - 1;
      CollectAll(keys[..n], results[..n], vec);
      assert keys == keys[..n] + [keys[n]];
    }
  }

  lemma {:induction false} AllFilled<K>(keys: seq<K>, results: seq<Found>, missing: seq<nat>, vec: K -> Vector)
    requires Filled(keys, results, missing, |missing|, vec)
    ensures Collect(results) == Pointwise(keys, vec)
  {
    forall i | 0 <= i < |keys| ensures results[i] == Hit(vec(keys[i])) {
      if i in missing {
        var j :| 0 <= j < |missing| && missing[j] == i;
      }
    }
    CollectAll(keys, results, vec);
  }

  /** The keys of batch `batch`, at most `size` of them. */
  function BatchOf<K>(keys: seq<K>, size: nat, batch: nat): seq<K>
    requires batch * size < |keys|
  {
    if (batch + 1) * size < |keys| then keys[batch * size..(batch + 1) * size] else keys[batch * size..]
  }

  /** What the batches before `batch` cover. */
  function BatchesBefore<K>(keys: seq<K>, size: nat, batch: nat): seq<K> {
    if batch * size < |keys| then keys[..batch * size] else keys
  }

  lemma {:induction false} NextBatch<K>(keys: seq<K>, size: nat, batch: nat)
    requires batch * size < |keys|
    ensures BatchesBefore(keys, size, batch) + BatchOf(keys, size, batch) == BatchesBefore(keys, size, batch + 1)
  {
    assert (batch + 1) * size == batch * size + size;
  }
}

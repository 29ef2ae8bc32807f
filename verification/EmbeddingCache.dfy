/** The in-process embedding cache shared by all providers, and the batched `embed` that uses it. The
    SHA-256 cache key is modelled by its injective preimage: provider, model, revision, input type and
    text. Vectors are an arbitrary type; normalisation is a function on vectors. */
module EmbeddingCache {
  import opened FillIn

  /** `inputType` is "" for no input type: the key does not tell the two apart. */
  datatype Key = Key(platform: string, model: string, version: string, inputType: string, text: string)

  datatype Entry = Entry(key: Key, vec: Vector)

  /** Entries in use order, least recently used first. */
  type Cache = seq<Entry>

  const BATCH: nat := 64

  // ----- The ordered dictionary -----

  function Lookup(c: Cache, k: Key): Found {
    if c == [] then Miss else if c[0].key == k then Hit(c[0].vec) else Lookup(c[1..], k)
  }

  function Without(c: Cache, k: Key): Cache {
    if c == [] then [] else if c[0].key == k then Without(c[1..], k) else [c[0]] + Without(c[1..], k)
  }

  /** A hit moves its entry to the end; a miss changes nothing. */
  function Touch(c: Cache, k: Key): Cache {
    match Lookup(c, k)
    case Miss => c
    case Hit(v) => Without(c, k) + [Entry(k, v)]
  }

  /** The newest `n` elements. */
  function Newest<T>(s: seq<T>, n: nat): seq<T> {
    if |s| <= n then s else s[|s| - n..]
  }

  function Room(cap: int): nat {
    if cap < 0 then 0 else cap
  }

  function Put(c: Cache, k: Key, v: Vector, cap: int): Cache {
    Newest(Without(c, k) + [Entry(k, v)], Room(cap))
  }

  ghost predicate DistinctKeys(c: Cache) {
    forall i, j :: 0 <= i < j < |c| ==> c[i].key != c[j].key
  }

  /** Every cached vector is the one the provider gives for its key. */
  ghost predicate Coherent(c: Cache, vec: Key -> Vector) {
    forall i :: 0 <= i < |c| ==> c[i].vec == vec(c[i].key)
  }

  lemma {:induction false} WithoutMeaning(c: Cache, k: Key)
    ensures |Without(c, k)| <= |c|
    ensures forall e :: e in Without(c, k) <==> e in c && e.key != k
    ensures DistinctKeys(c) ==> DistinctKeys(Without(c, k))
    ensures Lookup(c, k).Hit? ==> |Without(c, k)| < |c|
  {
    if c != [] {
      var first, rest := c[0], c[1..];
      WithoutMeaning(rest, k);
      assert c == [first] + rest;
      if DistinctKeys(c) && first.key != k {
        forall e | e in Without(rest, k) ensures e.key != first.key {
          assert e in rest;
        }
      }
    }
  }

  lemma {:induction false} LookupMeaning(c: Cache, k: Key)
    ensures Lookup(c, k).Hit? ==> Entry(k, Lookup(c, k).vec) in c
    ensures Lookup(c, k).Miss? ==> forall e :: e in c ==> e.key != k
  {
    if c != [] {
      LookupMeaning(c[1..], k);
    }
  }

  lemma {:induction false} LookupAfterWithout(c: Cache, k: Key, q: Key)
    ensures Lookup(Without(c, k), q) == if q == k then Miss else Lookup(c, q)
  {
    if c != [] {
      LookupAfterWithout(c[1..], k, q);
      if c[0].key != k {
        assert ([c[0]] + Without(c[1..], k))[1..] == Without(c[1..], k);
      }
    }
  }

  lemma {:induction false} LookupAfterAppend(c: Cache, e: Entry, q: Key)
    ensures Lookup(c + [e], q) == if Lookup(c, q).Hit? then Lookup(c, q) else if e.key == q then Hit(e.vec) else Miss
  {
    if c == [] {
      assert [] + [e] == [e] && [e][1..] == [];
    } else {
      assert (c + [e])[1..] == c[1..] + [e];
      LookupAfterAppend(c[1..], e, q);
    }
  }

  /** Touching reorders the cache but changes no lookup. */
  lemma {:induction false} TouchKeepsLookups(c: Cache, k: Key, q: Key)
    ensures Lookup(Touch(c, k), q) == Lookup(c, q)
  {
    match Lookup(c, k)
    case Miss =>
    case Hit(v) =>
      LookupAfterWithout(c, k, q);
      LookupAfterAppend(Without(c, k), Entry(k, v), q);
  }

  // ----- One embed call -----

  datatype Reply = Vectors(vecs: seq<Vector>) | Failed

  /** What looking up one key gives; with no room nothing is looked up. */
  function FoundIn(c: Cache, k: Key, cap: int): Found {
    if cap > 0 then Lookup(c, k) else Miss
  }

  /** The keys of a call that are not in the cache, in order, repeats included. */
  function Missing(c: Cache, keys: seq<Key>, cap: int): seq<Key> {
    if keys == [] then []
    else
      var before, k := Missing(c, keys[..|keys| - 1], cap), keys[|keys| - 1];
      if FoundIn(c, k, cap).Hit? then before else before + [k]
  }

  function TouchAll(c: Cache, keys: seq<Key>, cap: int): Cache {
    if keys == [] || cap <= 0 then c else Touch(TouchAll(c, keys[..|keys| - 1], cap), keys[|keys| - 1])
  }

  function PutAll(c: Cache, keys: seq<Key>, vec: Key -> Vector, cap: int): Cache {
    if keys == [] || cap <= 0 then c
    else
      var k := keys[|keys| - 1];
      Put(PutAll(c, keys[..|keys| - 1], vec, cap), k, vec(k), cap)
  }

  /** A call fails only when the provider had to be asked and gave up. */
  function AnswerOf(c: Cache, keys: seq<Key>, cap: int, vec: Key -> Vector, providerFails: bool): Reply {
    if providerFails && Missing(c, keys, cap) != [] then Failed else Vectors(Pointwise(keys, vec))
  }

  function CacheAfter(c: Cache, keys: seq<Key>, cap: int, vec: Key -> Vector, providerFails: bool): Cache {
    var touched := TouchAll(c, keys, cap);
    if providerFails then touched else PutAll(touched, Missing(c, keys, cap), vec, cap)
  }

  // ----- The provider -----

  /** What one request to the provider does: it raises, or returns some vectors. */
  datatype BatchReply = Raised | Batch(vecs: seq<Vector>)

  /** A provider's reply to attempt `attempt` at batch `batch` of the call, for these keys. */
  type Provider = (nat, nat, seq<Key>) -> BatchReply

  /** A deterministic provider may raise, but when it answers it embeds each text by itself. */
  ghost predicate Deterministic(provider: Provider, raw: Key -> Vector) {
    forall batch, attempt, keys :: provider(batch, attempt, keys).Batch? ==>
      provider(batch, attempt, keys).vecs == Pointwise(keys, raw)
  }

  function Attempts(retries: int): nat {
    if retries < 1 then 1 else retries
  }

  /** Attempt number `attempt` is made, when all before it raise: the first one always is. */
  predicate IsMade(attempt: nat, retries: int) {
    attempt == 0 || attempt < retries
  }

  /** All attempts at a batch raise. */
  ghost predicate GivesUp(provider: Provider, batch: nat, keys: seq<Key>, retries: int) {
    forall attempt: nat :: IsMade(attempt, retries) ==> provider(batch, attempt, keys).Raised?
  }

  method EmbedWithRetry(provider: Provider, batch: nat, keys: seq<Key>, retries: int) returns (reply: BatchReply)
    ensures reply.Raised? <==> GivesUp(provider, batch, keys, retries)
    ensures reply.Batch? ==>
              exists attempt: nat :: IsMade(attempt, retries) && reply == provider(batch, attempt, keys)
                && forall earlier :: 0 <= earlier < attempt ==> provider(batch, earlier, keys).Raised?
  {
    reply := Raised;
    for attempt := 0 to Attempts(retries)
      invariant reply.Raised? && forall a :: 0 <= a < attempt ==> provider(batch, a, keys).Raised?
    {
      reply := provider(batch, attempt, keys);
      if reply.Batch? { return; }
    }
  }

  /** Some batch of the call is given up. */
  ghost predicate CallGivesUp(provider: Provider, keys: seq<Key>, retries: int) {
    exists b: nat :: b * BATCH < |keys| && GivesUp(provider, b, BatchOf(keys, BATCH, b), retries)
  }

  /** The batched request loop: no batch boundary shows in the result. */
  method FetchAll(provider: Provider, keys: seq<Key>, retries: int, ghost raw: Key -> Vector)
    returns (reply: BatchReply)
    requires Deterministic(provider, raw)
    ensures reply.Raised? <==> CallGivesUp(provider, keys, retries)
    ensures reply.Batch? ==> reply.vecs == Pointwise(keys, raw)
  {
    var answers: seq<Vector> := [];
    var batch := 0;
    while batch * BATCH < |keys|
      invariant answers == Pointwise(BatchesBefore(keys, BATCH, batch), raw)
      invariant forall b: nat :: b < batch && b * BATCH < |keys| ==>
                  !GivesUp(provider, b, BatchOf(keys, BATCH, b), retries)
      decreases |keys| - batch * BATCH
    {
      var part := BatchOf(keys, BATCH, batch);
      var got := EmbedWithRetry(provider, batch, part, retries);
      if got.Raised? { return Raised; }
      NextBatch(keys, BATCH, batch);
      answers := answers + got.vecs;
      batch := batch + 1;
    }
    forall b: nat | b * BATCH < |keys| ensures b < batch {}
    reply := Batch(answers);
  }

  // ----- The module state and embed -----

  function Normalized(raw: Key -> Vector, normalize: Vector -> Vector): Key -> Vector {
    (k: Key) => normalize(raw(k))
  }

  lemma {:induction false} TouchAllKeepsLookups(c: Cache, keys: seq<Key>, cap: int, q: Key)
    ensures Lookup(TouchAll(c, keys, cap), q) == Lookup(c, q)
  {
    if keys != [] && cap > 0 {
      TouchAllKeepsLookups(c, keys[..|keys| - 1], cap, q);
      TouchKeepsLookups(TouchAll(c, keys[..|keys| - 1], cap), keys[|keys| - 1], q);
    }
  }

  /** What looking up each key gives. */
  function FoundAll(c: Cache, keys: seq<Key>, cap: int): seq<Found> {
    if keys == [] then [] else FoundAll(c, keys[..|keys| - 1], cap) + [FoundIn(c, keys[|keys| - 1], cap)]
  }

  lemma {:induction false} NothingAsked(start: Cache, keys: seq<Key>, cap: int)
    ensures TouchAll(start, keys[..0], cap) == start
    ensures FoundAll(start, keys[..0], cap) == [] && MissPlaces([]) == []
  {
  }

  lemma {:induction false} AskOne(start: Cache, keys: seq<Key>, i: nat, cap: int)
    requires i < |keys|
    ensures var touched := TouchAll(start, keys[..i], cap);
            var found := FoundIn(touched, keys[i], cap);
            && TouchAll(start, keys[..i + 1], cap) == (if cap > 0 then Touch(touched, keys[i]) else touched)
            && FoundAll(start, keys[..i + 1], cap) == FoundAll(start, keys[..i], cap) + [found]
  {
    hide Lookup, Touch;
    TouchAllKeepsLookups(start, keys[..i], cap, keys[i]);
    assert keys[..i + 1][..i] == keys[..i];
  }

  lemma {:induction false} FoundAllMeaning(c: Cache, keys: seq<Key>, cap: int)
    ensures |FoundAll(c, keys, cap)| == |keys|
    ensures forall i :: 0 <= i < |keys| ==> FoundAll(c, keys, cap)[i] == FoundIn(c, keys[i], cap)
  {
    hide FoundIn;
    if keys != [] {
      FoundAllMeaning(c, keys[..|keys| - 1], cap);
    }
  }

  /** The keys at the places that found nothing are the missing keys. */
  lemma {:induction false} MissPlacesAreMissing(c: Cache, keys: seq<Key>, cap: int)
    ensures var places := MissPlaces(FoundAll(c, keys, cap));
            Ascending(places, |keys|) && ItemsAt(keys, places) == Missing(c, keys, cap)
  {
    hide FoundIn;
    FoundAllMeaning(c, keys, cap);
    MissPlacesMeaning(FoundAll(c, keys, cap));
    if keys == [] {
      assert MissPlaces([]) == [];
    } else {
      var n := |keys| - 1;
      var done, k, front := keys[..n], keys[n], FoundAll(c, keys[..n], cap);
      assert keys == done + [k];
      MissPlacesAreMissing(c, done, cap);
      FoundAllMeaning(c, done, cap);
      MissPlacesNext(front, FoundIn(c, k, cap));
      MissPlacesMeaning(front);
    }
  }

  lemma {:induction false} NothingFilled(start: Cache, keys: seq<Key>, cap: int, results: seq<Found>,
                                         missing: seq<nat>, vec: Key -> Vector)
    requires Coherent(start, vec) && results == FoundAll(start, keys, cap) && missing == MissPlaces(results)
    ensures Filled(keys, results, missing, 0, vec)
  {
    FoundAllMeaning(start, keys, cap);
    MissPlacesMeaning(results);
    forall i | 0 <= i < |keys| && i !in missing ensures results[i] == Hit(vec(keys[i])) {
      LookupMeaning(start, keys[i]);
    }
  }

  lemma {:induction false} GivingUpNeedsAKey(provider: Provider, keys: seq<Key>, retries: int)
    requires CallGivesUp(provider, keys, retries)
    ensures keys != []
  {
  }

  class EmbedCache {
    var entries: Cache

    constructor ()
      ensures entries == []
    {
      entries := [];
    }

    method CacheGet(k: Key) returns (found: Found)
      modifies this
      ensures found == Lookup(old(entries), k) && entries == Touch(old(entries), k)
    {
      found := Lookup(entries, k);
      if found.Hit? {
        entries := Without(entries, k) + [Entry(k, found.vec)];
      }
    }

    method CachePut(k: Key, v: Vector, cap: int)
      modifies this
      ensures entries == Put(old(entries), k, v, cap)
    {
      ghost var all := Without(entries, k) + [Entry(k, v)];
      entries := Without(entries, k) + [Entry(k, v)];
      while |entries| > Room(cap)
        invariant |entries| <= |all| && entries == all[|all| - |entries|..]
        invariant |entries| >= Room(cap) || entries == all
      {
        entries := entries[1..];
      }
    }

    /** `embed` for one provider: whatever the cache holds, whatever its size limit and however the
        request is cut into batches, the reply is the pointwise embedding in order. */
    method Embed(keys: seq<Key>, cap: int, retries: int, provider: Provider, normalize: Vector -> Vector,
                 ghost raw: Key -> Vector)
      returns (reply: Reply)
      requires Deterministic(provider, raw)
      requires Coherent(entries, Normalized(raw, normalize))
      modifies this
      ensures var vec := Normalized(raw, normalize);
              var fails := CallGivesUp(provider, Missing(old(entries), keys, cap), retries);
              && reply == AnswerOf(old(entries), keys, cap, vec, fails)
              && entries == CacheAfter(old(entries), keys, cap, vec, fails)
    {
      hide Lookup, Without, Coherent, Deterministic, CallGivesUp, Filled, Put, Touch, Missing, FoundAll, MissPlaces;
      ghost var vec := Normalized(raw, normalize);
      ghost var start := entries;
      var results: seq<Found>, missing: seq<nat> := [], [];
      NothingAsked(start, keys, cap);
      for i := 0 to |keys|
        invariant entries == TouchAll(start, keys[..i], cap)
        invariant results == FoundAll(start, keys[..i], cap) && |results| == i
        invariant missing == MissPlaces(results)
      {
        AskOne(start, keys, i, cap);
        var found := Miss;
        if cap > 0 {
          found := CacheGet(keys[i]);
        }
        MissPlacesNext(results, found);
        results := results + [found];
        if found.Miss? {
          missing := missing + [i];
        }
      }
      assert keys[..|keys|] == keys;
      MissPlacesAreMissing(start, keys, cap);
      var missKeys := ItemsAt(keys, missing);
      var fetched := FetchAll(provider, missKeys, retries, raw);
      if fetched.Raised? {
        GivingUpNeedsAKey(provider, missKeys, retries);
        return Failed;
      }
      NothingFilled(start, keys, cap, results, missing, vec);
      ghost var touched := entries;
      for j := 0 to |missing|
        invariant entries == PutAll(touched, missKeys[..j], vec, cap)
        invariant |results| == |keys| && Filled(keys, results, missing, j, vec)
      {
        assert missKeys[..j + 1][..j] == missKeys[..j];
        FillOne(keys, results, missing, j, vec);
        var v := normalize(fetched.vecs[j]);
        results := results[missing[j] := Hit(v)];
        if cap > 0 {
          CachePut(keys[missing[j]], v, cap);
        }
      }
      assert missKeys[..|missing|] == missKeys;
      AllFilled(keys, results, missing, vec);
      reply := Vectors(Collect(results));
    }
  }

  // ----- Main results -----

  /** One call in the life of the cache: any provider, any limit, failing or not. */
  datatype Call = Call(keys: seq<Key>, cap: int, providerFails: bool)

  function AfterCalls(calls: seq<Call>, vec: Key -> Vector): Cache {
    if calls == [] then []
    else
      var last := calls[|calls| - 1];
      CacheAfter(AfterCalls(calls[..|calls| - 1], vec), last.keys, last.cap, vec, last.providerFails)
  }

  lemma {:induction false} TouchKeepsCoherent(c: Cache, k: Key, vec: Key -> Vector)
    requires Coherent(c, vec)
    ensures Coherent(Touch(c, k), vec)
  {
    WithoutMeaning(c, k);
    LookupMeaning(c, k);
    var w := Without(c, k);
    forall i | 0 <= i < |w| ensures w[i].vec == vec(w[i].key) {
      assert w[i] in w;
    }
  }

  lemma {:induction false} PutKeepsCoherent(c: Cache, k: Key, cap: int, vec: Key -> Vector)
    requires Coherent(c, vec)
    ensures Coherent(Put(c, k, vec(k), cap), vec)
  {
    WithoutMeaning(c, k);
    var w := Without(c, k);
    forall i | 0 <= i < |w| ensures w[i].vec == vec(w[i].key) {
      assert w[i] in w;
    }
  }

  lemma {:induction false} TouchAllKeepsCoherent(c: Cache, keys: seq<Key>, cap: int, vec: Key -> Vector)
    requires Coherent(c, vec)
    ensures Coherent(TouchAll(c, keys, cap), vec)
  {
    if keys != [] && cap > 0 {
      TouchAllKeepsCoherent(c, keys[..|keys| - 1], cap, vec);
      TouchKeepsCoherent(TouchAll(c, keys[..|keys| - 1], cap), keys[|keys| - 1], vec);
    }
  }

  lemma {:induction false} PutAllKeepsCoherent(c: Cache, keys: seq<Key>, cap: int, vec: Key -> Vector)
    requires Coherent(c, vec)
    ensures Coherent(PutAll(c, keys, vec, cap), vec)
  {
    if keys != [] && cap > 0 {
      PutAllKeepsCoherent(c, keys[..|keys| - 1], cap, vec);
      PutKeepsCoherent(PutAll(c, keys[..|keys| - 1], vec, cap), keys[|keys| - 1], cap, vec);
    }
  }

  /** After any history of calls, by any providers and with any limits, every cached vector is right: this
      is what `Embed` requires, so the cache never shows in a reply. */
  lemma {:induction false} CacheStaysCoherent(calls: seq<Call>, vec: Key -> Vector)
    ensures Coherent(AfterCalls(calls, vec), vec)
  {
    if calls != [] {
      var c, last := AfterCalls(calls[..|calls| - 1], vec), calls[|calls| - 1];
      CacheStaysCoherent(calls[..|calls| - 1], vec);
      TouchAllKeepsCoherent(c, last.keys, last.cap, vec);
      PutAllKeepsCoherent(TouchAll(c, last.keys, last.cap), Missing(c, last.keys, last.cap), last.cap, vec);
    }
  }

  /** With one limit throughout, the cache never holds more entries than that, and no key twice. */
  lemma {:induction false} CacheStaysBounded(calls: seq<Call>, vec: Key -> Vector, cap: nat)
    requires forall i :: 0 <= i < |calls| ==> calls[i].cap == cap
    ensures |AfterCalls(calls, vec)| <= cap && DistinctKeys(AfterCalls(calls, vec))
  {
    if calls != [] {
      var c, last := AfterCalls(calls[..|calls| - 1], vec), calls[|calls| - 1];
      CacheStaysBounded(calls[..|calls| - 1], vec, cap);
      TouchAllStaysBounded(c, last.keys, cap);
      PutAllStaysBounded(TouchAll(c, last.keys, cap), Missing(c, last.keys, cap), vec, cap);
    }
  }

  lemma {:induction false} TouchStaysBounded(c: Cache, k: Key)
    requires DistinctKeys(c)
    ensures |Touch(c, k)| <= |c| && DistinctKeys(Touch(c, k))
  {
    WithoutMeaning(c, k);
  }

  lemma {:induction false} PutStaysBounded(c: Cache, k: Key, v: Vector, cap: nat)
    requires DistinctKeys(c)
    ensures |Put(c, k, v, cap)| <= cap && DistinctKeys(Put(c, k, v, cap))
  {
    WithoutMeaning(c, k);
  }

  lemma {:induction false} TouchAllStaysBounded(c: Cache, keys: seq<Key>, cap: nat)
    requires DistinctKeys(c) && |c| <= cap
    ensures |TouchAll(c, keys, cap)| <= cap && DistinctKeys(TouchAll(c, keys, cap))
  {
    if keys != [] && cap > 0 {
      TouchAllStaysBounded(c, keys[..|keys| - 1], cap);
      TouchStaysBounded(TouchAll(c, keys[..|keys| - 1], cap), keys[|keys| - 1]);
    }
  }

  lemma {:induction false} PutAllStaysBounded(c: Cache, keys: seq<Key>, vec: Key -> Vector, cap: nat)
    requires DistinctKeys(c) && |c| <= cap
    ensures |PutAll(c, keys, vec, cap)| <= cap && DistinctKeys(PutAll(c, keys, vec, cap))
  {
    if keys != [] && cap > 0 {
      PutAllStaysBounded(c, keys[..|keys| - 1], vec, cap);
      PutStaysBounded(PutAll(c, keys[..|keys| - 1], vec, cap), keys[|keys| - 1], vec(keys[|keys| - 1]), cap);
    }
  }

  // ----- Eviction follows recency of use -----

  function KeysOf(c: Cache): seq<Key> {
    if c == [] then [] else [c[0].key] + KeysOf(c[1..])
  }

  function Drop(r: seq<Key>, k: Key): seq<Key> {
    if r == [] then [] else if r[0] == k then Drop(r[1..], k) else [r[0]] + Drop(r[1..], k)
  }

  function MoveToEnd(r: seq<Key>, k: Key): seq<Key> {
    Drop(r, k) + [k]
  }

  /** The full recency list of a cache that never forgets: a lookup counts as a use only when the key is
      among the newest `cap`, a store always does. */
  function UsesOfLookups(r: seq<Key>, keys: seq<Key>, cap: nat): seq<Key> {
    if keys == [] then r
    else
      var before, k := UsesOfLookups(r, keys[..|keys| - 1], cap), keys[|keys| - 1];
      if k in Newest(before, cap) then MoveToEnd(before, k) else before
  }

  function UsesOfStores(r: seq<Key>, keys: seq<Key>): seq<Key> {
    if keys == [] then r else MoveToEnd(UsesOfStores(r, keys[..|keys| - 1]), keys[|keys| - 1])
  }

  function NotAmong(keys: seq<Key>, held: seq<Key>): seq<Key> {
    if keys == [] then []
    else
      var before, k := NotAmong(keys[..|keys| - 1], held), keys[|keys| - 1];
      if k in held then before else before + [k]
  }

  function Recency(calls: seq<Call>, cap: nat): seq<Key> {
    if calls == [] then []
    else
      var r, last := Recency(calls[..|calls| - 1], cap), calls[|calls| - 1];
      var looked := UsesOfLookups(r, last.keys, cap);
      if last.providerFails then looked else UsesOfStores(looked, NotAmong(last.keys, Newest(r, cap)))
  }

  ghost predicate NoRepeats(r: seq<Key>) {
    forall i, j :: 0 <= i < j < |r| ==> r[i] != r[j]
  }

  lemma {:induction false} DropMeaning(r: seq<Key>, k: Key)
    ensures forall q :: q in Drop(r, k) <==> q in r && q != k
    ensures NoRepeats(r) ==> NoRepeats(Drop(r, k)) && |Drop(r, k)| == (if k in r then |r| - 1 else |r|)
    ensures k !in r ==> Drop(r, k) == r
  {
    if r != [] {
      var first, rest := r[0], r[1..];
      DropMeaning(rest, k);
      assert r == [first] + rest;
      if NoRepeats(r) {
        assert forall j :: 0 <= j < |rest| ==> rest[j] == r[j + 1];
        assert first !in rest && NoRepeats(rest);
        assert NoRepeats([first] + Drop(rest, k)) || first == k;
      }
    }
  }

  lemma {:induction false} DropSplits(a: seq<Key>, b: seq<Key>, k: Key)
    ensures Drop(a + b, k) == Drop(a, k) + Drop(b, k)
  {
    if a == [] {
      assert a + b == b;
    } else {
      assert (a + b)[1..] == a[1..] + b;
      DropSplits(a[1..], b, k);
    }
  }

  lemma {:induction false} NewestOfTail<T>(a: seq<T>, b: seq<T>, n: nat)
    requires |b| >= n
    ensures Newest(a + b, n) == Newest(b, n)
  {
  }

  /** Using a key and then cutting to size is the same on the cut list as on the full one. */
  lemma {:induction false} CutCommutesWithUse(r: seq<Key>, k: Key, cap: nat)
    requires NoRepeats(r)
    ensures Newest(MoveToEnd(r, k), cap) == Newest(MoveToEnd(Newest(r, cap), k), cap)
  {
    if |r| > cap {
      var older, newer := r[..|r| - cap], r[|r| - cap..];
      assert r == older + newer;
      DropSplits(older, newer, k);
      DropMeaning(newer, k);
      assert MoveToEnd(r, k) == Drop(older, k) + MoveToEnd(newer, k) by {
        assert Drop(older, k) + Drop(newer, k) + [k] == Drop(older, k) + (Drop(newer, k) + [k]);
      }
      NewestOfTail(Drop(older, k), MoveToEnd(newer, k), cap);
    }
  }

  lemma {:induction false} UseKeepsNoRepeats(r: seq<Key>, k: Key)
    requires NoRepeats(r)
    ensures NoRepeats(MoveToEnd(r, k))
  {
    DropMeaning(r, k);
  }

  lemma {:induction false} KeysOfSplits(a: Cache, b: Cache)
    ensures KeysOf(a + b) == KeysOf(a) + KeysOf(b)
  {
    if a == [] {
      assert a + b == b;
    } else {
      assert (a + b)[1..] == a[1..] + b;
      KeysOfSplits(a[1..], b);
    }
  }

  lemma {:induction false} KeysOfWithout(c: Cache, k: Key)
    ensures KeysOf(Without(c, k)) == Drop(KeysOf(c), k)
  {
    if c != [] {
      KeysOfWithout(c[1..], k);
      assert KeysOf(c)[1..] == KeysOf(c[1..]);
      if c[0].key != k {
        assert ([c[0]] + Without(c[1..], k))[1..] == Without(c[1..], k);
      }
    }
  }

  lemma {:induction false} KeysOfLength(c: Cache)
    ensures |KeysOf(c)| == |c|
  {
    if c != [] {
      KeysOfLength(c[1..]);
    }
  }

  lemma {:induction false} KeysOfNewest(c: Cache, n: nat)
    ensures KeysOf(Newest(c, n)) == Newest(KeysOf(c), n)
  {
    KeysOfLength(c);
    if |c| > n {
      var a, b := c[..|c| - n], c[|c| - n..];
      assert c == a + b;
      KeysOfSplits(a, b);
      KeysOfLength(b);
    }
  }

  lemma {:induction false} KeysOfUse(c: Cache, k: Key, v: Vector)
    ensures KeysOf(Without(c, k) + [Entry(k, v)]) == MoveToEnd(KeysOf(c), k)
  {
    KeysOfWithout(c, k);
    KeysOfSplits(Without(c, k), [Entry(k, v)]);
    assert [Entry(k, v)][1..] == [];
    assert KeysOf([Entry(k, v)]) == [k] + KeysOf([]);
  }

  lemma {:induction false} LookupFindsKeys(c: Cache, k: Key)
    ensures Lookup(c, k).Hit? <==> k in KeysOf(c)
  {
    if c != [] {
      LookupFindsKeys(c[1..], k);
    }
  }

  /** The cache holds the keys that come last in the full recency list. */
  ghost predicate HoldsNewest(c: Cache, r: seq<Key>, cap: nat) {
    NoRepeats(r) && KeysOf(c) == Newest(r, cap)
  }

  lemma {:induction false} LookupsFollowRecency(c: Cache, r: seq<Key>, keys: seq<Key>, cap: nat)
    requires HoldsNewest(c, r, cap) && cap > 0
    ensures HoldsNewest(TouchAll(c, keys, cap), UsesOfLookups(r, keys, cap), cap)
  {
    if keys != [] {
      var front, k := keys[..|keys| - 1], keys[|keys| - 1];
      LookupsFollowRecency(c, r, front, cap);
      TouchFollowsRecency(TouchAll(c, front, cap), UsesOfLookups(r, front, cap), k, cap);
    }
  }

  lemma {:induction false} TouchFollowsRecency(c: Cache, r: seq<Key>, k: Key, cap: nat)
    requires HoldsNewest(c, r, cap)
    ensures HoldsNewest(Touch(c, k), if k in Newest(r, cap) then MoveToEnd(r, k) else r, cap)
  {
    LookupFindsKeys(c, k);
    match Lookup(c, k)
    case Miss =>
    case Hit(v) =>
      KeysOfUse(c, k, v);
      CutCommutesWithUse(r, k, cap);
      UseKeepsNoRepeats(r, k);
      DropMeaning(KeysOf(c), k);
      hide Drop, KeysOf;
      assert |MoveToEnd(KeysOf(c), k)| <= cap;
  }

  lemma {:induction false} PutFollowsRecency(c: Cache, r: seq<Key>, k: Key, v: Vector, cap: nat)
    requires HoldsNewest(c, r, cap)
    ensures HoldsNewest(Put(c, k, v, cap), MoveToEnd(r, k), cap)
  {
    KeysOfUse(c, k, v);
    KeysOfNewest(Without(c, k) + [Entry(k, v)], cap);
    CutCommutesWithUse(r, k, cap);
    UseKeepsNoRepeats(r, k);
  }

  lemma {:induction false} StoresFollowRecency(c: Cache, r: seq<Key>, keys: seq<Key>, vec: Key -> Vector, cap: nat)
    requires HoldsNewest(c, r, cap) && cap > 0
    ensures HoldsNewest(PutAll(c, keys, vec, cap), UsesOfStores(r, keys), cap)
  {
    if keys != [] {
      var front, k := keys[..|keys| - 1], keys[|keys| - 1];
      StoresFollowRecency(c, r, front, vec, cap);
      PutFollowsRecency(PutAll(c, front, vec, cap), UsesOfStores(r, front), k, vec(k), cap);
    }
  }

  lemma {:induction false} MissingIsNotHeld(c: Cache, keys: seq<Key>, cap: nat)
    requires cap > 0
    ensures Missing(c, keys, cap) == NotAmong(keys, KeysOf(c))
  {
    if keys != [] {
      MissingIsNotHeld(c, keys[..|keys| - 1], cap);
      LookupFindsKeys(c, keys[|keys| - 1]);
    }
  }

  /** Eviction is least-recently-used: after any history of calls with one positive limit, the cache
      holds exactly the `cap` most recently used of all keys ever used, in order of use. */
  lemma {:induction false} EvictionFollowsRecency(calls: seq<Call>, vec: Key -> Vector, cap: nat)
    requires cap > 0 && forall i :: 0 <= i < |calls| ==> calls[i].cap == cap
    ensures HoldsNewest(AfterCalls(calls, vec), Recency(calls, cap), cap)
  {
    if calls != [] {
      var c, r := AfterCalls(calls[..|calls| - 1], vec), Recency(calls[..|calls| - 1], cap);
      var last := calls[|calls| - 1];
      EvictionFollowsRecency(calls[..|calls| - 1], vec, cap);
      LookupsFollowRecency(c, r, last.keys, cap);
      MissingIsNotHeld(c, last.keys, cap);
      StoresFollowRecency(TouchAll(c, last.keys, cap), UsesOfLookups(r, last.keys, cap),
                          NotAmong(last.keys, Newest(r, cap)), vec, cap);
    }
  }
}

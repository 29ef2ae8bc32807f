/** What the retrieval cache keeps: an entry stays until it is replaced, invalidated or found expired, or until
    as many other queries as there is room for were used after it. */
module CacheRetention {
  import opened RetrievalCache
  import opened Picking

  datatype MaybeEntry = Nothing | Some(entry: Entry)

  // ----- The history alone -----

  /** The latest entry put for the query in the scope, unless the scope was invalidated since. */
  function Latest(ops: seq<Op>, scope: string, query: string): MaybeEntry {
    if ops == [] then Nothing
    else
      var front, op := Latest(ops[..|ops| - 1], scope, query), ops[|ops| - 1];
      match op
      case Put(s, e, _) => if s == scope && e.query == query then Some(e) else front
      case Get(_, _, _, _) => front
      case Invalidate(s) => if s == scope then Nothing else front
  }

  /** That entry, if it was also unexpired at every lookup in the scope since. */
  function Held(ops: seq<Op>, scope: string, query: string): MaybeEntry {
    if ops == [] then Nothing
    else
      var front, op := Held(ops[..|ops| - 1], scope, query), ops[|ops| - 1];
      match op
      case Put(s, e, _) => if s == scope && e.query == query then Some(e) else front
      case Get(s, _, ttl, at) =>
        if s == scope && front.Some? && at - front.entry.stamp > ttl then Nothing else front
      case Invalidate(s) => if s == scope then Nothing else front
  }

  /** The operation after `ops` uses the query: it puts an entry for it, or finds an unexpired one by its text. */
  predicate Uses(ops: seq<Op>, op: Op, scope: string, query: string) {
    match op
    case Put(s, e, _) => s == scope && e.query == query
    case Get(s, q, ttl, at) =>
      s == scope && q == query
      && exists e :: e in ShelfOf(Run(ops), scope) && e.query == query && at - e.stamp <= ttl
    case Invalidate(_) => false
  }

  function QueryOf(op: Op): string {
    match op
    case Put(_, e, _) => e.query
    case Get(_, q, _, _) => q
    case Invalidate(_) => ""
  }

  /** The other queries of the scope that were used after the last use of this one. */
  function UsedSince(ops: seq<Op>, scope: string, query: string): set<string> {
    if ops == [] then {}
    else
      var front, op := ops[..|ops| - 1], ops[|ops| - 1];
      if Uses(front, op, scope, query) then {}
      else if Uses(front, op, scope, QueryOf(op)) then UsedSince(front, scope, query) + {QueryOf(op)}
      else UsedSince(front, scope, query)
  }

  ghost predicate OneCap(ops: seq<Op>, scope: string, cap: int) {
    forall i :: 0 <= i < |ops| && ops[i].Put? && ops[i].scope == scope ==> ops[i].cap == cap
  }

  // ----- One operation -----

  function OtherThan(query: string): Entry -> bool {
    (e: Entry) => e.query != query
  }

  function StillAlive(ttl: real, now: real): Entry -> bool {
    (e: Entry) => now - e.stamp <= ttl
  }

  lemma {:induction false} WithoutKeepsOrder(shelf: Shelf, query: string) returns (places: seq<nat>)
    ensures Picks(shelf, OtherThan(query), places) && |Without(shelf, query)| == |places|
    ensures forall k :: 0 <= k < |places| ==> Without(shelf, query)[k] == shelf[places[k]]
  {
    hide Picks;
    if shelf == [] {
      places := [];
      PicksNone(OtherThan(query));
    } else {
      var n := |shelf| - 1;
      places := WithoutKeepsOrder(shelf[..n], query);
      assert shelf == shelf[..n] + [shelf[n]];
      PicksNext(shelf[..n], shelf[n], OtherThan(query), places);
      PicksInOrder(shelf[..n], OtherThan(query), places);
      WithoutOfSnoc(shelf[..n], shelf[n], query);
      if shelf[n].query != query {
        places := places + [n];
      }
    }
  }

  lemma {:induction false} WithoutOfSnoc(shelf: Shelf, e: Entry, query: string)
    ensures Without(shelf + [e], query) == Without(shelf, query) + if e.query == query then [] else [e]
  {
    if shelf == [] {
      assert shelf + [e] == [e];
    } else {
      assert (shelf + [e])[1..] == shelf[1..] + [e];
      WithoutOfSnoc(shelf[1..], e, query);
    }
  }

  lemma {:induction false} LiveKeepsOrder(shelf: Shelf, ttl: real, now: real) returns (places: seq<nat>)
    ensures Picks(shelf, StillAlive(ttl, now), places) && |Live(shelf, ttl, now)| == |places|
    ensures forall k :: 0 <= k < |places| ==> Live(shelf, ttl, now)[k] == shelf[places[k]]
  {
    hide Picks;
    if shelf == [] {
      places := [];
      PicksNone(StillAlive(ttl, now));
    } else {
      var n := |shelf| - 1;
      places := LiveKeepsOrder(shelf[..n], ttl, now);
      assert shelf == shelf[..n] + [shelf[n]];
      PicksNext(shelf[..n], shelf[n], StillAlive(ttl, now), places);
      PicksInOrder(shelf[..n], StillAlive(ttl, now), places);
      if Alive(shelf[n], ttl, now) {
        places := places + [n];
      }
    }
  }

  lemma {:induction false} NewestOfAppend(kept: Shelf, e: Entry, room: nat) returns (n: nat)
    requires room >= 1
    ensures n <= |kept| && Newest(kept + [e], room) == kept[n..] + [e]
    ensures n > 0 ==> |kept| - n + 1 == room
  {
    n := if |kept| + 1 <= room then 0 else |kept| + 1 - room;
  }

  /** A put drops only from the old end: what it leaves is the newest part of the other entries in their order,
      then the new entry; and it is all of them unless the scope is full. */
  lemma {:induction false} PutDropsOnlyTheOldest(shelf: Shelf, e: Entry, cap: int) returns (places: seq<nat>, n: nat)
    ensures Picks(shelf, OtherThan(e.query), places) && n <= |places|
    ensures var after := ShelfAfterPut(shelf, e, cap);
            && |after| == |places| - n + 1 && after[|after| - 1] == e
            && (forall k :: 0 <= k < |places| - n ==> after[k] == shelf[places[n + k]])
            && (n > 0 ==> |after| == if cap < 1 then 1 else cap)
  {
    hide Picks, Without, Newest;
    places := WithoutKeepsOrder(shelf, e.query);
    PicksInOrder(shelf, OtherThan(e.query), places);
    var kept := Without(shelf, e.query);
    n := NewestOfAppend(kept, e, Room(cap));
    forall k | 0 <= k < |places| - n ensures (kept[n..] + [e])[k] == shelf[places[n + k]] {
      assert kept[n..][k] == kept[n + k];
    }
  }

  /** A get drops only what has expired. */
  lemma {:induction false} GetDropsOnlyExpired(shelf: Shelf, query: string, ttl: real, now: real, e: Entry)
    requires DistinctQueries(shelf) && e in shelf && now - e.stamp <= ttl
    ensures e in ShelfAfterGet(shelf, query, ttl, now)
  {
    LiveMeaning(shelf, ttl, now);
    if ExactHit(shelf, query, ttl, now) {
      WithoutMeaning(shelf, query);
      if e.query == query { OnlyOneWithQuery(shelf, e); }
    }
  }

  // ----- The invariant -----

  /** Every entry of the shelf is the latest for its query. */
  ghost predicate AllLatest(ops: seq<Op>, scope: string) {
    forall e :: e in ShelfOf(Run(ops), scope) ==> Latest(ops, scope, e.query) == Some(e)
  }

  /** The entry is on the shelf, with nothing newer than it but the given queries. */
  ghost predicate IsOn(shelf: Shelf, e: Entry, used: set<string>) {
    exists p: nat :: p < |shelf| && shelf[p] == e && NewerAre(shelf, p, used)
  }

  ghost predicate NewerAre(shelf: Shelf, p: nat, used: set<string>) {
    forall j :: p < j < |shelf| ==> shelf[j].query in used
  }

  ghost predicate Retained(ops: seq<Op>, scope: string, query: string, cap: int) {
    var held, used := Held(ops, scope, query), UsedSince(ops, scope, query);
    held.Some? && |used| < Room(cap) ==> IsOn(ShelfOf(Run(ops), scope), held.entry, used)
  }

  lemma {:induction false} HeldIsLatest(ops: seq<Op>, scope: string, query: string)
    ensures Held(ops, scope, query).Some? ==> Latest(ops, scope, query) == Held(ops, scope, query)
    ensures Held(ops, scope, query).Some? ==> Held(ops, scope, query).entry.query == query
  {
    if ops != [] { HeldIsLatest(ops[..|ops| - 1], scope, query); }
  }

  lemma {:induction false} LatestNext(ops: seq<Op>, op: Op, scope: string)
    requires AllLatest(ops, scope) && DistinctQueries(ShelfOf(Run(ops), scope))
    ensures AllLatest(ops + [op], scope)
  {
    assert (ops + [op])[..|ops|] == ops;
    var shelf := ShelfOf(Run(ops), scope);
    match op
    case Get(s, q, ttl, at) => GetKeepsEntries(shelf, q, ttl, at);
    case Put(s, e, cap) => PutKeepsEntries(shelf, e, cap);
    case Invalidate(s) =>
  }

  lemma {:induction false} LatestHolds(ops: seq<Op>, scope: string)
    ensures AllLatest(ops, scope)
  {
    if ops != [] {
      var front, op := ops[..|ops| - 1], ops[|ops| - 1];
      LatestHolds(front, scope);
      EntriesComeFromPuts(front, scope);
      LatestNext(front, op, scope);
      assert ops == front + [op];
    }
  }

  /** Distinct queries from a set are no more than the set has. */
  lemma {:induction false} FewNewer(shelf: Shelf, p: nat, used: set<string>)
    requires p < |shelf| && DistinctQueries(shelf) && NewerAre(shelf, p, used)
    ensures |shelf| - p - 1 <= |used|
  {
    if p + 1 < |shelf| {
      var n := |shelf| - 1;
      var q := shelf[n].query;
      assert NewerAre(shelf[..n], p, used - {q});
      FewNewer(shelf[..n], p, used - {q});
    }
  }

  /** Moving one query to the new end keeps the others in place. */
  lemma {:induction false} MoveKeepsOn(shelf: Shelf, e: Entry, used: set<string>, f: Entry)
    requires IsOn(shelf, e, used) && e.query != f.query
    ensures IsOn(Without(shelf, f.query) + [f], e, used + {f.query})
  {
    var p: nat :| p < |shelf| && shelf[p] == e && NewerAre(shelf, p, used);
    var places := WithoutKeepsOrder(shelf, f.query);
    assert OtherThan(f.query)(shelf[p]);
    var k :| 0 <= k < |places| && places[k] == p;
    var after := Without(shelf, f.query) + [f];
    assert after[k] == e;
    forall j | k < j < |after| ensures after[j].query in used + {f.query} {
      if j < |places| { assert places[k] < places[j]; }
    }
    assert NewerAre(after, k, used + {f.query});
  }

  lemma {:induction false} LiveKeepsOn(shelf: Shelf, e: Entry, used: set<string>, ttl: real, now: real)
    requires IsOn(shelf, e, used) && Alive(e, ttl, now)
    ensures IsOn(Live(shelf, ttl, now), e, used)
  {
    var p: nat :| p < |shelf| && shelf[p] == e && NewerAre(shelf, p, used);
    var places := LiveKeepsOrder(shelf, ttl, now);
    assert StillAlive(ttl, now)(shelf[p]);
    var k :| 0 <= k < |places| && places[k] == p;
    var after := Live(shelf, ttl, now);
    assert after[k] == e;
    forall j | k < j < |after| ensures after[j].query in used {
      assert places[k] < places[j];
    }
    assert NewerAre(after, k, used);
  }

  /** Cutting a shelf to its newest part keeps an entry with few newer ones. */
  lemma {:induction false} CutKeepsOn(shelf: Shelf, e: Entry, used: set<string>, n: nat)
    requires IsOn(shelf, e, used) && DistinctQueries(shelf) && |used| < n
    ensures IsOn(Newest(shelf, n), e, used)
  {
    var p: nat :| p < |shelf| && shelf[p] == e && NewerAre(shelf, p, used);
    FewNewer(shelf, p, used);
    var after := Newest(shelf, n);
    var cut := |shelf| - |after|;
    assert after[p - cut] == e;
    assert NewerAre(after, p - cut, used);
  }

  lemma {:induction false} PutKeepsOn(shelf: Shelf, e: Entry, used: set<string>, f: Entry, cap: int)
    requires IsOn(shelf, e, used) && DistinctQueries(shelf) && e.query != f.query && |used + {f.query}| < Room(cap)
    ensures IsOn(ShelfAfterPut(shelf, f, cap), e, used + {f.query})
  {
    hide IsOn;
    MoveKeepsOn(shelf, e, used, f);
    WithoutMeaning(shelf, f.query);
    AppendDistinct(Without(shelf, f.query), f);
    CutKeepsOn(Without(shelf, f.query) + [f], e, used + {f.query}, Room(cap));
  }

  lemma {:induction false} LastIsOn(shelf: Shelf, e: Entry)
    requires shelf != [] && shelf[|shelf| - 1] == e
    ensures IsOn(shelf, e, {})
  {
    assert NewerAre(shelf, |shelf| - 1, {});
  }

  lemma {:induction false} UseIsHit(ops: seq<Op>, scope: string, query: string, ttl: real, at: real)
    requires DistinctQueries(ShelfOf(Run(ops), scope))
    ensures Uses(ops, Op.Get(scope, query, ttl, at), scope, query)
       <==> ExactHit(ShelfOf(Run(ops), scope), query, ttl, at)
  {
    var shelf := ShelfOf(Run(ops), scope);
    if ExactHit(shelf, query, ttl, at) { WithQueryMeaning(shelf, query); }
    if e :| e in shelf && e.query == query && at - e.stamp <= ttl { OnlyOneWithQuery(shelf, e); }
  }

  lemma {:induction false} RetainedAfterPut(ops: seq<Op>, scope: string, query: string, cap: int, f: Entry)
    requires Retained(ops, scope, query, cap) && DistinctQueries(ShelfOf(Run(ops), scope))
    ensures Retained(ops + [Put(scope, f, cap)], scope, query, cap)
  {
    hide IsOn, ShelfAfterPut;
    assert (ops + [Put(scope, f, cap)])[..|ops|] == ops;
    HeldIsLatest(ops, scope, query);
    var shelf, used := ShelfOf(Run(ops), scope), UsedSince(ops, scope, query);
    PutKeepsEntries(shelf, f, cap);
    if f.query == query {
      NewestEndsWith(shelf, f, cap);
      LastIsOn(ShelfAfterPut(shelf, f, cap), f);
    } else if Held(ops, scope, query).Some? && |used + {f.query}| < Room(cap) {
      MoreIsMore(used, f.query);
      PutKeepsOn(shelf, Held(ops, scope, query).entry, used, f, cap);
    }
  }

  lemma {:induction false} MoreIsMore(used: set<string>, q: string)
    ensures |used| <= |used + {q}|
  {
    assert q in used ==> used + {q} == used;
  }

  lemma {:induction false} NewestEndsWith(shelf: Shelf, f: Entry, cap: int)
    ensures var after := ShelfAfterPut(shelf, f, cap); after != [] && after[|after| - 1] == f
  {
  }

  lemma {:induction false} RetainedAfterGet(ops: seq<Op>, scope: string, query: string, cap: int, q: string, ttl: real,
                                            at: real)
    requires Retained(ops, scope, query, cap) && DistinctQueries(ShelfOf(Run(ops), scope)) && AllLatest(ops, scope)
    ensures Retained(ops + [Op.Get(scope, q, ttl, at)], scope, query, cap)
  {
    hide IsOn, ExactHit, Uses;
    var op := Op.Get(scope, q, ttl, at);
    assert (ops + [op])[..|ops|] == ops;
    HeldIsLatest(ops, scope, query);
    UseIsHit(ops, scope, q, ttl, at);
    NoOtherUse(ops, scope, query, q, ttl, at);
    var shelf, used, held := ShelfOf(Run(ops), scope), UsedSince(ops, scope, query), Held(ops, scope, query);
    if Held(ops + [op], scope, query).Some? {
      if !ExactHit(shelf, q, ttl, at) {
        if |used| < Room(cap) {
          LiveKeepsOn(shelf, held.entry, used, ttl, at);
          EmptyShelfHolds(shelf, held.entry, used);
        }
      } else {
        HitIsLatest(ops, scope, q, ttl, at);
        var hit := WithQuery(shelf, q);
        if q == query {
          LastIsOn(Without(shelf, q) + [hit], hit);
        } else {
          MoreIsMore(used, q);
          if |used| < Room(cap) { MoveKeepsOn(shelf, held.entry, used, hit); }
        }
      }
    }
  }

  lemma {:induction false} EmptyShelfHolds(shelf: Shelf, e: Entry, used: set<string>)
    requires IsOn(shelf, e, used)
    ensures shelf != []
  {
  }

  lemma {:induction false} NoOtherUse(ops: seq<Op>, scope: string, query: string, q: string, ttl: real, at: real)
    ensures q != query ==> !Uses(ops, Op.Get(scope, q, ttl, at), scope, query)
  {
  }

  lemma {:induction false} HitIsLatest(ops: seq<Op>, scope: string, q: string, ttl: real, at: real)
    requires AllLatest(ops, scope) && ExactHit(ShelfOf(Run(ops), scope), q, ttl, at)
    ensures var shelf := ShelfOf(Run(ops), scope);
            HasQuery(shelf, q) && WithQuery(shelf, q).query == q && Latest(ops, scope, q) == Some(WithQuery(shelf, q))
            && shelf != []
  {
    WithQueryMeaning(ShelfOf(Run(ops), scope), q);
  }

  lemma {:induction false} ElsewhereStays(ops: seq<Op>, op: Op, scope: string, query: string, cap: int)
    requires Retained(ops, scope, query, cap) && op.scope != scope
    ensures Retained(ops + [op], scope, query, cap)
  {
    hide IsOn;
    assert (ops + [op])[..|ops|] == ops;
  }

  // ----- Main results -----

  lemma {:induction false} EveryEntryIsRetained(ops: seq<Op>, scope: string, query: string, cap: int)
    requires OneCap(ops, scope, cap)
    ensures Retained(ops, scope, query, cap)
  {
    if ops != [] {
      hide Retained, Run, AllLatest;
      var front, op := ops[..|ops| - 1], ops[|ops| - 1];
      EveryEntryIsRetained(front, scope, query, cap);
      EntriesComeFromPuts(front, scope);
      LatestHolds(front, scope);
      assert ops == front + [op];
      if op.scope != scope {
        ElsewhereStays(front, op, scope, query, cap);
      } else {
        match op
        case Put(_, f, _) => RetainedAfterPut(front, scope, query, cap, f);
        case Get(_, q, ttl, at) => RetainedAfterGet(front, scope, query, cap, q, ttl, at);
        case Invalidate(_) => InvalidatedHoldsNothing(front, scope, query, cap);
      }
    }
  }

  lemma {:induction false} InvalidatedHoldsNothing(ops: seq<Op>, scope: string, query: string, cap: int)
    ensures Retained(ops + [Invalidate(scope)], scope, query, cap)
  {
    hide IsOn;
    assert (ops + [Invalidate(scope)])[..|ops|] == ops;
  }

  /** Over any history with one limit, a get of a text returns the payload of the entry last put for it, if that
      was not invalidated since, is unexpired now and was at every get since, and fewer than max(1, cap) other
      queries of the scope were used after its last use. */
  lemma {:induction false} RecentEntryIsReturned(ops: seq<Op>, scope: string, query: string, cap: int, vec: Vector,
                                                 threshold: real, ttl: real, now: real, sim: Similarity)
    requires OneCap(ops, scope, cap) && Held(ops, scope, query).Some?
    requires |UsedSince(ops, scope, query)| < if cap < 1 then 1 else cap
    requires now - Held(ops, scope, query).entry.stamp <= ttl
    ensures Held(ops, scope, query).entry in ShelfOf(Run(ops), scope)
    ensures Lookup(ShelfOf(Run(ops), scope), query, vec, threshold, ttl, now, sim)
         == Cached(Held(ops, scope, query).entry.payload)
  {
    hide Run, Held, UsedSince;
    EveryEntryIsRetained(ops, scope, query, cap);
    HeldIsLatest(ops, scope, query);
    EntriesComeFromPuts(ops, scope);
    OnlyOneWithQuery(ShelfOf(Run(ops), scope), Held(ops, scope, query).entry);
  }
}

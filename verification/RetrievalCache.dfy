/** The semantic retrieval cache: per scope, an ordered table from query text to the chunk set that was
    retrieved for it. Similarity is any function of two vectors; time is a real clock. */
module RetrievalCache {

  type Vector = seq<real>

  /** The ids of the retrieved chunks. */
  type Payload = seq<nat>

  type Similarity = (Vector, Vector) -> real

  datatype Entry = Entry(query: string, stamp: real, vec: Vector, payload: Payload)

  /** One scope's entries, in use order. */
  type Shelf = seq<Entry>

  datatype Answer = None | Cached(payload: Payload)

  // ----- One scope -----

  predicate Alive(e: Entry, ttl: real, now: real) {
    now - e.stamp <= ttl
  }

  predicate HasQuery(shelf: Shelf, query: string) {
    exists i :: 0 <= i < |shelf| && shelf[i].query == query
  }

  function WithQuery(shelf: Shelf, query: string): Entry
    requires HasQuery(shelf, query)
  {
    if shelf[0].query == query then shelf[0] else WithQuery(shelf[1..], query)
  }

  function Without(shelf: Shelf, query: string): Shelf {
    if shelf == [] then []
    else if shelf[0].query == query then Without(shelf[1..], query)
    else [shelf[0]] + Without(shelf[1..], query)
  }

  function Live(shelf: Shelf, ttl: real, now: real): Shelf {
    if shelf == [] then []
    else
      var front, last := Live(shelf[..|shelf| - 1], ttl, now), shelf[|shelf| - 1];
      if Alive(last, ttl, now) then front + [last] else front
  }

  /** The best similarity so far, starting from the threshold, and its payload; a tie goes to the later. */
  datatype Best = Best(sim: real, answer: Answer)

  function Nearest(entries: Shelf, vec: Vector, threshold: real, sim: Similarity): Best {
    if entries == [] then Best(threshold, None)
    else
      var best, last := Nearest(entries[..|entries| - 1], vec, threshold, sim), entries[|entries| - 1];
      if sim(vec, last.vec) >= best.sim then Best(sim(vec, last.vec), Cached(last.payload)) else best
  }

  function ExactHit(shelf: Shelf, query: string, ttl: real, now: real): bool {
    HasQuery(shelf, query) && Alive(WithQuery(shelf, query), ttl, now)
  }

  function Lookup(shelf: Shelf, query: string, vec: Vector, threshold: real, ttl: real, now: real, sim: Similarity)
    : Answer
  {
    if ExactHit(shelf, query, ttl, now) then Cached(WithQuery(shelf, query).payload)
    else Nearest(Live(shelf, ttl, now), vec, threshold, sim).answer
  }

  function ShelfAfterGet(shelf: Shelf, query: string, ttl: real, now: real): Shelf {
    if ExactHit(shelf, query, ttl, now) then Without(shelf, query) + [WithQuery(shelf, query)]
    else Live(shelf, ttl, now)
  }

  function Newest(shelf: Shelf, n: nat): Shelf {
    if |shelf| <= n then shelf else shelf[|shelf| - n..]
  }

  function Room(cap: int): nat {
    if cap < 1 then 1 else cap
  }

  function ShelfAfterPut(shelf: Shelf, e: Entry, cap: int): Shelf {
    Newest(Without(shelf, e.query) + [e], Room(cap))
  }

  // ----- All scopes, and histories -----

  type Shelves = map<string, Shelf>

  function ShelfOf(shelves: Shelves, scope: string): Shelf {
    if scope in shelves then shelves[scope] else []
  }

  datatype Op =
    | Get(scope: string, query: string, ttl: real, at: real)
    | Put(scope: string, entry: Entry, cap: int)
    | Invalidate(scope: string)

  function Apply(shelves: Shelves, op: Op): Shelves {
    match op
    case Get(scope, query, ttl, at) =>
      if ShelfOf(shelves, scope) == [] then shelves
      else shelves[scope := ShelfAfterGet(ShelfOf(shelves, scope), query, ttl, at)]
    case Put(scope, e, cap) => shelves[scope := ShelfAfterPut(ShelfOf(shelves, scope), e, cap)]
    case Invalidate(scope) => shelves - {scope}
  }

  function Run(ops: seq<Op>): Shelves {
    if ops == [] then map[] else Apply(Run(ops[..|ops| - 1]), ops[|ops| - 1])
  }

  // ----- The module state -----

  class RagCache {
    var shelves: Shelves

    constructor ()
      ensures shelves == map[]
    {
      shelves := map[];
    }

    method Get(scope: string, query: string, vec: Vector, threshold: real, ttl: real, now: real, sim: Similarity)
      returns (answer: Answer)
      modifies this
      ensures shelves == Apply(old(shelves), Op.Get(scope, query, ttl, now))
      ensures answer == Lookup(ShelfOf(old(shelves), scope), query, vec, threshold, ttl, now, sim)
    {
      if scope !in shelves || shelves[scope] == [] {
        return None;
      }
      var shelf := shelves[scope];
      if HasQuery(shelf, query) && Alive(WithQuery(shelf, query), ttl, now) {
        var exact := WithQuery(shelf, query);
        shelves := shelves[scope := Without(shelf, query) + [exact]];
        return Cached(exact.payload);
      }
      answer := None;
      var bestSim := threshold;
      var kept: Shelf := [];
      for i := 0 to |shelf|
        invariant kept == Live(shelf[..i], ttl, now)
        invariant Best(bestSim, answer) == Nearest(kept, vec, threshold, sim)
      {
        assert shelf[..i + 1][..i] == shelf[..i];
        if !Alive(shelf[i], ttl, now) { continue; }
        assert (kept + [shelf[i]])[..|kept|] == kept;
        kept := kept + [shelf[i]];
        var s := sim(vec, shelf[i].vec);
        if s >= bestSim {
          bestSim := s;
          answer := Cached(shelf[i].payload);
        }
      }
      assert shelf[..|shelf|] == shelf;
      shelves := shelves[scope := kept];
    }

    method Put(scope: string, query: string, vec: Vector, payload: Payload, cap: int, now: real)
      modifies this
      ensures shelves == Apply(old(shelves), Op.Put(scope, Entry(query, now, vec, payload), cap))
    {
      hide Without;
      var shelf := if scope in shelves then shelves[scope] else [];
      shelf := Without(shelf, query) + [Entry(query, now, vec, payload)];
      ghost var all := shelf;
      while |shelf| > Room(cap)
        invariant |shelf| <= |all| && shelf == all[|all| - |shelf|..]
        invariant |shelf| >= Room(cap) || shelf == all
      {
        shelf := shelf[1..];
      }
      assert shelf == Newest(all, Room(cap));
      shelves := shelves[scope := shelf];
    }

    method Invalidate(scope: string)
      modifies this
      ensures shelves == Apply(old(shelves), Op.Invalidate(scope))
    {
      shelves := shelves - {scope};
    }
  }

  // ----- Where cached entries come from -----

  /** Operation `i` stored this entry, and since then the scope was neither invalidated nor given a new
      entry for the same query. */
  ghost predicate StoredAt(ops: seq<Op>, scope: string, e: Entry, i: nat) {
    && i < |ops| && ops[i].Put? && ops[i].scope == scope && ops[i].entry == e
    && forall j :: i < j < |ops| ==>
         && ops[j] != Invalidate(scope)
         && (ops[j].Put? && ops[j].scope == scope ==> ops[j].entry.query != e.query)
  }

  ghost predicate DistinctQueries(shelf: Shelf) {
    forall i, j :: 0 <= i < j < |shelf| ==> shelf[i].query != shelf[j].query
  }

  lemma {:induction false} WithoutMeaning(shelf: Shelf, query: string)
    ensures forall e :: e in Without(shelf, query) <==> e in shelf && e.query != query
    ensures DistinctQueries(shelf) ==> DistinctQueries(Without(shelf, query))
  {
    if shelf != [] {
      var first, rest := shelf[0], shelf[1..];
      WithoutMeaning(rest, query);
      assert shelf == [first] + rest;
      if DistinctQueries(shelf) && first.query != query {
        forall e | e in Without(rest, query) ensures e.query != first.query {
          assert e in rest;
        }
      }
    }
  }

  lemma {:induction false} WithQueryMeaning(shelf: Shelf, query: string)
    requires HasQuery(shelf, query)
    ensures WithQuery(shelf, query) in shelf && WithQuery(shelf, query).query == query
  {
    if shelf[0].query != query {
      WithQueryMeaning(shelf[1..], query);
    }
  }

  lemma {:induction false} LiveMeaning(shelf: Shelf, ttl: real, now: real)
    ensures forall e :: e in Live(shelf, ttl, now) <==> e in shelf && Alive(e, ttl, now)
    ensures DistinctQueries(shelf) ==> DistinctQueries(Live(shelf, ttl, now))
  {
    if shelf != [] {
      var front, last := shelf[..|shelf| - 1], shelf[|shelf| - 1];
      LiveMeaning(front, ttl, now);
      assert shelf == front + [last];
      if DistinctQueries(shelf) {
        forall e | e in Live(front, ttl, now) ensures e.query != last.query {
          assert e in front;
        }
      }
    }
  }

  lemma {:induction false} AppendDistinct(shelf: Shelf, e: Entry)
    requires DistinctQueries(shelf) && forall f :: f in shelf ==> f.query != e.query
    ensures DistinctQueries(shelf + [e])
  {
    var all := shelf + [e];
    forall i, j | 0 <= i < j < |all| ensures all[i].query != all[j].query {
      assert all[i] in shelf;
    }
  }

  /** A lookup invents nothing: what is on the shelf afterwards was there before. */
  lemma {:induction false} GetKeepsEntries(shelf: Shelf, query: string, ttl: real, now: real)
    requires DistinctQueries(shelf)
    ensures DistinctQueries(ShelfAfterGet(shelf, query, ttl, now))
    ensures forall e :: e in ShelfAfterGet(shelf, query, ttl, now) ==> e in shelf
  {
    LiveMeaning(shelf, ttl, now);
    if ExactHit(shelf, query, ttl, now) {
      WithoutMeaning(shelf, query);
      WithQueryMeaning(shelf, query);
      AppendDistinct(Without(shelf, query), WithQuery(shelf, query));
    }
  }

  lemma {:induction false} PutKeepsEntries(shelf: Shelf, e: Entry, cap: int)
    requires DistinctQueries(shelf)
    ensures var after := ShelfAfterPut(shelf, e, cap);
            && DistinctQueries(after) && |after| <= Room(cap) && e in after
            && forall f :: f in after ==> f == e || (f in shelf && f.query != e.query)
  {
    WithoutMeaning(shelf, e.query);
    AppendDistinct(Without(shelf, e.query), e);
    var all := Without(shelf, e.query) + [e];
    assert all[|all| - 1] == e;
  }

  lemma {:induction false} StoredStays(ops: seq<Op>, op: Op, scope: string, e: Entry, i: nat)
    requires StoredAt(ops, scope, e, i) && op != Invalidate(scope)
    requires op.Put? && op.scope == scope ==> op.entry.query != e.query
    ensures StoredAt(ops + [op], scope, e, i)
  {
  }

  /** After any history, each entry of a scope was put there after the scope's last invalidation, and is
      the latest put for its query. */
  lemma {:induction false} EntriesComeFromPuts(ops: seq<Op>, scope: string)
    ensures DistinctQueries(ShelfOf(Run(ops), scope))
    ensures forall e :: e in ShelfOf(Run(ops), scope) ==> exists i: nat :: StoredAt(ops, scope, e, i)
  {
    if ops != [] {
      var before, op := ops[..|ops| - 1], ops[|ops| - 1];
      var shelf := ShelfOf(Run(before), scope);
      assert ops == before + [op];
      EntriesComeFromPuts(before, scope);
      if op.scope == scope {
        match op
        case Get(_, query, ttl, at) => GetKeepsEntries(shelf, query, ttl, at);
        case Put(_, e, cap) => PutKeepsEntries(shelf, e, cap);
        case Invalidate(_) =>
      }
      forall e | e in ShelfOf(Run(ops), scope) ensures exists i: nat :: StoredAt(ops, scope, e, i) {
        if op.Put? && op.scope == scope && e == op.entry {
          assert StoredAt(ops, scope, e, |before|);
        } else {
          assert e in shelf;
          var i: nat :| StoredAt(before, scope, e, i);
          StoredStays(before, op, scope, e, i);
        }
      }
    }
  }

  // ----- Main results -----

  /** The unexpired entry at place `i` is more similar than every later one and as similar as any. */
  predicate IsNearest(shelf: Shelf, i: nat, vec: Vector, ttl: real, now: real, sim: Similarity) {
    && i < |shelf| && Alive(shelf[i], ttl, now)
    && forall j :: 0 <= j < |shelf| && Alive(shelf[j], ttl, now) ==>
         sim(vec, shelf[j].vec) <= sim(vec, shelf[i].vec)
         && (j > i ==> sim(vec, shelf[j].vec) < sim(vec, shelf[i].vec))
  }

  /** Every unexpired entry is at most that similar. */
  predicate Bounds(shelf: Shelf, best: real, vec: Vector, ttl: real, now: real, sim: Similarity) {
    forall j :: 0 <= j < |shelf| && Alive(shelf[j], ttl, now) ==> sim(vec, shelf[j].vec) <= best
  }

  /** No unexpired entry reaches the threshold, or the answer is the payload of the nearest one. */
  ghost predicate Tells(shelf: Shelf, best: Best, vec: Vector, threshold: real, ttl: real, now: real,
                        sim: Similarity)
  {
    && best.sim >= threshold && Bounds(shelf, best.sim, vec, ttl, now, sim)
    && match best.answer
       case None =>
         best.sim == threshold
         && forall j :: 0 <= j < |shelf| && Alive(shelf[j], ttl, now) ==> sim(vec, shelf[j].vec) < threshold
       case Cached(payload) =>
         exists i :: 0 <= i < |shelf| && IsNearest(shelf, i, vec, ttl, now, sim)
           && shelf[i].payload == payload && sim(vec, shelf[i].vec) == best.sim
  }

  lemma {:induction false} NearestMeaning(shelf: Shelf, vec: Vector, threshold: real, ttl: real, now: real,
                                          sim: Similarity)
    ensures Tells(shelf, Nearest(Live(shelf, ttl, now), vec, threshold, sim), vec, threshold, ttl, now, sim)
  {
    if shelf != [] {
      hide Nearest, Live, Tells;
      var front, last := shelf[..|shelf| - 1], shelf[|shelf| - 1];
      NearestMeaning(front, vec, threshold, ttl, now, sim);
      NearestNext(shelf, vec, threshold, ttl, now, sim);
      assert shelf == front + [last];
      TellsNext(front, last, Nearest(Live(front, ttl, now), vec, threshold, sim), vec, threshold, ttl, now, sim);
    }
  }

  lemma {:induction false} TellsNext(shelf: Shelf, e: Entry, best: Best, vec: Vector, threshold: real, ttl: real,
                                     now: real, sim: Similarity)
    requires Tells(shelf, best, vec, threshold, ttl, now, sim)
    ensures Tells(shelf + [e],
                  if Alive(e, ttl, now) && sim(vec, e.vec) >= best.sim then Best(sim(vec, e.vec), Cached(e.payload))
                  else best,
                  vec, threshold, ttl, now, sim)
  {
    var more := shelf + [e];
    if Alive(e, ttl, now) && sim(vec, e.vec) >= best.sim {
      assert IsNearest(more, |shelf|, vec, ttl, now, sim);
    } else if best.answer.Cached? {
      var i :| 0 <= i < |shelf| && IsNearest(shelf, i, vec, ttl, now, sim)
               && shelf[i].payload == best.answer.payload && sim(vec, shelf[i].vec) == best.sim;
      assert IsNearest(more, i, vec, ttl, now, sim);
      assert more[i] == shelf[i];
    }
  }

  lemma {:induction false} NearestNext(shelf: Shelf, vec: Vector, threshold: real, ttl: real, now: real,
                                       sim: Similarity)
    requires shelf != []
    ensures var last := shelf[|shelf| - 1];
            var before := Nearest(Live(shelf[..|shelf| - 1], ttl, now), vec, threshold, sim);
            Nearest(Live(shelf, ttl, now), vec, threshold, sim)
            == if Alive(last, ttl, now) && sim(vec, last.vec) >= before.sim
               then Best(sim(vec, last.vec), Cached(last.payload)) else before
  {
    var front := Live(shelf[..|shelf| - 1], ttl, now);
    assert (front + [shelf[|shelf| - 1]])[..|front|] == front;
  }

  /** The shelf has an unexpired entry for this very text. */
  predicate HasExact(shelf: Shelf, query: string, ttl: real, now: real) {
    exists i :: 0 <= i < |shelf| && shelf[i].query == query && Alive(shelf[i], ttl, now)
  }

  /** The entry at place `i` answers the query: it is unexpired, and it has the query's text; or no unexpired
      entry has, and it is similar enough, no unexpired entry is more similar, and none used later is as
      similar. */
  ghost predicate Answers(shelf: Shelf, i: nat, query: string, vec: Vector, threshold: real, ttl: real, now: real,
                          sim: Similarity)
  {
    && i < |shelf| && Alive(shelf[i], ttl, now)
    && if HasExact(shelf, query, ttl, now) then shelf[i].query == query
       else sim(vec, shelf[i].vec) >= threshold && IsNearest(shelf, i, vec, ttl, now, sim)
  }

  /** A lookup answers with the entry that answers the query, and stays silent exactly when the scope
      has no unexpired entry for the text and none that is similar enough. */
  lemma {:induction false} LookupMeaning(shelf: Shelf, query: string, vec: Vector, threshold: real, ttl: real,
                                         now: real,
                                         sim: Similarity)
    requires DistinctQueries(shelf)
    ensures var a := Lookup(shelf, query, vec, threshold, ttl, now, sim);
            && (a.Cached? ==>
                  exists i :: 0 <= i < |shelf| && Answers(shelf, i, query, vec, threshold, ttl, now, sim)
                    && shelf[i].payload == a.payload)
            && (a.None? <==>
                  forall e :: e in shelf && Alive(e, ttl, now) ==> e.query != query && sim(vec, e.vec) < threshold)
  {
    hide Nearest, Live, IsNearest;
    if ExactHit(shelf, query, ttl, now) {
      WithQueryMeaning(shelf, query);
      var i :| 0 <= i < |shelf| && shelf[i] == WithQuery(shelf, query);
      assert Answers(shelf, i, query, vec, threshold, ttl, now, sim);
    } else {
      forall e | e in shelf && Alive(e, ttl, now) ensures e.query != query {
        if e.query == query {
          OnlyOneWithQuery(shelf, e);
        }
      }
      NearestMeaning(shelf, vec, threshold, ttl, now, sim);
      var best := Nearest(Live(shelf, ttl, now), vec, threshold, sim);
      if best.answer.Cached? {
        var i :| 0 <= i < |shelf| && IsNearest(shelf, i, vec, ttl, now, sim)
                 && shelf[i].payload == best.answer.payload && sim(vec, shelf[i].vec) == best.sim;
        NearestIsAlive(shelf, i, vec, ttl, now, sim);
        assert Answers(shelf, i, query, vec, threshold, ttl, now, sim);
      }
    }
  }

  lemma {:induction false} NearestIsAlive(shelf: Shelf, i: nat, vec: Vector, ttl: real, now: real, sim: Similarity)
    requires IsNearest(shelf, i, vec, ttl, now, sim)
    ensures i < |shelf| && Alive(shelf[i], ttl, now)
  {
  }

  lemma {:induction false} OnlyOneWithQuery(shelf: Shelf, e: Entry)
    requires DistinctQueries(shelf) && e in shelf
    ensures HasQuery(shelf, e.query) && WithQuery(shelf, e.query) == e
  {
    if shelf[0].query != e.query {
      OnlyOneWithQuery(shelf[1..], e);
    }
  }

  /** Whatever the history, a payload returned for a scope was put into that scope after its last
      invalidation and at most `ttl` ago, as the latest put for its query, and it answers the query. */
  lemma {:induction false} ReturnedPayloadWasPut(ops: seq<Op>, scope: string, query: string, vec: Vector,
                                                 threshold: real, ttl: real, now: real, sim: Similarity)
    returns (i: nat, place: nat)
    requires Lookup(ShelfOf(Run(ops), scope), query, vec, threshold, ttl, now, sim).Cached?
    ensures i < |ops| && ops[i].Put? && StoredAt(ops, scope, ops[i].entry, i)
    ensures var e := ops[i].entry;
            && Lookup(ShelfOf(Run(ops), scope), query, vec, threshold, ttl, now, sim) == Cached(e.payload)
            && now - e.stamp <= ttl
            && place < |ShelfOf(Run(ops), scope)| && ShelfOf(Run(ops), scope)[place] == e
            && Answers(ShelfOf(Run(ops), scope), place, query, vec, threshold, ttl, now, sim)
  {
    hide Run, Lookup, Answers, StoredAt;
    var shelf := ShelfOf(Run(ops), scope);
    EntriesComeFromPuts(ops, scope);
    LookupMeaning(shelf, query, vec, threshold, ttl, now, sim);
    var a := Lookup(shelf, query, vec, threshold, ttl, now, sim);
    place :| 0 <= place < |shelf| && Answers(shelf, place, query, vec, threshold, ttl, now, sim)
             && shelf[place].payload == a.payload;
    i :| StoredAt(ops, scope, shelf[place], i);
    StoredIsPut(ops, scope, shelf[place], i);
    AnswerIsAlive(shelf, place, query, vec, threshold, ttl, now, sim);
  }

  lemma {:induction false} StoredIsPut(ops: seq<Op>, scope: string, e: Entry, i: nat)
    requires StoredAt(ops, scope, e, i)
    ensures i < |ops| && ops[i].Put? && ops[i].entry == e
  {
  }

  lemma {:induction false} AnswerIsAlive(shelf: Shelf, i: nat, query: string, vec: Vector, threshold: real, ttl: real,
                                         now: real, sim: Similarity)
    requires Answers(shelf, i, query, vec, threshold, ttl, now, sim)
    ensures i < |shelf| && now - shelf[i].stamp <= ttl
  {
  }

  /** Each put leaves at most max(1, cap) entries in its scope, the new one among them, and leaves every
      other scope as it was. */
  lemma {:induction false} PutIsBounded(ops: seq<Op>, scope: string, e: Entry, cap: int, other: string)
    ensures var after := Run(ops + [Put(scope, e, cap)]);
            && |ShelfOf(after, scope)| <= Room(cap) && e in ShelfOf(after, scope)
            && (other != scope ==> ShelfOf(after, other) == ShelfOf(Run(ops), other))
  {
    assert (ops + [Put(scope, e, cap)])[..|ops|] == ops;
    EntriesComeFromPuts(ops, scope);
    PutKeepsEntries(ShelfOf(Run(ops), scope), e, cap);
  }
}

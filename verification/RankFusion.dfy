/** Reciprocal rank fusion of ranked lists, and the parent expansion and scoring that follow the
    reranker. Scores are reals; `parentId` is nullable and 0 counts as null, as in Python. */
module RankFusion {

  datatype MaybeId = Null | Id(value: nat)

  datatype Chunk = Chunk(id: nat, parentId: MaybeId)

  datatype Scored = Scored(chunk: Chunk, score: real)

  type RankedList = seq<Chunk>

  // ----- The fused score -----

  /** The share of one list in the score of `id`: 1/(k + rank) at each place it occurs, ranks from 1. */
  function ListScore(lst: RankedList, k: nat, id: nat): real {
    if lst == [] then 0.0
    else
      var before := ListScore(lst[..|lst| - 1], k, id);
      if lst[|lst| - 1].id == id then before + 1.0 / (k + |lst|) as real else before
  }

  function Fused(lists: seq<RankedList>, k: nat, id: nat): real {
    if lists == [] then 0.0
    else Fused(lists[..|lists| - 1], k, id) + ListScore(lists[|lists| - 1], k, id)
  }

  /** One list as the loop reads it: each chunk with what it adds to its score. */
  function Shares(lst: RankedList, k: nat): seq<Scored> {
    if lst == [] then []
    else Shares(lst[..|lst| - 1], k) + [Scored(lst[|lst| - 1], 1.0 / (k + |lst|) as real)]
  }

  function AllShares(lists: seq<RankedList>, k: nat): seq<Scored> {
    if lists == [] then [] else AllShares(lists[..|lists| - 1], k) + Shares(lists[|lists| - 1], k)
  }

  function SumFor(shares: seq<Scored>, id: nat): real {
    if shares == [] then 0.0
    else
      var before, last := SumFor(shares[..|shares| - 1], id), shares[|shares| - 1];
      if last.chunk.id == id then before + last.score else before
  }

  lemma {:induction false} SumForAppends(a: seq<Scored>, b: seq<Scored>, id: nat)
    ensures SumFor(a + b, id) == SumFor(a, id) + SumFor(b, id)
  {
    if b == [] {
      assert a + b == a;
    } else {
      assert (a + b)[..|a + b| - 1] == a + b[..|b| - 1];
      SumForAppends(a, b[..|b| - 1], id);
    }
  }

  lemma {:induction false} SharesAddUp(lst: RankedList, k: nat, id: nat)
    ensures SumFor(Shares(lst, k), id) == ListScore(lst, k, id)
  {
    if lst != [] {
      SharesAddUp(lst[..|lst| - 1], k, id);
      var before := Shares(lst[..|lst| - 1], k);
      assert Shares(lst, k)[..|before|] == before;
    }
  }

  /** Adding up shares as they come gives the sum of reciprocal ranks. */
  lemma {:induction false} AllSharesAddUp(lists: seq<RankedList>, k: nat, id: nat)
    ensures SumFor(AllShares(lists, k), id) == Fused(lists, k, id)
  {
    if lists != [] {
      var last := |lists| - 1;
      AllSharesAddUp(lists[..last], k, id);
      SharesAddUp(lists[last], k, id);
      SumForAppends(AllShares(lists[..last], k), Shares(lists[last], k), id);
    }
  }

  /** The ids in order of first occurrence: the insertion order of the score dictionary. */
  function FirstIds(shares: seq<Scored>): seq<nat> {
    if shares == [] then []
    else
      var before, id := FirstIds(shares[..|shares| - 1]), shares[|shares| - 1].chunk.id;
      if id in before then before else before + [id]
  }

  /** The chunk stored last under an id. */
  function LastWithId(shares: seq<Scored>, id: nat): Chunk {
    if shares == [] then Chunk(id, Null)
    else if shares[|shares| - 1].chunk.id == id then shares[|shares| - 1].chunk
    else LastWithId(shares[..|shares| - 1], id)
  }

  // ----- Python's stable descending sort -----

  function Insert(id: nat, sorted: seq<nat>, score: nat -> real): seq<nat> {
    if sorted == [] then [id]
    else if score(sorted[0]) > score(id) then [sorted[0]] + Insert(id, sorted[1..], score)
    else [id] + sorted
  }

  function SortDescending(ids: seq<nat>, score: nat -> real): seq<nat> {
    if ids == [] then [] else Insert(ids[0], SortDescending(ids[1..], score), score)
  }

  ghost predicate Descending(ids: seq<nat>, score: nat -> real) {
    forall i, j :: 0 <= i < j < |ids| ==> score(ids[i]) >= score(ids[j])
  }

  predicate Distinct(ids: seq<nat>) {
    forall i, j :: 0 <= i < j < |ids| ==> ids[i] != ids[j]
  }

  lemma {:induction false} InsertAddsOne(id: nat, sorted: seq<nat>, score: nat -> real)
    ensures multiset(Insert(id, sorted, score)) == multiset(sorted) + multiset{id}
  {
    if sorted != [] {
      assert sorted == [sorted[0]] + sorted[1..];
      InsertAddsOne(id, sorted[1..], score);
    }
  }

  lemma {:induction false} DescendingCons(id: nat, rest: seq<nat>, score: nat -> real)
    requires Descending(rest, score) && forall x :: x in rest ==> score(id) >= score(x)
    ensures Descending([id] + rest, score)
  {
  }

  lemma {:induction false} InsertKeepsDescending(id: nat, sorted: seq<nat>, score: nat -> real)
    requires Descending(sorted, score)
    ensures Descending(Insert(id, sorted, score), score)
  {
    if sorted != [] {
      if score(sorted[0]) > score(id) {
        var rest := Insert(id, sorted[1..], score);
        InsertKeepsDescending(id, sorted[1..], score);
        InsertAddsOne(id, sorted[1..], score);
        forall x | x in rest ensures score(sorted[0]) >= score(x) {
          assert x in multiset(rest);
        }
        DescendingCons(sorted[0], rest, score);
      } else {
        forall x | x in sorted ensures score(id) >= score(x) {
          assert score(sorted[0]) >= score(x);
        }
        DescendingCons(id, sorted, score);
      }
    }
  }

  lemma {:induction false} SortMeaning(ids: seq<nat>, score: nat -> real)
    ensures multiset(SortDescending(ids, score)) == multiset(ids)
    ensures Descending(SortDescending(ids, score), score)
  {
    if ids != [] {
      SortMeaning(ids[1..], score);
      InsertAddsOne(ids[0], SortDescending(ids[1..], score), score);
      InsertKeepsDescending(ids[0], SortDescending(ids[1..], score), score);
      assert ids == [ids[0]] + ids[1..];
    }
  }

  /** The ids with one given score, in order. */
  function WithScore(ids: seq<nat>, score: nat -> real, s: real): seq<nat> {
    if ids == [] then []
    else if score(ids[0]) == s then [ids[0]] + WithScore(ids[1..], score, s)
    else WithScore(ids[1..], score, s)
  }

  lemma {:induction false} InsertIsStable(id: nat, sorted: seq<nat>, score: nat -> real, s: real)
    ensures WithScore(Insert(id, sorted, score), score, s)
         == if score(id) == s then [id] + WithScore(sorted, score, s) else WithScore(sorted, score, s)
  {
    if sorted != [] {
      if score(sorted[0]) > score(id) {
        InsertIsStable(id, sorted[1..], score, s);
        var rest := Insert(id, sorted[1..], score);
        assert ([sorted[0]] + rest)[1..] == rest;
      } else {
        assert ([id] + sorted)[1..] == sorted;
      }
    }
  }

  /** Ids with equal scores keep their order. */
  lemma {:induction false} SortIsStable(ids: seq<nat>, score: nat -> real, s: real)
    ensures WithScore(SortDescending(ids, score), score, s) == WithScore(ids, score, s)
  {
    if ids != [] {
      SortIsStable(ids[1..], score, s);
      InsertIsStable(ids[0], SortDescending(ids[1..], score), score, s);
    }
  }

  // ----- Fusion -----

  function FusedScore(lists: seq<RankedList>, k: nat): nat -> real {
    (id: nat) => Fused(lists, k, id)
  }

  function Top(ids: seq<nat>, topK: nat): seq<nat> {
    if topK < |ids| then ids[..topK] else ids
  }

  /** The ids of the fused result, best first. */
  function FusedIds(lists: seq<RankedList>, k: nat, topK: nat): seq<nat> {
    Top(SortDescending(FirstIds(AllShares(lists, k)), FusedScore(lists, k)), topK)
  }

  function Entries(ids: seq<nat>, lists: seq<RankedList>, k: nat): seq<Scored> {
    seq(|ids|, i requires 0 <= i < |ids| => Scored(LastWithId(AllShares(lists, k), ids[i]), Fused(lists, k, ids[i])))
  }

  /** What the two dictionaries (and their insertion order) hold after the given shares. */
  ghost predicate Tallied(shares: seq<Scored>, order: seq<nat>, scores: map<nat, real>, byId: map<nat, Chunk>) {
    && order == FirstIds(shares)
    && (forall id :: id in order <==> id in scores)
    && (forall id :: id in order <==> id in byId)
    && (forall id :: id in scores ==> scores[id] == SumFor(shares, id))
    && (forall id :: id in byId ==> byId[id] == LastWithId(shares, id))
    && (forall id :: id !in scores ==> SumFor(shares, id) == 0.0)
  }

  lemma {:induction false} TallyOne(shares: seq<Scored>, order: seq<nat>, scores: map<nat, real>,
                                    byId: map<nat, Chunk>, c: Chunk, share: real)
    requires Tallied(shares, order, scores, byId)
    ensures var sum := if c.id in scores then scores[c.id] else 0.0;
            Tallied(shares + [Scored(c, share)], if c.id in scores then order else order + [c.id],
                    scores[c.id := sum + share], byId[c.id := c])
  {
    assert (shares + [Scored(c, share)])[..|shares|] == shares;
  }

  method ReciprocalRankFusion(lists: seq<RankedList>, k: nat, topK: nat) returns (out: seq<Scored>)
    ensures out == Entries(FusedIds(lists, k, topK), lists, k)
  {
    hide Tallied, Shares, AllShares, FirstIds, LastWithId, Fused, SumFor;
    var scores: map<nat, real>, byId: map<nat, Chunk>, order: seq<nat> := map[], map[], [];
    NothingTallied(lists, k);
    for i := 0 to |lists|
      invariant Tallied(AllShares(lists[..i], k), order, scores, byId)
    {
      var lst := lists[i];
      ghost var before := AllShares(lists[..i], k);
      NoSharesYet(before, lst, k);
      for rank := 0 to |lst|
        invariant Tallied(before + Shares(lst[..rank], k), order, scores, byId)
      {
        var c := lst[rank];
        var share := 1.0 / (k + rank + 1) as real;
        TallyOne(before + Shares(lst[..rank], k), order, scores, byId, c, share);
        OneMoreShare(before, lst, k, rank);
        var sum := if c.id in scores then scores[c.id] else 0.0;
        order := if c.id in scores then order else order + [c.id];
        scores := scores[c.id := sum + share];
        byId := byId[c.id := c];
      }
      OneMoreList(lists, k, i);
    }
    assert lists[..|lists|] == lists;
    out := ReadOff(lists, k, topK, order, scores, byId);
  }

  lemma {:induction false} NothingTallied(lists: seq<RankedList>, k: nat)
    ensures Tallied(AllShares(lists[..0], k), [], map[], map[])
  {
  }

  lemma {:induction false} NoSharesYet(before: seq<Scored>, lst: RankedList, k: nat)
    ensures before + Shares(lst[..0], k) == before
  {
  }

  lemma {:induction false} OneMoreShare(before: seq<Scored>, lst: RankedList, k: nat, rank: nat)
    requires rank < |lst|
    ensures before + Shares(lst[..rank + 1], k)
         == before + Shares(lst[..rank], k) + [Scored(lst[rank], 1.0 / (k + rank + 1) as real)]
  {
    assert lst[..rank + 1][..rank] == lst[..rank];
  }

  lemma {:induction false} OneMoreList(lists: seq<RankedList>, k: nat, i: nat)
    requires i < |lists|
    ensures AllShares(lists[..i + 1], k) == AllShares(lists[..i], k) + Shares(lists[i], k)
    ensures lists[i][..|lists[i]|] == lists[i]
  {
    assert lists[..i + 1][..i] == lists[..i];
  }

  /** Sorting the dictionary's items and taking the first `topK`. */
  method ReadOff(lists: seq<RankedList>, k: nat, topK: nat,
                 order: seq<nat>, scores: map<nat, real>, byId: map<nat, Chunk>)
    returns (out: seq<Scored>)
    requires Tallied(AllShares(lists, k), order, scores, byId)
    ensures out == Entries(FusedIds(lists, k, topK), lists, k)
  {
    hide AllShares, FirstIds, SortDescending, LastWithId, Fused, SumFor;
    var score := (id: nat) => if id in scores then scores[id] else 0.0;
    forall id: nat ensures score(id) == FusedScore(lists, k)(id) {
      AllSharesAddUp(lists, k, id);
    }
    SortsAlike(order, score, FusedScore(lists, k));
    SortMeaning(order, score);
    var sorted := SortDescending(order, score);
    var ids := Top(sorted, topK);
    forall id | id in ids ensures id in scores && id in byId {
      assert id in multiset(sorted);
    }
    out := seq(|ids|, i requires 0 <= i < |ids| && ids[i] in scores && ids[i] in byId =>
                 Scored(byId[ids[i]], scores[ids[i]]));
  }

  lemma {:induction false} InsertsAlike(id: nat, sorted: seq<nat>, f: nat -> real, g: nat -> real)
    requires forall x: nat :: f(x) == g(x)
    ensures Insert(id, sorted, f) == Insert(id, sorted, g)
  {
    if sorted != [] {
      InsertsAlike(id, sorted[1..], f, g);
    }
  }

  lemma {:induction false} SortsAlike(ids: seq<nat>, f: nat -> real, g: nat -> real)
    requires forall x: nat :: f(x) == g(x)
    ensures SortDescending(ids, f) == SortDescending(ids, g)
  {
    if ids != [] {
      SortsAlike(ids[1..], f, g);
      InsertsAlike(ids[0], SortDescending(ids[1..], f), f, g);
    }
  }

  // ----- Main results about fusion -----

  lemma {:induction false} FirstIdsMeaning(shares: seq<Scored>)
    ensures Distinct(FirstIds(shares))
    ensures forall id :: id in FirstIds(shares) <==> exists i :: 0 <= i < |shares| && shares[i].chunk.id == id
  {
    if shares != [] {
      FirstIdsMeaning(shares[..|shares| - 1]);
    }
  }

  /** Id `a` is read before id `b`: some place of `a` comes before every place of `b`. */
  ghost predicate ReadBefore(shares: seq<Scored>, a: nat, b: nat) {
    exists i :: 0 <= i < |shares| && shares[i].chunk.id == a && forall j :: 0 <= j <= i ==> shares[j].chunk.id != b
  }

  /** The first ids stand in the order in which they are first read. */
  lemma {:induction false} FirstIdsInOrder(shares: seq<Scored>, p: nat, q: nat)
    requires p < q < |FirstIds(shares)|
    ensures ReadBefore(shares, FirstIds(shares)[p], FirstIds(shares)[q])
  {
    var n := |shares| - 1;
    var front, ids := shares[..n], FirstIds(shares[..n]);
    FirstIdsMeaning(front);
    var a, b := FirstIds(shares)[p], FirstIds(shares)[q];
    if q < |ids| {
      FirstIdsInOrder(front, p, q);
      var i :| 0 <= i < |front| && front[i].chunk.id == a && forall j :: 0 <= j <= i ==> front[j].chunk.id != b;
      assert shares[i] == front[i];
      assert forall j :: 0 <= j <= i ==> shares[j] == front[j];
    } else {
      assert b !in ids && a in ids;
      var i :| 0 <= i < |front| && front[i].chunk.id == a;
      assert shares[i] == front[i];
      assert forall j :: 0 <= j <= i ==> shares[j] == front[j] && front[j].chunk.id != b;
    }
  }

  lemma {:induction false} WithScorePlaces(ids: seq<nat>, score: nat -> real, s: real, i: nat, j: nat)
      returns (p: nat, q: nat)
    requires i < j < |ids| && score(ids[i]) == s && score(ids[j]) == s
    ensures p < q < |WithScore(ids, score, s)|
    ensures WithScore(ids, score, s)[p] == ids[i] && WithScore(ids, score, s)[q] == ids[j]
  {
    if i == 0 {
      p := 0;
      var k := WithScorePlace(ids[1..], score, s, j - 1);
      q := k + 1;
    } else {
      p, q := WithScorePlaces(ids[1..], score, s, i - 1, j - 1);
      if score(ids[0]) == s {
        p, q := p + 1, q + 1;
      }
    }
  }

  lemma {:induction false} WithScorePlace(ids: seq<nat>, score: nat -> real, s: real, j: nat) returns (q: nat)
    requires j < |ids| && score(ids[j]) == s
    ensures q < |WithScore(ids, score, s)| && WithScore(ids, score, s)[q] == ids[j]
  {
    if j == 0 {
      q := 0;
    } else {
      q := WithScorePlace(ids[1..], score, s, j - 1);
      if score(ids[0]) == s {
        q := q + 1;
      }
    }
  }

  /** Place `k` of the selection is place `places[k]` of the whole. */
  lemma {:induction false} WithScoreSource(ids: seq<nat>, score: nat -> real, s: real, p: nat, q: nat)
      returns (i: nat, j: nat)
    requires p < q < |WithScore(ids, score, s)|
    ensures i < j < |ids| && ids[i] == WithScore(ids, score, s)[p] && ids[j] == WithScore(ids, score, s)[q]
  {
    if score(ids[0]) == s && p == 0 {
      var k := WithScoreMember(ids[1..], score, s, q - 1);
      i, j := 0, k + 1;
    } else {
      var d := if score(ids[0]) == s then 1 else 0;
      i, j := WithScoreSource(ids[1..], score, s, p - d, q - d);
      i, j := i + 1, j + 1;
    }
  }

  lemma {:induction false} WithScoreMember(ids: seq<nat>, score: nat -> real, s: real, q: nat) returns (j: nat)
    requires q < |WithScore(ids, score, s)|
    ensures j < |ids| && ids[j] == WithScore(ids, score, s)[q]
  {
    if score(ids[0]) == s && q == 0 {
      j := 0;
    } else {
      var k := WithScoreMember(ids[1..], score, s, if score(ids[0]) == s then q - 1 else q);
      j := k + 1;
    }
  }

  /** Rank `r` of list `i` shows id `a`, and up to there, list by list and rank by rank, `b` is not shown. */
  ghost predicate ShownFirst(lists: seq<RankedList>, a: nat, b: nat, i: nat, r: nat) {
    && i < |lists| && r < |lists[i]| && lists[i][r].id == a
    && (forall j, q :: 0 <= j < i && 0 <= q < |lists[j]| ==> lists[j][q].id != b)
    && (forall q :: 0 <= q <= r ==> lists[i][q].id != b)
  }

  lemma {:induction false} ReadInFront(front: seq<Scored>, back: seq<Scored>, x: nat, a: nat, b: nat)
    requires x < |front| && (front + back)[x].chunk.id == a
    requires forall j :: 0 <= j <= x ==> (front + back)[j].chunk.id != b
    ensures ReadBefore(front, a, b)
  {
    assert forall j :: 0 <= j <= x ==> (front + back)[j] == front[j];
  }

  lemma {:induction false} ReadBehind(front: seq<Scored>, back: seq<Scored>, x: nat, a: nat, b: nat)
    requires |front| <= x < |front + back| && (front + back)[x].chunk.id == a
    requires forall j :: 0 <= j <= x ==> (front + back)[j].chunk.id != b
    ensures back[x - |front|].chunk.id == a && !Shared(front, b)
    ensures forall q :: 0 <= q <= x - |front| ==> back[q].chunk.id != b
  {
    assert forall j :: 0 <= j < |front| ==> (front + back)[j] == front[j];
    assert forall q :: 0 <= q <= x - |front| ==> (front + back)[|front| + q] == back[q];
  }

  lemma {:induction false} ReadBeforeIsShownFirst(lists: seq<RankedList>, k: nat, a: nat, b: nat)
      returns (i: nat, r: nat)
    requires ReadBefore(AllShares(lists, k), a, b)
    ensures ShownFirst(lists, a, b, i, r)
  {
    var n := |lists| - 1;
    var before, last := AllShares(lists[..n], k), Shares(lists[n], k);
    var all := AllShares(lists, k);
    assert all == before + last;
    hide AllShares, Shares;
    var x :| 0 <= x < |all| && all[x].chunk.id == a && forall j :: 0 <= j <= x ==> all[j].chunk.id != b;
    if x < |before| {
      ReadInFront(before, last, x, a, b);
      i, r := ReadBeforeIsShownFirst(lists[..n], k, a, b);
    } else {
      i, r := n, x - |before|;
      SharesOccur(lists[n], k);
      ReadBehind(before, last, x, a, b);
      AllSharesOccur(lists[..n], k, b);
      assert forall j :: 0 <= j < n ==> lists[..n][j] == lists[j];
    }
  }

  /** Of two returned ids with the same score, the one that is shown first, list by list and rank by rank, comes
      first. */
  lemma {:induction false} TiesGoToTheFirstShown(lists: seq<RankedList>, k: nat, topK: nat, i: nat, j: nat)
      returns (n: nat, r: nat)
    requires i < j < |FusedIds(lists, k, topK)|
    requires var ids := FusedIds(lists, k, topK); Fused(lists, k, ids[i]) == Fused(lists, k, ids[j])
    ensures var ids := FusedIds(lists, k, topK); ShownFirst(lists, ids[i], ids[j], n, r)
  {
    hide AllShares, FirstIds, SortDescending, Fused, WithScore, ReadBefore, ShownFirst;
    var shares, score := AllShares(lists, k), FusedScore(lists, k);
    var all := FirstIds(shares);
    var sorted := SortDescending(all, score);
    var s := score(sorted[i]);
    SortIsStable(all, score, s);
    var p, q := WithScorePlaces(sorted, score, s, i, j);
    var a, b := WithScoreSource(all, score, s, p, q);
    FirstIdsInOrder(shares, a, b);
    n, r := ReadBeforeIsShownFirst(lists, k, all[a], all[b]);
  }

  predicate Occurs(lists: seq<RankedList>, id: nat) {
    exists i, r :: 0 <= i < |lists| && 0 <= r < |lists[i]| && lists[i][r].id == id
  }

  lemma {:induction false} DistinctPermutation(a: seq<nat>, b: seq<nat>)
    requires Distinct(a) && multiset(a) == multiset(b)
    ensures Distinct(b) && |a| == |b| && forall x :: x in a <==> x in b
  {
    DistinctMultiset(a);
    forall x ensures x in a <==> x in b {
      assert x in multiset(a) <==> x in multiset(b);
    }
    SimpleMultisetIsDistinct(b);
    assert |multiset(a)| == |a| && |multiset(b)| == |b|;
  }

  lemma {:induction false} SimpleMultisetIsDistinct(b: seq<nat>)
    requires forall x :: multiset(b)[x] <= 1
    ensures Distinct(b)
  {
    if b != [] {
      var front, last := b[..|b| - 1], b[|b| - 1];
      assert b == front + [last];
      assert multiset(b) == multiset(front) + multiset{last};
      forall x ensures multiset(front)[x] + multiset{last}[x] <= 1 {
        assert multiset(b)[x] <= 1;
      }
      SimpleMultisetIsDistinct(front);
      assert multiset{last}[last] == 1;
      assert last in multiset(front) <==> last in front;
    }
  }

  lemma {:induction false} DistinctMultiset(a: seq<nat>)
    requires Distinct(a)
    ensures forall x :: multiset(a)[x] <= 1
  {
    if a != [] {
      var front := a[..|a| - 1];
      DistinctMultiset(front);
      assert a == front + [a[|a| - 1]];
      forall x ensures multiset(a)[x] <= 1 {
        assert x in multiset(front) <==> x in front;
      }
    }
  }

  /** The fused ids are distinct, as many as asked for or as there are, best first, and no id that was
      left out scores higher than one that was kept. */
  lemma {:induction false} FusionKeepsTheBest(lists: seq<RankedList>, k: nat, topK: nat)
    ensures var all, ids := FirstIds(AllShares(lists, k)), FusedIds(lists, k, topK);
            && Distinct(ids) && Descending(ids, FusedScore(lists, k))
            && |ids| == (if topK < |all| then topK else |all|)
            && (forall id :: id in ids ==> id in all)
            && (forall kept, left :: kept in ids && left in all && left !in ids ==>
                  Fused(lists, k, kept) >= Fused(lists, k, left))
  {
    var all, score := FirstIds(AllShares(lists, k)), FusedScore(lists, k);
    var sorted := SortDescending(all, score);
    FirstIdsMeaning(AllShares(lists, k));
    SortMeaning(all, score);
    DistinctPermutation(all, sorted);
    hide AllShares, FirstIds, SortDescending, Fused;
    var ids := Top(sorted, topK);
    forall kept, left | kept in ids && left in all && left !in ids ensures score(kept) >= score(left) {
      var i :| 0 <= i < |ids| && ids[i] == kept;
      var j :| 0 <= j < |sorted| && sorted[j] == left;
      assert sorted[i] == kept && i < j;
    }
  }

  lemma {:induction false} SharesOccur(lst: RankedList, k: nat)
    ensures |Shares(lst, k)| == |lst|
    ensures forall r :: 0 <= r < |lst| ==> Shares(lst, k)[r].chunk == lst[r]
  {
    if lst != [] {
      SharesOccur(lst[..|lst| - 1], k);
    }
  }

  /** The ids that can be returned are exactly those that occur in some list. */
  lemma {:induction false} FusedIdsOccur(lists: seq<RankedList>, k: nat, id: nat)
    ensures id in FirstIds(AllShares(lists, k)) <==> Occurs(lists, id)
  {
    FirstIdsMeaning(AllShares(lists, k));
    AllSharesOccur(lists, k, id);
  }

  predicate Shared(shares: seq<Scored>, id: nat) {
    exists i :: 0 <= i < |shares| && shares[i].chunk.id == id
  }

  predicate Listed(lst: RankedList, id: nat) {
    exists r :: 0 <= r < |lst| && lst[r].id == id
  }

  lemma {:induction false} SharedAppends(a: seq<Scored>, b: seq<Scored>, id: nat)
    ensures Shared(a + b, id) <==> Shared(a, id) || Shared(b, id)
  {
    var all := a + b;
    if i :| 0 <= i < |a| && a[i].chunk.id == id {
      assert all[i] == a[i];
    }
    if i :| 0 <= i < |b| && b[i].chunk.id == id {
      assert all[|a| + i] == b[i];
    }
  }

  lemma {:induction false} AllSharesOccur(lists: seq<RankedList>, k: nat, id: nat)
    ensures Shared(AllShares(lists, k), id) <==> Occurs(lists, id)
  {
    if lists != [] {
      var n := |lists| - 1;
      AllSharesOccur(lists[..n], k, id);
      SharesOccur(lists[n], k);
      SharedAppends(AllShares(lists[..n], k), Shares(lists[n], k), id);
      assert Shared(Shares(lists[n], k), id) <==> Listed(lists[n], id) by {
        if r :| 0 <= r < |lists[n]| && lists[n][r].id == id {
          assert Shares(lists[n], k)[r].chunk == lists[n][r];
        }
      }
    }
  }

  lemma {:induction false} FusedAppends(a: seq<RankedList>, b: seq<RankedList>, k: nat, id: nat)
    ensures Fused(a + b, k, id) == Fused(a, k, id) + Fused(b, k, id)
  {
    if b == [] {
      assert a + b == a;
    } else {
      assert (a + b)[..|a + b| - 1] == a + b[..|b| - 1];
      FusedAppends(a, b[..|b| - 1], k, id);
    }
  }

  /** The order of the ranked lists does not matter to any score. */
  lemma {:induction false} ListOrderIsIrrelevant(a: seq<RankedList>, b: seq<RankedList>, k: nat, id: nat)
    requires multiset(a) == multiset(b)
    ensures Fused(a, k, id) == Fused(b, k, id)
  {
    if a == [] {
      assert |multiset(a)| == |multiset(b)|;
    } else {
      var front, last := a[..|a| - 1], a[|a| - 1];
      assert a == front + [last];
      assert last in multiset(b);
      var j :| 0 <= j < |b| && b[j] == last;
      var rest := b[..j] + b[j + 1..];
      assert b == b[..j] + [last] + b[j + 1..];
      assert multiset(a) == multiset(front) + multiset{last};
      assert multiset(b) == multiset(b[..j]) + multiset{last} + multiset(b[j + 1..]);
      assert multiset(rest) == multiset(b[..j]) + multiset(b[j + 1..]);
      assert multiset(front) == multiset(a) - multiset{last} == multiset(rest);
      ListOrderIsIrrelevant(front, rest, k, id);
      FusedAppends(b[..j], b[j + 1..], k, id);
      FusedAppends(b[..j], [last], k, id);
      FusedAppends(b[..j] + [last], b[j + 1..], k, id);
      assert Fused([last], k, id) == ListScore(last, k, id) by {
        assert [last][..0] == [];
      }
    }
  }

  ghost predicate DistinctIds(lst: RankedList) {
    forall i, j :: 0 <= i < j < |lst| ==> lst[i].id != lst[j].id
  }

  lemma {:induction false} ListScoreOfAbsent(lst: RankedList, k: nat, id: nat)
    requires forall r :: 0 <= r < |lst| ==> lst[r].id != id
    ensures ListScore(lst, k, id) == 0.0
  {
    if lst != [] {
      ListScoreOfAbsent(lst[..|lst| - 1], k, id);
    }
  }

  /** In a list without repeats a chunk at position `r` (from 0) gets 1/(k + r + 1). */
  lemma {:induction false} ListScoreAt(lst: RankedList, k: nat, r: nat)
    requires DistinctIds(lst) && r < |lst|
    ensures ListScore(lst, k, lst[r].id) == 1.0 / (k + r + 1) as real
  {
    var front := lst[..|lst| - 1];
    if r == |front| {
      ListScoreOfAbsent(front, k, lst[r].id);
    } else {
      ListScoreAt(front, k, r);
    }
  }

  lemma {:induction false} ReciprocalDecreases(x: nat, y: nat)
    requires 0 < x < y
    ensures 1.0 / x as real > 1.0 / y as real > 0.0
  {
    assert 1.0 / x as real * (x as real * y as real) == y as real;
    assert 1.0 / y as real * (x as real * y as real) == x as real;
  }

  /** Chunk `a` stands before chunk `b` in the list, unless the list does not contain `b`. */
  ghost predicate AheadIn(lst: RankedList, a: nat, b: nat) {
    forall r :: 0 <= r < |lst| && lst[r].id == b ==> exists q :: 0 <= q < r && lst[q].id == a
  }

  lemma {:induction false} AheadScoresMore(lst: RankedList, k: nat, a: nat, b: nat)
    requires DistinctIds(lst) && AheadIn(lst, a, b)
    ensures ListScore(lst, k, a) >= ListScore(lst, k, b)
    ensures (exists r :: 0 <= r < |lst| && lst[r].id == b) ==> ListScore(lst, k, a) > ListScore(lst, k, b)
  {
    if r :| 0 <= r < |lst| && lst[r].id == b {
      var q :| 0 <= q < r && lst[q].id == a;
      ListScoreAt(lst, k, r);
      ListScoreAt(lst, k, q);
      ReciprocalDecreases(k + q + 1, k + r + 1);
    } else {
      ListScoreOfAbsent(lst, k, b);
      if q :| 0 <= q < |lst| && lst[q].id == a {
        ListScoreAt(lst, k, q);
        ReciprocalDecreases(k + q + 1, k + q + 2);
      } else {
        ListScoreOfAbsent(lst, k, a);
      }
    }
  }

  /** A chunk that is ahead of another in every list containing the other gets a strictly higher score. */
  lemma {:induction false} AheadEverywhereScoresMore(lists: seq<RankedList>, k: nat, a: nat, b: nat)
    requires forall i :: 0 <= i < |lists| ==> DistinctIds(lists[i]) && AheadIn(lists[i], a, b)
    ensures Fused(lists, k, a) >= Fused(lists, k, b)
    ensures Occurs(lists, b) ==> Fused(lists, k, a) > Fused(lists, k, b)
  {
    if lists != [] {
      var n := |lists| - 1;
      AheadEverywhereScoresMore(lists[..n], k, a, b);
      AheadScoresMore(lists[n], k, a, b);
      if i, r :| 0 <= i < |lists| && 0 <= r < |lists[i]| && lists[i][r].id == b {
        if i < n {
          assert lists[..n][i][r].id == b;
        }
      }
    }
  }

  /** Every returned score is positive. */
  lemma {:induction false} FusedIsPositive(lists: seq<RankedList>, k: nat, id: nat)
    ensures Fused(lists, k, id) >= 0.0
    ensures Occurs(lists, id) ==> Fused(lists, k, id) > 0.0
  {
    if lists != [] {
      var n := |lists| - 1;
      FusedIsPositive(lists[..n], k, id);
      ListScoreIsPositive(lists[n], k, id);
      if i, r :| 0 <= i < |lists| && 0 <= r < |lists[i]| && lists[i][r].id == id {
        if i < n {
          assert lists[..n][i][r].id == id;
        }
      }
    }
  }

  lemma {:induction false} ListScoreIsPositive(lst: RankedList, k: nat, id: nat)
    ensures ListScore(lst, k, id) >= 0.0
    ensures (exists r :: 0 <= r < |lst| && lst[r].id == id) ==> ListScore(lst, k, id) > 0.0
  {
    if lst != [] {
      var front := lst[..|lst| - 1];
      ListScoreIsPositive(front, k, id);
      ReciprocalDecreases(k + |lst|, k + |lst| + 1);
      if r :| 0 <= r < |lst| && lst[r].id == id {
        if r < |front| {
          assert front[r].id == id;
        }
      }
    }
  }
}

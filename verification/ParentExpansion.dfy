/** After the reranker: small-to-big expansion of the selected children into their parents, and the
    score each returned block gets. The reranker's order is any sequence of integers. */
module ParentExpansion {
  import opened RankFusion
  import opened Picking

  /** The rows of the chunk table, by id. */
  type Table = map<nat, Chunk>

  ghost predicate KeyedById(table: Table) {
    forall id :: id in table ==> table[id].id == id
  }

  /** A parent id of 0 is falsy and counts as none. */
  predicate HasParent(c: Chunk) {
    c.parentId.Id? && c.parentId.value != 0
  }

  function TargetId(c: Chunk): nat {
    if HasParent(c) then c.parentId.value else c.id
  }

  predicate ParentPresent(c: Chunk, table: Table) {
    HasParent(c) ==> c.parentId.value in table
  }

  /** The block shown for a selected chunk: its parent's row, or the chunk itself when it has no parent
      or the parent's row is gone. */
  function Target(c: Chunk, table: Table): Chunk {
    if HasParent(c) && c.parentId.value in table then table[c.parentId.value] else c
  }

  function Targets(chunks: seq<Chunk>, table: Table): seq<Chunk> {
    seq(|chunks|, i requires 0 <= i < |chunks| => Target(chunks[i], table))
  }

  predicate HasId(chunks: seq<Chunk>, id: nat) {
    exists i :: 0 <= i < |chunks| && chunks[i].id == id
  }

  /** The chunks without those whose id occurred before. */
  function FirstOccurrences(chunks: seq<Chunk>): seq<Chunk> {
    if chunks == [] then []
    else
      var front, last := chunks[..|chunks| - 1], chunks[|chunks| - 1];
      if HasId(front, last.id) then FirstOccurrences(front) else FirstOccurrences(front) + [last]
  }

  /** The best score of a target among the selected chunks, at least 0. */
  function BestFor(selected: seq<Scored>, id: nat): real {
    if selected == [] then 0.0
    else
      var before, last := BestFor(selected[..|selected| - 1], id), selected[|selected| - 1];
      if TargetId(last.chunk) == id && last.score > before then last.score else before
  }

  function Selected(fused: seq<Scored>, order: seq<int>): seq<Scored> {
    if order == [] then []
    else
      var front, i := Selected(fused, order[..|order| - 1]), order[|order| - 1];
      if 0 <= i < |fused| then front + [fused[i]] else front
  }

  function ChunksOf(selected: seq<Scored>): seq<Chunk> {
    seq(|selected|, i requires 0 <= i < |selected| => selected[i].chunk)
  }

  function Results(selected: seq<Scored>, table: Table): seq<Scored> {
    var blocks := FirstOccurrences(Targets(ChunksOf(selected), table));
    seq(|blocks|, i requires 0 <= i < |blocks| => Scored(blocks[i], BestFor(selected, blocks[i].id)))
  }

  // ----- The loops -----

  method ExpandParents(table: Table, chunks: seq<Chunk>) returns (out: seq<Chunk>)
    ensures out == FirstOccurrences(Targets(chunks, table))
  {
    var parentIds := set c | c in chunks && HasParent(c) :: c.parentId.value;
    var parents := map id | id in parentIds && id in table :: table[id];
    var seen: set<nat> := {};
    out := [];
    for i := 0 to |chunks|
      invariant out == FirstOccurrences(Targets(chunks, table)[..i])
      invariant forall id: nat :: id in seen <==> HasId(Targets(chunks, table)[..i], id)
    {
      var c := chunks[i];
      assert HasParent(c) ==> c.parentId.value in parentIds;
      var target := if HasParent(c) && c.parentId.value in parents then parents[c.parentId.value] else c;
      OneMoreTarget(Targets(chunks, table), i);
      if target.id in seen { continue; }
      seen := seen + {target.id};
      out := out + [target];
    }
    assert Targets(chunks, table)[..|chunks|] == Targets(chunks, table);
  }

  lemma {:induction false} OneMoreTarget(targets: seq<Chunk>, i: nat)
    requires i < |targets|
    ensures FirstOccurrences(targets[..i + 1])
         == if HasId(targets[..i], targets[i].id) then FirstOccurrences(targets[..i])
            else FirstOccurrences(targets[..i]) + [targets[i]]
    ensures forall id :: HasId(targets[..i + 1], id) <==> HasId(targets[..i], id) || targets[i].id == id
  {
    assert targets[..i + 1][..i] == targets[..i];
    forall id ensures HasId(targets[..i + 1], id) <==> HasId(targets[..i], id) || targets[i].id == id {
      HasIdAppends(targets[..i], targets[i], id);
      assert targets[..i + 1] == targets[..i] + [targets[i]];
    }
  }

  lemma {:induction false} HasIdAppends(chunks: seq<Chunk>, c: Chunk, id: nat)
    ensures HasId(chunks + [c], id) <==> HasId(chunks, id) || c.id == id
  {
    var all := chunks + [c];
    assert all[|chunks|] == c;
    if i :| 0 <= i < |chunks| && chunks[i].id == id {
      assert all[i].id == id;
    }
  }

  method RankResults(fused: seq<Scored>, order: seq<int>, table: Table) returns (results: seq<Scored>)
    ensures results == Results(Selected(fused, order), table)
  {
    var final: seq<Scored> := [];
    for n := 0 to |order|
      invariant final == Selected(fused, order[..n])
    {
      assert order[..n + 1][..n] == order[..n];
      if 0 <= order[n] < |fused| {
        final := final + [fused[order[n]]];
      }
    }
    assert order[..|order|] == order;
    var best: map<nat, real> := map[];
    for n := 0 to |final|
      invariant forall id: nat :: BestFor(final[..n], id) == if id in best then best[id] else 0.0
    {
      assert final[..n + 1][..n] == final[..n];
      var tid := TargetId(final[n].chunk);
      var sofar := if tid in best then best[tid] else 0.0;
      best := best[tid := if final[n].score > sofar then final[n].score else sofar];
    }
    assert final[..|final|] == final;
    var expanded := ExpandParents(table, ChunksOf(final));
    results := seq(|expanded|, i requires 0 <= i < |expanded| =>
      Scored(expanded[i], if expanded[i].id in best then best[expanded[i].id] else 0.0));
  }

  // ----- Main results -----

  ghost predicate DistinctBlocks(blocks: seq<Chunk>) {
    forall i, j :: 0 <= i < j < |blocks| ==> blocks[i].id != blocks[j].id
  }

  /** The place in `chunks` where each kept chunk first occurs, in increasing order. */
  ghost predicate FirstPlaces(chunks: seq<Chunk>, kept: seq<Chunk>, places: seq<nat>) {
    && |places| == |kept|
    && (forall i :: 0 <= i < |kept| ==> places[i] < |chunks| && chunks[places[i]] == kept[i])
    && (forall i :: 0 <= i < |kept| ==> forall j :: 0 <= j < places[i] ==> chunks[j].id != kept[i].id)
    && (forall i, j :: 0 <= i < j < |kept| ==> places[i] < places[j])
  }

  /** Expansion keeps one block per id, in the order in which the ids first occur among the targets. */
  lemma {:induction false} ExpansionKeepsFirstOccurrences(chunks: seq<Chunk>) returns (places: seq<nat>)
    ensures FirstPlaces(chunks, FirstOccurrences(chunks), places)
    ensures forall id :: HasId(FirstOccurrences(chunks), id) <==> HasId(chunks, id)
  {
    if chunks == [] {
      places := [];
    } else {
      var n := |chunks| - 1;
      var front, last := chunks[..n], chunks[n];
      places := ExpansionKeepsFirstOccurrences(front);
      assert chunks == front + [last];
      forall id ensures HasId(FirstOccurrences(chunks), id) <==> HasId(chunks, id) {
        HasIdAppends(front, last, id);
        HasIdAppends(FirstOccurrences(front), last, id);
      }
      if !HasId(front, last.id) {
        places := places + [n];
      }
    }
  }

  /** No two blocks that are returned have the same id. */
  lemma {:induction false} BlocksAreDistinct(chunks: seq<Chunk>)
    ensures DistinctBlocks(FirstOccurrences(chunks))
  {
    var places := ExpansionKeepsFirstOccurrences(chunks);
    var kept := FirstOccurrences(chunks);
    forall i, j | 0 <= i < j < |kept| ensures kept[i].id != kept[j].id {
      assert chunks[places[i]] == kept[i] && places[i] < places[j];
    }
  }

  lemma {:induction false} BestForMeaning(selected: seq<Scored>, id: nat)
    ensures forall f :: f in selected && TargetId(f.chunk) == id ==> f.score <= BestFor(selected, id)
    ensures BestFor(selected, id) >= 0.0
    ensures BestFor(selected, id) > 0.0 ==>
              exists f :: f in selected && TargetId(f.chunk) == id && f.score == BestFor(selected, id)
  {
    if selected != [] {
      var front, last := selected[..|selected| - 1], selected[|selected| - 1];
      BestForMeaning(front, id);
      assert selected == front + [last];
      assert last in selected;
    }
  }

  /** A block's score is the highest fused score among the selected chunks it stands for. */
  ghost predicate ScoredByItsChunks(r: Scored, selected: seq<Scored>, table: Table) {
    && (forall f :: f in selected && Target(f.chunk, table).id == r.chunk.id ==> f.score <= r.score)
    && (exists f :: f in selected && Target(f.chunk, table).id == r.chunk.id && f.score == r.score)
  }

  /** What the search guarantees of the selected chunks: positive scores, one row per id, and no parent
      row among them. */
  ghost predicate SearchResult(selected: seq<Scored>) {
    && (forall f :: f in selected ==> f.score > 0.0)
    && (forall f, g :: f in selected && g in selected && f.chunk.id == g.chunk.id ==> f.chunk == g.chunk)
    && (forall f, g :: f in selected && g in selected && HasParent(f.chunk) ==> g.chunk.id != f.chunk.parentId.value)
  }

  lemma {:induction false} BlockHasSource(selected: seq<Scored>, table: Table, r: Scored) returns (f: Scored)
    requires r in Results(selected, table)
    ensures f in selected && Target(f.chunk, table) == r.chunk && r.score == BestFor(selected, r.chunk.id)
  {
    var targets := Targets(ChunksOf(selected), table);
    var places := ExpansionKeepsFirstOccurrences(targets);
    hide FirstOccurrences, BestFor;
    var i :| 0 <= i < |Results(selected, table)| && Results(selected, table)[i] == r;
    assert targets[places[i]] == r.chunk;
    f := selected[places[i]];
  }

  lemma {:induction false} SourceHasBlock(selected: seq<Scored>, table: Table, f: Scored) returns (r: Scored)
    requires f in selected
    ensures r in Results(selected, table) && r.chunk.id == Target(f.chunk, table).id
    ensures r.score == BestFor(selected, r.chunk.id)
  {
    var targets := Targets(ChunksOf(selected), table);
    var blocks := FirstOccurrences(targets);
    var _ := ExpansionKeepsFirstOccurrences(targets);
    hide FirstOccurrences, BestFor;
    var i :| 0 <= i < |selected| && selected[i] == f;
    assert targets[i].id == Target(f.chunk, table).id;
    assert HasId(blocks, Target(f.chunk, table).id);
    var j :| 0 <= j < |blocks| && blocks[j].id == Target(f.chunk, table).id;
    r := Results(selected, table)[j];
  }

  /** While every parent row is present, each block's score is the maximum over its selected children. */
  lemma {:induction false} ScoreIsBestOfChildren(selected: seq<Scored>, table: Table, r: Scored)
    requires KeyedById(table) && SearchResult(selected) && r in Results(selected, table)
    requires forall f :: f in selected ==> ParentPresent(f.chunk, table)
    ensures ScoredByItsChunks(r, selected, table)
  {
    var f := BlockHasSource(selected, table, r);
    BestForMeaning(selected, r.chunk.id);
    forall g | g in selected ensures Target(g.chunk, table).id == TargetId(g.chunk) {}
    assert TargetId(f.chunk) == r.chunk.id;
  }

  /** A chunk whose parent row is gone is shown itself, but with score 0: its score was filed under the
      missing parent. */
  lemma {:induction false} OrphanScoresZero(selected: seq<Scored>, table: Table, f: Scored) returns (r: Scored)
    requires SearchResult(selected) && f in selected && !ParentPresent(f.chunk, table)
    ensures r in Results(selected, table) && r.chunk.id == f.chunk.id && r.score == 0.0
  {
    r := SourceHasBlock(selected, table, f);
    BestForMeaning(selected, f.chunk.id);
    forall g | g in selected ensures TargetId(g.chunk) != f.chunk.id {}
  }

  /** Every block carries the best score of the chunks it stands for if and only if no parent row of a
      selected chunk is missing. */
  lemma {:induction false} ScoresAreRightIff(selected: seq<Scored>, table: Table)
    requires KeyedById(table) && SearchResult(selected)
    ensures (forall r :: r in Results(selected, table) ==> ScoredByItsChunks(r, selected, table))
       <==> (forall f :: f in selected ==> ParentPresent(f.chunk, table))
  {
    if forall f :: f in selected ==> ParentPresent(f.chunk, table) {
      forall r | r in Results(selected, table) ensures ScoredByItsChunks(r, selected, table) {
        ScoreIsBestOfChildren(selected, table, r);
      }
    } else {
      var f :| f in selected && !ParentPresent(f.chunk, table);
      var r := OrphanScoresZero(selected, table, f);
      assert Target(f.chunk, table).id == r.chunk.id && f.score > r.score;
      assert !ScoredByItsChunks(r, selected, table);
    }
  }

  // ----- Fusion feeds expansion -----

  predicate InLists(lists: seq<RankedList>, c: Chunk) {
    exists i :: 0 <= i < |lists| && c in lists[i]
  }

  lemma {:induction false} ShareComesFromList(lists: seq<RankedList>, k: nat, i: nat)
    requires i < |AllShares(lists, k)|
    ensures InLists(lists, AllShares(lists, k)[i].chunk)
  {
    var n := |lists| - 1;
    var before := AllShares(lists[..n], k);
    SharesOccur(lists[n], k);
    if i < |before| {
      ShareComesFromList(lists[..n], k, i);
      var j :| 0 <= j < n && before[i].chunk in lists[..n][j];
      assert before[i].chunk in lists[j];
    } else {
      assert Shares(lists[n], k)[i - |before|].chunk in lists[n];
    }
  }

  lemma {:induction false} LastWithIdIsAShare(shares: seq<Scored>, id: nat)
    requires Shared(shares, id)
    ensures LastWithId(shares, id).id == id
    ensures exists i :: 0 <= i < |shares| && shares[i].chunk == LastWithId(shares, id)
  {
    if shares[|shares| - 1].chunk.id != id {
      LastWithIdIsAShare(shares[..|shares| - 1], id);
    }
  }

  /** Whatever order a reranker returns, the chunks it selects from a fusion of searches that return no
      parent rows satisfy what the scoring of blocks relies on. */
  lemma {:induction false} FusionFeedsExpansion(lists: seq<RankedList>, k: nat, topK: nat, order: seq<int>)
    requires forall c, d :: InLists(lists, c) && InLists(lists, d) && HasParent(c) ==> d.id != c.parentId.value
    ensures SearchResult(Selected(Entries(FusedIds(lists, k, topK), lists, k), order))
  {
    var ids := FusedIds(lists, k, topK);
    var fused := Entries(ids, lists, k);
    var selected := Selected(fused, order);
    FusionKeepsTheBest(lists, k, topK);
    hide FusedIds, Selected, Fused, FirstIds, Shared, Occurs;
    forall f | f in selected
      ensures f in fused && f.score > 0.0 && InLists(lists, f.chunk)
      ensures f.chunk == LastWithId(AllShares(lists, k), f.chunk.id)
    {
      SelectedFrom(fused, order, f);
      var i :| 0 <= i < |fused| && fused[i] == f;
      FusedIdsOccur(lists, k, ids[i]);
      EntryMeaning(lists, k, ids[i]);
    }
  }

  lemma {:induction false} SelectedFrom(fused: seq<Scored>, order: seq<int>, f: Scored)
    requires f in Selected(fused, order)
    ensures f in fused
  {
    if f in Selected(fused, order[..|order| - 1]) {
      SelectedFrom(fused, order[..|order| - 1], f);
    }
  }

  lemma {:induction false} EntryMeaning(lists: seq<RankedList>, k: nat, id: nat)
    requires Occurs(lists, id)
    ensures var c := LastWithId(AllShares(lists, k), id);
            c.id == id && InLists(lists, c) && Fused(lists, k, id) > 0.0
  {
    AllSharesOccur(lists, k, id);
    FusedIsPositive(lists, k, id);
    LastWithIdIsAShare(AllShares(lists, k), id);
    var i :| 0 <= i < |AllShares(lists, k)| && AllShares(lists, k)[i].chunk == LastWithId(AllShares(lists, k), id);
    ShareComesFromList(lists, k, i);
  }

  // ----- The reranker's order -----

  function InRange(n: nat): int -> bool {
    (i: int) => 0 <= i < n
  }

  /** The selection follows the reranker: one chunk for each index in range, in the order given. */
  lemma {:induction false} SelectedMeaning(fused: seq<Scored>, order: seq<int>) returns (places: seq<nat>)
    ensures Picks(order, InRange(|fused|), places) && |Selected(fused, order)| == |places|
    ensures forall k :: 0 <= k < |places| ==>
              places[k] < |order| && 0 <= order[places[k]] < |fused|
              && Selected(fused, order)[k] == fused[order[places[k]]]
  {
    hide Picks;
    if order == [] {
      places := [];
      PicksNone(InRange(|fused|));
    } else {
      var n := |order| - 1;
      places := SelectedMeaning(fused, order[..n]);
      assert order == order[..n] + [order[n]];
      PicksNext(order[..n], order[n], InRange(|fused|), places);
      if 0 <= order[n] < |fused| {
        places := places + [n];
      }
    }
  }

  /** The reranker's entry `p` is in range and its chunk is shown as block `id`. */
  predicate Shows(fused: seq<Scored>, order: seq<int>, table: Table, p: nat, id: nat) {
    p < |order| && 0 <= order[p] < |fused| && Target(fused[order[p]].chunk, table).id == id
  }

  /** `p` is the first place of the order that shows block `id`. */
  ghost predicate FirstShows(fused: seq<Scored>, order: seq<int>, table: Table, p: nat, id: nat) {
    Shows(fused, order, table, p, id) && forall q: nat :: q < p ==> !Shows(fused, order, table, q, id)
  }

  /** The block of a chunk is the row of its parent, when it names one and the row is there, else the chunk. */
  ghost predicate IsBlockOf(block: Chunk, c: Chunk, table: Table) {
    if c.parentId.Id? && c.parentId.value != 0 && c.parentId.value in table then block == table[c.parentId.value]
    else block == c
  }

  /** The reranker's places of the blocks: block by block the first one that shows it, and they increase. */
  ghost predicate RankedAt(fused: seq<Scored>, order: seq<int>, table: Table, blocks: seq<Chunk>, ranks: seq<nat>) {
    && |ranks| == |blocks|
    && (forall i :: 0 <= i < |blocks| ==>
          FirstShows(fused, order, table, ranks[i], blocks[i].id)
          && IsBlockOf(blocks[i], fused[order[ranks[i]]].chunk, table))
    && (forall i, j :: 0 <= i < j < |blocks| ==> ranks[i] < ranks[j])
  }

  lemma {:induction false} FirstAmongSelected(fused: seq<Scored>, order: seq<int>, table: Table, places: seq<nat>,
                                              targets: seq<Chunk>, k: nat)
    requires Picks(order, InRange(|fused|), places) && |targets| == |places| && k < |places|
    requires forall n :: 0 <= n < |places| ==>
               places[n] < |order| && 0 <= order[places[n]] < |fused|
               && targets[n] == Target(fused[order[places[n]]].chunk, table)
    requires forall n :: 0 <= n < k ==> targets[n].id != targets[k].id
    ensures FirstShows(fused, order, table, places[k], targets[k].id)
  {
    hide Target;
    forall q: nat | q < places[k] ensures !Shows(fused, order, table, q, targets[k].id) {
      if 0 <= order[q] < |fused| {
        assert InRange(|fused|)(order[q]);
        assert q in places;
        var n :| 0 <= n < |places| && places[n] == q;
        assert n < k;
      }
    }
  }

  /** Each block stands where the reranker first names one of its chunks: block `i` comes before block `j` if
      and only if the first index in range for a chunk of block `i` comes before that for block `j`. */
  lemma {:induction false} BlocksFollowTheReranker(fused: seq<Scored>, order: seq<int>, table: Table)
    returns (ranks: seq<nat>)
    ensures RankedAt(fused, order, table, ChunksOf(Results(Selected(fused, order), table)), ranks)
    ensures forall p, id :: Shows(fused, order, table, p, id) ==>
              HasId(ChunksOf(Results(Selected(fused, order), table)), id)
  {
    hide Selected, Target, Picks, BestFor, FirstOccurrences, HasId;
    var selected := Selected(fused, order);
    var targets := Targets(ChunksOf(selected), table);
    var blocks := FirstOccurrences(targets);
    var places := SelectedMeaning(fused, order);
    var firsts := ExpansionKeepsFirstOccurrences(targets);
    assert ChunksOf(Results(selected, table)) == blocks;
    ranks := seq(|blocks|, i requires 0 <= i < |blocks| => places[firsts[i]]);
    forall i | 0 <= i < |blocks|
      ensures FirstShows(fused, order, table, ranks[i], blocks[i].id)
              && IsBlockOf(blocks[i], fused[order[ranks[i]]].chunk, table)
    {
      FirstAmongSelected(fused, order, table, places, targets, firsts[i]);
      TargetIsBlock(fused[order[ranks[i]]].chunk, table);
    }
    PicksInOrder(order, InRange(|fused|), places);
    forall p, id | Shows(fused, order, table, p, id) ensures HasId(blocks, id) {
      ShownIsTarget(fused, order, table, places, targets, p, id);
    }
  }

  lemma {:induction false} TargetIsBlock(c: Chunk, table: Table)
    ensures IsBlockOf(Target(c, table), c, table)
  {
  }

  lemma {:induction false} ShownIsTarget(fused: seq<Scored>, order: seq<int>, table: Table, places: seq<nat>,
                                         targets: seq<Chunk>, p: nat, id: nat)
    requires Picks(order, InRange(|fused|), places) && |targets| == |places|
    requires forall n :: 0 <= n < |places| ==>
               places[n] < |order| && 0 <= order[places[n]] < |fused|
               && targets[n] == Target(fused[order[places[n]]].chunk, table)
    requires Shows(fused, order, table, p, id)
    ensures HasId(targets, id)
  {
    hide Target;
    assert InRange(|fused|)(order[p]);
    assert p in places;
    var n :| 0 <= n < |places| && places[n] == p;
    assert targets[n].id == id;
  }
}

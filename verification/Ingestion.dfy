/** Storing the chunks of a document: vectors of unchanged chunks are reused by content hash, the rest
    are embedded in batches, and the old rows are replaced by parent and child rows. SHA-256 is modelled
    by its injective preimage; the provider embeds each text by itself, and any batch may raise. */
module Ingestion {
  import opened FillIn
  import opened ChunkDocument
  import opened Picking
  import Sections

  datatype Digest = NoDigest | Sha256(text: string)

  datatype MaybeId = Null | Id(value: nat)

  datatype Row = Row(
    id: nat, documentId: nat, ordinal: nat, text: string, embedding: Found, isParent: bool, parentChunkId: MaybeId,
    section: Label, charStart: nat, charEnd: nat, contentHash: Digest, embeddingModel: string)

  const EMBED_BATCH: nat := 32

  // ----- Reuse of stored vectors -----

  /** A searchable row of the document that still has a vector and a hash. */
  predicate Reusable(r: Row, documentId: nat) {
    r.documentId == documentId && !r.isParent && r.embedding.Hit? && r.contentHash.Sha256?
  }

  /** The vector of the first reusable row with this digest. */
  function StoredVector(rows: seq<Row>, documentId: nat, h: Digest): Found {
    if rows == [] then Miss
    else if Reusable(rows[0], documentId) && rows[0].contentHash == h then rows[0].embedding
    else StoredVector(rows[1..], documentId, h)
  }

  function ReuseOf(rows: seq<Row>, documentId: nat, dedup: bool, text: string): Found {
    if dedup then StoredVector(rows, documentId, Sha256(text)) else Miss
  }

  function ReuseAll(rows: seq<Row>, documentId: nat, dedup: bool, texts: seq<string>): seq<Found> {
    seq(|texts|, i requires 0 <= i < |texts| => ReuseOf(rows, documentId, dedup, texts[i]))
  }

  function TextsOf(children: seq<Child>): seq<string> {
    seq(|children|, i requires 0 <= i < |children| => children[i].text)
  }

  /** The vector a chunk gets: the stored one when there is one, else the provider's. */
  function VectorFor(rows: seq<Row>, documentId: nat, dedup: bool, provider: string -> Vector): string -> Vector {
    (text: string) => match ReuseOf(rows, documentId, dedup, text) case Hit(v) => v case Miss => provider(text)
  }

  /** The texts the provider is asked for. */
  function ToEmbed(rows: seq<Row>, documentId: nat, dedup: bool, texts: seq<string>): seq<string> {
    var places := MissPlaces(ReuseAll(rows, documentId, dedup, texts));
    MissPlacesMeaning(ReuseAll(rows, documentId, dedup, texts));
    ItemsAt(texts, places)
  }

  /** Some batch of the requested texts raises. */
  ghost predicate SomeBatchRaises(raises: nat -> bool, texts: seq<string>) {
    exists b: nat :: b * EMBED_BATCH < |texts| && raises(b)
  }

  // ----- The rows that are written -----

  function ParentIds(children: seq<Child>, base: nat): map<nat, nat> {
    if children == [] then map[]
    else
      var before, c := ParentIds(children[..|children| - 1], base), children[|children| - 1];
      if c.parentKey in before then before else before[c.parentKey := base + |before|]
  }

  function ParentRow(c: Child, id: nat, documentId: nat, tag: string): Row {
    Row(id, documentId, c.parentKey, c.parentText, Miss, true, Null, c.section, c.parentStart, c.parentEnd,
        Sha256(c.parentText), tag)
  }

  /** One row per parent key, in order of first occurrence. */
  function ParentRows(children: seq<Child>, base: nat, documentId: nat, tag: string): seq<Row> {
    if children == [] then []
    else
      var front, c := children[..|children| - 1], children[|children| - 1];
      var before := ParentRows(front, base, documentId, tag);
      if c.parentKey in ParentIds(front, base) then before
      else before + [ParentRow(c, base + |before|, documentId, tag)]
  }

  function ChildRow(c: Child, vec: Vector, id: nat, ordinal: nat, parents: map<nat, nat>, documentId: nat,
                    tag: string): Row {
    Row(id, documentId, ordinal, c.text, Hit(vec), false,
        if c.parentKey in parents then Id(parents[c.parentKey]) else Null,
        c.section, c.charStart, c.charEnd, Sha256(c.text), tag)
  }

  function ChildRows(children: seq<Child>, vecs: seq<Vector>, base: nat, parents: map<nat, nat>, documentId: nat,
                     tag: string)
    : seq<Row>
    requires |vecs| == |children|
  {
    var p := |parents|;
    seq(|children|, i requires 0 <= i < |children| =>
      ChildRow(children[i], vecs[i], base + p + i, p + i, parents, documentId, tag))
  }

  /** All rows written for a document: parents first, then children. */
  function DocumentRows(children: seq<Child>, vec: string -> Vector, base: nat, documentId: nat,
                        tag: string): seq<Row> {
    ParentRows(children, base, documentId, tag) +
    ChildRows(children, Pointwise(TextsOf(children), vec), base, ParentIds(children, base), documentId, tag)
  }

  function OtherRows(rows: seq<Row>, documentId: nat): seq<Row> {
    if rows == [] then []
    else
      var front, last := OtherRows(rows[..|rows| - 1], documentId), rows[|rows| - 1];
      if last.documentId == documentId then front else front + [last]
  }

  lemma {:induction false} ParentsGrow(children: seq<Child>, i: nat, base: nat, documentId: nat, tag: string)
    requires i < |children|
    ensures var c, front, more := children[i], children[..i], children[..i + 1];
            var ids := ParentIds(front, base);
            && ParentIds(more, base) == (if c.parentKey in ids then ids else ids[c.parentKey := base + |ids|])
            && ParentRows(more, base, documentId, tag)
               == (if c.parentKey in ids then ParentRows(front, base, documentId, tag)
                   else ParentRows(front, base, documentId, tag) + [ParentRow(c, base + |ids|, documentId, tag)])
  {
    assert children[..i + 1][..i] == children[..i];
    ParentCounts(children[..i], base, documentId, tag);
  }

  lemma {:induction false} ParentCounts(children: seq<Child>, base: nat, documentId: nat, tag: string)
    ensures |ParentIds(children, base)| == |ParentRows(children, base, documentId, tag)|
  {
    if children != [] {
      ParentCounts(children[..|children| - 1], base, documentId, tag);
    }
  }

  // ----- The operation -----

  datatype Reply = Stored(count: nat) | EmbeddingFailed

  datatype Table = Table(rows: seq<Row>, nextId: nat)

  /** The call changes nothing when there are no children or a batch of the requested texts raises. */
  ghost predicate TakesEffect(t: Table, documentId: nat, children: seq<Child>, dedup: bool, raises: nat -> bool) {
    children != [] && !SomeBatchRaises(raises, ToEmbed(t.rows, documentId, dedup, TextsOf(children)))
  }

  /** The table after a call that takes effect. */
  function Replaced(t: Table, documentId: nat, children: seq<Child>, dedup: bool, provider: string -> Vector,
                    tag: string)
    : Table
  {
    var vec := VectorFor(t.rows, documentId, dedup, provider);
    Table(OtherRows(t.rows, documentId) + DocumentRows(children, vec, t.nextId, documentId, tag),
          t.nextId + |ParentIds(children, t.nextId)| + |children|)
  }

  ghost function TableAfter(t: Table, documentId: nat, children: seq<Child>, dedup: bool, provider: string -> Vector,
                            raises: nat -> bool, tag: string): Table
  {
    if TakesEffect(t, documentId, children, dedup, raises) then Replaced(t, documentId, children, dedup, provider, tag)
    else t
  }

  class ChunkTable {
    var rows: seq<Row>
    var nextId: nat

    function Contents(): Table
      reads this
    {
      Table(rows, nextId)
    }

    constructor ()
      ensures Contents() == Table([], 1)
    {
      rows, nextId := [], 1;
    }

    method EmbedAndStore(documentId: nat, children: seq<Child>, dedup: bool, provider: string -> Vector,
                         raises: nat -> bool, tag: string)
      returns (reply: Reply)
      modifies this
      ensures var asked := ToEmbed(old(rows), documentId, dedup, TextsOf(children));
              reply == if SomeBatchRaises(raises, asked) then EmbeddingFailed else Stored(|children|)
      ensures Contents() == TableAfter(old(Contents()), documentId, children, dedup, provider, raises, tag)
    {
      if children == [] {
        return Stored(0);
      }
      hide VectorFor, ToEmbed, OtherRows, ParentIds, ParentRows, ChildRows, Pointwise;
      var fetched, vectors := ChunkVectors(rows, documentId, TextsOf(children), dedup, provider, raises);
      if !fetched { return EmbeddingFailed; }
      var kept := WithoutDocument(documentId);
      var parentIds, parentRows := InsertParents(documentId, children, tag);
      var childRows := InsertChildren(documentId, children, vectors, parentIds, tag);
      rows := kept + (parentRows + childRows);
      reply := Stored(|children|);
    }

    /** `DELETE ... WHERE document_id = ?`. */
    method WithoutDocument(documentId: nat) returns (kept: seq<Row>)
      ensures kept == OtherRows(rows, documentId)
    {
      kept := [];
      for i := 0 to |rows|
        invariant kept == OtherRows(rows[..i], documentId)
      {
        assert rows[..i + 1][..i] == rows[..i];
        if rows[i].documentId != documentId {
          kept := kept + [rows[i]];
        }
      }
      assert rows[..|rows|] == rows;
    }

    /** The unique parents, in order of first occurrence; each flush takes the next id. */
    method InsertParents(documentId: nat, children: seq<Child>, tag: string)
      returns (parentIds: map<nat, nat>, parentRows: seq<Row>)
      modifies this`nextId
      ensures parentIds == ParentIds(children, old(nextId))
      ensures parentRows == ParentRows(children, old(nextId), documentId, tag)
      ensures nextId == old(nextId) + |parentIds|
    {
      hide ParentIds, ParentRows;
      ghost var base := nextId;
      parentIds, parentRows := map[], [];
      NoParents(children, base, documentId, tag);
      for i := 0 to |children|
        invariant parentIds == ParentIds(children[..i], base)
        invariant parentRows == ParentRows(children[..i], base, documentId, tag)
        invariant nextId == base + |parentIds|
      {
        ParentsGrow(children, i, base, documentId, tag);
        var c := children[i];
        if c.parentKey !in parentIds {
          parentRows := parentRows + [ParentRow(c, nextId, documentId, tag)];
          parentIds := parentIds[c.parentKey := nextId];
          nextId := nextId + 1;
        }
      }
      assert children[..|children|] == children;
    }

    /** The children, embedded and linked to their parents. */
    method InsertChildren(documentId: nat, children: seq<Child>, vectors: seq<Vector>, parentIds: map<nat, nat>,
                          tag: string)
      returns (childRows: seq<Row>)
      requires |vectors| == |children| && nextId >= |parentIds|
      modifies this`nextId
      ensures childRows == ChildRows(children, vectors, old(nextId) - |parentIds|, parentIds, documentId, tag)
      ensures nextId == old(nextId) + |children|
    {
      ghost var base := nextId - |parentIds|;
      var baseOrdinal := |parentIds|;
      childRows := [];
      for i := 0 to |children|
        invariant childRows == ChildRows(children, vectors, base, parentIds, documentId, tag)[..i]
        invariant nextId == base + baseOrdinal + i
      {
        var row := ChildRow(children[i], vectors[i], nextId, baseOrdinal + i, parentIds, documentId, tag);
        childRows := childRows + [row];
        nextId := nextId + 1;
      }
    }
  }

  /** Step 1: reuse what is stored, request the rest in batches, and fill the gaps in order. */
  method ChunkVectors(table: seq<Row>, documentId: nat, texts: seq<string>, dedup: bool, provider: string -> Vector,
                      raises: nat -> bool)
    returns (fetched: bool, vectors: seq<Vector>)
    ensures fetched <==> !SomeBatchRaises(raises, ToEmbed(table, documentId, dedup, texts))
    ensures fetched ==> vectors == Pointwise(texts, VectorFor(table, documentId, dedup, provider))
  {
    hide StoredVector, MissPlaces, Filled, BatchesBefore, BatchOf, VectorFor, Collect;
    ghost var vec := VectorFor(table, documentId, dedup, provider);
    var results := ReuseAll(table, documentId, dedup, texts);
    var missing := MissPlaces(results);
    MissPlacesMeaning(results);
    var missTexts := ItemsAt(texts, missing);
    ReusedAreFilled(table, documentId, dedup, texts, provider);
    vectors := [];
    var answers: seq<Vector> := [];
    var batch := 0;
    FirstBatch(missTexts);
    while batch * EMBED_BATCH < |missTexts|
      invariant answers == Pointwise(BatchesBefore(missTexts, EMBED_BATCH, batch), provider)
      invariant forall b: nat :: b < batch && b * EMBED_BATCH < |missTexts| ==> !raises(b)
      decreases |missTexts| - batch * EMBED_BATCH
    {
      if raises(batch) { return false, []; }
      var part := BatchOf(missTexts, EMBED_BATCH, batch);
      NextBatch(missTexts, EMBED_BATCH, batch);
      answers := answers + Pointwise(part, provider);
      batch := batch + 1;
    }
    AllBatches(missTexts, batch);
    for k := 0 to |missing|
      invariant Filled(texts, results, missing, k, vec)
    {
      FillOne(texts, results, missing, k, vec);
      AskedTextIsMissed(table, documentId, dedup, texts, k, provider);
      results := results[missing[k] := Hit(answers[k])];
    }
    AllFilled(texts, results, missing, vec);
    fetched, vectors := true, Collect(results);
  }

  lemma {:induction false} NoParents(children: seq<Child>, base: nat, documentId: nat, tag: string)
    ensures ParentIds(children[..0], base) == map[] && ParentRows(children[..0], base, documentId, tag) == []
  {
  }

  lemma {:induction false} FirstBatch(texts: seq<string>)
    ensures BatchesBefore(texts, EMBED_BATCH, 0) == []
  {
  }

  lemma {:induction false} AllBatches(texts: seq<string>, batch: nat)
    requires batch * EMBED_BATCH >= |texts|
    ensures BatchesBefore(texts, EMBED_BATCH, batch) == texts
    ensures forall b: nat :: b * EMBED_BATCH < |texts| ==> b < batch
  {
  }

  lemma {:induction false} ReusedAreFilled(rows: seq<Row>, documentId: nat, dedup: bool, texts: seq<string>,
                                           provider: string -> Vector)
    ensures var results := ReuseAll(rows, documentId, dedup, texts);
            Filled(texts, results, MissPlaces(results), 0, VectorFor(rows, documentId, dedup, provider))
  {
    MissPlacesMeaning(ReuseAll(rows, documentId, dedup, texts));
  }

  lemma {:induction false} AskedTextIsMissed(rows: seq<Row>, documentId: nat, dedup: bool, texts: seq<string>, k: nat,
                                             provider: string -> Vector)
    requires k < |MissPlaces(ReuseAll(rows, documentId, dedup, texts))|
    ensures var places := MissPlaces(ReuseAll(rows, documentId, dedup, texts));
            && places[k] < |texts|
            && VectorFor(rows, documentId, dedup, provider)(texts[places[k]]) == provider(texts[places[k]])
  {
    MissPlacesMeaning(ReuseAll(rows, documentId, dedup, texts));
    var places := MissPlaces(ReuseAll(rows, documentId, dedup, texts));
    assert places[k] in places;
  }

  // ----- Main results: rows and links -----

  /** Children with the same parent key carry the same parent text, span and section. */
  ghost predicate SharedParentTexts(children: seq<Child>) {
    forall i, j :: 0 <= i < |children| && 0 <= j < |children| && children[i].parentKey == children[j].parentKey ==>
      SameParent(children[i], children[j])
  }

  predicate SameParent(a: Child, b: Child) {
    a.parentText == b.parentText && a.parentStart == b.parentStart && a.parentEnd == b.parentEnd
    && a.section == b.section
  }

  /** The row stores the parent of the child: its text, hash, span and section, and no vector. */
  ghost predicate StoresParent(r: Row, c: Child, documentId: nat, tag: string) {
    && r.isParent && r.embedding == Miss && r.text == c.parentText && r.contentHash == Sha256(c.parentText)
    && r.charStart == c.parentStart && r.charEnd == c.parentEnd && r.section == c.section
    && r.documentId == documentId && r.embeddingModel == tag && r.ordinal == c.parentKey && r.parentChunkId == Null
  }

  /** The row stores the child: its text, hash, span and section. */
  ghost predicate StoresChild(r: Row, c: Child, documentId: nat, tag: string) {
    && !r.isParent && r.text == c.text && r.contentHash == Sha256(c.text)
    && r.charStart == c.charStart && r.charEnd == c.charEnd && r.section == c.section
    && r.documentId == documentId && r.embeddingModel == tag
  }

  lemma {:induction false} ParentOfKey(children: seq<Child>, base: nat, documentId: nat, tag: string, i: nat)
    returns (j: nat)
    requires i < |children| && SharedParentTexts(children)
    ensures children[i].parentKey in ParentIds(children, base)
    ensures var rows := ParentRows(children, base, documentId, tag);
            && j < |rows| && rows[j].id == ParentIds(children, base)[children[i].parentKey] == base + j
            && StoresParent(rows[j], children[i], documentId, tag)
  {
    var n := |children| - 1;
    var front, c := children[..n], children[n];
    var ids := ParentIds(front, base);
    ParentCounts(front, base, documentId, tag);
    if i < n {
      j := ParentOfKey(front, base, documentId, tag, i);
    } else if c.parentKey in ids {
      var k := KeyHasChild(front, base, c.parentKey);
      j := ParentOfKey(front, base, documentId, tag, k);
    } else {
      j := |ids|;
    }
  }

  lemma {:induction false} KeyHasChild(children: seq<Child>, base: nat, key: nat) returns (i: nat)
    requires key in ParentIds(children, base)
    ensures i < |children| && children[i].parentKey == key
  {
    var n := |children| - 1;
    if key in ParentIds(children[..n], base) {
      i := KeyHasChild(children[..n], base, key);
    } else {
      i := n;
    }
  }

  /** Every stored child row carries its own text, the vector of that text, and the id of the stored row
      that holds its parent's text. */
  lemma {:induction false} ChildRowsAreAlignedAndLinked(children: seq<Child>, vec: string -> Vector, base: nat,
                                                        documentId: nat, tag: string, i: nat)
    returns (j: nat)
    requires i < |children| && SharedParentTexts(children)
    ensures var rows, p := DocumentRows(children, vec, base, documentId, tag), |ParentIds(children, base)|;
            && |rows| == p + |children| && j < p
            && StoresChild(rows[p + i], children[i], documentId, tag)
            && rows[p + i].embedding == Hit(vec(children[i].text)) && rows[p + i].ordinal == p + i
            && rows[p + i].parentChunkId == Id(rows[j].id) && StoresParent(rows[j], children[i], documentId, tag)
  {
    hide ParentIds, ParentRows;
    ParentCounts(children, base, documentId, tag);
    j := ParentOfKey(children, base, documentId, tag, i);
    assert TextsOf(children)[i] == children[i].text;
  }

  lemma {:induction false} RowIdsAreConsecutive(children: seq<Child>, vec: string -> Vector, base: nat, documentId: nat,
                                                tag: string, k: nat)
    requires k < |DocumentRows(children, vec, base, documentId, tag)|
    ensures DocumentRows(children, vec, base, documentId, tag)[k].id == base + k
  {
    ParentCounts(children, base, documentId, tag);
    ParentRowIds(children, base, documentId, tag);
  }

  lemma {:induction false} ParentRowIds(children: seq<Child>, base: nat, documentId: nat, tag: string)
    ensures forall k :: 0 <= k < |ParentRows(children, base, documentId, tag)| ==>
              ParentRows(children, base, documentId, tag)[k].id == base + k
  {
    if children != [] {
      ParentRowIds(children[..|children| - 1], base, documentId, tag);
    }
  }

  // ----- Main results: which vectors are right -----

  lemma {:induction false} ParentRowsAreParents(children: seq<Child>, base: nat, documentId: nat, tag: string)
    ensures forall r :: r in ParentRows(children, base, documentId, tag) ==> r.isParent
  {
    if children != [] {
      ParentRowsAreParents(children[..|children| - 1], base, documentId, tag);
    }
  }

  /** Every reusable row of the document carries the provider's vector of the text its hash stands for. */
  ghost predicate Aligned(rows: seq<Row>, documentId: nat, provider: string -> Vector) {
    forall r :: r in rows && Reusable(r, documentId) ==> r.embedding == Hit(provider(r.contentHash.text))
  }

  lemma {:induction false} StoredVectorMeaning(rows: seq<Row>, documentId: nat, h: Digest)
    ensures var v := StoredVector(rows, documentId, h);
            && (v.Miss? ==> forall r :: r in rows && Reusable(r, documentId) ==> r.contentHash != h)
            && (v.Hit? ==> exists r :: r in rows && Reusable(r, documentId) && r.contentHash == h && r.embedding == v)
  {
    if rows != [] {
      StoredVectorMeaning(rows[1..], documentId, h);
    }
  }

  /** What a re-ingest may reuse: a row of the same document, searchable, with a vector and this digest. */
  predicate Offers(r: Row, documentId: nat, h: Digest) {
    && r.documentId == documentId && !r.isParent && r.embedding.Hit?
    && r.contentHash.Sha256? && r.contentHash == h
  }

  /** The first row that offers a vector wins, and there is none to reuse exactly when no row offers one. */
  lemma {:induction false} FirstStoredWins(rows: seq<Row>, documentId: nat, h: Digest)
    ensures var v := StoredVector(rows, documentId, h);
            && (v.Miss? <==> forall i :: 0 <= i < |rows| ==> !Offers(rows[i], documentId, h))
            && (v.Hit? ==> exists i :: 0 <= i < |rows| && Offers(rows[i], documentId, h) && rows[i].embedding == v
                             && forall j :: 0 <= j < i ==> !Offers(rows[j], documentId, h))
  {
    if rows != [] && !Offers(rows[0], documentId, h) {
      var rest := rows[1..];
      FirstStoredWins(rest, documentId, h);
      var v := StoredVector(rest, documentId, h);
      if v.Hit? {
        var i :| 0 <= i < |rest| && Offers(rest[i], documentId, h) && rest[i].embedding == v
                 && forall j :: 0 <= j < i ==> !Offers(rest[j], documentId, h);
        assert rows[i + 1] == rest[i];
        assert forall j :: 0 < j <= i ==> rows[j] == rest[j - 1];
      } else {
        assert forall j :: 0 < j < |rows| ==> rows[j] == rest[j - 1];
      }
    }
  }

  function NotOf(documentId: nat): Row -> bool {
    (r: Row) => r.documentId != documentId
  }

  /** Storing a document leaves the rows of all others, in their order. */
  lemma {:induction false} OtherRowsStay(rows: seq<Row>, documentId: nat) returns (places: seq<nat>)
    ensures Picks(rows, NotOf(documentId), places) && |OtherRows(rows, documentId)| == |places|
    ensures forall k :: 0 <= k < |places| ==>
              places[k] < |rows| && OtherRows(rows, documentId)[k] == rows[places[k]]
  {
    hide Picks;
    places := [];
    PicksNone(NotOf(documentId));
    if rows != [] {
      var front, last := rows[..|rows| - 1], rows[|rows| - 1];
      places := OtherRowsStay(front, documentId);
      PicksNext(front, last, NotOf(documentId), places);
      assert front + [last] == rows;
      if last.documentId != documentId {
        places := places + [|front|];
      }
    }
  }

  lemma {:induction false} OtherRowsMeaning(rows: seq<Row>, documentId: nat)
    ensures forall r :: r in OtherRows(rows, documentId) <==> r in rows && r.documentId != documentId
  {
    if rows != [] {
      OtherRowsMeaning(rows[..|rows| - 1], documentId);
      assert rows == rows[..|rows| - 1] + [rows[|rows| - 1]];
    }
  }

  /** A reusable row among the document's new rows is a child row: its hash is that of its text, and it
      carries that text's vector. */
  lemma {:induction false} NewRowMeaning(children: seq<Child>, vec: string -> Vector, base: nat, documentId: nat,
                                         tag: string, r: Row)
    requires r in DocumentRows(children, vec, base, documentId, tag) && !r.isParent
    ensures r.contentHash == Sha256(r.text) && r.embedding == Hit(vec(r.text)) && r.documentId == documentId
    ensures r.embeddingModel == tag
    ensures exists i :: 0 <= i < |children| && children[i].text == r.text
  {
    ParentRowsAreParents(children, base, documentId, tag);
    var vecs, ids := Pointwise(TextsOf(children), vec), ParentIds(children, base);
    var kids := ChildRows(children, vecs, base, ids, documentId, tag);
    var i :| 0 <= i < |kids| && kids[i] == r;
    assert children[i].text == r.text;
  }

  /** With one provider, alignment is kept by every re-ingest of any children, whatever mix of reused and
      requested vectors it uses; and then all stored vectors are the provider's. */
  lemma {:induction false} IngestKeepsAlignment(rows: seq<Row>, documentId: nat, dedup: bool, children: seq<Child>,
                                                provider: string -> Vector, base: nat, tag: string)
    requires Aligned(rows, documentId, provider)
    ensures var vec := VectorFor(rows, documentId, dedup, provider);
            && (forall i :: 0 <= i < |children| ==> vec(children[i].text) == provider(children[i].text))
            && Aligned(OtherRows(rows, documentId) + DocumentRows(children, vec, base, documentId, tag),
                       documentId, provider)
  {
    var vec := VectorFor(rows, documentId, dedup, provider);
    forall text: string ensures vec(text) == provider(text) {
      StoredVectorMeaning(rows, documentId, Sha256(text));
    }
    OtherRowsMeaning(rows, documentId);
    hide VectorFor, DocumentRows;
    forall r | r in OtherRows(rows, documentId) + DocumentRows(children, vec, base, documentId, tag)
               && Reusable(r, documentId)
      ensures r.embedding == Hit(provider(r.contentHash.text))
    {
      assert r !in OtherRows(rows, documentId);
      NewRowMeaning(children, vec, base, documentId, tag, r);
    }
  }

  // ----- Main results: ingesting again -----

  function RenumberId(id: nat, was: nat, now: nat): nat {
    if id < was then id else id - was + now
  }

  function Renumber(r: Row, was: nat, now: nat): Row {
    r.(id := RenumberId(r.id, was, now),
       parentChunkId := if r.parentChunkId.Id? then Id(RenumberId(r.parentChunkId.value, was, now)) else Null)
  }

  lemma {:induction false} ParentIdsShift(children: seq<Child>, was: nat, now: nat)
    ensures ParentIds(children, was).Keys == ParentIds(children, now).Keys
    ensures |ParentIds(children, was)| == |ParentIds(children, now)|
    ensures forall k :: k in ParentIds(children, was) ==>
              ParentIds(children, was)[k] >= was
              && ParentIds(children, now)[k] == ParentIds(children, was)[k] - was + now
  {
    if children != [] {
      ParentIdsShift(children[..|children| - 1], was, now);
      assert |ParentIds(children, was).Keys| == |ParentIds(children, was)|;
      assert |ParentIds(children, now).Keys| == |ParentIds(children, now)|;
    }
  }

  lemma {:induction false} ParentRowsShift(children: seq<Child>, was: nat, now: nat, documentId: nat, tag: string)
    ensures |ParentRows(children, was, documentId, tag)| == |ParentRows(children, now, documentId, tag)|
    ensures forall k :: 0 <= k < |ParentRows(children, was, documentId, tag)| ==>
              ParentRows(children, now, documentId, tag)[k]
                == Renumber(ParentRows(children, was, documentId, tag)[k], was, now)
  {
    if children != [] {
      ParentRowsShift(children[..|children| - 1], was, now, documentId, tag);
      ParentIdsShift(children[..|children| - 1], was, now);
    }
  }

  /** The rows of a document depend on where the ids start only through the ids, and on the vectors only
      at the children's texts. */
  lemma {:induction false} DocumentRowsShift(children: seq<Child>, v: string -> Vector, w: string -> Vector,
                                             was: nat, now: nat, documentId: nat, tag: string)
    requires forall i :: 0 <= i < |children| ==> v(children[i].text) == w(children[i].text)
    ensures var first := DocumentRows(children, v, was, documentId, tag);
            var again := DocumentRows(children, w, now, documentId, tag);
            |first| == |again| && forall k :: 0 <= k < |first| ==> again[k] == Renumber(first[k], was, now)
  {
    ParentRowsShift(children, was, now, documentId, tag);
    ParentIdsShift(children, was, now);
    ParentCounts(children, was, documentId, tag);
    ParentCounts(children, now, documentId, tag);
    hide ParentRows, ParentIds;
    var p := |ParentIds(children, was)|;
    var ids, ids' := ParentIds(children, was), ParentIds(children, now);
    var kids := ChildRows(children, Pointwise(TextsOf(children), v), was, ids, documentId, tag);
    var kids' := ChildRows(children, Pointwise(TextsOf(children), w), now, ids', documentId, tag);
    forall i | 0 <= i < |children| ensures kids'[i] == Renumber(kids[i], was, now) {
      assert TextsOf(children)[i] == children[i].text;
      assert children[i].parentKey in ids <==> children[i].parentKey in ids';
    }
  }

  /** Ingesting the same children again requests no embedding at all, so it cannot fail, and writes the
      same rows up to their ids - for any provider, and however the first run got its vectors. */
  lemma {:induction false} ReingestIsIdempotent(before: seq<Row>, children: seq<Child>, vec: string -> Vector,
                                                base: nat,
                                                again: nat, documentId: nat, tag: string, provider: string -> Vector)
    ensures var first := DocumentRows(children, vec, base, documentId, tag);
            var table := OtherRows(before, documentId) + first;
            var second := DocumentRows(children, VectorFor(table, documentId, true, provider), again, documentId, tag);
            && ToEmbed(table, documentId, true, TextsOf(children)) == []
            && |second| == |first|
            && forall k :: 0 <= k < |first| ==> second[k] == Renumber(first[k], base, again)
  {
    var first := DocumentRows(children, vec, base, documentId, tag);
    var table := OtherRows(before, documentId) + first;
    var w := VectorFor(table, documentId, true, provider);
    forall i | 0 <= i < |children|
      ensures StoredVector(table, documentId, Sha256(children[i].text)) == Hit(vec(children[i].text))
    {
      StoredAgain(before, children, vec, base, documentId, tag, i);
    }
    var texts := TextsOf(children);
    var results := ReuseAll(table, documentId, true, texts);
    MissPlacesMeaning(results);
    assert MissPlaces(results) == [] by {
      if MissPlaces(results) != [] {
        assert MissPlaces(results)[0] in MissPlaces(results);
      }
    }
    hide DocumentRows, StoredVector, MissPlaces;
    DocumentRowsShift(children, vec, w, base, again, documentId, tag);
  }

  lemma {:induction false} StoredAgain(before: seq<Row>, children: seq<Child>, vec: string -> Vector, base: nat,
                                       documentId: nat, tag: string, i: nat)
    requires i < |children|
    ensures StoredVector(OtherRows(before, documentId) + DocumentRows(children, vec, base, documentId, tag),
                         documentId, Sha256(children[i].text)) == Hit(vec(children[i].text))
  {
    var h := Sha256(children[i].text);
    var first := DocumentRows(children, vec, base, documentId, tag);
    var table := OtherRows(before, documentId) + first;
    OtherRowsMeaning(before, documentId);
    StoredVectorMeaning(table, documentId, h);
    var parents := ParentRows(children, base, documentId, tag);
    var vecs, ids := Pointwise(TextsOf(children), vec), ParentIds(children, base);
    var kids := ChildRows(children, vecs, base, ids, documentId, tag);
    assert kids[i] in first by { assert first[|parents| + i] == kids[i]; }
    assert Reusable(kids[i], documentId) && kids[i].contentHash == h;
    hide DocumentRows, StoredVector;
    forall r | r in table && Reusable(r, documentId) && r.contentHash == h
      ensures r.embedding == Hit(vec(children[i].text))
    {
      NewRowMeaning(children, vec, base, documentId, tag, r);
    }
  }

  // ----- Main results: ordinals -----

  lemma {:induction false} KeysOfPrefix(children: seq<Child>, n: nat, i: nat, base: nat, documentId: nat, tag: string)
    requires KeysRun(children, n) && i <= |children|
    ensures |ParentIds(children[..i], base)| == KeysBefore(children, i)
    ensures forall k :: k in ParentIds(children[..i], base) <==> 0 <= k < KeysBefore(children, i)
    ensures Numbered(ParentRows(children[..i], base, documentId, tag))
  {
    hide ParentIds, ParentRows, KeysRun, Numbered;
    if i == 0 {
      NoParents(children, base, documentId, tag);
      NoRowsAreNumbered();
    } else {
      KeysOfPrefix(children, n, i - 1, base, documentId, tag);
      ParentsGrow(children, i - 1, base, documentId, tag);
      ParentCounts(children[..i - 1], base, documentId, tag);
      NextKeyIsNear(children, n, i - 1);
      var c, ids := children[i - 1], ParentIds(children[..i - 1], base);
      if c.parentKey !in ids {
        assert c.parentKey == |ids|;
        NumberedParentsGrow(ParentRows(children[..i - 1], base, documentId, tag), c, base + |ids|, documentId, tag);
      }
    }
  }

  lemma {:induction false} NoRowsAreNumbered()
    ensures Numbered([])
  {
  }

  lemma {:induction false} NumberedParentsGrow(rows: seq<Row>, c: Child, id: nat, documentId: nat, tag: string)
    requires Numbered(rows) && c.parentKey == |rows|
    ensures Numbered(rows + [ParentRow(c, id, documentId, tag)])
  {
  }

  /** How many keys the first `i` children use. */
  function KeysBefore(children: seq<Child>, i: nat): nat
    requires i <= |children|
  {
    if i == 0 then 0 else children[i - 1].parentKey + 1
  }

  ghost predicate Numbered(rows: seq<Row>) {
    forall j :: 0 <= j < |rows| ==> rows[j].ordinal == j
  }

  /** Keys grow by at most one from child to child, starting at 0. */
  lemma {:induction false} NextKeyIsNear(children: seq<Child>, n: nat, i: nat)
    requires KeysRun(children, n) && i < |children|
    ensures i == 0 ==> children[0].parentKey == 0
    ensures i > 0 ==> children[i - 1].parentKey <= children[i].parentKey <= children[i - 1].parentKey + 1
  {
    var k := if i == 0 then 0 else children[i - 1].parentKey + 1;
    if k < n {
      var j := ChildWithKey(children, n, k);
      assert i <= j;
    }
  }

  lemma {:induction false} ChildWithKey(children: seq<Child>, n: nat, k: nat) returns (j: nat)
    requires KeysRun(children, n) && k < n
    ensures j < |children| && children[j].parentKey == k
  {
    assert HasKey(children, k);
    j :| 0 <= j < |children| && children[j].parentKey == k;
  }

  /** When parent keys run 0, 1, 2, ... the stored ordinals number the document's rows 0, 1, 2, ...:
      parents first, then children, none skipped and none twice. */
  lemma {:induction false} OrdinalsNumberTheRows(children: seq<Child>, n: nat, vec: string -> Vector, base: nat,
                                                 documentId: nat, tag: string)
    requires KeysRun(children, n)
    ensures var rows := DocumentRows(children, vec, base, documentId, tag);
            |rows| == n + |children| && Numbered(rows)
  {
    hide ParentIds, ParentRows;
    KeysOfPrefix(children, n, |children|, base, documentId, tag);
    assert children[..|children|] == children;
    ParentCounts(children, base, documentId, tag);
    assert |ParentIds(children, base)| == n by {
      if n > 0 {
        assert HasKey(children, n - 1);
      }
    }
  }

  /** The chunker's output meets what the rows need: for every document, the stored rows are numbered
      without gaps and children of one parent agree on its text. */
  lemma {:induction false} ChunkedDocumentsAreStoredInOrder(
      raw: string, detect: Sections.Detector, childSize: nat, parentSize: nat, overlap: int, structureAware: bool,
      vec: string -> Vector, base: nat, documentId: nat, tag: string)
    requires childSize >= 1
    ensures var children := DocumentChildren(raw, detect, childSize, parentSize, overlap, structureAware);
            var rows := DocumentRows(children, vec, base, documentId, tag);
            && SharedParentTexts(children)
            && |rows| == |DocumentParents(raw, detect, childSize, parentSize, structureAware)| + |children|
            && Numbered(rows)
  {
    hide DocumentChildren, DocumentParents, DocumentRows, KeysRun, GoodChild;
    var children := DocumentChildren(raw, detect, childSize, parentSize, overlap, structureAware);
    var parents := DocumentParents(raw, detect, childSize, parentSize, structureAware);
    DocumentKeysRun(raw, detect, childSize, parentSize, overlap, structureAware);
    OrdinalsNumberTheRows(children, |parents|, vec, base, documentId, tag);
    forall i | 0 <= i < |children|
      ensures children[i].parentKey < |parents|
      ensures ShowsParent(parents[children[i].parentKey], children[i])
    {
      var lead := DocumentChildrenAreGood(raw, detect, childSize, parentSize, overlap, structureAware, i);
      GoodChildParent(parents, childSize, children[i], lead);
    }
  }

  lemma {:induction false} GoodChildParent(parents: seq<Parent>, size: nat, c: Child, lead: nat)
    requires GoodChild(parents, size, c, lead)
    ensures c.parentKey < |parents|
    ensures ShowsParent(parents[c.parentKey], c)
  {
  }

  predicate ShowsParent(p: Parent, c: Child) {
    && c.parentText == WithHeading(p.section, p.text) && c.section == p.section
    && c.parentStart == p.start && c.parentEnd == p.start + |p.text|
  }
}

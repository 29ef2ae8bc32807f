/** Which model's vector a stored chunk carries after a whole history of ingests. Reused vectors are tagged
    with the model of the ingest that reuses them, so a row's tag need not name the model of its vector. */
module Provenance {
  import opened FillIn
  import opened ChunkDocument
  import opened Ingestion

  /** One call of embed-and-store, with the model that `tag` names; `raises` says which of its batches fail. */
  datatype Ingest = Ingest(documentId: nat, children: seq<Child>, dedup: bool, tag: string, raises: nat -> bool)

  /** The vector that the model with a tag gives a text. */
  type Models = string -> (string -> Vector)

  datatype Origin = NotStored | From(tag: string)

  // ----- The history alone -----

  /** The tag of the ingest that last requested the text for the document, as long as the text is stored: an
      ingest requests its texts, but with deduplication not those that the one before it stored. */
  ghost function LastRequest(jobs: seq<Ingest>, documentId: nat, text: string): Origin
    decreases |jobs|, 0
  {
    if jobs == [] then NotStored
    else
      var front, job := jobs[..|jobs| - 1], jobs[|jobs| - 1];
      if job.documentId != documentId || !Counts(front, job) then LastRequest(front, documentId, text)
      else if text !in TextsOf(job.children) then NotStored
      else if job.dedup && LastRequest(front, documentId, text).From? then LastRequest(front, documentId, text)
      else From(job.tag)
  }

  /** The texts that an ingest after `jobs` requests. */
  ghost function Wanted(jobs: seq<Ingest>, documentId: nat, dedup: bool, texts: seq<string>): seq<string>
    decreases |jobs|, 1, |texts|
  {
    if texts == [] then []
    else
      var before, last := Wanted(jobs, documentId, dedup, texts[..|texts| - 1]), texts[|texts| - 1];
      if dedup && LastRequest(jobs, documentId, last).From? then before else before + [last]
  }

  /** The ingest after `jobs` has children and none of its batches raises. */
  ghost predicate Counts(jobs: seq<Ingest>, job: Ingest)
    decreases |jobs|, 2
  {
    && job.children != []
    && !SomeBatchRaises(job.raises, Wanted(jobs, job.documentId, job.dedup, TextsOf(job.children)))
  }

  /** The tag of the last ingest that stored the document. */
  ghost function LastTag(jobs: seq<Ingest>, documentId: nat): Origin {
    if jobs == [] then NotStored
    else
      var front, job := jobs[..|jobs| - 1], jobs[|jobs| - 1];
      if job.documentId == documentId && Counts(front, job) then From(job.tag) else LastTag(front, documentId)
  }

  // ----- The table -----

  ghost function TableOf(jobs: seq<Ingest>, models: Models): Table {
    if jobs == [] then Table([], 1)
    else
      var t, job := TableOf(jobs[..|jobs| - 1], models), jobs[|jobs| - 1];
      TableAfter(t, job.documentId, job.children, job.dedup, models(job.tag), job.raises, job.tag)
  }

  /** The row holds the vector of its origin's model, and is tagged by the last ingest of its document. */
  ghost predicate Traced(jobs: seq<Ingest>, models: Models, r: Row) {
    var origin := LastRequest(jobs, r.documentId, r.text);
    && r.contentHash == Sha256(r.text) && origin.From? && r.embedding == Hit(models(origin.tag)(r.text))
    && LastTag(jobs, r.documentId) == From(r.embeddingModel)
  }

  ghost predicate HasText(rows: seq<Row>, documentId: nat, text: string) {
    exists r :: r in rows && !r.isParent && r.documentId == documentId && r.text == text
  }

  /** Every child row is traced, and every text with an origin has a row. */
  ghost predicate AllTraced(jobs: seq<Ingest>, models: Models, rows: seq<Row>) {
    && (forall r :: r in rows && !r.isParent ==> Traced(jobs, models, r))
    && (forall documentId, text :: LastRequest(jobs, documentId, text).From? ==> HasText(rows, documentId, text))
  }

  lemma {:induction false} ReuseIsLastRequest(jobs: seq<Ingest>, models: Models, rows: seq<Row>, documentId: nat,
                                              dedup: bool, text: string)
    requires AllTraced(jobs, models, rows)
    ensures var origin := LastRequest(jobs, documentId, text);
            ReuseOf(rows, documentId, dedup, text)
              == if dedup && origin.From? then Hit(models(origin.tag)(text)) else Miss
  {
    hide LastRequest, LastTag, StoredVector;
    StoredVectorMeaning(rows, documentId, Sha256(text));
    if LastRequest(jobs, documentId, text).From? {
      assert HasText(rows, documentId, text);
    }
  }

  lemma {:induction false} WantedIsAsked(jobs: seq<Ingest>, models: Models, rows: seq<Row>, documentId: nat,
                                         dedup: bool,
                                         texts: seq<string>)
    requires AllTraced(jobs, models, rows)
    ensures ToEmbed(rows, documentId, dedup, texts) == Wanted(jobs, documentId, dedup, texts)
  {
    hide LastRequest, ReuseOf, AllTraced;
    if texts != [] {
      var n := |texts| - 1;
      var all, before := ReuseAll(rows, documentId, dedup, texts), ReuseAll(rows, documentId, dedup, texts[..n]);
      WantedIsAsked(jobs, models, rows, documentId, dedup, texts[..n]);
      ReuseIsLastRequest(jobs, models, rows, documentId, dedup, texts[n]);
      assert all[..n] == before;
      MissPlacesMeaning(before);
      MissPlacesMeaning(all);
    }
  }

  /** A job changes the table just when its history says that it counts. */
  lemma {:induction false} EffectIsCount(jobs: seq<Ingest>, models: Models, t: Table, job: Ingest)
    requires AllTraced(jobs, models, t.rows)
    ensures TakesEffect(t, job.documentId, job.children, job.dedup, job.raises) <==> Counts(jobs, job)
  {
    hide ToEmbed, Wanted;
    WantedIsAsked(jobs, models, t.rows, job.documentId, job.dedup, TextsOf(job.children));
  }

  lemma {:induction false} OneMore(jobs: seq<Ingest>, job: Ingest)
    ensures var all := jobs + [job];
            && (forall d, text :: LastRequest(all, d, text)
                  == if job.documentId != d || !Counts(jobs, job) then LastRequest(jobs, d, text)
                     else if text !in TextsOf(job.children) then NotStored
                     else if job.dedup && LastRequest(jobs, d, text).From? then LastRequest(jobs, d, text)
                     else From(job.tag))
            && (forall d :: LastTag(all, d)
                  == if job.documentId == d && Counts(jobs, job) then From(job.tag) else LastTag(jobs, d))
  {
    assert (jobs + [job])[..|jobs|] == jobs;
  }

  /** A row of another document stays traced. */
  lemma {:induction false} OtherRowStays(jobs: seq<Ingest>, job: Ingest, models: Models, r: Row)
    requires Traced(jobs, models, r) && (r.documentId != job.documentId || !Counts(jobs, job))
    ensures Traced(jobs + [job], models, r)
  {
    hide LastRequest, LastTag, Counts;
    OneMore(jobs, job);
  }

  /** A new child row is traced. */
  lemma {:induction false} NewRowIsTraced(jobs: seq<Ingest>, job: Ingest, models: Models, t: Table, r: Row)
    requires AllTraced(jobs, models, t.rows) && Counts(jobs, job) && !r.isParent
    requires r in DocumentRows(job.children, VectorFor(t.rows, job.documentId, job.dedup, models(job.tag)), t.nextId,
                               job.documentId, job.tag)
    ensures Traced(jobs + [job], models, r)
  {
    hide LastRequest, LastTag, Counts, DocumentRows, AllTraced, ReuseOf;
    var vec := VectorFor(t.rows, job.documentId, job.dedup, models(job.tag));
    NewRowMeaning(job.children, vec, t.nextId, job.documentId, job.tag, r);
    var i :| 0 <= i < |job.children| && job.children[i].text == r.text;
    assert TextsOf(job.children)[i] == r.text;
    ReuseIsLastRequest(jobs, models, t.rows, job.documentId, job.dedup, r.text);
    OneMore(jobs, job);
  }

  /** Every text of the children has a row. */
  lemma {:induction false} TextGetsRow(children: seq<Child>, vec: string -> Vector, base: nat, documentId: nat,
                                       tag: string,
                                       text: string)
    requires text in TextsOf(children)
    ensures HasText(DocumentRows(children, vec, base, documentId, tag), documentId, text)
  {
    hide ParentRows, ParentIds;
    var i :| 0 <= i < |children| && TextsOf(children)[i] == text;
    var parents := ParentRows(children, base, documentId, tag);
    var vecs, ids := Pointwise(TextsOf(children), vec), ParentIds(children, base);
    var kids := ChildRows(children, vecs, base, ids, documentId, tag);
    assert DocumentRows(children, vec, base, documentId, tag)[|parents| + i] == kids[i];
  }

  lemma {:induction false} HasTextInPart(a: seq<Row>, b: seq<Row>, documentId: nat, text: string)
    requires HasText(a, documentId, text) || HasText(b, documentId, text)
    ensures HasText(a + b, documentId, text)
  {
    var r: Row :| (r in a || r in b) && !r.isParent && r.documentId == documentId && r.text == text;
    assert r in a + b;
  }

  lemma {:induction false} OthersKeepText(rows: seq<Row>, documentId: nat, other: nat, text: string)
    requires HasText(rows, other, text) && other != documentId
    ensures HasText(OtherRows(rows, documentId), other, text)
  {
    OtherRowsMeaning(rows, documentId);
  }

  lemma {:induction false} IngestKeepsTraces(jobs: seq<Ingest>, job: Ingest, models: Models, t: Table)
    requires AllTraced(jobs, models, t.rows)
    ensures AllTraced(jobs + [job], models, TableAfter(t, job.documentId, job.children, job.dedup, models(job.tag),
                                                       job.raises, job.tag).rows)
  {
    hide LastRequest, LastTag, Counts, TakesEffect, Traced, DocumentRows, OtherRows, VectorFor, HasText;
    EffectIsCount(jobs, models, t, job);
    OneMore(jobs, job);
    if Counts(jobs, job) {
      var vec := VectorFor(t.rows, job.documentId, job.dedup, models(job.tag));
      var others := OtherRows(t.rows, job.documentId);
      var added := DocumentRows(job.children, vec, t.nextId, job.documentId, job.tag);
      OtherRowsMeaning(t.rows, job.documentId);
      forall r: Row | r in others + added && !r.isParent ensures Traced(jobs + [job], models, r) {
        if r in others {
          OtherRowStays(jobs, job, models, r);
        } else {
          NewRowIsTraced(jobs, job, models, t, r);
        }
      }
      forall d, text | LastRequest(jobs + [job], d, text).From? ensures HasText(others + added, d, text) {
        if d == job.documentId {
          TextGetsRow(job.children, vec, t.nextId, d, job.tag, text);
        } else {
          OthersKeepText(t.rows, job.documentId, d, text);
        }
        HasTextInPart(others, added, d, text);
      }
    } else {
      forall r: Row | r in t.rows && !r.isParent ensures Traced(jobs + [job], models, r) {
        OtherRowStays(jobs, job, models, r);
      }
    }
  }

  // ----- Main results -----

  /** After any history of ingests of any documents, each child row holds the vector that the model of the
      ingest that last requested its text gives it, and is tagged with the model of the last ingest of its
      document; and the texts stored are those the history says. */
  lemma {:induction false} EveryVectorIsTraced(jobs: seq<Ingest>, models: Models)
    ensures AllTraced(jobs, models, TableOf(jobs, models).rows)
  {
    if jobs != [] {
      hide AllTraced, TableAfter;
      var front, job := jobs[..|jobs| - 1], jobs[|jobs| - 1];
      EveryVectorIsTraced(front, models);
      IngestKeepsTraces(front, job, models, TableOf(front, models));
      assert jobs == front + [job];
    }
  }

  ghost predicate IsRight(models: Models, r: Row) {
    r.embedding == Hit(models(r.embeddingModel)(r.text))
  }

  /** Every child row carries the vector of the model it is tagged with. */
  ghost predicate AllRight(jobs: seq<Ingest>, models: Models) {
    forall r :: r in TableOf(jobs, models).rows && !r.isParent ==> IsRight(models, r)
  }

  /** A row is right if and only if the model of its origin and the model of its tag agree on its text. */
  lemma {:induction false} RowIsRightIff(jobs: seq<Ingest>, models: Models, r: Row)
    requires r in TableOf(jobs, models).rows && !r.isParent
    ensures var origin := LastRequest(jobs, r.documentId, r.text);
            origin.From? && (IsRight(models, r) <==> models(origin.tag)(r.text) == models(r.embeddingModel)(r.text))
  {
    hide TableOf, LastRequest, LastTag;
    EveryVectorIsTraced(jobs, models);
    assert Traced(jobs, models, r);
  }

  /** Each stored text was last requested by an ingest with the tag of its document's last ingest. */
  ghost predicate TagsAgree(jobs: seq<Ingest>) {
    forall documentId, text :: LastRequest(jobs, documentId, text).From? ==>
      LastRequest(jobs, documentId, text) == LastTag(jobs, documentId)
  }

  /** Whatever vectors the models give, every row is right, if and only if no text was last requested with
      another tag than that of its document's last ingest: a condition on the calls alone. */
  lemma {:induction false} StoredVectorsAreRightIff(jobs: seq<Ingest>)
    ensures (forall models :: AllRight(jobs, models)) <==> TagsAgree(jobs)
  {
    hide TableOf, LastRequest, LastTag;
    if TagsAgree(jobs) {
      forall models ensures AllRight(jobs, models) {
        EveryVectorIsTraced(jobs, models);
        forall r | r in TableOf(jobs, models).rows && !r.isParent ensures IsRight(models, r) {
          assert Traced(jobs, models, r);
        }
      }
    }
    if forall models :: AllRight(jobs, models) {
      forall documentId, text | LastRequest(jobs, documentId, text).From?
        ensures LastRequest(jobs, documentId, text) == LastTag(jobs, documentId)
      {
        var a := LastRequest(jobs, documentId, text).tag;
        var models := Telling(a);
        EveryVectorIsTraced(jobs, models);
        assert HasText(TableOf(jobs, models).rows, documentId, text);
        var r :| r in TableOf(jobs, models).rows && !r.isParent && r.documentId == documentId && r.text == text;
        assert Traced(jobs, models, r) && AllRight(jobs, models) && IsRight(models, r);
      }
    }
  }

  /** Models that tell one tag from all others. */
  function Telling(tag: string): Models {
    (t: string) => (text: string) => if t == tag then [0.0] else []
  }

  function Never(): nat -> bool {
    (b: nat) => false
  }

  /** The same chunk ingested with model "A" and then, with deduplication, with model "B": there is a row that
      is tagged "B" and holds the vector of "A". */
  lemma {:induction false} TaggedBWithVectorOfA(c: Child, models: Models) returns (r: Row)
    ensures var jobs := [Ingest(1, [c], true, "A", Never()), Ingest(1, [c], true, "B", Never())];
            && r in TableOf(jobs, models).rows && !r.isParent && r.documentId == 1 && r.text == c.text
            && r.embeddingModel == "B" && r.embedding == Hit(models("A")(c.text))
            && !TagsAgree(jobs)
  {
    hide TableOf, Wanted;
    var first, second := Ingest(1, [c], true, "A", Never()), Ingest(1, [c], true, "B", Never());
    var jobs := [first, second];
    EveryVectorIsTraced(jobs, models);
    assert jobs[..1] == [first] && [first][..0] == [];
    assert TextsOf([c]) == [c.text] && c.text in TextsOf([c]);
    assert Counts([], first) && Counts([first], second);
    assert LastRequest([first], 1, c.text) == From("A");
    assert LastRequest(jobs, 1, c.text) == From("A") && LastTag(jobs, 1) == From("B");
    assert HasText(TableOf(jobs, models).rows, 1, c.text);
    r :| r in TableOf(jobs, models).rows && !r.isParent && r.documentId == 1 && r.text == c.text;
    assert Traced(jobs, models, r);
  }
}

/**
 * The five kinds of record the store holds, the constraints the relational
 * schema places on them, lookups by key, and the relevance aggregation that
 * the read side reports (num_relevant_documents / num_relevant_queries).
 *
 * A table is a sequence of rows in insertion order; an auto-increment
 * primary key is strictly increasing along that sequence.
 */
module Schema {
  import opened Wrappers
  import opened Relational

  datatype Corpus = Corpus(pkey: int, name: string, language: string)

  datatype Dataset = Dataset(pkey: int, name: string, corpusPkey: int, minRelevance: int)

  /** `description` is a nullable column. */
  datatype Query = Query(pkey: int, id: string, datasetPkey: int, text: string, description: Option<string>)

  /** `title` is nullable; `textLength` is the computed column length(text). */
  datatype Document = Document(pkey: int, id: string, corpusPkey: int, title: Option<string>, text: string, textLength: int)

  /** A relevance judgment; its primary key is the pair (queryPkey, documentPkey). */
  datatype QRel = QRel(queryPkey: int, documentPkey: int, relevance: int)

  datatype DB = DB(corpora: seq<Corpus>, datasets: seq<Dataset>, queries: seq<Query>,
                   documents: seq<Document>, qrels: seq<QRel>)

  // Column projections used as keys.
  function CorpusPkey(c: Corpus): int { c.pkey }
  function CorpusName(c: Corpus): string { c.name }
  function DatasetPkey(d: Dataset): int { d.pkey }
  function DatasetKey(d: Dataset): (string, int) { (d.name, d.corpusPkey) }
  function QueryPkey(q: Query): int { q.pkey }
  function QueryKey(q: Query): (string, int) { (q.id, q.datasetPkey) }
  function DocumentPkey(d: Document): int { d.pkey }
  function QRelKey(r: QRel): (int, int) { (r.queryPkey, r.documentPkey) }

  predicate HasCorpus(db: DB, pk: int) { exists c | c in db.corpora :: c.pkey == pk }
  predicate HasDataset(db: DB, pk: int) { exists d | d in db.datasets :: d.pkey == pk }

  /**
   * A QRel's query and document exist and lie under the same corpus: the
   * query's dataset belongs to the corpus the document belongs to.
   */
  predicate LinksSameCorpus(db: DB, r: QRel)
  {
    exists q, ds, d | q in db.queries && ds in db.datasets && d in db.documents ::
      q.pkey == r.queryPkey && d.pkey == r.documentPkey &&
      ds.pkey == q.datasetPkey && ds.corpusPkey == d.corpusPkey
  }

  /** Auto-increment keys start at 1 and grow along the table. */
  predicate KeysAssigned<T>(s: seq<T>, key: T -> int)
  {
    Increasing(s, key) && forall i | 0 <= i < |s| :: key(s[i]) >= 1
  }

  /** Every surrogate key is assigned. */
  predicate KeysOk(db: DB)
  {
    && KeysAssigned(db.corpora, CorpusPkey)
    && KeysAssigned(db.datasets, DatasetPkey)
    && KeysAssigned(db.queries, QueryPkey)
    && KeysAssigned(db.documents, DocumentPkey)
  }

  /** The UNIQUE constraints and the QRel primary key. */
  predicate UniqueOk(db: DB)
  {
    && DistinctBy(db.corpora, CorpusName)
    && DistinctBy(db.datasets, DatasetKey)
    && DistinctBy(db.queries, QueryKey)
    && DistinctBy(db.qrels, QRelKey)
  }

  /** A dataset's corpus exists. */
  predicate DatasetRefsOk(db: DB)
  {
    forall d | d in db.datasets :: HasCorpus(db, d.corpusPkey)
  }

  /** A query's dataset exists. */
  predicate QueryRefsOk(db: DB)
  {
    forall q | q in db.queries :: HasDataset(db, q.datasetPkey)
  }

  /** A document's corpus exists and its computed length is the length of its text. */
  predicate DocumentsOk(db: DB)
  {
    forall d | d in db.documents :: HasCorpus(db, d.corpusPkey) && d.textLength == |d.text|
  }

  /** Every judgment links a query and a document of one corpus. */
  predicate LinksOk(db: DB)
  {
    forall r | r in db.qrels :: LinksSameCorpus(db, r)
  }

  /** Every constraint the schema declares, plus the same-corpus invariant the mutations keep. */
  predicate WellFormed(db: DB)
  {
    KeysOk(db) && UniqueOk(db) && DatasetRefsOk(db) && QueryRefsOk(db) && DocumentsOk(db) && LinksOk(db)
  }

  function EmptyDB(): DB { DB([], [], [], [], []) }

  lemma EmptyWellFormed()
    ensures WellFormed(EmptyDB())
  {
  }

  // Lookups by key.

  function CorpusWithPkey(db: DB, pk: int): (r: Option<Corpus>)
    ensures r.Some? ==> r.value in db.corpora && r.value.pkey == pk
    ensures r.None? <==> !HasCorpus(db, pk)
  {
    Find(db.corpora, (c: Corpus) => c.pkey == pk)
  }

  function CorpusNamed(db: DB, name: string): (r: Option<Corpus>)
    ensures r.Some? ==> r.value in db.corpora && r.value.name == name
    ensures r.None? <==> forall c | c in db.corpora :: c.name != name
  {
    Find(db.corpora, (c: Corpus) => c.name == name)
  }

  function DatasetWithPkey(db: DB, pk: int): (r: Option<Dataset>)
    ensures r.Some? ==> r.value in db.datasets && r.value.pkey == pk
    ensures r.None? <==> !HasDataset(db, pk)
  {
    Find(db.datasets, (d: Dataset) => d.pkey == pk)
  }

  function QueryWithPkey(db: DB, pk: int): (r: Option<Query>)
    ensures r.Some? ==> r.value in db.queries && r.value.pkey == pk
    ensures r.None? <==> forall q | q in db.queries :: q.pkey != pk
  {
    Find(db.queries, (q: Query) => q.pkey == pk)
  }

  function DocumentWithPkey(db: DB, pk: int): (r: Option<Document>)
    ensures r.Some? ==> r.value in db.documents && r.value.pkey == pk
    ensures r.None? <==> forall d | d in db.documents :: d.pkey != pk
  {
    Find(db.documents, (d: Document) => d.pkey == pk)
  }

  /** The name of the corpus with the given pkey, if there is one. */
  function CorpusNameOf(db: DB, pk: int): Option<string>
  {
    match CorpusWithPkey(db, pk)
    case None => None
    case Some(c) => Some(c.name)
  }

  /** A dataset belongs to the corpus called `corpusName`. */
  predicate DatasetInCorpus(db: DB, d: Dataset, corpusName: string)
  {
    CorpusNameOf(db, d.corpusPkey) == Some(corpusName)
  }

  /** The dataset called `datasetName` inside the corpus called `corpusName`. */
  function DatasetNamed(db: DB, corpusName: string, datasetName: string): (r: Option<Dataset>)
    ensures r.Some? ==> r.value in db.datasets && r.value.name == datasetName && DatasetInCorpus(db, r.value, corpusName)
    ensures r.None? <==> forall d | d in db.datasets :: !(d.name == datasetName && DatasetInCorpus(db, d, corpusName))
  {
    Find(db.datasets, (d: Dataset) => d.name == datasetName && DatasetInCorpus(db, d, corpusName))
  }

  /** The query with the given id inside the dataset with pkey `datasetPkey`. */
  function QueryNamed(db: DB, datasetPkey: int, id: string): (r: Option<Query>)
    ensures r.Some? ==> r.value in db.queries && r.value.id == id && r.value.datasetPkey == datasetPkey
    ensures r.None? <==> forall q | q in db.queries :: !(q.id == id && q.datasetPkey == datasetPkey)
  {
    Find(db.queries, (q: Query) => q.id == id && q.datasetPkey == datasetPkey)
  }

  /** A document with the given id inside the corpus with pkey `corpusPkey`. */
  function DocumentNamed(db: DB, corpusPkey: int, id: string): (r: Option<Document>)
    ensures r.Some? ==> r.value in db.documents && r.value.id == id && r.value.corpusPkey == corpusPkey
    ensures r.None? <==> forall d | d in db.documents :: !(d.id == id && d.corpusPkey == corpusPkey)
  {
    Find(db.documents, (d: Document) => d.id == id && d.corpusPkey == corpusPkey)
  }

  /**
   * At most one document of the corpus carries this id. The schema does not
   * enforce it; lookups that expect a single row rely on it.
   */
  predicate DocumentIdUnambiguous(db: DB, corpusPkey: int, id: string)
  {
    forall d1, d2 | d1 in db.documents && d2 in db.documents &&
      d1.id == id && d1.corpusPkey == corpusPkey && d2.id == id && d2.corpusPkey == corpusPkey :: d1 == d2
  }

  /** The dataset a query belongs to. */
  function DatasetOfQuery(db: DB, q: Query): Option<Dataset>
  {
    DatasetWithPkey(db, q.datasetPkey)
  }

  /** The dataset of a QRel's query. */
  function DatasetOfQRel(db: DB, r: QRel): Option<Dataset>
  {
    match QueryWithPkey(db, r.queryPkey)
    case None => None
    case Some(q) => DatasetOfQuery(db, q)
  }

  // Relevance.

  /** A judgment counts as relevant when it reaches its own query's dataset threshold. */
  predicate IsRelevant(db: DB, r: QRel)
  {
    DatasetOfQRel(db, r).Some? && r.relevance >= DatasetOfQRel(db, r).value.minRelevance
  }

  predicate RelevantForQuery(db: DB, qpk: int, r: QRel)
  {
    r.queryPkey == qpk && IsRelevant(db, r)
  }

  predicate RelevantForDocument(db: DB, dpk: int, r: QRel)
  {
    r.documentPkey == dpk && IsRelevant(db, r)
  }

  /** num_relevant_documents of a query. */
  function NumRelevantDocuments(db: DB, qpk: int): nat
  {
    Count(db.qrels, (r: QRel) => RelevantForQuery(db, qpk, r))
  }

  /** num_relevant_queries of a document. */
  function NumRelevantQueries(db: DB, dpk: int): nat
  {
    Count(db.qrels, (r: QRel) => RelevantForDocument(db, dpk, r))
  }

  /** Pkeys identify rows in a well-formed store. */
  lemma DatasetOfPkey(db: DB, ds: Dataset)
    requires WellFormed(db) && ds in db.datasets
    ensures DatasetWithPkey(db, ds.pkey) == Some(ds)
  {
    forall y | y in db.datasets && y.pkey == ds.pkey
      ensures y == ds
    {
      IncreasingKeyDetermines(db.datasets, DatasetPkey, y, ds);
    }
    FindOnly(db.datasets, (d: Dataset) => d.pkey == ds.pkey, ds);
  }

  lemma CorpusOfPkey(db: DB, c: Corpus)
    requires WellFormed(db) && c in db.corpora
    ensures CorpusWithPkey(db, c.pkey) == Some(c)
  {
    forall y | y in db.corpora && y.pkey == c.pkey
      ensures y == c
    {
      IncreasingKeyDetermines(db.corpora, CorpusPkey, y, c);
    }
    FindOnly(db.corpora, (x: Corpus) => x.pkey == c.pkey, c);
  }

  lemma QueryOfPkey(db: DB, q: Query)
    requires WellFormed(db) && q in db.queries
    ensures QueryWithPkey(db, q.pkey) == Some(q)
  {
    forall y | y in db.queries && y.pkey == q.pkey
      ensures y == q
    {
      IncreasingKeyDetermines(db.queries, QueryPkey, y, q);
    }
    FindOnly(db.queries, (x: Query) => x.pkey == q.pkey, q);
  }

  lemma DocumentOfPkey(db: DB, d: Document)
    requires WellFormed(db) && d in db.documents
    ensures DocumentWithPkey(db, d.pkey) == Some(d)
  {
    forall y | y in db.documents && y.pkey == d.pkey
      ensures y == d
    {
      IncreasingKeyDetermines(db.documents, DocumentPkey, y, d);
    }
    FindOnly(db.documents, (x: Document) => x.pkey == d.pkey, d);
  }

  /**
   * A query's num_relevant_documents counts its judgments whose relevance
   * reaches the min_relevance of the query's own dataset.
   */
  lemma NumRelevantDocumentsUsesOwnThreshold(db: DB, q: Query, ds: Dataset)
    requires WellFormed(db) && q in db.queries && ds in db.datasets && ds.pkey == q.datasetPkey
    ensures NumRelevantDocuments(db, q.pkey)
         == Count(db.qrels, (r: QRel) => r.queryPkey == q.pkey && r.relevance >= ds.minRelevance)
  {
    QueryOfPkey(db, q);
    DatasetOfPkey(db, ds);
    SameThreshold(db, q, ds);
  }

  lemma SameThreshold(db: DB, q: Query, ds: Dataset)
    requires QueryWithPkey(db, q.pkey) == Some(q) && DatasetWithPkey(db, q.datasetPkey) == Some(ds)
    ensures NumRelevantDocuments(db, q.pkey)
         == Count(db.qrels, (r: QRel) => r.queryPkey == q.pkey && r.relevance >= ds.minRelevance)
  {
    FilterExt(db.qrels, (r: QRel) => RelevantForQuery(db, q.pkey, r),
              (r: QRel) => r.queryPkey == q.pkey && r.relevance >= ds.minRelevance);
  }

  /** A query with no judgment at or above its threshold reports 0, not an absence. */
  lemma NoRelevantJudgmentsGiveZero(db: DB, qpk: int)
    requires forall r | r in db.qrels && r.queryPkey == qpk :: !IsRelevant(db, r)
    ensures NumRelevantDocuments(db, qpk) == 0
  {
    FilterNone(db.qrels, (r: QRel) => RelevantForQuery(db, qpk, r));
  }

  /** The judgments of document `dpk` that are relevant under dataset `ds`. */
  predicate RelevantUnder(db: DB, dpk: int, ds: Dataset, r: QRel)
  {
    r.documentPkey == dpk && DatasetOfQRel(db, r) == Some(ds) && r.relevance >= ds.minRelevance
  }

  function RelevantForDocumentIn(db: DB, dpk: int, ds: Dataset): nat
  {
    Count(db.qrels, (r: QRel) => RelevantUnder(db, dpk, ds, r))
  }

  /** The per-dataset counts of a document, summed over a list of datasets. */
  function SumOverDatasets(db: DB, dpk: int, dss: seq<Dataset>): nat
  {
    if dss == [] then 0 else RelevantForDocumentIn(db, dpk, dss[0]) + SumOverDatasets(db, dpk, dss[1..])
  }

  predicate RelevantAmong(db: DB, dpk: int, dss: seq<Dataset>, r: QRel)
  {
    RelevantForDocument(db, dpk, r) && DatasetOfQRel(db, r).value in dss
  }

  lemma {:induction false} SumOverDatasetsCounts(db: DB, dpk: int, dss: seq<Dataset>)
    requires Increasing(dss, DatasetPkey)
    ensures Count(db.qrels, (r: QRel) => RelevantAmong(db, dpk, dss, r)) == SumOverDatasets(db, dpk, dss)
  {
    var p := (r: QRel) => RelevantAmong(db, dpk, dss, r);
    if dss == [] {
      FilterNone(db.qrels, p);
    } else {
      var rest := dss[1..];
      assert Increasing(rest, DatasetPkey);
      SumOverDatasetsCounts(db, dpk, rest);
      var head := (r: QRel) => RelevantUnder(db, dpk, dss[0], r);
      var tail := (r: QRel) => RelevantAmong(db, dpk, rest, r);
      var q := (r: QRel) => DatasetOfQRel(db, r) == Some(dss[0]);
      var pq := (r: QRel) => p(r) && q(r);
      var pnq := (r: QRel) => p(r) && !q(r);
      CountSplit(db.qrels, p, q, pq, pnq);
      assert forall k | 0 <= k < |rest| :: DatasetPkey(dss[0]) < DatasetPkey(rest[k]);
      assert dss[0] !in rest;
      FilterExt(db.qrels, pq, head);
      FilterExt(db.qrels, pnq, tail);
    }
  }

  /**
   * A document's num_relevant_queries adds up, over all datasets, the
   * judgments relevant under each dataset's own threshold.
   */
  lemma NumRelevantQueriesSumsOverDatasets(db: DB, dpk: int)
    requires WellFormed(db)
    ensures NumRelevantQueries(db, dpk) == SumOverDatasets(db, dpk, db.datasets)
  {
    SumOverDatasetsCounts(db, dpk, db.datasets);
    FilterExt(db.qrels, (r: QRel) => RelevantForDocument(db, dpk, r),
              (r: QRel) => RelevantAmong(db, dpk, db.datasets, r));
  }
}

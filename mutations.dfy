/**
 * What each mutation of the data controller does to the tables, as
 * functions on store values, and proofs that each keeps the schema's
 * constraints. A mutation's proof is split by constraint group (keys,
 * uniqueness, references, judgment links).
 */
module Mutations {
  import opened Wrappers
  import opened Relational
  import opened Schema

  /** A query as it arrives in an add_queries batch. */
  datatype QueryInfo = QueryInfo(id: string, text: string, description: Option<string>)

  /** A document as it arrives in an add_documents batch. */
  datatype DocumentInfo = DocumentInfo(id: string, title: Option<string>, text: string)

  /** A judgment as it arrives in an add_qrels batch, naming its query and document by id. */
  datatype QRelInfo = QRelInfo(queryId: string, documentId: string, relevance: int)

  /** The only corpus language create_corpus accepts. */
  const SupportedLanguage: string := "English"

  /** The rows an add_queries batch inserts: fresh pkeys from `next` on, all in one dataset. */
  function NewQueries(data: seq<QueryInfo>, datasetPkey: int, next: int): (r: seq<Query>)
    ensures |r| == |data|
    ensures forall k | 0 <= k < |r| :: r[k].pkey == next + k && r[k].datasetPkey == datasetPkey
    ensures forall k | 0 <= k < |r| :: r[k].id == data[k].id && r[k].text == data[k].text && r[k].description == data[k].description
  {
    seq(|data|, k requires 0 <= k < |data| => Query(next + k, data[k].id, datasetPkey, data[k].text, data[k].description))
  }

  /** The rows an add_documents batch inserts; text_length is computed from the text. */
  function NewDocuments(data: seq<DocumentInfo>, corpusPkey: int, next: int): (r: seq<Document>)
    ensures |r| == |data|
    ensures forall k | 0 <= k < |r| :: r[k].pkey == next + k && r[k].corpusPkey == corpusPkey && r[k].textLength == |r[k].text|
    ensures forall k | 0 <= k < |r| :: r[k].id == data[k].id && r[k].title == data[k].title && r[k].text == data[k].text
  {
    seq(|data|, k requires 0 <= k < |data| => Document(next + k, data[k].id, corpusPkey, data[k].title, data[k].text, |data[k].text|))
  }

  /**
   * One judgment resolved against dataset `ds`: its query id inside the
   * dataset, its document id inside the dataset's own corpus. None when
   * either does not resolve (the NOT NULL key column then rejects the row).
   */
  function ResolveQRel(db: DB, ds: Dataset, info: QRelInfo): (r: Option<QRel>)
    ensures r.Some? <==> QueryNamed(db, ds.pkey, info.queryId).Some? && DocumentNamed(db, ds.corpusPkey, info.documentId).Some?
    ensures r.Some? ==> r.value.relevance == info.relevance
  {
    match (QueryNamed(db, ds.pkey, info.queryId), DocumentNamed(db, ds.corpusPkey, info.documentId))
    case (Some(q), Some(d)) => Some(QRel(q.pkey, d.pkey, info.relevance))
    case _ => None
  }

  /** A whole add_qrels batch resolved, or None when some judgment does not resolve. */
  function ResolveQRels(db: DB, ds: Dataset, data: seq<QRelInfo>): (r: Option<seq<QRel>>)
    ensures r.Some? <==> forall k | 0 <= k < |data| :: ResolveQRel(db, ds, data[k]).Some?
    ensures r.Some? ==> |r.value| == |data| && forall k | 0 <= k < |data| :: r.value[k] == ResolveQRel(db, ds, data[k]).value
  {
    if data == [] then Some([])
    else match (ResolveQRel(db, ds, data[0]), ResolveQRels(db, ds, data[1..]))
      case (Some(x), Some(rest)) => Some([x] + rest)
      case (None, _) => None
      case (_, None) =>
        assert forall k | 1 <= k < |data| :: data[k] == data[1..][k - 1];
        None
  }

  /** A judgment resolved inside a stored dataset links a query and a document under that dataset's corpus. */
  lemma ResolvedQRelLinksSameCorpus(db: DB, ds: Dataset, info: QRelInfo)
    requires ds in db.datasets && ResolveQRel(db, ds, info).Some?
    ensures LinksSameCorpus(db, ResolveQRel(db, ds, info).value)
  {
    var q := QueryNamed(db, ds.pkey, info.queryId).value;
    var d := DocumentNamed(db, ds.corpusPkey, info.documentId).value;
    assert ResolveQRel(db, ds, info).value == QRel(q.pkey, d.pkey, info.relevance);
  }

  /** Every judgment of a batch resolved inside a stored dataset links under one corpus. */
  lemma ResolvedQRelsLinkSameCorpus(db: DB, ds: Dataset, data: seq<QRelInfo>)
    requires ds in db.datasets && ResolveQRels(db, ds, data).Some?
    ensures forall x | x in ResolveQRels(db, ds, data).value :: LinksSameCorpus(db, x)
  {
    var rows := ResolveQRels(db, ds, data).value;
    forall x | x in rows ensures LinksSameCorpus(db, x) {
      var k :| 0 <= k < |rows| && rows[k] == x;
      ResolvedQRelLinksSameCorpus(db, ds, data[k]);
    }
  }

  // Surrogate-key counters.

  /** A counter is past every key it handed out. */
  predicate Below<T>(s: seq<T>, key: T -> int, next: int)
  {
    next >= 1 && forall i | 0 <= i < |s| :: key(s[i]) < next
  }

  /** Rows numbered from a fresh counter value keep the key column assigned. */
  lemma AppendKeepsKeys<T>(a: seq<T>, b: seq<T>, key: T -> int, next: int)
    requires KeysAssigned(a, key) && Below(a, key, next)
    requires forall k | 0 <= k < |b| :: key(b[k]) == next + k
    ensures KeysAssigned(a + b, key) && Below(a + b, key, next + |b|)
  {
    forall i, j | 0 <= i < j < |a + b| ensures key((a + b)[i]) < key((a + b)[j]) {
      if j < |a| {
        assert (a + b)[i] == a[i] && (a + b)[j] == a[j];
      } else if i >= |a| {
        assert (a + b)[i] == b[i - |a|] && (a + b)[j] == b[j - |a|];
      } else {
        assert (a + b)[i] == a[i] && (a + b)[j] == b[j - |a|];
      }
    }
    forall i | 0 <= i < |a + b| ensures 1 <= key((a + b)[i]) < next + |b| {
      if i < |a| {
        assert (a + b)[i] == a[i];
      } else {
        assert (a + b)[i] == b[i - |a|];
      }
    }
  }

  /** Removing rows keeps the key column assigned and the counter past it. */
  lemma FilterKeepsKeys<T>(s: seq<T>, p: T -> bool, key: T -> int, next: int)
    requires KeysAssigned(s, key) && Below(s, key, next)
    ensures KeysAssigned(Filter(s, p), key) && Below(Filter(s, p), key, next)
  {
    FilterKeepsIncreasing(s, p, key);
    var r := Filter(s, p);
    forall i | 0 <= i < |r| ensures 1 <= key(r[i]) < next {
      assert r[i] in s;
      var j :| 0 <= j < |s| && s[j] == r[i];
    }
  }

  // Insertions.

  function AddCorpusState(db: DB, c: Corpus): DB { db.(corpora := db.corpora + [c]) }
  function AddDatasetState(db: DB, d: Dataset): DB { db.(datasets := db.datasets + [d]) }
  function AddQueriesState(db: DB, rows: seq<Query>): DB { db.(queries := db.queries + rows) }
  function AddDocumentsState(db: DB, rows: seq<Document>): DB { db.(documents := db.documents + rows) }
  function AddQRelsState(db: DB, rows: seq<QRel>): DB { db.(qrels := db.qrels + rows) }

  /** Growing the corpora keeps every corpus reference resolvable. */
  lemma CorporaGrowKeepRefs(db: DB, c: Corpus)
    requires DatasetRefsOk(db) && DocumentsOk(db)
    ensures DatasetRefsOk(AddCorpusState(db, c)) && DocumentsOk(AddCorpusState(db, c))
  {
    var db' := AddCorpusState(db, c);
    forall d | d in db'.datasets ensures HasCorpus(db', d.corpusPkey) {
      var x :| x in db.corpora && x.pkey == d.corpusPkey;
      assert x in db'.corpora;
    }
    forall d | d in db'.documents ensures HasCorpus(db', d.corpusPkey) {
      var x :| x in db.corpora && x.pkey == d.corpusPkey;
      assert x in db'.corpora;
    }
  }

  /** A judgment's links survive when no row it links to is removed. */
  lemma LinksSurvive(db: DB, db': DB)
    requires LinksOk(db) && db'.qrels == db.qrels
    requires forall x | x in db.queries :: x in db'.queries
    requires forall x | x in db.datasets :: x in db'.datasets
    requires forall x | x in db.documents :: x in db'.documents
    ensures LinksOk(db')
  {
    forall r | r in db'.qrels ensures LinksSameCorpus(db', r) {
      var q, ds, d :| q in db.queries && ds in db.datasets && d in db.documents &&
        q.pkey == r.queryPkey && d.pkey == r.documentPkey &&
        ds.pkey == q.datasetPkey && ds.corpusPkey == d.corpusPkey;
      assert q in db'.queries && ds in db'.datasets && d in db'.documents;
    }
  }

  lemma AddCorpusKeepsWellFormed(db: DB, c: Corpus, next: int)
    requires WellFormed(db) && Below(db.corpora, CorpusPkey, next) && c.pkey == next
    requires forall x | x in db.corpora :: x.name != c.name
    ensures WellFormed(AddCorpusState(db, c))
    ensures Below(AddCorpusState(db, c).corpora, CorpusPkey, next + 1)
  {
    var db' := AddCorpusState(db, c);
    AppendKeepsKeys(db.corpora, [c], CorpusPkey, next);
    AppendKeepsDistinct(db.corpora, [c], CorpusName);
    CorporaGrowKeepRefs(db, c);
    LinksSurvive(db, db');
  }

  lemma AddDatasetKeepsWellFormed(db: DB, d: Dataset, next: int)
    requires WellFormed(db) && Below(db.datasets, DatasetPkey, next) && d.pkey == next
    requires HasCorpus(db, d.corpusPkey)
    requires forall x | x in db.datasets :: DatasetKey(x) != DatasetKey(d)
    ensures WellFormed(AddDatasetState(db, d))
    ensures Below(AddDatasetState(db, d).datasets, DatasetPkey, next + 1)
  {
    var db' := AddDatasetState(db, d);
    AppendKeepsKeys(db.datasets, [d], DatasetPkey, next);
    AppendKeepsDistinct(db.datasets, [d], DatasetKey);
    forall q | q in db'.queries ensures HasDataset(db', q.datasetPkey) {
      var x :| x in db.datasets && x.pkey == q.datasetPkey;
      assert x in db'.datasets;
    }
    LinksSurvive(db, db');
  }

  lemma AddQueriesKeepsWellFormed(db: DB, rows: seq<Query>, next: int)
    requires WellFormed(db) && Below(db.queries, QueryPkey, next)
    requires forall k | 0 <= k < |rows| :: rows[k].pkey == next + k
    requires forall x | x in rows :: HasDataset(db, x.datasetPkey)
    requires DistinctBy(db.queries + rows, QueryKey)
    ensures WellFormed(AddQueriesState(db, rows))
    ensures Below(AddQueriesState(db, rows).queries, QueryPkey, next + |rows|)
  {
    var db' := AddQueriesState(db, rows);
    AppendKeepsKeys(db.queries, rows, QueryPkey, next);
    LinksSurvive(db, db');
  }

  lemma AddDocumentsKeepsWellFormed(db: DB, rows: seq<Document>, next: int)
    requires WellFormed(db) && Below(db.documents, DocumentPkey, next)
    requires forall k | 0 <= k < |rows| :: rows[k].pkey == next + k
    requires forall x | x in rows :: HasCorpus(db, x.corpusPkey) && x.textLength == |x.text|
    ensures WellFormed(AddDocumentsState(db, rows))
    ensures Below(AddDocumentsState(db, rows).documents, DocumentPkey, next + |rows|)
  {
    var db' := AddDocumentsState(db, rows);
    AppendKeepsKeys(db.documents, rows, DocumentPkey, next);
    LinksSurvive(db, db'.(qrels := db.qrels));
  }

  lemma AddQRelsKeepsWellFormed(db: DB, rows: seq<QRel>)
    requires WellFormed(db)
    requires forall x | x in rows :: LinksSameCorpus(db, x)
    requires DistinctBy(db.qrels + rows, QRelKey)
    ensures WellFormed(AddQRelsState(db, rows))
  {
  }

  // Removals.

  /** A judgment whose query belongs to the dataset with pkey `datasetPkey` (the delete's join). */
  predicate QRelOfDataset(db: DB, datasetPkey: int, r: QRel)
  {
    exists q | q in db.queries :: q.pkey == r.queryPkey && q.datasetPkey == datasetPkey
  }

  /** The first delete of remove_dataset: the judgments of the dataset's queries. */
  function QRelsOutsideDataset(db: DB, datasetPkey: int): seq<QRel>
  {
    Filter(db.qrels, (r: QRel) => !QRelOfDataset(db, datasetPkey, r))
  }

  /** The second delete: the dataset's queries. */
  function QueriesOutsideDataset(db: DB, datasetPkey: int): seq<Query>
  {
    Filter(db.queries, (q: Query) => q.datasetPkey != datasetPkey)
  }

  /** The third delete: the dataset itself. */
  function DatasetsWithout(db: DB, datasetPkey: int): seq<Dataset>
  {
    Filter(db.datasets, (d: Dataset) => d.pkey != datasetPkey)
  }

  /** The store after the three deletes of remove_dataset, in their order. */
  function RemoveDatasetState(db: DB, datasetPkey: int): DB
  {
    var afterQRels := db.(qrels := QRelsOutsideDataset(db, datasetPkey));
    var afterQueries := afterQRels.(queries := QueriesOutsideDataset(afterQRels, datasetPkey));
    afterQueries.(datasets := DatasetsWithout(afterQueries, datasetPkey))
  }

  lemma RemoveDatasetKeepsKeys(db: DB, datasetPkey: int, nextDataset: int, nextQuery: int)
    requires KeysOk(db) && UniqueOk(db)
    requires Below(db.datasets, DatasetPkey, nextDataset) && Below(db.queries, QueryPkey, nextQuery)
    ensures KeysOk(RemoveDatasetState(db, datasetPkey)) && UniqueOk(RemoveDatasetState(db, datasetPkey))
    ensures Below(RemoveDatasetState(db, datasetPkey).datasets, DatasetPkey, nextDataset)
    ensures Below(RemoveDatasetState(db, datasetPkey).queries, QueryPkey, nextQuery)
  {
    FilterKeepsKeys(db.datasets, (d: Dataset) => d.pkey != datasetPkey, DatasetPkey, nextDataset);
    FilterKeepsKeys(db.queries, (q: Query) => q.datasetPkey != datasetPkey, QueryPkey, nextQuery);
    FilterKeepsDistinct(db.datasets, (d: Dataset) => d.pkey != datasetPkey, DatasetKey);
    FilterKeepsDistinct(db.queries, (q: Query) => q.datasetPkey != datasetPkey, QueryKey);
    FilterKeepsDistinct(db.qrels, (r: QRel) => !QRelOfDataset(db, datasetPkey, r), QRelKey);
  }

  lemma RemoveDatasetKeepsRefs(db: DB, datasetPkey: int)
    requires DatasetRefsOk(db) && QueryRefsOk(db) && DocumentsOk(db)
    ensures DatasetRefsOk(RemoveDatasetState(db, datasetPkey))
    ensures QueryRefsOk(RemoveDatasetState(db, datasetPkey))
    ensures DocumentsOk(RemoveDatasetState(db, datasetPkey))
  {
    var db' := RemoveDatasetState(db, datasetPkey);
    assert db'.queries == QueriesOutsideDataset(db, datasetPkey);
    assert db'.datasets == DatasetsWithout(db, datasetPkey);
    forall q | q in db'.queries ensures HasDataset(db', q.datasetPkey) {
      var x :| x in db.datasets && x.pkey == q.datasetPkey;
      assert x in db'.datasets;
    }
  }

  lemma RemoveDatasetKeepsLinks(db: DB, datasetPkey: int)
    requires LinksOk(db)
    ensures LinksOk(RemoveDatasetState(db, datasetPkey))
  {
    var db' := RemoveDatasetState(db, datasetPkey);
    assert db'.qrels == QRelsOutsideDataset(db, datasetPkey);
    assert db'.queries == QueriesOutsideDataset(db, datasetPkey);
    assert db'.datasets == DatasetsWithout(db, datasetPkey);
    forall r | r in db'.qrels ensures LinksSameCorpus(db', r) {
      var q, ds, d :| q in db.queries && ds in db.datasets && d in db.documents &&
        q.pkey == r.queryPkey && d.pkey == r.documentPkey &&
        ds.pkey == q.datasetPkey && ds.corpusPkey == d.corpusPkey;
      assert !QRelOfDataset(db, datasetPkey, r);
      assert q in db'.queries && ds in db'.datasets && d in db'.documents;
    }
  }

  lemma RemoveDatasetKeepsWellFormed(db: DB, datasetPkey: int, nextDataset: int, nextQuery: int)
    requires WellFormed(db) && Below(db.datasets, DatasetPkey, nextDataset) && Below(db.queries, QueryPkey, nextQuery)
    ensures WellFormed(RemoveDatasetState(db, datasetPkey))
    ensures Below(RemoveDatasetState(db, datasetPkey).datasets, DatasetPkey, nextDataset)
    ensures Below(RemoveDatasetState(db, datasetPkey).queries, QueryPkey, nextQuery)
  {
    RemoveDatasetKeepsKeys(db, datasetPkey, nextDataset, nextQuery);
    RemoveDatasetKeepsRefs(db, datasetPkey);
    RemoveDatasetKeepsLinks(db, datasetPkey);
  }

  /**
   * remove_dataset deletes exactly the judgments of the dataset's queries, those
   * queries and the dataset; every other row, and every corpus and document, stays.
   */
  lemma RemoveDatasetDeletesExactly(db: DB, datasetPkey: int)
    ensures forall r :: r in RemoveDatasetState(db, datasetPkey).qrels <==> r in db.qrels && !QRelOfDataset(db, datasetPkey, r)
    ensures forall q :: q in RemoveDatasetState(db, datasetPkey).queries <==> q in db.queries && q.datasetPkey != datasetPkey
    ensures forall d :: d in RemoveDatasetState(db, datasetPkey).datasets <==> d in db.datasets && d.pkey != datasetPkey
    ensures RemoveDatasetState(db, datasetPkey).documents == db.documents
    ensures RemoveDatasetState(db, datasetPkey).corpora == db.corpora
  {
  }

  /** The first delete of remove_corpus: the corpus's documents. */
  function DocumentsOutsideCorpus(db: DB, corpusPkey: int): seq<Document>
  {
    Filter(db.documents, (d: Document) => d.corpusPkey != corpusPkey)
  }

  /** The second delete: the corpus, selected by name. */
  function CorporaWithout(db: DB, name: string): seq<Corpus>
  {
    Filter(db.corpora, (c: Corpus) => c.name != name)
  }

  /** The store after the two deletes of remove_corpus, in their order. */
  function RemoveCorpusState(db: DB, c: Corpus): DB
  {
    var afterDocuments := db.(documents := DocumentsOutsideCorpus(db, c.pkey));
    afterDocuments.(corpora := CorporaWithout(afterDocuments, c.name))
  }

  /** remove_corpus deletes exactly the corpus's documents and the corpus; every other table stays. */
  lemma RemoveCorpusDeletesExactly(db: DB, c: Corpus)
    ensures forall d :: d in RemoveCorpusState(db, c).documents <==> d in db.documents && d.corpusPkey != c.pkey
    ensures forall x :: x in RemoveCorpusState(db, c).corpora <==> x in db.corpora && x.name != c.name
    ensures RemoveCorpusState(db, c).datasets == db.datasets
    ensures RemoveCorpusState(db, c).queries == db.queries
    ensures RemoveCorpusState(db, c).qrels == db.qrels
  {
  }

  /**
   * Once a corpus has no dataset, no judgment refers to any of its
   * documents, so deleting them cannot break a judgment's foreign key.
   */
  lemma NoJudgmentOnDatasetlessCorpus(db: DB, corpusPkey: int, r: QRel, d: Document)
    requires KeysOk(db) && LinksOk(db)
    requires forall x | x in db.datasets :: x.corpusPkey != corpusPkey
    requires r in db.qrels && d in db.documents && d.pkey == r.documentPkey
    ensures d.corpusPkey != corpusPkey
  {
    var q, ds, d' :| q in db.queries && ds in db.datasets && d' in db.documents &&
      q.pkey == r.queryPkey && d'.pkey == r.documentPkey &&
      ds.pkey == q.datasetPkey && ds.corpusPkey == d'.corpusPkey;
    IncreasingKeyDetermines(db.documents, DocumentPkey, d, d');
  }

  lemma RemoveCorpusKeepsKeys(db: DB, c: Corpus, nextCorpus: int, nextDocument: int)
    requires KeysOk(db) && UniqueOk(db)
    requires Below(db.corpora, CorpusPkey, nextCorpus) && Below(db.documents, DocumentPkey, nextDocument)
    ensures KeysOk(RemoveCorpusState(db, c)) && UniqueOk(RemoveCorpusState(db, c))
    ensures Below(RemoveCorpusState(db, c).corpora, CorpusPkey, nextCorpus)
    ensures Below(RemoveCorpusState(db, c).documents, DocumentPkey, nextDocument)
  {
    FilterKeepsKeys(db.corpora, (x: Corpus) => x.name != c.name, CorpusPkey, nextCorpus);
    FilterKeepsKeys(db.documents, (d: Document) => d.corpusPkey != c.pkey, DocumentPkey, nextDocument);
    FilterKeepsDistinct(db.corpora, (x: Corpus) => x.name != c.name, CorpusName);
  }

  lemma RemoveCorpusKeepsRefs(db: DB, c: Corpus)
    requires UniqueOk(db) && DatasetRefsOk(db) && QueryRefsOk(db) && DocumentsOk(db) && c in db.corpora
    requires forall x | x in db.datasets :: x.corpusPkey != c.pkey
    ensures DatasetRefsOk(RemoveCorpusState(db, c))
    ensures QueryRefsOk(RemoveCorpusState(db, c))
    ensures DocumentsOk(RemoveCorpusState(db, c))
  {
    var db' := RemoveCorpusState(db, c);
    assert db'.documents == DocumentsOutsideCorpus(db, c.pkey);
    assert db'.corpora == CorporaWithout(db, c.name);
    // A corpus other than `c` by pkey is other than `c` by name.
    forall x | x in db.corpora && x.pkey != c.pkey ensures x in db'.corpora {
      if x.name == c.name {
        DistinctKeyDetermines(db.corpora, CorpusName, x, c);
      }
    }
    forall d | d in db'.datasets ensures HasCorpus(db', d.corpusPkey) {
      var x :| x in db.corpora && x.pkey == d.corpusPkey;
      assert x in db'.corpora;
    }
    forall d | d in db'.documents ensures HasCorpus(db', d.corpusPkey) {
      var x :| x in db.corpora && x.pkey == d.corpusPkey;
      assert x in db'.corpora;
    }
  }

  lemma RemoveCorpusKeepsLinks(db: DB, c: Corpus)
    requires LinksOk(db)
    requires forall x | x in db.datasets :: x.corpusPkey != c.pkey
    ensures LinksOk(RemoveCorpusState(db, c))
  {
    var db' := RemoveCorpusState(db, c);
    assert db'.documents == DocumentsOutsideCorpus(db, c.pkey);
    forall r | r in db'.qrels ensures LinksSameCorpus(db', r) {
      var q, ds, d :| q in db.queries && ds in db.datasets && d in db.documents &&
        q.pkey == r.queryPkey && d.pkey == r.documentPkey &&
        ds.pkey == q.datasetPkey && ds.corpusPkey == d.corpusPkey;
      assert d in db'.documents;
    }
  }

  lemma RemoveCorpusKeepsWellFormed(db: DB, c: Corpus, nextCorpus: int, nextDocument: int)
    requires WellFormed(db) && c in db.corpora
    requires Below(db.corpora, CorpusPkey, nextCorpus) && Below(db.documents, DocumentPkey, nextDocument)
    requires forall x | x in db.datasets :: x.corpusPkey != c.pkey
    ensures WellFormed(RemoveCorpusState(db, c))
    ensures Below(RemoveCorpusState(db, c).corpora, CorpusPkey, nextCorpus)
    ensures Below(RemoveCorpusState(db, c).documents, DocumentPkey, nextDocument)
  {
    RemoveCorpusKeepsKeys(db, c, nextCorpus, nextDocument);
    RemoveCorpusKeepsRefs(db, c);
    RemoveCorpusKeepsLinks(db, c);
  }
}

/**
 * The read side of the store (backend/app/controllers/browse.py): listings
 * with their statistics, single-row lookups, and paginated listings that
 * filter, aggregate over outer joins, order and slice a snapshot.
 */
module Browse {
  import opened Wrappers
  import opened Relational
  import opened Ordering
  import opened Paging
  import opened Schema
  import opened FullText
  import opened Mutations

  // get_corpora

  datatype CorpusInfo = CorpusInfo(name: string, language: string, numDatasets: nat, numDocuments: nat)

  /** The per-corpus document count, with the `corpus_pkey @@@ '>0'` condition that hands the count to the engine. */
  function NumDocumentsOf(db: DB, c: Corpus): nat
  {
    Count(db.documents, (d: Document) => d.corpusPkey == c.pkey && d.corpusPkey > 0)
  }

  function NumDatasetsOf(db: DB, c: Corpus): nat
  {
    Count(db.datasets, (ds: Dataset) => ds.corpusPkey == c.pkey)
  }

  function CorpusInfoOf(db: DB, c: Corpus): CorpusInfo
  {
    CorpusInfo(c.name, c.language, NumDatasetsOf(db, c), NumDocumentsOf(db, c))
  }

  /** Every corpus with its counts; the outer joins keep corpora that have no dataset or document. */
  function GetCorpora(db: DB): (r: seq<CorpusInfo>)
    ensures |r| == |db.corpora|
    ensures forall i | 0 <= i < |r| :: r[i].name == db.corpora[i].name && r[i].language == db.corpora[i].language
  {
    Map(db.corpora, (c: Corpus) => CorpusInfoOf(db, c))
  }

  /** Because assigned pkeys are positive, the engine condition in the document count excludes nothing. */
  lemma CorpusDocumentCount(db: DB, i: int)
    requires WellFormed(db) && 0 <= i < |db.corpora|
    ensures GetCorpora(db)[i].numDocuments == Count(db.documents, (d: Document) => d.corpusPkey == db.corpora[i].pkey)
  {
    var pk := db.corpora[i].pkey;
    assert pk >= 1;
    FilterExt(db.documents, (d: Document) => d.corpusPkey == pk && d.corpusPkey > 0, (d: Document) => d.corpusPkey == pk);
  }

  /** A corpus reports 0 datasets exactly when none refers to it, and it is listed all the same. */
  lemma CorpusDatasetCountZero(db: DB, i: int)
    requires 0 <= i < |db.corpora|
    ensures GetCorpora(db)[i].numDatasets == 0 <==> forall ds | ds in db.datasets :: ds.corpusPkey != db.corpora[i].pkey
  {
    var pk := db.corpora[i].pkey;
    if forall ds | ds in db.datasets :: ds.corpusPkey != pk {
      FilterNone(db.datasets, (ds: Dataset) => ds.corpusPkey == pk);
    }
  }

  /** A corpus reports 0 documents exactly when none belongs to it, and it is listed all the same. */
  lemma CorpusDocumentCountZero(db: DB, i: int)
    requires WellFormed(db) && 0 <= i < |db.corpora|
    ensures GetCorpora(db)[i].numDocuments == 0 <==> forall d | d in db.documents :: d.corpusPkey != db.corpora[i].pkey
  {
    var pk := db.corpora[i].pkey;
    CorpusDocumentCount(db, i);
    if forall d | d in db.documents :: d.corpusPkey != pk {
      FilterNone(db.documents, (d: Document) => d.corpusPkey == pk);
    }
  }

  // get_datasets

  datatype DatasetInfo = DatasetInfo(name: string, corpusName: string, minRelevance: int, numQueries: nat)

  function NumQueriesOf(db: DB, ds: Dataset): nat
  {
    Count(db.queries, (q: Query) => q.datasetPkey == ds.pkey)
  }

  function DatasetInfoOf(db: DB, corpusName: string, ds: Dataset): DatasetInfo
  {
    DatasetInfo(ds.name, corpusName, ds.minRelevance, NumQueriesOf(db, ds))
  }

  /**
   * The datasets of the corpus called `corpusName` with their query counts;
   * the outer join keeps datasets without queries.
   */
  function GetDatasets(db: DB, corpusName: string): (r: seq<DatasetInfo>)
    ensures forall ds | ds in db.datasets && DatasetInCorpus(db, ds, corpusName) :: DatasetInfoOf(db, corpusName, ds) in r
    ensures forall x | x in r :: exists ds | ds in db.datasets && DatasetInCorpus(db, ds, corpusName) :: x == DatasetInfoOf(db, corpusName, ds)
  {
    var inCorpus := Filter(db.datasets, (ds: Dataset) => DatasetInCorpus(db, ds, corpusName));
    MapMembers(inCorpus, (ds: Dataset) => DatasetInfoOf(db, corpusName, ds));
    Map(inCorpus, (ds: Dataset) => DatasetInfoOf(db, corpusName, ds))
  }

  /** A corpus name that does not exist lists no datasets (and is not an error). */
  lemma UnknownCorpusHasNoDatasets(db: DB, corpusName: string)
    requires CorpusNamed(db, corpusName).None?
    ensures GetDatasets(db, corpusName) == []
  {
    FilterNone(db.datasets, (ds: Dataset) => DatasetInCorpus(db, ds, corpusName));
  }

  /** A dataset reports 0 queries exactly when no query belongs to it. */
  lemma DatasetQueryCountZero(db: DB, corpusName: string, ds: Dataset)
    ensures DatasetInfoOf(db, corpusName, ds).numQueries == 0 <==> forall q | q in db.queries :: q.datasetPkey != ds.pkey
  {
    if forall q | q in db.queries :: q.datasetPkey != ds.pkey {
      FilterNone(db.queries, (q: Query) => q.datasetPkey == ds.pkey);
    }
  }

  // get_queries and get_query

  /** A query joined with its dataset and that dataset's corpus. */
  datatype QueryJoin = QueryJoin(query: Query, dataset: Dataset, corpus: Corpus)

  /** The inner joins query -> dataset -> corpus for one query, following the foreign keys. */
  function JoinQuery(db: DB, q: Query): (r: Option<QueryJoin>)
    ensures r.Some? ==> r.value.query == q && r.value.dataset in db.datasets && r.value.corpus in db.corpora
    ensures r.Some? ==> r.value.dataset.pkey == q.datasetPkey && r.value.corpus.pkey == r.value.dataset.corpusPkey
  {
    match DatasetWithPkey(db, q.datasetPkey)
    case None => None
    case Some(ds) =>
      match CorpusWithPkey(db, ds.corpusPkey)
      case None => None
      case Some(c) => Some(QueryJoin(q, ds, c))
  }

  function JoinQueries(db: DB): (r: seq<QueryJoin>)
    ensures forall j | j in r :: j.query in db.queries && j.dataset in db.datasets && j.corpus in db.corpora
    ensures forall j | j in r :: j.dataset.pkey == j.query.datasetPkey && j.corpus.pkey == j.dataset.corpusPkey
  {
    Collect(db.queries, (q: Query) => JoinQuery(db, q))
  }

  function JoinedQueryPkey(j: QueryJoin): int { j.query.pkey }

  lemma JoinQueriesIncreasing(db: DB)
    requires Increasing(db.queries, QueryPkey)
    ensures Increasing(JoinQueries(db), JoinedQueryPkey)
  {
    CollectKeepsIncreasing(db.queries, (q: Query) => JoinQuery(db, q), QueryPkey, JoinedQueryPkey);
  }

  /** Under the foreign keys the inner joins drop no query: one joined row per query, in table order. */
  lemma JoinQueriesKeepsEveryQuery(db: DB)
    requires WellFormed(db)
    ensures |JoinQueries(db)| == |db.queries|
    ensures forall i | 0 <= i < |db.queries| :: JoinQueries(db)[i].query == db.queries[i]
  {
    var f := (q: Query) => JoinQuery(db, q);
    forall q | q in db.queries ensures f(q).Some? {
      var ds := DatasetWithPkey(db, q.datasetPkey);
      assert ds.Some?;
      assert HasCorpus(db, ds.value.corpusPkey);
    }
    CollectAll(db.queries, f);
  }

  /** The WHERE clause of get_queries. */
  predicate QuerySelected(e: Engine, corpusName: string, datasetName: Option<string>, matchText: Option<string>, j: QueryJoin)
  {
    && j.corpus.name == corpusName
    && (datasetName.None? || j.dataset.name == datasetName.value)
    && MatchesIfGiven(e, j.query.text, matchText)
  }

  /** count(*) FILTER (WHERE relevance >= min_relevance) over the query's judgments, outer-joined. */
  function JudgedRelevant(db: DB, j: QueryJoin): nat
  {
    Count(db.qrels, (r: QRel) => r.queryPkey == j.query.pkey && r.relevance >= j.dataset.minRelevance)
  }

  datatype QueryItem = QueryItem(id: string, corpusName: string, datasetName: string, text: string,
                                 description: Option<string>, numRelevantDocuments: nat)

  function QueryItemOf(db: DB, corpusName: string, j: QueryJoin): QueryItem
  {
    QueryItem(j.query.id, corpusName, j.dataset.name, j.query.text, j.query.description, JudgedRelevant(db, j))
  }

  /** The `order_by` choices of get_queries. */
  datatype QueryOrder = RelevantDocuments | QueryLength | QueryMatchScore

  /** The ORDER BY list: the chosen column in the chosen direction, then pkey ascending. */
  function QueryRankKey(db: DB, e: Engine, matchText: Option<string>, orderBy: Option<QueryOrder>, desc: bool, j: QueryJoin): (k: Key)
    ensures k.tie1 == j.query.pkey
    ensures orderBy.None? ==> k.primary == 0 && k.name == [] && k.tie2 == 0
  {
    match orderBy
    case None => Key(0, [], j.query.pkey, 0)
    case Some(RelevantDocuments) => Key(Directed(JudgedRelevant(db, j), desc), [], j.query.pkey, 0)
    case Some(QueryLength) => Key(Directed(|j.query.text|, desc), [], j.query.pkey, 0)
    case Some(QueryMatchScore) => Key(Directed(Score(e, j.query.text, matchText), desc), [], j.query.pkey, 0)
  }

  function SelectedQueries(db: DB, e: Engine, corpusName: string, datasetName: Option<string>, matchText: Option<string>): (r: seq<QueryJoin>)
  {
    Filter(JoinQueries(db), (j: QueryJoin) => QuerySelected(e, corpusName, datasetName, matchText, j))
  }

  lemma SelectedQueriesIncreasing(db: DB, e: Engine, corpusName: string, datasetName: Option<string>, matchText: Option<string>)
    requires Increasing(db.queries, QueryPkey)
    ensures Increasing(SelectedQueries(db, e, corpusName, datasetName, matchText), JoinedQueryPkey)
  {
    JoinQueriesIncreasing(db);
    FilterKeepsIncreasing(JoinQueries(db), (j: QueryJoin) => QuerySelected(e, corpusName, datasetName, matchText, j), JoinedQueryPkey);
  }

  function RankedQueries(db: DB, e: Engine, corpusName: string, datasetName: Option<string>, matchText: Option<string>,
                         orderBy: Option<QueryOrder>, desc: bool): seq<Ranked<QueryItem>>
  {
    Map(SelectedQueries(db, e, corpusName, datasetName, matchText),
        (j: QueryJoin) => Ranked(QueryRankKey(db, e, matchText, orderBy, desc, j), QueryItemOf(db, corpusName, j)))
  }

  /**
   * One page of the selected queries in the requested order, with the
   * number of selected queries, which does not depend on the page.
   */
  function GetQueries(db: DB, e: Engine, corpusName: string, datasetName: Option<string>, matchText: Option<string>,
                      numResults: nat, offset: nat, orderBy: Option<QueryOrder>, desc: bool): (r: Paginated<QueryItem>)
    ensures r.totalNumItems == Count(JoinQueries(db), (j: QueryJoin) => QuerySelected(e, corpusName, datasetName, matchText, j))
    ensures r.offset == offset && |r.items| <= numResults
    ensures |r.items| == if offset >= r.totalNumItems then 0 else Min(numResults, r.totalNumItems - offset)
  {
    Paginate(RankedQueries(db, e, corpusName, datasetName, matchText, orderBy, desc), offset, numResults)
  }

  /** Query pkeys increase along the table, so the ORDER BY list of get_queries is a unique key. */
  lemma QueryKeysDistinct(db: DB, e: Engine, corpusName: string, datasetName: Option<string>, matchText: Option<string>,
                          orderBy: Option<QueryOrder>, desc: bool)
    requires Increasing(db.queries, QueryPkey)
    ensures DistinctKeys(RankedQueries(db, e, corpusName, datasetName, matchText, orderBy, desc))
  {
    SelectedQueriesIncreasing(db, e, corpusName, datasetName, matchText);
    RankByIncreasing(SelectedQueries(db, e, corpusName, datasetName, matchText), JoinedQueryPkey,
                     (j: QueryJoin) => Ranked(QueryRankKey(db, e, matchText, orderBy, desc, j), QueryItemOf(db, corpusName, j)));
  }

  /** The order of get_queries is total: any sorted arrangement of the selected queries gives the same page. */
  lemma QueriesPageDetermined(db: DB, e: Engine, corpusName: string, datasetName: Option<string>, matchText: Option<string>,
                              numResults: nat, offset: nat, orderBy: Option<QueryOrder>, desc: bool,
                              arranged: seq<Ranked<QueryItem>>)
    requires Increasing(db.queries, QueryPkey)
    requires Sorted(arranged)
    requires multiset(arranged) == multiset(RankedQueries(db, e, corpusName, datasetName, matchText, orderBy, desc))
    ensures GetQueries(db, e, corpusName, datasetName, matchText, numResults, offset, orderBy, desc).items
         == Rows(Page(arranged, offset, numResults))
  {
    QueryKeysDistinct(db, e, corpusName, datasetName, matchText, orderBy, desc);
    PageIsDetermined(RankedQueries(db, e, corpusName, datasetName, matchText, orderBy, desc), arranged, offset, numResults);
  }

  /**
   * Without `order_by` the selected queries come in table order, which is
   * ascending pkey order, whatever `order_by_desc` says.
   */
  lemma QueriesDefaultOrder(db: DB, e: Engine, corpusName: string, datasetName: Option<string>, matchText: Option<string>,
                            numResults: nat, offset: nat, desc: bool)
    requires Increasing(db.queries, QueryPkey)
    ensures GetQueries(db, e, corpusName, datasetName, matchText, numResults, offset, None, desc).items
         == Page(Map(SelectedQueries(db, e, corpusName, datasetName, matchText), (j: QueryJoin) => QueryItemOf(db, corpusName, j)),
                 offset, numResults)
  {
    var selected := SelectedQueries(db, e, corpusName, datasetName, matchText);
    var ranked := RankedQueries(db, e, corpusName, datasetName, matchText, None, desc);
    SelectedQueriesIncreasing(db, e, corpusName, datasetName, matchText);
    TieOrderSorted(ranked);
    SortKeepsSorted(ranked);
    assert Rows(ranked) == Map(selected, (j: QueryJoin) => QueryItemOf(db, corpusName, j));
  }

  /**
   * Each listed query reports the number of its judgments that reach the
   * min_relevance of its own dataset: num_relevant_documents.
   */
  lemma QueryItemCountsRelevantDocuments(db: DB, corpusName: string, j: QueryJoin)
    requires WellFormed(db) && j in JoinQueries(db)
    ensures QueryItemOf(db, corpusName, j).numRelevantDocuments == NumRelevantDocuments(db, j.query.pkey)
  {
    NumRelevantDocumentsUsesOwnThreshold(db, j.query, j.dataset);
  }

  /** get_query's WHERE clause: the query id inside the named dataset of the named corpus. */
  predicate QueryIdentified(corpusName: string, datasetName: string, queryId: string, j: QueryJoin)
  {
    j.query.id == queryId && j.corpus.name == corpusName && j.dataset.name == datasetName
  }

  /** The query with the id in the dataset and corpus named, or NotFound. */
  function GetQuery(db: DB, corpusName: string, datasetName: string, queryId: string): (r: Result<QueryItem>)
    ensures r.Failure? <==> forall j | j in JoinQueries(db) :: !QueryIdentified(corpusName, datasetName, queryId, j)
    ensures r.Failure? ==> r.error == NotFound
    ensures r.Success? ==> exists j | j in JoinQueries(db) ::
              QueryIdentified(corpusName, datasetName, queryId, j) && r.value == QueryItemOf(db, corpusName, j)
  {
    match Find(JoinQueries(db), (j: QueryJoin) => QueryIdentified(corpusName, datasetName, queryId, j))
    case None => Failure(NotFound)
    case Some(j) => Success(QueryItemOf(db, corpusName, j))
  }

  /**
   * The unique constraints on corpus names, (name, corpus) of datasets and
   * (id, dataset) of queries leave at most one row for get_query.
   */
  lemma QueryIdentifiedAtMostOnce(db: DB, corpusName: string, datasetName: string, queryId: string, j1: QueryJoin, j2: QueryJoin)
    requires WellFormed(db) && j1 in JoinQueries(db) && j2 in JoinQueries(db)
    requires QueryIdentified(corpusName, datasetName, queryId, j1) && QueryIdentified(corpusName, datasetName, queryId, j2)
    ensures j1 == j2
  {
    DistinctKeyDetermines(db.corpora, CorpusName, j1.corpus, j2.corpus);
    DistinctKeyDetermines(db.datasets, DatasetKey, j1.dataset, j2.dataset);
    DistinctKeyDetermines(db.queries, QueryKey, j1.query, j2.query);
  }

  /** A query found by get_query reports its num_relevant_documents. */
  lemma GetQueryCountsRelevantDocuments(db: DB, corpusName: string, datasetName: string, queryId: string, j: QueryJoin)
    requires WellFormed(db) && j in JoinQueries(db) && QueryIdentified(corpusName, datasetName, queryId, j)
    ensures GetQuery(db, corpusName, datasetName, queryId) == Success(QueryItemOf(db, corpusName, j))
    ensures GetQuery(db, corpusName, datasetName, queryId).value.numRelevantDocuments == NumRelevantDocuments(db, j.query.pkey)
  {
    var r := GetQuery(db, corpusName, datasetName, queryId);
    var j' :| j' in JoinQueries(db) && QueryIdentified(corpusName, datasetName, queryId, j') && r.value == QueryItemOf(db, corpusName, j');
    QueryIdentifiedAtMostOnce(db, corpusName, datasetName, queryId, j, j');
    QueryItemCountsRelevantDocuments(db, corpusName, j);
  }

  // get_document and get_documents

  datatype DocumentItem = DocumentItem(id: string, corpusName: string, title: Option<string>, text: string,
                                       numRelevantQueries: nat)

  /** A document with num_relevant_queries: its judgments relevant under their own queries' datasets. */
  function DocumentItemOf(db: DB, corpusName: string, d: Document): DocumentItem
  {
    DocumentItem(d.id, corpusName, d.title, d.text, NumRelevantQueries(db, d.pkey))
  }

  /** get_document's WHERE clause: the document id inside the corpus called `corpusName`. */
  predicate DocumentIdentified(db: DB, corpusName: string, documentId: string, d: Document)
  {
    d.id == documentId && CorpusNameOf(db, d.corpusPkey) == Some(corpusName)
  }

  /**
   * At most one document of the named corpus carries the id. Document ids
   * are not declared unique, and get_document expects exactly one row.
   */
  predicate DocumentLookupUnambiguous(db: DB, corpusName: string, documentId: string)
  {
    forall d1, d2 | d1 in db.documents && d2 in db.documents &&
      DocumentIdentified(db, corpusName, documentId, d1) && DocumentIdentified(db, corpusName, documentId, d2) :: d1 == d2
  }

  /** The document with the id in the corpus named, or NotFound. */
  function GetDocument(db: DB, corpusName: string, documentId: string): (r: Result<DocumentItem>)
    requires DocumentLookupUnambiguous(db, corpusName, documentId)
    ensures r.Failure? <==> forall d | d in db.documents :: !DocumentIdentified(db, corpusName, documentId, d)
    ensures r.Failure? ==> r.error == NotFound
    ensures forall d | d in db.documents && DocumentIdentified(db, corpusName, documentId, d) ::
              r == Success(DocumentItemOf(db, corpusName, d))
  {
    match Find(db.documents, (d: Document) => DocumentIdentified(db, corpusName, documentId, d))
    case None => Failure(NotFound)
    case Some(d) => Success(DocumentItemOf(db, corpusName, d))
  }

  /** The `order_by` choices of get_documents. */
  datatype DocumentOrder = RelevantQueries | DocumentLength | DocumentMatchScore

  /**
   * get_documents' WHERE clause. The corpus is found by a scalar subquery on
   * its name; when no corpus has the name the comparison is with NULL and no
   * document qualifies.
   */
  predicate DocumentSelected(db: DB, e: Engine, corpusName: string, matchText: Option<string>, d: Document)
  {
    && CorpusNamed(db, corpusName).Some?
    && d.corpusPkey == CorpusNamed(db, corpusName).value.pkey
    && MatchesIfGiven(e, d.text, matchText)
  }

  /** The ORDER BY list: the chosen column in the chosen direction, then pkey ascending. */
  function DocumentRankKey(db: DB, e: Engine, matchText: Option<string>, orderBy: Option<DocumentOrder>, desc: bool, d: Document): (k: Key)
    ensures k.tie1 == d.pkey
    ensures orderBy.None? ==> k.primary == 0 && k.name == [] && k.tie2 == 0
  {
    match orderBy
    case None => Key(0, [], d.pkey, 0)
    case Some(RelevantQueries) => Key(Directed(NumRelevantQueries(db, d.pkey), desc), [], d.pkey, 0)
    case Some(DocumentLength) => Key(Directed(d.textLength, desc), [], d.pkey, 0)
    case Some(DocumentMatchScore) => Key(Directed(Score(e, d.text, matchText), desc), [], d.pkey, 0)
  }

  function SelectedDocuments(db: DB, e: Engine, corpusName: string, matchText: Option<string>): seq<Document>
  {
    Filter(db.documents, (d: Document) => DocumentSelected(db, e, corpusName, matchText, d))
  }

  function RankedDocuments(db: DB, e: Engine, corpusName: string, matchText: Option<string>,
                           orderBy: Option<DocumentOrder>, desc: bool): seq<Ranked<DocumentItem>>
  {
    Map(SelectedDocuments(db, e, corpusName, matchText),
        (d: Document) => Ranked(DocumentRankKey(db, e, matchText, orderBy, desc, d), DocumentItemOf(db, corpusName, d)))
  }

  /**
   * One page of the corpus's matching documents in the requested order, with
   * the number of matching documents, which does not depend on the page.
   */
  function GetDocuments(db: DB, e: Engine, corpusName: string, matchText: Option<string>, numResults: nat, offset: nat,
                        orderBy: Option<DocumentOrder>, desc: bool): (r: Paginated<DocumentItem>)
    ensures r.totalNumItems == Count(db.documents, (d: Document) => DocumentSelected(db, e, corpusName, matchText, d))
    ensures r.offset == offset && |r.items| <= numResults
    ensures |r.items| == if offset >= r.totalNumItems then 0 else Min(numResults, r.totalNumItems - offset)
  {
    Paginate(RankedDocuments(db, e, corpusName, matchText, orderBy, desc), offset, numResults)
  }

  /** A corpus name that does not exist lists no documents. */
  lemma UnknownCorpusHasNoDocuments(db: DB, e: Engine, corpusName: string, matchText: Option<string>, numResults: nat, offset: nat,
                                    orderBy: Option<DocumentOrder>, desc: bool)
    requires CorpusNamed(db, corpusName).None?
    ensures GetDocuments(db, e, corpusName, matchText, numResults, offset, orderBy, desc) == Paginated([], offset, 0)
  {
    FilterNone(db.documents, (d: Document) => DocumentSelected(db, e, corpusName, matchText, d));
  }

  /** Document pkeys increase along the table, so the ORDER BY list of get_documents is a unique key. */
  lemma DocumentKeysDistinct(db: DB, e: Engine, corpusName: string, matchText: Option<string>,
                             orderBy: Option<DocumentOrder>, desc: bool)
    requires Increasing(db.documents, DocumentPkey)
    ensures DistinctKeys(RankedDocuments(db, e, corpusName, matchText, orderBy, desc))
  {
    FilterKeepsIncreasing(db.documents, (d: Document) => DocumentSelected(db, e, corpusName, matchText, d), DocumentPkey);
    RankByIncreasing(SelectedDocuments(db, e, corpusName, matchText), DocumentPkey,
                     (d: Document) => Ranked(DocumentRankKey(db, e, matchText, orderBy, desc, d), DocumentItemOf(db, corpusName, d)));
  }

  /** The order of get_documents is total: any sorted arrangement of the documents gives the same page. */
  lemma DocumentsPageDetermined(db: DB, e: Engine, corpusName: string, matchText: Option<string>, numResults: nat, offset: nat,
                                orderBy: Option<DocumentOrder>, desc: bool, arranged: seq<Ranked<DocumentItem>>)
    requires Increasing(db.documents, DocumentPkey)
    requires Sorted(arranged)
    requires multiset(arranged) == multiset(RankedDocuments(db, e, corpusName, matchText, orderBy, desc))
    ensures GetDocuments(db, e, corpusName, matchText, numResults, offset, orderBy, desc).items
         == Rows(Page(arranged, offset, numResults))
  {
    DocumentKeysDistinct(db, e, corpusName, matchText, orderBy, desc);
    PageIsDetermined(RankedDocuments(db, e, corpusName, matchText, orderBy, desc), arranged, offset, numResults);
  }

  /** Without `order_by` the documents come in table order (ascending pkey) whatever `order_by_desc` says. */
  lemma DocumentsDefaultOrder(db: DB, e: Engine, corpusName: string, matchText: Option<string>, numResults: nat, offset: nat, desc: bool)
    requires Increasing(db.documents, DocumentPkey)
    ensures GetDocuments(db, e, corpusName, matchText, numResults, offset, None, desc).items
         == Page(Map(SelectedDocuments(db, e, corpusName, matchText), (d: Document) => DocumentItemOf(db, corpusName, d)),
                 offset, numResults)
  {
    var selected := SelectedDocuments(db, e, corpusName, matchText);
    var ranked := RankedDocuments(db, e, corpusName, matchText, None, desc);
    FilterKeepsIncreasing(db.documents, (d: Document) => DocumentSelected(db, e, corpusName, matchText, d), DocumentPkey);
    TieOrderSorted(ranked);
    SortKeepsSorted(ranked);
    assert Rows(ranked) == Map(selected, (d: Document) => DocumentItemOf(db, corpusName, d));
  }

  // get_qrels

  /** A judgment joined with its query, its document, the query's dataset and that dataset's corpus. */
  datatype QRelJoin = QRelJoin(qrel: QRel, query: Query, document: Document, dataset: Dataset, corpus: Corpus)

  /** The inner joins of get_qrels for one judgment, following the foreign keys. */
  function JoinQRel(db: DB, r: QRel): (j: Option<QRelJoin>)
    ensures j.Some? ==> j.value.qrel == r && QueryWithPkey(db, r.queryPkey) == Some(j.value.query)
    ensures j.Some? ==> DocumentWithPkey(db, r.documentPkey) == Some(j.value.document)
    ensures j.Some? ==> DatasetWithPkey(db, j.value.query.datasetPkey) == Some(j.value.dataset)
    ensures j.Some? ==> CorpusWithPkey(db, j.value.dataset.corpusPkey) == Some(j.value.corpus)
  {
    match QueryWithPkey(db, r.queryPkey)
    case None => None
    case Some(q) =>
      match DocumentWithPkey(db, r.documentPkey)
      case None => None
      case Some(d) =>
        match DatasetWithPkey(db, q.datasetPkey)
        case None => None
        case Some(ds) =>
          match CorpusWithPkey(db, ds.corpusPkey)
          case None => None
          case Some(c) => Some(QRelJoin(r, q, d, ds, c))
  }

  function JoinQRels(db: DB): (r: seq<QRelJoin>)
    ensures forall j | j in r :: j.qrel in db.qrels && JoinQRel(db, j.qrel) == Some(j)
  {
    Collect(db.qrels, (x: QRel) => JoinQRel(db, x))
  }

  function JoinedQRelKey(j: QRelJoin): (int, int) { QRelKey(j.qrel) }

  /** Every stored judgment has its query and document, so the inner joins drop none. */
  lemma JoinQRelsKeepsEveryQRel(db: DB)
    requires LinksOk(db) && QueryRefsOk(db) && DatasetRefsOk(db)
    ensures |JoinQRels(db)| == |db.qrels|
    ensures forall i | 0 <= i < |db.qrels| :: JoinQRels(db)[i].qrel == db.qrels[i]
  {
    var f := (x: QRel) => JoinQRel(db, x);
    forall x | x in db.qrels ensures f(x).Some? {
      assert LinksSameCorpus(db, x);
      var q := QueryWithPkey(db, x.queryPkey);
      assert q.Some?;
      var ds := DatasetWithPkey(db, q.value.datasetPkey);
      assert ds.Some?;
      assert HasCorpus(db, ds.value.corpusPkey);
    }
    CollectAll(db.qrels, f);
  }

  /** The optional filters of get_qrels. */
  datatype QRelFilter = QRelFilter(documentId: Option<string>, datasetName: Option<string>, queryId: Option<string>,
                                   matchQuery: Option<string>, matchDocument: Option<string>)

  /** get_qrels' WHERE clause: corpus, threshold and every filter given, all together. */
  predicate QRelSelected(e: Engine, corpusName: string, f: QRelFilter, j: QRelJoin)
  {
    && j.corpus.name == corpusName
    && j.qrel.relevance >= j.dataset.minRelevance
    && (f.documentId.None? || j.document.id == f.documentId.value)
    && (f.datasetName.None? || j.dataset.name == f.datasetName.value)
    && (f.queryId.None? || j.query.id == f.queryId.value)
    && MatchesIfGiven(e, j.query.text, f.matchQuery)
    && MatchesIfGiven(e, j.document.text, f.matchDocument)
  }

  /** A get_qrels item: the query and the document in the shapes of the add_queries and add_documents inputs. */
  datatype QRelItem = QRelItem(queryInfo: QueryInfo, documentInfo: DocumentInfo, relevance: int,
                               corpusName: string, datasetName: string)

  function QRelItemOf(j: QRelJoin): QRelItem
  {
    QRelItem(QueryInfo(j.query.id, j.query.text, j.query.description),
             DocumentInfo(j.document.id, j.document.title, j.document.text),
             j.qrel.relevance, j.corpus.name, j.dataset.name)
  }

  /** The `order_by` choices of get_qrels. */
  datatype QRelOrder = Relevance | JudgedQueryLength | JudgedDocumentLength | JudgedQueryMatchScore | JudgedDocumentMatchScore

  /** The ORDER BY list: the chosen column in the chosen direction, then (query_pkey, document_pkey) ascending. */
  function QRelRankKey(e: Engine, f: QRelFilter, orderBy: Option<QRelOrder>, desc: bool, j: QRelJoin): (k: Key)
    ensures (k.tie1, k.tie2) == QRelKey(j.qrel)
  {
    var v := match orderBy
      case None => 0
      case Some(Relevance) => Directed(j.qrel.relevance, desc)
      case Some(JudgedQueryLength) => Directed(|j.query.text|, desc)
      case Some(JudgedDocumentLength) => Directed(|j.document.text|, desc)
      case Some(JudgedQueryMatchScore) => Directed(Score(e, j.query.text, f.matchQuery), desc)
      case Some(JudgedDocumentMatchScore) => Directed(Score(e, j.document.text, f.matchDocument), desc);
    Key(v, [], j.qrel.queryPkey, j.qrel.documentPkey)
  }

  function QRelSelector(e: Engine, corpusName: string, f: QRelFilter): QRelJoin -> bool
  {
    (j: QRelJoin) => QRelSelected(e, corpusName, f, j)
  }

  function QRelRanker(e: Engine, f: QRelFilter, orderBy: Option<QRelOrder>, desc: bool): QRelJoin -> Ranked<QRelItem>
  {
    (j: QRelJoin) => Ranked(QRelRankKey(e, f, orderBy, desc, j), QRelItemOf(j))
  }

  function SelectedQRels(db: DB, e: Engine, corpusName: string, f: QRelFilter): seq<QRelJoin>
  {
    Filter(JoinQRels(db), QRelSelector(e, corpusName, f))
  }

  function RankedQRels(db: DB, e: Engine, corpusName: string, f: QRelFilter, orderBy: Option<QRelOrder>, desc: bool): seq<Ranked<QRelItem>>
  {
    Map(SelectedQRels(db, e, corpusName, f), QRelRanker(e, f, orderBy, desc))
  }

  /**
   * One page of the judgments that reach their threshold, lie in the corpus
   * and pass every filter given, in the requested order, with their number.
   */
  function GetQRels(db: DB, e: Engine, corpusName: string, f: QRelFilter, numResults: nat, offset: nat,
                    orderBy: Option<QRelOrder>, desc: bool): (r: Paginated<QRelItem>)
    ensures r.totalNumItems == Count(JoinQRels(db), QRelSelector(e, corpusName, f))
    ensures r.offset == offset && |r.items| <= numResults
    ensures |r.items| == if offset >= r.totalNumItems then 0 else Min(numResults, r.totalNumItems - offset)
  {
    Paginate(RankedQRels(db, e, corpusName, f, orderBy, desc), offset, numResults)
  }

  /**
   * get_qrels lists exactly the judgments that reach their threshold, lie in the
   * corpus and pass every filter given: a page that holds the whole listing holds
   * those and nothing else.
   */
  lemma QRelsListedExactly(db: DB, e: Engine, corpusName: string, f: QRelFilter, numResults: nat,
                           orderBy: Option<QRelOrder>, desc: bool)
    requires numResults >= Count(JoinQRels(db), QRelSelector(e, corpusName, f))
    ensures forall x | x in GetQRels(db, e, corpusName, f, numResults, 0, orderBy, desc).items ::
              exists j | j in JoinQRels(db) && QRelSelected(e, corpusName, f, j) :: QRelItemOf(j) == x
    ensures forall j | j in JoinQRels(db) && QRelSelected(e, corpusName, f, j) ::
              QRelItemOf(j) in GetQRels(db, e, corpusName, f, numResults, 0, orderBy, desc).items
  {
    ListsExactlySelected(JoinQRels(db), QRelSelector(e, corpusName, f), QRelRanker(e, f, orderBy, desc), numResults);
  }

  /** The threshold condition of get_qrels is the relevance rule of the whole model. */
  lemma QRelThresholdIsRelevance(db: DB, j: QRelJoin)
    requires j in JoinQRels(db)
    ensures j.qrel.relevance >= j.dataset.minRelevance <==> IsRelevant(db, j.qrel)
  {
  }

  /**
   * A listed judgment names its document's corpus: under the same-corpus
   * invariant the corpus reached through the dataset is the document's.
   */
  lemma QRelCorpusIsDocumentCorpus(db: DB, j: QRelJoin)
    requires WellFormed(db) && j in JoinQRels(db)
    ensures CorpusNameOf(db, j.document.corpusPkey) == Some(QRelItemOf(j).corpusName)
  {
    assert LinksSameCorpus(db, j.qrel);
    var q, ds, d :| q in db.queries && ds in db.datasets && d in db.documents &&
      q.pkey == j.qrel.queryPkey && d.pkey == j.qrel.documentPkey && ds.pkey == q.datasetPkey && ds.corpusPkey == d.corpusPkey;
    QueryOfPkey(db, q);
    DocumentOfPkey(db, d);
    DatasetOfPkey(db, ds);
  }

  /** The judgment key is unique, so the ORDER BY list of get_qrels is a unique key. */
  lemma QRelKeysDistinct(db: DB, e: Engine, corpusName: string, f: QRelFilter, orderBy: Option<QRelOrder>, desc: bool)
    requires DistinctBy(db.qrels, QRelKey)
    ensures DistinctKeys(RankedQRels(db, e, corpusName, f, orderBy, desc))
  {
    CollectKeepsDistinct(db.qrels, (x: QRel) => JoinQRel(db, x), QRelKey, JoinedQRelKey);
    FilterKeepsDistinct(JoinQRels(db), QRelSelector(e, corpusName, f), JoinedQRelKey);
    RankByUnique(SelectedQRels(db, e, corpusName, f), JoinedQRelKey,
                 QRelRanker(e, f, orderBy, desc));
  }

  /** The order of get_qrels is total: any sorted arrangement of the judgments gives the same page. */
  lemma QRelsPageDetermined(db: DB, e: Engine, corpusName: string, f: QRelFilter, numResults: nat, offset: nat,
                            orderBy: Option<QRelOrder>, desc: bool, arranged: seq<Ranked<QRelItem>>)
    requires DistinctBy(db.qrels, QRelKey)
    requires Sorted(arranged)
    requires multiset(arranged) == multiset(RankedQRels(db, e, corpusName, f, orderBy, desc))
    ensures GetQRels(db, e, corpusName, f, numResults, offset, orderBy, desc).items == Rows(Page(arranged, offset, numResults))
  {
    QRelKeysDistinct(db, e, corpusName, f, orderBy, desc);
    PageIsDetermined(RankedQRels(db, e, corpusName, f, orderBy, desc), arranged, offset, numResults);
  }

  /** Without `order_by` the direction flag is ignored: the key is (query_pkey, document_pkey) ascending. */
  lemma QRelsDefaultOrderIgnoresDirection(db: DB, e: Engine, corpusName: string, f: QRelFilter, numResults: nat, offset: nat)
    ensures GetQRels(db, e, corpusName, f, numResults, offset, None, true)
         == GetQRels(db, e, corpusName, f, numResults, offset, None, false)
  {
    var s := SelectedQRels(db, e, corpusName, f);
    var up := RankedQRels(db, e, corpusName, f, None, false);
    var down := RankedQRels(db, e, corpusName, f, None, true);
    assert forall i | 0 <= i < |s| :: up[i] == down[i];
    assert up == down;
  }
}

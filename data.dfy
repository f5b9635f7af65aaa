/**
 * The data controller: creating corpora and datasets, batch inserts of
 * queries, documents and relevance judgments, and the two removals, on a
 * store object whose fields are the tables.
 *
 * Every handler runs inside one transaction that is rolled back on error,
 * so a failing call leaves the store exactly as it was. The store keeps one
 * auto-increment counter per table with a surrogate key.
 */
module Data {
  import opened Wrappers
  import opened Relational
  import opened Schema
  import opened Mutations

  /** The in-memory store: one field per table plus the surrogate-key counters. */
  class Store {
    var corpora: seq<Corpus>
    var datasets: seq<Dataset>
    var queries: seq<Query>
    var documents: seq<Document>
    var qrels: seq<QRel>
    var nextCorpus: int
    var nextDataset: int
    var nextQuery: int
    var nextDocument: int

    function Snapshot(): DB
      reads this
    {
      DB(corpora, datasets, queries, documents, qrels)
    }

    /** The schema's constraints hold and every counter is past the keys it handed out. */
    ghost predicate Valid()
      reads this
    {
      && WellFormed(Snapshot())
      && Below(corpora, CorpusPkey, nextCorpus)
      && Below(datasets, DatasetPkey, nextDataset)
      && Below(queries, QueryPkey, nextQuery)
      && Below(documents, DocumentPkey, nextDocument)
    }

    constructor ()
      ensures Valid() && Snapshot() == EmptyDB()
    {
      corpora, datasets, queries, documents, qrels := [], [], [], [], [];
      nextCorpus, nextDataset, nextQuery, nextDocument := 1, 1, 1, 1;
    }

    /** create_corpus. */
    method CreateCorpus(name: string, language: string) returns (o: Outcome)
      requires Valid()
      modifies this
      ensures Valid()
      ensures language != SupportedLanguage ==> o == Fail(Malformed)
      ensures language == SupportedLanguage ==>
        (o == Ok <==> forall c | c in old(corpora) :: c.name != name)
      ensures o.Fail? ==> o.error in {Malformed, Conflict} && unchanged(this)
      ensures language == SupportedLanguage && o.Fail? ==> o.error == Conflict
      ensures o.Ok? ==> Snapshot() == old(Snapshot()).(corpora := old(corpora) + [Corpus(old(nextCorpus), name, language)])
      ensures o.Ok? ==> (nextCorpus == old(nextCorpus) + 1 && nextDataset == old(nextDataset)
        && nextQuery == old(nextQuery) && nextDocument == old(nextDocument))
    {
      if language != SupportedLanguage {
        return Fail(Malformed);
      }
      if exists c | c in corpora :: c.name == name {
        return Fail(Conflict);
      }
      var c := Corpus(nextCorpus, name, language);
      AddCorpusKeepsWellFormed(Snapshot(), c, nextCorpus);
      InsertCorpora([c]);
      nextCorpus := nextCorpus + 1;
      o := Ok;
    }

    /** create_dataset: the parent corpus is resolved by name. */
    method CreateDataset(name: string, corpusName: string, minRelevance: int) returns (o: Outcome)
      requires Valid()
      modifies this
      ensures Valid()
      ensures o == Ok <==> (CorpusNamed(old(Snapshot()), corpusName).Some? &&
        forall d | d in old(datasets) :: DatasetKey(d) != (name, CorpusNamed(old(Snapshot()), corpusName).value.pkey))
      ensures o.Fail? ==> o.error == Conflict && unchanged(this)
      ensures o.Ok? ==> Snapshot() == old(Snapshot()).(datasets := old(datasets) +
        [Dataset(old(nextDataset), name, CorpusNamed(old(Snapshot()), corpusName).value.pkey, minRelevance)])
      ensures o.Ok? ==> (nextDataset == old(nextDataset) + 1 && nextCorpus == old(nextCorpus)
        && nextQuery == old(nextQuery) && nextDocument == old(nextDocument))
    {
      var corpus := CorpusNamed(Snapshot(), corpusName);
      if corpus.None? {
        return Fail(Conflict);
      }
      var key := (name, corpus.value.pkey);
      if exists d | d in datasets :: DatasetKey(d) == key {
        return Fail(Conflict);
      }
      var d := Dataset(nextDataset, name, corpus.value.pkey, minRelevance);
      AddDatasetKeepsWellFormed(Snapshot(), d, nextDataset);
      InsertDatasets([d]);
      nextDataset := nextDataset + 1;
      o := Ok;
    }

    /**
     * add_queries: the dataset is resolved by (corpus name, dataset name)
     * and the batch goes in whole or not at all.
     */
    method AddQueries(datasetName: string, corpusName: string, data: seq<QueryInfo>) returns (o: Outcome)
      requires Valid()
      modifies this
      ensures Valid()
      ensures o == Ok <==> (data != [] && DatasetNamed(old(Snapshot()), corpusName, datasetName).Some? &&
        DistinctBy(old(queries) + NewQueries(data, DatasetNamed(old(Snapshot()), corpusName, datasetName).value.pkey, old(nextQuery)), QueryKey))
      ensures o.Fail? ==> o.error == Conflict && unchanged(this)
      ensures o.Ok? ==> Snapshot() == old(Snapshot()).(queries := old(queries) +
        NewQueries(data, DatasetNamed(old(Snapshot()), corpusName, datasetName).value.pkey, old(nextQuery)))
      ensures o.Ok? ==> (nextQuery == old(nextQuery) + |data| && nextCorpus == old(nextCorpus)
        && nextDataset == old(nextDataset) && nextDocument == old(nextDocument))
    {
      var ds := DatasetNamed(Snapshot(), corpusName, datasetName);
      if data == [] || ds.None? {
        return Fail(Conflict);
      }
      var rows := NewQueries(data, ds.value.pkey, nextQuery);
      var fits := CheckUnique(queries, rows, QueryKey);
      if !fits {
        return Fail(Conflict);
      }
      AddQueriesKeepsWellFormed(Snapshot(), rows, nextQuery);
      InsertQueries(rows);
      nextQuery := nextQuery + |data|;
      o := Ok;
    }

    /** add_documents: the corpus is resolved by name; no uniqueness applies to document ids. */
    method AddDocuments(corpusName: string, data: seq<DocumentInfo>) returns (o: Outcome)
      requires Valid()
      modifies this
      ensures Valid()
      ensures o == Ok <==> data != [] && CorpusNamed(old(Snapshot()), corpusName).Some?
      ensures o.Fail? ==> o.error == Conflict && unchanged(this)
      ensures o.Ok? ==> Snapshot() == old(Snapshot()).(documents := old(documents) +
        NewDocuments(data, CorpusNamed(old(Snapshot()), corpusName).value.pkey, old(nextDocument)))
      ensures o.Ok? ==> (nextDocument == old(nextDocument) + |data| && nextCorpus == old(nextCorpus)
        && nextDataset == old(nextDataset) && nextQuery == old(nextQuery))
    {
      var corpus := CorpusNamed(Snapshot(), corpusName);
      if data == [] || corpus.None? {
        return Fail(Conflict);
      }
      var rows := NewDocuments(data, corpus.value.pkey, nextDocument);
      AddDocumentsKeepsWellFormed(Snapshot(), rows, nextDocument);
      InsertDocuments(rows);
      nextDocument := nextDocument + |data|;
      o := Ok;
    }

    /**
     * add_qrels: query ids are resolved inside the named dataset, document
     * ids inside that dataset's own corpus. A judgment that does not
     * resolve, or repeats a (query, document) pair, rejects the batch.
     */
    method AddQRels(datasetName: string, corpusName: string, data: seq<QRelInfo>) returns (o: Outcome)
      requires Valid()
      requires DatasetNamed(Snapshot(), corpusName, datasetName).Some? ==>
        forall k | 0 <= k < |data| ::
          DocumentIdUnambiguous(Snapshot(), DatasetNamed(Snapshot(), corpusName, datasetName).value.corpusPkey, data[k].documentId)
      modifies this
      ensures Valid()
      ensures o == Ok <==> (data != [] && DatasetNamed(old(Snapshot()), corpusName, datasetName).Some? &&
        ResolveQRels(old(Snapshot()), DatasetNamed(old(Snapshot()), corpusName, datasetName).value, data).Some? &&
        DistinctBy(old(qrels) + ResolveQRels(old(Snapshot()), DatasetNamed(old(Snapshot()), corpusName, datasetName).value, data).value, QRelKey))
      ensures o.Fail? ==> o.error == Conflict && unchanged(this)
      ensures o.Ok? ==> Snapshot() == old(Snapshot()).(qrels := old(qrels) +
        ResolveQRels(old(Snapshot()), DatasetNamed(old(Snapshot()), corpusName, datasetName).value, data).value)
      ensures o.Ok? ==> (nextCorpus == old(nextCorpus) && nextDataset == old(nextDataset)
        && nextQuery == old(nextQuery) && nextDocument == old(nextDocument))
    {
      var rows := PlanQRels(Snapshot(), corpusName, datasetName, data);
      if rows.None? {
        return Fail(Conflict);
      }
      ghost var ds := DatasetNamed(Snapshot(), corpusName, datasetName).value;
      ResolvedQRelsLinkSameCorpus(Snapshot(), ds, data);
      AddQRelsKeepsWellFormed(Snapshot(), rows.value);
      InsertQRels(rows.value);
      o := Ok;
    }

    /**
     * remove_dataset: deletes the dataset's judgments, then its queries,
     * then the dataset. A dataset that does not resolve deletes nothing.
     */
    method RemoveDataset(corpusName: string, datasetName: string)
      requires Valid()
      modifies this
      ensures Valid()
      ensures DatasetNamed(old(Snapshot()), corpusName, datasetName).None? ==> unchanged(this)
      ensures DatasetNamed(old(Snapshot()), corpusName, datasetName).Some? ==>
        Snapshot() == RemoveDatasetState(old(Snapshot()), DatasetNamed(old(Snapshot()), corpusName, datasetName).value.pkey)
      ensures nextCorpus == old(nextCorpus) && nextDataset == old(nextDataset)
      ensures nextQuery == old(nextQuery) && nextDocument == old(nextDocument)
    {
      var ds := DatasetNamed(Snapshot(), corpusName, datasetName);
      if ds.Some? {
        var db, pk := Snapshot(), ds.value.pkey;
        RemoveDatasetKeepsWellFormed(db, pk, nextDataset, nextQuery);
        DeleteQRelsOfDataset(pk);
        DeleteQueriesOfDataset(pk);
        DeleteDatasetRow(pk);
      }
    }

    /**
     * remove_corpus: refused while the corpus still has a dataset;
     * otherwise deletes its documents, then the corpus.
     */
    method RemoveCorpus(corpusName: string) returns (o: Outcome)
      requires Valid()
      requires CorpusNamed(Snapshot(), corpusName).Some?
      modifies this
      ensures Valid()
      ensures o == Ok <==> forall d | d in old(datasets) :: d.corpusPkey != CorpusNamed(old(Snapshot()), corpusName).value.pkey
      ensures o.Fail? ==> o.error == Conflict && unchanged(this)
      ensures o.Ok? ==> Snapshot() == RemoveCorpusState(old(Snapshot()), CorpusNamed(old(Snapshot()), corpusName).value)
      ensures nextCorpus == old(nextCorpus) && nextDataset == old(nextDataset)
      ensures nextQuery == old(nextQuery) && nextDocument == old(nextDocument)
    {
      var c := CorpusNamed(Snapshot(), corpusName).value;
      if exists d | d in datasets :: d.corpusPkey == c.pkey {
        return Fail(Conflict);
      }
      var db := Snapshot();
      RemoveCorpusKeepsWellFormed(db, c, nextCorpus, nextDocument);
      DeleteDocumentsOfCorpus(c.pkey);
      DeleteCorpusNamed(c.name);
      o := Ok;
    }

    // The INSERT statements of the five handlers that add rows, one table each.

    /** INSERT INTO corpus: the rows go after the stored ones. */
    method InsertCorpora(rows: seq<Corpus>)
      modifies this
      ensures Snapshot() == old(Snapshot()).(corpora := old(corpora) + rows)
      ensures nextCorpus == old(nextCorpus) && nextDataset == old(nextDataset)
      ensures nextQuery == old(nextQuery) && nextDocument == old(nextDocument)
    {
      corpora := corpora + rows;
    }

    /** INSERT INTO dataset: the rows go after the stored ones. */
    method InsertDatasets(rows: seq<Dataset>)
      modifies this
      ensures Snapshot() == old(Snapshot()).(datasets := old(datasets) + rows)
      ensures nextCorpus == old(nextCorpus) && nextDataset == old(nextDataset)
      ensures nextQuery == old(nextQuery) && nextDocument == old(nextDocument)
    {
      datasets := datasets + rows;
    }

    /** INSERT INTO query: the rows go after the stored ones. */
    method InsertQueries(rows: seq<Query>)
      modifies this
      ensures Snapshot() == old(Snapshot()).(queries := old(queries) + rows)
      ensures nextCorpus == old(nextCorpus) && nextDataset == old(nextDataset)
      ensures nextQuery == old(nextQuery) && nextDocument == old(nextDocument)
    {
      queries := queries + rows;
    }

    /** INSERT INTO document: the rows go after the stored ones. */
    method InsertDocuments(rows: seq<Document>)
      modifies this
      ensures Snapshot() == old(Snapshot()).(documents := old(documents) + rows)
      ensures nextCorpus == old(nextCorpus) && nextDataset == old(nextDataset)
      ensures nextQuery == old(nextQuery) && nextDocument == old(nextDocument)
    {
      documents := documents + rows;
    }

    /** INSERT INTO qrel: the rows go after the stored ones. */
    method InsertQRels(rows: seq<QRel>)
      modifies this
      ensures Snapshot() == old(Snapshot()).(qrels := old(qrels) + rows)
      ensures nextCorpus == old(nextCorpus) && nextDataset == old(nextDataset)
      ensures nextQuery == old(nextQuery) && nextDocument == old(nextDocument)
    {
      qrels := qrels + rows;
    }

    // The DELETE statements the two removals issue, one table each.

    /** DELETE FROM qrel WHERE the judgment's query belongs to the dataset. */
    method DeleteQRelsOfDataset(pk: int)
      modifies this
      ensures Snapshot() == old(Snapshot()).(qrels := QRelsOutsideDataset(old(Snapshot()), pk))
      ensures nextCorpus == old(nextCorpus) && nextDataset == old(nextDataset)
      ensures nextQuery == old(nextQuery) && nextDocument == old(nextDocument)
    {
      qrels := QRelsOutsideDataset(Snapshot(), pk);
    }

    /** DELETE FROM query WHERE dataset_pkey = pk. */
    method DeleteQueriesOfDataset(pk: int)
      modifies this
      ensures Snapshot() == old(Snapshot()).(queries := QueriesOutsideDataset(old(Snapshot()), pk))
      ensures nextCorpus == old(nextCorpus) && nextDataset == old(nextDataset)
      ensures nextQuery == old(nextQuery) && nextDocument == old(nextDocument)
    {
      queries := QueriesOutsideDataset(Snapshot(), pk);
    }

    /** DELETE FROM dataset WHERE pkey = pk. */
    method DeleteDatasetRow(pk: int)
      modifies this
      ensures Snapshot() == old(Snapshot()).(datasets := DatasetsWithout(old(Snapshot()), pk))
      ensures nextCorpus == old(nextCorpus) && nextDataset == old(nextDataset)
      ensures nextQuery == old(nextQuery) && nextDocument == old(nextDocument)
    {
      datasets := DatasetsWithout(Snapshot(), pk);
    }

    /** DELETE FROM document WHERE corpus_pkey = pk. */
    method DeleteDocumentsOfCorpus(pk: int)
      modifies this
      ensures Snapshot() == old(Snapshot()).(documents := DocumentsOutsideCorpus(old(Snapshot()), pk))
      ensures nextCorpus == old(nextCorpus) && nextDataset == old(nextDataset)
      ensures nextQuery == old(nextQuery) && nextDocument == old(nextDocument)
    {
      documents := DocumentsOutsideCorpus(Snapshot(), pk);
    }

    /** DELETE FROM corpus WHERE name = name. */
    method DeleteCorpusNamed(name: string)
      modifies this
      ensures Snapshot() == old(Snapshot()).(corpora := CorporaWithout(old(Snapshot()), name))
      ensures nextCorpus == old(nextCorpus) && nextDataset == old(nextDataset)
      ensures nextQuery == old(nextQuery) && nextDocument == old(nextDocument)
    {
      corpora := CorporaWithout(Snapshot(), name);
    }
  }

  /**
   * The uniqueness check an insert makes: each new row against the stored
   * rows and the earlier rows of the batch, one row at a time.
   */
  method CheckUnique<T, K(==)>(stored: seq<T>, rows: seq<T>, key: T -> K) returns (ok: bool)
    requires DistinctBy(stored, key)
    ensures ok <==> DistinctBy(stored + rows, key)
  {
    var i := 0;
    while i < |rows|
      invariant 0 <= i <= |rows|
      invariant DistinctBy(stored + rows[..i], key)
    {
      var seen := stored + rows[..i];
      if exists j | 0 <= j < |seen| :: key(seen[j]) == key(rows[i]) {
        var j :| 0 <= j < |seen| && key(seen[j]) == key(rows[i]);
        assert seen[j] == (stored + rows)[j] && rows[i] == (stored + rows)[|stored| + i];
        return false;
      }
      DistinctSnoc(seen, rows[i], key);
      assert seen + [rows[i]] == stored + rows[..i + 1];
      i := i + 1;
    }
    assert rows[..i] == rows;
    return true;
  }

  /**
   * The rows an add_qrels batch would insert into `db`, or None when the
   * insert fails: an empty batch, a dataset that does not resolve, a
   * judgment that does not resolve, or a repeated (query, document) pair.
   */
  method PlanQRels(db: DB, corpusName: string, datasetName: string, data: seq<QRelInfo>) returns (r: Option<seq<QRel>>)
    requires DistinctBy(db.qrels, QRelKey)
    ensures r.Some? <==> (data != [] && DatasetNamed(db, corpusName, datasetName).Some? &&
      ResolveQRels(db, DatasetNamed(db, corpusName, datasetName).value, data).Some? &&
      DistinctBy(db.qrels + ResolveQRels(db, DatasetNamed(db, corpusName, datasetName).value, data).value, QRelKey))
    ensures r.Some? ==> r.value == ResolveQRels(db, DatasetNamed(db, corpusName, datasetName).value, data).value
  {
    var ds := DatasetNamed(db, corpusName, datasetName);
    if data == [] || ds.None? {
      return None;
    }
    var rows := ResolveQRels(db, ds.value, data);
    if rows.None? {
      return None;
    }
    var fits := CheckUnique(db.qrels, rows.value, QRelKey);
    if !fits {
      return None;
    }
    return rows;
  }
}

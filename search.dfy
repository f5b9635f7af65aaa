/**
 * Full-text search over documents and the input check of answer generation
 * (backend/app/controllers/search.py).
 */
module Search {
  import opened Wrappers
  import opened Relational
  import opened Ordering
  import opened Paging
  import opened Schema
  import opened SearchEscape
  import opened FullText

  /** The document lies in one of the corpora named; the names select corpus pkeys, the pkeys select documents. */
  predicate InCorpora(db: DB, corpusPkey: int, corpusNames: seq<string>)
  {
    exists c | c in db.corpora :: c.pkey == corpusPkey && c.name in corpusNames
  }

  /** search_documents' WHERE clause: the escaped query matches and, when corpora are named, the corpus is one of them. */
  predicate SearchSelected(db: DB, e: Engine, q: string, corpusNames: Option<seq<string>>, d: Document)
  {
    Matches(e, d.text, q) && (corpusNames.None? || InCorpora(db, d.corpusPkey, corpusNames.value))
  }

  function SearchScore(e: Engine, q: string, d: Document): int
  {
    Score(e, d.text, Some(q))
  }

  /** ORDER BY score DESC, id as the handler writes it. */
  function SearchKeyAsWritten(e: Engine, q: string, d: Document): Key
  {
    Key(-SearchScore(e, q, d), d.id, 0, 0)
  }

  /** ORDER BY score DESC, id, pkey: the same order completed by the unique key. */
  function SearchKey(e: Engine, q: string, d: Document): (k: Key)
    ensures k.tie1 == d.pkey
  {
    Key(-SearchScore(e, q, d), d.id, d.pkey, 0)
  }

  datatype Hit = Hit(id: string, corpusName: string, snippet: string, score: int)

  /** A hit with its corpus's name (an inner join on the document's corpus) and its snippet. */
  function HitOf(db: DB, e: Engine, q: string, d: Document): Option<Hit>
  {
    match CorpusWithPkey(db, d.corpusPkey)
    case None => None
    case Some(c) => Some(Hit(d.id, c.name, e.snippet(d.text, Escape(q)), SearchScore(e, q, d)))
  }

  function SelectedDocuments(db: DB, e: Engine, q: string, corpusNames: Option<seq<string>>): seq<Document>
  {
    Filter(db.documents, (d: Document) => SearchSelected(db, e, q, corpusNames, d))
  }

  function RankedDocuments(db: DB, e: Engine, q: string, corpusNames: Option<seq<string>>): seq<Ranked<Document>>
  {
    Map(SelectedDocuments(db, e, q, corpusNames), (d: Document) => Ranked(SearchKey(e, q, d), d))
  }

  /** The page of matching documents in search order, before their corpus names are joined in. */
  function PageDocuments(db: DB, e: Engine, q: string, corpusNames: Option<seq<string>>, numResults: nat, offset: nat): Paginated<Document>
  {
    Paginate(RankedDocuments(db, e, q, corpusNames), offset, numResults)
  }

  /**
   * One page of hits for the query and the number of all matching
   * documents, which does not depend on the page.
   */
  function SearchDocuments(db: DB, e: Engine, q: string, corpusNames: Option<seq<string>>, numResults: nat, offset: nat): (r: Paginated<Hit>)
    ensures r.totalNumItems == Count(db.documents, (d: Document) => SearchSelected(db, e, q, corpusNames, d))
    ensures r.offset == offset && |r.items| <= numResults
  {
    var page := PageDocuments(db, e, q, corpusNames, numResults, offset);
    Paginated(Collect(page.items, (d: Document) => HitOf(db, e, q, d)), offset, page.totalNumItems)
  }

  /**
   * Every hit is a stored document whose text matches the escaped query, lies
   * in a requested corpus (any, when none is requested), and names its own
   * document's corpus.
   */
  lemma HitsMatchTheEscapedQuery(db: DB, e: Engine, q: string, corpusNames: Option<seq<string>>, numResults: nat, offset: nat, h: Hit)
    requires h in SearchDocuments(db, e, q, corpusNames, numResults, offset).items
    ensures exists d | d in db.documents ::
              && e.matches(d.text, Escape(q))
              && (corpusNames.None? || InCorpora(db, d.corpusPkey, corpusNames.value))
              && h.id == d.id && CorpusNameOf(db, d.corpusPkey) == Some(h.corpusName)
              && h.score == SearchScore(e, q, d)
  {
    var page := PageDocuments(db, e, q, corpusNames, numResults, offset);
    var d :| d in page.items && HitOf(db, e, q, d) == Some(h);
    var selected := SelectedDocuments(db, e, q, corpusNames);
    var ranked := RankedDocuments(db, e, q, corpusNames);
    PageRowsAreRanked(ranked, offset, numResults);
    var y :| y in ranked && y.row == d;
    MapMembers(selected, (d: Document) => Ranked(SearchKey(e, q, d), d));
    var x :| x in selected && y == Ranked(SearchKey(e, q, x), x);
    assert x == d;
    assert d in db.documents && SearchSelected(db, e, q, corpusNames, d);
    var c := CorpusWithPkey(db, d.corpusPkey).value;
    assert h.id == d.id && h.corpusName == c.name && h.score == SearchScore(e, q, d);
  }

  /** Every stored document has its corpus, so joining in the corpus names drops no hit from the page. */
  lemma SearchKeepsEveryHit(db: DB, e: Engine, q: string, corpusNames: Option<seq<string>>, numResults: nat, offset: nat)
    requires DocumentsOk(db)
    ensures |SearchDocuments(db, e, q, corpusNames, numResults, offset).items|
         == |PageDocuments(db, e, q, corpusNames, numResults, offset).items|
    ensures forall i | 0 <= i < |PageDocuments(db, e, q, corpusNames, numResults, offset).items| ::
              Some(SearchDocuments(db, e, q, corpusNames, numResults, offset).items[i])
              == HitOf(db, e, q, PageDocuments(db, e, q, corpusNames, numResults, offset).items[i])
  {
    var ranked := RankedDocuments(db, e, q, corpusNames);
    var page := PageDocuments(db, e, q, corpusNames, numResults, offset);
    PageRowsAreRanked(ranked, offset, numResults);
    MapMembers(SelectedDocuments(db, e, q, corpusNames), (d: Document) => Ranked(SearchKey(e, q, d), d));
    forall d | d in page.items ensures HitOf(db, e, q, d).Some? {
      var y :| y in ranked && y.row == d;
      assert HasCorpus(db, d.corpusPkey);
    }
    CollectAll(page.items, (d: Document) => HitOf(db, e, q, d));
  }

  /** The documents of a page come by descending score, and those of equal score by ascending id. */
  lemma SearchOrderByScoreThenId(db: DB, e: Engine, q: string, corpusNames: Option<seq<string>>, numResults: nat, offset: nat)
    ensures forall i, j | 0 <= i < j < |PageDocuments(db, e, q, corpusNames, numResults, offset).items| ::
              var a := PageDocuments(db, e, q, corpusNames, numResults, offset).items[i];
              var b := PageDocuments(db, e, q, corpusNames, numResults, offset).items[j];
              SearchScore(e, q, a) >= SearchScore(e, q, b) &&
              (SearchScore(e, q, a) == SearchScore(e, q, b) ==> a.id == b.id || StrLess(a.id, b.id))
  {
    var ranked := RankedDocuments(db, e, q, corpusNames);
    MapMembers(SelectedDocuments(db, e, q, corpusNames), (d: Document) => Ranked(SearchKey(e, q, d), d));
    PageInKeyOrder(ranked, offset, numResults, (d: Document) => SearchKey(e, q, d));
  }

  /** The hits keep that order: descending score, and ascending id among equal scores. */
  lemma HitsInSearchOrder(db: DB, e: Engine, q: string, corpusNames: Option<seq<string>>, numResults: nat, offset: nat)
    requires DocumentsOk(db)
    ensures var hits := SearchDocuments(db, e, q, corpusNames, numResults, offset).items;
            forall i, j | 0 <= i < j < |hits| ::
              hits[i].score >= hits[j].score &&
              (hits[i].score == hits[j].score ==> hits[i].id == hits[j].id || StrLess(hits[i].id, hits[j].id))
  {
    SearchKeepsEveryHit(db, e, q, corpusNames, numResults, offset);
    SearchOrderByScoreThenId(db, e, q, corpusNames, numResults, offset);
  }

  /** With the pkey completing the key, search order is total: any sorted arrangement yields the same page. */
  lemma SearchPageDetermined(db: DB, e: Engine, q: string, corpusNames: Option<seq<string>>, numResults: nat, offset: nat,
                             arranged: seq<Ranked<Document>>)
    requires Increasing(db.documents, DocumentPkey)
    requires Sorted(arranged) && multiset(arranged) == multiset(RankedDocuments(db, e, q, corpusNames))
    ensures PageDocuments(db, e, q, corpusNames, numResults, offset).items == Rows(Page(arranged, offset, numResults))
  {
    FilterKeepsIncreasing(db.documents, (d: Document) => SearchSelected(db, e, q, corpusNames, d), DocumentPkey);
    RankByIncreasing(SelectedDocuments(db, e, q, corpusNames), DocumentPkey, (d: Document) => Ranked(SearchKey(e, q, d), d));
    PageIsDetermined(RankedDocuments(db, e, q, corpusNames), arranged, offset, numResults);
  }

  /** A store with two corpora, each holding one document with id "d" and text "t". */
  function TwinStore(): DB
  {
    DB([Corpus(1, "a", "English"), Corpus(2, "b", "English")], [], [],
       [Document(1, "d", 1, None, "t", 1), Document(2, "d", 2, None, "t", 1)], [])
  }

  /** The schema declares document ids unique nowhere, not even within one corpus, so the twin store is well formed. */
  lemma TwinStoreWellFormed()
    ensures WellFormed(TwinStore())
  {
    var db := TwinStore();
    assert CorpusName(db.corpora[0]) != CorpusName(db.corpora[1]);
    assert db.corpora[0] in db.corpora && db.corpora[1] in db.corpora;
    assert HasCorpus(db, 1) && HasCorpus(db, 2);
  }

  /** An engine under which everything matches with the same score. */
  function FlatEngine(): Engine
  {
    Engine((t: string, s: string) => true, (t: string, s: Option<string>) => 0, (t: string, s: string) => t)
  }

  /**
   * The key as written does not determine the order: in the twin store both
   * documents match with equal score and equal id, so two sorted
   * arrangements of the hits exist and their first pages differ.
   */
  lemma SearchOrderAsWrittenAmbiguous(q: string)
    ensures var d1 := TwinStore().documents[0];
            var d2 := TwinStore().documents[1];
            var a := Ranked(SearchKeyAsWritten(FlatEngine(), q, d1), d1);
            var b := Ranked(SearchKeyAsWritten(FlatEngine(), q, d2), d2);
            && WellFormed(TwinStore())
            && SelectedDocuments(TwinStore(), FlatEngine(), q, None) == [d1, d2]
            && Sorted([a, b]) && Sorted([b, a])
            && multiset([a, b]) == multiset([b, a])
            && Rows(Page([a, b], 0, 1)) != Rows(Page([b, a], 0, 1))
  {
    TwinStoreWellFormed();
    var db := TwinStore();
    var e := FlatEngine();
    var d1, d2 := db.documents[0], db.documents[1];
    var a := Ranked(SearchKeyAsWritten(e, q, d1), d1);
    var b := Ranked(SearchKeyAsWritten(e, q, d2), d2);
    assert a.key == b.key;
    assert db.documents[1..] == [d2];
    assert Filter(db.documents, (d: Document) => SearchSelected(db, e, q, None, d)) == [d1, d2];
    assert Rows(Page([a, b], 0, 1))[0] == d1;
    assert Rows(Page([b, a], 0, 1))[0] == d2;
  }

  // get_answer

  /**
   * The (corpus name, document id) pairs of an answer request: the two lists
   * must be non-empty and of equal length, and are paired position by position.
   */
  function PairDocuments(corpusNames: seq<string>, documentIds: seq<string>): (r: Result<seq<(string, string)>>)
    ensures r.Failure? <==> |corpusNames| != |documentIds| || |documentIds| == 0
    ensures r.Failure? ==> r.error == Malformed
    ensures r.Success? ==> |r.value| == |documentIds|
    ensures r.Success? ==> forall i | 0 <= i < |r.value| :: r.value[i] == (corpusNames[i], documentIds[i])
  {
    if |corpusNames| != |documentIds| || |documentIds| == 0 then Failure(Malformed)
    else Success(seq(|documentIds|, i requires 0 <= i < |documentIds| => (corpusNames[i], documentIds[i])))
  }

  function Firsts(pairs: seq<(string, string)>): seq<string> { Map(pairs, (p: (string, string)) => p.0) }
  function Seconds(pairs: seq<(string, string)>): seq<string> { Map(pairs, (p: (string, string)) => p.1) }

  /** Pairing loses nothing: the two lists are recovered from the pairs. */
  lemma PairDocumentsUnzips(corpusNames: seq<string>, documentIds: seq<string>)
    requires PairDocuments(corpusNames, documentIds).Success?
    ensures Firsts(PairDocuments(corpusNames, documentIds).value) == corpusNames
    ensures Seconds(PairDocuments(corpusNames, documentIds).value) == documentIds
  {
  }
}

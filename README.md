# ir-explorer: a verified model of the store, its controllers and the search page

ir-explorer is a browser for information-retrieval test collections. A collection is made of
corpora, which hold documents, and datasets, which hold queries. Relevance judgments (QRels)
link one query to one document. The backend keeps these five tables in PostgreSQL with the
ParadeDB full-text extension. It exposes handlers that create, fill and remove corpora and
datasets, list and page through the tables, and search documents. It also assembles prompts
for a language model. The frontend's search page checks its URL parameters and builds page links.

This project models that core in Dafny and proves properties of the model:

- `wrappers.dfy` — `Option`, the three error kinds (`Conflict`, `NotFound`, `Malformed`) and
  handler outcomes.
- `relational.dfy` — tables as sequences of rows, in insertion order:
  - WHERE is `Filter`, COUNT is `Count`, SELECT is `Map`;
  - an inner join along a foreign key is `Collect`;
  - UNIQUE constraints are `DistinctBy`;
  - auto-increment keys are `Increasing`.
- `ordering.dfy` — ORDER BY, written as:
  - a sort key `Key`: the chosen value with its direction folded in, an optional name, and two
    tie-breakers;
  - an insertion `Sort` proved sorted and a permutation;
  - LIMIT/OFFSET as `Page`.
- `paging.dfy` — the `Paginated` answer every listing returns, and the lemmas the listings share:
  - a page is a slice of the sorted rows;
  - the page is fully determined once the key is unique;
  - paging through visits every row once.
- `schema.dfy` — the five record kinds, with:
  - the store snapshot `DB` and its well-formedness predicate (keys, UNIQUE constraints, foreign
    keys, computed `text_length`, and the same-corpus link of every judgment);
  - lookups;
  - the relevance counts.
- `mutations.dfy` — what each data handler does to the tables, as functions on snapshots.
  Each is proved to keep the store well formed.
- `data.dfy` — the data controller as a class `Store`. Its fields are the tables and the
  auto-increment counters, and its methods `modify` them. A failing call leaves every field
  unchanged.
- `search_escape.dfy` — escaping of search strings for the full-text engine.
- `fulltext.dfy` — the full-text engine as an uninterpreted parameter `Engine`: match, score
  and snippet.
- `browse.dfy` — the browse controller as functions over a snapshot: listings with counts,
  single lookups, and paginated listings.
- `search.dfy` — document search and the input check of answer generation.
- `prompts.dfy` — the summary-prompt template check and substitution, and the
  retrieval-augmented answer prompt.
- `search_page.dfy` — the frontend `load` of the search page, as a method.

Scores from the engine are modelled as integers. The engine itself is a parameter of every read
operation, so every property proved about filtering, ordering and paging holds whatever the
engine answers.

## Model

| member | source | states |
|---|---|---|
| Schema.WellFormed | backend/app/db/schema.py:20-142 | definition: the schema's constraints: increasing keys, the UNIQUE columns of corpus, dataset, query and qrel, every foreign key resolvable, text_length equal to the length of the text, and each judgment linking a query and a document of one corpus |
| Schema.EmptyWellFormed | backend/app/db/schema.py:20-142 | the empty store meets every constraint of the schema |
| Schema.CorpusWithPkey | backend/app/db/schema.py:23 | looking up a corpus by pkey returns a stored corpus with that pkey, and returns none exactly when no corpus has it |
| Schema.CorpusNamed | backend/app/db/schema.py:25 | the corpus with a given name is a stored corpus of that name; none exactly when no corpus has the name |
| Schema.DatasetWithPkey | backend/app/db/schema.py:36-39 | a dataset found by pkey is stored and has that pkey; none iff no dataset has it |
| Schema.QueryWithPkey | backend/app/db/schema.py:51 | a query found by pkey is stored and has that pkey; none iff no query has it |
| Schema.DocumentWithPkey | backend/app/db/schema.py:90 | a document found by pkey is stored and has that pkey; none iff no document has it |
| Schema.DatasetNamed | backend/app/db/schema.py:33-45 | the dataset found by (corpus name, dataset name) is stored, has the name and lies in the named corpus; none iff no dataset does |
| Schema.QueryNamed | backend/app/db/schema.py:53-63 | the query found by (dataset pkey, id) is stored with that id and dataset; none iff no query matches |
| Schema.DocumentNamed | backend/app/db/schema.py:92-93 | a document found by (corpus pkey, id) is stored with that id and corpus; none iff no document matches |
| Schema.CorpusOfPkey | backend/app/db/schema.py:23 | in a well-formed store the pkey identifies a corpus: its lookup finds exactly that corpus |
| Schema.DatasetOfPkey | backend/app/db/schema.py:36 | in a well-formed store the lookup by a dataset's pkey finds exactly that dataset |
| Schema.QueryOfPkey | backend/app/db/schema.py:51 | in a well-formed store the lookup by a query's pkey finds exactly that query |
| Schema.DocumentOfPkey | backend/app/db/schema.py:90 | in a well-formed store the lookup by a document's pkey finds exactly that document |
| Schema.IsRelevant | backend/app/controllers/browse.py:192-194 | definition: a judgment is relevant when its relevance reaches the min_relevance of the dataset its query belongs to |
| Schema.NumRelevantDocuments | backend/app/controllers/browse.py:192-194 | definition: num_relevant_documents of a query, the filtered count of its relevant judgments |
| Schema.NumRelevantQueries | backend/app/controllers/browse.py:305-307 | definition: num_relevant_queries of a document, the filtered count of its relevant judgments |
| Schema.NumRelevantDocumentsUsesOwnThreshold | backend/app/controllers/browse.py:192-194 | num_relevant_documents of a query counts its judgments whose relevance reaches the min_relevance of the query's own dataset |
| Schema.SameThreshold | backend/app/controllers/browse.py:252-254 | the same count, given the query and dataset found by their keys rather than by membership |
| Schema.NoRelevantJudgmentsGiveZero | backend/app/controllers/browse.py:197-200 | a query with no judgment at or above its threshold reports 0 |
| Schema.SumOverDatasetsCounts | backend/app/controllers/browse.py:305-312 | for datasets with distinct pkeys, counting a document's judgments relevant under any of them equals the sum of the per-dataset counts |
| Schema.NumRelevantQueriesSumsOverDatasets | backend/app/controllers/browse.py:376-378 | a document's num_relevant_queries is the sum over all datasets of its judgments relevant under that dataset's own threshold |
| Mutations.NewQueries | backend/app/controllers/data.py:129-141 | an add_queries batch becomes rows with consecutive fresh pkeys from the counter on, all in the resolved dataset, carrying each input's id, text and description |
| Mutations.NewDocuments | backend/app/controllers/data.py:165-177 | an add_documents batch becomes rows with consecutive fresh pkeys, all in the resolved corpus, carrying each input's fields, with text_length equal to the length of the text |
| Mutations.ResolveQRel | backend/app/controllers/data.py:212-231 | a judgment resolves iff its query id is found inside the dataset and its document id inside that dataset's corpus; the resolved row keeps the relevance |
| Mutations.ResolveQRels | backend/app/controllers/data.py:212-240 | a batch resolves iff every judgment resolves, and then position by position |
| Mutations.ResolvedQRelLinksSameCorpus | backend/app/controllers/data.py:214-226 | a resolved judgment links a query and a document under one corpus |
| Mutations.ResolvedQRelsLinkSameCorpus | backend/app/controllers/data.py:214-226 | every judgment of a resolved batch links a query and a document under one corpus |
| Mutations.AppendKeepsKeys | backend/app/db/schema.py:23 | rows numbered from a fresh counter keep the pkey column increasing and the counter past it |
| Mutations.FilterKeepsKeys | backend/app/db/schema.py:23 | deleting rows keeps the pkey column increasing and the counter past it |
| Mutations.AddCorpusState | backend/app/controllers/data.py:59-62 | definition: create_corpus's INSERT appends one corpus row |
| Mutations.AddDatasetState | backend/app/controllers/data.py:80-91 | definition: create_dataset's INSERT appends one dataset row |
| Mutations.AddQueriesState | backend/app/controllers/data.py:129-142 | definition: add_queries' INSERT appends the batch's query rows |
| Mutations.AddDocumentsState | backend/app/controllers/data.py:165-178 | definition: add_documents' INSERT appends the batch's document rows |
| Mutations.AddQRelsState | backend/app/controllers/data.py:212-234 | definition: add_qrels' INSERT appends the batch's judgment rows |
| Mutations.CorporaGrowKeepRefs | backend/app/db/schema.py:39 | adding a corpus keeps every corpus reference resolvable |
| Mutations.LinksSurvive | backend/app/db/schema.py:131-136 | a judgment's links survive when no row they point to is removed |
| Mutations.AddCorpusKeepsWellFormed | backend/app/controllers/data.py:59-68 | adding a corpus with a fresh pkey and a new name keeps the store well formed |
| Mutations.AddDatasetKeepsWellFormed | backend/app/controllers/data.py:80-101 | adding a dataset with a fresh pkey, an existing corpus and a new (name, corpus) keeps the store well formed |
| Mutations.AddQueriesKeepsWellFormed | backend/app/controllers/data.py:129-148 | appending fresh queries in existing datasets with unique (id, dataset) keeps the store well formed |
| Mutations.AddDocumentsKeepsWellFormed | backend/app/controllers/data.py:165-184 | appending fresh documents with an existing corpus and the computed length keeps the store well formed |
| Mutations.AddQRelsKeepsWellFormed | backend/app/controllers/data.py:212-240 | appending same-corpus judgments with a unique (query, document) keeps the store well formed |
| Mutations.RemoveDatasetState | backend/app/controllers/data.py:252-265 | definition: the store after the judgment, query and dataset deletes, each applied to the result of the one before |
| Mutations.RemoveDatasetDeletesExactly | backend/app/controllers/data.py:252-265 | remove_dataset deletes exactly the judgments of the dataset's queries, those queries and the dataset; corpora and documents are untouched |
| Mutations.RemoveDatasetKeepsKeys | backend/app/controllers/data.py:252-265 | the three deletes keep keys assigned and UNIQUE constraints |
| Mutations.RemoveDatasetKeepsRefs | backend/app/controllers/data.py:252-265 | the three deletes keep every foreign key of datasets, queries and documents resolvable |
| Mutations.RemoveDatasetKeepsLinks | backend/app/controllers/data.py:252-265 | the judgments that remain still link existing same-corpus rows, because the judgments of the dataset go first |
| Mutations.RemoveDatasetKeepsWellFormed | backend/app/controllers/data.py:252-265 | remove_dataset keeps the store well formed |
| Mutations.RemoveCorpusState | backend/app/controllers/data.py:293-298 | definition: the store after the document delete and then the corpus delete |
| Mutations.RemoveCorpusDeletesExactly | backend/app/controllers/data.py:293-298 | remove_corpus deletes exactly the corpus's documents and the corpus; datasets, queries and judgments are untouched |
| Mutations.NoJudgmentOnDatasetlessCorpus | backend/app/controllers/data.py:286-304 | once a corpus has no dataset, no judgment refers to its documents, so the delete cannot violate a judgment's foreign key |
| Mutations.RemoveCorpusKeepsKeys | backend/app/controllers/data.py:293-298 | the two deletes keep keys assigned and corpus names unique |
| Mutations.RemoveCorpusKeepsRefs | backend/app/controllers/data.py:293-298 | the two deletes keep every foreign key resolvable when the corpus has no dataset |
| Mutations.RemoveCorpusKeepsLinks | backend/app/controllers/data.py:293-298 | the judgments still link existing same-corpus rows |
| Mutations.RemoveCorpusKeepsWellFormed | backend/app/controllers/data.py:285-304 | remove_corpus on a corpus without datasets keeps the store well formed |
| Data.Store.constructor | backend/app/db/schema.py:20-142 | a new store is empty and valid |
| Data.Store.CreateCorpus | backend/app/controllers/data.py:41-68 | a language other than English gives Malformed; otherwise Ok iff the name is new, and an existing name gives Conflict; failure leaves the store unchanged; success appends the corpus with the next pkey |
| Data.Store.CreateDataset | backend/app/controllers/data.py:70-101 | Ok iff the corpus name resolves and (name, corpus) is new, else Conflict with nothing changed; success appends the dataset with the next pkey |
| Data.Store.AddQueries | backend/app/controllers/data.py:103-148 | Ok iff the batch is non-empty, the dataset resolves and every (id, dataset) of the enlarged table is unique; Conflict leaves the store unchanged; success appends exactly the new rows and advances the counter by the batch size |
| Data.Store.AddDocuments | backend/app/controllers/data.py:150-184 | Ok iff the batch is non-empty and the corpus resolves; Conflict leaves the store unchanged; success appends the new rows |
| Data.Store.AddQRels | backend/app/controllers/data.py:186-240 | Ok iff the batch is non-empty, the dataset resolves, every judgment resolves and no (query, document) pair repeats; Conflict leaves the store unchanged; success appends the resolved rows |
| Data.Store.RemoveDataset | backend/app/controllers/data.py:242-265 | an unresolved dataset changes nothing; otherwise the store becomes the state after the three deletes; validity is kept |
| Data.Store.RemoveCorpus | backend/app/controllers/data.py:267-304 | Ok iff no dataset belongs to the corpus; Conflict leaves the store unchanged; success is the state after deleting the corpus's documents and then the corpus |
| Data.Store.InsertCorpora | backend/app/controllers/data.py:59-62 | the corpus table gains the rows at its end; every other table and every counter is unchanged |
| Data.Store.InsertDatasets | backend/app/controllers/data.py:80-91 | the dataset table gains the rows at its end; nothing else changes |
| Data.Store.InsertQueries | backend/app/controllers/data.py:129-142 | the query table gains the rows at its end; nothing else changes |
| Data.Store.InsertDocuments | backend/app/controllers/data.py:165-178 | the document table gains the rows at its end; nothing else changes |
| Data.Store.InsertQRels | backend/app/controllers/data.py:212-234 | the judgment table gains the rows at its end; nothing else changes |
| Data.Store.DeleteQRelsOfDataset | backend/app/controllers/data.py:257-263 | the first delete of remove_dataset: only the judgment table changes, losing the judgments of the dataset's queries (Mutations.RemoveDatasetDeletesExactly) |
| Data.Store.DeleteQueriesOfDataset | backend/app/controllers/data.py:260-264 | the second delete: only the query table changes, losing the dataset's queries |
| Data.Store.DeleteDatasetRow | backend/app/controllers/data.py:261-265 | the third delete: only the dataset table changes, losing the dataset |
| Data.Store.DeleteDocumentsOfCorpus | backend/app/controllers/data.py:293-297 | the first delete of remove_corpus: only the document table changes, losing the corpus's documents |
| Data.Store.DeleteCorpusNamed | backend/app/controllers/data.py:294-298 | the second delete: only the corpus table changes, losing the corpus of that name |
| Data.CheckUnique | backend/app/controllers/data.py:141-148 | the row-by-row uniqueness check answers true iff the stored rows plus the batch are unique |
| Data.PlanQRels | backend/app/controllers/data.py:212-240 | the judgments to insert exist iff the batch is non-empty, the dataset and every judgment resolve and the result is unique, and are the resolved batch |
| Relational.Filter | backend/app/controllers/browse.py:155-161 | the rows kept are rows of the table that satisfy the condition, and every such row is kept |
| Relational.Collect | backend/app/controllers/browse.py:197-200 | an inner join keeps only rows whose partner exists, each joined row comes from a table row |
| Relational.CollectAll | backend/app/controllers/browse.py:197-200 | when every row has its partner the join keeps all rows, in order |
| Relational.Map | backend/app/controllers/browse.py:216-230 | a projection has one result per row, in order |
| Relational.MapMembers | backend/app/controllers/browse.py:216-230 | every projected row comes from a table row and every table row is projected |
| Ordering.StrLess | backend/app/controllers/search.py:108 | definition: the string order of `ORDER BY id`, taken as comparison by code point |
| Ordering.Directed | backend/app/controllers/browse.py:163 | definition: `asc` keeps a sort value and `desc` negates it |
| Ordering.Sort | backend/app/controllers/browse.py:209 | ORDER BY returns the rows sorted by the key and as a permutation of the input |
| Ordering.SortedUnique | backend/app/controllers/browse.py:163-177 | with a unique key two sorted arrangements of the same rows are identical |
| Ordering.Page | backend/app/controllers/browse.py:210-211 | LIMIT/OFFSET returns at most the limit, exactly min(limit, rows after the offset), each the row at offset + i |
| Paging.Paginate | backend/app/controllers/browse.py:179-230 | the total equals the number of matching rows whatever the limit and offset; the items are the slice at the offset of the sorted rows |
| Paging.PageIsDetermined | backend/app/controllers/browse.py:163-177 | with a unique key, any sorted arrangement of the rows gives the same page |
| Paging.PageRowsAreRanked | backend/app/controllers/browse.py:209-211 | every item on a page comes from a matching row |
| Paging.PageInKeyOrder | backend/app/controllers/browse.py:163-177 | items on a page stand in key order |
| Paging.PageOfEverything | backend/app/controllers/browse.py:209-211 | a page from the start as large as the listing holds exactly the matching rows |
| Paging.ListsExactlySelected | backend/app/controllers/browse.py:483-500 | such a page holds exactly the rows of the selected table rows |
| Paging.SortKeepsSorted | backend/app/controllers/browse.py:176-177 | rows already in key order with distinct keys come back as they are |
| Paging.TieOrderSorted | backend/app/controllers/browse.py:176-177 | rows whose keys differ only by an increasing tie-breaker are in order |
| Paging.RankByIncreasing | backend/app/controllers/browse.py:163-177 | a key ending in the increasing pkey is unique |
| Paging.RankByUnique | backend/app/controllers/browse.py:512-544 | a key ending in a unique pair is unique |
| Paging.RowsOfPage | backend/app/controllers/browse.py:209-211 | slicing and then projecting equals projecting and then slicing |
| Paging.PagesCover | backend/app/controllers/browse.py:209-211 | reading page after page from an offset yields the rows from that offset, each once and in order |
| Paging.PagingVisitsEveryRow | backend/app/controllers/browse.py:179-214 | paging through a listing visits every matching row once and in order, and the pages add up to the total |
| Browse.NumDocumentsOf | backend/app/controllers/browse.py:61-68 | definition: the grouped document count of a corpus, with the `corpus_pkey @@@ '>0'` condition |
| Browse.NumDatasetsOf | backend/app/controllers/browse.py:70-73 | definition: the grouped dataset count of a corpus |
| Browse.GetCorpora | backend/app/controllers/browse.py:54-95 | one entry per corpus, in table order, with its name and language |
| Browse.CorpusDocumentCount | backend/app/controllers/browse.py:67-84 | the `corpus_pkey @@@ '>0'` condition excludes nothing: the document count is the plain count of the corpus's documents |
| Browse.CorpusDatasetCountZero | backend/app/controllers/browse.py:76-84 | a corpus reports 0 datasets exactly when none refers to it, and is listed all the same |
| Browse.CorpusDocumentCountZero | backend/app/controllers/browse.py:76-84 | a corpus reports 0 documents exactly when none belongs to it, and is listed all the same |
| Browse.NumQueriesOf | backend/app/controllers/browse.py:107-111 | definition: the grouped query count of a dataset |
| Browse.GetDatasets | backend/app/controllers/browse.py:97-129 | the entries are exactly the datasets of the named corpus with their query counts |
| Browse.UnknownCorpusHasNoDatasets | backend/app/controllers/browse.py:113-118 | an unknown corpus name lists no datasets |
| Browse.DatasetQueryCountZero | backend/app/controllers/browse.py:113-118 | a dataset reports 0 queries exactly when no query belongs to it |
| Browse.JoinQuery | backend/app/controllers/browse.py:197-200 | a query joined with its dataset and that dataset's corpus, along the foreign keys |
| Browse.JoinQueries | backend/app/controllers/browse.py:197-200 | each joined row is a stored query, its dataset and its corpus |
| Browse.JoinQueriesIncreasing | backend/app/controllers/browse.py:197-200 | the join keeps pkey order |
| Browse.JoinQueriesKeepsEveryQuery | backend/app/controllers/browse.py:197-200 | in a well-formed store the inner joins keep every query, in order |
| Browse.QuerySelected | backend/app/controllers/browse.py:155-161 | definition: the WHERE of get_queries: the corpus name, the dataset name when given, and the escaped match when given |
| Browse.JudgedRelevant | backend/app/controllers/browse.py:192-194 | definition: the filtered count of judgments at or above the dataset's min_relevance |
| Browse.QueryRankKey | backend/app/controllers/browse.py:163-177 | the ORDER BY key ends in the query pkey; with no order_by it is the pkey alone |
| Browse.SelectedQueriesIncreasing | backend/app/controllers/browse.py:155-161 | the selected queries stay in ascending pkey order |
| Browse.GetQueries | backend/app/controllers/browse.py:131-230 | the total is the number of selected queries, whatever the page; the page holds at most num_results items, exactly min(num_results, total - offset) |
| Browse.QueryKeysDistinct | backend/app/controllers/browse.py:163-177 | the ORDER BY list of get_queries is a unique key |
| Browse.QueriesPageDetermined | backend/app/controllers/browse.py:163-177 | any sorted arrangement of the selected queries gives the same page |
| Browse.QueriesDefaultOrder | backend/app/controllers/browse.py:176-177 | without order_by the page is the slice of the selected queries in table (ascending pkey) order, whatever order_by_desc says |
| Browse.QueryItemCountsRelevantDocuments | backend/app/controllers/browse.py:192-194 | each listed query reports its num_relevant_documents |
| Browse.GetQuery | backend/app/controllers/browse.py:232-288 | NotFound exactly when no query has the id in the named dataset and corpus; otherwise a matching query with its count |
| Browse.QueryIdentifiedAtMostOnce | backend/app/db/schema.py:25-63 | the unique constraints leave at most one query for get_query |
| Browse.GetQueryCountsRelevantDocuments | backend/app/controllers/browse.py:252-280 | when a query matches, get_query returns it with its num_relevant_documents |
| Browse.GetDocument | backend/app/controllers/browse.py:290-334 | NotFound exactly when no document has the id in the named corpus; otherwise that document with its num_relevant_queries |
| Browse.DocumentSelected | backend/app/controllers/browse.py:359-369 | definition: the WHERE of get_documents: the corpus name and the escaped match when given |
| Browse.DocumentRankKey | backend/app/controllers/browse.py:381-393 | the ORDER BY key ends in the document pkey; with no order_by it is the pkey alone |
| Browse.GetDocuments | backend/app/controllers/browse.py:336-444 | the total counts the corpus's matching documents whatever the page; the page size is bounded by num_results |
| Browse.UnknownCorpusHasNoDocuments | backend/app/controllers/browse.py:359-372 | an unknown corpus name lists nothing, with total 0 |
| Browse.DocumentKeysDistinct | backend/app/controllers/browse.py:381-393 | the ORDER BY list of get_documents is a unique key |
| Browse.DocumentsPageDetermined | backend/app/controllers/browse.py:381-405 | any sorted arrangement of the matching documents gives the same page |
| Browse.DocumentsDefaultOrder | backend/app/controllers/browse.py:392-393 | without order_by documents come in ascending pkey order, whatever order_by_desc says |
| Browse.JoinQRel | backend/app/controllers/browse.py:546-562 | a judgment joined with its query, document, dataset and corpus found by their keys |
| Browse.JoinQRels | backend/app/controllers/browse.py:546-562 | every joined row is the join of a stored judgment |
| Browse.JoinQRelsKeepsEveryQRel | backend/app/controllers/browse.py:546-562 | under the foreign keys the inner joins keep every judgment, in order |
| Browse.QRelSelected | backend/app/controllers/browse.py:483-500 | definition: the WHERE of get_qrels: threshold, corpus name and each given filter |
| Browse.QRelRankKey | backend/app/controllers/browse.py:512-544 | the ORDER BY key ends in (query_pkey, document_pkey) |
| Browse.GetQRels | backend/app/controllers/browse.py:446-587 | the total counts the selected judgments whatever the page; the page size is bounded by num_results |
| Browse.QRelsListedExactly | backend/app/controllers/browse.py:483-500 | a page holding the whole listing holds exactly the judgments that reach their threshold, lie in the corpus and pass every given filter |
| Browse.QRelThresholdIsRelevance | backend/app/controllers/browse.py:483-485 | the threshold condition is the relevance rule used by the counts |
| Browse.QRelCorpusIsDocumentCorpus | backend/app/controllers/browse.py:566-587 | a listed judgment's corpus name is the name of its document's corpus |
| Browse.QRelKeysDistinct | backend/app/controllers/browse.py:512-544 | the ORDER BY list of get_qrels is a unique key |
| Browse.QRelsPageDetermined | backend/app/controllers/browse.py:512-561 | any sorted arrangement of the selected judgments gives the same page |
| Browse.QRelsDefaultOrderIgnoresDirection | backend/app/controllers/browse.py:512-544 | without order_by the direction flag changes nothing |
| FullText.Matches | backend/app/controllers/search.py:66-68 | definition: `text @@@ escape_search_query(q)`: the engine's match against the escaped query |
| FullText.Score | backend/app/controllers/browse.py:171-175 | definition: `paradedb.score` of a row, given the escaped query when the table is searched |
| SearchEscape.IsSpecial | backend/app/db/util.py:3-8 | definition: the twelve characters of the translation table |
| SearchEscape.Translate | backend/app/db/util.py:3-8 | definition: a special character becomes a backslash and itself, any other is kept |
| SearchEscape.Escape | backend/app/db/util.py:11-19 | the output is as long as the input plus its special characters; every special character of the output follows a backslash |
| SearchEscape.EscapeAppend | backend/app/db/util.py:19 | escaping works character by character |
| SearchEscape.EscapePlain | backend/app/db/util.py:19 | a string without special characters is unchanged |
| SearchEscape.EscapeOneChar | backend/app/db/util.py:3-8 | each of the twelve characters becomes a backslash and itself; any other character, a backslash too, is copied |
| SearchEscape.UnescapeEscape | backend/app/db/util.py:3-19 | dropping the inserted backslashes recovers the input |
| SearchEscape.EscapeInjective | backend/app/db/util.py:3-19 | different strings stay different after escaping |
| Search.SearchSelected | backend/app/controllers/search.py:66-88 | definition: the WHERE of search_documents: the escaped match and, when corpus names are given, membership of the document's corpus |
| Search.HitOf | backend/app/controllers/search.py:114-130 | definition: a hit's fields from the document, its corpus and the engine's score and snippet |
| Search.SearchKeyAsWritten | backend/app/controllers/search.py:107-108 | definition: the order as written, score descending and then id, with no further tie-breaker |
| Search.SearchKey | backend/app/controllers/search.py:107-108 | the search order key, completed by the document pkey |
| Search.SearchDocuments | backend/app/controllers/search.py:48-130 | the total counts every matching document whatever the page; at most num_results hits |
| Search.HitsMatchTheEscapedQuery | backend/app/controllers/search.py:66-88 | every hit is a stored document matching the escaped query, in a requested corpus when corpora are named, with its id, its own corpus's name and its score |
| Search.SearchKeepsEveryHit | backend/app/controllers/search.py:113-130 | joining in the corpus names drops no document of the page: the hits are, position by position, the hits of the page's documents |
| Search.SearchOrderByScoreThenId | backend/app/controllers/search.py:107-108 | the documents of a page come by descending score, equal scores by ascending document id |
| Search.HitsInSearchOrder | backend/app/controllers/search.py:107-130 | the hits returned keep that order: descending score, equal scores by ascending id |
| Search.SearchPageDetermined | backend/app/controllers/search.py:107-110 | with the completed key any sorted arrangement of the hits gives the same page |
| Search.TwinStoreWellFormed | backend/app/db/schema.py:87-125 | two corpora may each hold a document with the same id |
| Search.SearchOrderAsWrittenAmbiguous | backend/app/controllers/search.py:107-110 | the key as written admits two sorted arrangements of a well-formed store whose first pages differ |
| Search.PairDocuments | backend/app/controllers/search.py:162-184 | Malformed exactly when the lists differ in length or are empty; otherwise the pairs position by position |
| Search.PairDocumentsUnzips | backend/app/controllers/search.py:182-184 | the pairs give back both lists |
| Prompts.Parse | backend/app/llm/util.py:21-25 | definition: `Formatter().parse` in the simplified grammar: `{{` and `}}` are braces, `{name}` a field, a stray brace a failure |
| Prompts.Render | backend/app/llm/util.py:29 | definition: `str.format` with the text and the title |
| Prompts.TitleText | backend/app/llm/util.py:29 | an absent title is written `None` |
| Prompts.TakeName | backend/app/llm/util.py:21-25 | a field name read up to its closing brace, with the rest of the template |
| Prompts.SummaryPrompt | backend/app/llm/util.py:8-29 | no template fails with NoTemplate; a template that does not parse or uses a field other than title and text fails with MalformedTemplate, and only then; otherwise a prompt |
| Prompts.ParseOne | backend/app/llm/util.py:21-25 | a written segment parses back to itself |
| Prompts.ParseUnparse | backend/app/llm/util.py:21-25 | parsing a template written from segments gives those segments back |
| Prompts.TakeNameOf | backend/app/llm/util.py:21-25 | a brace-free name and its closing brace are read back exactly |
| Prompts.RenderAppend | backend/app/llm/util.py:29 | substitution distributes over concatenation of templates |
| Prompts.Chars | backend/app/llm/util.py:21-25 | literal text parses to its characters |
| Prompts.PlainTemplate | backend/app/llm/util.py:20-29 | a template without braces parses to its characters and renders to itself |
| Prompts.SummaryPromptSubstitutes | backend/app/llm/util.py:29 | a template of known fields and text gives that text with `{text}` replaced by the text and `{title}` by the title |
| Prompts.RenderFields | backend/app/llm/util.py:29 | the two fields render to the text and to the title, `None` when absent |
| Prompts.UnknownFieldRejected | backend/app/llm/util.py:20-27 | a template using any other field name anywhere is rejected as malformed |
| Prompts.NatToString | backend/app/llm/util.py:56 | a document number is written as its decimal digits |
| Prompts.NatToStringRoundTrip | backend/app/llm/util.py:56 | the digits read back as the number written |
| Prompts.NatToStringInjective | backend/app/llm/util.py:56 | different document numbers are written differently |
| Prompts.Header | backend/app/llm/util.py:46-54 | definition: the question template filled with the question |
| Prompts.Block | backend/app/llm/util.py:39-44 | definition: the document template filled with the number, the title and the text |
| Prompts.RagPrompt | backend/app/llm/util.py:46-58 | definition: the header followed by one block per document, numbered from 1 |
| Prompts.GetRagPrompt | backend/app/llm/util.py:32-58 | the loop builds exactly the header followed by one block per document |
| Prompts.RagPromptStartsWithHeader | backend/app/llm/util.py:46-54 | the prompt starts with the header holding the question |
| Prompts.RagPromptNoDocuments | backend/app/llm/util.py:54-58 | with no documents the prompt is the header |
| Prompts.BlocksOfPrefix | backend/app/llm/util.py:55-56 | the blocks of the first documents are a prefix of all blocks |
| Prompts.BlocksSnoc | backend/app/llm/util.py:55-56 | one more document appends its block, numbered by its position plus one |
| Prompts.RagPromptBlock | backend/app/llm/util.py:39-56 | document i appears, in input order after the header and the earlier blocks, as block i + 1 with its title and text |
| SearchPage.IsWhitespace | frontend/src/routes/search/+page.server.ts:12 | definition: the white space and line terminators that ECMAScript's `trim` strips |
| SearchPage.Trim | frontend/src/routes/search/+page.server.ts:12 | definition: `trim()` as stripping the front and then the back |
| SearchPage.TrimStart | frontend/src/routes/search/+page.server.ts:12 | only leading white space is removed: the result is a suffix whose dropped front is all white space, and it starts with a non-white-space character or is empty |
| SearchPage.TrimEnd | frontend/src/routes/search/+page.server.ts:12 | only trailing white space is removed: the result is a prefix whose dropped back is all white space, and it ends in a non-white-space character or is empty |
| SearchPage.TrimStartEmpty | frontend/src/routes/search/+page.server.ts:12 | stripping the front leaves nothing iff every character is white space |
| SearchPage.TrimEndOfNonWhitespaceHead | frontend/src/routes/search/+page.server.ts:12 | stripping the back keeps a non-white-space first character |
| SearchPage.TrimmedEmpty | frontend/src/routes/search/+page.server.ts:12 | `q.trim().length == 0` iff q is white space only |
| SearchPage.CeilDiv | frontend/src/routes/search/+page.server.ts:40-42 | definition: `Math.ceil(total / perPage)` computed on integers |
| SearchPage.CeilDivIsLeast | frontend/src/routes/search/+page.server.ts:40-42 | the page count is the least number of pages that hold all results; it is 0 iff there are none |
| SearchPage.ValidPage | frontend/src/routes/search/+page.server.ts:24-31 | the page number is the parsed one when it is an integer in [1, max], else 1 |
| SearchPage.ValidLanguage | frontend/src/routes/search/+page.server.ts:16-22 | an available language is kept, any other becomes null |
| SearchPage.Load | frontend/src/routes/search/+page.server.ts:9-79 | a blank query redirects; otherwise the backend is asked with the validated language and page; no pages means no links and no redirect; a page past the last redirects; a previous-page link exists iff the page is above 1 and points one back; a next-page link exists iff it is below the last and points one on |
| SearchPage.PageHoldsResults | frontend/src/routes/search/+page.server.ts:40-70 | every page from 1 to the page count starts within the results |

## Left out

- HTTP, routing, dependency injection, caching and status codes. Only the error kinds Conflict,
  NotFound and Malformed remain.
- Transactions and sessions. A failing handler is modelled as leaving every field of the store
  unchanged, including the auto-increment counters. PostgreSQL sequences are not rolled back, so
  pkeys in the real store may have gaps; the model's pkeys do not.
- Concurrency and isolation.
- The full-text engine: `@@@` matching, `paradedb.score`, `paradedb.snippet`, fuzzy terms, the
  `IN [...]` set filter and the BM25 index settings. They are the fields of an `Engine` parameter.
  Scores are floating point in the source and integers here.
- The language-model calls: summary streaming, `get_answer`'s model check and generation, the
  client set-up, and the availability check before the pair check. `get_answer`'s document lookup
  by the (corpus, id) pairs is not modelled beyond the pairing.
- Data.Store.AddQueries, Data.Store.AddDocuments, Data.Store.AddQRels: an empty batch is modelled
  as Conflict. The source's insert of no rows fails on a NOT NULL column.
- Data.Store.RemoveCorpus: requires the corpus to exist. The source's `scalar_one` raises an
  uncaught error otherwise.
- Data.Store.AddQRels: requires each document id of the batch to name at most one document of the
  dataset's corpus. Document ids are not declared unique, and the source's scalar subquery fails
  on more than one row.
- Browse.GetDocument: requires the (corpus, id) lookup to be unambiguous, for the same reason
  (`.one()`).
- Browse.GetCorpora, Browse.GetDatasets: rows come in table order. The source issues no ORDER BY,
  so the database may return any order.
- Browse.GetQRels: the corpus name of an item is the corpus reached through the dataset.
  Browse.QRelCorpusIsDocumentCorpus proves it equal to the document's corpus in a well-formed
  store.
- Search.SearchDocuments: the outer SELECT that joins in the corpus names has no ORDER BY in the
  source. The model keeps the order of the ordered inner page. The model also uses the completed
  key Search.SearchKey (see Findings).
- Negative `num_results` or `offset`: both are natural numbers here.
- Default arguments are not modelled: callers pass every parameter. The source defaults are
  `min_relevance = 1` for a new dataset, `num_results = 10` and `offset = 0` for the listings and
  for search, and `order_by_desc = True` for the listings.
- Search.SearchOrderByScoreThenId, Search.SearchKey, Search.HitsInSearchOrder: ids of equal-score hits are compared here by
  code point (Ordering.StrLess). The source's `ORDER BY id` compares them by the database's
  collation, which can differ: under many locales "a" sorts before "B". The listings sort by
  numbers only, so this concerns search alone.
- Prompts.SummaryPrompt: simplified placeholder grammar. It does not split format specifications,
  conversions or attribute and index access off the field name. `{title:>10}` is therefore
  rejected here, where Python accepts it. A stray brace, which makes Python raise `ValueError`,
  is reported as MalformedTemplate. The template is a parameter instead of the environment
  variable.
- SearchPage.Load: JavaScript's `Number()` parsing of the page parameter is not modelled. The
  parameter arrives already parsed, as an integer or as nothing (not an integer). URLs are not
  built: a link is the page number it points to. The page size must be positive. The search
  result is reduced to its total, and backend calls are a function parameter.
- The frontend API handlers, fetch wrappers, Svelte state, `toHumanReadable`, the scripts and the
  test infrastructure.

## Findings

| source | as written | input that shows it | evidently intended | confidence | as-written member | corrected member |
|---|---|---|---|---|---|---|
| backend/app/controllers/search.py:107-110 | hits are ordered by `score DESC, id` before OFFSET/LIMIT; document ids are not unique, not even within one corpus | two documents with the same id and the same score, for instance in two corpora (the store of Search.TwinStore) or in one | a total order, so that consecutive pages neither repeat nor skip a hit, e.g. by adding the document pkey as the last key | medium, not executed | Search.SearchOrderAsWrittenAmbiguous | Search.SearchPageDetermined |

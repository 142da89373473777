# AgingGPT retrieval-and-answer core, modelled in Dafny

This project models the question-answering pipeline of `pkgs/aginggpt`:

- **Knowledge base.** A list of `{id, content, metadata}` dictionaries is loaded from stored
  JSON files. When none loads, the list is seeded with five built-in facts. One file is written
  per added document, and lookup by id is a linear scan.
- **Keyword search.** The term-overlap search appears three times in the source. Each copy
  scores a document by how many lower-cased, whitespace-split query terms occur in its
  lower-cased content, drops documents that score zero, and stably sorts by score, highest
  first. Two copies also cut the result at `top_k`.
- **Vector database.** It shares the knowledge base's list object. Its index is described by
  the texts it embedded, row by row. What the encoder and the faiss index return for a query is
  a parameter: neighbour positions, or an exception.
- **Retriever.** It tries the vector path and falls back to keyword search for that call only.
  It keeps its own mirror list of `Document`s.
- **Rule-based responder.** A priority chain of keyword families picks one of four templates.
  The templates render the context documents.
- **`AgingGPT`.** It swallows every exception of a query into a fixed apology.
- **Document loaders.** These are the paragraph chunker, the text-file loader, the JSON loader
  and the simulated PubMed loader.
- **Service wrapper.** It memoises one instance, rejects blank queries and turns outcomes into
  status dictionaries.

The modules follow the source files:

| Module | File | Covers |
|---|---|---|
| `Text` | `text.dfy` | The Python string built-ins the code relies on: `lower`, `in`, `split`, `strip`, `join` and decimal formatting. |
| `Documents` | `documents.dfy` | Dictionaries, the `Document` dataclass and the shared list (`DocList`). |
| `Ranking` | `ranking.dfy` | The keyword scoring loop and the stable descending sort, written once and proved against a tier-by-tier reference ranking. |
| `KnowledgeStore` | `knowledge_base.dfy` | The knowledge base. |
| `VectorStore` | `vector_db.dfy` | The vector database. |
| `Responder` | `llm.dfy` | The responder. |
| `Pipeline` | `model.dfy` | `Retriever`, `LLMProcessor` and `AgingGPT`. |
| `Loaders` | `data_loader.dfy` | The loaders. |
| `Service` | `service.dfy` | `service.py`. |

Objects whose fields the source updates in place are classes:

- `DocList`
- `KnowledgeBase`
- `VectorDatabase`
- `Retriever`
- `AgingGPT`
- `ServiceState`

The Python list that the knowledge base and the vector database share is one `DocList` object held by both. An append through one is therefore seen by the other.

Some outcomes the code cannot decide itself are parameters:

- what a file holds;
- whether a write raises;
- whether the optional libraries import;
- what the embedding index answers.

Two behaviours of the code are modelled as written:

1. **`Retriever.add_document` appends a new document to the shared list twice.** It appends
   once through the knowledge base (with an id, when its file write succeeds) and once through
   the vector database (without an `"id"` key). This has two consequences:
   - After two additions the index rows no longer line up with the list. `TwoAdditionsDrift`
     shows this.
   - A later `get_document_by_id` meets an id-less dictionary and raises `KeyError`. The
     lookup's result therefore has a third outcome, `MissingKey`, besides found and not found.
     `LookupAfterAdd` shows this.
2. **`AgingGPT.query` catches everything.** A failing responder reaches `process_query` as the
   apology text with status `"success"` (`PipelineFailureReportsSuccess`). The concrete failure
   is a context document whose metadata is not a mapping. `.get` on it raises inside a
   template.

Seeding is modelled as the code behaves. `_load_default_knowledge` runs before
`self.documents` exists. Each of its `add_document` calls therefore writes its file and then
fails on the append, and that failure is caught. The working set is the five built-in
documents exactly once.

## Model

| member | source | states |
|---|---|---|
| Text.SplitJoinRoundTrip | pkgs/aginggpt/data_loader.py:49 | Joining the pieces of `split(sep)` with `sep` gives back the text. |
| Text.StripSpec | pkgs/aginggpt/service.py:28 | `strip()` leaves nothing exactly when the text is all whitespace. Otherwise it leaves a slice of the text that starts and ends with non-whitespace. |
| Documents.RecordTexts | pkgs/aginggpt/vector_db.py:43 | The embedded texts are the documents' contents, position by position. |
| Documents.AsDocuments | pkgs/aginggpt/model.py:34-40 | The conversion to `Document`s keeps order, length, content and metadata. |
| Documents.DocList.Append | pkgs/aginggpt/knowledge_base.py:92 | `list.append` adds exactly the one dictionary at the end. |
| Ranking.QueryTermsShape | pkgs/aginggpt/vector_db.py:74-80 | Split query terms are non-empty, contain no whitespace and are already lower case, so the extra `term.lower()` changes nothing. |
| Ranking.Hits | pkgs/aginggpt/knowledge_base.py:112-117 | A score never exceeds the number of query terms. |
| Ranking.Matches | pkgs/aginggpt/knowledge_base.py:111-120 | The scoring loop keeps documents scoring above zero, in store order, each with its own score. |
| Ranking.MatchesComplete | pkgs/aginggpt/knowledge_base.py:111-120 | No document that scores above zero is dropped by the scoring loop. |
| Ranking.RankedMembers | pkgs/aginggpt/knowledge_base.py:119-123 | A position is ranked if and only if its document scores above zero. |
| Ranking.RankedOrder | pkgs/aginggpt/knowledge_base.py:122-123 | Ranked documents come in descending score with ties in store order, so none repeats and the ranking is never longer than the store. |
| Ranking.SortByScore | pkgs/aginggpt/knowledge_base.py:122 | The stable descending sort by score produces the reference tier-by-tier order. |
| Ranking.RankMatches | pkgs/aginggpt/knowledge_base.py:111-123 | The scoring loop followed by the sort yields exactly the reference ranking. |
| Ranking.Take | pkgs/aginggpt/model.py:85 | `results[:top_k]` is a prefix of the results, of length `min(top_k, len)` when `top_k` is not negative. |
| Ranking.Pick | pkgs/aginggpt/knowledge_base.py:123 | Mapping positions back gives the document at each ranked position, in ranked order. |
| KnowledgeStore.DefaultKnowledge | pkgs/aginggpt/knowledge_base.py:42-69 | There are five built-in documents. |
| KnowledgeStore.DefaultKnowledgeShape | pkgs/aginggpt/knowledge_base.py:43-69 | The built-in documents have distinct ids, and each has a source and a category. |
| KnowledgeStore.Readable | pkgs/aginggpt/knowledge_base.py:26-35 | The records that load are exactly the parsed stored files, and files that fail are skipped. |
| KnowledgeStore.WorkingSetSpec | pkgs/aginggpt/knowledge_base.py:26-40 | The store never starts empty. Stored records win over the built-in ones, and with none readable it holds exactly the five defaults. |
| KnowledgeStore.LoadDocuments | pkgs/aginggpt/knowledge_base.py:26-40 | The loading loop yields the working set. |
| KnowledgeStore.AssignedId | pkgs/aginggpt/knowledge_base.py:77-79 | A non-empty given id is kept. |
| KnowledgeStore.GeneratedIdsAdvance | pkgs/aginggpt/knowledge_base.py:77-79 | A generated id is `doc_` followed by the list size plus one, and the next generated id differs from it. |
| KnowledgeStore.FindById | pkgs/aginggpt/knowledge_base.py:101-105 | A found record is in the list and carries the id. |
| KnowledgeStore.FindByIdSpec | pkgs/aginggpt/knowledge_base.py:101-105 | The lookup finds the first record with the id. It raises `KeyError` if an id-less record comes first, and reports none if and only if every record has an id other than this one. |
| KnowledgeStore.KeywordMatchesSpec | pkgs/aginggpt/knowledge_base.py:107-123 | `search_documents` returns exactly the records containing a query term, best first, never longer than the store. |
| KnowledgeStore.KnowledgeBase.constructor | pkgs/aginggpt/knowledge_base.py:10-19 | A new store holds the working set of the stored files. |
| KnowledgeStore.KnowledgeBase.AddDocument | pkgs/aginggpt/knowledge_base.py:76-96 | A successful write appends exactly one record with the assigned id. A failed write changes nothing. |
| KnowledgeStore.KnowledgeBase.AllDocuments | pkgs/aginggpt/knowledge_base.py:98-99 | The live list object is handed out, not a copy. |
| KnowledgeStore.KnowledgeBase.GetDocumentById | pkgs/aginggpt/knowledge_base.py:101-105 | The scanning loop answers as `FindById`. |
| KnowledgeStore.KnowledgeBase.SearchDocuments | pkgs/aginggpt/knowledge_base.py:107-123 | The scoring-and-sorting method returns `KeywordMatches` of the list. |
| VectorStore.InRange | pkgs/aginggpt/vector_db.py:63-68 | Vector hits are never more than the returned positions. |
| VectorStore.InRangeAppend | pkgs/aginggpt/vector_db.py:64-66 | The filter keeps the order of the returned positions, repeats included: filtering a concatenation filters each part in turn. |
| VectorStore.InRangeSingle | pkgs/aginggpt/vector_db.py:65-66 | A single position gives its document when it is inside the list, and nothing otherwise (faiss's -1 padding included). |
| VectorStore.InRangeMembers | pkgs/aginggpt/vector_db.py:64-66 | A document is returned if and only if some returned position inside the list holds it. |
| VectorStore.InRangeAll | pkgs/aginggpt/vector_db.py:64-66 | With every position in range, nothing is dropped and the order is kept. |
| VectorStore.KeywordSearchSpec | pkgs/aginggpt/vector_db.py:72-86 | Results contain a term, are at most `top_k`, come best first, and pass over no better-scoring record. |
| VectorStore.SearchResult | pkgs/aginggpt/vector_db.py:57-70 | Without model and index the result is the keyword search. An encoding or search exception fails the call, and otherwise the hits are at most the neighbours. |
| VectorStore.AlignedHits | pkgs/aginggpt/vector_db.py:36-48 | With the index in step with the list, every hit is the document whose text the index row embedded. |
| VectorStore.AppendAligned | pkgs/aginggpt/vector_db.py:88-97 | Appending a document and its embedding together keeps the index in step. |
| VectorStore.AppendUnembedded | pkgs/aginggpt/vector_db.py:88-97 | Appending without embedding puts the index out of step. |
| VectorStore.VectorDatabase.constructor | pkgs/aginggpt/vector_db.py:21-55 | It shares the knowledge base's list. It is ready if and only if both libraries import and setup does not raise, and then every document is embedded. |
| VectorStore.VectorDatabase.Search | pkgs/aginggpt/vector_db.py:57-70 | The search method (with its filtering loop) gives `SearchResult`, and with a width that is not negative it never returns more than `top_k` documents. |
| VectorStore.VectorDatabase.KeywordSearchOf | pkgs/aginggpt/vector_db.py:72-86 | The `_keyword_search` loop gives the top-`k` prefix of the keyword ranking. |
| VectorStore.VectorDatabase.AddDocument | pkgs/aginggpt/vector_db.py:88-99 | The document is always appended. The index grows only when ready and encoding works, and the exception is reported otherwise. |
| Responder.KeyTermsOf | pkgs/aginggpt/llm.py:28 | Filtered words are exactly the input words that are neither stopwords nor shorter than three characters. |
| Responder.KeyTermsAppend | pkgs/aginggpt/llm.py:28 | The comprehension keeps word order and repeats: filtering a concatenation filters each part in turn. |
| Responder.KeyTermsSingle | pkgs/aginggpt/llm.py:28 | A single word is kept exactly when it is a key term. |
| Responder.ExtractKeyTermsSpec | pkgs/aginggpt/llm.py:22-28 | Key terms are word-character tokens of the lower-cased query, none a stopword, each at least three long, and every such token is kept. |
| Responder.ClassifyHallmarks | pkgs/aginggpt/llm.py:30-32 | The hallmarks template is picked if and only if the lower-cased query holds "hallmark" or "characteristic". |
| Responder.EntryListContains | pkgs/aginggpt/llm.py:79-81 | Every document's entry with its source line appears in the listing. |
| Responder.Entries | pkgs/aginggpt/llm.py:111-113 | Entry k is document k's content line followed by its source line. |
| Responder.EntryListConcat | pkgs/aginggpt/llm.py:111-113 | The listing is exactly the documents' entries in context order, with nothing between them. |
| Responder.ListEntries | pkgs/aginggpt/llm.py:111-113 | The entry loop builds the entries of all documents in order. |
| Responder.HallmarkDocs | pkgs/aginggpt/llm.py:44 | It keeps exactly the documents whose lower-cased content holds "hallmark". |
| Responder.HallmarkDocsAppend | pkgs/aginggpt/llm.py:44 | The hallmark filter keeps context order: filtering a concatenation filters each part in turn. |
| Responder.FirstNine | pkgs/aginggpt/llm.py:50 | `next(...)` finds a document holding "nine hallmarks", or none exists. |
| Responder.NumberedListContains | pkgs/aginggpt/llm.py:55-56 | Item k is listed as line k + 1. |
| Responder.NumberedLines | pkgs/aginggpt/llm.py:55-56 | Line k of the list is item k, stripped and bold, numbered k + 1. |
| Responder.NumberedListConcat | pkgs/aginggpt/llm.py:55-56 | The list is exactly lines 1..n in item order, with nothing between them. |
| Responder.HallmarksTemplate | pkgs/aginggpt/llm.py:43-68 | The template method answers as `HallmarksResponse`. |
| Responder.HallmarksResponseSpec | pkgs/aginggpt/llm.py:43-68 | With no hallmark document the fixed sentence is returned. A "nine hallmarks" document with a ':' yields one numbered line per item after the ':'. |
| Responder.HallmarksResponseShape | pkgs/aginggpt/llm.py:47-60 | A "nine hallmarks" document with a ':' is answered by the heading, then lines 1..n of its items in order, then the Source line and the closing text. |
| Responder.Selected | pkgs/aginggpt/llm.py:71-73 | The family filter keeps exactly the family's documents, and raises if and only if some metadata is not a mapping. |
| Responder.SelectedAppend | pkgs/aginggpt/llm.py:71-73 | The family filter keeps context order: on a concatenation it filters each part in turn, and raises when either part raises. |
| Responder.SelectedSingle | pkgs/aginggpt/llm.py:71-73 | One document is kept exactly when it is of the family, and raises when its metadata is not a mapping. |
| Responder.FamilyTemplate | pkgs/aginggpt/llm.py:70-105 | The interventions and mechanisms template methods answer as `FamilyResponse`. |
| Responder.FamilyResponseRaises | pkgs/aginggpt/llm.py:70-73 | A family template raises if and only if some context metadata is not a mapping. |
| Responder.FamilyResponseFallback | pkgs/aginggpt/llm.py:75-87 | With no document of the family in context, the family's fixed text is returned. |
| Responder.FamilyResponseLists | pkgs/aginggpt/llm.py:79-81 | Every document of the family is listed with its source line. |
| Responder.FamilyResponseShape | pkgs/aginggpt/llm.py:75-101 | With a document of the family in context, the answer is the heading, the entries of exactly the family's documents in context order, and the closing text. |
| Responder.DefaultTemplate | pkgs/aginggpt/llm.py:107-117 | The default template method answers as `DefaultResponse`. |
| Responder.DefaultResponseSpec | pkgs/aginggpt/llm.py:107-117 | The default answer quotes the query and lists every context document with its source. |
| Responder.DefaultResponseShape | pkgs/aginggpt/llm.py:107-117 | The default answer is the heading, the preamble quoting the query, the entry of every context document in context order, and the closing text. |
| Responder.Response | pkgs/aginggpt/llm.py:12-14 | An empty context gives the fixed "no information" message for every query. |
| Responder.GenerateResponse | pkgs/aginggpt/llm.py:12-20 | `generate_response` answers as `Response`. |
| Responder.ResponseTotal | pkgs/aginggpt/llm.py:12-41 | With mapping metadata only, some template always answers. |
| Responder.ResponseNonEmpty | pkgs/aginggpt/llm.py:12-117 | Every answer is a non-empty string. |
| Pipeline.BasicRetrievalSpec | pkgs/aginggpt/model.py:72-85 | The retriever's keyword search returns at most `top_k` documents, each holding a term, best first. |
| Pipeline.Retrieval | pkgs/aginggpt/model.py:56-85 | Without the vector database the basic search is used. |
| Pipeline.RetrievalSources | pkgs/aginggpt/model.py:56-85 | Retrieval only returns documents it was given, from the retriever's list or the shared list. |
| Pipeline.KeywordPathSpec | pkgs/aginggpt/model.py:56-85 | Off the vector path, or after a vector failure, at most `top_k` documents come back and each holds a term. |
| Pipeline.RetrievalBound | pkgs/aginggpt/model.py:56-85 | With faiss answering within its search width, `retrieve` returns at most `top_k` documents on every path. |
| Pipeline.SharedAfterAdd | pkgs/aginggpt/model.py:44-52 | An addition only extends the shared list: by the knowledge-base record when written, plus the vector copy when in use. |
| Pipeline.FindByIdAppend | pkgs/aginggpt/knowledge_base.py:101-105 | Lookup through a longer list answers as the shorter one did, unless the shorter one reported none. |
| Pipeline.LookupAfterAdd | pkgs/aginggpt/model.py:44-52 | After an addition with the vector database in use, an id that was absent is found as the new record, or the lookup raises `KeyError`. |
| Pipeline.TwoAdditionsDrift | pkgs/aginggpt/model.py:44-52 | Two additions put index and list out of step, and the second text's row points at the first text's copy. |
| Pipeline.Retriever.constructor | pkgs/aginggpt/model.py:16-40 | The vector database exists if and only if it can be imported, and it shares the store's list. The retriever's documents mirror the store in order. |
| Pipeline.Retriever.Retrieve | pkgs/aginggpt/model.py:56-85 | `retrieve` answers as `Retrieval`, falling back for the one call only, and returns at most `top_k` documents. |
| Pipeline.Retriever.AddDocument | pkgs/aginggpt/model.py:44-54 | The own list always gains exactly one `Document`, and the shared list becomes `SharedAfterAdd`. An embedding failure never propagates. |
| Pipeline.Answer | pkgs/aginggpt/model.py:107-118 | A query's answer is never empty and is the responder's text whenever it answers. |
| Pipeline.AnswerWithMappings | pkgs/aginggpt/model.py:107-118 | With mapping metadata everywhere, the apology branch is never taken. |
| Pipeline.AgingGPT.constructor | pkgs/aginggpt/model.py:103-105 | A new `AgingGPT` holds a fresh retriever over the working set. |
| Pipeline.AgingGPT.Query | pkgs/aginggpt/model.py:107-118 | `query` never raises and returns `Answer` of the retrieved context. |
| Pipeline.AgingGPT.AddKnowledge | pkgs/aginggpt/model.py:120-122 | New knowledge is added with metadata exactly `{"source": source}`. |
| Pipeline.SourceMeta | pkgs/aginggpt/model.py:121 | The metadata maps "source" to the given source. |
| Loaders.Paragraphs | pkgs/aginggpt/data_loader.py:49 | Paragraphs joined with blank lines give back the text. |
| Loaders.PackInvariant | pkgs/aginggpt/data_loader.py:53-61 | The chunk loop keeps every emitted chunk the stripped text of consecutive paragraphs, in order, bounded, and with no paragraph lost. |
| Loaders.ChunkSpec | pkgs/aginggpt/data_loader.py:48-66 | Chunks are stripped joins of consecutive, non-overlapping paragraph runs in text order. Multi-paragraph chunks are at most `max_chunk_size + 2` before stripping, and every non-empty paragraph lands in a chunk. |
| Loaders.ChunkEmpty | pkgs/aginggpt/data_loader.py:48-66 | The empty text gives no chunk. |
| Loaders.ChunkSingle | pkgs/aginggpt/data_loader.py:48-66 | A non-empty text without a blank line gives exactly one chunk, `text.strip()`. |
| Loaders.ChunkText | pkgs/aginggpt/data_loader.py:48-66 | The chunking loop yields `Chunked`. |
| Loaders.TextFileDocumentsSpec | pkgs/aginggpt/data_loader.py:15-46 | There is one record per chunk, with id `{stem}_{i}` (all distinct) and metadata `{source, chunk}`. A missing or unreadable file gives none. |
| Loaders.TextFileLoad | pkgs/aginggpt/data_loader.py:15-46 | The loader method yields `TextFileDocuments`. |
| Loaders.ItemRecord | pkgs/aginggpt/data_loader.py:88-101 | An item gives a record if and only if it is an object with object or absent metadata. Content defaults to "", the id defaults to the fallback. The metadata is the item's own with "source" set to the file path, or only that key when absent. |
| Loaders.ListRecords | pkgs/aginggpt/data_loader.py:86-101 | A list never gives more records than items. |
| Loaders.Surviving | pkgs/aginggpt/data_loader.py:87-101 | The items that do not raise are listed by increasing position, and a position is listed if and only if its item gives a record. |
| Loaders.ListRecordsIndexed | pkgs/aginggpt/data_loader.py:87-101 | Record k is the record of the k-th item that does not raise, with that item's own enumerate position in its fallback id. |
| Loaders.ListRecordsSources | pkgs/aginggpt/data_loader.py:86-101 | Every record of a list names the file as its source. |
| Loaders.ListRecordsAllGood | pkgs/aginggpt/data_loader.py:86-101 | With every item well formed, each gives its record in list order, with id defaulting to `{stem}_{i}`. |
| Loaders.JsonDocumentsSpec | pkgs/aginggpt/data_loader.py:74-119 | A missing or unparsable file gives nothing. Every record names the file as its source, and a single object's id defaults to the stem. |
| Loaders.JsonLoad | pkgs/aginggpt/data_loader.py:74-119 | The loader method yields `JsonDocuments`, skipping items that raise. |
| Loaders.PubMedLoad | pkgs/aginggpt/data_loader.py:121-157 | Whatever the path, there are the same three abstracts with distinct `pmid_` ids and source "PubMed". |
| Service.QueryReply | pkgs/aginggpt/service.py:27-47 | The status is "error" if and only if the query is blank or the call raised, and "success" carries the model's text. |
| Service.UnanswerableIsBlank | pkgs/aginggpt/service.py:28 | A query is rejected if and only if it is missing or all whitespace. |
| Service.PipelineFailureReportsSuccess | pkgs/aginggpt/service.py:34-41 | A responder failure reaches the caller as the apology with status "success". |
| Service.KnowledgeReply | pkgs/aginggpt/service.py:49-63 | The status is "success" if and only if adding went through, with the matching message. |
| Service.ServiceState.GetModelInstance | pkgs/aginggpt/service.py:14-21 | The instance is built on the first successful call only, and later calls return the same object whatever they are given. |
| Service.ServiceState.ProcessQuery | pkgs/aginggpt/service.py:27-47 | A blank query is rejected without building the model. An existing instance is kept, and a good build leaves one. A failed build gives the apology with "error", and otherwise the model's answer comes back with "success". |
| Service.ServiceState.AddKnowledge | pkgs/aginggpt/service.py:49-63 | An existing instance is kept, and a good build leaves one. Once the model exists the addition reports success, the retriever's list gains exactly the new document, and the shared list becomes `SharedAfterAdd` of its old contents (of the working set after a fresh build). A failed build reports the error. |

## Left out

- Disk and libraries:
  - The file system is not modelled: `os.makedirs`, `glob`, `open`, `json.load` and `json.dump`. What the loader finds and whether a write raises are parameters.
  - The contents of the seed files written during seeding are not modelled.
  - `Path` handling is not modelled: `str(Path(...))` and `.stem` are given as parameters.
- Embeddings and the index:
  - Embedding vectors, L2 distances and numpy stacking are floating point and foreign calls. The index is the list of embedded texts, and its answer for a query is a parameter: neighbour positions, or an exception.
  - Which positions faiss picks is not modelled. The answer is only required to keep to the search width of vector_db.py:61 (`VectorStore.WithinWidth`): at most `top_k` positions, distinct apart from the -1 padding.
  - Whether `sentence_transformers`, `faiss` and `numpy` import is a parameter.
- `Service.Setup`: an exception raised while building `AgingGPT` is an abstract message. Examples are a failed `makedirs`, or a stored record lacking `"content"` or `"metadata"`.
- Text handling:
  - Lower-casing, whitespace and `\w` are ASCII plus the Python whitespace set. Unicode case mapping is not modelled.
  - JSON metadata values other than strings, integers, booleans and null are not modelled. Floats and nested containers are among them.
  - JSON `content` and `id` are modelled as a string or absent. Any other JSON value there is not modelled.
- Loaders.IdOf: an item whose `"id"` is JSON null keeps the id None (data_loader.py:93). The model gives it the fallback `"{stem}_{i}"` instead.
- Loaders.ContentOf: an item whose `"content"` is JSON null keeps the content None, and a later keyword search over it would raise. The model gives it the content `""` instead.
- Ranking.SortByScore: Python's in-place `list.sort` is modelled as an insertion sort producing a new sequence. The proof covers the order and stability it promises, not the update in place.
- Pipeline.Answer: `LLMProcessor.generate` converts `Document`s back into `{content, metadata}` dictionaries. The model carries both as the same value, so that conversion is the identity.
- Responder.GenerateResponse: the key terms it extracts are computed and unused, exactly as in the source. Their properties are stated separately.
- The configurable `content_key` and `metadata_key` of `JsonLoader` are fixed at their defaults. In-place mutation of a parsed item's metadata dictionary is modelled as building a new value.
- `DataLoader.load` of the base class only raises `NotImplementedError`.
- Service.ServiceState.ProcessQuery, Service.ServiceState.AddKnowledge, Service.ServiceState.GetModelInstance: service.py:4 imports `get_random_loading_message` from llm.py at module level, and llm.py does not define it. As written, importing service.py raises `ImportError`, so none of these functions can be reached. The model describes them as if that import succeeded.
- `service.get_loading_message` returns what `get_random_loading_message` returns, and that function is not part of this model.
- Logging is not modelled.
- There is no concurrency in the source.
- `init_kb.py` and `demo.py` are scripts and are not part of this model.

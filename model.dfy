/** The retrieval-augmented pipeline: the Retriever over the knowledge base (through the vector
    database when it can be imported), the Document conversion, and AgingGPT, which answers a
    question from the retrieved context and records new knowledge. */
module Pipeline {
  import opened Text
  import opened Documents
  import opened Ranking
  import opened KnowledgeStore
  import opened VectorStore
  import opened Responder

  const Apology: string :=
    "Sorry, I encountered an error while processing your question. Please try again."

  // ---------------------------------------------------------------- retrieval

  /** The retriever's own keyword search over its Document list, cut at top_k as a Python slice */
  function BasicRetrieval(docs: seq<Document>, query: string, topK: int): seq<Document> {
    var ranked := Ranked(DocumentTexts(docs), QueryTerms(query));
    var kept := Take(ranked, topK);
    assert forall k :: 0 <= k < |kept| ==> kept[k] == ranked[k];
    Pick(docs, kept)
  }

  /** Every document of the basic search holds a query term, there are at most top_k of them
      (when top_k is not negative), and they come best first. */
  lemma BasicRetrievalSpec(docs: seq<Document>, query: string, topK: int)
    ensures var terms := QueryTerms(query);
      var r := BasicRetrieval(docs, query, topK);
      (forall k :: 0 <= k < |r| ==> r[k] in docs && Score(terms, r[k].content) > 0) &&
      (0 <= topK ==> |r| <= topK) &&
      (forall k, l :: 0 <= k < l < |r| ==> Score(terms, r[k].content) >= Score(terms, r[l].content))
  {
    var terms := QueryTerms(query);
    var texts := DocumentTexts(docs);
    var ranked := Ranked(texts, terms);
    var kept := Take(ranked, topK);
    var r := BasicRetrieval(docs, query, topK);
    RankedOrder(texts, terms);
    forall k | 0 <= k < |r| ensures r[k] in docs && Score(terms, r[k].content) > 0 {
      assert kept[k] == ranked[k] && ranked[k] in ranked;
      RankedMembers(texts, terms, ranked[k]);
    }
    forall k, l | 0 <= k < l < |r|
      ensures Score(terms, r[k].content) >= Score(terms, r[l].content)
    {
      assert kept[k] == ranked[k] && kept[l] == ranked[l];
    }
  }

  /** Retriever.retrieve: the vector database's answer, converted to Documents, when it is in
      use and does not raise; otherwise the basic search over the retriever's own list */
  function Retrieval(useVdb: bool, ready: bool, items: seq<Record>, docs: seq<Document>,
                     query: string, topK: int, answer: NeighbourSearch): (r: seq<Document>)
    ensures !useVdb ==> r == BasicRetrieval(docs, query, topK)
  {
    if !useVdb then BasicRetrieval(docs, query, topK)
    else match SearchResult(items, ready, query, topK, answer)
      case Success(found) => AsDocuments(found)
      case Failure(_) => BasicRetrieval(docs, query, topK)
  }

  /** Retrieval only hands back documents it was given: a record of the shared list, converted,
      or a document of the retriever's own list. */
  lemma RetrievalSources(useVdb: bool, ready: bool, items: seq<Record>, docs: seq<Document>,
                         query: string, topK: int, answer: NeighbourSearch)
    ensures forall d :: d in Retrieval(useVdb, ready, items, docs, query, topK, answer) ==>
      d in docs || exists x :: x in items && d == Document(x.content, x.metadata)
  {
    var r := Retrieval(useVdb, ready, items, docs, query, topK, answer);
    BasicRetrievalSpec(docs, query, topK);
    if useVdb && SearchResult(items, ready, query, topK, answer).Success? {
      var found := SearchResult(items, ready, query, topK, answer).value;
      if ready {
        forall k | 0 <= k < |found| ensures found[k] in items {
          InRangeMembers(items, answer.indices, found[k]);
        }
      } else {
        KeywordSearchSpec(items, query, topK);
      }
      forall d | d in r ensures exists x :: x in items && d == Document(x.content, x.metadata) {
        var k :| 0 <= k < |r| && r[k] == d;
        assert d == Document(found[k].content, found[k].metadata);
      }
    }
  }

  /** Off the vector path, at most top_k documents come back and each holds a query term. */
  lemma KeywordPathSpec(useVdb: bool, ready: bool, items: seq<Record>, docs: seq<Document>,
                        query: string, topK: int, answer: NeighbourSearch)
    requires !useVdb || !ready || answer.SearchError?
    requires 0 <= topK
    ensures var r := Retrieval(useVdb, ready, items, docs, query, topK, answer);
      |r| <= topK && forall k :: 0 <= k < |r| ==> Score(QueryTerms(query), r[k].content) > 0
  {
    BasicRetrievalSpec(docs, query, topK);
    KeywordSearchSpec(items, query, topK);
  }

  /** With faiss answering within the search width, retrieval never returns more than top_k
      documents, on the vector path and on the keyword path alike. */
  lemma RetrievalBound(useVdb: bool, ready: bool, items: seq<Record>, docs: seq<Document>,
                       query: string, topK: int, answer: NeighbourSearch)
    requires WithinWidth(answer, topK) && 0 <= topK
    ensures |Retrieval(useVdb, ready, items, docs, query, topK, answer)| <= topK
  {
    BasicRetrievalSpec(docs, query, topK);
    KeywordSearchSpec(items, query, topK);
  }

  // ---------------------------------------------------------------- adding a document

  /** The shared list after Retriever.add_document: the knowledge base's record (when its file
      could be written), then the vector database's id-less copy (when it is in use) */
  function SharedAfterAdd(items: seq<Record>, content: string, metadata: Meta,
                          writeOk: bool, useVdb: bool): (r: seq<Record>)
    ensures |r| == |items| + (if writeOk then 1 else 0) + (if useVdb then 1 else 0)
    ensures r[..|items|] == items
  {
    items + (if writeOk then [Record(Some(AssignedId(items, None)), content, metadata)] else [])
          + (if useVdb then [Record(None, content, metadata)] else [])
  }

  /** A lookup through a longer list answers as the shorter one did, unless the shorter one had
      nothing to say. */
  lemma {:induction false} FindByIdAppend(items: seq<Record>, extra: seq<Record>, id: string)
    ensures FindById(items + extra, id) ==
      if FindById(items, id).NotFound? then FindById(extra, id) else FindById(items, id)
  {
    if items != [] {
      assert (items + extra)[1..] == items[1..] + extra;
      FindByIdAppend(items[1..], extra, id);
    } else {
      assert items + extra == extra;
    }
  }

  /** Once the vector database has appended its id-less copy, a lookup for an id that was not
      there no longer reports "not found": it finds the new record, or it meets the id-less
      copy and raises KeyError. */
  lemma LookupAfterAdd(items: seq<Record>, content: string, metadata: Meta, writeOk: bool, id: string)
    requires FindById(items, id).NotFound?
    ensures FindById(SharedAfterAdd(items, content, metadata, writeOk, true), id) ==
      if writeOk && AssignedId(items, None) == id
      then Found(Record(Some(id), content, metadata))
      else MissingKey
  {
    var added := Record(Some(AssignedId(items, None)), content, metadata);
    var copy := Record(None, content, metadata);
    var extra := (if writeOk then [added] else []) + [copy];
    assert SharedAfterAdd(items, content, metadata, writeOk, true) == items + extra;
    FindByIdAppend(items, extra, id);
    if writeOk {
      assert extra[1..] == [copy];
    }
  }

  /** With the embeddings in step, two additions through the retriever put the index out of step:
      the index row of the second addition names the list position of the first addition's
      id-less copy, so a query closest to the second text is answered with the first. */
  lemma TwoAdditionsDrift(items: seq<Record>, c1: string, m1: Meta, c2: string, m2: Meta)
    requires c1 != c2
    ensures var items2 := SharedAfterAdd(SharedAfterAdd(items, c1, m1, true, true), c2, m2, true, true);
      var rows2 := RecordTexts(items) + [c1, c2];
      var n := |items| + 1;
      !Aligned(rows2, items2) && rows2[n] == c2 &&
      InRange(items2, [n]) == [items2[n]] && items2[n].content == c1
  {
    var items1 := SharedAfterAdd(items, c1, m1, true, true);
    var items2 := SharedAfterAdd(items1, c2, m2, true, true);
    var rows2 := RecordTexts(items) + [c1, c2];
    var n := |items| + 1;
    assert items2[..|items1|] == items1;
    assert items2[n] == items1[n] == Record(None, c1, m1);
    assert InRange(items2, [n]) == InRange(items2, []) + [items2[n]];
    assert |RecordTexts(items2)| == |items| + 4;
  }

  /** Retriever: the knowledge base, the vector database when vector_db could be imported, and
      the retriever's own Document list, which only it appends to */
  class Retriever {
    const kb: KnowledgeBase
    const useVectorDb: bool
    const vectorDb: VectorDatabase?
    var documents: seq<Document>

    /** The vector database exists exactly when it is in use and works on the knowledge base's list */
    predicate Valid() {
      (vectorDb != null <==> useVectorDb) && (vectorDb != null ==> vectorDb.documents == kb.documents)
    }

    /** __init__ and _initialize_knowledge_base. `vdbImportable` is whether importing vector_db
        succeeds (it needs numpy); `depsAvailable` and `initOk` are passed to the vector database. */
    constructor (stored: seq<StoredFile>, vdbImportable: bool, depsAvailable: bool, initOk: bool)
      ensures Valid() && fresh(kb) && fresh(kb.documents)
      ensures kb.documents.items == WorkingSet(stored)
      ensures useVectorDb == vdbImportable
      ensures vectorDb != null ==> fresh(vectorDb) && vectorDb.ready == (depsAvailable && initOk)
      ensures vectorDb != null && vectorDb.ready ==> Aligned(vectorDb.rows, kb.documents.items)
      ensures documents == AsDocuments(kb.documents.items)
    {
      var store := new KnowledgeBase(stored);
      kb := store;
      if vdbImportable {
        var vdb := new VectorDatabase(store, depsAvailable, initOk);
        vectorDb := vdb;
        useVectorDb := true;
      } else {
        vectorDb := null;
        useVectorDb := false;
      }
      var all := store.AllDocuments();
      documents := AsDocuments(all.items);
    }

    /** retrieve; `answer` is what the embedding index gives for this query */
    method Retrieve(query: string, topK: int, answer: NeighbourSearch) returns (found: seq<Document>)
      requires Valid() && WithinWidth(answer, topK)
      ensures found == Retrieval(useVectorDb, useVectorDb && vectorDb.ready, kb.documents.items,
                                 documents, query, topK, answer)
      ensures 0 <= topK ==> |found| <= topK
    {
      if useVectorDb {
        var r := vectorDb.Search(query, topK, answer);
        if r.Success? {
          return AsDocuments(r.value);
        }
        // the exception is logged and the basic search follows
      }
      var terms := QueryTerms(query);
      QueryTermsShape(query);
      var lowered := seq(|terms|, k requires 0 <= k < |terms| => Lower(terms[k]));
      assert lowered == terms;
      var ranked := RankMatches(DocumentTexts(documents), lowered);
      var kept := Take(ranked, topK);
      assert forall k :: 0 <= k < |kept| ==> kept[k] == ranked[k];
      found := Pick(documents, kept);
    }

    /** add_document: the knowledge base adds its record (logging a failed write), the own list
        gets the Document, and the vector database, when in use, appends its copy and embeds it;
        an exception there is logged. */
    method AddDocument(content: string, metadata: Meta, writeOk: bool, embedOk: bool)
      requires Valid()
      modifies this, kb.documents, vectorDb
      ensures kb.documents.items ==
        SharedAfterAdd(old(kb.documents.items), content, metadata, writeOk, useVectorDb)
      ensures documents == old(documents) + [Document(content, metadata)]
      ensures vectorDb != null ==> vectorDb.ready == old(vectorDb.ready)
      ensures vectorDb != null ==>
        vectorDb.rows == old(vectorDb.rows) + (if vectorDb.ready && embedOk then [content] else [])
    {
      kb.AddDocument(content, metadata, None, writeOk);
      documents := documents + [Document(content, metadata)];
      if useVectorDb {
        var raised := vectorDb.AddDocument(content, metadata, embedOk);
      }
    }
  }

  // ---------------------------------------------------------------- answering

  /** AgingGPT.query's result for the retrieved context: the responder's text, or the apology
      when generating raises */
  function Answer(query: string, context: seq<Document>): (text: string)
    ensures text != ""
    ensures Response(query, context).Some? ==> text == Response(query, context).value
  {
    match Response(query, context)
    case Some(t) => ResponseNonEmpty(query, context); t
    case None => Apology
  }

  /** When every record and document carries mapping metadata, a query is never answered with
      the apology branch. */
  lemma AnswerWithMappings(useVdb: bool, ready: bool, items: seq<Record>, docs: seq<Document>,
                           query: string, topK: int, answer: NeighbourSearch)
    requires forall x :: x in items ==> x.metadata.Mapping?
    requires AllMappings(docs)
    ensures var context := Retrieval(useVdb, ready, items, docs, query, topK, answer);
      Response(query, context).Some? && Answer(query, context) == Response(query, context).value
  {
    var context := Retrieval(useVdb, ready, items, docs, query, topK, answer);
    RetrievalSources(useVdb, ready, items, docs, query, topK, answer);
    forall k | 0 <= k < |context| ensures context[k].metadata.Mapping? {
      assert context[k] in context;
      if context[k] !in docs {
        var x :| x in items && context[k] == Document(x.content, x.metadata);
      } else {
        var j :| 0 <= j < |docs| && docs[j] == context[k];
      }
    }
    ResponseTotal(query, context);
  }

  /** AgingGPT: a retriever and the responder */
  class AgingGPT {
    const retriever: Retriever

    constructor (stored: seq<StoredFile>, vdbImportable: bool, depsAvailable: bool, initOk: bool)
      ensures fresh(retriever) && retriever.Valid()
      ensures fresh(retriever.kb) && fresh(retriever.kb.documents)
      ensures retriever.vectorDb != null ==> fresh(retriever.vectorDb)
      ensures retriever.kb.documents.items == WorkingSet(stored)
      ensures retriever.useVectorDb == vdbImportable
      ensures retriever.documents == AsDocuments(retriever.kb.documents.items)
    {
      retriever := new Retriever(stored, vdbImportable, depsAvailable, initOk);
    }

    /** query: retrieve, then generate; any exception gives the apology */
    method Query(text: string, topK: int, answer: NeighbourSearch) returns (response: string)
      requires retriever.Valid() && WithinWidth(answer, topK)
      ensures response == Answer(text, Retrieval(retriever.useVectorDb,
        retriever.useVectorDb && retriever.vectorDb.ready, retriever.kb.documents.items,
        retriever.documents, text, topK, answer))
    {
      var context := retriever.Retrieve(text, topK, answer);
      var generated := GenerateResponse(text, context);
      if generated.Some? {
        ResponseNonEmpty(text, context);
        response := generated.value;
      } else {
        response := Apology;
      }
    }

    /** add_knowledge: the content with {"source": source} as its metadata */
    method AddKnowledge(content: string, source: string, writeOk: bool, embedOk: bool)
      requires retriever.Valid()
      modifies retriever, retriever.kb.documents, retriever.vectorDb
      ensures retriever.kb.documents.items == SharedAfterAdd(old(retriever.kb.documents.items),
        content, SourceMeta(source), writeOk, retriever.useVectorDb)
      ensures retriever.documents == old(retriever.documents) + [Document(content, SourceMeta(source))]
      ensures retriever.vectorDb != null ==> retriever.vectorDb.ready == old(retriever.vectorDb.ready)
      ensures retriever.vectorDb != null ==>
        retriever.vectorDb.rows ==
          old(retriever.vectorDb.rows) + (if retriever.vectorDb.ready && embedOk then [content] else [])
    {
      retriever.AddDocument(content, SourceMeta(source), writeOk, embedOk);
    }
  }

  /** {"source": source} */
  function SourceMeta(source: string): (m: Meta)
    ensures m.Mapping? && "source" in m.fields && m.fields["source"] == Str(source)
  {
    Mapping(map["source" := Str(source)])
  }
}

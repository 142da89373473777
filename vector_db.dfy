/** The vector database: an embedding index over the knowledge base's documents, with the
    keyword ranking as its fallback. The sentence-transformer and the faiss index are not
    modelled as arithmetic: the index is described by the texts it embedded, row by row, and
    what it answers for a query is a parameter. */
module VectorStore {
  import opened Text
  import opened Documents
  import opened Ranking
  import opened KnowledgeStore

  /** What encoding the query and searching the index give: the neighbour positions (faiss
      pads missing neighbours with -1), or an exception raised on the way */
  datatype NeighbourSearch = Neighbours(indices: seq<int>) | SearchError

  /** faiss answers a search of width k with k positions per query, distinct apart from the
      -1 padding; a width that is not positive gives none */
  predicate WithinWidth(answer: NeighbourSearch, topK: int) {
    answer.Neighbours? ==>
      |answer.indices| <= (if topK < 0 then 0 else topK) &&
      forall j, l :: 0 <= j < l < |answer.indices| && 0 <= answer.indices[j] ==>
        answer.indices[j] != answer.indices[l]
  }

  const SearchErrorMessage: string := "error while encoding the query or searching the index"

  /** The documents at the returned positions that fall inside the list, in the order returned */
  function InRange(items: seq<Record>, indices: seq<int>): (r: seq<Record>)
    ensures |r| <= |indices|
  {
    if indices == [] then []
    else
      var n := |indices| - 1;
      var idx := indices[n];
      InRange(items, indices[..n]) + (if 0 <= idx < |items| then [items[idx]] else [])
  }

  /** The filter keeps the order of the returned positions, repeats included: on a
      concatenation of position lists it filters each part in turn. */
  lemma {:induction false} InRangeAppend(items: seq<Record>, a: seq<int>, b: seq<int>)
    ensures InRange(items, a + b) == InRange(items, a) + InRange(items, b)
  {
    if b == [] {
      assert a + b == a;
    } else {
      var n := |b| - 1;
      assert (a + b)[..|a + b| - 1] == a + b[..n];
      assert (a + b)[|a + b| - 1] == b[n];
      InRangeAppend(items, a, b[..n]);
    }
  }

  /** A single position gives its document when it is inside the list and nothing otherwise
      (faiss's -1 padding included). */
  lemma InRangeSingle(items: seq<Record>, i: int)
    ensures InRange(items, [i]) == if 0 <= i < |items| then [items[i]] else []
  {
    assert [i][..0] == [];
  }

  /** Returned position j is inside the list and holds x. */
  predicate HitAt(items: seq<Record>, indices: seq<int>, j: int, x: Record) {
    0 <= j < |indices| && 0 <= indices[j] < |items| && items[indices[j]] == x
  }

  /** A document is returned exactly when one of the returned positions inside the list holds it. */
  lemma {:induction false} InRangeMembers(items: seq<Record>, indices: seq<int>, x: Record)
    ensures x in InRange(items, indices) <==> exists j :: HitAt(items, indices, j, x)
  {
    if indices != [] {
      var n := |indices| - 1;
      var pre := indices[..n];
      var last := if 0 <= indices[n] < |items| then [items[indices[n]]] else [];
      InRangeMembers(items, pre, x);
      assert InRange(items, indices) == InRange(items, pre) + last;
      assert forall j :: HitAt(items, pre, j, x) ==> HitAt(items, indices, j, x);
      if x in last {
        assert HitAt(items, indices, n, x);
      }
      if exists j :: HitAt(items, indices, j, x) {
        var j :| HitAt(items, indices, j, x);
        if j < n {
          assert HitAt(items, pre, j, x);
        }
      }
    }
  }

  /** When every returned position is inside the list, nothing is dropped. */
  lemma {:induction false} InRangeAll(items: seq<Record>, indices: seq<int>)
    requires forall j :: 0 <= j < |indices| ==> 0 <= indices[j] < |items|
    ensures |InRange(items, indices)| == |indices|
    ensures forall j :: 0 <= j < |indices| ==> InRange(items, indices)[j] == items[indices[j]]
  {
    if indices != [] {
      var n := |indices| - 1;
      var pre := indices[..n];
      assert forall j :: 0 <= j < n ==> pre[j] == indices[j];
      InRangeAll(items, pre);
      var r := InRange(items, indices);
      assert r == InRange(items, pre) + [items[indices[n]]];
      forall j | 0 <= j < |indices|
        ensures r[j] == items[indices[j]]
      {
        if j < n {
          assert r[j] == InRange(items, pre)[j];
        }
      }
    }
  }

  /** _keyword_search: the keyword ranking over the list, cut at top_k as a Python slice */
  function KeywordSearch(items: seq<Record>, query: string, topK: int): seq<Record> {
    Take(KeywordMatches(items, query), topK)
  }

  /** Every keyword result contains a query term, there are at most top_k of them (when top_k
      is not negative), they come best first, and with a non-negative top_k no record that
      contains a term is passed over in favour of one that scores lower. */
  lemma KeywordSearchSpec(items: seq<Record>, query: string, topK: int)
    ensures var terms := QueryTerms(query);
      var r := KeywordSearch(items, query, topK);
      (forall k :: 0 <= k < |r| ==> r[k] in items && Score(terms, r[k].content) > 0) &&
      (0 <= topK ==> |r| <= topK) &&
      (forall k, l :: 0 <= k < l < |r| ==> Score(terms, r[k].content) >= Score(terms, r[l].content))
    ensures var terms := QueryTerms(query);
      var r := KeywordSearch(items, query, topK);
      0 <= topK ==> forall x :: x in items && Score(terms, x.content) > 0 && x !in r ==>
        |r| == topK && forall k :: 0 <= k < |r| ==> Score(terms, r[k].content) >= Score(terms, x.content)
  {
    var terms := QueryTerms(query);
    var all := KeywordMatches(items, query);
    var r := KeywordSearch(items, query, topK);
    KeywordMatchesSpec(items, query);
    assert forall k :: 0 <= k < |r| ==> r[k] == all[k];
    if 0 <= topK {
      forall x | x in items && Score(terms, x.content) > 0 && x !in r
        ensures |r| == topK && forall k :: 0 <= k < |r| ==> Score(terms, r[k].content) >= Score(terms, x.content)
      {
        var i :| 0 <= i < |items| && items[i] == x;
        var l :| 0 <= l < |all| && all[l] == x;
        assert l >= |r|;
      }
    }
  }

  /** What search answers: the documents at the neighbour positions when the model and the
      index are in place, the exception when encoding or searching raises, and otherwise the
      keyword search */
  function SearchResult(items: seq<Record>, ready: bool, query: string, topK: int,
                        answer: NeighbourSearch): (r: Result<seq<Record>>)
    ensures !ready ==> r == Success(KeywordSearch(items, query, topK))
    ensures ready && answer.SearchError? ==> r.Failure?
    ensures ready && answer.Neighbours? ==> r.Success? && |r.value| <= |answer.indices|
  {
    if !ready then Success(KeywordSearch(items, query, topK))
    else match answer
      case SearchError => Failure(SearchErrorMessage)
      case Neighbours(ix) => Success(InRange(items, ix))
  }

  /** The index is in step with the list: row i embeds the content of document i. */
  predicate Aligned(rows: seq<string>, items: seq<Record>) {
    rows == RecordTexts(items)
  }

  /** With the index in step with the list, every vector hit is the document whose embedding
      the index returned. */
  lemma AlignedHits(rows: seq<string>, items: seq<Record>, indices: seq<int>)
    requires Aligned(rows, items)
    requires forall j :: 0 <= j < |indices| ==> 0 <= indices[j] < |rows|
    ensures var r := InRange(items, indices);
      |r| == |indices| && forall j :: 0 <= j < |indices| ==> r[j].content == rows[indices[j]]
  {
    InRangeAll(items, indices);
  }

  /** Appending a document and its embedding together keeps the index in step. */
  lemma AppendAligned(rows: seq<string>, items: seq<Record>, r: Record)
    requires Aligned(rows, items)
    ensures Aligned(rows + [r.content], items + [r])
  {
    assert RecordTexts(items + [r]) == RecordTexts(items) + [r.content];
  }

  /** Appending a document whose embedding is not added puts the index out of step. */
  lemma AppendUnembedded(rows: seq<string>, items: seq<Record>, r: Record)
    requires Aligned(rows, items)
    ensures !Aligned(rows, items + [r])
  {
    assert |RecordTexts(items + [r])| == |rows| + 1;
  }

  /** VectorDatabase. `documents` is the knowledge base's own list (get_all_documents returns
      it, not a copy); `rows` stands for the faiss index and `ready` for embedding_model and
      index both being set. */
  class VectorDatabase {
    const documents: DocList
    var ready: bool
    var rows: seq<string>

    /** __init__ and _initialize: the index embeds every document when both libraries are
        installed and building it raises nothing; otherwise model and index stay None */
    constructor (kb: KnowledgeBase, depsAvailable: bool, initOk: bool)
      ensures documents == kb.documents
      ensures ready == (depsAvailable && initOk)
      ensures ready ==> Aligned(rows, documents.items)
      ensures !ready ==> rows == []
    {
      documents := kb.AllDocuments();
      ready := depsAvailable && initOk;
      if depsAvailable && initOk {
        rows := RecordTexts(kb.documents.items);
      } else {
        rows := [];
      }
    }

    /** search; `answer` is what the model and the index give for this query */
    method Search(query: string, topK: int, answer: NeighbourSearch) returns (r: Result<seq<Record>>)
      requires WithinWidth(answer, topK)
      ensures r == SearchResult(documents.items, ready, query, topK, answer)
      ensures r.Success? && 0 <= topK ==> |r.value| <= topK
    {
      if ready {
        match answer {
          case SearchError =>
            return Failure(SearchErrorMessage);
          case Neighbours(ix) =>
            var items := documents.items;
            var results := [];
            var j := 0;
            while j < |ix|
              invariant j <= |ix|
              invariant results == InRange(items, ix[..j])
            {
              assert ix[..j + 1][..j] == ix[..j];
              if 0 <= ix[j] < |items| {
                results := results + [items[ix[j]]];
              }
              j := j + 1;
            }
            assert ix[..|ix|] == ix;
            return Success(results);
        }
      }
      var results := KeywordSearchOf(query, topK);
      KeywordSearchSpec(documents.items, query, topK);
      return Success(results);
    }

    /** _keyword_search */
    method KeywordSearchOf(query: string, topK: int) returns (results: seq<Record>)
      ensures results == KeywordSearch(documents.items, query, topK)
    {
      var items := documents.items;
      var terms := QueryTerms(query);
      QueryTermsShape(query);
      // each term is lower-cased once more before the test; split terms are lower case already
      var lowered := seq(|terms|, k requires 0 <= k < |terms| => Lower(terms[k]));
      assert lowered == terms;
      var ranked := RankMatches(RecordTexts(items), lowered);
      results := Take(Pick(items, ranked), topK);
    }

    /** add_document: the dictionary (no "id" key) is appended to the shared list first; its
        embedding is then added to the index when model and index are set. `raised` tells
        that encoding or adding raised, after the append. */
    method AddDocument(content: string, metadata: Meta, embedOk: bool) returns (raised: bool)
      modifies this, documents
      ensures documents.items == old(documents.items) + [Record(None, content, metadata)]
      ensures ready == old(ready)
      ensures rows == old(rows) + (if ready && embedOk then [content] else [])
      ensures raised == (ready && !embedOk)
    {
      documents.Append(Record(None, content, metadata));
      raised := false;
      if ready {
        if embedOk {
          rows := rows + [content];
        } else {
          raised := true;
        }
      }
    }
  }
}

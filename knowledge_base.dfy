/** The document store (knowledge_base.py): a list of {"id", "content", "metadata"}
    dictionaries loaded at start-up from the JSON files of a documents directory, falling back
    to five built-in documents on aging biology, with one JSON file written per added document.
    The directory is not modelled as a file system: what the loader finds there is a parameter,
    and a write either succeeds or fails as its caller says. */
module KnowledgeStore {
  import opened Text
  import opened Documents
  import opened Ranking

  /** A *.json file of the documents directory, in glob order: a record json.load parsed, or
      a file that could not be opened or parsed */
  datatype StoredFile = Parsed(record: Record) | Unreadable

  /** The outcome of looking a document up by id. The scan stops with KeyError at the first
      dictionary that has no "id" key (those the vector database appends). */
  datatype Lookup = Found(record: Record) | NotFound | MissingKey

  function Seed(id: string, content: string, source: string, category: string): Record {
    Record(Some(id), content, Mapping(map["source" := Str(source), "category" := Str(category)]))
  }

  const HallmarksText: string := "Aging is characterized by nine hallmarks: genomic instability, telomere attrition, epigenetic alterations, loss of proteostasis, deregulated nutrient sensing, mitochondrial dysfunction, cellular senescence, stem cell exhaustion, and altered intercellular communication."
  const CaloricRestrictionText: string := "Caloric restriction has been shown to extend lifespan in various model organisms including yeast, worms, flies, and mice."
  const SenescenceText: string := "Senescent cells accumulate with age and secrete pro-inflammatory cytokines, chemokines, and extracellular matrix proteases, collectively known as the senescence-associated secretory phenotype (SASP)."
  const RapamycinText: string := "Rapamycin, which inhibits the mTOR pathway, has been shown to extend lifespan in mice and is being studied for its potential anti-aging effects in humans."
  const MitochondriaText: string := "Mitochondrial dysfunction is a key hallmark of aging, characterized by reduced efficiency in the electron transport chain and increased production of reactive oxygen species."

  /** The five built-in documents, in order */
  function DefaultKnowledge(): (d: seq<Record>)
    ensures |d| == 5
  {
    [ Seed("hallmarks_aging_1", HallmarksText,
        "Hallmarks of Aging, L\U{f3}pez-Ot\U{ed}n et al., 2013", "aging_mechanisms"),
      Seed("caloric_restriction_1", CaloricRestrictionText,
        "Caloric Restriction Research", "interventions"),
      Seed("cell_senescence_1", SenescenceText, "Cellular Senescence Research", "aging_mechanisms"),
      Seed("rapamycin_1", RapamycinText, "mTOR Inhibition Research", "interventions"),
      Seed("mitochondria_1", MitochondriaText, "Mitochondrial Theory of Aging", "aging_mechanisms") ]
  }

  /** The built-in documents all carry distinct ids, a source and a category. */
  lemma DefaultKnowledgeShape()
    ensures forall i :: 0 <= i < 5 ==>
      DefaultKnowledge()[i].id.Some? && DefaultKnowledge()[i].metadata.Mapping? &&
      "source" in DefaultKnowledge()[i].metadata.fields &&
      "category" in DefaultKnowledge()[i].metadata.fields
    ensures forall i, j :: 0 <= i < j < 5 ==> DefaultKnowledge()[i].id != DefaultKnowledge()[j].id
  {
  }

  /** The records that loaded, in glob order */
  function Readable(files: seq<StoredFile>): (r: seq<Record>)
    ensures |r| <= |files|
    ensures forall x :: x in r <==> Parsed(x) in files
  {
    if files == [] then []
    else
      var n := |files| - 1;
      assert forall f :: f in files <==> f in files[..n] || f == files[n];
      Readable(files[..n]) + (if files[n].Parsed? then [files[n].record] else [])
  }

  /** The documents the store starts with: every readable stored record, or, when none could
      be read, the five built-in ones. Seeding does not add them twice: each add_document call
      it makes writes its file and then fails at the append, because the store's list does not
      exist yet, and the failure is caught. */
  function WorkingSet(files: seq<StoredFile>): (w: seq<Record>)
  {
    var r := Readable(files);
    if r == [] then DefaultKnowledge() else r
  }

  /** The store never starts empty, and stored records always win over the built-in ones. */
  lemma WorkingSetSpec(files: seq<StoredFile>)
    ensures WorkingSet(files) != []
    ensures (exists x :: Parsed(x) in files) ==> WorkingSet(files) == Readable(files)
    ensures (forall f :: f in files ==> f == Unreadable) ==> WorkingSet(files) == DefaultKnowledge()
  {
    if exists x :: Parsed(x) in files {
      var x :| Parsed(x) in files;
      assert x in Readable(files);
    }
  }

  /** _load_documents: reads every stored file, skipping the ones that fail */
  method LoadDocuments(files: seq<StoredFile>) returns (documents: seq<Record>)
    ensures documents == WorkingSet(files)
  {
    documents := [];
    for i := 0 to |files|
      invariant documents == Readable(files[..i])
    {
      assert files[..i + 1][..i] == files[..i];
      if files[i].Parsed? {
        documents := documents + [files[i].record];
      }
    }
    assert files[..|files|] == files;
    if documents == [] {
      documents := DefaultKnowledge();
    }
  }

  /** The id add_document stores a document under: the given one, or, when none or an empty
      one is given, "doc_" followed by one more than the number of documents held */
  function AssignedId(items: seq<Record>, docId: Option<string>): (id: string)
    ensures docId.Some? && docId.value != "" ==> id == docId.value
  {
    if docId.Some? && docId.value != "" then docId.value
    else "doc_" + NatToString(|items| + 1)
  }

  /** A generated id is "doc_" and a decimal count, and the next generated one differs. */
  lemma GeneratedIdsAdvance(items: seq<Record>, r: Record, docId: Option<string>)
    requires docId == None || docId == Some("")
    ensures AssignedId(items, docId) != AssignedId(items + [r], None)
    ensures ParseNat(AssignedId(items, docId)[4..]) == |items| + 1
  {
    NumberedNamesDistinct("doc_", |items| + 1, |items| + 2);
    assert AssignedId(items, docId)[4..] == NatToString(|items| + 1);
    ParseNatToString(|items| + 1);
  }

  /** The first record, scanning from the front, that either has the id or has no id at all */
  function FindById(items: seq<Record>, id: string): (r: Lookup)
    ensures r.Found? ==> r.record in items && r.record.id == Some(id)
  {
    if items == [] then NotFound
    else match items[0].id
      case None => MissingKey
      case Some(i) => if i == id then Found(items[0]) else FindById(items[1..], id)
  }

  /** No record before position k lacks an id or has this one. */
  predicate PassedOver(items: seq<Record>, k: nat, id: string)
    requires k <= |items|
  {
    forall j :: 0 <= j < k ==> items[j].id.Some? && items[j].id.value != id
  }

  /** The scan stops at position k: every record before it was passed over, and k lacks an id
      or has this one. */
  predicate StopsAt(items: seq<Record>, id: string, k: int) {
    0 <= k < |items| && PassedOver(items, k, id) && (items[k].id.None? || items[k].id == Some(id))
  }

  /** Records passed over do not change the outcome. */
  lemma {:induction false} FindSkips(items: seq<Record>, id: string, k: nat)
    requires k <= |items| && PassedOver(items, k, id)
    ensures FindById(items, id) == FindById(items[k..], id)
  {
    if k > 0 {
      FindSkips(items, id, k - 1);
      assert items[k - 1..][0] == items[k - 1];
      assert items[k - 1..][1..] == items[k..];
    } else {
      assert items[0..] == items;
    }
  }

  /** Within the first n records, either all are passed over or the scan stops at one. */
  lemma {:induction false} FindStops(items: seq<Record>, id: string, n: nat)
    requires n <= |items|
    ensures PassedOver(items, n, id) || exists k :: k < n && StopsAt(items, id, k)
  {
    if n > 0 {
      FindStops(items, id, n - 1);
      if PassedOver(items, n - 1, id) && !PassedOver(items, n, id) {
        assert StopsAt(items, id, n - 1);
      }
    }
  }

  /** The scan stops at no more than one position, and not at all when all are passed over. */
  lemma StopUnique(items: seq<Record>, id: string, k: int, l: int)
    requires StopsAt(items, id, k)
    ensures !PassedOver(items, |items|, id)
    ensures StopsAt(items, id, l) ==> k == l
  {
    assert !(items[k].id.Some? && items[k].id.value != id);
  }

  /** The lookup finds the first record with the id unless an id-less record comes first, and
      reports "not found" exactly when every record has an id and none has this one. */
  lemma FindByIdSpec(items: seq<Record>, id: string)
    ensures FindById(items, id).NotFound? <==> PassedOver(items, |items|, id)
    ensures FindById(items, id).Found? <==>
      exists k :: 0 <= k < |items| && PassedOver(items, k, id) && items[k].id == Some(id)
    ensures FindById(items, id).MissingKey? <==>
      exists k :: 0 <= k < |items| && PassedOver(items, k, id) && items[k].id == None
  {
    FindStops(items, id, |items|);
    if PassedOver(items, |items|, id) {
      FindSkips(items, id, |items|);
      forall k | StopsAt(items, id, k) ensures false {
        StopUnique(items, id, k, k);
      }
    } else {
      var k :| k < |items| && StopsAt(items, id, k);
      FindSkips(items, id, k);
      assert items[k..][0] == items[k];
      forall l | StopsAt(items, id, l) ensures l == k {
        StopUnique(items, id, k, l);
      }
    }
  }

  /** The records keyword search returns for a query, best first */
  function KeywordMatches(items: seq<Record>, query: string): (r: seq<Record>)
  {
    Pick(items, Ranked(RecordTexts(items), QueryTerms(query)))
  }

  /** Keyword search returns exactly the records that contain at least one query term, each
      position once, best first, ties in store order. */
  lemma KeywordMatchesSpec(items: seq<Record>, query: string)
    ensures var terms := QueryTerms(query);
      var r := KeywordMatches(items, query);
      |r| <= |items| &&
      (forall k :: 0 <= k < |r| ==> r[k] in items && Score(terms, r[k].content) > 0) &&
      (forall i :: 0 <= i < |items| && Score(terms, items[i].content) > 0 ==> items[i] in r) &&
      (forall k, l :: 0 <= k < l < |r| ==> Score(terms, r[k].content) >= Score(terms, r[l].content))
  {
    var terms := QueryTerms(query);
    var texts := RecordTexts(items);
    var ranked := Ranked(texts, terms);
    var r := KeywordMatches(items, query);
    RankedOrder(texts, terms);
    forall k | 0 <= k < |r| ensures r[k] in items && Score(terms, r[k].content) > 0 {
      assert ranked[k] in ranked;
      RankedMembers(texts, terms, ranked[k]);
    }
    forall i | 0 <= i < |items| && Score(terms, items[i].content) > 0 ensures items[i] in r {
      RankedMembers(texts, terms, i);
      var k :| 0 <= k < |ranked| && ranked[k] == i;
      assert r[k] == items[i];
    }
  }

  /** The store. `documents` is the Python list object itself: get_all_documents hands out that
      very object, and the vector database appends to it. */
  class KnowledgeBase {
    const documents: DocList

    /** __init__ with the directories in place: the working set of the stored files */
    constructor (stored: seq<StoredFile>)
      ensures fresh(documents)
      ensures documents.items == WorkingSet(stored)
    {
      var items := LoadDocuments(stored);
      documents := new DocList(items);
    }

    /** add_document: writes the record's file and appends it; when the write raises, the
        error is logged and nothing is appended */
    method AddDocument(content: string, metadata: Meta, docId: Option<string>, writeOk: bool)
      modifies documents
      ensures writeOk ==>
        documents.items == old(documents.items) + [Record(Some(AssignedId(old(documents.items), docId)), content, metadata)]
      ensures !writeOk ==> documents.items == old(documents.items)
    {
      var id := AssignedId(documents.items, docId);
      if writeOk {
        documents.Append(Record(Some(id), content, metadata));
      }
    }

    /** get_all_documents: the live list, not a copy */
    function AllDocuments(): (d: DocList)
      reads this
      ensures d == documents
    {
      documents
    }

    /** get_document_by_id */
    method GetDocumentById(id: string) returns (outcome: Lookup)
      ensures outcome == FindById(documents.items, id)
    {
      var items := documents.items;
      var k := 0;
      while k < |items|
        invariant k <= |items|
        invariant FindById(items, id) == FindById(items[k..], id)
      {
        assert items[k..][1..] == items[k + 1..];
        match items[k].id {
          case None =>
            return MissingKey;
          case Some(i) =>
            if i == id {
              return Found(items[k]);
            }
        }
        k := k + 1;
      }
      return NotFound;
    }

    /** search_documents: every record containing a query term, best first, untruncated */
    method SearchDocuments(query: string) returns (results: seq<Record>)
      ensures results == KeywordMatches(documents.items, query)
    {
      var items := documents.items;
      var ranked := RankMatches(RecordTexts(items), QueryTerms(query));
      results := Pick(items, ranked);
    }
  }
}

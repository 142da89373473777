/** The rule-based responder (EnhancedLLMProcessor in llm.py). It answers from the retrieved
    context documents with one of four templates, picked by keyword families found in the
    lower-cased query. No language model is involved.

    A template reads `doc["metadata"].get(...)`; on a document whose metadata is not a mapping
    that raises AttributeError. A response is therefore an Option: None stands for "raised". */
module Responder {
  import opened Text
  import opened Documents

  const NoInformation: string :=
    "I don't have specific information about that in my aging biology knowledge base. Please ask another question related to aging."

  // ---------------------------------------------------------------- key terms

  const Stopwords: set<string> := {
    "the", "a", "an", "in", "on", "at", "to", "for", "with", "by",
    "is", "are", "was", "were", "be", "been", "being", "have", "has",
    "had", "do", "does", "did", "can", "could", "will", "would", "about" }

  predicate KeyTerm(w: string) {
    w !in Stopwords && |w| > 2
  }

  /** The words that are key terms, in order, repeats kept */
  function KeyTermsOf(words: seq<string>): (r: seq<string>)
    ensures |r| <= |words|
    ensures forall t :: t in r <==> t in words && KeyTerm(t)
  {
    if words == [] then []
    else
      var n := |words| - 1;
      assert forall w :: w in words <==> w in words[..n] || w == words[n];
      KeyTermsOf(words[..n]) + (if KeyTerm(words[n]) then [words[n]] else [])
  }

  /** Filtering a concatenation filters each part in turn: key terms keep the order of the
      words, repeats included. */
  lemma {:induction false} KeyTermsAppend(a: seq<string>, b: seq<string>)
    ensures KeyTermsOf(a + b) == KeyTermsOf(a) + KeyTermsOf(b)
  {
    if b == [] {
      assert a + b == a;
    } else {
      var n := |b| - 1;
      assert (a + b)[..|a + b| - 1] == a + b[..n];
      assert (a + b)[|a + b| - 1] == b[n];
      KeyTermsAppend(a, b[..n]);
    }
  }

  /** A single word is kept exactly when it is a key term. */
  lemma KeyTermsSingle(w: string)
    ensures KeyTermsOf([w]) == if KeyTerm(w) then [w] else []
  {
    assert [w][..0] == [];
  }

  /** _extract_key_terms: the \w+ tokens of the lower-cased query that are neither stopwords nor
      shorter than three characters */
  function ExtractKeyTerms(query: string): seq<string> {
    KeyTermsOf(WordRuns(Lower(query)))
  }

  /** Key terms are word-character tokens of the query, never stopwords, at least three
      characters long; every such token of the query is a key term. */
  lemma ExtractKeyTermsSpec(query: string)
    ensures forall t :: t in ExtractKeyTerms(query) ==>
      t !in Stopwords && |t| > 2 && forall i :: 0 <= i < |t| ==> IsWordChar(t[i])
    ensures forall w :: w in WordRuns(Lower(query)) && KeyTerm(w) ==> w in ExtractKeyTerms(query)
  {
  }

  // ---------------------------------------------------------------- template choice

  datatype Topic = HallmarksTopic | InterventionsTopic | MechanismsTopic | GeneralTopic

  const HallmarkWords: seq<string> := ["hallmark", "hallmarks", "characteristic", "characteristics"]
  const InterventionWords: seq<string> := ["intervention", "extend", "lifespan", "longevity", "treatment"]
  const MechanismWords: seq<string> := ["mechanism", "cause", "pathway", "molecular", "cellular"]

  /** any(term in text for term in terms) */
  predicate MentionsAny(text: string, terms: seq<string>) {
    exists k :: 0 <= k < |terms| && Contains(text, terms[k])
  }

  /** _build_enhanced_response's if/elif chain, first family found wins */
  function Classify(query: string): Topic {
    var q := Lower(query);
    if MentionsAny(q, HallmarkWords) then HallmarksTopic
    else if MentionsAny(q, InterventionWords) then InterventionsTopic
    else if MentionsAny(q, MechanismWords) then MechanismsTopic
    else GeneralTopic
  }

  /** The plural entries of the first family are redundant: a query picks the hallmarks
      template exactly when it holds "hallmark" or "characteristic". */
  lemma ClassifyHallmarks(query: string)
    ensures Classify(query) == HallmarksTopic <==>
      Contains(Lower(query), "hallmark") || Contains(Lower(query), "characteristic")
  {
    var q := Lower(query);
    ContainsInfix("", "hallmark", "s");
    ContainsInfix("", "characteristic", "s");
    assert "" + "hallmark" + "s" == "hallmarks";
    assert "" + "characteristic" + "s" == "characteristics";
    if Contains(q, "hallmarks") {
      ContainsTransitive(q, "hallmarks", "hallmark");
    }
    if Contains(q, "characteristics") {
      ContainsTransitive(q, "characteristics", "characteristic");
    }
    if Contains(q, "hallmark") {
      assert Contains(q, HallmarkWords[0]);
    }
    if Contains(q, "characteristic") {
      assert Contains(q, HallmarkWords[2]);
    }
  }

  // ---------------------------------------------------------------- shared pieces

  /** doc["metadata"].get("source", default), for mapping metadata */
  function SourceOr(meta: Meta, default: string): string
    requires meta.Mapping?
  {
    if "source" in meta.fields then Render(meta.fields["source"]) else default
  }

  predicate AllMappings(docs: seq<Document>) {
    forall k :: 0 <= k < |docs| ==> docs[k].metadata.Mapping?
  }

  /** One listed document: "- **content**" in the interventions template, "- content" in the
      others, then its source line */
  function Entry(bold: bool, d: Document): string
    requires d.metadata.Mapping?
  {
    (if bold then "- **" + d.content + "**\n" else "- " + d.content + "\n")
      + "  Source: " + SourceOr(d.metadata, "Aging Research") + "\n\n"
  }

  /** The entries of the documents, one after the other */
  function EntryList(bold: bool, docs: seq<Document>): string
    requires AllMappings(docs)
  {
    if docs == [] then ""
    else EntryList(bold, docs[..|docs| - 1]) + Entry(bold, docs[|docs| - 1])
  }

  /** Every document's entry appears in the listing. */
  lemma {:induction false} EntryListContains(bold: bool, docs: seq<Document>, k: nat)
    requires AllMappings(docs) && k < |docs|
    ensures Contains(EntryList(bold, docs), Entry(bold, docs[k]))
  {
    var n := |docs| - 1;
    var prior := EntryList(bold, docs[..n]);
    var last := Entry(bold, docs[n]);
    assert EntryList(bold, docs) == prior + last;
    if k == n {
      ContainsEnd(prior, last);
    } else {
      EntryListContains(bold, docs[..n], k);
      assert docs[..n][k] == docs[k];
      ContainsLeft(prior, last, Entry(bold, docs[k]));
    }
  }

  /** The entry of each document, position by position */
  function Entries(bold: bool, docs: seq<Document>): (r: seq<string>)
    requires AllMappings(docs)
    ensures |r| == |docs| && forall k :: 0 <= k < |docs| ==> r[k] == Entry(bold, docs[k])
  {
    seq(|docs|, k requires 0 <= k < |docs| => Entry(bold, docs[k]))
  }

  /** The listing is the entries of the documents concatenated in context order. */
  lemma {:induction false} EntryListConcat(bold: bool, docs: seq<Document>)
    requires AllMappings(docs)
    ensures EntryList(bold, docs) == Concat(Entries(bold, docs))
  {
    if docs != [] {
      var n := |docs| - 1;
      EntryListConcat(bold, docs[..n]);
      assert Entries(bold, docs) == Entries(bold, docs[..n]) + [Entry(bold, docs[n])];
      ConcatSnoc(Entries(bold, docs[..n]), Entry(bold, docs[n]));
    }
  }

  /** The loop that appends one entry per document to the response */
  method ListEntries(bold: bool, docs: seq<Document>) returns (text: string)
    requires AllMappings(docs)
    ensures text == EntryList(bold, docs)
  {
    text := "";
    var i := 0;
    while i < |docs|
      invariant i <= |docs|
      invariant text == EntryList(bold, docs[..i])
    {
      assert docs[..i + 1][..i] == docs[..i];
      text := text + Entry(bold, docs[i]);
      i := i + 1;
    }
    assert docs[..i] == docs;
  }

  // ---------------------------------------------------------------- the hallmarks template

  const HallmarksHeading: string :=
    "## Hallmarks of Aging\n\nThe scientific understanding of aging has converged on nine hallmarks that contribute to the aging process:\n\n"
  const HallmarksClosing: string :=
    "These hallmarks represent the primary mechanisms that contribute to age-related decline in organisms. Understanding these processes is crucial for developing interventions that may slow or reverse aspects of aging."
  const HallmarksSummary: string :=
    "The key hallmarks include genomic instability, telomere attrition, epigenetic alterations, loss of proteostasis, deregulated nutrient sensing, mitochondrial dysfunction, cellular senescence, stem cell exhaustion, and altered intercellular communication."
  const NoHallmarks: string :=
    "Aging is characterized by several hallmarks, including genomic instability, telomere attrition, and cellular senescence. These processes contribute to the gradual decline in physiological function that we recognize as aging."

  /** The documents whose lower-cased content holds "hallmark", in context order */
  function HallmarkDocs(docs: seq<Document>): (r: seq<Document>)
    ensures forall d :: d in r <==> d in docs && Contains(Lower(d.content), "hallmark")
  {
    if docs == [] then []
    else
      var n := |docs| - 1;
      assert forall d :: d in docs <==> d in docs[..n] || d == docs[n];
      HallmarkDocs(docs[..n]) + (if Contains(Lower(docs[n].content), "hallmark") then [docs[n]] else [])
  }

  /** The hallmark filter keeps context order: filtering a concatenation filters each part. */
  lemma {:induction false} HallmarkDocsAppend(a: seq<Document>, b: seq<Document>)
    ensures HallmarkDocs(a + b) == HallmarkDocs(a) + HallmarkDocs(b)
  {
    if b == [] {
      assert a + b == a;
    } else {
      var n := |b| - 1;
      assert (a + b)[..|a + b| - 1] == a + b[..n];
      assert (a + b)[|a + b| - 1] == b[n];
      HallmarkDocsAppend(a, b[..n]);
    }
  }

  /** next(doc for doc in docs if "nine hallmarks" in its lower-cased content, None) */
  function FirstNine(docs: seq<Document>): (r: Option<Document>)
    ensures r.Some? ==> r.value in docs && Contains(Lower(r.value.content), "nine hallmarks")
    ensures r.None? ==> forall d :: d in docs ==> !Contains(Lower(d.content), "nine hallmarks")
  {
    if docs == [] then None
    else if Contains(Lower(docs[0].content), "nine hallmarks") then Some(docs[0])
    else FirstNine(docs[1..])
  }

  /** The ", "-separated items of the text between its first ':' and the next ':' (or the end),
      stripped as a whole */
  function HallmarkItems(text: string): seq<string>
    requires Contains(text, ":")
  {
    SplitPresent(text, ":");
    SplitOn(Strip(SplitOn(text, ":")[1]), ", ")
  }

  /** Line k of the numbered list */
  function Numbered(k: nat, item: string): string {
    NatToString(k + 1) + ". **" + Strip(item) + "**\n"
  }

  /** The numbered lines of the items, one after the other */
  function NumberedList(items: seq<string>): string {
    if items == [] then ""
    else NumberedList(items[..|items| - 1]) + Numbered(|items| - 1, items[|items| - 1])
  }

  /** Line k of the list for each item k */
  function NumberedLines(items: seq<string>): (r: seq<string>)
    ensures |r| == |items| && forall k :: 0 <= k < |items| ==> r[k] == Numbered(k, items[k])
  {
    seq(|items|, k requires 0 <= k < |items| => Numbered(k, items[k]))
  }

  /** The numbered list is lines 1..n, one per item, in item order. */
  lemma {:induction false} NumberedListConcat(items: seq<string>)
    ensures NumberedList(items) == Concat(NumberedLines(items))
  {
    if items != [] {
      var n := |items| - 1;
      NumberedListConcat(items[..n]);
      assert NumberedLines(items) == NumberedLines(items[..n]) + [Numbered(n, items[n])];
      ConcatSnoc(NumberedLines(items[..n]), Numbered(n, items[n]));
    }
  }

  /** Item k is listed as line k + 1. */
  lemma {:induction false} NumberedListContains(items: seq<string>, k: nat)
    requires k < |items|
    ensures Contains(NumberedList(items), Numbered(k, items[k]))
  {
    var n := |items| - 1;
    var prior := NumberedList(items[..n]);
    var last := Numbered(n, items[n]);
    assert NumberedList(items) == prior + last;
    if k == n {
      ContainsEnd(prior, last);
    } else {
      NumberedListContains(items[..n], k);
      assert items[..n][k] == items[k];
      ContainsLeft(prior, last, Numbered(k, items[k]));
    }
  }

  /** _generate_hallmarks_response */
  function HallmarksResponse(docs: seq<Document>): Option<string> {
    var hd := HallmarkDocs(docs);
    if hd == [] then Some(NoHallmarks)
    else match FirstNine(hd)
      case None => Some(HallmarksHeading + HallmarksSummary)
      case Some(d) =>
        if !Contains(d.content, ":") then Some(HallmarksHeading + d.content)
        else if d.metadata.NotMapping? then None
        else Some(HallmarksHeading + NumberedList(HallmarkItems(d.content))
          + "\nSource: " + SourceOr(d.metadata, "Research on Aging Hallmarks") + "\n\n"
          + HallmarksClosing)
  }

  method HallmarksTemplate(docs: seq<Document>) returns (response: Option<string>)
    ensures response == HallmarksResponse(docs)
  {
    var hd := HallmarkDocs(docs);
    if hd == [] {
      return Some(NoHallmarks);
    }
    var text := HallmarksHeading;
    var found := FirstNine(hd);
    if found.None? {
      return Some(text + HallmarksSummary);
    }
    var d := found.value;
    if !Contains(d.content, ":") {
      return Some(text + d.content);
    }
    var items := HallmarkItems(d.content);
    var listed := "";
    var i := 0;
    while i < |items|
      invariant i <= |items|
      invariant listed == NumberedList(items[..i])
    {
      assert items[..i + 1][..i] == items[..i];
      listed := listed + Numbered(i, items[i]);
      i := i + 1;
    }
    assert items[..i] == items;
    text := text + listed;
    if d.metadata.NotMapping? {
      return None;
    }
    text := text + "\nSource: " + SourceOr(d.metadata, "Research on Aging Hallmarks") + "\n\n";
    return Some(text + HallmarksClosing);
  }

  /** Without a document mentioning hallmarks the answer is the fixed summary sentence; a
      document naming "nine hallmarks" with a ':' is answered by a numbered list holding line
      k + 1 for each item k after the ':'. */
  lemma HallmarksResponseSpec(docs: seq<Document>)
    ensures (forall d :: d in docs ==> !Contains(Lower(d.content), "hallmark")) ==>
      HallmarksResponse(docs) == Some(NoHallmarks)
    ensures var f := FirstNine(HallmarkDocs(docs));
      f.Some? && Contains(f.value.content, ":") && f.value.metadata.Mapping? ==>
        HallmarksResponse(docs).Some? &&
        forall k :: 0 <= k < |HallmarkItems(f.value.content)| ==>
          Contains(HallmarksResponse(docs).value, Numbered(k, HallmarkItems(f.value.content)[k]))
  {
    var hd := HallmarkDocs(docs);
    if hd != [] {
      assert hd[0] in hd;
    }
    var f := FirstNine(hd);
    if f.Some? && Contains(f.value.content, ":") && f.value.metadata.Mapping? {
      var d := f.value;
      var items := HallmarkItems(d.content);
      var source := SourceOr(d.metadata, "Research on Aging Hallmarks");
      var listed := NumberedList(items);
      var r := HallmarksHeading + listed + "\nSource: " + source + "\n\n" + HallmarksClosing;
      assert HallmarksResponse(docs) == Some(r);
      forall k | 0 <= k < |items| ensures Contains(r, Numbered(k, items[k])) {
        var line := Numbered(k, items[k]);
        NumberedListContains(items, k);
        ContainsRight(HallmarksHeading, listed, line);
        ContainsLeft(HallmarksHeading + listed, "\nSource: ", line);
        ContainsLeft(HallmarksHeading + listed + "\nSource: ", source, line);
        ContainsLeft(HallmarksHeading + listed + "\nSource: " + source, "\n\n", line);
        ContainsLeft(HallmarksHeading + listed + "\nSource: " + source + "\n\n", HallmarksClosing, line);
      }
    }
  }

  /** A document naming "nine hallmarks" with a ':' is answered by the heading, the numbered
      lines 1..n of the items after the ':' in order, the source line and the closing text. */
  lemma HallmarksResponseShape(docs: seq<Document>)
    requires var f := FirstNine(HallmarkDocs(docs));
      f.Some? && Contains(f.value.content, ":") && f.value.metadata.Mapping?
    ensures var d := FirstNine(HallmarkDocs(docs)).value;
      HallmarksResponse(docs) ==
        Some(HallmarksHeading + Concat(NumberedLines(HallmarkItems(d.content)))
          + "\nSource: " + SourceOr(d.metadata, "Research on Aging Hallmarks") + "\n\n"
          + HallmarksClosing)
  {
    var hd := HallmarkDocs(docs);
    assert hd != [];
    NumberedListConcat(HallmarkItems(FirstNine(hd).value.content));
  }

  // ---------------------------------------------------------------- interventions and mechanisms

  /** The two templates that list the documents of one family */
  datatype Family = Interventions | Mechanisms

  function Category(f: Family): string {
    match f
    case Interventions => "interventions"
    case Mechanisms => "aging_mechanisms"
  }

  function ContentWords(f: Family): seq<string> {
    match f
    case Interventions => ["intervention", "restrict", "treatment", "therapy", "extend", "lifespan"]
    case Mechanisms => ["mechanism", "pathway", "molecular", "cellular"]
  }

  /** Whether a document belongs to the family: its category is the family's, or its lower-cased
      content holds one of the family's words */
  predicate InFamily(f: Family, d: Document)
    requires d.metadata.Mapping?
  {
    ("category" in d.metadata.fields && d.metadata.fields["category"] == Str(Category(f)))
    || MentionsAny(Lower(d.content), ContentWords(f))
  }

  /** One step of the filter loop: a raising context stays raising, a document whose
      metadata is not a mapping raises, and a family document is appended. */
  function SelectedStep(f: Family, prior: Option<seq<Document>>, last: Document): Option<seq<Document>>
  {
    match prior
    case None => None
    case Some(p) =>
      if last.metadata.NotMapping? then None
      else Some(p + (if InFamily(f, last) then [last] else []))
  }

  /** The family's documents in context order, or None when the filter raises, which it does
      on any document whose metadata is not a mapping */
  function Selected(f: Family, docs: seq<Document>): (r: Option<seq<Document>>)
    ensures r.None? <==> !AllMappings(docs)
    ensures r.Some? ==> forall d :: d in r.value <==> d in docs && InFamily(f, d)
    ensures r.Some? ==> |r.value| <= |docs| && AllMappings(r.value)
  {
    if docs == [] then Some([])
    else
      var n := |docs| - 1;
      var last := docs[n];
      assert forall d :: d in docs <==> d in docs[..n] || d == last;
      assert AllMappings(docs) <==> AllMappings(docs[..n]) && last.metadata.Mapping?;
      var r := SelectedStep(f, Selected(f, docs[..n]), last);
      assert r.Some? ==> forall k :: 0 <= k < |r.value| ==> r.value[k] in r.value;
      r
  }

  /** The selections of two parts of a context, combined: None when either part raises */
  function Both(x: Option<seq<Document>>, y: Option<seq<Document>>): Option<seq<Document>>
  {
    if x.Some? && y.Some? then Some(x.value + y.value) else None
  }

  lemma StepBoth(f: Family, x: Option<seq<Document>>, y: Option<seq<Document>>, last: Document)
    ensures SelectedStep(f, Both(x, y), last) == Both(x, SelectedStep(f, y, last))
  {
    if x.Some? && y.Some? && last.metadata.Mapping? {
      var tail := if InFamily(f, last) then [last] else [];
      assert x.value + y.value + tail == x.value + (y.value + tail);
    }
  }

  /** The family filter keeps context order: on a concatenation it filters each part in turn,
      and it raises when either part raises. */
  lemma {:induction false} SelectedAppend(f: Family, a: seq<Document>, b: seq<Document>)
    ensures Selected(f, a + b) == Both(Selected(f, a), Selected(f, b))
  {
    if b == [] {
      assert a + b == a;
      assert Selected(f, b) == Some([]);
      if Selected(f, a).Some? {
        assert Selected(f, a).value + [] == Selected(f, a).value;
      }
    } else {
      var n := |b| - 1;
      var last := b[n];
      assert (a + b)[..|a + b| - 1] == a + b[..n];
      assert (a + b)[|a + b| - 1] == last;
      SelectedAppend(f, a, b[..n]);
      assert Selected(f, a + b) == SelectedStep(f, Selected(f, a + b[..n]), last);
      assert Selected(f, b) == SelectedStep(f, Selected(f, b[..n]), last);
      StepBoth(f, Selected(f, a), Selected(f, b[..n]), last);
    }
  }

  /** One document is kept exactly when it belongs to the family; it raises when its metadata
      is not a mapping. */
  lemma SelectedSingle(f: Family, d: Document)
    ensures Selected(f, [d]) ==
      if d.metadata.NotMapping? then None
      else Some(if InFamily(f, d) then [d] else [])
  {
    assert [d][..0] == [];
    assert Selected(f, [d]) == SelectedStep(f, Selected(f, []), d);
    if d.metadata.Mapping? {
      assert [] + (if InFamily(f, d) then [d] else []) == if InFamily(f, d) then [d] else [];
    }
  }

  const InterventionsHeading: string :=
    "## Interventions in Aging Research\n\nSeveral interventions have shown promise in extending lifespan or healthspan in model organisms:\n\n"
  const MechanismsHeading: string :=
    "## Molecular and Cellular Mechanisms of Aging\n\n"
  const InterventionsClosing: string :=
    "Research on these interventions is ongoing, with a focus on translating findings from model organisms to potential applications in human aging."
  const MechanismsClosing: string :=
    "These mechanisms interact in complex ways to drive the aging phenotype. Understanding these interactions is a key focus of current aging research."
  const InterventionsFallback: string :=
    "Several interventions have shown promise in aging research, including caloric restriction, rapamycin, senolytics (compounds that eliminate senescent cells), and NAD+ precursors. Research is ongoing to understand how these interventions might be applied to promote healthy aging in humans."
  const MechanismsFallback: string :=
    "Aging involves complex molecular and cellular mechanisms, including accumulation of DNA damage, protein misfolding, cellular senescence, and chronic inflammation. These processes interact to drive the physiological changes associated with aging."

  function Heading(f: Family): string {
    match f
    case Interventions => InterventionsHeading
    case Mechanisms => MechanismsHeading
  }

  function Closing(f: Family): string {
    match f
    case Interventions => InterventionsClosing
    case Mechanisms => MechanismsClosing
  }

  function Fallback(f: Family): string {
    match f
    case Interventions => InterventionsFallback
    case Mechanisms => MechanismsFallback
  }

  /** _generate_interventions_response and _generate_mechanisms_response */
  function FamilyResponse(f: Family, docs: seq<Document>): Option<string> {
    match Selected(f, docs)
    case None => None
    case Some(sel) =>
      if sel == [] then Some(Fallback(f))
      else Some(Heading(f) + EntryList(f == Interventions, sel) + Closing(f))
  }

  method FamilyTemplate(f: Family, docs: seq<Document>) returns (response: Option<string>)
    ensures response == FamilyResponse(f, docs)
  {
    var selected := Selected(f, docs);
    if selected.None? {
      return None;
    }
    var sel := selected.value;
    if sel == [] {
      return Some(Fallback(f));
    }
    var text := Heading(f);
    var listed := ListEntries(f == Interventions, sel);
    text := text + listed;
    return Some(text + Closing(f));
  }

  /** A family template raises exactly when some context metadata is not a mapping. */
  lemma FamilyResponseRaises(f: Family, docs: seq<Document>)
    ensures FamilyResponse(f, docs).None? <==> !AllMappings(docs)
  {
  }

  /** With no document of the family in context, the template gives its fixed fallback text. */
  lemma FamilyResponseFallback(f: Family, docs: seq<Document>)
    requires AllMappings(docs) && forall d :: d in docs ==> !InFamily(f, d)
    ensures FamilyResponse(f, docs) == Some(Fallback(f))
  {
    var sel := Selected(f, docs).value;
    assert forall k :: 0 <= k < |sel| ==> sel[k] in sel;
  }

  /** Every document of the family is listed, with its source line. */
  lemma FamilyResponseLists(f: Family, docs: seq<Document>, d: Document)
    requires AllMappings(docs) && d in docs && InFamily(f, d)
    ensures Contains(FamilyResponse(f, docs).value, Entry(f == Interventions, d))
  {
    var sel := Selected(f, docs).value;
    assert d in sel;
    var k :| 0 <= k < |sel| && sel[k] == d;
    FamilyListed(f, sel, k);
  }

  /** With a document of the family in context, the answer is the heading, the entries of
      exactly the family's documents in context order, and the closing text. */
  lemma FamilyResponseShape(f: Family, docs: seq<Document>)
    requires AllMappings(docs) && exists d :: d in docs && InFamily(f, d)
    ensures Selected(f, docs).Some?
    ensures FamilyResponse(f, docs) ==
      Some(Heading(f) + Concat(Entries(f == Interventions, Selected(f, docs).value)) + Closing(f))
  {
    var sel := Selected(f, docs).value;
    var d :| d in docs && InFamily(f, d);
    assert d in sel;
    EntryListConcat(f == Interventions, sel);
  }

  /** Entry k of the selection appears in the family response built from it */
  lemma FamilyListed(f: Family, sel: seq<Document>, k: nat)
    requires AllMappings(sel) && k < |sel|
    ensures Contains(Heading(f) + EntryList(f == Interventions, sel) + Closing(f),
                     Entry(f == Interventions, sel[k]))
  {
    var bold := f == Interventions;
    var heading, listed, closing := Heading(f), EntryList(bold, sel), Closing(f);
    EntryListContains(bold, sel, k);
    ContainsRight(heading, listed, Entry(bold, sel[k]));
    ContainsLeft(heading + listed, closing, Entry(bold, sel[k]));
  }

  // ---------------------------------------------------------------- the default template

  const DefaultHeading: string := "## Information on Aging Biology\n\n"
  const DefaultClosing: string :=
    "This information represents current understanding in the field of aging biology and is subject to revision as new research emerges."

  function Preamble(query: string): string {
    "Based on your query about " + ("'" + query + "'") + ", here's what current research indicates:\n\n"
  }

  /** _generate_default_response: every context document, in order */
  function DefaultResponse(query: string, docs: seq<Document>): Option<string> {
    if !AllMappings(docs) then None
    else Some(DefaultHeading + Preamble(query) + EntryList(false, docs) + DefaultClosing)
  }

  method DefaultTemplate(query: string, docs: seq<Document>) returns (response: Option<string>)
    ensures response == DefaultResponse(query, docs)
  {
    var text := DefaultHeading + Preamble(query);
    var k := 0;
    while k < |docs|
      invariant k <= |docs|
      invariant AllMappings(docs[..k])
    {
      if docs[k].metadata.NotMapping? {
        return None;
      }
      k := k + 1;
    }
    assert docs[..k] == docs;
    var listed := ListEntries(false, docs);
    text := text + listed;
    return Some(text + DefaultClosing);
  }

  /** The default answer quotes the query and lists every context document with its source. */
  lemma DefaultResponseSpec(query: string, docs: seq<Document>)
    requires AllMappings(docs)
    ensures DefaultResponse(query, docs).Some?
    ensures Contains(DefaultResponse(query, docs).value, "'" + query + "'")
    ensures forall k :: 0 <= k < |docs| ==>
      Contains(DefaultResponse(query, docs).value, Entry(false, docs[k]))
  {
    var quoted := "'" + query + "'";
    var listed := EntryList(false, docs);
    var r := DefaultHeading + Preamble(query) + listed + DefaultClosing;
    assert DefaultResponse(query, docs) == Some(r);
    ContainsInfix("Based on your query about ", quoted, ", here's what current research indicates:\n\n");
    ContainsRight(DefaultHeading, Preamble(query), quoted);
    ContainsLeft(DefaultHeading + Preamble(query), listed, quoted);
    ContainsLeft(DefaultHeading + Preamble(query) + listed, DefaultClosing, quoted);
    forall k | 0 <= k < |docs| ensures Contains(r, Entry(false, docs[k])) {
      EntryListContains(false, docs, k);
      ContainsRight(DefaultHeading + Preamble(query), listed, Entry(false, docs[k]));
      ContainsLeft(DefaultHeading + Preamble(query) + listed, DefaultClosing, Entry(false, docs[k]));
    }
  }

  /** The default answer is the heading, the preamble quoting the query, the entries of every
      context document in context order, and the closing text. */
  lemma DefaultResponseShape(query: string, docs: seq<Document>)
    requires AllMappings(docs)
    ensures DefaultResponse(query, docs) ==
      Some(DefaultHeading + Preamble(query) + Concat(Entries(false, docs)) + DefaultClosing)
  {
    EntryListConcat(false, docs);
  }

  // ---------------------------------------------------------------- generate_response

  /** generate_response: the fixed message for an empty context, otherwise the template the
      query's keywords pick */
  function Response(query: string, docs: seq<Document>): (r: Option<string>)
    ensures docs == [] ==> r == Some(NoInformation)
  {
    if docs == [] then Some(NoInformation)
    else match Classify(query)
      case HallmarksTopic => HallmarksResponse(docs)
      case InterventionsTopic => FamilyResponse(Interventions, docs)
      case MechanismsTopic => FamilyResponse(Mechanisms, docs)
      case GeneralTopic => DefaultResponse(query, docs)
  }

  method GenerateResponse(query: string, docs: seq<Document>) returns (response: Option<string>)
    ensures response == Response(query, docs)
  {
    if docs == [] {
      return Some(NoInformation);
    }
    var keyTerms := ExtractKeyTerms(query);
    match Classify(query) {
      case HallmarksTopic => response := HallmarksTemplate(docs);
      case InterventionsTopic => response := FamilyTemplate(Interventions, docs);
      case MechanismsTopic => response := FamilyTemplate(Mechanisms, docs);
      case GeneralTopic => response := DefaultTemplate(query, docs);
    }
  }

  /** With only mapping metadata in the context, the responder always answers. */
  lemma ResponseTotal(query: string, docs: seq<Document>)
    requires AllMappings(docs)
    ensures Response(query, docs).Some?
  {
    if docs != [] {
      match Classify(query) {
        case HallmarksTopic =>
          var hd := HallmarkDocs(docs);
          var f := FirstNine(hd);
          if hd != [] && f.Some? {
            assert f.value in docs;
            var k :| 0 <= k < |docs| && docs[k] == f.value;
          }
        case InterventionsTopic => FamilyResponseRaises(Interventions, docs);
        case MechanismsTopic => FamilyResponseRaises(Mechanisms, docs);
        case GeneralTopic =>
      }
    }
  }

  /** Whatever the template, an answer is never the empty string. */
  lemma ResponseNonEmpty(query: string, docs: seq<Document>)
    requires Response(query, docs).Some?
    ensures Response(query, docs).value != ""
  {
    assert |NoInformation| > 0 && |NoHallmarks| > 0 && |HallmarksHeading| > 0;
    assert |DefaultHeading| > 0;
    assert |InterventionsHeading| > 0 && |MechanismsHeading| > 0;
    assert |InterventionsFallback| > 0 && |MechanismsFallback| > 0;
  }
}

/** The document loaders: the paragraph chunker and the text-file loader, the JSON loader and
    the simulated PubMed loader. Whether a file exists and what reading or parsing it gives
    are parameters. */
module Loaders {
  import opened Text
  import opened Documents

  // ---------------------------------------------------------------- _chunk_text

  /** The paragraph separator */
  const Sep: string := "\n\n"

  /** Paragraphs from..to - 1 (of the split text) were packed into one chunk. */
  datatype Run = Run(from: nat, to: nat)

  /** The chunker's state after some paragraphs: the chunks emitted, the chunk being built, and,
      for the proofs, the paragraphs each emitted chunk came from and the first paragraph of
      the chunk being built */
  datatype Packing = Packing(chunks: seq<string>, current: string, runs: seq<Run>, start: nat)

  /** text.split("\n\n") */
  function Paragraphs(text: string): (ps: seq<string>)
    ensures Join(ps, Sep) == text
  {
    SplitJoinRoundTrip(text, Sep);
    SplitOn(text, Sep)
  }

  /** One pass of the loop body for paragraph i: close the chunk when the paragraph does not fit
      and the chunk is not empty, otherwise extend the chunk (or start it) */
  function PackStep(s: Packing, p: string, i: nat, maxChunkSize: int): Packing {
    if |s.current| + |p| > maxChunkSize && s.current != "" then
      Closed(s, p, i)
    else if s.current != "" then
      Packing(s.chunks, s.current + Sep + p, s.runs, s.start)
    else
      Packing(s.chunks, p, s.runs, i)
  }

  /** The state after the first n paragraphs */
  function PackUpTo(ps: seq<string>, n: nat, maxChunkSize: int): Packing
    requires n <= |ps|
  {
    if n == 0 then Packing([], "", [], 0)
    else PackStep(PackUpTo(ps, n - 1, maxChunkSize), ps[n - 1], n - 1, maxChunkSize)
  }

  /** After the loop: the last chunk, when not empty, is emitted too */
  function Finish(s: Packing, n: nat): Packing {
    if s.current != "" then Packing(s.chunks + [Strip(s.current)], "", s.runs + [Run(s.start, n)], n)
    else s
  }

  /** _chunk_text's result */
  function Chunked(text: string, maxChunkSize: int): seq<string> {
    var ps := Paragraphs(text);
    Finish(PackUpTo(ps, |ps|, maxChunkSize), |ps|).chunks
  }

  /** The paragraphs each chunk of Chunked came from */
  function ChunkRuns(text: string, maxChunkSize: int): seq<Run> {
    var ps := Paragraphs(text);
    Finish(PackUpTo(ps, |ps|, maxChunkSize), |ps|).runs
  }

  /** The paragraphs of a run, joined back as they stood in the text */
  function RunText(ps: seq<string>, r: Run): string
    requires r.from <= r.to <= |ps|
  {
    Join(ps[r.from..r.to], Sep)
  }

  /** Runs are non-empty and end by the given position. */
  predicate RunsBefore(runs: seq<Run>, start: nat) {
    forall k :: 0 <= k < |runs| ==> runs[k].from < runs[k].to <= start
  }

  /** Runs lie in text order without overlapping. */
  predicate RunsOrdered(runs: seq<Run>) {
    forall k, l :: 0 <= k < l < |runs| ==> runs[k].to <= runs[l].from
  }

  /** The stripped text of each run, in order */
  function ChunkTexts(ps: seq<string>, runs: seq<Run>): (texts: seq<string>)
    requires forall k :: 0 <= k < |runs| ==> runs[k].from <= runs[k].to <= |ps|
    ensures |texts| == |runs|
  {
    if runs == [] then []
    else
      var n := |runs| - 1;
      ChunkTexts(ps, runs[..n]) + [Strip(RunText(ps, runs[n]))]
  }

  /** Text k is the stripped text of run k. */
  lemma {:induction false} ChunkTextsAt(ps: seq<string>, runs: seq<Run>, k: nat)
    requires forall k :: 0 <= k < |runs| ==> runs[k].from <= runs[k].to <= |ps|
    requires k < |runs|
    ensures ChunkTexts(ps, runs)[k] == Strip(RunText(ps, runs[k]))
  {
    var n := |runs| - 1;
    if k < n {
      ChunkTextsAt(ps, runs[..n], k);
      assert runs[..n][k] == runs[k];
    }
  }

  /** One chunk per run, each the stripped text of its run */
  predicate ChunksOfRuns(ps: seq<string>, runs: seq<Run>, chunks: seq<string>)
    requires forall k :: 0 <= k < |runs| ==> runs[k].from <= runs[k].to <= |ps|
  {
    chunks == ChunkTexts(ps, runs)
  }

  /** Emitted chunks: one per run, each the stripped text of its run; runs are non-empty, lie
      in order without overlapping, and end before the chunk being built begins */
  predicate RunsShape(ps: seq<string>, s: Packing, n: nat)
    requires n <= |ps|
  {
    s.start <= n && RunsBefore(s.runs, s.start) && RunsOrdered(s.runs) && ChunksOfRuns(ps, s.runs, s.chunks)
  }

  /** A chunk of two or more paragraphs is at most two characters over the limit. */
  predicate Bounded(ps: seq<string>, s: Packing, n: nat, maxChunkSize: int)
    requires n <= |ps| && RunsShape(ps, s, n)
  {
    (forall k :: 0 <= k < |s.runs| && s.runs[k].to - s.runs[k].from >= 2 ==>
      |RunText(ps, s.runs[k])| <= maxChunkSize + 2) &&
    (n - s.start >= 2 ==> |s.current| <= maxChunkSize + 2)
  }

  /** No non-empty paragraph is lost: each lies in an emitted run or in the chunk being built. */
  predicate NothingLost(ps: seq<string>, s: Packing, n: nat)
    requires n <= |ps|
  {
    forall j :: 0 <= j < n && ps[j] != "" ==>
      s.start <= j || exists k :: 0 <= k < |s.runs| && s.runs[k].from <= j < s.runs[k].to
  }

  predicate Packed(ps: seq<string>, s: Packing, n: nat, maxChunkSize: int)
    requires n <= |ps|
  {
    RunsShape(ps, s, n) && Bounded(ps, s, n, maxChunkSize) && NothingLost(ps, s, n) &&
    s.current == Join(ps[s.start..n], Sep)
  }

  /** Joining one more paragraph onto a non-empty run */
  lemma JoinExtend(ps: seq<string>, a: nat, n: nat)
    requires a < n < |ps|
    ensures Join(ps[a..n + 1], Sep) == Join(ps[a..n], Sep) + Sep + ps[n]
  {
    assert ps[a..n + 1][..n - a] == ps[a..n];
  }

  /** The state after closing the chunk being built */
  function Closed(s: Packing, p: string, n: nat): Packing {
    Packing(s.chunks + [Strip(s.current)], p, s.runs + [Run(s.start, n)], n)
  }

  lemma AppendBefore(runs: seq<Run>, start: nat, e: nat, next: nat)
    requires RunsBefore(runs, start) && start < e <= next
    ensures RunsBefore(runs + [Run(start, e)], next)
  {
    var t := runs + [Run(start, e)];
    forall k | 0 <= k < |t| ensures t[k].from < t[k].to <= next {
      if k < |runs| {
        assert t[k] == runs[k];
      }
    }
  }

  lemma AppendOrdered(runs: seq<Run>, start: nat, e: nat)
    requires RunsBefore(runs, start) && RunsOrdered(runs)
    ensures RunsOrdered(runs + [Run(start, e)])
  {
    var t := runs + [Run(start, e)];
    forall k, l | 0 <= k < l < |t| ensures t[k].to <= t[l].from {
      assert t[k] == runs[k];
      if l < |runs| {
        assert t[l] == runs[l];
      }
    }
  }

  lemma AppendChunk(ps: seq<string>, runs: seq<Run>, chunks: seq<string>, r: Run)
    requires forall k :: 0 <= k < |runs| ==> runs[k].from <= runs[k].to <= |ps|
    requires r.from <= r.to <= |ps| && ChunksOfRuns(ps, runs, chunks)
    ensures ChunksOfRuns(ps, runs + [r], chunks + [Strip(RunText(ps, r))])
  {
    assert (runs + [r])[..|runs|] == runs;
  }

  /** Emitting one more run, which starts where the chunk being built started, keeps the runs
      well formed. */
  lemma AppendRun(ps: seq<string>, s: Packing, n: nat, t: Packing, e: nat, m: nat)
    requires n <= |ps| && m <= |ps| && RunsShape(ps, s, n)
    requires s.start < e <= t.start <= m
    requires t.runs == s.runs + [Run(s.start, e)]
    requires t.chunks == s.chunks + [Strip(RunText(ps, Run(s.start, e)))]
    ensures RunsShape(ps, t, m)
  {
    AppendBefore(s.runs, s.start, e, t.start);
    AppendOrdered(s.runs, s.start, e);
    AppendChunk(ps, s.runs, s.chunks, Run(s.start, e));
  }

  lemma CloseShape(ps: seq<string>, s: Packing, n: nat, maxChunkSize: int)
    requires n < |ps| && Packed(ps, s, n, maxChunkSize) && s.current != ""
    ensures s.start < n && RunsShape(ps, Closed(s, ps[n], n), n + 1)
  {
    assert s.start < n;
    AppendRun(ps, s, n, Closed(s, ps[n], n), n, n + 1);
  }

  lemma CloseBounded(ps: seq<string>, s: Packing, n: nat, maxChunkSize: int)
    requires n < |ps| && Packed(ps, s, n, maxChunkSize) && s.current != ""
    requires RunsShape(ps, Closed(s, ps[n], n), n + 1)
    ensures Bounded(ps, Closed(s, ps[n], n), n + 1, maxChunkSize)
  {
    var t := Closed(s, ps[n], n);
    assert forall k :: 0 <= k < |s.runs| ==> t.runs[k] == s.runs[k];
    assert t.runs[|s.runs|] == Run(s.start, n);
  }

  lemma CloseLost(ps: seq<string>, s: Packing, n: nat, maxChunkSize: int)
    requires n < |ps| && Packed(ps, s, n, maxChunkSize) && s.current != ""
    ensures NothingLost(ps, Closed(s, ps[n], n), n + 1)
  {
    var t := Closed(s, ps[n], n);
    forall j | 0 <= j < n + 1 && ps[j] != ""
      ensures t.start <= j || exists k :: 0 <= k < |t.runs| && t.runs[k].from <= j < t.runs[k].to
    {
      if j < s.start {
        var k :| 0 <= k < |s.runs| && s.runs[k].from <= j < s.runs[k].to;
        assert t.runs[k] == s.runs[k];
      } else if j < n {
        assert t.runs[|s.runs|] == Run(s.start, n);
      }
    }
  }

  /** Closing the chunk keeps the packing well formed. */
  lemma StepClose(ps: seq<string>, s: Packing, n: nat, maxChunkSize: int)
    requires n < |ps| && Packed(ps, s, n, maxChunkSize) && s.current != ""
    ensures Packed(ps, Closed(s, ps[n], n), n + 1, maxChunkSize)
  {
    CloseShape(ps, s, n, maxChunkSize);
    CloseBounded(ps, s, n, maxChunkSize);
    CloseLost(ps, s, n, maxChunkSize);
    assert ps[n..n + 1] == [ps[n]];
  }

  /** Extending the chunk keeps the packing well formed. */
  lemma StepExtend(ps: seq<string>, s: Packing, n: nat, maxChunkSize: int)
    requires n < |ps| && Packed(ps, s, n, maxChunkSize) && s.current != ""
    requires |s.current| + |ps[n]| <= maxChunkSize
    ensures Packed(ps, Packing(s.chunks, s.current + Sep + ps[n], s.runs, s.start), n + 1, maxChunkSize)
  {
    assert s.start < n;
    JoinExtend(ps, s.start, n);
  }

  /** Starting a chunk on an empty current chunk keeps the packing well formed: the paragraphs
      passed over were all empty. */
  lemma StepStart(ps: seq<string>, s: Packing, n: nat, maxChunkSize: int)
    requires n < |ps| && Packed(ps, s, n, maxChunkSize) && s.current == ""
    ensures Packed(ps, Packing(s.chunks, ps[n], s.runs, n), n + 1, maxChunkSize)
  {
    var t := Packing(s.chunks, ps[n], s.runs, n);
    JoinEmpty(ps[s.start..n], Sep);
    assert ps[n..n + 1] == [ps[n]];
    forall j | 0 <= j < n + 1 && ps[j] != ""
      ensures t.start <= j || exists k :: 0 <= k < |t.runs| && t.runs[k].from <= j < t.runs[k].to
    {
    }
  }

  /** One pass of the loop keeps the packing well formed. */
  lemma StepPacked(ps: seq<string>, s: Packing, n: nat, maxChunkSize: int)
    requires n < |ps| && Packed(ps, s, n, maxChunkSize)
    ensures Packed(ps, PackStep(s, ps[n], n, maxChunkSize), n + 1, maxChunkSize)
  {
    if |s.current| + |ps[n]| > maxChunkSize && s.current != "" {
      StepClose(ps, s, n, maxChunkSize);
    } else if s.current != "" {
      StepExtend(ps, s, n, maxChunkSize);
    } else {
      StepStart(ps, s, n, maxChunkSize);
    }
  }

  /** The packing before the loop is well formed. */
  lemma PackStart(ps: seq<string>, maxChunkSize: int)
    ensures Packed(ps, PackUpTo(ps, 0, maxChunkSize), 0, maxChunkSize)
  {
    assert ps[0..0] == [];
  }

  /** The loop keeps the packing well formed. */
  lemma {:induction false} PackInvariant(ps: seq<string>, n: nat, maxChunkSize: int)
    requires n <= |ps|
    ensures Packed(ps, PackUpTo(ps, n, maxChunkSize), n, maxChunkSize)
  {
    if n == 0 {
      PackStart(ps, maxChunkSize);
    } else {
      var k := n - 1;
      var s := PackUpTo(ps, k, maxChunkSize);
      PackInvariant(ps, k, maxChunkSize);
      StepPacked(ps, s, k, maxChunkSize);
      assert k + 1 == n;
      assert PackUpTo(ps, n, maxChunkSize) == PackStep(s, ps[k], k, maxChunkSize);
    }
  }

  /** The last chunk keeps the runs well formed. */
  lemma FinishShape(ps: seq<string>, s: Packing, maxChunkSize: int)
    requires Packed(ps, s, |ps|, maxChunkSize)
    ensures RunsShape(ps, Finish(s, |ps|), |ps|)
  {
    if s.current != "" {
      assert s.start < |ps|;
      AppendRun(ps, s, |ps|, Finish(s, |ps|), |ps|, |ps|);
    }
  }

  /** The last chunk keeps the multi-paragraph chunks within the size bound. */
  lemma FinishBounded(ps: seq<string>, s: Packing, maxChunkSize: int)
    requires Packed(ps, s, |ps|, maxChunkSize) && RunsShape(ps, Finish(s, |ps|), |ps|)
    ensures Bounded(ps, Finish(s, |ps|), |ps|, maxChunkSize)
  {
    if s.current != "" {
      var f := Finish(s, |ps|);
      assert forall k :: 0 <= k < |s.runs| ==> f.runs[k] == s.runs[k];
      assert f.runs[|s.runs|] == Run(s.start, |ps|);
    }
  }

  /** After the last chunk every non-empty paragraph lies in a run: a chunk still being built
      becomes the last run. */
  lemma FinishCoversOpen(ps: seq<string>, s: Packing)
    requires s.start <= |ps| && NothingLost(ps, s, |ps|) && s.current != ""
    requires s.current == Join(ps[s.start..|ps|], Sep)
    ensures var f := Finish(s, |ps|);
      forall j :: 0 <= j < |ps| && ps[j] != "" ==>
        exists k :: 0 <= k < |f.runs| && f.runs[k].from <= j < f.runs[k].to
  {
    var n := |ps|;
    var f := Finish(s, n);
    assert f.runs[|s.runs|] == Run(s.start, n);
    forall j | 0 <= j < n && ps[j] != ""
      ensures exists k :: 0 <= k < |f.runs| && f.runs[k].from <= j < f.runs[k].to
    {
      if j < s.start {
        var k :| 0 <= k < |s.runs| && s.runs[k].from <= j < s.runs[k].to;
        assert f.runs[k] == s.runs[k];
      }
    }
  }

  /** After the last chunk every non-empty paragraph lies in a run: an empty chunk still being
      built holds only empty paragraphs. */
  lemma FinishCoversEmpty(ps: seq<string>, s: Packing)
    requires s.start <= |ps| && NothingLost(ps, s, |ps|) && s.current == ""
    requires s.current == Join(ps[s.start..|ps|], Sep)
    ensures var f := Finish(s, |ps|);
      forall j :: 0 <= j < |ps| && ps[j] != "" ==>
        exists k :: 0 <= k < |f.runs| && f.runs[k].from <= j < f.runs[k].to
  {
    var n := |ps|;
    JoinEmpty(ps[s.start..n], Sep);
    assert forall i :: s.start <= i < n ==> ps[i] == ps[s.start..n][i - s.start];
    assert Finish(s, n) == s;
    forall j | 0 <= j < n && ps[j] != ""
      ensures exists k :: 0 <= k < |s.runs| && s.runs[k].from <= j < s.runs[k].to
    {
      assert j < s.start;
    }
  }

  /** The state after the loop and the last chunk */
  function Final(ps: seq<string>, maxChunkSize: int): Packing {
    Finish(PackUpTo(ps, |ps|, maxChunkSize), |ps|)
  }

  /** The final runs are well formed and the multi-paragraph ones within the size bound. */
  lemma FinalShape(ps: seq<string>, maxChunkSize: int)
    ensures RunsShape(ps, Final(ps, maxChunkSize), |ps|)
    ensures Bounded(ps, Final(ps, maxChunkSize), |ps|, maxChunkSize)
  {
    var s := PackUpTo(ps, |ps|, maxChunkSize);
    PackInvariant(ps, |ps|, maxChunkSize);
    FinishShape(ps, s, maxChunkSize);
    FinishBounded(ps, s, maxChunkSize);
  }

  /** Every non-empty paragraph lies in a final run. */
  lemma FinalCovers(ps: seq<string>, maxChunkSize: int)
    ensures var f := Final(ps, maxChunkSize);
      forall j :: 0 <= j < |ps| && ps[j] != "" ==>
        exists k :: 0 <= k < |f.runs| && f.runs[k].from <= j < f.runs[k].to
  {
    var s := PackUpTo(ps, |ps|, maxChunkSize);
    PackInvariant(ps, |ps|, maxChunkSize);
    assert Final(ps, maxChunkSize) == Finish(s, |ps|);
    if s.current != "" {
      FinishCoversOpen(ps, s);
    } else {
      FinishCoversEmpty(ps, s);
    }
  }

  /** Chunks are the stripped texts of runs of consecutive paragraphs, in text order, never
      overlapping; a chunk of two or more paragraphs is at most max_chunk_size + 2 characters
      before stripping; and every non-empty paragraph lands in a chunk. */
  lemma ChunkSpec(text: string, maxChunkSize: int)
    ensures var ps := Paragraphs(text);
      var chunks := Chunked(text, maxChunkSize);
      var runs := ChunkRuns(text, maxChunkSize);
      |runs| == |chunks| &&
      (forall k :: 0 <= k < |runs| ==>
        runs[k].from < runs[k].to <= |ps| && chunks[k] == Strip(RunText(ps, runs[k]))) &&
      (forall k, l :: 0 <= k < l < |runs| ==> runs[k].to <= runs[l].from) &&
      (forall k :: 0 <= k < |runs| && runs[k].to - runs[k].from >= 2 ==>
        |RunText(ps, runs[k])| <= maxChunkSize + 2) &&
      (forall j :: 0 <= j < |ps| && ps[j] != "" ==>
        exists k :: 0 <= k < |runs| && runs[k].from <= j < runs[k].to)
  {
    var ps := Paragraphs(text);
    var f := Final(ps, maxChunkSize);
    FinalShape(ps, maxChunkSize);
    FinalCovers(ps, maxChunkSize);
    forall k | 0 <= k < |f.runs| ensures f.chunks[k] == Strip(RunText(ps, f.runs[k])) {
      ChunkTextsAt(ps, f.runs, k);
    }
  }

  /** The empty text gives no chunk. */
  lemma ChunkEmpty(maxChunkSize: int)
    ensures Chunked("", maxChunkSize) == []
  {
    SplitAbsent("", Sep);
    assert Paragraphs("") == [""];
    assert PackUpTo([""], 1, maxChunkSize) == Packing([], "", [], 0);
  }

  /** A non-empty text without a blank line gives exactly one chunk, the stripped text. */
  lemma ChunkSingle(text: string, maxChunkSize: int)
    requires text != "" && !Contains(text, Sep)
    ensures Chunked(text, maxChunkSize) == [Strip(text)]
  {
    SplitAbsent(text, Sep);
    assert Paragraphs(text) == [text];
    assert PackUpTo([text], 1, maxChunkSize) == Packing([], text, [], 0);
  }

  /** _chunk_text */
  method ChunkText(text: string, maxChunkSize: int) returns (chunks: seq<string>)
    ensures chunks == Chunked(text, maxChunkSize)
  {
    var paragraphs := Paragraphs(text);
    chunks := [];
    var current := "";
    for i := 0 to |paragraphs|
      invariant chunks == PackUpTo(paragraphs, i, maxChunkSize).chunks
      invariant current == PackUpTo(paragraphs, i, maxChunkSize).current
    {
      var paragraph := paragraphs[i];
      if |current| + |paragraph| > maxChunkSize && current != "" {
        chunks := chunks + [Strip(current)];
        current := paragraph;
      } else if current != "" {
        current := current + Sep + paragraph;
      } else {
        current := paragraph;
      }
    }
    if current != "" {
      chunks := chunks + [Strip(current)];
    }
  }

  // ---------------------------------------------------------------- TextFileLoader

  /** The default chunk size of _chunk_text */
  const DefaultChunkSize: int := 1000

  /** The record for chunk i of the file: id "{stem}_{i}", metadata {source, chunk} */
  function ChunkRecord(path: string, stem: string, i: nat, chunk: string): Record {
    Record(Some(stem + "_" + NatToString(i)), chunk,
           Mapping(map["source" := Str(path), "chunk" := Int(i)]))
  }

  function ChunkRecords(path: string, stem: string, chunks: seq<string>): seq<Record> {
    seq(|chunks|, i requires 0 <= i < |chunks| => ChunkRecord(path, stem, i, chunks[i]))
  }

  /** TextFileLoader.load's result. `path` is str(Path(source_path)) and `stem` its stem;
      `read` is the file's text, or None when opening or reading it raises. */
  function TextFileDocuments(path: string, stem: string, exists_: bool, read: Option<string>): seq<Record> {
    if !exists_ || read.None? then []
    else ChunkRecords(path, stem, Chunked(read.value, DefaultChunkSize))
  }

  /** One record per chunk, in chunk order, with distinct ids "{stem}_{i}" and metadata
      {source: path, chunk: i}; a missing or unreadable file gives none. */
  lemma TextFileDocumentsSpec(path: string, stem: string, exists_: bool, read: Option<string>)
    ensures var docs := TextFileDocuments(path, stem, exists_, read);
      (!exists_ || read.None? ==> docs == []) &&
      (exists_ && read.Some? ==>
        var chunks := Chunked(read.value, DefaultChunkSize);
        |docs| == |chunks| &&
        forall i :: 0 <= i < |docs| ==>
          docs[i].content == chunks[i] && docs[i].id == Some(stem + "_" + NatToString(i)) &&
          docs[i].metadata == Mapping(map["source" := Str(path), "chunk" := Int(i)]))
    ensures var docs := TextFileDocuments(path, stem, exists_, read);
      forall i, j :: 0 <= i < j < |docs| ==> docs[i].id != docs[j].id
  {
    var docs := TextFileDocuments(path, stem, exists_, read);
    forall i, j | 0 <= i < j < |docs| ensures docs[i].id != docs[j].id {
      NumberedNamesDistinct(stem + "_", i, j);
    }
  }

  /** TextFileLoader.load */
  method TextFileLoad(path: string, stem: string, exists_: bool, read: Option<string>)
    returns (documents: seq<Record>)
    ensures documents == TextFileDocuments(path, stem, exists_, read)
  {
    if !exists_ {
      return [];
    }
    if read.None? {
      return [];
    }
    var chunks := ChunkText(read.value, DefaultChunkSize);
    documents := [];
    for i := 0 to |chunks|
      invariant documents == ChunkRecords(path, stem, chunks)[..i]
    {
      documents := documents + [ChunkRecord(path, stem, i, chunks[i])];
    }
  }

  // ---------------------------------------------------------------- JsonLoader

  /** An element of the parsed JSON: an object with its "content", "metadata" and "id" entries
      (None when the key is absent), or any other JSON value */
  datatype JsonItem = Object(content: Option<string>, metadata: Option<Meta>, id: Option<string>)
                    | NotObject

  /** The parsed file: a list of items, or a single value */
  datatype JsonData = ListOf(items: seq<JsonItem>) | Single(item: JsonItem)

  /** item.get("content", "") */
  function ContentOf(item: JsonItem): string
    requires item.Object?
  {
    if item.content.Some? then item.content.value else ""
  }

  /** item.get("id", fallbackId) */
  function IdOf(item: JsonItem, fallbackId: string): string
    requires item.Object?
  {
    if item.id.Some? then item.id.value else fallbackId
  }

  /** The record for an item, or None when processing it raises: `.get` on a non-object, or
      setting "source" on metadata that is not an object. `fallbackId` is the id used when the
      item has no "id". */
  function ItemRecord(path: string, item: JsonItem, fallbackId: string): (r: Option<Record>)
    ensures r.Some? <==> item.Object? && (item.metadata.None? || item.metadata.value.Mapping?)
    ensures r.Some? ==>
      r.value.content == ContentOf(item) && r.value.id == Some(IdOf(item, fallbackId)) &&
      r.value.metadata.Mapping? && "source" in r.value.metadata.fields &&
      r.value.metadata.fields["source"] == Str(path)
    ensures r.Some? && item.metadata.Some? ==>
      r.value.metadata.fields == item.metadata.value.fields["source" := Str(path)]
    ensures r.Some? && item.metadata.None? ==>
      r.value.metadata.fields == map["source" := Str(path)]
  {
    match item
    case NotObject => None
    case Object(_, metadata, _) =>
      match metadata
      case None => Some(Record(Some(IdOf(item, fallbackId)), ContentOf(item), Mapping(map["source" := Str(path)])))
      case Some(NotMapping) => None
      case Some(Mapping(m)) => Some(Record(Some(IdOf(item, fallbackId)), ContentOf(item), Mapping(m["source" := Str(path)])))
  }

  /** The records of the items of a list, skipping those that raise; the fallback id of item i
      is "{stem}_{i}" */
  function ListRecords(path: string, stem: string, items: seq<JsonItem>): (r: seq<Record>)
    ensures |r| <= |items|
  {
    if items == [] then []
    else
      var n := |items| - 1;
      ListRecords(path, stem, items[..n]) +
        match ItemRecord(path, items[n], stem + "_" + NatToString(n))
        case None => []
        case Some(rec) => [rec]
  }

  /** The positions of the items of a list that give a record, in increasing order */
  function Surviving(path: string, stem: string, items: seq<JsonItem>): (ix: seq<nat>)
    ensures forall k :: 0 <= k < |ix| ==> ix[k] < |items|
    ensures forall k, l :: 0 <= k < l < |ix| ==> ix[k] < ix[l]
    ensures forall i :: 0 <= i < |items| ==>
      (i in ix <==> ItemRecord(path, items[i], stem + "_" + NatToString(i)).Some?)
  {
    if items == [] then []
    else
      var n := |items| - 1;
      var prior := Surviving(path, stem, items[..n]);
      assert forall i :: 0 <= i < n ==> items[..n][i] == items[i];
      prior + (if ItemRecord(path, items[n], stem + "_" + NatToString(n)).Some? then [n] else [])
  }

  /** Record k of a list is the record of the k-th item that does not raise, built with that
      item's own position in its fallback id: items that raise are skipped, the others keep
      their order. */
  lemma {:induction false} ListRecordsIndexed(path: string, stem: string, items: seq<JsonItem>)
    ensures |ListRecords(path, stem, items)| == |Surviving(path, stem, items)|
    ensures forall k :: 0 <= k < |Surviving(path, stem, items)| ==>
      var i := Surviving(path, stem, items)[k];
      Some(ListRecords(path, stem, items)[k]) == ItemRecord(path, items[i], stem + "_" + NatToString(i))
  {
    if items != [] {
      var n := |items| - 1;
      var pre := items[..n];
      ListRecordsIndexed(path, stem, pre);
      var ix, r := Surviving(path, stem, pre), ListRecords(path, stem, pre);
      var last := ItemRecord(path, items[n], stem + "_" + NatToString(n));
      var ixAll, rAll := Surviving(path, stem, items), ListRecords(path, stem, items);
      assert ixAll == ix + (if last.Some? then [n] else []);
      assert rAll == r + (match last case None => [] case Some(rec) => [rec]);
      forall k | 0 <= k < |ixAll|
        ensures Some(rAll[k]) == ItemRecord(path, items[ixAll[k]], stem + "_" + NatToString(ixAll[k]))
      {
        if k < |ix| {
          assert ixAll[k] == ix[k] && rAll[k] == r[k];
          assert items[ix[k]] == pre[ix[k]];
        } else {
          assert ixAll[k] == n && Some(rAll[k]) == last;
        }
      }
    }
  }

  /** JsonLoader.load's result. `data` is the parsed file, or None when opening or parsing raises. */
  function JsonDocuments(path: string, stem: string, exists_: bool, data: Option<JsonData>): seq<Record> {
    if !exists_ || data.None? then []
    else match data.value
      case ListOf(items) => ListRecords(path, stem, items)
      case Single(item) =>
        match ItemRecord(path, item, stem)
        case None => []
        case Some(rec) => [rec]
  }

  /** Every record of a list carries the file as its source. */
  lemma {:induction false} ListRecordsSources(path: string, stem: string, items: seq<JsonItem>)
    ensures forall x :: x in ListRecords(path, stem, items) ==>
      x.metadata.Mapping? && "source" in x.metadata.fields && x.metadata.fields["source"] == Str(path)
  {
    if items != [] {
      ListRecordsSources(path, stem, items[..|items| - 1]);
    }
  }

  /** When every item is an object with object metadata (or none), each gives its record, in
      list order: content defaulting to "", id defaulting to "{stem}_{i}". */
  lemma {:induction false} ListRecordsAllGood(path: string, stem: string, items: seq<JsonItem>)
    requires forall i :: 0 <= i < |items| ==>
      items[i].Object? && (items[i].metadata.None? || items[i].metadata.value.Mapping?)
    ensures var r := ListRecords(path, stem, items);
      |r| == |items| &&
      forall i :: 0 <= i < |items| ==>
        r[i].content == ContentOf(items[i]) && r[i].id == Some(IdOf(items[i], stem + "_" + NatToString(i)))
  {
    if items != [] {
      var n := |items| - 1;
      var prior := ListRecords(path, stem, items[..n]);
      assert forall i :: 0 <= i < n ==> items[..n][i] == items[i];
      ListRecordsAllGood(path, stem, items[..n]);
      var rec := ItemRecord(path, items[n], stem + "_" + NatToString(n)).value;
      assert ListRecords(path, stem, items) == prior + [rec];
    }
  }

  /** A missing or unparsable file gives nothing; a single object gives one record whose id
      defaults to the stem; every record names the file as its source. */
  lemma JsonDocumentsSpec(path: string, stem: string, exists_: bool, data: Option<JsonData>)
    ensures !exists_ || data.None? ==> JsonDocuments(path, stem, exists_, data) == []
    ensures forall x :: x in JsonDocuments(path, stem, exists_, data) ==>
      x.metadata.Mapping? && "source" in x.metadata.fields && x.metadata.fields["source"] == Str(path)
    ensures (exists_ && data.Some? && data.value.Single? && data.value.item.Object? &&
             data.value.item.id.None? && data.value.item.metadata.None?) ==>
      JsonDocuments(path, stem, exists_, data) ==
        [Record(Some(stem), ContentOf(data.value.item), Mapping(map["source" := Str(path)]))]
  {
    if exists_ && data.Some? && data.value.ListOf? {
      ListRecordsSources(path, stem, data.value.items);
    }
  }

  /** JsonLoader.load */
  method JsonLoad(path: string, stem: string, exists_: bool, data: Option<JsonData>)
    returns (documents: seq<Record>)
    ensures documents == JsonDocuments(path, stem, exists_, data)
  {
    if !exists_ || data.None? {
      return [];
    }
    match data.value {
      case ListOf(items) =>
        documents := [];
        for i := 0 to |items|
          invariant documents == ListRecords(path, stem, items[..i])
        {
          assert items[..i + 1][..i] == items[..i];
          var r := ItemRecord(path, items[i], stem + "_" + NatToString(i));
          if r.Some? {
            documents := documents + [r.value];
          }
          // an item that raises is logged and skipped
        }
        assert items[..|items|] == items;
      case Single(item) =>
        var r := ItemRecord(path, item, stem);
        if r.None? {
          return [];
        }
        documents := [r.value];
    }
  }

  // ---------------------------------------------------------------- PubMedAbstractLoader

  const SenescenceAbstract: string :=
    "Recent studies have shown that cellular senescence is a significant contributor to aging and age-related diseases. Senescent cells accumulate with age and secrete inflammatory factors that can promote tissue dysfunction."
  const MitochondriaAbstract: string :=
    "Mitochondrial dysfunction is implicated in aging processes. This study demonstrates that improving mitochondrial function through targeted interventions can extend lifespan in model organisms."
  const RapamycinAbstract: string :=
    "Rapamycin inhibits the mTOR pathway and has been shown to extend lifespan in multiple species. This review discusses the potential mechanisms and challenges of using rapamycin for aging interventions in humans."

  function Abstract(id: string, content: string, title: string, authors: string, year: string): Record {
    Record(Some(id), content,
           Mapping(map["source" := Str("PubMed"), "title" := Str(title),
                       "authors" := Str(authors), "year" := Str(year)]))
  }

  /** PubMedAbstractLoader.load: the same three simulated abstracts, whatever the path */
  function PubMedLoad(sourcePath: string): (docs: seq<Record>)
    ensures |docs| == 3
    ensures forall i :: 0 <= i < 3 ==>
      docs[i].id.Some? && "pmid_" <= docs[i].id.value && docs[i].metadata.Mapping? &&
      "source" in docs[i].metadata.fields && docs[i].metadata.fields["source"] == Str("PubMed")
    ensures forall i, j :: 0 <= i < j < 3 ==> docs[i].id != docs[j].id
  {
    [Abstract("pmid_12345678", SenescenceAbstract, "Cellular Senescence in Aging", "Smith J, Johnson A", "2023"),
     Abstract("pmid_87654321", MitochondriaAbstract, "Mitochondrial Function and Aging", "Brown R, Davis T", "2022"),
     Abstract("pmid_23456789", RapamycinAbstract, "Rapamycin as an Aging Intervention", "Wilson E, Garcia M", "2023")]
  }
}

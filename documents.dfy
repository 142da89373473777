/** The shapes documents take in the pipeline: the knowledge base's dictionaries, the
    retriever's Document dataclass, and the Python list object the knowledge base and the
    vector database share. */
module Documents {
  import opened Text

  datatype Option<+T> = None | Some(value: T)

  datatype Result<+T> = Success(value: T) | Failure(message: string)

  /** A metadata value as json.load produces it (floats and nested containers are not modelled) */
  datatype Value = Str(s: string) | Int(n: int) | Bool(b: bool) | Null

  /** The "metadata" entry of a document: normally a dict; a stored record may hold any other
      JSON value there, on which `.get(...)` raises AttributeError. */
  datatype Meta = Mapping(fields: map<string, Value>) | NotMapping

  /** A knowledge-base dictionary {"id", "content", "metadata"}. The vector database appends
      dictionaries with no "id" key to the same list: their id is None. */
  datatype Record = Record(id: Option<string>, content: string, metadata: Meta)

  /** The Document dataclass of model.py, and the {"content", "metadata"} dictionaries built from it */
  datatype Document = Document(content: string, metadata: Meta)

  /** f"{value}" */
  function Render(v: Value): string {
    match v
    case Str(s) => s
    case Int(n) => IntToString(n)
    case Bool(b) => if b then "True" else "False"
    case Null => "None"
  }

  /** The contents of a list of records, position by position */
  function RecordTexts(items: seq<Record>): (t: seq<string>)
    ensures |t| == |items| && forall i :: 0 <= i < |items| ==> t[i] == items[i].content
  {
    seq(|items|, i requires 0 <= i < |items| => items[i].content)
  }

  /** The contents of a list of documents; the same reading as RecordTexts, for the pipeline's
      context documents */
  function DocumentTexts(docs: seq<Document>): seq<string> {
    seq(|docs|, i requires 0 <= i < |docs| => docs[i].content)
  }

  /** [Document(content=doc["content"], metadata=doc["metadata"]) for doc in items] */
  function AsDocuments(items: seq<Record>): (docs: seq<Document>)
    ensures |docs| == |items|
    ensures forall i :: 0 <= i < |items| ==>
      docs[i].content == items[i].content && docs[i].metadata == items[i].metadata
  {
    seq(|items|, i requires 0 <= i < |items| => Document(items[i].content, items[i].metadata))
  }

  /** A Python list of knowledge-base dictionaries. It is an object because two owners hold the
      very same list and each sees the other's appends. */
  class DocList {
    var items: seq<Record>

    constructor (initial: seq<Record>)
      ensures items == initial
    {
      items := initial;
    }

    /** list.append */
    method Append(r: Record)
      modifies this
      ensures items == old(items) + [r]
    {
      items := items + [r];
    }
  }
}

/** The service wrapper: one lazily built AgingGPT per process, and the status dictionaries
    process_query and add_knowledge return. Building AgingGPT may raise (creating the knowledge
    base's directories can fail); what it does is a parameter. */
module Service {
  import opened Text
  import opened Documents
  import opened KnowledgeStore
  import opened VectorStore
  import opened Responder
  import opened Pipeline

  const PleaseAsk: string := "Please enter a question about aging biology."

  /** {"response" or "message": text, "status": status} */
  datatype Reply = Reply(text: string, status: string)

  /** How building AgingGPT goes: the stored files and library outcomes it meets, or the
      message of the exception it raises */
  datatype Setup = Setup(stored: seq<StoredFile>, vdbImportable: bool, depsAvailable: bool,
                         initOk: bool, failure: Option<string>)

  /** `not query_text or query_text.strip() == ""` */
  predicate Unanswerable(query: Option<string>) {
    query.None? || Strip(query.value) == ""
  }

  /** process_query's reply, given the model's answer or the message of the exception raised
      on the way to it */
  function QueryReply(query: Option<string>, outcome: Result<string>): (r: Reply)
    ensures r.status == "error" <==> Unanswerable(query) || outcome.Failure?
    ensures r.status == "success" <==> !Unanswerable(query) && outcome.Success?
    ensures r.status == "success" ==> r.text == outcome.value
    ensures r.status == "error" ==> r.text == PleaseAsk || r.text == Apology
  {
    if Unanswerable(query) then Reply(PleaseAsk, "error")
    else match outcome
      case Success(text) => Reply(text, "success")
      case Failure(_) => Reply(Apology, "error")
  }

  /** A query is rejected exactly when it is missing or holds only whitespace. */
  lemma UnanswerableIsBlank(query: Option<string>)
    ensures Unanswerable(query) <==> query.None? || Blank(query.value)
  {
    if query.Some? {
      StripSpec(query.value);
    }
  }

  /** A pipeline failure inside AgingGPT.query is swallowed there: the service reports the
      apology text with status "success". */
  lemma PipelineFailureReportsSuccess(query: string, context: seq<Document>)
    requires !Blank(query) && Response(query, context).None?
    ensures QueryReply(Some(query), Success(Answer(query, context))) == Reply(Apology, "success")
  {
    UnanswerableIsBlank(Some(query));
  }

  /** add_knowledge's reply, given None when adding went through or the exception's message */
  function KnowledgeReply(source: string, failure: Option<string>): (r: Reply)
    ensures r.status == "success" <==> failure.None?
    ensures failure.None? ==> r.text == "Successfully added new knowledge from " + source
    ensures failure.Some? ==> r.text == "Error adding knowledge: " + failure.value
    ensures r.status == "success" || r.status == "error"
  {
    match failure
    case None => Reply("Successfully added new knowledge from " + source, "success")
    case Some(message) => Reply("Error adding knowledge: " + message, "error")
  }

  /** The module's state: the memoised instance */
  class ServiceState {
    var instance: AgingGPT?

    constructor ()
      ensures instance == null
    {
      instance := null;
    }

    /** Every instance the service holds has a well-formed retriever. */
    predicate Valid()
      reads this, instance
    {
      instance != null ==> instance.retriever.Valid()
    }

    /** get_model_instance: built on the first call only; later calls return the same object
        whatever they are given. A failed build leaves no instance. */
    method GetModelInstance(setup: Setup) returns (r: Result<AgingGPT>)
      requires Valid()
      modifies this
      ensures Valid()
      ensures old(instance) != null ==> r == Success(old(instance)) && instance == old(instance)
      ensures old(instance) == null && setup.failure.Some? ==>
        r == Failure(setup.failure.value) && instance == null
      ensures old(instance) == null && setup.failure.None? ==>
        r.Success? && instance == r.value && fresh(r.value) && fresh(r.value.retriever) &&
        fresh(r.value.retriever.kb.documents) &&
        (r.value.retriever.vectorDb != null ==> fresh(r.value.retriever.vectorDb)) &&
        r.value.retriever.kb.documents.items == WorkingSet(setup.stored) &&
        r.value.retriever.useVectorDb == setup.vdbImportable
      ensures r.Success? ==> instance == r.value
    {
      if instance == null {
        if setup.failure.Some? {
          return Failure(setup.failure.value);
        }
        var model := new AgingGPT(setup.stored, setup.vdbImportable, setup.depsAvailable, setup.initOk);
        instance := model;
      }
      return Success(instance);
    }

    /** process_query with the default top_k of 3; `answer` is what the embedding index gives */
    method ProcessQuery(query: Option<string>, setup: Setup, answer: NeighbourSearch) returns (reply: Reply)
      requires Valid() && WithinWidth(answer, 3)
      modifies this
      ensures Valid()
      ensures Unanswerable(query) ==> reply == Reply(PleaseAsk, "error") && instance == old(instance)
      ensures old(instance) != null ==> instance == old(instance)
      ensures !Unanswerable(query) && setup.failure.None? ==> instance != null
      ensures !Unanswerable(query) && old(instance) == null && setup.failure.Some? ==>
        reply == Reply(Apology, "error") && instance == null
      ensures !Unanswerable(query) && instance != null ==>
        var r := instance.retriever;
        reply == Reply(Answer(query.value, Retrieval(r.useVectorDb, r.useVectorDb && r.vectorDb.ready,
                                                     r.kb.documents.items, r.documents,
                                                     query.value, 3, answer)), "success")
    {
      if query.None? || query.value == "" || Strip(query.value) == "" {
        return Reply(PleaseAsk, "error");
      }
      var model := GetModelInstance(setup);
      if model.Failure? {
        return Reply(Apology, "error");
      }
      var response := model.value.Query(query.value, 3, answer);
      return Reply(response, "success");
    }

    /** add_knowledge */
    method AddKnowledge(content: string, source: string, setup: Setup, writeOk: bool, embedOk: bool)
      returns (reply: Reply)
      requires Valid()
      modifies this, if instance != null then {instance.retriever, instance.retriever.kb.documents} else {}
      modifies if instance != null then {instance.retriever.vectorDb} else {}
      ensures Valid()
      ensures old(instance) == null && setup.failure.Some? ==>
        reply == KnowledgeReply(source, setup.failure) && instance == null
      ensures old(instance) != null ==> instance == old(instance)
      ensures old(instance) != null || setup.failure.None? ==> instance != null
      ensures instance != null ==> reply == KnowledgeReply(source, None)
      ensures old(instance) != null ==>
        instance.retriever.kb.documents.items ==
          SharedAfterAdd(old(instance.retriever.kb.documents.items), content, SourceMeta(source),
                         writeOk, instance.retriever.useVectorDb)
      ensures old(instance) != null ==>
        instance.retriever.documents ==
          old(instance.retriever.documents) + [Document(content, SourceMeta(source))]
      ensures old(instance) == null && setup.failure.None? ==>
        instance.retriever.kb.documents.items ==
          SharedAfterAdd(WorkingSet(setup.stored), content, SourceMeta(source),
                         writeOk, setup.vdbImportable)
      ensures instance != null ==>
        |instance.retriever.documents| > 0 &&
        instance.retriever.documents[|instance.retriever.documents| - 1] == Document(content, SourceMeta(source))
    {
      var model := GetModelInstance(setup);
      if model.Failure? {
        return KnowledgeReply(source, Some(model.message));
      }
      model.value.AddKnowledge(content, source, writeOk, embedOk);
      return KnowledgeReply(source, None);
    }
  }
}

/** `ChatService`: the QA chain exists exactly when the vector store hands out a retriever,
    and `get_answer` assembles the reply: a fixed apology before any upload, the chain's
    answer with one source name per retrieved chunk, or the error text. The retrieval and
    the language model are one oracle, `invoke`. */
module ChatService {
  import opened Wrappers
  import opened Documents
  import opened VectorStore

  /** `RetrievalQA.from_chain_type(..., retriever=retriever, return_source_documents=True)` */
  datatype Chain = Chain(retriever: Retriever)

  /** The service's `qa_chain` attribute. */
  datatype Chat = Chat(chain: Option<Chain>)

  /** What `qa_chain.invoke({"query": question})` returns: the answer and the chunks it was
      built from, in retrieval order. */
  datatype QaResult = QaResult(result: string, sourceDocuments: seq<Document>)

  /** `qa_chain.invoke`, failing with `str(e)` when it raises. */
  type Invoke = (Chain, string) -> Result<QaResult>

  /** The reply `get_answer` returns. */
  datatype Answer = Answer(answer: string, sources: seq<string>)

  const NotReadyAnswer: string := "Sorry, the system is not ready yet. Please upload some files first."
  const ErrorPrefix: string := "Sorry, I encountered an error: "
  const UnknownSource: string := "Unknown"

  /** `_setup_qa_chain`: a chain over the default retriever, or none. */
  function SetupQaChain(store: Service): (c: Chat)
    ensures c.chain.Some? <==> store.ready
    ensures c.chain.Some? ==> c.chain.value.retriever.k == DefaultK && c.chain.value.retriever.collection == CollectionName
  {
    match GetRetriever(store, None)
    case Some(retriever) => Chat(Some(Chain(retriever)))
    case None => Chat(None)
  }

  /** A chat service built over a freshly started vector store can answer exactly when the
      server was reachable, the collection existed or could be created, and the vector-store
      wrapper accepted it; a collection of the wrong size or distance leaves every question
      with the not-ready reply. */
  lemma ChatReadyAfterStartup(server: Server, settings: Settings, construct: Construct)
    ensures SetupQaChain(Initialize(server, settings, construct)).chain.Some? <==>
              && server.listError.None?
              && (CollectionName in server.collections || server.createError.None?)
              && construct(TargetCollection(server)).None?
    ensures RejectsMismatch(construct) && CollectionName in server.collections &&
            server.collections[CollectionName].params != VectorParams(EmbeddingSize, Cosine) ==>
              forall question: string, invoke: Invoke ::
                GetAnswer(SetupQaChain(Initialize(server, settings, construct)), question, invoke) == Answer(NotReadyAnswer, [])
  {
    if RejectsMismatch(construct) && CollectionName in server.collections &&
       server.collections[CollectionName].params != VectorParams(EmbeddingSize, Cosine) {
      MismatchIsFatal(server, settings, construct);
    }
  }

  /** `doc.metadata.get("filename", "Unknown")` */
  function SourceName(doc: Document): string {
    match MetaGet(doc.metadata, "filename")
    case Some(f) => f
    case None => UnknownSource
  }

  /** The source list: one name per chunk, in order, duplicates kept. */
  function Sources(docs: seq<Document>): (r: seq<string>)
    ensures |r| == |docs|
    ensures forall i :: 0 <= i < |docs| ==> r[i] == SourceName(docs[i])
  {
    seq(|docs|, i requires 0 <= i < |docs| => SourceName(docs[i]))
  }

  /** `get_answer(question)` */
  function GetAnswer(chat: Chat, question: string, invoke: Invoke): (a: Answer)
    ensures chat.chain.None? ==> a == Answer(NotReadyAnswer, [])
    ensures chat.chain.Some? && invoke(chat.chain.value, question).Failure? ==>
              a == Answer(ErrorPrefix + invoke(chat.chain.value, question).error, [])
    ensures chat.chain.Some? && invoke(chat.chain.value, question).Success? ==>
              var res := invoke(chat.chain.value, question).value;
              && a.answer == res.result
              && |a.sources| == |res.sourceDocuments|
              && forall i :: 0 <= i < |a.sources| ==>
                   a.sources[i] == (if "filename" in res.sourceDocuments[i].metadata
                                    then res.sourceDocuments[i].metadata["filename"] else UnknownSource)
  {
    match chat.chain
    case None => Answer(NotReadyAnswer, [])
    case Some(chain) =>
      match invoke(chain, question)
      case Failure(e) => Answer(ErrorPrefix + e, [])
      case Success(res) => Answer(res.result, Sources(res.sourceDocuments))
  }

  /** Every source named in an answer is the filename of one of the chunks the chain used,
      or "Unknown"; a reply with sources therefore always comes from a ready chain. */
  lemma SourcesComeFromChunks(chat: Chat, question: string, invoke: Invoke)
    ensures var a := GetAnswer(chat, question, invoke);
            forall i :: 0 <= i < |a.sources| ==>
              a.sources[i] == UnknownSource ||
              exists d :: d in invoke(chat.chain.value, question).value.sourceDocuments &&
                          MetaGet(d.metadata, "filename") == Some(a.sources[i])
    ensures |GetAnswer(chat, question, invoke).sources| > 0 ==>
              chat.chain.Some? && invoke(chat.chain.value, question).Success?
  {
    var a := GetAnswer(chat, question, invoke);
    if chat.chain.Some? && invoke(chat.chain.value, question).Success? {
      var docs := invoke(chat.chain.value, question).value.sourceDocuments;
      forall i | 0 <= i < |a.sources| && a.sources[i] != UnknownSource
        ensures exists d :: d in docs && MetaGet(d.metadata, "filename") == Some(a.sources[i])
      {
        assert docs[i] in docs;
      }
    }
  }

  /** Two chunks of the same file give its name twice, and a chunk without a filename
      gives "Unknown": the list is not deduplicated. */
  lemma SourcesKeepDuplicates(a: Document, b: Document, c: Document)
    requires MetaGet(a.metadata, "filename") == Some("log.xlsx")
    requires MetaGet(b.metadata, "filename") == Some("log.xlsx")
    requires "filename" !in c.metadata
    ensures Sources([a, b, c]) == ["log.xlsx", "log.xlsx", "Unknown"]
  {
    var r := Sources([a, b, c]);
    assert r[0] == SourceName(a) && r[1] == SourceName(b) && r[2] == SourceName(c);
  }
}

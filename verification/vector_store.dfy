/** `VectorStoreService`: the connection check, the provisioning of the "building_logs"
    collection, the readiness that follows from both, and the two operations that depend on
    readiness, `add_documents` and `get_retriever`. The Qdrant server is a record of its
    collections and of the errors its calls raise; building the `QdrantVectorStore` wrapper,
    embedding and upserting are oracles. */
module VectorStore {
  import opened Wrappers
  import opened Text
  import opened Documents

  const CollectionName: string := "building_logs"

  /** The dimension of Google's text-embedding-004 vectors. */
  const EmbeddingSize: nat := 768

  /** `get_retriever`'s default `k`. */
  const DefaultK: int := 3

  datatype Distance = Cosine | Euclid | Dot | Manhattan
  datatype VectorParams = VectorParams(size: nat, distance: Distance)
  datatype Collection = Collection(params: VectorParams)

  /** The Qdrant server as the service sees it: its collections by name, the error
      `get_collections` raises (if any), the error `create_collection` raises (if any), and
      how many collections the service has created. */
  datatype Server = Server(collections: map<string, Collection>, listError: Option<string>,
                           createError: Option<string>, creates: nat)

  /** The exceptions the service raises, with their messages: the two it raises itself, and
      whatever the `QdrantVectorStore` wrapper raises when it is built. */
  datatype Exception = ConnectionError(message: string) | RuntimeError(message: string) | StoreError(message: string)

  /** The result of provisioning: the server afterwards, or the exception raised. */
  datatype Provision = Provisioned(server: Server) | Raised(exc: Exception)

  /** `settings.QDRANT_HOST` and `settings.QDRANT_PORT`, which the connection error names. */
  datatype Settings = Settings(host: string, port: int)

  const ConnectionPrefix: string := "Cannot connect to Qdrant: "
  const ProvisionPrefix: string := "Failed to ensure collection exists: "

  /** `_check_qdrant_connection`: listing the collections must succeed; its error becomes a
      `ConnectionError` that names the error, the host and the port. */
  function CheckConnection(server: Server, settings: Settings): (r: Option<Exception>)
    ensures r.None? <==> server.listError.None?
    ensures r.Some? ==> r.value.ConnectionError?
    ensures r.Some? ==> StartsWith(r.value.message, ConnectionPrefix + server.listError.value)
    ensures r.Some? ==> EndsWith(r.value.message, settings.host + ":" + IntToString(settings.port))
  {
    match server.listError
    case None => None
    case Some(e) =>
      var tail := settings.host + ":" + IntToString(settings.port);
      var msg := ConnectionPrefix + e + ". Make sure Qdrant is running on " + tail;
      assert msg[..|ConnectionPrefix + e|] == ConnectionPrefix + e;
      assert msg[|msg| - |tail|..] == tail;
      Some(ConnectionError(msg))
  }

  /** `_ensure_collection_exists`: list the collections, and create "building_logs" with 768
      dimensions and cosine distance when it is absent. Any error becomes a `RuntimeError`. */
  function EnsureCollectionExists(server: Server): (r: Provision)
    ensures r.Raised? <==> server.listError.Some? || (CollectionName !in server.collections && server.createError.Some?)
    ensures r.Raised? ==> r.exc.RuntimeError? && StartsWith(r.exc.message, ProvisionPrefix)
    ensures r.Provisioned? ==> CollectionName in r.server.collections
    ensures r.Provisioned? && CollectionName in server.collections ==> r.server == server
    ensures r.Provisioned? && CollectionName !in server.collections ==>
              && r.server.collections[CollectionName] == Collection(VectorParams(EmbeddingSize, Cosine))
              && r.server.creates == server.creates + 1
    ensures r.Provisioned? ==>
              && r.server.listError == server.listError && r.server.createError == server.createError
              && forall k :: k != CollectionName ==>
                   (k in r.server.collections <==> k in server.collections) &&
                   (k in server.collections ==> r.server.collections[k] == server.collections[k])
  {
    if server.listError.Some? then
      Raised(RuntimeError(ProvisionPrefix + server.listError.value))
    else if CollectionName in server.collections then
      Provisioned(server)
    else if server.createError.Some? then
      Raised(RuntimeError(ProvisionPrefix + server.createError.value))
    else
      var created := Collection(VectorParams(EmbeddingSize, Cosine));
      Provisioned(server.(collections := server.collections[CollectionName := created], creates := server.creates + 1))
  }

  /** Provisioning twice is provisioning once: the second call finds the collection and
      makes no create call. */
  lemma ProvisioningIdempotent(server: Server)
    requires EnsureCollectionExists(server).Provisioned?
    ensures EnsureCollectionExists(EnsureCollectionExists(server).server) == EnsureCollectionExists(server)
  {
  }

  /** The service: the server, the documents it has added, whether `vectorstore` is set,
      and the initialisation error that was logged instead of raised. */
  datatype Service = Service(server: Server, stored: seq<Document>, ready: bool, initError: Option<Exception>)

  /** `QdrantVectorStore(client=..., collection_name=..., embedding=...)`: the error the
      wrapper raises when it is built over the given collection, or none. The wrapper checks
      the collection against the embedding model, an outside service, so the outcome is an
      oracle. */
  type Construct = Collection -> Option<string>

  /** A wrapper that refuses every collection whose vectors are not the 768-dimensional cosine
      vectors the embedding model produces: the check that makes a dimension mismatch fatal
      at start-up. */
  ghost predicate RejectsMismatch(construct: Construct) {
    forall c: Collection :: c.params != VectorParams(EmbeddingSize, Cosine) ==> construct(c).Some?
  }

  /** The collection the wrapper is built over once provisioning succeeded: the existing
      "building_logs", or the 768-dimensional cosine one just created. */
  function TargetCollection(server: Server): Collection {
    if CollectionName in server.collections then server.collections[CollectionName]
    else Collection(VectorParams(EmbeddingSize, Cosine))
  }

  /** `__init__` / `_initialize_vectorstore`: check the connection, provision the collection,
      and only then build the wrapper and set `vectorstore`; any exception is logged and
      construction completes. A collection created before the wrapper failed stays. */
  function Initialize(server: Server, settings: Settings, construct: Construct): (s: Service)
    ensures s.stored == []
    ensures s.ready <==> s.initError.None?
    ensures s.ready <==> && server.listError.None?
                         && (CollectionName in server.collections || server.createError.None?)
                         && construct(TargetCollection(server)).None?
    ensures s.ready ==> CollectionName in s.server.collections && s.server.collections[CollectionName] == TargetCollection(server)
    ensures server.listError.Some? ==> s.initError == CheckConnection(server, settings) && s.server == server
    ensures server.listError.None? && CollectionName !in server.collections && server.createError.Some? ==>
              s.initError.value.RuntimeError? && s.server == server
    ensures server.listError.None? && (CollectionName in server.collections || server.createError.None?) &&
            construct(TargetCollection(server)).Some? ==>
              && s.initError == Some(StoreError(construct(TargetCollection(server)).value))
              && CollectionName in s.server.collections
              && s.server.collections[CollectionName] == TargetCollection(server)
  {
    match CheckConnection(server, settings)
    case Some(e) => Service(server, [], false, Some(e))
    case None =>
      match EnsureCollectionExists(server)
      case Raised(e) => Service(server, [], false, Some(e))
      case Provisioned(provisioned) =>
        match construct(provisioned.collections[CollectionName])
        case Some(e) => Service(provisioned, [], false, Some(StoreError(e)))
        case None => Service(provisioned, [], true, None)
  }

  /** A second service over the server the first one left behind is ready whenever the
      first was, and creates nothing more. */
  lemma RestartCreatesNothing(server: Server, settings: Settings, construct: Construct)
    requires Initialize(server, settings, construct).ready
    ensures var again := Initialize(Initialize(server, settings, construct).server, settings, construct);
            again.ready && again.server == Initialize(server, settings, construct).server
  {
  }

  /** An existing "building_logs" collection whose size or distance differs from the embedding
      model's is fatal: the service is never ready, the error is the wrapper's once the server
      is reachable, and starting again over the same server fails the same way. */
  lemma MismatchIsFatal(server: Server, settings: Settings, construct: Construct)
    requires RejectsMismatch(construct)
    requires CollectionName in server.collections
    requires server.collections[CollectionName].params != VectorParams(EmbeddingSize, Cosine)
    ensures !Initialize(server, settings, construct).ready
    ensures server.listError.None? ==> Initialize(server, settings, construct).initError.value.StoreError?
    ensures Initialize(server, settings, construct).server == server
    ensures Initialize(Initialize(server, settings, construct).server, settings, construct) == Initialize(server, settings, construct)
  {
    assert construct(server.collections[CollectionName]).Some?;
  }

  /** `add_documents(documents)`: nothing happens unless the store is ready and the list is
      non-empty; otherwise `upsert` embeds and stores the documents, or raises. */
  function AddDocuments(s: Service, docs: seq<Document>, upsert: seq<Document> -> Option<string>): (r: Result<Service>)
    ensures r.Failure? <==> s.ready && docs != [] && upsert(docs).Some?
    ensures r.Failure? ==> r.error == upsert(docs).value
    ensures !s.ready || docs == [] ==> r == Success(s)
    ensures r.Success? ==> r.value == s.(stored := s.stored + (if s.ready then docs else []))
  {
    if s.ready && docs != [] then
      match upsert(docs)
      case Some(e) => Failure(e)
      case None => Success(s.(stored := s.stored + docs))
    else Success(s)
  }

  /** A retriever over the collection returning the `k` most similar chunks. */
  datatype Retriever = Retriever(collection: string, k: int)

  /** `get_retriever(k=3)`: a retriever exactly when the store is ready. */
  function GetRetriever(s: Service, k: Option<int>): (r: Option<Retriever>)
    ensures r.Some? <==> s.ready
    ensures r.Some? ==> r.value.collection == CollectionName
    ensures r.Some? ==> r.value.k == (if k.Some? then k.value else DefaultK)
  {
    if s.ready then Some(Retriever(CollectionName, if k.Some? then k.value else DefaultK)) else None
  }

  /** Adding documents never changes readiness, so the retriever on offer is the same
      before and after, and two successful additions store both lists in order. */
  lemma AddKeepsRetriever(s: Service, docs: seq<Document>, more: seq<Document>,
                          upsert: seq<Document> -> Option<string>, k: Option<int>)
    ensures AddDocuments(s, docs, upsert).Success? ==>
              GetRetriever(AddDocuments(s, docs, upsert).value, k) == GetRetriever(s, k)
    ensures AddDocuments(s, docs, upsert).Success? &&
            AddDocuments(AddDocuments(s, docs, upsert).value, more, upsert).Success? ==>
              AddDocuments(AddDocuments(s, docs, upsert).value, more, upsert).value.stored
              == s.stored + (if s.ready then docs + more else [])
  {
  }
}

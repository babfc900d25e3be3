/**
 * The registry of entity models kept in the `.zentity-models` index, and
 * the REST handler in front of it. Each Java static method taking a
 * `NodeClient` is a method here taking the abstract `DocumentStore`.
 *
 * Writes heal proactively (ensureIndex, then write); reads and deletes heal
 * reactively (on index-not-found, create the index once and reissue the
 * request once, unguarded).
 */
module ModelsAction {
  import opened Wrappers
  import opened Store
  import opened Dispatch

  const IndexName: string := ".zentity-models"

  /**
   * The index the registry creates: one shard, one replica, mapping type
   * "doc" with strict dynamic mapping and its four sub-objects stored but
   * not indexed.
   */
  const ModelsIndex: IndexSettings :=
    IndexSettings(IndexName, 1, 1, "doc", "strict", ["attributes", "resolvers", "matchers", "indices"])

  /** The largest number of models one listing returns. */
  const SearchSize: nat := 10000

  /** The requests ensureIndex sends: the existence check, then a create only if absent. */
  function EnsureCalls(existed: bool): seq<StoreCall>
  {
    [ExistsCall] + (if existed then [] else [CreateIndexCall(ModelsIndex)])
  }

  /**
   * The requests a reactively healing operation sends: `request` alone when
   * the index exists; otherwise `request`, one create-index, and `request`
   * once more.
   */
  function Healed(existed: bool, request: StoreCall): seq<StoreCall>
  {
    if existed then [request] else [request, CreateIndexCall(ModelsIndex), request]
  }

  /** A healing operation creates the index at most once, and only when it was missing. */
  lemma HealedCreatesAtMostOnce(existed: bool, request: StoreCall)
    requires !request.CreateIndexCall?
    ensures CreateCalls(Healed(existed, request)) == if existed then 0 else 1
  {
  }

  /** ensureIndex creates the index at most once, and only when it was missing. */
  lemma EnsureCreatesAtMostOnce(existed: bool)
    ensures CreateCalls(EnsureCalls(existed)) == if existed then 0 else 1
  {
  }

  /** createIndex: create the index with its settings and mapping; fails if it exists. */
  method CreateIndex(client: DocumentStore) returns (r: Outcome<StoreError>)
    requires client.Valid()
    modifies client
    ensures client.Valid() && client.indexExists && client.docs == old(client.docs)
    ensures r == if old(client.indexExists) then Fail(IndexAlreadyExists) else Pass
    ensures client.settings == if old(client.indexExists) then old(client.settings) else Some(ModelsIndex)
    ensures client.log == old(client.log) + [CreateIndexCall(ModelsIndex)]
  {
    r := client.CreateIndex(ModelsIndex);
  }

  /** ensureIndex: check for the index and create it only if it is absent. */
  method EnsureIndex(client: DocumentStore)
    requires client.Valid()
    modifies client
    ensures client.Valid() && client.indexExists
    ensures client.docs == old(client.docs)
    ensures client.settings == if old(client.indexExists) then old(client.settings) else Some(ModelsIndex)
    ensures client.log == old(client.log) + EnsureCalls(old(client.indexExists))
    ensures CreateCalls(client.log) == CreateCalls(old(client.log)) + if old(client.indexExists) then 0 else 1
  {
    var present := client.Exists();
    if !present {
      // the index was just reported absent, so this create succeeds
      var created := CreateIndex(client);
    }
    CreateCallsAppend(old(client.log), EnsureCalls(old(client.indexExists)));
    EnsureCreatesAtMostOnce(old(client.indexExists));
  }

  /** getEntityModels: list the stored models, at most SearchSize of them. */
  method GetEntityModels(client: DocumentStore) returns (r: Result<SearchResponse, StoreError>)
    requires client.Valid()
    modifies client
    ensures client.Valid() && client.indexExists && client.docs == old(client.docs)
    ensures client.settings == if old(client.indexExists) then old(client.settings) else Some(ModelsIndex)
    ensures r.Success? && r.value.totalHits == |client.docs|
    ensures |r.value.hits| <= SearchSize && r.value.hits.Keys <= client.docs.Keys
    ensures forall t :: t in r.value.hits ==> r.value.hits[t] == client.docs[t]
    ensures |client.docs| <= SearchSize ==> r.value.hits == client.docs
    ensures SearchSize < |client.docs| ==> |r.value.hits| == SearchSize
    ensures !old(client.indexExists) ==> r.value.hits == map[]
    ensures client.log == old(client.log) + Healed(old(client.indexExists), SearchCall(SearchSize))
    ensures CreateCalls(client.log) == CreateCalls(old(client.log)) + if old(client.indexExists) then 0 else 1
  {
    r := client.Search(SearchSize);
    if r.Failure? && r.error.IndexNotFound? {
      // the index was just reported missing, so this create succeeds
      var created := CreateIndex(client);
      r := client.Search(SearchSize);
    }
    CreateCallsAppend(old(client.log), Healed(old(client.indexExists), SearchCall(SearchSize)));
    HealedCreatesAtMostOnce(old(client.indexExists), SearchCall(SearchSize));
  }

  /** getEntityModel: fetch the model of one entity type. */
  method GetEntityModel(entityType: string, client: DocumentStore) returns (r: Result<GetResponse, StoreError>)
    requires client.Valid()
    modifies client
    ensures client.Valid() && client.indexExists && client.docs == old(client.docs)
    ensures client.settings == if old(client.indexExists) then old(client.settings) else Some(ModelsIndex)
    ensures entityType in client.docs ==> r == Success(Found(entityType, client.docs[entityType]))
    ensures entityType !in client.docs ==> r == Success(Missing(entityType))
    ensures !old(client.indexExists) ==> r == Success(Missing(entityType))
    ensures client.log == old(client.log) + Healed(old(client.indexExists), GetCall(entityType))
    ensures CreateCalls(client.log) == CreateCalls(old(client.log)) + if old(client.indexExists) then 0 else 1
  {
    r := client.Get(entityType);
    if r.Failure? && r.error.IndexNotFound? {
      // the index was just reported missing, so this create succeeds
      var created := CreateIndex(client);
      r := client.Get(entityType);
    }
    CreateCallsAppend(old(client.log), Healed(old(client.indexExists), GetCall(entityType)));
    HealedCreatesAtMostOnce(old(client.indexExists), GetCall(entityType));
  }

  /** indexEntityModel: ensure the index, then write the model create-only. */
  method IndexEntityModel(entityType: string, requestBody: string, client: DocumentStore)
    returns (r: Result<IndexResult, StoreError>)
    requires client.Valid()
    modifies client
    ensures client.Valid() && client.indexExists
    ensures client.settings == if old(client.indexExists) then old(client.settings) else Some(ModelsIndex)
    ensures entityType in old(client.docs) ==>
              r == Failure(DocumentAlreadyExists(entityType)) && client.docs == old(client.docs)
    ensures entityType !in old(client.docs) ==>
              r == Success(Created) && client.docs == old(client.docs)[entityType := requestBody]
    ensures client.log == old(client.log) + EnsureCalls(old(client.indexExists)) +
                          [IndexCall(entityType, requestBody, true)]
    ensures CreateCalls(client.log) == CreateCalls(old(client.log)) + if old(client.indexExists) then 0 else 1
  {
    EnsureIndex(client);
    r := client.Index(entityType, requestBody, true);
    CreateCallsAppend(old(client.log) + EnsureCalls(old(client.indexExists)), [IndexCall(entityType, requestBody, true)]);
  }

  /** updateEntityModel: ensure the index, then write the model, overwriting any old one. */
  method UpdateEntityModel(entityType: string, requestBody: string, client: DocumentStore)
    returns (r: Result<IndexResult, StoreError>)
    requires client.Valid()
    modifies client
    ensures client.Valid() && client.indexExists
    ensures client.settings == if old(client.indexExists) then old(client.settings) else Some(ModelsIndex)
    ensures r == Success(if entityType in old(client.docs) then Updated else Created)
    ensures client.docs == old(client.docs)[entityType := requestBody]
    ensures client.log == old(client.log) + EnsureCalls(old(client.indexExists)) +
                          [IndexCall(entityType, requestBody, false)]
    ensures CreateCalls(client.log) == CreateCalls(old(client.log)) + if old(client.indexExists) then 0 else 1
  {
    EnsureIndex(client);
    r := client.Index(entityType, requestBody, false);
    CreateCallsAppend(old(client.log) + EnsureCalls(old(client.indexExists)), [IndexCall(entityType, requestBody, false)]);
  }

  /** deleteEntityModel: remove the model of one entity type. */
  method DeleteEntityModel(entityType: string, client: DocumentStore) returns (r: Result<DeleteResult, StoreError>)
    requires client.Valid()
    modifies client
    ensures client.Valid() && client.indexExists
    ensures client.settings == if old(client.indexExists) then old(client.settings) else Some(ModelsIndex)
    ensures r == Success(if entityType in old(client.docs) then Deleted else NotFound)
    ensures client.docs == old(client.docs) - {entityType}
    ensures entityType !in client.docs
    ensures client.log == old(client.log) + Healed(old(client.indexExists), DeleteCall(entityType))
    ensures CreateCalls(client.log) == CreateCalls(old(client.log)) + if old(client.indexExists) then 0 else 1
  {
    r := client.Delete(entityType);
    if r.Failure? && r.error.IndexNotFound? {
      // the index was just reported missing, so this create succeeds
      var created := CreateIndex(client);
      r := client.Delete(entityType);
    }
    CreateCallsAppend(old(client.log), Healed(old(client.indexExists), DeleteCall(entityType)));
    HealedCreatesAtMostOnce(old(client.indexExists), DeleteCall(entityType));
  }

  /** What a response carries: the refusal, or the store's answer to the operation. */
  datatype Body =
    | Refused(reason: Rejection)
    | Listed(search: SearchResponse)
    | Fetched(get: GetResponse)
    | Written(index: IndexResult)
    | Removed(delete: DeleteResult)

  /**
   * A response sent on the channel, or a store error the handler does not
   * catch (it leaves the handler as an exception).
   */
  datatype RestResponse = Reply(status: nat, body: Body) | Uncaught(error: StoreError)

  function Answer<T>(r: Result<T, StoreError>, wrap: T -> Body): RestResponse
  {
    match r
    case Success(v) => Reply(OkStatus, wrap(v))
    case Failure(e) => Uncaught(e)
  }

  /**
   * The channel consumer prepareRequest returns: decide, then run the chosen
   * operation and answer 200 with its result. A refused request sends no
   * store request at all.
   */
  method HandleRequest(request: RestRequest, validate: string -> bool, client: DocumentStore)
    returns (response: RestResponse)
    requires CarriesEntityType(request) && client.Valid()
    modifies client
    ensures client.Valid()
    ensures PrepareRequest(request, validate).Reject? ==>
              response == Reply(Status(PrepareRequest(request, validate)), Refused(PrepareRequest(request, validate).reason)) &&
              client.indexExists == old(client.indexExists) && client.docs == old(client.docs) &&
              client.settings == old(client.settings) && client.log == old(client.log)
    ensures PrepareRequest(request, validate).Perform? ==>
              client.indexExists &&
              client.settings == if old(client.indexExists) then old(client.settings) else Some(ModelsIndex)
    ensures response.Reply? && PrepareRequest(request, validate).Perform? ==> response.status == OkStatus
    ensures match PrepareRequest(request, validate)
            case Reject(_) => true
            case Perform(ListModels) =>
              client.docs == old(client.docs) && response.Reply? && response.body.Listed? &&
              response.body.search.totalHits == |client.docs| &&
              |response.body.search.hits| <= SearchSize &&
              response.body.search.hits.Keys <= client.docs.Keys &&
              (forall t :: t in response.body.search.hits ==> response.body.search.hits[t] == client.docs[t]) &&
              (|client.docs| <= SearchSize ==> response.body.search.hits == client.docs) &&
              (SearchSize < |client.docs| ==> |response.body.search.hits| == SearchSize) &&
              client.log == old(client.log) + Healed(old(client.indexExists), SearchCall(SearchSize))
            case Perform(GetModel(t)) =>
              client.docs == old(client.docs) &&
              response == Reply(OkStatus, Fetched(if t in client.docs then Found(t, client.docs[t]) else Missing(t))) &&
              client.log == old(client.log) + Healed(old(client.indexExists), GetCall(t))
            case Perform(CreateModel(t, b)) =>
              (if t in old(client.docs) then
                 response == Uncaught(DocumentAlreadyExists(t)) && client.docs == old(client.docs)
               else
                 response == Reply(OkStatus, Written(Created)) && client.docs == old(client.docs)[t := b]) &&
              client.log == old(client.log) + EnsureCalls(old(client.indexExists)) + [IndexCall(t, b, true)]
            case Perform(UpdateModel(t, b)) =>
              response == Reply(OkStatus, Written(if t in old(client.docs) then Updated else Created)) &&
              client.docs == old(client.docs)[t := b] &&
              client.log == old(client.log) + EnsureCalls(old(client.indexExists)) + [IndexCall(t, b, false)]
            case Perform(DeleteModel(t)) =>
              response == Reply(OkStatus, Removed(if t in old(client.docs) then Deleted else NotFound)) &&
              client.docs == old(client.docs) - {t} &&
              client.log == old(client.log) + Healed(old(client.indexExists), DeleteCall(t))
  {
    var decision := PrepareRequest(request, validate);
    match decision {
      case Reject(reason) =>
        response := Reply(Status(decision), Refused(reason));
      case Perform(ListModels) =>
        var r := GetEntityModels(client);
        response := Answer(r, s => Listed(s));
      case Perform(GetModel(t)) =>
        var r := GetEntityModel(t, client);
        response := Answer(r, g => Fetched(g));
      case Perform(CreateModel(t, b)) =>
        var r := IndexEntityModel(t, b, client);
        response := Answer(r, w => Written(w));
      case Perform(UpdateModel(t, b)) =>
        var r := UpdateEntityModel(t, b, client);
        response := Answer(r, w => Written(w));
      case Perform(DeleteModel(t)) =>
        var r := DeleteEntityModel(t, client);
        response := Answer(r, d => Removed(d));
    }
  }
}

/**
 * Request sequences a client of the registry may issue, with what they
 * are guaranteed to observe. Each is proved from the registry's contracts
 * alone.
 */
module Scenarios {
  import opened Wrappers
  import opened Store
  import opened Dispatch
  import opened ModelsAction

  /** A model created under a fresh type is read back at once. */
  method CreateThenGet(client: DocumentStore, t: string, b: string) returns (w: Result<IndexResult, StoreError>, g: Result<GetResponse, StoreError>)
    requires client.Valid() && t !in client.docs
    modifies client
    ensures w == Success(Created) && g == Success(Found(t, b))
  {
    w := IndexEntityModel(t, b, client);
    g := GetEntityModel(t, client);
  }

  /** A second create of the same type fails and keeps the first body. */
  method CreateTwice(client: DocumentStore, t: string, b1: string, b2: string)
    returns (w1: Result<IndexResult, StoreError>, w2: Result<IndexResult, StoreError>, g: Result<GetResponse, StoreError>)
    requires client.Valid() && t !in client.docs
    modifies client
    ensures w1 == Success(Created)
    ensures w2 == Failure(DocumentAlreadyExists(t))
    ensures g == Success(Found(t, b1))
  {
    w1 := IndexEntityModel(t, b1, client);
    w2 := IndexEntityModel(t, b2, client);
    g := GetEntityModel(t, client);
  }

  /** Two updates of a type both succeed; the last body wins. */
  method UpdateTwice(client: DocumentStore, t: string, b1: string, b2: string)
    returns (w1: Result<IndexResult, StoreError>, w2: Result<IndexResult, StoreError>, g: Result<GetResponse, StoreError>)
    requires client.Valid()
    modifies client
    ensures w1.Success? && w2 == Success(Updated)
    ensures t !in old(client.docs) ==> w1 == Success(Created)
    ensures g == Success(Found(t, b2))
  {
    w1 := UpdateEntityModel(t, b1, client);
    w2 := UpdateEntityModel(t, b2, client);
    g := GetEntityModel(t, client);
  }

  /** After a delete, the type reads as not found. */
  method DeleteThenGet(client: DocumentStore, t: string)
    returns (d: Result<DeleteResult, StoreError>, g: Result<GetResponse, StoreError>)
    requires client.Valid()
    modifies client
    ensures t in old(client.docs) ==> d == Success(Deleted)
    ensures g == Success(Missing(t))
  {
    d := DeleteEntityModel(t, client);
    g := GetEntityModel(t, client);
  }

  /**
   * With the index gone, a get heals: it creates the index once and answers
   * not found instead of an error.
   */
  method GetHealsMissingIndex(t: string) returns (client: DocumentStore, g: Result<GetResponse, StoreError>)
    ensures g == Success(Missing(t))
    ensures client.Valid() && client.indexExists && client.docs == map[]
    ensures client.settings == Some(ModelsIndex)
    ensures client.log == [GetCall(t), CreateIndexCall(ModelsIndex), GetCall(t)]
    ensures CreateCalls(client.log) == 1
  {
    client := new DocumentStore(false, map[]);
    g := GetEntityModel(t, client);
  }

  /** An empty POST body is refused before any store request: no index is created. */
  method EmptyCreateBody(t: string, validate: string -> bool) returns (client: DocumentStore, response: RestResponse)
    ensures response == Reply(BadRequestStatus, Refused(BodyMissing))
    ensures !client.indexExists && client.log == []
  {
    client := new DocumentStore(false, map[]);
    response := HandleRequest(RestRequest(POST, Some(t), false, Some("")), validate, client);
  }

  /** A valid POST body on a path without a type is not implemented. */
  method PostWithoutType(client: DocumentStore, b: string, validate: string -> bool) returns (response: RestResponse)
    requires client.Valid() && b != "" && validate(b)
    modifies client
    ensures response == Reply(NotImplementedStatus, Refused(NotImplemented))
    ensures client.docs == old(client.docs) && client.log == old(client.log)
  {
    response := HandleRequest(RestRequest(POST, Some(""), false, Some(b)), validate, client);
  }
}

/**
 * An abstract stand-in for the Elasticsearch client as the registry uses it:
 * one index (`.zentity-models`) that either exists or not, and inside it one
 * document per entity type. Every search, get, index or delete request made
 * while the index is missing answers `IndexNotFound`, which is how the Java
 * code sees an `IndexNotFoundException`. A ghost log records every request, in order, so
 * that the registry's contracts can say which requests it issued.
 */
module Store {
  import opened Wrappers

  /** The settings and mapping an index is created with. */
  datatype IndexSettings = IndexSettings(
    name: string,
    shards: nat,
    replicas: nat,
    mappingType: string,
    dynamic: string,
    disabledObjects: seq<string>)

  /** The store's failures that the registry meets. */
  datatype StoreError =
    | IndexNotFound                               // the index does not exist
    | IndexAlreadyExists                          // create-index on an existing index
    | DocumentAlreadyExists(entityType: string)   // create-only write of an existing id

  /** A get answers the document, or that the id has none (found: false). */
  datatype GetResponse = Found(id: string, source: string) | Missing(id: string)

  datatype IndexResult = Created | Updated

  datatype DeleteResult = Deleted | NotFound

  /** A search answers the total number of matches and the returned hits. */
  datatype SearchResponse = SearchResponse(totalHits: nat, hits: map<string, string>)

  /** One request sent to the store. */
  datatype StoreCall =
    | ExistsCall
    | CreateIndexCall(settings: IndexSettings)
    | SearchCall(size: nat)
    | GetCall(id: string)
    | IndexCall(id: string, source: string, create: bool)
    | DeleteCall(id: string)

  /** The number of create-index requests in a log. */
  function CreateCalls(log: seq<StoreCall>): (n: nat)
    ensures n <= |log|
    ensures n == 0 <==> forall i :: 0 <= i < |log| ==> !log[i].CreateIndexCall?
  {
    if log == [] then 0
    else (if log[0].CreateIndexCall? then 1 else 0) + CreateCalls(log[1..])
  }

  lemma {:induction false} CreateCallsAppend(a: seq<StoreCall>, b: seq<StoreCall>)
    ensures CreateCalls(a + b) == CreateCalls(a) + CreateCalls(b)
  {
    if a == [] {
      assert a + b == b;
    } else {
      assert (a + b)[1..] == a[1..] + b;
      CreateCallsAppend(a[1..], b);
    }
  }

  /**
   * The hits a search of `size` returns: at most `size` of the stored
   * documents, all of them when there are no more than `size`. Which ones
   * are returned beyond that bound is left open.
   */
  method Window(docs: map<string, string>, size: nat) returns (hits: map<string, string>)
    ensures hits.Keys <= docs.Keys
    ensures forall id :: id in hits ==> hits[id] == docs[id]
    ensures |hits| <= size
    ensures |docs| <= size ==> hits == docs
    ensures size < |docs| ==> |hits| == size
  {
    var taken: set<string> := {};
    var rest := docs.Keys;
    while |taken| < size && rest != {}
      invariant taken !! rest
      invariant taken + rest == docs.Keys
      invariant |taken| + |rest| == |docs.Keys|
      invariant |taken| <= size
      decreases |rest|
    {
      var id :| id in rest;
      taken, rest := taken + {id}, rest - {id};
    }
    hits := map id | id in taken :: docs[id];
    assert hits.Keys == taken;
  }

  class DocumentStore {
    /** Whether the index exists. */
    var indexExists: bool
    /** The index's documents: entity type to model body. */
    var docs: map<string, string>
    /** The settings the index was last created with. */
    var settings: Option<IndexSettings>
    /** Every request made to this store, oldest first. */
    ghost var log: seq<StoreCall>

    /** A missing index holds no documents. */
    ghost predicate Valid()
      reads this
    {
      !indexExists ==> docs == map[]
    }

    constructor (indexExists: bool, docs: map<string, string>)
      requires !indexExists ==> docs == map[]
      ensures Valid()
      ensures this.indexExists == indexExists && this.docs == docs
      ensures settings == None && log == []
    {
      this.indexExists := indexExists;
      this.docs := docs;
      settings := None;
      log := [];
    }

    /** The indices-exists request. */
    method Exists() returns (present: bool)
      requires Valid()
      modifies this`log
      ensures Valid()
      ensures present == indexExists
      ensures log == old(log) + [ExistsCall]
    {
      present := indexExists;
      log := log + [ExistsCall];
    }

    /** The create-index request: fails when the index already exists. */
    method CreateIndex(s: IndexSettings) returns (r: Outcome<StoreError>)
      requires Valid()
      modifies this
      ensures Valid()
      ensures r == if old(indexExists) then Fail(IndexAlreadyExists) else Pass
      ensures indexExists && docs == old(docs)
      ensures settings == if old(indexExists) then old(settings) else Some(s)
      ensures log == old(log) + [CreateIndexCall(s)]
    {
      log := log + [CreateIndexCall(s)];
      if indexExists {
        r := Fail(IndexAlreadyExists);
      } else {
        indexExists, docs, settings := true, map[], Some(s);
        r := Pass;
      }
    }

    /** The search request for at most `size` documents. */
    method Search(size: nat) returns (r: Result<SearchResponse, StoreError>)
      requires Valid()
      modifies this`log
      ensures Valid()
      ensures !indexExists ==> r == Failure(IndexNotFound)
      ensures indexExists ==> r.Success? && r.value.totalHits == |docs|
      ensures r.Success? ==> |r.value.hits| <= size && r.value.hits.Keys <= docs.Keys
      ensures r.Success? ==> forall id :: id in r.value.hits ==> r.value.hits[id] == docs[id]
      ensures r.Success? && |docs| <= size ==> r.value.hits == docs
      ensures r.Success? && size < |docs| ==> |r.value.hits| == size
      ensures log == old(log) + [SearchCall(size)]
    {
      log := log + [SearchCall(size)];
      if !indexExists {
        r := Failure(IndexNotFound);
      } else {
        var hits := Window(docs, size);
        r := Success(SearchResponse(|docs|, hits));
      }
    }

    /** The get request for one document. */
    method Get(id: string) returns (r: Result<GetResponse, StoreError>)
      requires Valid()
      modifies this`log
      ensures Valid()
      ensures r == if !indexExists then Failure(IndexNotFound)
                   else if id in docs then Success(Found(id, docs[id]))
                   else Success(Missing(id))
      ensures log == old(log) + [GetCall(id)]
    {
      log := log + [GetCall(id)];
      if !indexExists {
        r := Failure(IndexNotFound);
      } else if id in docs {
        r := Success(Found(id, docs[id]));
      } else {
        r := Success(Missing(id));
      }
    }

    /**
     * The index request. With `create` set it is create-only and fails when
     * the id already has a document; otherwise it overwrites.
     */
    method Index(id: string, source: string, create: bool) returns (r: Result<IndexResult, StoreError>)
      requires Valid()
      modifies this`docs, this`log
      ensures Valid()
      ensures !indexExists ==> r == Failure(IndexNotFound) && docs == old(docs)
      ensures indexExists && create && id in old(docs) ==>
                r == Failure(DocumentAlreadyExists(id)) && docs == old(docs)
      ensures indexExists && !(create && id in old(docs)) ==>
                r == Success(if id in old(docs) then Updated else Created) &&
                docs == old(docs)[id := source]
      ensures log == old(log) + [IndexCall(id, source, create)]
    {
      log := log + [IndexCall(id, source, create)];
      if !indexExists {
        r := Failure(IndexNotFound);
      } else if create && id in docs {
        r := Failure(DocumentAlreadyExists(id));
      } else {
        r := Success(if id in docs then Updated else Created);
        docs := docs[id := source];
      }
    }

    /** The delete request for one document. */
    method Delete(id: string) returns (r: Result<DeleteResult, StoreError>)
      requires Valid()
      modifies this`docs, this`log
      ensures Valid()
      ensures !indexExists ==> r == Failure(IndexNotFound) && docs == old(docs)
      ensures indexExists ==>
                r == Success(if id in old(docs) then Deleted else NotFound) &&
                docs == old(docs) - {id}
      ensures log == old(log) + [DeleteCall(id)]
    {
      log := log + [DeleteCall(id)];
      if !indexExists {
        r := Failure(IndexNotFound);
      } else {
        r := Success(if id in docs then Deleted else NotFound);
        docs := docs - {id};
      }
    }
  }
}

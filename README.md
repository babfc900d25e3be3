# zentity entity-model registry, modelled in Dafny

This project models the core of zentity's `ModelsAction`, the Elasticsearch
REST handler behind `_zentity/models`. It keeps entity models, one document
per entity type, in the `.zentity-models` index. The model has two parts:

- **The self-healing registry** (`models_action.dfy`). The Elasticsearch
  client is replaced by an abstract store, the class `Store.DocumentStore`
  (`store.dfy`). The store has a flag saying whether the index exists, a map
  from entity type to model body, the settings the index was created with,
  and a ghost log of every request sent to it. Every search, get, index or
  delete request sent while the index is missing answers `IndexNotFound`; in
  the Java code that is an `IndexNotFoundException`. The existence check
  answers false and a create-index succeeds in that state.
  - Writes heal proactively. `IndexEntityModel` and `UpdateEntityModel` call
    `EnsureIndex`, which checks for the index and creates it only if absent,
    and then write: create-only for `indexEntityModel`, overwriting for
    `updateEntityModel`.
  - Reads and deletes heal reactively. `GetEntityModels`, `GetEntityModel`
    and `DeleteEntityModel` answer index-not-found by creating the index once
    and reissuing the request once, with no guard on the retry.
  - Each registry operation's contract states the request log exactly
    (`EnsureCalls`, `Healed`) and the number of create-index requests
    (`CreateCalls`). So "at most one heal, one retry" is a proved fact, not
    a comment. `HandleRequest` states the same exact logs per operation.
- **The request decision** (`dispatch.dfy`). `PrepareRequest` is a function
  from method, `entity_type`, `pretty` and body to a decision: refuse with
  400 or 501, or run one of the five registry operations. Body validation is
  the parameter `validate: string -> bool`, standing for the entity-model
  parser. `ModelsAction.HandleRequest` runs the decision against the store
  and builds the response.

`scenarios.dfy` holds client methods for typical request sequences (create then get, create twice, update twice, delete then get, a get
against a missing index, an empty body, a POST without a type). Each is proved
from the registry's contracts alone.

Index settings are recorded as `ModelsAction.ModelsIndex`: one shard, one
replica, mapping type `doc`, strict dynamic mapping, and the four disabled
objects `attributes`, `resolvers`, `matchers` and `indices`. The listing size
is `SearchSize` = 10000.

Facts about the code that the model keeps as written:
- createIndex over an existing index throws (`IndexAlreadyExists`), and
  neither ensureIndex nor the heal catches it.
- A get of a type with no document answers 200 with a not-found body
  (`Missing`). A delete of such a type answers 200 with `NotFound`. Only the
  body says "not found", never the status.
- A create-only write to an existing type is not caught by the handler. It
  leaves as `Uncaught(DocumentAlreadyExists(t))`, not as a caught response.
- A POST on a path without a type gives 501 only if its body is present and
  valid; otherwise the body checks answer 400 first. The registered routes
  (lines 58-62) always give POST, PUT and DELETE an `entity_type`. This is the
  precondition `CarriesEntityType`; without it, line 216, 227 or 238 would
  dereference null. The 501 case for POST is therefore a POST whose
  `entity_type` is the empty string.
- The rechecks of an empty body at lines 218 and 229 can never fire: the
  body check at line 190 has already refused such a body. They are modelled
  as written (`EmptyBodyOnCreate`, `EmptyBodyOnUpdate`), and the contract of
  `PrepareRequest` shows they are never chosen.

## Model

| member | source | states |
|---|---|---|
| `Store.DocumentStore.Exists` | src/main/java/org/elasticsearch/plugin/zentity/ModelsAction.java:81-82 | The existence check answers whether the index exists and changes nothing but the log. |
| `Store.DocumentStore.CreateIndex` | src/main/java/org/elasticsearch/plugin/zentity/ModelsAction.java:66-72 | Creating a missing index succeeds, leaves it existing and empty, and records its settings. Creating an existing one fails with IndexAlreadyExists and changes nothing. |
| `Store.DocumentStore.Search` | src/main/java/org/elasticsearch/plugin/zentity/ModelsAction.java:94-97 | A search of a missing index fails with IndexNotFound. Otherwise it reports the total count and at most `size` hits, all of them stored documents, every document when there are no more than `size`, and exactly `size` hits when there are more. |
| `Store.Window` | src/main/java/org/elasticsearch/plugin/zentity/ModelsAction.java:95 | The hits of a size-limited search are a sub-map of the documents. There are exactly `min(size, count)` of them, and they are all the documents when the count fits. |
| `Store.CreateCalls` | src/main/java/org/elasticsearch/plugin/zentity/ModelsAction.java:65-73 | Counts create-index requests in a log. The count is zero exactly when the log has none. |
| `Store.CreateCallsAppend` | src/main/java/org/elasticsearch/plugin/zentity/ModelsAction.java:65-73 | The create-index count of two logs together is the sum of their counts. |
| `Store.DocumentStore.Get` | src/main/java/org/elasticsearch/plugin/zentity/ModelsAction.java:112-114 | A get fails with IndexNotFound when the index is missing. Otherwise it answers the stored body, or not-found when the type has none. |
| `Store.DocumentStore.Index` | src/main/java/org/elasticsearch/plugin/zentity/ModelsAction.java:131-133 | A create-only write of an existing type fails and changes no document. Any other write sets that type's document to the body and answers Created or Updated. A write to a missing index fails with IndexNotFound. |
| `Store.DocumentStore.Delete` | src/main/java/org/elasticsearch/plugin/zentity/ModelsAction.java:159-162 | A delete removes only the given type's document and answers Deleted or NotFound. On a missing index it fails with IndexNotFound. |
| `ModelsAction.CreateIndex` | src/main/java/org/elasticsearch/plugin/zentity/ModelsAction.java:65-73 | createIndex sends exactly one create-index request with one shard, one replica and the strict "doc" mapping. It succeeds exactly when the index was missing. |
| `ModelsAction.EnsureIndex` | src/main/java/org/elasticsearch/plugin/zentity/ModelsAction.java:80-85 | ensureIndex leaves the index existing and the documents unchanged. It sends the existence check, and then a create only when the check said absent. |
| `ModelsAction.EnsureCreatesAtMostOnce` | src/main/java/org/elasticsearch/plugin/zentity/ModelsAction.java:80-85 | The requests of ensureIndex include one create-index if the index was missing, none otherwise. |
| `ModelsAction.HealedCreatesAtMostOnce` | src/main/java/org/elasticsearch/plugin/zentity/ModelsAction.java:96-101 | A reactive heal includes one create-index if the index was missing, none otherwise. The same heal shape is used at lines 113-118 and 161-166. |
| `ModelsAction.GetEntityModels` | src/main/java/org/elasticsearch/plugin/zentity/ModelsAction.java:93-102 | The listing always succeeds and leaves the index existing and the documents unchanged. It returns stored models only: all of them when at most 10000 are stored, exactly 10000 otherwise, none after a heal. Settings are unchanged when the index existed. The request log is one search, or a search, one create and one retried search. |
| `ModelsAction.GetEntityModel` | src/main/java/org/elasticsearch/plugin/zentity/ModelsAction.java:111-119 | The get always succeeds: the stored body, or not-found. After a heal it is always not-found. At most one create and one retry are sent, no document changes, and settings are unchanged when the index existed. |
| `ModelsAction.IndexEntityModel` | src/main/java/org/elasticsearch/plugin/zentity/ModelsAction.java:129-134 | The index is ensured first. If the type already has a document, the write fails with DocumentAlreadyExists and no document changes. Otherwise that type's document becomes the body and every other is unchanged. Settings are unchanged when the index existed. The log is ensureIndex's requests, then one create-only write. |
| `ModelsAction.UpdateEntityModel` | src/main/java/org/elasticsearch/plugin/zentity/ModelsAction.java:144-149 | The index is ensured first. Afterwards that type's document is the body, whether or not one existed (Updated or Created), and every other is unchanged. Settings are unchanged when the index existed. The log is ensureIndex's requests, then one overwriting write. |
| `ModelsAction.DeleteEntityModel` | src/main/java/org/elasticsearch/plugin/zentity/ModelsAction.java:158-167 | The delete removes only the given type's document, heals at most once, and answers Deleted or NotFound. Afterwards the type has no document. Settings are unchanged when the index existed. |
| `ModelsAction.HandleRequest` | src/main/java/org/elasticsearch/plugin/zentity/ModelsAction.java:183-256 | A refused request answers 400 or 501 and sends no store request: the index, documents and log are unchanged. A performed operation runs exactly one registry operation: the documents, the response, and the request log are exactly that operation's. It leaves the index existing, keeps the settings when the index existed, and answers 200 when it returns. |
| `Dispatch.PrepareRequest` | src/main/java/org/elasticsearch/plugin/zentity/ModelsAction.java:186-249 | For POST and PUT, a null or empty body gives BodyMissing and an invalid one gives InvalidModel, whatever the path. Once the body passes, the routing table alone decides. Writes receive only present, validated bodies. Status is 400 exactly when the body checks fail, 501 exactly when no route matches, and 200 exactly when an operation runs. |
| `Dispatch.PrettyIgnored` | src/main/java/org/elasticsearch/plugin/zentity/ModelsAction.java:179 | The `pretty` flag never changes the decision, so never the branch or the status. |
| `Scenarios.CreateThenGet` | src/main/java/org/elasticsearch/plugin/zentity/ModelsAction.java:129-134 | Creating a fresh type answers Created, and a following get returns that body. |
| `Scenarios.CreateTwice` | src/main/java/org/elasticsearch/plugin/zentity/ModelsAction.java:132 | A second create of a type fails with DocumentAlreadyExists, and the first body is kept. |
| `Scenarios.UpdateTwice` | src/main/java/org/elasticsearch/plugin/zentity/ModelsAction.java:147 | Two updates both succeed, the second as Updated, and a get returns the second body. |
| `Scenarios.DeleteThenGet` | src/main/java/org/elasticsearch/plugin/zentity/ModelsAction.java:158-167 | After a delete, a get of that type is not-found. |
| `Scenarios.GetHealsMissingIndex` | src/main/java/org/elasticsearch/plugin/zentity/ModelsAction.java:113-118 | On a store with no index, a get answers not-found rather than an error. The index then exists with the registry's settings, after exactly get, create-index, get. |
| `Scenarios.EmptyCreateBody` | src/main/java/org/elasticsearch/plugin/zentity/ModelsAction.java:190-191 | A POST with an empty body answers 400 without any store request, so no index is created. |
| `Scenarios.PostWithoutType` | src/main/java/org/elasticsearch/plugin/zentity/ModelsAction.java:247-248 | A POST with a valid body and an empty type answers 501, and the store is untouched. |

## Left out

- The Elasticsearch `NodeClient`, its request builders, transport and exceptions are not modelled. They are replaced by `Store.DocumentStore`, whose requests answer `IndexNotFound` while the index flag is false.
- Entity-model validation (`new Model(requestBody)`, in `io.zentity.model`) is not part of this model. It is the opaque parameter `validate`.
- XContent serialisation, `prettyPrint`, `BytesRestResponse` and sending on the channel are output encoding and I/O. A response is only its status and which operation's result it carries.
- How the host turns an uncaught exception into an HTTP status is left out. Such a response is `Uncaught(error)`.
- Handler registration in the constructor and `getName` are host plumbing. The routes only justify `CarriesEntityType`.
- The `INDEX_MAPPING` JSON text is kept only as its content in `ModelsIndex`: type name, strict dynamic mapping and the four disabled objects.
- `setRefreshPolicy("wait_for")` and the check-then-create race in `ensureIndex` concern visibility timing and concurrency. The model is sequential, and writes are visible at once.
- ModelsAction.EnsureIndex: a create-index failure inside `ensureIndex`, or inside a reactive heal, would propagate in Java. It cannot happen in the sequential model, because the index was just reported absent, so that result is not passed on.
- Store.DocumentStore.Search: which hits are returned beyond the 10000 bound, and in what order (by score), is left open. Hits are a map, not a ranked list.
- Store.DocumentStore.Index: real Elasticsearch may auto-create a missing index on a write. Here the write answers `IndexNotFound`. The registry never reaches that case, because it always ensures the index first.
- Failures of the store other than the three in `StoreError` are not modelled (node unavailability, timeouts, mapping rejections of a body).

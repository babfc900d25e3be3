/**
 * The decision `prepareRequest` makes for one REST request, before any
 * store request is sent: reject it (400 or 501), or run one of the five
 * registry operations (answered 200 when the operation returns).
 */
module Dispatch {
  import opened Wrappers

  /** The HTTP methods a REST request can carry. */
  datatype Method = GET | POST | PUT | DELETE | OPTIONS | HEAD | PATCH | TRACE | CONNECT

  /**
   * A request as the handler reads it: the method (`verb`), the `entity_type` path
   * parameter (None when the route has none), the `pretty` flag and the
   * body text (None stands for a null body).
   */
  datatype RestRequest = RestRequest(
    verb: Method,
    entityType: Option<string>,
    pretty: bool,
    body: Option<string>)

  /** The registry operation a request is routed to. */
  datatype Operation =
    | ListModels
    | GetModel(entityType: string)
    | CreateModel(entityType: string, body: string)
    | UpdateModel(entityType: string, body: string)
    | DeleteModel(entityType: string)

  /** Why a request is refused without touching the store. */
  datatype Rejection =
    | BodyMissing          // POST or PUT with a null or empty body
    | InvalidModel         // the body is not a valid entity model
    | EmptyBodyOnCreate    // POST reaching its branch with an empty body
    | EmptyBodyOnUpdate    // PUT reaching its branch with an empty body
    | NotImplemented       // no branch handles the method and path

  datatype Decision = Reject(reason: Rejection) | Perform(op: Operation)

  const OkStatus: nat := 200
  const BadRequestStatus: nat := 400
  const NotImplementedStatus: nat := 501

  /** The status sent for a decision whose operation returns normally. */
  function Status(d: Decision): nat
  {
    match d
    case Perform(_) => OkStatus
    case Reject(NotImplemented) => NotImplementedStatus
    case Reject(_) => BadRequestStatus
  }

  predicate IsWrite(m: Method)
  {
    m == POST || m == PUT
  }

  /** A null body, or an empty one. */
  predicate BodyAbsent(body: Option<string>)
  {
    body.None? || body.value == ""
  }

  /** A path with a non-empty entity type. */
  predicate Typed(entityType: Option<string>)
  {
    entityType.Some? && entityType.value != ""
  }

  /**
   * The registered routes put `{entity_type}` in every POST, PUT and DELETE
   * path, so for those methods the parameter is never null.
   */
  predicate CarriesEntityType(req: RestRequest)
  {
    (req.verb == POST || req.verb == PUT || req.verb == DELETE) ==> req.entityType.Some?
  }

  /** The body passes the checks made before routing: presence, then validation. */
  predicate BodyAdmitted(req: RestRequest, validate: string -> bool)
  {
    IsWrite(req.verb) ==> !BodyAbsent(req.body) && validate(req.body.value)
  }

  /** The routing table: method and path to operation, None for every other combination. */
  function Route(m: Method, entityType: Option<string>, body: string): Option<Operation>
  {
    match m
    case GET => Some(if Typed(entityType) then GetModel(entityType.value) else ListModels)
    case POST => if Typed(entityType) then Some(CreateModel(entityType.value, body)) else None
    case PUT => if Typed(entityType) then Some(UpdateModel(entityType.value, body)) else None
    case DELETE => if Typed(entityType) then Some(DeleteModel(entityType.value)) else None
    case _ => None
  }

  function BodyText(body: Option<string>): string
  {
    if body.Some? then body.value else ""
  }

  /**
   * The handler's decision, in the order the handler makes it: for POST and
   * PUT the body must be present and then valid; only after that is the
   * method and path routed. `validate` is the entity-model parser, which
   * either accepts a body or throws a validation error.
   */
  function PrepareRequest(req: RestRequest, validate: string -> bool): (d: Decision)
    requires CarriesEntityType(req)
    // the body checks come first, whatever the path
    ensures IsWrite(req.verb) && BodyAbsent(req.body) ==> d == Reject(BodyMissing)
    ensures IsWrite(req.verb) && !BodyAbsent(req.body) && !validate(req.body.value) ==>
              d == Reject(InvalidModel)
    // once they pass, the routing table decides
    ensures BodyAdmitted(req, validate) ==>
              d == match Route(req.verb, req.entityType, BodyText(req.body))
                   case Some(op) => Perform(op)
                   case None => Reject(NotImplemented)
    // only a present, validated body is ever handed to a write
    ensures d.Perform? && (d.op.CreateModel? || d.op.UpdateModel?) ==>
              d.op.body != "" && validate(d.op.body) && req.body == Some(d.op.body)
    // status: 400 exactly when the body checks fail, 501 exactly for an unrouted request
    ensures Status(d) == BadRequestStatus <==> !BodyAdmitted(req, validate)
    ensures Status(d) == NotImplementedStatus <==>
              BodyAdmitted(req, validate) && Route(req.verb, req.entityType, BodyText(req.body)).None?
    ensures Status(d) == OkStatus <==> d.Perform?
  {
    if IsWrite(req.verb) && (req.body.None? || req.body.value == "") then
      Reject(BodyMissing)
    else if IsWrite(req.verb) && !validate(req.body.value) then
      Reject(InvalidModel)
    else if req.verb == GET && (req.entityType.None? || req.entityType.value == "") then
      Perform(ListModels)
    else if req.verb == GET && req.entityType.value != "" then
      Perform(GetModel(req.entityType.value))
    else if req.verb == POST && req.entityType.value != "" then
      if req.body.value == "" then Reject(EmptyBodyOnCreate)
      else Perform(CreateModel(req.entityType.value, req.body.value))
    else if req.verb == PUT && req.entityType.value != "" then
      if req.body.value == "" then Reject(EmptyBodyOnUpdate)
      else Perform(UpdateModel(req.entityType.value, req.body.value))
    else if req.verb == DELETE && req.entityType.value != "" then
      Perform(DeleteModel(req.entityType.value))
    else
      Reject(NotImplemented)
  }

  /**
   * The `pretty` flag changes only formatting: never the decision, hence
   * never the status. PrepareRequest never reads `pretty`; output
   * formatting is not modelled.
   */
  lemma PrettyIgnored(req: RestRequest, validate: string -> bool)
    requires CarriesEntityType(req)
    ensures PrepareRequest(req.(pretty := true), validate) == PrepareRequest(req.(pretty := false), validate)
  {
  }
}

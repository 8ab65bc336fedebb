/** The request handlers of src/app.rs (src/lib.rs holds the same two
    handlers, word for word). The path id and the JSON body reach a handler
    already parsed by the framework: `Err` stands for a parse failure. */
module App {
  import opened Json
  import opened Results
  import opened Http
  import opened Store

  /** `GET /:type/:id`: 400 with an empty body for an id that is not a
      `usize`, without consulting the store; the not-found error when there is
      no such record; otherwise 200 with the record as the JSON body. */
  function Get(state: State, typ: string, id: Result<nat, string>): (r: Result<Response, HttpError>)
    reads state
    ensures id.Err? ==> r == Ok(Response(BAD_REQUEST, None))
    ensures id.Ok? && Lookup(state.collections, typ, id.value).None? ==> r == Err(NotFoundError(typ, id.value))
    ensures id.Ok? && Lookup(state.collections, typ, id.value).Some? ==>
      r == Ok(Response(OK, Lookup(state.collections, typ, id.value)))
    ensures StatusOf(r) == BAD_REQUEST <==> id.Err?
    ensures StatusOf(r) == NOT_FOUND <==> id.Ok? && (typ !in state.collections || |state.collections[typ]| <= id.value)
    ensures StatusOf(r) == OK <==> id.Ok? && typ in state.collections && id.value < |state.collections[typ]|
    ensures state.Valid() && StatusOf(r) == OK ==> r.Ok? && r.value.body.Some? && IsRecord(r.value.body.value)
  {
    match id
    case Err(_) => Ok(Response(BAD_REQUEST, None))
    case Ok(i) =>
      match state.GetMatched(typ, i)
      case None => Err(NotFoundError(typ, i))
      case Some(stored) => Ok(Response(OK, Some(stored)))
  }

  /** `POST /:type`: a body that does not parse, or is not an object, gives
      400 with an empty body and no insert; an object is echoed with 200 and
      appended to collection `typ`. The store's own rejection of non-objects
      is never reached. */
  method Post(state: State, typ: string, body: Result<Value, HttpError>) returns (r: Result<Response, HttpError>)
    requires state.Valid()
    modifies state
    ensures state.Valid()
    ensures body.Ok? && IsRecord(body.value) ==>
      && r == Ok(Response(OK, Some(body.value)))
      && state.collections == old(state.collections)[typ := Collection(old(state.collections), typ) + [body.value]]
    ensures !(body.Ok? && IsRecord(body.value)) ==>
      && r == Ok(Response(BAD_REQUEST, None))
      && state.collections == old(state.collections)
  {
    var insertion: Value;
    match body {
      case Ok(Object(fields)) => insertion := Object(fields);
      case _ => return Ok(Response(BAD_REQUEST, None));
    }
    var optimisticResponse := Response(OK, Some(insertion));
    // Only an object reaches `insert`, so its `?` never propagates an error.
    var _ :- assert state.InsertViaGetMut(typ, insertion);
    return Ok(optimisticResponse);
  }
}

/** The API handlers of backend/src/app.rs. The path id and the JSON body
    reach a handler already parsed by the framework: `Err` stands for a parse
    failure, with the parser's message or the framework's own error. */
module BackendApp {
  import opened Json
  import opened Results
  import opened Http
  import opened Store

  /** `GET /api/:type/:id`: an id that is not a `usize` becomes a 400 error
      carrying the parser's message, without consulting the store; a missing
      record the not-found error; otherwise 200 with the record as the JSON
      body. */
  function Get(state: State, typ: string, id: Result<nat, string>): (r: Result<Response, HttpError>)
    reads state
    ensures id.Err? ==> r == Err(HttpError(BAD_REQUEST, id.error))
    ensures id.Ok? && Lookup(state.collections, typ, id.value).None? ==> r == Err(NotFoundError(typ, id.value))
    ensures id.Ok? && Lookup(state.collections, typ, id.value).Some? ==>
      r == Ok(Response(OK, Lookup(state.collections, typ, id.value)))
    ensures StatusOf(r) == BAD_REQUEST <==> id.Err?
    ensures StatusOf(r) == NOT_FOUND <==> id.Ok? && (typ !in state.collections || |state.collections[typ]| <= id.value)
    ensures StatusOf(r) == OK <==> id.Ok? && typ in state.collections && id.value < |state.collections[typ]|
    ensures state.Valid() && StatusOf(r) == OK ==> r.Ok? && r.value.body.Some? && IsRecord(r.value.body.value)
  {
    match id
    case Err(reason) => Err(HttpError(BAD_REQUEST, reason))
    case Ok(i) =>
      var stored :- state.GetChained(typ, i).ToResult(NotFoundError(typ, i));
      Ok(Response(OK, Some(stored)))
  }

  /** `POST /api/:type`: a body that does not parse gives the framework's
      error before any store call; any parsed value is echoed in the
      optimistic 200 response, but it is returned only if `insert` accepts
      the value, so a non-object gives the store's 400 error and no change;
      an object is appended to collection `typ`. */
  method Post(state: State, typ: string, body: Result<Value, HttpError>) returns (r: Result<Response, HttpError>)
    requires state.Valid()
    modifies state
    ensures state.Valid()
    ensures body.Err? ==> r == Err(body.error) && state.collections == old(state.collections)
    ensures body.Ok? && !IsRecord(body.value) ==>
      && r == Err(HttpError(BAD_REQUEST, "Bad payload"))
      && state.collections == old(state.collections)
    ensures body.Ok? && IsRecord(body.value) ==>
      && r == Ok(Response(OK, Some(body.value)))
      && state.collections == old(state.collections)[typ := Collection(old(state.collections), typ) + [body.value]]
  {
    var insertion :- body;
    var optimisticResponse := Response(OK, Some(insertion));
    var _ :- state.InsertViaEntry(typ, insertion);
    return Ok(optimisticResponse);
  }
}

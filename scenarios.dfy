/** The repository's unit tests and the end-to-end request sequences the
    store is meant to support, as clients of the verified contracts. */
module Scenarios {
  import opened Json
  import opened Results
  import opened Http
  import opened Store
  import App
  import BackendApp

  /** The payload `{"sup": "boyy"}` of the unit tests. */
  function SupBoyy(): Value {
    Object(map["sup" := Str("boyy")])
  }

  /** `{"sup": "boyy"}` inserted into "people" on a new store is found at id 0
      (unit test of backend/src/state.rs). */
  method InsertThenGetViaEntry() returns (person: Option<Value>)
    ensures person == Some(SupBoyy())
  {
    var state := new State();
    var inserted := state.InsertViaEntry("people", SupBoyy());
    assert inserted == Ok(());
    person := state.GetChained("people", 0);
  }

  /** The same unit test for the store of src/state.rs and src/lib.rs. */
  method InsertThenGetViaGetMut() returns (person: Option<Value>)
    ensures person == Some(SupBoyy())
  {
    var state := new State();
    var inserted := state.InsertViaGetMut("people", SupBoyy());
    assert inserted == Ok(());
    person := state.GetMatched("people", 0);
  }

  /** `POST /people {"sup":"boyy"}` then `GET /people/0` on a new server:
      both 200, both with body `{"sup":"boyy"}`. */
  method PostThenGetPeople() returns (posted: Result<Response, HttpError>, fetched: Result<Response, HttpError>)
    ensures posted == Ok(Response(OK, Some(SupBoyy())))
    ensures fetched == Ok(Response(OK, Some(SupBoyy())))
  {
    var state := new State();
    posted := App.Post(state, "people", Ok(SupBoyy()));
    fetched := App.Get(state, "people", Ok(0));
  }

  /** `POST /people [1,2,3]` then `GET /people/0` on a new server: 400, then
      404, because the rejected post did not create the collection. */
  method PostArrayThenGet() returns (posted: Result<Response, HttpError>, fetched: Result<Response, HttpError>)
    ensures posted == Ok(Response(BAD_REQUEST, None))
    ensures fetched == Err(NotFoundError("people", 0))
  {
    var state := new State();
    posted := App.Post(state, "people", Ok(Array([Num(1.0), Num(2.0), Num(3.0)])));
    fetched := App.Get(state, "people", Ok(0));
  }

  /** The same sequence against the backend API, where the rejection comes
      from the store's "Bad payload" error. */
  method BackendPostArrayThenGet() returns (posted: Result<Response, HttpError>, fetched: Result<Response, HttpError>)
    ensures posted == Err(HttpError(BAD_REQUEST, "Bad payload"))
    ensures fetched == Err(NotFoundError("people", 0))
  {
    var state := new State();
    posted := BackendApp.Post(state, "people", Ok(Array([Num(1.0), Num(2.0), Num(3.0)])));
    fetched := BackendApp.Get(state, "people", Ok(0));
  }

  /** `GET /ghosts/0` on a name never used: 404. */
  method GetUnusedName() returns (fetched: Result<Response, HttpError>, backendFetched: Result<Response, HttpError>)
    ensures fetched == Err(NotFoundError("ghosts", 0))
    ensures backendFetched == Err(NotFoundError("ghosts", 0))
  {
    var state := new State();
    fetched := App.Get(state, "ghosts", Ok(0));
    backendFetched := BackendApp.Get(state, "ghosts", Ok(0));
  }

  /** On any store, an object posted to `typ` is returned by a get of the id
      equal to the collection's length before the post; the backend's get
      agrees. */
  method PostThenGetAnywhere(state: State, typ: string, record: Value)
    returns (id: nat, posted: Result<Response, HttpError>, fetched: Result<Response, HttpError>)
    requires IsRecord(record) && state.Valid()
    modifies state
    ensures state.Valid()
    ensures id == |Collection(old(state.collections), typ)|
    ensures posted == Ok(Response(OK, Some(record)))
    ensures fetched == Ok(Response(OK, Some(record)))
    ensures |Collection(state.collections, typ)| == id + 1
    ensures BackendApp.Get(state, typ, Ok(id)) == fetched
  {
    id := |Collection(state.collections, typ)|;
    posted := App.Post(state, typ, Ok(record));
    fetched := App.Get(state, typ, Ok(id));
  }
}

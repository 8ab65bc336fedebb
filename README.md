# A verified model of a minimal JSON document store

The repository is a small HTTP document store written in Rust on the tide
framework. Clients `POST` JSON objects to a named collection and `GET` them
back by position (`GET /<collection>/<id>`). All state lives in one in-memory
`State` that maps a collection name to a vector of JSON values. The
repository has three near-identical copies of that store:

- backend/src/state.rs, behind an `RwLock`, using `entry().or_insert` and `push`;
- src/state.rs, behind a `Mutex`, using `get_mut`/`push`, or else `insert(vec![payload])`;
- src/lib.rs, which repeats the `State` implementation of src/state.rs; the behaviour is identical.

There are also two sets of request handlers: src/app.rs, repeated word for
word in src/lib.rs, and backend/src/app.rs.

This project models them as follows.

- `Json.Value` has Object / Array / Str / Num / Bool / Null. A record is an `Object`.
- `Store.State` is a class with one field, `collections: map<string, seq<Value>>`.
  Its invariant `Valid()` is payload validity (`AllRecords`): every stored value is a JSON object.
  - `InsertViaEntry` and `GetChained` are the backend's `insert` and `get`.
  - `InsertViaGetMut` and `GetMatched` are the `insert` and `get` of src/state.rs and src/lib.rs.
  - Each is proved against the specification functions `Lookup`, `InsertReply` and `InsertEffect`.
- `StoreLaws` proves properties of one insert and one lookup. It also proves
  properties of any serial run of inserts (`Run`). The store's lock
  serialises concurrent inserts, so any concurrent history is such a run. The
  properties: records are appended in order and none is lost, ids are stable,
  and collection names are only ever added.
- `App` and `BackendApp` hold the two sets of handlers.
  - The `get` handlers are functions that only read the store.
  - The `post` handlers are methods that modify it.
  - Each handler states its status code, its body and its effect on the store.
- `Scenarios` holds the repository's unit test and the end-to-end request
  sequences, as client methods that use only the contracts above.

The framework's parsing is abstracted to values that are already parsed.
The path id arrives as `Result<nat, string>`, where `Err` carries the
parser's message. The body arrives as `Result<Value, HttpError>`, where
`Err` carries the framework's own error. Rust's `?` is modelled with Dafny's
`:-`. In `App.Post` it is written `:- assert`. The call to `insert` there
only ever receives an object, so its `?` never propagates an error, and the
assertion proves this.

Two behaviours of the code are easy to miss, and the model follows the code in both.
- For a body that does not parse, backend/src/app.rs:58 returns whatever
  error the framework produced, not necessarily a 400. The model carries that
  error through unchanged.
- The two handler sets report an unparsable id differently. src/app.rs
  answers with a 400 response and an empty body. backend/src/app.rs raises a
  400 error that carries the parser's message.

## Model

| member | source | states |
|---|---|---|
| Store.State.constructor | backend/src/state.rs:18-22 | `State::new` starts with no collections at all, so the invariant holds |
| Store.State.InsertViaEntry | backend/src/state.rs:25-35 | returns `Ok(())` for an object and the 400 "Bad payload" error otherwise; the new map is the old one with the object appended to collection `typ` (created if absent), or the old map unchanged on rejection; the invariant that only records are stored is kept |
| Store.State.InsertViaGetMut | src/state.rs:26-39 | same contract, invariant included, for the `get_mut`/`push`-or-`insert(vec![payload])` code of src/state.rs and src/lib.rs:36-49 |
| Store.State.GetChained | backend/src/state.rs:38-40 | the `?` chain finds a record exactly when the collection exists and the id is below its length, and then it is the record at that id; it only reads the store, so repeated gets with no insert between them agree |
| Store.State.GetMatched | src/state.rs:42-50 | the same for the nested `if let` lookup of src/state.rs and src/lib.rs:52-60 |
| StoreLaws.RejectedInsertChangesNothing | backend/src/state.rs:26-29 | a non-object gets the 400 "Bad payload" error and leaves the whole map unchanged |
| StoreLaws.InsertThenLookup | backend/src/state.rs:31-33 | after an accepted insert into a collection of length n, its length is n+1 and id n holds the payload |
| StoreLaws.InsertCreatesCollection | src/state.rs:35-36 | the first insert into an unused name creates exactly `[payload]` |
| StoreLaws.InsertIsAppendOnly | src/state.rs:32-38 | an insert changes no other collection and no record already stored at any id |
| StoreLaws.InsertKeepsNames | backend/src/state.rs:32 | the names after an insert are the old names, plus `typ` if the payload was accepted |
| StoreLaws.LookupIsTotal | src/lib.rs:52-60 | a lookup is absent exactly when the collection is missing or the id is out of range; otherwise it is the stored record |
| StoreLaws.EmptyStoreHoldsNothing | src/state.rs:19-23 | on a new store every name and id is absent |
| StoreLaws.RunAppends | backend/src/state.rs:31-34 | after any serial run of inserts, each collection is its old contents followed by exactly the records accepted into it, in insertion order |
| StoreLaws.RunKeepsNames | src/state.rs:32-37 | no run of inserts removes a collection name |
| StoreLaws.StableIds | src/lib.rs:42-47 | a record found at an id before a run of inserts is found unchanged at the same id after it |
| StoreLaws.EmptyStoreHoldsRecords | backend/src/state.rs:18-22 | a new store satisfies payload validity |
| StoreLaws.InsertKeepsRecords | backend/src/state.rs:26-33 | an insert keeps every stored value an object, because a non-object returns before the map is touched |
| StoreLaws.RunKeepsRecords | src/state.rs:27-37 | any serial run of inserts keeps every stored value an object |
| StoreLaws.LookupYieldsRecord | src/state.rs:42-50 | on a store holding only records, every record a lookup finds is an object |
| StoreLaws.NoLostRecords | src/state.rs:32-34 | k accepted inserts into one collection of length n grow it by exactly k, and the j-th admitted record is at id n+j |
| Http.Decimal | backend/src/app.rs:44 | the id in the not-found message is a non-empty string of decimal digits with no leading zero |
| Http.DecimalRoundTrip | src/app.rs:28 | reading the rendered id back as a decimal gives the id |
| Http.DecimalInjective | src/lib.rs:76 | distinct ids render to distinct digit strings |
| Http.NotFoundMessageInjective | src/app.rs:26-29 | in one collection, distinct ids give distinct not-found messages |
| Http.NotFoundError | backend/src/app.rs:42-45 | the not-found error has status 404 and a message that starts with the collection name |
| App.Get | src/app.rs:16-36 | an unparsable id gives a 400 response with no body, before any store lookup; a missing record gives the 404 error; a found record gives 200 with that record as its JSON body. Each status happens exactly in its own case, and on a valid store a 200 body is an object (the same handler is src/lib.rs:64-84) |
| App.Post | src/app.rs:39-55 | a body that is unparsable or not an object gives 400 with no body and leaves the store unchanged; an object gives 200 echoing exactly that object and is appended to collection `typ`; the store's rejection is never reached (the same handler is src/lib.rs:87-103) |
| BackendApp.Get | backend/src/app.rs:36-53 | an unparsable id gives a 400 error carrying the parser's message, before any lookup; a missing record gives the 404 error; a found record gives 200 with that record as its body. Each status happens exactly in its own case, and on a valid store a 200 body is an object |
| BackendApp.Post | backend/src/app.rs:56-67 | an unparsable body returns the framework's error with no store call; a non-object is rejected by insert with the 400 "Bad payload" error and no change; an object gives 200 echoing it and is appended to collection `typ` |
| Scenarios.InsertThenGetViaEntry | backend/src/state.rs:49-55 | inserting `{"sup":"boyy"}` into "people" on a new store makes id 0 return it |
| Scenarios.InsertThenGetViaGetMut | src/state.rs:59-65 | the same unit test against the store of src/state.rs (and src/lib.rs:111-117) |
| Scenarios.PostThenGetPeople | src/lib.rs:87-103 | `POST /people {"sup":"boyy"}` then `GET /people/0` on a new server both give 200 with body `{"sup":"boyy"}` |
| Scenarios.PostArrayThenGet | src/lib.rs:89-94 | `POST /people [1,2,3]` gives a 400 response with no body and creates nothing, so the following `GET /people/0` gives the not-found error for "people", 0 |
| Scenarios.BackendPostArrayThenGet | backend/src/app.rs:58-64 | the same sequence against the backend gives the "Bad payload" error, then the not-found error |
| Scenarios.GetUnusedName | src/app.rs:23-31 | `GET /ghosts/0` on a never-used name gives the not-found error through both sets of handlers |
| Scenarios.PostThenGetAnywhere | src/lib.rs:96-102 | on any store, an object posted to `typ` is returned with 200 by a get of the collection's old length, the backend's get returns the same, and the collection grew by one |

## Left out

- Locking (`Arc<Mutex>`, `RwLock`) and `.await`: each `insert` and `get` is one atomic step on the map. Concurrent histories are covered as serial runs of inserts (`StoreLaws.Run`). The model does not show that the locks give that serial order.
- JSON parsing and serialisation (serde, `body_json`, `Body::from_json`, `body_json(&stored)`) are library calls. Parsed inputs arrive as `Result` values. The `?` after serialising a response body is not modelled, because serialising a `Value` does not fail.
- Path-parameter extraction (`req.param`) is framework plumbing. The collection name is an ordinary string argument, and the `?` on `req.param("type")` is not modelled. The router always supplies that parameter.
- The `usize` range of ids: an id is a `nat`. Rejecting an id above `usize::MAX` is part of the abstracted parse.
- Route registration (`app()` in src/lib.rs, src/app.rs and backend/src/app.rs), because it is framework setup.
- Static file serving (backend/src/app.rs:13-30), because it is file I/O.
- Process bootstrap (src/main.rs, backend/src/bin/server.rs: the `PORT` variable and listening), because it is I/O and configuration.
- The frontend (frontend/src/lib.rs), a browser UI counter unrelated to the store.
- Response headers and content types: `Response.body == Some(v)` stands for a JSON body with content type application/json.
- JSON numbers are exact decimals (`real`). Floating-point rounding in serde is not modelled.

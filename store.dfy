/** The in-memory key-to-vector store `State`: a map from collection name to
    the records inserted into it, in insertion order. Locking is not modelled;
    each `insert` and `get` is one atomic step on the map. */
module Store {
  import opened Json
  import opened Results
  import opened Http

  type Collections = map<string, seq<Value>>

  // ---------------------------------------------------------------------
  // Specification: what a store holds and what insert and get mean.
  // ---------------------------------------------------------------------

  /** The records of collection `typ`; a name never used holds none. */
  function Collection(m: Collections, typ: string): seq<Value> {
    if typ in m then m[typ] else []
  }

  /** The record with id `id` in collection `typ`, if there is one. */
  function Lookup(m: Collections, typ: string, id: nat): Option<Value> {
    if typ in m && id < |m[typ]| then Some(m[typ][id]) else None
  }

  /** Payload validity: every stored value is a JSON object. */
  ghost predicate AllRecords(m: Collections) {
    forall typ, id :: typ in m && 0 <= id < |m[typ]| ==> IsRecord(m[typ][id])
  }

  /** The error `insert` gives for a payload that is not an object. */
  function BadPayload(): HttpError {
    HttpError(BAD_REQUEST, "Bad payload")
  }

  /** What `insert(typ, payload)` returns. */
  function InsertReply(payload: Value): Result<(), HttpError> {
    if IsRecord(payload) then Ok(()) else Err(BadPayload())
  }

  /** The map after `insert(typ, payload)`: an object is appended to its
      collection, which is created if absent; anything else changes nothing. */
  function InsertEffect(m: Collections, typ: string, payload: Value): Collections {
    if IsRecord(payload) then m[typ := Collection(m, typ) + [payload]] else m
  }

  // ---------------------------------------------------------------------
  // The store object.
  // ---------------------------------------------------------------------

  /** `HashMap::get`. */
  function MapGet(m: Collections, typ: string): Option<seq<Value>> {
    if typ in m then Some(m[typ]) else None
  }

  /** `<[T]>::get` on a vector. */
  function ElementAt(s: seq<Value>, id: nat): Option<Value> {
    if id < |s| then Some(s[id]) else None
  }

  class State {
    /** Map from collection name to the collection's records. */
    var collections: Collections

    /** The store's invariant: collections hold only records. */
    ghost predicate Valid()
      reads this
    {
      AllRecords(collections)
    }

    /** `State::new`: an empty map. */
    constructor ()
      ensures Valid()
      ensures collections == map[]
    {
      collections := map[];
    }

    /** `State::insert` of backend/src/state.rs: reject a non-object before
        touching the map, then `entry(typ).or_insert(vec![])` and `push`. */
    method InsertViaEntry(typ: string, payload: Value) returns (r: Result<(), HttpError>)
      requires Valid()
      modifies this
      ensures Valid()
      ensures r == InsertReply(payload)
      ensures collections == InsertEffect(old(collections), typ, payload)
    {
      var record: Value;
      match payload {
        case Object(fields) => record := Object(fields);
        case _ => return Err(BadPayload());
      }
      if typ !in collections {
        collections := collections[typ := []];
      }
      var collection := collections[typ];
      collections := collections[typ := collection + [record]];
      return Ok(());
    }

    /** `State::insert` of src/state.rs and src/lib.rs: reject a non-object,
        then push onto the existing vector or insert `vec![payload]`. */
    method InsertViaGetMut(typ: string, payload: Value) returns (r: Result<(), HttpError>)
      requires Valid()
      modifies this
      ensures Valid()
      ensures r == InsertReply(payload)
      ensures collections == InsertEffect(old(collections), typ, payload)
    {
      var record: Value;
      match payload {
        case Object(fields) => record := Object(fields);
        case _ => return Err(BadPayload());
      }
      if typ in collections {
        collections := collections[typ := collections[typ] + [record]];
      } else {
        assert Collection(collections, typ) + [record] == [record];
        collections := collections[typ := [record]];
      }
      return Ok(());
    }

    /** `State::get` of backend/src/state.rs: `get(typ)?.get(id)?.clone()`. */
    function GetChained(typ: string, id: nat): (r: Option<Value>)
      reads this
      ensures r.Some? <==> typ in collections && id < |collections[typ]|
      ensures r.Some? ==> r.value == collections[typ][id]
      ensures r == Lookup(collections, typ, id)
    {
      var collection :- MapGet(collections, typ);
      var record :- ElementAt(collection, id);
      Some(record)
    }

    /** `State::get` of src/state.rs and src/lib.rs: two nested `if let`s,
        falling through to `None`. */
    function GetMatched(typ: string, id: nat): (r: Option<Value>)
      reads this
      ensures r.Some? <==> typ in collections && id < |collections[typ]|
      ensures r.Some? ==> r.value == collections[typ][id]
      ensures r == Lookup(collections, typ, id)
    {
      match MapGet(collections, typ)
      case Some(c) =>
        (match ElementAt(c, id)
         case Some(v) => Some(v)
         case None => None)
      case None => None
    }
  }
}

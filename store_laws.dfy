/** Properties of the store's specification: what one insert does, what a
    lookup answers, and what any serial order of inserts preserves. */
module StoreLaws {
  import opened Json
  import opened Results
  import opened Http
  import opened Store

  /** A rejected payload leaves every collection as it was. */
  lemma RejectedInsertChangesNothing(m: Collections, typ: string, payload: Value)
    requires !IsRecord(payload)
    ensures InsertReply(payload) == Err(HttpError(BAD_REQUEST, "Bad payload"))
    ensures InsertEffect(m, typ, payload) == m
  {
  }

  /** An accepted record gets the next id: the collection grows by one and
      the record is found at the old length. */
  lemma InsertThenLookup(m: Collections, typ: string, payload: Value)
    requires IsRecord(payload)
    ensures InsertReply(payload) == Ok(())
    ensures |Collection(InsertEffect(m, typ, payload), typ)| == |Collection(m, typ)| + 1
    ensures Lookup(InsertEffect(m, typ, payload), typ, |Collection(m, typ)|) == Some(payload)
  {
  }

  /** The first insert into a name creates exactly the one-record collection. */
  lemma InsertCreatesCollection(m: Collections, typ: string, payload: Value)
    requires IsRecord(payload) && typ !in m
    ensures InsertEffect(m, typ, payload)[typ] == [payload]
  {
  }

  /** An insert changes no record already stored, in any collection, and
      no other collection at all. */
  lemma InsertIsAppendOnly(m: Collections, typ: string, payload: Value, other: string, id: nat)
    ensures other != typ ==> Collection(InsertEffect(m, typ, payload), other) == Collection(m, other)
    ensures Lookup(m, other, id).Some? ==> Lookup(InsertEffect(m, typ, payload), other, id) == Lookup(m, other, id)
  {
  }

  /** The set of names only grows, by the inserted name at most. */
  lemma InsertKeepsNames(m: Collections, typ: string, payload: Value)
    ensures m.Keys <= InsertEffect(m, typ, payload).Keys
    ensures InsertEffect(m, typ, payload).Keys == if IsRecord(payload) then m.Keys + {typ} else m.Keys
  {
  }

  /** A lookup is total: it finds the record exactly when the collection
      exists and the id is in range, and reports absence otherwise. */
  lemma LookupIsTotal(m: Collections, typ: string, id: nat)
    ensures Lookup(m, typ, id) == None <==> typ !in m || |m[typ]| <= id
    ensures Lookup(m, typ, id).Some? ==> Lookup(m, typ, id).value == Collection(m, typ)[id]
  {
  }

  /** A new store holds nothing. */
  lemma EmptyStoreHoldsNothing(typ: string, id: nat)
    ensures Lookup(map[], typ, id) == None
  {
  }

  // ---------------------------------------------------------------------
  // Serial runs of inserts. Concurrent inserts are serialized by the lock,
  // so every concurrent history is one of these runs.
  // ---------------------------------------------------------------------

  datatype Insertion = Insertion(typ: string, payload: Value)

  /** The map after performing `ops` in order. */
  function Run(m: Collections, ops: seq<Insertion>): Collections
    decreases |ops|
  {
    if ops == [] then m
    else
      var last := ops[|ops| - 1];
      InsertEffect(Run(m, ops[..|ops| - 1]), last.typ, last.payload)
  }

  /** The payloads of `ops` that are accepted into collection `typ`, in order. */
  function Accepted(ops: seq<Insertion>, typ: string): seq<Value>
    decreases |ops|
  {
    if ops == [] then []
    else
      var last := ops[|ops| - 1];
      Accepted(ops[..|ops| - 1], typ)
        + (if last.typ == typ && IsRecord(last.payload) then [last.payload] else [])
  }

  /** After a run, each collection is what it held before followed by exactly
      the records accepted into it, in the order they were inserted: no
      record is lost, reordered or renumbered. */
  lemma {:induction false} RunAppends(m: Collections, ops: seq<Insertion>, typ: string)
    ensures Collection(Run(m, ops), typ) == Collection(m, typ) + Accepted(ops, typ)
    decreases |ops|
  {
    if ops != [] {
      RunAppends(m, ops[..|ops| - 1], typ);
    }
  }

  /** A run never removes a collection name. */
  lemma {:induction false} RunKeepsNames(m: Collections, ops: seq<Insertion>)
    ensures m.Keys <= Run(m, ops).Keys
    decreases |ops|
  {
    if ops != [] {
      RunKeepsNames(m, ops[..|ops| - 1]);
    }
  }

  /** Ids are stable: a record found before a run is found, unchanged, at the
      same id after it. */
  lemma {:induction false} StableIds(m: Collections, ops: seq<Insertion>, typ: string, id: nat)
    requires Lookup(m, typ, id).Some?
    ensures Lookup(Run(m, ops), typ, id) == Lookup(m, typ, id)
  {
    RunAppends(m, ops, typ);
    RunKeepsNames(m, ops);
  }

  /** `k` successful inserts into one collection, in whatever order the lock
      admits them, grow it by exactly `k` and leave the `j`-th admitted
      record at id `n + j`, where `n` is the length before. */
  lemma {:induction false} NoLostRecords(m: Collections, ops: seq<Insertion>, typ: string)
    requires forall j :: 0 <= j < |ops| ==> ops[j].typ == typ && IsRecord(ops[j].payload)
    ensures |Collection(Run(m, ops), typ)| == |Collection(m, typ)| + |ops|
    ensures forall j :: 0 <= j < |ops| ==>
      Lookup(Run(m, ops), typ, |Collection(m, typ)| + j) == Some(ops[j].payload)
  {
    RunAppends(m, ops, typ);
    AcceptedAll(ops, typ);
  }

  /** When every insertion goes to `typ` and is a record, all are accepted. */
  lemma {:induction false} AcceptedAll(ops: seq<Insertion>, typ: string)
    requires forall j :: 0 <= j < |ops| ==> ops[j].typ == typ && IsRecord(ops[j].payload)
    ensures |Accepted(ops, typ)| == |ops|
    ensures forall j :: 0 <= j < |ops| ==> Accepted(ops, typ)[j] == ops[j].payload
    decreases |ops|
  {
    if ops != [] {
      AcceptedAll(ops[..|ops| - 1], typ);
    }
  }

  // ---------------------------------------------------------------------
  // Payload validity.
  // ---------------------------------------------------------------------

  /** A new store holds only records, vacuously. */
  lemma EmptyStoreHoldsRecords()
    ensures AllRecords(map[])
  {
  }

  /** An insert keeps the store holding only records: a non-object never
      reaches a collection. */
  lemma InsertKeepsRecords(m: Collections, typ: string, payload: Value)
    requires AllRecords(m)
    ensures AllRecords(InsertEffect(m, typ, payload))
  {
  }

  /** Any run of inserts keeps the store holding only records. */
  lemma {:induction false} RunKeepsRecords(m: Collections, ops: seq<Insertion>)
    requires AllRecords(m)
    ensures AllRecords(Run(m, ops))
    decreases |ops|
  {
    if ops != [] {
      RunKeepsRecords(m, ops[..|ops| - 1]);
      var last := ops[|ops| - 1];
      InsertKeepsRecords(Run(m, ops[..|ops| - 1]), last.typ, last.payload);
    }
  }

  /** On a store holding only records, a successful lookup yields a record. */
  lemma LookupYieldsRecord(m: Collections, typ: string, id: nat)
    requires AllRecords(m)
    ensures Lookup(m, typ, id).Some? ==> IsRecord(Lookup(m, typ, id).value)
  {
  }
}

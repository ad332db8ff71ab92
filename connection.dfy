/** Per-collection bookkeeping of one adapter connection: the `collections`
    and `dbs` maps, the schema a store's attributes are finalised into when it
    is loaded, and the id handling around the store calls. The nedb store is
    not modelled: each call on it is recorded as a request and its reply is a
    parameter. */
module Connections {
  import opened Wrappers
  import opened Json
  import Utils

  /** A registered collection: its identity, its attribute definitions, and
      the schema cached once its store has been loaded. */
  datatype Collection = Collection(identity: string, definition: Fields, schema: Option<Fields>)

  /** The nedb datastore opened for a collection (its file path is not modelled). */
  datatype Store = Store(collection: string)

  /** A call made on a collection's store. */
  datatype StoreRequest =
    | EnsureIndex(on: string, fieldName: string, sparse: bool, unique: Value)
    | InsertOne(on: string, doc: Value)
    | InsertMany(on: string, docs: seq<Value>)
    | Find(on: string, filter: Value)
    | UpdateAll(on: string, filter: Value, change: Value, multi: bool)
    | RemoveAll(on: string, multi: bool)
    | Unlink(on: string)

  /** The two maps a connection keeps; both stay unset until the connection's
      directory has been created. */
  datatype State = State(collections: Option<map<string, Collection>>, dbs: Option<map<string, Store>>)

  /** What a state-changing operation does: the new state, the store calls it
      made, and the value passed to its callback (`None`: never called). */
  datatype Step<T> = Step(state: State, requests: seq<StoreRequest>, reply: Option<Result<T, AdapterError>>)

  /** What a read-only operation does: its store calls and its callback value. */
  datatype Answer<T> = Answer(requests: seq<StoreRequest>, result: Result<T, AdapterError>)

  /** Every cached definition and schema is a JavaScript object, so its keys are distinct. */
  predicate WellFormed(s: State)
  {
    s.collections.Some? ==> forall id :: id in s.collections.value ==> ObjectFields(s.collections.value[id])
  }

  predicate ObjectFields(c: Collection)
  {
    DistinctKeys(c.definition) && (c.schema.Some? ==> DistinctKeys(c.schema.value))
  }

  /** `null` or `undefined`: property access on it throws. */
  predicate Nullish(v: Value)
  {
    v.Undef? || v.Null?
  }

  /* ---------- schema finalisation (processKey) ---------- */

  /** `if (attr.autoIncrement) delete attr.autoIncrement`. */
  function WithoutAutoIncrement(attr: Value): (r: Value)
    ensures !Truthy(Member(r, Name("autoIncrement")))
    ensures forall k :: k != "autoIncrement" ==> Member(r, Name(k)) == Member(attr, Name(k))
    ensures r.Obj? <==> attr.Obj?
  {
    if Truthy(Member(attr, Name("autoIncrement"))) then
      GetDeleteOthers(attr.fields, "autoIncrement");
      Remove(attr, Name("autoIncrement"))
    else attr
  }

  /** An attribute asks for an index when it is `unique` or `index`. */
  predicate WantsIndex(attr: Value)
  {
    Truthy(Member(attr, Name("unique"))) || Truthy(Member(attr, Name("index")))
  }

  /** One attribute after `processKey`; `indexed` says whether the store
      accepted the index it asked for. */
  function ProcessedAttribute(attr: Value, indexed: bool): (r: Value)
    ensures !Truthy(Member(r, Name("autoIncrement")))
    ensures Member(r, Name("indexed")) ==
      if WantsIndex(attr) && indexed then Bool(true) else Member(attr, Name("indexed"))
    ensures forall k :: k != "autoIncrement" && k != "indexed" ==> Member(r, Name(k)) == Member(attr, Name(k))
  {
    var a := WithoutAutoIncrement(attr);
    assert WantsIndex(a) == WantsIndex(attr) by {
      assert Member(a, Name("unique")) == Member(attr, Name("unique"));
      assert Member(a, Name("index")) == Member(attr, Name("index"));
    }
    if WantsIndex(a) && indexed then
      GetSetSame(a.fields, "indexed", Bool(true));
      GetSetOthers(a.fields, "indexed", Bool(true));
      Assign(a, Name("indexed"), Bool(true))
    else a
  }

  /** The cloned definition once every key has been processed. */
  function ProcessedDefinition(def: Fields, indexError: string -> Option<string>): Fields
  {
    seq(|def|, i requires 0 <= i < |def| => (def[i].0, ProcessedAttribute(def[i].1, indexError(def[i].0).None?)))
  }

  /** The index request `processKey` makes for one attribute. */
  function IndexRequest(on: string, field: (string, Value)): StoreRequest
  {
    EnsureIndex(on, field.0, true, Member(field.1, Name("unique")))
  }

  /** The index requests of a definition, in key order. */
  function IndexRequests(on: string, def: Fields): seq<StoreRequest>
  {
    if def == [] then []
    else
      var last := def[|def| - 1];
      IndexRequests(on, def[..|def| - 1]) + (if WantsIndex(last.1) then [IndexRequest(on, last)] else [])
  }

  /** The error reported for a definition: the first refused index, in key order. */
  function FirstIndexError(def: Fields, indexError: string -> Option<string>): Option<string>
  {
    if def == [] then None
    else
      var last := def[|def| - 1];
      var prev := FirstIndexError(def[..|def| - 1], indexError);
      if prev.Some? then prev
      else if WantsIndex(last.1) then indexError(last.0)
      else None
  }

  /** One index request per attribute that wants an index, and no other. */
  lemma {:induction false} IndexRequestsExactly(on: string, def: Fields)
    ensures forall q :: q in IndexRequests(on, def) <==>
      exists i :: 0 <= i < |def| && WantsIndex(def[i].1) && q == IndexRequest(on, def[i])
  {
    if def != [] {
      var init := def[..|def| - 1];
      var last := def[|def| - 1];
      IndexRequestsExactly(on, init);
      var r := IndexRequests(on, def);
      assert r == IndexRequests(on, init) + (if WantsIndex(last.1) then [IndexRequest(on, last)] else []);
      forall q | q in r ensures exists i :: 0 <= i < |def| && WantsIndex(def[i].1) && q == IndexRequest(on, def[i]) {
        if q in IndexRequests(on, init) {
          var i :| 0 <= i < |init| && WantsIndex(init[i].1) && q == IndexRequest(on, init[i]);
          assert init[i] == def[i];
        } else {
          assert def[|def| - 1] == last;
        }
      }
      forall q | exists i :: 0 <= i < |def| && WantsIndex(def[i].1) && q == IndexRequest(on, def[i]) ensures q in r {
        var i :| 0 <= i < |def| && WantsIndex(def[i].1) && q == IndexRequest(on, def[i]);
        if i < |def| - 1 {
          assert init[i] == def[i];
        }
      }
    }
  }

  /** Loading fails exactly when some attribute's index is refused, and then
      with the error of one of them. */
  lemma {:induction false} FirstIndexErrorExactly(def: Fields, indexError: string -> Option<string>)
    ensures FirstIndexError(def, indexError).None? <==>
      forall i :: 0 <= i < |def| && WantsIndex(def[i].1) ==> indexError(def[i].0).None?
    ensures FirstIndexError(def, indexError).Some? ==>
      exists i :: 0 <= i < |def| && WantsIndex(def[i].1) && indexError(def[i].0) == FirstIndexError(def, indexError)
  {
    if def != [] {
      var init := def[..|def| - 1];
      FirstIndexErrorExactly(init, indexError);
      assert forall i :: 0 <= i < |init| ==> init[i] == def[i];
    }
  }

  /** `processKey(key)`: drops a truthy `autoIncrement`; an attribute that
      wants an index asks the store for a sparse index on its key and is
      marked `indexed` when the store accepts it. */
  method ProcessKey(on: string, key: string, attr: Value, indexError: string -> Option<string>)
    returns (processed: Value, request: seq<StoreRequest>, error: Option<string>)
    ensures processed == ProcessedAttribute(attr, indexError(key).None?)
    ensures request == if WantsIndex(attr) then [IndexRequest(on, (key, attr))] else []
    ensures error == if WantsIndex(attr) then indexError(key) else None
  {
    processed := attr;
    if Truthy(Member(processed, Name("autoIncrement"))) {
      processed := Remove(processed, Name("autoIncrement"));
    }
    assert processed == WithoutAutoIncrement(attr);
    assert Member(processed, Name("unique")) == Member(attr, Name("unique"));
    assert Member(processed, Name("index")) == Member(attr, Name("index"));
    request := [];
    error := None;
    if Truthy(Member(processed, Name("unique"))) || Truthy(Member(processed, Name("index"))) {
      request := [EnsureIndex(on, key, true, Member(processed, Name("unique")))];
      match indexError(key)
      case None =>
        processed := Assign(processed, Name("indexed"), Bool(true));
      case Some(e) =>
        error := Some(e);
    }
  }

  /** `processKey` applied to every key of the cloned definition. The keys
      are processed one after another and every key is processed; the first
      refused index is the error reported. */
  method ProcessKeys(on: string, def: Fields, indexError: string -> Option<string>)
    returns (processed: Fields, requests: seq<StoreRequest>, error: Option<string>)
    requires DistinctKeys(def)
    ensures processed == ProcessedDefinition(def, indexError)
    ensures requests == IndexRequests(on, def)
    ensures error == FirstIndexError(def, indexError)
  {
    var keys := OwnKeys(def);
    DistinctKeysOwnKeys(def);
    processed := def;
    requests := [];
    error := None;
    var i := 0;
    while i < |keys|
      invariant 0 <= i <= |def| && keys == Keys(def)
      invariant processed == ProcessedDefinition(def, indexError)[..i] + def[i..]
      invariant requests == IndexRequests(on, def[..i])
      invariant error == FirstIndexError(def[..i], indexError)
    {
      processed, requests, error := ProcessNextKey(on, def, i, keys[i], processed, requests, error, indexError);
      i := i + 1;
    }
    assert i == |def|;
    TakeAll(def);
    TakeAll(ProcessedDefinition(def, indexError));
  }

  /** One turn of the `_.each` loop of `loadDB`: `processKey` on the `i`-th
      key, with its request and its error added to the ones before. */
  method ProcessNextKey(on: string, def: Fields, i: nat, key: string, processed: Fields,
                        requests: seq<StoreRequest>, error: Option<string>, indexError: string -> Option<string>)
    returns (processed': Fields, requests': seq<StoreRequest>, error': Option<string>)
    requires DistinctKeys(def) && i < |def| && key == def[i].0
    requires processed == ProcessedDefinition(def, indexError)[..i] + def[i..]
    requires requests == IndexRequests(on, def[..i])
    requires error == FirstIndexError(def[..i], indexError)
    ensures processed' == ProcessedDefinition(def, indexError)[..i + 1] + def[i + 1..]
    ensures requests' == IndexRequests(on, def[..i + 1])
    ensures error' == FirstIndexError(def[..i + 1], indexError)
  {
    ProcessedPrefix(def, i, indexError);
    var attr, request, failure := ProcessKey(on, key, Get(processed, key), indexError);
    requests' := requests + request;
    error' := error;
    if error.None? {
      error' := failure;
    }
    processed' := Set(processed, key, attr);
    PrefixStep(on, def, i, indexError);
  }

  /** The partly processed definition keeps the keys, so the next key is
      read and written at its own position. */
  lemma ProcessedPrefix(def: Fields, i: nat, indexError: string -> Option<string>)
    requires DistinctKeys(def) && i < |def|
    ensures var p := ProcessedDefinition(def, indexError)[..i] + def[i..];
      && Get(p, def[i].0) == def[i].1
      && Set(p, def[i].0, ProcessedAttribute(def[i].1, indexError(def[i].0).None?)) ==
           ProcessedDefinition(def, indexError)[..i + 1] + def[i + 1..]
  {
    var full := ProcessedDefinition(def, indexError);
    var p := full[..i] + def[i..];
    Splice(full, def, i);
    assert forall j :: 0 <= j < |def| ==> p[j].0 == def[j].0;
    KeysDistinct(def, p);
    GetAt(p, i);
    var v := ProcessedAttribute(def[i].1, indexError(def[i].0).None?);
    SetAt(p, i, v);
    assert full[i] == (def[i].0, v);
  }

  /** A sequence made of the first `i` elements of one sequence and the
      rest of another, and the next element taken over from the first. */
  lemma Splice<T>(a: seq<T>, b: seq<T>, i: nat)
    requires |a| == |b| && i < |a|
    ensures |a[..i] + b[i..]| == |a|
    ensures forall j :: 0 <= j < |a| ==> (a[..i] + b[i..])[j] == if j < i then a[j] else b[j]
    ensures (a[..i] + b[i..])[i := a[i]] == a[..i + 1] + b[i + 1..]
  {
  }

  lemma PrefixStep(on: string, def: Fields, i: nat, indexError: string -> Option<string>)
    requires i < |def|
    ensures IndexRequests(on, def[..i + 1]) ==
      IndexRequests(on, def[..i]) + (if WantsIndex(def[i].1) then [IndexRequest(on, def[i])] else [])
    ensures FirstIndexError(def[..i + 1], indexError) ==
      if FirstIndexError(def[..i], indexError).Some? then FirstIndexError(def[..i], indexError)
      else if WantsIndex(def[i].1) then indexError(def[i].0) else None
  {
    assert def[..i + 1][..i] == def[..i];
  }

  /** After processing, the definition has the same keys and each attribute
      is its processed form. */
  lemma ProcessedDefinitionFields(def: Fields, indexError: string -> Option<string>)
    requires DistinctKeys(def)
    ensures Keys(ProcessedDefinition(def, indexError)) == Keys(def)
    ensures DistinctKeys(ProcessedDefinition(def, indexError))
    ensures forall k :: Has(ProcessedDefinition(def, indexError), k) <==> Has(def, k)
    ensures forall k ::
      Get(ProcessedDefinition(def, indexError), k) == ProcessedAttribute(Get(def, k), indexError(k).None?)
  {
    var p := ProcessedDefinition(def, indexError);
    KeysDistinct(def, p);
    forall k ensures Has(p, k) <==> Has(def, k) {
      if Has(p, k) {
        var i :| 0 <= i < |p| && p[i].0 == k;
        assert def[i].0 == k;
      }
      if Has(def, k) {
        var i :| 0 <= i < |def| && def[i].0 == k;
        assert p[i].0 == k;
      }
    }
    forall k ensures Get(p, k) == ProcessedAttribute(Get(def, k), indexError(k).None?) {
      if Has(def, k) {
        var i :| 0 <= i < |def| && def[i].0 == k;
        GetAt(def, i);
        GetAt(p, i);
      }
    }
  }

  /* ---------- the collection maps ---------- */

  /** `describe(coll)`: the cached schema, or `null` unless the collection
      map, the collection and its schema are all non-empty. */
  function Described(s: State, coll: string): (r: Option<Fields>)
    ensures r.Some? <==>
      && s.collections.Some? && coll in s.collections.value
      && s.collections.value[coll].schema.Some? && s.collections.value[coll].schema.value != []
    ensures r.Some? ==> r == s.collections.value[coll].schema
  {
    if s.collections.None? || coll !in s.collections.value then None
    else
      match s.collections.value[coll].schema
      case Some(fs) => if fs == [] then None else Some(fs)
      case None => None
  }

  /** `loadDB(id)`. A store that already exists means nothing is done and the
      callback is never called. Otherwise a store is created and loaded; then
      every attribute of a shallow clone of the definition is processed. The
      clone shares its attribute objects with the definition, so the
      collection's definition takes the processed attributes too. The
      processed clone is cached as the schema only when every index was
      accepted. */
  function Loaded(s: State, id: string, loadError: Option<string>, indexError: string -> Option<string>): (r: Step<Fields>)
    ensures s.collections.Some? && s.dbs.Some? && id in s.dbs.value ==> r == Step(s, [], None)
    ensures r.reply.Some? && r.reply.value.Success? ==>
      && s.collections.Some? && id in s.collections.value
      && r.reply.value.value == ProcessedDefinition(s.collections.value[id].definition, indexError)
      && Described(r.state, id) == (if r.reply.value.value == [] then None else Some(r.reply.value.value))
    ensures r.reply.Some? && r.reply.value.Success? <==>
      && s.collections.Some? && s.dbs.Some? && id !in s.dbs.value && loadError.None?
      && id in s.collections.value && FirstIndexError(s.collections.value[id].definition, indexError).None?
    ensures r.state.collections.Some? <==> s.collections.Some?
    ensures s.collections.Some? ==> r.state.collections.value.Keys == s.collections.value.Keys
    ensures !(r.reply.Some? && r.reply.value.Success?) ==> forall c :: Described(r.state, c) == Described(s, c)
    ensures s.collections.Some? && s.dbs.Some? && id !in s.dbs.value ==> r.state.dbs == Some(s.dbs.value[id := Store(id)])
    ensures s.collections.Some? && s.dbs.Some? ==> r.state.dbs.Some? && id in r.state.dbs.value
    ensures r.reply.Some? && r.reply.value.Success? ==>
      && r.requests == IndexRequests(id, s.collections.value[id].definition)
      && r.state.collections.value[id]
         == s.collections.value[id].(definition := r.reply.value.value, schema := Some(r.reply.value.value))
  {
    if s.collections.None? || s.dbs.None? then Step(s, [], Some(Failure(TypeError)))
    else if id in s.dbs.value then Step(s, [], None)
    else
      var dbs := Some(s.dbs.value[id := Store(id)]);
      if loadError.Some? then Step(State(s.collections, dbs), [], Some(Failure(StoreError(loadError.value))))
      else if id !in s.collections.value then Step(State(s.collections, dbs), [], Some(Failure(TypeError)))
      else
        var c := s.collections.value[id];
        var def := ProcessedDefinition(c.definition, indexError);
        var requests := IndexRequests(id, c.definition);
        match FirstIndexError(c.definition, indexError)
        case Some(e) =>
          Step(State(Some(s.collections.value[id := c.(definition := def)]), dbs), requests, Some(Failure(StoreError(e))))
        case None =>
          Step(State(Some(s.collections.value[id := c.(definition := def, schema := Some(def))]), dbs), requests, Some(Success(def)))
  }

  lemma LoadedWellFormed(s: State, id: string, loadError: Option<string>, indexError: string -> Option<string>)
    requires WellFormed(s)
    ensures WellFormed(Loaded(s, id, loadError, indexError).state)
  {
    if s.collections.Some? && s.dbs.Some? && id !in s.dbs.value && loadError.None? && id in s.collections.value {
      var c := s.collections.value[id];
      var def := ProcessedDefinition(c.definition, indexError);
      ProcessedDefinitionFields(c.definition, indexError);
      var dbs := Some(s.dbs.value[id := Store(id)]);
      StoredWellFormed(s, id, c.(definition := def), dbs);
      StoredWellFormed(s, id, c.(definition := def, schema := Some(def)), dbs);
    }
  }

  /** Storing a collection whose definition and schema are objects keeps the state well formed. */
  lemma StoredWellFormed(s: State, id: string, c: Collection, dbs: Option<map<string, Store>>)
    requires WellFormed(s) && s.collections.Some? && ObjectFields(c)
    ensures WellFormed(State(Some(s.collections.value[id := c]), dbs))
  {
  }

  /** Loading is done once per store: whenever a load got as far as creating
      the store, loading the same collection again is a silent no-op. */
  lemma {:induction false} LoadTwice(s: State, id: string, e1: Option<string>, i1: string -> Option<string>,
                                     e2: Option<string>, i2: string -> Option<string>)
    requires s.collections.Some? && s.dbs.Some?
    ensures var s' := Loaded(s, id, e1, i1).state; Loaded(s', id, e2, i2) == Step(s', [], None)
  {
    var s' := Loaded(s, id, e1, i1).state;
    assert s'.collections.Some?;
    assert id in s'.dbs.value;
  }

  /** `registerCollection(c)`: the collection is stored under its identity, then loaded. */
  function Registered(s: State, c: Collection, loadError: Option<string>, indexError: string -> Option<string>): (r: Step<Fields>)
    ensures s.collections.None? ==> r == Step(s, [], Some(Failure(TypeError)))
    ensures s.collections.Some? ==> r.state.collections.Some? && c.identity in r.state.collections.value
    ensures s.collections.Some? ==>
      r == Loaded(State(Some(s.collections.value[c.identity := c]), s.dbs), c.identity, loadError, indexError)
  {
    if s.collections.None? then Step(s, [], Some(Failure(TypeError)))
    else Loaded(State(Some(s.collections.value[c.identity := c]), s.dbs), c.identity, loadError, indexError)
  }

  /** A new collection whose indexes are all accepted is described by its
      processed definition; one with no attributes is described as `null`. */
  lemma RegisterThenDescribe(s: State, c: Collection, indexError: string -> Option<string>)
    requires s.collections.Some? && s.dbs.Some? && c.identity !in s.dbs.value
    requires forall i :: 0 <= i < |c.definition| && WantsIndex(c.definition[i].1) ==> indexError(c.definition[i].0).None?
    ensures Described(Registered(s, c, None, indexError).state, c.identity) ==
      if c.definition == [] then None else Some(ProcessedDefinition(c.definition, indexError))
  {
    FirstIndexErrorExactly(c.definition, indexError);
  }

  /** A new collection with a refused index stays registered, with its
      processed definition and without a cached schema; the reply is the
      store's error. */
  lemma RegisterIndexRefused(s: State, c: Collection, indexError: string -> Option<string>)
    requires s.collections.Some? && s.dbs.Some? && c.identity !in s.dbs.value && c.schema.None?
    requires FirstIndexError(c.definition, indexError).Some?
    ensures var r := Registered(s, c, None, indexError);
      && r.reply == Some(Failure(StoreError(FirstIndexError(c.definition, indexError).value)))
      && r.requests == IndexRequests(c.identity, c.definition)
      && r.state.collections.Some?
      && r.state.collections.value[c.identity] == c.(definition := ProcessedDefinition(c.definition, indexError))
      && Described(r.state, c.identity) == None
      && r.state.dbs == Some(s.dbs.value[c.identity := Store(c.identity)])
  {
  }

  /** `dropCollection(coll)`: nothing to do while `dbs` is unset; otherwise
      every record is removed, then the collection leaves both maps and its
      file is unlinked. A collection without a store makes `db.remove` throw. */
  function Dropped(s: State, coll: string, removeError: Option<string>, unlinkError: Option<string>): (r: Step<()>)
    ensures s.dbs.None? ==> r == Step(s, [], Some(Success(())))
    ensures s.dbs.Some? && coll !in s.dbs.value ==> r == Step(s, [], Some(Failure(TypeError)))
    ensures r.reply.Some? && r.reply.value.Success? && s.dbs.Some? ==>
      && r.state.dbs == Some(s.dbs.value - {coll})
      && s.collections.Some? && r.state.collections == Some(s.collections.value - {coll})
      && r.requests == [RemoveAll(coll, true), Unlink(coll)]
    ensures removeError.Some? && s.dbs.Some? ==> r.state == s && r.reply.Some? && r.reply.value.Failure?
  {
    if s.dbs.None? then Step(s, [], Some(Success(())))
    else if coll !in s.dbs.value then Step(s, [], Some(Failure(TypeError)))
    else if removeError.Some? then Step(s, [RemoveAll(coll, true)], Some(Failure(StoreError(removeError.value))))
    else
      var dbs := Some(s.dbs.value - {coll});
      if s.collections.None? then Step(State(None, dbs), [RemoveAll(coll, true)], Some(Failure(TypeError)))
      else
        var after := State(Some(s.collections.value - {coll}), dbs);
        match unlinkError
        case Some(e) => Step(after, [RemoveAll(coll, true), Unlink(coll)], Some(Failure(StoreError(e))))
        case None => Step(after, [RemoveAll(coll, true), Unlink(coll)], Some(Success(())))
  }

  lemma DroppedWellFormed(s: State, coll: string, removeError: Option<string>, unlinkError: Option<string>)
    requires WellFormed(s)
    ensures WellFormed(Dropped(s, coll, removeError, unlinkError).state)
  {
  }

  /** Dropping a collection whose store was removed a second time throws:
      its store is gone while `dbs` is still set. */
  lemma {:induction false} DropTwice(s: State, coll: string, u1: Option<string>, r2: Option<string>, u2: Option<string>)
    requires s.dbs.Some? && s.collections.Some?
    ensures var s' := Dropped(s, coll, None, u1).state;
      Dropped(s', coll, r2, u2) == if coll in s.dbs.value then Step(s', [], Some(Failure(TypeError))) else Step(s, [], Some(Failure(TypeError)))
  {
    var s' := Dropped(s, coll, None, u1).state;
    if coll in s.dbs.value {
      assert s'.dbs == Some(s.dbs.value - {coll});
      assert coll !in s'.dbs.value;
    }
  }

  /** Once dropped, a collection is described as `null` and its next load
      creates a fresh store instead of doing nothing. */
  lemma {:induction false} DropThenLoad(s: State, coll: string, u: Option<string>, e: Option<string>, i: string -> Option<string>)
    requires s.dbs.Some? && s.collections.Some? && coll in s.dbs.value
    ensures var s' := Dropped(s, coll, None, u).state;
      && Described(s', coll).None?
      && Loaded(s', coll, e, i).reply.Some?
  {
    var s' := Dropped(s, coll, None, u).state;
    assert s'.collections == Some(s.collections.value - {coll});
    assert coll !in s'.dbs.value;
  }

  /* ---------- id handling around the store calls ---------- */

  /** `delete data.id; delete data._id`. */
  function WithoutIds(data: Value): (r: Value)
    ensures Member(r, Name("id")) == Undef && Member(r, Name("_id")) == Undef
    ensures forall k :: k != "id" && k != "_id" ==> Member(r, Name(k)) == Member(data, Name(k))
  {
    if data.Obj? then
      GetDeleteOthers(data.fields, "id");
      GetDeleteOthers(Delete(data.fields, "id"), "_id");
      Remove(Remove(data, Name("id")), Name("_id"))
    else data
  }

  /** `if (values.id) delete values.id; if (values._id) delete values._id`:
      a falsy id stays. */
  function WithoutTruthyIds(values: Value): (r: Value)
    ensures !Truthy(Member(r, Name("id"))) && !Truthy(Member(r, Name("_id")))
    ensures !Truthy(Member(values, Name("id"))) ==> Member(r, Name("id")) == Member(values, Name("id"))
    ensures !Truthy(Member(values, Name("_id"))) ==> Member(r, Name("_id")) == Member(values, Name("_id"))
    ensures forall k :: k != "id" && k != "_id" ==> Member(r, Name(k)) == Member(values, Name(k))
  {
    var a := if Truthy(Member(values, Name("id"))) then Remove(values, Name("id")) else values;
    assert a.Obj? ==> forall k :: k != "id" ==> Get(a.fields, k) == Get(values.fields, k) by {
      if a.Obj? && Truthy(Member(values, Name("id"))) { GetDeleteOthers(values.fields, "id"); }
    }
    var b := if Truthy(Member(a, Name("_id"))) then Remove(a, Name("_id")) else a;
    assert b.Obj? ==> forall k :: k != "_id" ==> Get(b.fields, k) == Get(a.fields, k) by {
      if b.Obj? && Truthy(Member(a, Name("_id"))) { GetDeleteOthers(a.fields, "_id"); }
    }
    b
  }

  /** The reply to `insert`: `result.id = result._id; delete result._id`,
      whether or not `_id` is truthy. */
  function IdFromStore(doc: Value): (r: Value)
    ensures doc.Obj? ==> r.Obj? && Member(r, Name("id")) == Member(doc, Name("_id")) && !Has(r.fields, "_id")
    ensures forall k :: k != "id" && k != "_id" ==> Member(r, Name(k)) == Member(doc, Name(k))
  {
    if doc.Obj? then
      var withId := Set(doc.fields, "id", Get(doc.fields, "_id"));
      GetSetSame(doc.fields, "id", Get(doc.fields, "_id"));
      GetSetOthers(doc.fields, "id", Get(doc.fields, "_id"));
      GetDeleteOthers(withId, "_id");
      Obj(Delete(withId, "_id"))
    else doc
  }

  /** `insert(coll, data)`: the record is stored without `id` and `_id`, and
      the stored record comes back with its `_id` as `id`. */
  function Inserted(s: State, coll: string, data: Value, reply: Result<Value, string>): (r: Answer<Value>)
    ensures forall q :: q in r.requests ==>
      q.InsertOne? && q.on == coll && Member(q.doc, Name("id")) == Undef && Member(q.doc, Name("_id")) == Undef
    ensures r.result.Success? <==> s.dbs.Some? && coll in s.dbs.value && !Nullish(data) && reply.Success?
    ensures r.result.Success? ==> r.result.value == IdFromStore(reply.value)
    ensures s.dbs.Some? && coll in s.dbs.value && !Nullish(data) ==> r.requests == [InsertOne(coll, WithoutIds(data))]
  {
    if s.dbs.None? || Nullish(data) || coll !in s.dbs.value then Answer([], Failure(TypeError))
    else
      var requests := [InsertOne(coll, WithoutIds(data))];
      match reply
      case Failure(e) => Answer(requests, Failure(StoreError(e)))
      case Success(doc) => Answer(requests, Success(IdFromStore(doc)))
  }

  /** `insertEach(coll, values)`: every record is stored without `id` and
      `_id`, and the stored records come back through `rewriteIds`. */
  function InsertedEach(s: State, coll: string, values: seq<Value>, reply: Result<seq<Value>, string>,
                        idText: Value -> string): (r: Answer<seq<Value>>)
    ensures forall q :: q in r.requests ==>
      && q.InsertMany? && q.on == coll && |q.docs| == |values|
      && forall i :: 0 <= i < |values| ==>
           Member(q.docs[i], Name("id")) == Undef && Member(q.docs[i], Name("_id")) == Undef
           && forall k :: k != "id" && k != "_id" ==> Member(q.docs[i], Name(k)) == Member(values[i], Name(k))
    ensures r.result.Success? <==>
      s.dbs.Some? && coll in s.dbs.value && (forall i :: 0 <= i < |values| ==> !Nullish(values[i])) && reply.Success?
    ensures r.result.Success? ==> r.result.value == Utils.RewrittenIds(reply.value, idText)
    ensures s.dbs.Some? && coll in s.dbs.value && (forall i :: 0 <= i < |values| ==> !Nullish(values[i])) ==>
      r.requests == [InsertMany(coll, seq(|values|, i requires 0 <= i < |values| => WithoutIds(values[i])))]
  {
    if s.dbs.None? || (exists i :: 0 <= i < |values| && Nullish(values[i])) || coll !in s.dbs.value then
      Answer([], Failure(TypeError))
    else
      var sent := seq(|values|, i requires 0 <= i < |values| => WithoutIds(values[i]));
      match reply
      case Failure(e) => Answer([InsertMany(coll, sent)], Failure(StoreError(e)))
      case Success(docs) => Answer([InsertMany(coll, sent)], Success(Utils.RewrittenIds(docs, idText)))
  }

  /** The `_id` of every record, in order. */
  function IdsOf(records: seq<Value>): (r: seq<Value>)
    ensures |r| == |records|
    ensures forall i :: 0 <= i < |records| ==> r[i] == Member(records[i], Name("_id"))
  {
    seq(|records|, i requires 0 <= i < |records| => Member(records[i], Name("_id")))
  }

  /** The filter that fetches the records with the given ids: `{_id: {$in: ids}}`. */
  function IdFilter(ids: seq<Value>): Value
  {
    Obj([("_id", Obj([("$in", Arr(ids))]))])
  }

  /** `update(coll, criteria, values)`, given the filter the query object
      builds from the criteria (or the error it throws). The ids of the
      matching records are taken before a multi-record `$set`, and those
      records are fetched again by id afterwards. */
  function Updated(s: State, coll: string, query: Result<Value, string>, values: Value,
                   found: Result<Option<seq<Value>>, string>, updateError: Option<string>,
                   refound: Result<seq<Value>, string>, idText: Value -> string): (r: Answer<seq<Value>>)
    ensures forall q :: q in r.requests && q.UpdateAll? ==>
      && q.multi && query.Success? && q.filter == query.value
      && q.change == Obj([("$set", WithoutTruthyIds(values))])
    ensures r.result == Failure(TypeError) <==>
      query.Success? && (Nullish(values) || s.dbs.None? || coll !in s.dbs.value)
    ensures r.result == Failure(NotFound) <==>
      query.Success? && !Nullish(values) && s.dbs.Some? && coll in s.dbs.value && found == Success(None)
    ensures query.Success? && !Nullish(values) && s.dbs.Some? && coll in s.dbs.value ==>
      && (found.Failure? ==> r == Answer([Find(coll, query.value)], Failure(StoreError(found.error))))
      && (found.Success? && found.value.Some? && updateError.Some? ==>
            |r.requests| == 2 && r.result == Failure(StoreError(updateError.value)))
      && (found.Success? && found.value.Some? && updateError.None? && refound.Failure? ==>
            |r.requests| == 3 && r.result == Failure(StoreError(refound.error)))
    ensures r.result.Success? <==>
      && query.Success? && !Nullish(values) && s.dbs.Some? && coll in s.dbs.value
      && found.Success? && found.value.Some? && updateError.None? && refound.Success?
    ensures r.result.Success? ==>
      && |r.requests| == 3
      && r.requests[0] == Find(coll, query.value)
      && r.requests[1] == UpdateAll(coll, query.value, Obj([("$set", WithoutTruthyIds(values))]), true)
      && r.requests[2] == Find(coll, IdFilter(IdsOf(found.value.value)))
      && r.result.value == Utils.RewrittenIds(refound.value, idText)
    ensures query.Failure? ==> r == Answer([], Failure(QueryError(query.error)))
  {
    if query.Failure? then Answer([], Failure(QueryError(query.error)))
    else if Nullish(values) || s.dbs.None? || coll !in s.dbs.value then Answer([], Failure(TypeError))
    else
      var filter := query.value;
      var first := [Find(coll, filter)];
      match found
      case Failure(e) => Answer(first, Failure(StoreError(e)))
      case Success(None) => Answer(first, Failure(NotFound))
      case Success(Some(records)) =>
        var second := first + [UpdateAll(coll, filter, Obj([("$set", WithoutTruthyIds(values))]), true)];
        if updateError.Some? then Answer(second, Failure(StoreError(updateError.value)))
        else
          var third := second + [Find(coll, IdFilter(IdsOf(records)))];
          match refound
          case Failure(e) => Answer(third, Failure(StoreError(e)))
          case Success(docs) => Answer(third, Success(Utils.RewrittenIds(docs, idText)))
  }

  /** `updatedRecords`: the loop that pushes each record's `_id`. */
  method CollectIds(records: seq<Value>) returns (ids: seq<Value>)
    ensures ids == IdsOf(records)
  {
    ids := [];
    var i := 0;
    while i < |records|
      invariant 0 <= i <= |records|
      invariant ids == IdsOf(records[..i])
    {
      ids := ids + [Member(records[i], Name("_id"))];
      i := i + 1;
    }
    assert records[..|records|] == records;
  }

  /* ---------- the connection object ---------- */

  class Connection {
    var collections: Option<map<string, Collection>>
    var dbs: Option<map<string, Store>>

    function Snapshot(): State
      reads this
    {
      State(collections, dbs)
    }

    ghost predicate Valid()
      reads this
    {
      WellFormed(Snapshot())
    }

    /** `new Connection(config, collections)`: the maps are set only once
        the connection's directory exists. */
    constructor()
      ensures collections == None && dbs == None
      ensures Valid()
    {
      collections := None;
      dbs := None;
    }

    /** The directory exists: `collections || {}` is kept and `dbs` starts empty. */
    method Open(given: Option<map<string, Collection>>)
      modifies this
      requires WellFormed(State(given, None))
      ensures collections == Some(given.GetOr(map[])) && dbs == Some(map[])
      ensures Valid()
    {
      collections := Some(given.GetOr(map[]));
      dbs := Some(map[]);
    }

    method LoadDB(id: string, loadError: Option<string>, indexError: string -> Option<string>)
      returns (requests: seq<StoreRequest>, reply: Option<Result<Fields, AdapterError>>)
      modifies this
      requires Valid()
      ensures Valid()
      ensures Step(Snapshot(), requests, reply) == Loaded(old(Snapshot()), id, loadError, indexError)
    {
      LoadedWellFormed(Snapshot(), id, loadError, indexError);
      if collections.None? || dbs.None? {
        return [], Some(Failure(TypeError));
      }
      if id in dbs.value {
        return [], None;
      }
      dbs := Some(dbs.value[id := Store(id)]);
      if loadError.Some? {
        return [], Some(Failure(StoreError(loadError.value)));
      }
      if id !in collections.value {
        return [], Some(Failure(TypeError));
      }
      var c := collections.value[id];
      var def, error;
      def, requests, error := ProcessKeys(id, c.definition, indexError);
      collections := Some(collections.value[id := c.(definition := def)]);
      match error
      case Some(e) =>
        reply := Some(Failure(StoreError(e)));
      case None =>
        collections := Some(collections.value[id := c.(definition := def, schema := Some(def))]);
        assert collections.value == old(collections).value[id := c.(definition := def, schema := Some(def))];
        reply := Some(Success(def));
    }

    method RegisterCollection(c: Collection, loadError: Option<string>, indexError: string -> Option<string>)
      returns (requests: seq<StoreRequest>, reply: Option<Result<Fields, AdapterError>>)
      modifies this
      requires Valid() && ObjectFields(c)
      ensures Valid()
      ensures Step(Snapshot(), requests, reply) == Registered(old(Snapshot()), c, loadError, indexError)
    {
      if collections.None? {
        return [], Some(Failure(TypeError));
      }
      collections := Some(collections.value[c.identity := c]);
      requests, reply := LoadDB(c.identity, loadError, indexError);
    }

    method Describe(coll: string) returns (r: Result<Option<Fields>, AdapterError>)
      ensures r == Success(Described(Snapshot(), coll))
    {
      var des := None;
      if collections.Some? && coll in collections.value {
        var schema := collections.value[coll].schema;
        if schema.Some? && schema.value != [] {
          des := schema;
        }
      }
      return Success(des);
    }

    /** `createCollection`: nothing to do; the store is created when the collection is loaded. */
    method CreateCollection(coll: string, definition: Fields) returns (r: Result<(), AdapterError>)
      ensures r.Success?
    {
      return Success(());
    }

    method DropCollection(coll: string, removeError: Option<string>, unlinkError: Option<string>)
      returns (requests: seq<StoreRequest>, reply: Option<Result<(), AdapterError>>)
      modifies this
      requires Valid()
      ensures Valid()
      ensures Step(Snapshot(), requests, reply) == Dropped(old(Snapshot()), coll, removeError, unlinkError)
    {
      DroppedWellFormed(Snapshot(), coll, removeError, unlinkError);
      if dbs.None? {
        return [], Some(Success(()));
      }
      if coll !in dbs.value {
        return [], Some(Failure(TypeError));
      }
      requests := [RemoveAll(coll, true)];
      if removeError.Some? {
        return requests, Some(Failure(StoreError(removeError.value)));
      }
      dbs := Some(dbs.value - {coll});
      if collections.None? {
        return requests, Some(Failure(TypeError));
      }
      collections := Some(collections.value - {coll});
      requests := requests + [Unlink(coll)];
      match unlinkError
      case Some(e) => reply := Some(Failure(StoreError(e)));
      case None => reply := Some(Success(()));
    }

    method Insert(coll: string, data: Value, reply: Result<Value, string>) returns (r: Answer<Value>)
      ensures r == Inserted(Snapshot(), coll, data, reply)
    {
      if dbs.None? || Nullish(data) || coll !in dbs.value {
        return Answer([], Failure(TypeError));
      }
      var sent := Remove(data, Name("id"));
      sent := Remove(sent, Name("_id"));
      var requests := [InsertOne(coll, sent)];
      match reply
      case Failure(e) =>
        r := Answer(requests, Failure(StoreError(e)));
      case Success(result) =>
        var withId := Assign(result, Name("id"), Member(result, Name("_id")));
        r := Answer(requests, Success(Remove(withId, Name("_id"))));
    }

    method InsertEach(coll: string, values: seq<Value>, reply: Result<seq<Value>, string>, idText: Value -> string)
      returns (r: Answer<seq<Value>>)
      ensures r == InsertedEach(Snapshot(), coll, values, reply, idText)
    {
      if dbs.None? {
        return Answer([], Failure(TypeError));
      }
      var sent := [];
      var i := 0;
      while i < |values|
        invariant 0 <= i <= |values|
        invariant |sent| == i
        invariant forall j :: 0 <= j < i ==> !Nullish(values[j]) && sent[j] == WithoutIds(values[j])
      {
        if Nullish(values[i]) {
          return Answer([], Failure(TypeError));
        }
        sent := sent + [WithoutIds(values[i])];
        i := i + 1;
      }
      if coll !in dbs.value {
        return Answer([], Failure(TypeError));
      }
      assert sent == seq(|values|, i requires 0 <= i < |values| => WithoutIds(values[i]));
      match reply
      case Failure(e) =>
        r := Answer([InsertMany(coll, sent)], Failure(StoreError(e)));
      case Success(docs) =>
        var rewritten := Utils.RewriteIds(docs, idText);
        assert rewritten == Utils.RewrittenIds(docs, idText);
        r := Answer([InsertMany(coll, sent)], Success(rewritten));
    }

    method Update(coll: string, query: Result<Value, string>, values: Value,
                  found: Result<Option<seq<Value>>, string>, updateError: Option<string>,
                  refound: Result<seq<Value>, string>, idText: Value -> string)
      returns (r: Answer<seq<Value>>)
      ensures r == Updated(Snapshot(), coll, query, values, found, updateError, refound, idText)
    {
      if query.Failure? {
        return Answer([], Failure(QueryError(query.error)));
      }
      if Nullish(values) {
        return Answer([], Failure(TypeError));
      }
      var change := values;
      if Truthy(Member(change, Name("id"))) {
        change := Remove(change, Name("id"));
      }
      if Truthy(Member(change, Name("_id"))) {
        change := Remove(change, Name("_id"));
      }
      assert change == WithoutTruthyIds(values);
      if dbs.None? || coll !in dbs.value {
        return Answer([], Failure(TypeError));
      }
      var requests := [Find(coll, query.value)];
      if found.Failure? {
        return Answer(requests, Failure(StoreError(found.error)));
      }
      if found.value.None? {
        return Answer(requests, Failure(NotFound));
      }
      var snapshot := CollectIds(found.value.value);
      requests := requests + [UpdateAll(coll, query.value, Obj([("$set", change)]), true)];
      if updateError.Some? {
        return Answer(requests, Failure(StoreError(updateError.value)));
      }
      requests := requests + [Find(coll, IdFilter(snapshot))];
      match refound
      case Failure(e) =>
        r := Answer(requests, Failure(StoreError(e)));
      case Success(docs) =>
        var rewritten := Utils.RewriteIds(docs, idText);
        assert rewritten == Utils.RewrittenIds(docs, idText);
        r := Answer(requests, Success(rewritten));
    }
  }
}

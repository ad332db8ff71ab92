/** The adapter object of the library's own adapter file: the same registry
    and forwarding as the package entry point, with `createEach` added and
    with the connection stored before it is initialised. */
module LibAdapter {
  import opened Wrappers
  import opened Json
  import opened Connections
  import Registry

  class Adapter {
    /** Connection identity to connection. */
    var connections: map<string, Connection>

    constructor()
      ensures connections == map[]
    {
      connections := map[];
    }

    /** `registerConnection(connection)`. The new connection is stored
        first and then initialised; whatever the initialisation reports
        (`initResult`) is passed on, and the entry stays either way. */
    method RegisterConnection(identity: Option<string>, initResult: Result<(), AdapterError>)
      returns (r: Result<(), AdapterError>)
      modifies this
      ensures var admitted := Registry.Admitted(old(connections), identity);
        && (admitted.Failure? ==> r == Failure(admitted.error) && connections == old(connections))
        && (admitted.Success? ==>
              && r == initResult
              && connections.Keys == old(connections).Keys + {admitted.value}
              && (forall n :: n in old(connections) ==> connections[n] == old(connections)[n])
              && fresh(connections[admitted.value])
              && connections[admitted.value].Snapshot() == State(None, None))
    {
      var admitted := Registry.Admitted(connections, identity);
      if admitted.Failure? {
        return Failure(admitted.error);
      }
      var c := new Connection();
      connections := connections[admitted.value := c];
      r := initResult;
    }

    /** `teardown(target)`: always succeeds. */
    method Teardown(target: Registry.Target) returns (r: Result<(), AdapterError>)
      modifies this
      ensures connections == Registry.TornDown(old(connections), target)
      ensures r.Success?
    {
      match target {
        case Named(n) =>
          if n in connections {
            connections := connections - {n};
          }
        case _ =>
          connections := map[];
      }
      r := Success(());
    }

    /** `grabConnection(name)`: `undefined` for a name that is not registered. */
    function GrabConnection(name: string): (c: Option<Connection>)
      reads this
      ensures c.Some? <==> name in connections
      ensures c.Some? ==> c.value == connections[name]
    {
      if name in connections then Some(connections[name]) else None
    }

    method Describe(conn: string, coll: string) returns (r: Result<Option<Fields>, AdapterError>)
      ensures conn !in connections ==> r == Failure(TypeError)
      ensures conn in connections ==> r == Success(Described(connections[conn].Snapshot(), coll))
    {
      var c := GrabConnection(conn);
      if c.None? {
        return Failure(TypeError);
      }
      r := c.value.Describe(coll);
    }

    method Define(conn: string, coll: string, definition: Fields) returns (r: Result<(), AdapterError>)
      ensures r.Success? <==> conn in connections
      ensures r.Failure? ==> r.error == TypeError
    {
      var c := GrabConnection(conn);
      if c.None? {
        return Failure(TypeError);
      }
      r := c.value.CreateCollection(coll, definition);
    }

    method Drop(conn: string, coll: string, removeError: Option<string>, unlinkError: Option<string>)
      returns (requests: seq<StoreRequest>, reply: Option<Result<(), AdapterError>>)
      requires conn in connections ==> connections[conn].Valid()
      modifies if conn in connections then {connections[conn]} else {}
      ensures conn !in connections ==> requests == [] && reply == Some(Failure(TypeError))
      ensures conn in connections ==>
        && connections[conn].Valid()
        && Step(connections[conn].Snapshot(), requests, reply) ==
             Dropped(old(connections[conn].Snapshot()), coll, removeError, unlinkError)
    {
      var c := GrabConnection(conn);
      if c.None? {
        return [], Some(Failure(TypeError));
      }
      requests, reply := c.value.DropCollection(coll, removeError, unlinkError);
    }

    method Create(conn: string, coll: string, values: Value, reply: Result<Value, string>)
      returns (r: Answer<Value>)
      ensures conn !in connections ==> r == Answer([], Failure(TypeError))
      ensures conn in connections ==> r == Inserted(connections[conn].Snapshot(), coll, values, reply)
    {
      var c := GrabConnection(conn);
      if c.None? {
        return Answer([], Failure(TypeError));
      }
      r := c.value.Insert(coll, values, reply);
    }

    method CreateEach(conn: string, coll: string, values: seq<Value>, reply: Result<seq<Value>, string>,
                      idText: Value -> string)
      returns (r: Answer<seq<Value>>)
      ensures conn !in connections ==> r == Answer([], Failure(TypeError))
      ensures conn in connections ==> r == InsertedEach(connections[conn].Snapshot(), coll, values, reply, idText)
    {
      var c := GrabConnection(conn);
      if c.None? {
        return Answer([], Failure(TypeError));
      }
      r := c.value.InsertEach(coll, values, reply, idText);
    }

    method Update(conn: string, coll: string, query: Result<Value, string>, values: Value,
                  found: Result<Option<seq<Value>>, string>, updateError: Option<string>,
                  refound: Result<seq<Value>, string>, idText: Value -> string)
      returns (r: Answer<seq<Value>>)
      ensures conn !in connections ==> r == Answer([], Failure(TypeError))
      ensures conn in connections ==>
        r == Updated(connections[conn].Snapshot(), coll, query, values, found, updateError, refound, idText)
    {
      var c := GrabConnection(conn);
      if c.None? {
        return Answer([], Failure(TypeError));
      }
      r := c.value.Update(coll, query, values, found, updateError, refound, idText);
    }
  }
}

/** The module-level map from connection identity to connection that both
    adapter entry files keep, and the two decisions made on it: whether an
    identity may be registered, and what `teardown` leaves behind. */
module Registry {
  import opened Wrappers

  /** The first argument of `teardown`: a callback passed in its place,
      `null`/`undefined`, or a connection name. */
  datatype Target = Callback | Absent | Named(name: string)

  /** The identity checks of `registerConnection`: a missing or empty identity
      is refused, so is one already registered; otherwise the identity is the
      key the new connection goes under. */
  function Admitted<T>(connections: map<string, T>, identity: Option<string>): (r: Result<string, AdapterError>)
    ensures r == Failure(IdentityMissing) <==> identity.None? || identity == Some("")
    ensures r == Failure(IdentityDuplicate) <==> identity.Some? && identity.value != "" && identity.value in connections
    ensures r.Success? <==> identity.Some? && identity.value != "" && identity.value !in connections
    ensures r.Success? ==> identity == Some(r.value)
  {
    match identity
    case None => Failure(IdentityMissing)
    case Some(id) =>
      if id == "" then Failure(IdentityMissing)
      else if id in connections then Failure(IdentityDuplicate)
      else Success(id)
  }

  /** The registry after `teardown(target)`: emptied when no name is given,
      otherwise without the named entry (whether or not it was there). */
  function TornDown<T>(connections: map<string, T>, target: Target): (r: map<string, T>)
    ensures !target.Named? ==> r == map[]
    ensures target.Named? ==>
      && target.name !in r
      && forall n :: n != target.name ==> (n in r <==> n in connections) && (n in r ==> r[n] == connections[n])
  {
    match target
    case Named(n) => if n !in connections then connections else connections - {n}
    case _ => map[]
  }

  /** Tearing down a name that is not registered changes nothing. */
  lemma TeardownUnknown<T>(connections: map<string, T>, name: string)
    requires name !in connections
    ensures TornDown(connections, Named(name)) == connections
  {
  }

  /** A second teardown of the same target changes nothing. */
  lemma TeardownTwice<T>(connections: map<string, T>, target: Target)
    ensures TornDown(TornDown(connections, target), target) == TornDown(connections, target)
  {
    if target.Named? {
      assert target.name !in TornDown(connections, target);
    }
  }

  /** Registering an identity and then tearing it down restores the registry. */
  lemma RegisterThenTeardown<T>(connections: map<string, T>, identity: Option<string>, c: T)
    requires Admitted(connections, identity).Success?
    ensures var name := Admitted(connections, identity).value;
      TornDown(connections[name := c], Named(name)) == connections
  {
    var name := Admitted(connections, identity).value;
    assert connections[name := c] - {name} == connections;
  }

  /** A registered identity is refused a second time until it is torn down,
      and admitted again afterwards. */
  lemma RegisterAgain<T>(connections: map<string, T>, name: string, c: T)
    requires name != ""
    ensures Admitted(connections[name := c], Some(name)) == Failure(IdentityDuplicate)
    ensures Admitted(TornDown(connections[name := c], Named(name)), Some(name)) == Success(name)
  {
  }
}

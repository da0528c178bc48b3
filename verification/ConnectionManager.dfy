// The connection manager and the validator table as objects.
module ConnectionManager {
  import opened Numbers
  import opened Options
  import opened Connections

  function Short(d: seq<bv8>, i: nat): nat
    requires i + 2 <= |d|
  {
    Value(d[i]) + 256 * Value(d[i + 1])
  }

  // The triad that a close request names.
  function CloseTriad(d: seq<bv8>): Triad
    requires |d| >= 10
  {
    Triad(Short(d, 2), Short(d, 4), Short(d, 6) + 0x1_0000 * Short(d, 8))
  }

  class SafetyValidator {
    var nextInstanceId: nat
    var instances: map<nat, nat>
    var connToInstance: map<nat, nat>

    constructor ()
      ensures nextInstanceId == 0 && instances == map[] && connToInstance == map[]
    {
      nextInstanceId, instances, connToInstance := 0, map[], map[];
    }

    method CreateInstance(connection: nat) returns (instance: nat)
      modifies this
      ensures instance == nextInstanceId == (old(nextInstanceId) + 1) % ID_LIMIT
      ensures instances == old(instances)[instance := connection]
      ensures connToInstance == old(connToInstance)[connection := instance]
    {
      nextInstanceId := (nextInstanceId + 1) % ID_LIMIT;
      instances := instances[nextInstanceId := connection];
      connToInstance := connToInstance[connection := nextInstanceId];
      instance := nextInstanceId;
    }

    method RemoveInstanceByConnection(connection: nat) returns (found: bool)
      modifies this
      ensures nextInstanceId == old(nextInstanceId) && found == (connection in old(connToInstance))
      ensures connToInstance == old(connToInstance) - {connection}
      ensures instances ==
        if found then old(instances) - {old(connToInstance)[connection]} else old(instances)
    {
      if connection !in connToInstance {
        assert connToInstance - {connection} == connToInstance;
        return false;
      }
      var instance := connToInstance[connection];
      connToInstance := connToInstance - {connection};
      instances := instances - {instance};
      return true;
    }
  }

  class Manager {
    var connections: map<nat, Connection>
    var nextConnectionId: nat
    var scid: nat
    const validator: SafetyValidator
    const assemblies: set<nat>
    // For whom the removal callbacks have fired, in order.
    ghost var removed: seq<nat>

    constructor (known: set<nat>)
      ensures assemblies == known && fresh(validator) && Now() == Fresh()
    {
      connections, nextConnectionId, scid, removed := map[], 0, 0, [];
      assemblies := known;
      validator := new SafetyValidator();
    }

    ghost function Now(): State
      reads this, validator
    {
      State(connections, nextConnectionId, validator.instances, validator.connToInstance, validator.nextInstanceId,
        scid, removed)
    }

    method FindTriad(t: Triad) returns (id: Option<nat>)
      ensures id.Some? <==> InUse(connections, t)
      ensures id.Some? ==> id.value in connections && connections[id.value].triad == t
    {
      var keys := connections.Keys;
      while keys != {}
        invariant keys <= connections.Keys
        invariant forall k :: k in connections && k !in keys ==> connections[k].triad != t
      {
        var k :| k in keys;
        if connections[k].triad == t { return Some(k); }
        keys := keys - {k};
      }
      return None;
    }

    method AnySafety() returns (any: bool)
      ensures any == SafetyLeft(connections)
    {
      var keys := connections.Keys;
      while keys != {}
        invariant keys <= connections.Keys
        invariant forall k :: k in connections && k !in keys ==> !connections[k].safety
      {
        var k :| k in keys;
        if connections[k].safety { return true; }
        keys := keys - {k};
      }
      return false;
    }

    method ForwardOpen(r: OpenRequest) returns (a: Answer)
      modifies this, validator
      ensures a == OpenAnswer(old(Now()), r, assemblies) && Now() == Open(old(Now()), r, assemblies)
    {
      if r.safety.Some? {
        if r.safety.value.refusal.Some? { return Refused(r.safety.value.refusal.value); }
        if scid != 0 && r.safety.value.sccrc != 0 && r.safety.value.sccrc != scid { return Refused(0x0111); }
      }
      if Missing(r.consumed, assemblies) { return Refused(0x0116); }
      if Missing(r.produced, assemblies) { return Refused(0x0116); }
      if r.consumed.Some? && r.produced.Some? && r.consumed.value == r.produced.value { return Refused(0x0116); }
      var duplicate := FindTriad(r.triad);
      if duplicate.Some? { return Refused(0x0100); }
      nextConnectionId := (nextConnectionId + 1) % ID_LIMIT;
      var id := nextConnectionId;
      if r.safety.Some? {
        scid := r.safety.value.sccrc;
        var instance := validator.CreateInstance(id);
      }
      connections := connections[id := Connection(id, r.triad, Given(r.consumed), Given(r.produced), r.safety.Some?,
        SccrcOf(r))];
      a := Opened(id);
    }

    method OnConnectionRemoved(c: Connection)
      modifies this, validator
      ensures Now() == Forget(old(Now()), c)
    {
      removed := removed + [c.id];
      if !c.safety { return; }
      var found := validator.RemoveInstanceByConnection(c.id);
      if !found { assert validator.connToInstance == old(validator.connToInstance); }
      var left := AnySafety();
      if !left {
        scid := 0;
      }
    }

    method RemoveConnection(c: Connection)
      modifies this, validator
      ensures Now() == Remove(old(Now()), c)
    {
      if c.id in connections {
        connections := connections - {c.id};
      }
      assert connections == old(connections) - {c.id};
      OnConnectionRemoved(c);
    }

    // A request too short to name a triad is refused before the map is looked at.
    method ForwardClose(d: seq<bv8>) returns (a: Answer)
      requires Sound(Now())
      modifies this, validator
      ensures |d| < 10 ==> a == NotEnoughData && Now() == old(Now())
      ensures |d| >= 10 ==> Now() == Close(old(Now()), CloseTriad(d))
      ensures |d| >= 10 ==> a == if InUse(old(connections), CloseTriad(d)) then Closed else Refused(0x0107)
    {
      if |d| < 10 { return NotEnoughData; }
      var t := CloseTriad(d);
      var found := FindTriad(t);
      if found.None? { return Refused(0x0107); }
      KeyIsId(Now(), t);
      var c := connections[found.value];
      connections := connections - {found.value};
      OnConnectionRemoved(c);
      a := Closed;
    }
  }
}

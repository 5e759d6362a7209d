/** The external container runtime: abstract calls that take effect before they return, or never. */
module Daemons {
  import opened Prelude
  import opened Records
  import opened Intents

  datatype Observation = Found(id: Id, info: Container) | Missing | Failed

  /** One stop or removal that reached a container: its label, the intent that acted, the time, and
      the durable deadline of the row at that moment. */
  datatype Effect = Effect(id: Id, owner: Id, actor: Operation, at: int, due: Option<int>)

  class Daemon {
    var containers: Natives
    ghost var log: seq<Effect>

    constructor ()
      ensures containers == map[] && log == []
    {
      containers := map[];
      log := [];
    }

    method Inspect(n: Id, fault: Fault) returns (r: Observation)
      ensures r == if !fault.Clean? then Failed else if n in containers then Found(n, containers[n]) else Missing
    {
      if !fault.Clean? {
        return Failed;
      }
      return if n in containers then Found(n, containers[n]) else Missing;
    }

    /** Inspection by exact name; which one is found does not matter. */
    method InspectName(name: Id, fault: Fault) returns (r: Observation)
      ensures !fault.Clean? <==> r.Failed?
      ensures r.Found? ==> r.id in containers && containers[r.id] == r.info && r.info.name == name
      ensures r.Missing? ==> forall n <- containers :: containers[n].name != name
    {
      if !fault.Clean? {
        return Failed;
      }
      if n: Id :| n in containers && containers[n].name == name {
        return Found(n, containers[n]);
      }
      return Missing;
    }

    method Create(n: Id, name: Id, owner: Id, ports: Ports, fault: Fault) returns (r: Result<Id>)
      modifies this
      ensures log == old(log)
      ensures containers == if fault.Fail? then old(containers) else old(containers)[n := Container(name, owner, false, false, ports)]
      ensures r == if fault.Clean? then Ok(n) else Err(Deferred)
    {
      if !fault.Fail? {
        containers := containers[n := Container(name, owner, false, false, ports)];
      }
      return if fault.Clean? then Ok(n) else Err(Deferred);
    }

    /** Start and restart have the same effect: the container runs. */
    method Start(n: Id, fault: Fault) returns (r: Result<()>)
      modifies this
      ensures log == old(log)
      ensures containers == if fault.Fail? || n !in old(containers) then old(containers)
                            else old(containers)[n := old(containers)[n].(running := true)]
      ensures fault.Clean? ==> r == if n in old(containers) then Ok(()) else Err(NotFound)
      ensures !fault.Clean? ==> r == Err(Deferred)
    {
      var present := n in containers;
      if present && !fault.Fail? {
        containers := containers[n := containers[n].(running := true)];
      }
      return if !fault.Clean? then Err(Deferred) else if present then Ok(()) else Err(NotFound);
    }

    method Stop(n: Id, fault: Fault, ghost actor: Operation, ghost at: int, ghost due: Option<int>) returns (r: Result<()>)
      modifies this
      ensures containers == if fault.Fail? || n !in old(containers) then old(containers)
                            else old(containers)[n := old(containers)[n].(running := false, restarting := false)]
      ensures log == if fault.Fail? || n !in old(containers) then old(log)
                     else old(log) + [Effect(n, old(containers)[n].owner, actor, at, due)]
      ensures fault.Clean? ==> r == if n in old(containers) then Ok(()) else Err(NotFound)
      ensures !fault.Clean? ==> r == Err(Deferred)
    {
      var present := n in containers;
      if present && !fault.Fail? {
        log := log + [Effect(n, containers[n].owner, actor, at, due)];
        containers := containers[n := containers[n].(running := false, restarting := false)];
      }
      return if !fault.Clean? then Err(Deferred) else if present then Ok(()) else Err(NotFound);
    }

    method Remove(n: Id, fault: Fault, ghost actor: Operation, ghost at: int, ghost due: Option<int>) returns (r: Result<()>)
      modifies this
      ensures containers == if fault.Fail? || n !in old(containers) then old(containers) else old(containers) - {n}
      ensures log == if fault.Fail? || n !in old(containers) then old(log)
                     else old(log) + [Effect(n, old(containers)[n].owner, actor, at, due)]
      ensures fault.Clean? ==> r == if n in old(containers) then Ok(()) else Err(NotFound)
      ensures !fault.Clean? ==> r == Err(Deferred)
    {
      var present := n in containers;
      if present && !fault.Fail? {
        log := log + [Effect(n, containers[n].owner, actor, at, due)];
        containers := containers - {n};
      }
      return if !fault.Clean? then Err(Deferred) else if present then Ok(()) else Err(NotFound);
    }

    /** Between two calls containers exit or disappear, and somebody else may add one. */
    method Drift(exits: set<Id>, restarting: set<Id>, gone: set<Id>, other: Option<(Id, Container)>)
      modifies this`containers
      ensures containers == Drifted(old(containers), exits, restarting, gone, other)
    {
      containers := (map n | n in containers && n !in gone ::
                       Aged(containers[n], n in exits, n in restarting));
      if other.Some? {
        containers := containers[other.value.0 := other.value.1];
      }
    }
  }

  function Aged(c: Container, exits: bool, restarting: bool): Container {
    c.(running := c.running && !exits, restarting := c.running && !exits && restarting)
  }

  function Drifted(native: Natives, exits: set<Id>, restarting: set<Id>, gone: set<Id>, other: Option<(Id, Container)>): Natives {
    var kept := map n | n in native && n !in gone ::
                  Aged(native[n], n in exits, n in restarting);
    if other.Some? then kept[other.value.0 := other.value.1] else kept
  }
}

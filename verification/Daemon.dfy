/** An abstract Docker daemon: what exists, which calls it can honour, and what they change. Whether a call that
    could be honoured succeeds is up to an oracle, so every failure pattern is covered. */
module Daemon {
  /** Identifier of a network or container; 0 is Go's empty string. */
  type Id = nat

  datatype Status = Created | Running | Stopped

  datatype Stage = BeforeRun | AfterRun | BeforeClose | AfterClose

  /** Everything that can fail: daemon calls, the hooks of an application, and `Configure`, the evaluation of a
      container's environment, which fails by a panic. */
  datatype Call =
    | NetworkCreate
    | NetworkConnect(net: Id, id: Id)
    | NetworkRemove(net: Id)
    | ImagePull
    | Configure
    | ContainerCreate
    | ContainerStart(id: Id)
    | ContainerStop(id: Id)
    | ContainerRemove(id: Id)
    | Hook(app: nat, stage: Stage, nth: nat)

  datatype Facts = Facts(networks: set<Id>, containers: map<Id, Status>, links: set<(Id, Id)>)

  datatype Event = Event(call: Call, ok: bool, after: Facts)

  /** The daemon's state, the next identifier it will give out, and every call made so far. */
  datatype World = World(facts: Facts, next: Id, trace: seq<Event>)

  /** Does the n-th call succeed, if it can? */
  type Oracle = (Call, nat) -> bool

  /** A missing target is an error, and a network with containers attached is not removed. */
  predicate Possible(f: Facts, c: Call) {
    match c
    case NetworkConnect(net, id) => net in f.networks && id in f.containers
    case NetworkRemove(net) => net in f.networks && forall l :: l in f.links ==> l.0 != net
    case ContainerStart(id) => id in f.containers
    case ContainerStop(id) => id in f.containers
    case ContainerRemove(id) => id in f.containers
    case _ => true
  }

  function Effect(f: Facts, c: Call, given: Id): Facts {
    match c
    case NetworkCreate => f.(networks := f.networks + {given})
    case NetworkConnect(net, id) => f.(links := f.links + {(net, id)})
    case NetworkRemove(net) => f.(networks := f.networks - {net})
    case ContainerCreate => f.(containers := f.containers[given := Created])
    case ContainerStart(id) => f.(containers := f.containers[id := Running])
    case ContainerStop(id) =>
      if id in f.containers && f.containers[id] == Running then f.(containers := f.containers[id := Stopped]) else f
    case ContainerRemove(id) =>
      f.(containers := f.containers - {id}, links := set l | l in f.links && l.1 != id)
    case ImagePull => f
    case Configure => f
    case Hook(_, _, _) => f
  }

  predicate GivesId(c: Call) {
    c.NetworkCreate? || c.ContainerCreate?
  }

  function Do(w: World, o: Oracle, c: Call): (World, bool) {
    var ok := o(c, |w.trace|) && Possible(w.facts, c);
    var after := if ok then Effect(w.facts, c, w.next) else w.facts;
    (World(after, if ok && GivesId(c) then w.next + 1 else w.next, w.trace + [Event(c, ok, after)]), ok)
  }

  /** Identifiers given out are positive, never reused, and links join things that exist. */
  ghost predicate Sane(w: World) {
    && w.next > 0
    && (forall n :: n in w.facts.networks ==> 0 < n < w.next)
    && (forall c :: c in w.facts.containers ==> 0 < c < w.next)
    && (forall l :: l in w.facts.links ==> l.0 in w.facts.networks && l.1 in w.facts.containers)
  }
}

/** The containers of one service on one Docker host, as the create, start,
    health-gate and remove calls of cmd/dashboard/docker.go change them. */
module DockerHost {
  import opened Common
  import opened EnvContent
  import opened CentralEnvResolver

  datatype Container = Container(name: string, running: bool, canary: bool, image: string, labels: Labels, env: EnvMap)

  const NOBODY := Container("", false, false, "", map[], map[])

  /** One moment in a host's life: which containers exist, which of them passed a
      health gate. */
  datatype Moment = Moment(present: set<nat>, gated: set<nat>)

  /** Something another actor does to the service meanwhile. */
  datatype Race = Appear(container: Container) | Vanish(id: nat)

  /** A host's state with its past: every moment so far (the present one last),
      every container that ever existed as created, and those removed by a Remove
      call, as opposed to a race. */
  datatype Host = Host(
    containers: map<nat, Container>,
    nextId: nat,
    gated: set<nat>,
    log: seq<Moment>,
    known: map<nat, Container>,
    removed: set<nat>)

  function Now(h: Host): Moment {
    Moment(h.containers.Keys, h.gated)
  }

  predicate NameTaken(h: Host, name: string) {
    exists id :: id in h.containers && h.containers[id].name == name
  }

  ghost predicate ValidHost(h: Host) {
    && (forall id :: id in h.known ==> id < h.nextId)
    && h.containers.Keys <= h.known.Keys
    && (forall id :: id in h.containers ==> h.containers[id] == h.known[id].(running := h.containers[id].running))
    && h.log != [] && h.log[|h.log| - 1] == Now(h)
    && h.removed <= h.known.Keys
    && h.removed !! h.containers.Keys
  }

  // ---- What each daemon call does ----

  function Logged(h: Host): Host {
    h.(log := h.log + [Now(h)])
  }

  function AfterCreate(h: Host, c: Container): Host {
    Logged(h.(containers := h.containers[h.nextId := c.(running := false)], nextId := h.nextId + 1,
              known := h.known[h.nextId := c.(running := false)], gated := h.gated - {h.nextId}))
  }

  function AfterStart(h: Host, id: nat): Host
    requires id in h.containers
  {
    h.(containers := h.containers[id := h.containers[id].(running := true)])
  }

  function AfterGate(h: Host, id: nat): Host {
    Logged(h.(gated := h.gated + {id}))
  }

  function AfterRemove(h: Host, id: nat): Host {
    Logged(h.(containers := h.containers - {id}, removed := h.removed + {id}))
  }

  function AfterRace(h: Host, race: Race): Host {
    match race
    case Appear(c) =>
      Logged(h.(containers := h.containers[h.nextId := c], known := h.known[h.nextId := c], nextId := h.nextId + 1))
    case Vanish(id) => Logged(h.(containers := h.containers - {id}))
  }

  function AfterRaces(h: Host, races: seq<Race>): Host {
    if races == [] then h else AfterRace(AfterRaces(h, races[..|races| - 1]), races[|races| - 1])
  }

  /** What each call leaves: a new container exists as asked for, not running and not
      gated; a start makes one run, a gate that opens marks it, a removal takes it
      away; nothing else changes, and each but a start is a new moment. */
  lemma CallsExactly(h: Host, c: Container, id: nat)
    ensures var made := Container(c.name, false, c.canary, c.image, c.labels, c.env);
            AfterCreate(h, c) ==
            Host(h.containers[h.nextId := made], h.nextId + 1, h.gated - {h.nextId},
                 h.log + [Moment(h.containers.Keys + {h.nextId}, h.gated - {h.nextId})], h.known[h.nextId := made], h.removed)
    ensures AfterGate(h, id) ==
            Host(h.containers, h.nextId, h.gated + {id}, h.log + [Moment(h.containers.Keys, h.gated + {id})], h.known, h.removed)
    ensures AfterRemove(h, id) ==
            Host(h.containers - {id}, h.nextId, h.gated, h.log + [Moment(h.containers.Keys - {id}, h.gated)], h.known,
                 h.removed + {id})
    ensures id in h.containers ==>
              var was := h.containers[id];
              AfterStart(h, id) ==
              Host(h.containers[id := Container(was.name, true, was.canary, was.image, was.labels, was.env)], h.nextId, h.gated,
                   h.log, h.known, h.removed)
    ensures AfterRace(h, Appear(c)) ==
            Host(h.containers[h.nextId := c], h.nextId + 1, h.gated, h.log + [Moment(h.containers.Keys + {h.nextId}, h.gated)],
                 h.known[h.nextId := c], h.removed)
    ensures AfterRace(h, Vanish(id)) ==
            Host(h.containers - {id}, h.nextId, h.gated, h.log + [Moment(h.containers.Keys - {id}, h.gated)], h.known, h.removed)
  {
    assert (h.containers - {id}).Keys == h.containers.Keys - {id};
    var made := Container(c.name, false, c.canary, c.image, c.labels, c.env);
    assert h.containers[h.nextId := made].Keys == h.containers.Keys + {h.nextId};
    assert h.containers[h.nextId := c].Keys == h.containers.Keys + {h.nextId};
  }

  lemma LoggingKeepsValid(h: Host, id: nat)
    requires ValidHost(h)
    ensures ValidHost(Logged(h)) && ValidHost(AfterGate(h, id))
  {
  }

  lemma CreateKeepsValid(h: Host, c: Container)
    requires ValidHost(h)
    ensures ValidHost(AfterCreate(h, c)) && ValidHost(AfterRace(h, Appear(c)))
  {
  }

  lemma StartKeepsValid(h: Host, id: nat)
    requires ValidHost(h) && id in h.containers
    ensures ValidHost(AfterStart(h, id))
  {
    assert AfterStart(h, id).containers.Keys == h.containers.Keys;
  }

  lemma RemoveKeepsValid(h: Host, id: nat)
    requires ValidHost(h)
    ensures ValidHost(AfterRace(h, Vanish(id)))
    ensures id in h.containers ==> ValidHost(AfterRemove(h, id))
  {
  }

  lemma CallsKeepValid(h: Host, c: Container, id: nat, race: Race)
    requires ValidHost(h)
    ensures ValidHost(AfterCreate(h, c)) && ValidHost(AfterRace(h, race))
    ensures id in h.containers ==> ValidHost(AfterStart(h, id)) && ValidHost(AfterRemove(h, id))
    ensures ValidHost(AfterGate(h, id)) && ValidHost(Logged(h))
  {
    hide ValidHost, AfterCreate, AfterStart, AfterRemove, AfterGate, Logged;
    LoggingKeepsValid(h, id);
    CreateKeepsValid(h, c);
    RemoveKeepsValid(h, id);
    if id in h.containers {
      StartKeepsValid(h, id);
    }
    match race
    case Appear(other) => CreateKeepsValid(h, other);
    case Vanish(gone) => RemoveKeepsValid(h, gone);
  }

  class Docker {
    var containers: map<nat, Container>
    var nextId: nat
    ghost var gated: set<nat>
    ghost var log: seq<Moment>
    ghost var known: map<nat, Container>
    ghost var removed: set<nat>

    ghost function View(): Host
      reads this
    {
      Host(containers, nextId, gated, log, known, removed)
    }

    ghost predicate Valid()
      reads this
    {
      ValidHost(View())
    }

    constructor (initial: map<nat, Container>, bound: nat)
      requires forall id :: id in initial ==> id < bound
      ensures Valid() && View() == Host(initial, bound, {}, [Moment(initial.Keys, {})], initial, {})
    {
      containers, nextId := initial, bound;
      gated, known, removed := {}, initial, {};
      log := [Moment(initial.Keys, {})];
    }

    /** Refused (409) when the name is in use, or when the daemon fails. */
    method Create(c: Container, daemonOk: bool) returns (id: Option<nat>)
      requires Valid()
      modifies this
      ensures Valid()
      ensures id == if daemonOk && !NameTaken(old(View()), c.name) then Some(old(nextId)) else None
      ensures View() == if id.Some? then AfterCreate(old(View()), c) else old(View())
    {
      hide ValidHost;
      CallsKeepValid(View(), c, 0, Vanish(0));
      var taken := exists id :: id in containers && containers[id].name == c.name;
      if !daemonOk || taken {
        return None;
      }
      var newId := nextId;
      nextId := nextId + 1;
      containers := containers[newId := c.(running := false)];
      known := known[newId := c.(running := false)];
      gated := gated - {newId};
      log := log + [Moment(containers.Keys, gated)];
      return Some(newId);
    }

    method Start(id: nat, daemonOk: bool)
      requires Valid() && id in containers
      modifies this
      ensures Valid() && View() == if daemonOk then AfterStart(old(View()), id) else old(View())
    {
      hide ValidHost;
      CallsKeepValid(View(), containers[id], id, Vanish(0));
      if daemonOk {
        containers := containers[id := containers[id].(running := true)];
      }
    }

    /** waitReplicaReady: whether the container became healthy. */
    method WaitReady(id: nat, healthy: bool)
      requires Valid() && id in containers
      modifies this
      ensures Valid() && View() == if healthy then AfterGate(old(View()), id) else Logged(old(View()))
    {
      hide ValidHost;
      CallsKeepValid(View(), containers[id], id, Vanish(0));
      if healthy {
        gated := gated + {id};
      }
      log := log + [Moment(containers.Keys, gated)];
    }

    /** Stop and remove; removals succeed. */
    method Remove(id: nat)
      requires Valid() && id in containers
      modifies this
      ensures Valid() && View() == AfterRemove(old(View()), id)
    {
      hide ValidHost;
      CallsKeepValid(View(), containers[id], id, Vanish(0));
      containers := containers - {id};
      removed := removed + {id};
      log := log + [Moment(containers.Keys, gated)];
    }

    /** The container list, in whatever order the daemon answers. */
    method List() returns (ids: seq<nat>)
      ensures forall id :: id in ids <==> id in containers
      ensures forall i, j :: 0 <= i < j < |ids| ==> ids[i] != ids[j]
    {
      ids := [];
      var rest := containers.Keys;
      while rest != {}
        invariant rest <= containers.Keys
        invariant forall id :: id in ids <==> id in containers && id !in rest
        invariant forall i, j :: 0 <= i < j < |ids| ==> ids[i] != ids[j]
        decreases rest
      {
        var id :| id in rest;
        ids := ids + [id];
        rest := rest - {id};
      }
    }

    /** Other actors: a scale, a compose recreate, a manual removal. */
    method Interfere(races: seq<Race>)
      requires Valid()
      modifies this
      ensures Valid() && View() == AfterRaces(old(View()), races)
    {
      hide ValidHost;
      for i := 0 to |races|
        invariant Valid() && View() == AfterRaces(old(View()), races[..i])
      {
        CallsKeepValid(View(), NOBODY, 0, races[i]);
        assert races[..i + 1][..i] == races[..i];
        match races[i] {
          case Appear(c) =>
            containers := containers[nextId := c];
            known := known[nextId := c];
            nextId := nextId + 1;
          case Vanish(id) =>
            containers := containers - {id};
        }
        log := log + [Moment(containers.Keys, gated)];
      }
      assert races[..|races|] == races;
    }
  }
}

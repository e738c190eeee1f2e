/** The bounded local roll of one host onto a version, or off its stamps
    (rollLocal in cmd/dashboard/centralenv_sync.go). */
module LocalRoll {
  import opened Common
  import opened EnvContent
  import opened CentralEnvResolver
  import opened DockerHost
  import opened RollingReplace

  datatype Mode = Propagate | Adopt | Unstamp

  /** What the world does in one round of the loop: other actors before the
      listing and between it and the roll's own, whether the daemon answers those
      two (listed, relisted), whether another rollout holds
      the service and whether waiting for it succeeded, the image rolled, what
      inspecting the containers and cloning the template's env would give, the fate
      of each new replica, and whether the job's time ran out during the roll. */
  datatype Round = Round(
    before: seq<Race>,
    listed: bool,
    claimed: bool,
    waited: bool,
    between: seq<Race>,
    relisted: bool,
    image: string,
    hostConfig: nat -> HostConfig,
    spec: bool,
    clone: Option<Clone>,
    fates: nat -> Fate,
    timedOut: bool)

  datatype Failure = TimedOut | NotListed | Unprepared(why: PrepareError) | NotRecreated | RollFailed(error: RollError)

  /** Straggling is success with a warning that names members still behind. */
  datatype Outcome = Done | Straggling | Failed(why: Failure)

  predicate Foreign(c: Container) {
    MemberOf(c.name, c.labels).foreign
  }

  /** A live member this mode still has to recreate. */
  predicate Stale(c: Container, mode: Mode, version: nat) {
    !c.canary &&
    match mode
    case Unstamp => !Foreign(c)
    case Adopt => Foreign(c) || MemberOf(c.name, c.labels).envVersion != version
    case Propagate => !Foreign(c) && MemberOf(c.name, c.labels).envVersion != version
  }

  predicate NoneStale(h: Host, mode: Mode, version: nat) {
    forall id :: id in h.containers ==> !Stale(h.containers[id], mode, version)
  }

  /** env is the env list to roll, None if it is nil: then the roll is not pinned at
      all, whatever the mode asked for. */
  function SourceOf(env: Option<EnvMap>, origin: string, version: nat, mode: Mode, clone: Option<Clone>): Source {
    match env
    case None => Cloned(clone)
    case Some(e) => Pinned(e, if mode.Unstamp? then None else Some((origin, version)), mode.Adopt?)
  }

  /** Whether a roll replaces unstamped members too. */
  predicate RollsForeign(source: Source) {
    source.Cloned? || source.includeForeign
  }

  function ListingOf(containers: map<nat, Container>, ids: seq<nat>): (all: Listing)
    requires forall id :: id in ids ==> id in containers
    ensures |all| == |ids| && forall i :: 0 <= i < |all| ==> all[i] == (ids[i], containers[ids[i]])
  {
    seq(|ids|, i requires 0 <= i < |ids| => (ids[i], containers[ids[i]]))
  }

  ghost predicate IsListing(all: Listing, h: Host) {
    && (forall x :: x in all ==> x.0 in h.containers && h.containers[x.0] == x.1)
    && (forall id :: id in h.containers ==> (id, h.containers[id]) in all)
    && DistinctIds(all)
  }

  lemma ListingIsComplete(d: Docker, ids: seq<nat>)
    requires d.Valid()
    requires forall id :: id in ids <==> id in d.containers
    requires forall i, j :: 0 <= i < j < |ids| ==> ids[i] != ids[j]
    ensures IsListing(ListingOf(d.containers, ids), d.View())
  {
    var all := ListingOf(d.containers, ids);
    forall id | id in d.containers ensures (id, d.containers[id]) in all {
      var i :| 0 <= i < |ids| && ids[i] == id;
      assert all[i] == (id, d.containers[id]);
    }
  }

  method ListMembers(d: Docker) returns (all: Listing)
    requires d.Valid()
    ensures IsListing(all, d.View())
  {
    var ids := d.List();
    all := ListingOf(d.containers, ids);
    ListingIsComplete(d, ids);
  }

  method AnyStale(all: Listing, mode: Mode, version: nat) returns (any: bool)
    ensures any <==> exists x :: x in all && Stale(x.1, mode, version)
  {
    for i := 0 to |all|
      invariant forall x :: x in all[..i] ==> !Stale(x.1, mode, version)
    {
      if Stale(all[i].1, mode, version) {
        return true;
      }
      assert all[..i + 1] == all[..i] + [all[i]];
    }
    assert all[..|all|] == all;
    return false;
  }

  // ---- What the loop keeps ----

  /** mine are the containers this job created; unless it rolls foreign members too,
      nothing else is removed that does not carry a stamp. */
  ghost predicate Kept(h: Host, s: Host, foreignToo: bool, mine: set<nat>) {
    && s.nextId <= h.nextId
    && (forall id :: id in s.known ==> id in h.known && h.known[id] == s.known[id])
    && (forall id :: id in mine ==> s.nextId <= id < h.nextId)
    && (forall id :: id in h.removed ==>
          id in s.removed || id in mine || foreignToo || (id in h.known && !Foreign(h.known[id])))
  }

  lemma {:induction false} RacesKeep(h: Host, races: seq<Race>, s: Host, foreignToo: bool, mine: set<nat>)
    requires ValidHost(h) && Kept(h, s, foreignToo, mine)
    ensures ValidHost(AfterRaces(h, races)) && Kept(AfterRaces(h, races), s, foreignToo, mine)
  {
    if races != [] {
      var rest, race := races[..|races| - 1], races[|races| - 1];
      RacesKeep(h, rest, s, foreignToo, mine);
      CallsKeepValid(AfterRaces(h, rest), NOBODY, 0, race);
    }
  }

  /** A replica as a pinned roll makes it: exactly the env list it was given, under
      its stamp, or under none if it is to take the stamp off. */
  predicate IsMade(c: Container, env: EnvMap, origin: string, version: nat, mode: Mode) {
    && !c.canary && c.env == env
    && (if mode.Unstamp? then Foreign(c)
        else LabelOr(c.labels, LABEL_ENV_ORIGIN) == origin && MemberOf(c.name, c.labels).envVersion == version)
  }

  ghost predicate AllMade(h: Host, mine: set<nat>, env: Option<EnvMap>, origin: string, version: nat, mode: Mode) {
    && (forall id :: id in mine ==> id < h.nextId)
    && (env.Some? ==> forall id :: id in mine && id in h.containers ==> IsMade(h.containers[id], env.value, origin, version, mode))
  }

  lemma {:induction false} RacesKeepMade(h: Host, races: seq<Race>, mine: set<nat>, env: Option<EnvMap>, origin: string,
                                         version: nat, mode: Mode)
    requires AllMade(h, mine, env, origin, version, mode)
    ensures AllMade(AfterRaces(h, races), mine, env, origin, version, mode)
  {
    hide IsMade;
    if races != [] {
      RacesKeepMade(h, races[..|races| - 1], mine, env, origin, version, mode);
    }
  }

  /** The containers created since there were n ids. */
  function CreatedSince(h: Host, n: nat): set<nat> {
    set id | id in h.known && id >= n
  }

  /** What a prepared template replaces. */
  lemma TemplateMembers(all: Listing, h: Host, source: Source, existing: seq<nat>)
    requires IsListing(all, h) && existing == Ids(Candidates(all, source))
    ensures forall id :: id in existing <==>
              id in h.containers && !h.containers[id].canary && (RollsForeign(source) || !Foreign(h.containers[id]))
  {
    var c := Candidates(all, source);
    forall id | id in existing
      ensures id in h.containers && !h.containers[id].canary && (RollsForeign(source) || !Foreign(h.containers[id])) {
      var i :| 0 <= i < |existing| && existing[i] == id;
      assert c[i] in c;
    }
    forall id | id in h.containers && !h.containers[id].canary && (RollsForeign(source) || !Foreign(h.containers[id]))
      ensures id in existing {
      var x := (id, h.containers[id]);
      assert x in LiveOnly(all);
      assert x in c;
      var i :| 0 <= i < |c| && c[i] == x;
      assert existing[i] == id;
    }
  }

  /** The labels of a container never change, so what a roll removed was stamped. */
  lemma RollKeeps(h: Host, h': Host, t: Template, s: Host, foreignToo: bool, mine: set<nat>)
    requires ValidHost(h) && Kept(h, s, foreignToo, mine)
    requires ValidHost(h') && Safe(h', t, h) && h.nextId <= h'.nextId
    requires forall id :: id in t.existing ==> id in h.containers && (foreignToo || !Foreign(h.containers[id]))
    ensures Kept(h', s, foreignToo, mine + CreatedSince(h', h.nextId))
  {
    forall id | id in h'.removed && id < h.nextId
      ensures id in s.removed || id in mine || foreignToo || (id in h'.known && !Foreign(h'.known[id])) {
      if id in h.removed {
        assert id in h.known ==> h'.known[id] == h.known[id];
      } else {
        assert id in t.existing;
        assert h.containers[id].labels == h.known[id].labels && h.containers[id].name == h.known[id].name;
      }
    }
    forall id | id in h'.removed ensures id in h'.known && id < h'.nextId {
    }
  }

  lemma RollMakes(h: Host, h': Host, t: Template, tpl: Container, image: string, mine: set<nat>, env: Option<EnvMap>,
                  origin: string, version: nat, mode: Mode, clone: Option<Clone>)
    requires AllMade(h, mine, env, origin, version, mode) && origin != ""
    requires ValidHost(h) && ValidHost(h') && OnlyRolled(h', t, h) && h.nextId <= h'.nextId
    requires t.env == SourceEnv(SourceOf(env, origin, version, mode, clone))
    requires t.labels == NewLabels(tpl, image, false, SourceOf(env, origin, version, mode, clone))
    ensures AllMade(h', mine + CreatedSince(h', h.nextId), env, origin, version, mode)
  {
    hide NewLabels, IsMade;
    var mine' := mine + CreatedSince(h', h.nextId);
    if env.Some? {
      forall id | id in mine' && id in h'.containers ensures IsMade(h'.containers[id], env.value, origin, version, mode) {
        if id >= h.nextId {
          RolledIsMade(h'.containers[id], t, tpl, image, env.value, origin, version, mode);
        }
      }
    }
  }

  lemma RolledIsMade(c: Container, t: Template, tpl: Container, image: string, env: EnvMap, origin: string, version: nat, mode: Mode)
    requires Built(c, t) && origin != "" && t.env == env
    requires t.labels == NewLabels(tpl, image, false, SourceOf(Some(env), origin, version, mode, None))
    ensures IsMade(c, env, origin, version, mode)
  {
    hide NewLabels;
    RolledMember(c.name, tpl, image, false, env, if mode.Unstamp? then None else Some((origin, version)), mode.Adopt?);
  }

  /** After a successful pinned roll with nobody interfering, nothing is stale. */
  lemma RollReachesGoal(all: Listing, h: Host, h': Host, t: Template, env: EnvMap, origin: string, version: nat, mode: Mode,
                        tpl: Container, image: string, made: set<nat>)
    requires ValidHost(h) && IsListing(all, h) && origin != ""
    requires t.existing == Ids(Candidates(all, SourceOf(Some(env), origin, version, mode, None)))
    requires t.labels == NewLabels(tpl, image, false, SourceOf(Some(env), origin, version, mode, None))
    requires OnlyRolled(h', t, h) && Ended(h', Ok(made), t, h, true)
    ensures NoneStale(h', mode, version)
  {
    TemplateMembers(all, h, SourceOf(Some(env), origin, version, mode, None), t.existing);
    forall id | id in h'.containers ensures !Stale(h'.containers[id], mode, version) {
      if id >= h.nextId {
        var c := h'.containers[id];
        assert Built(c, t);
        RolledMember(c.name, tpl, image, false, env, if mode.Unstamp? then None else Some((origin, version)), mode.Adopt?);
      } else {
        assert id !in made && id in h.containers && h'.containers[id] == h.containers[id];
        assert id !in ToSet(t.existing);
        assert id !in t.existing;
      }
    }
  }

  /** Exactly when a successful roll replaces an unstamped live member: in an adopt,
      or when the env list is nil and the roll therefore not pinned. */
  lemma ForeignRolledExactly(all: Listing, h: Host, h': Host, t: Template, env: Option<EnvMap>, origin: string, version: nat,
                             mode: Mode, clone: Option<Clone>, made: set<nat>, id: nat)
    requires ValidHost(h) && IsListing(all, h)
    requires t.existing == Ids(Candidates(all, SourceOf(env, origin, version, mode, clone)))
    requires OnlyRolled(h', t, h) && Ended(h', Ok(made), t, h, true)
    requires id in h.containers && !h.containers[id].canary && Foreign(h.containers[id])
    ensures id !in h'.containers <==> env.None? || mode.Adopt?
  {
    TemplateMembers(all, h, SourceOf(env, origin, version, mode, clone), t.existing);
    assert id < h.nextId && id !in made;
    assert id in ToSet(t.existing) <==> id in t.existing;
  }

  /** A member that a roll replaces. */
  predicate Rolled(c: Container, env: Option<EnvMap>, mode: Mode) {
    !c.canary && (env.None? || mode.Adopt? || !Foreign(c))
  }

  /** Some container that the roll leaves alone has the name of a replica. */
  ghost predicate Namesake(h: Host, svc: string, env: Option<EnvMap>, mode: Mode) {
    exists id, n: nat :: id in h.containers && !Rolled(h.containers[id], env, mode) && h.containers[id].name == ReplicaName(svc, n)
  }

  /** What must have gone wrong, on a host as a roll found it, for it to fail so. */
  ghost predicate Blames(h: Host, svc: string, env: Option<EnvMap>, mode: Mode, round: Round, why: Failure) {
    match why
    case TimedOut => false
    case NotRecreated => false
    case NotListed => !round.relisted
    case Unprepared(e) =>
      (match e
       case NoImage => round.image == ""
       case NothingLive => forall id :: id in h.containers ==> !Rolled(h.containers[id], env, mode)
       case Irreproducible(id) =>
         id in h.containers && Rolled(h.containers[id], env, mode) && round.hostConfig(id) != Reproducible
       case CannotClone => if env.Some? then !round.spec else round.clone.None?
       case _ => false)
    case RollFailed(e) =>
      (match e
       case CreateFailed => (exists i :: round.fates(i) == CreateFails) || Namesake(h, svc, env, mode)
       case StartFailed => exists i :: round.fates(i) == StartFails
       case GateFailed => exists i :: round.fates(i) == GateFails)
  }

  lemma NoEditsKeepEnv(s: Source)
    ensures EditedEnv(s, NO_EDITS) == Ok(SourceEnv(s))
  {
    assert SourceEnv(s) + map[] == SourceEnv(s);
  }

  lemma RolledAreCandidates(all: Listing, h: Host, env: Option<EnvMap>, origin: string, version: nat, mode: Mode,
                            clone: Option<Clone>)
    requires IsListing(all, h)
    ensures var existing := Ids(Candidates(all, SourceOf(env, origin, version, mode, clone)));
            && (forall id :: id in existing <==> id in h.containers && Rolled(h.containers[id], env, mode))
            && (Candidates(all, SourceOf(env, origin, version, mode, clone)) == [] ==>
                  forall id :: id in h.containers ==> !Rolled(h.containers[id], env, mode))
  {
    var source := SourceOf(env, origin, version, mode, clone);
    TemplateMembers(all, h, source, Ids(Candidates(all, source)));
  }

  /** A roll that fails has its reason. */
  lemma FailedRollHasReason(all: Listing, h: Host, svc: string, env: Option<EnvMap>, mode: Mode, round: Round, t: Template,
                            e: RollError)
    requires Rollable(t, h)
    requires forall id :: id in t.existing <==> id in h.containers && Rolled(h.containers[id], env, mode)
    requires forall id, i: nat :: id in t.existing ==> h.containers[id].name != NewName(svc, t.startIdx, i)
    requires Roll(h, svc, t, true, round.fates).1 == Err(e)
    ensures Blames(h, svc, env, mode, round, RollFailed(e))
  {
    hide Roll, Rollable;
    RollSucceedsExactly(h, svc, t, true, round.fates);
    var i :| FailsAt(h, svc, t, round.fates, i, e);
    if Taken(h, svc, t, i) {
      var id :| id in h.containers && h.containers[id].name == NewName(svc, t.startIdx, i);
      assert h.containers[id].name == ReplicaName(svc, t.startIdx + i);
    }
  }

  /** One roll of the loop: the template, then the swap. */
  method RollOnce(d: Docker, svc: string, env: Option<EnvMap>, origin: string, version: nat, mode: Mode, round: Round,
                  ghost s: Host, ghost mine: set<nat>)
    returns (r: Result<(), Failure>, ghost mine': set<nat>)
    requires d.Valid() && origin != "" && Kept(d.View(), s, env.None? || mode.Adopt?, mine)
    requires AllMade(d.View(), mine, env, origin, version, mode)
    modifies d
    ensures d.Valid() && Kept(d.View(), s, env.None? || mode.Adopt?, mine') && mine <= mine'
    ensures AllMade(d.View(), mine', env, origin, version, mode)
    ensures r.Ok? && env.Some? ==> NoneStale(d.View(), mode, version)
    ensures r.Err? ==> Blames(old(d.View()), svc, env, mode, round, r.error)
    ensures !round.relisted ==> r == Err(NotListed) && d.View() == old(d.View())
  {
    hide Kept, AllMade, Candidates, Roll, ValidTemplate, IsListing, ValidHost, OnlyRolled, Safe, Ended, NoneStale, NewLabels,
         PreferRunning;
    mine' := mine;
    ghost var h := d.View();
    if !round.relisted {
      return Err(NotListed), mine;
    }
    var all := ListMembers(d);
    var source := SourceOf(env, origin, version, mode, round.clone);
    DistinctListing(all, h);
    NoEditsKeepEnv(source);
    RolledAreCandidates(all, h, env, origin, version, mode, round.clone);
    var t := PrepareReplaceTemplate(svc, all, round.image, false, source, NO_EDITS, round.hostConfig, round.spec);
    if t.Err? {
      return Err(Unprepared(t.error)), mine;
    }
    TemplateMembers(all, h, source, t.value.existing);
    assert Rollable(t.value, h);
    var rolled := RollTemplate(d, svc, t.value, true, round.fates);
    ghost var h' := d.View();
    RollIsSurgeOfOne(h, svc, t.value, true, round.fates);
    RollKeeps(h, h', t.value, s, env.None? || mode.Adopt?, mine);
    RollMakes(h, h', t.value, PreferRunning(Candidates(all, source))[0].1, round.image, mine, env, origin, version, mode,
              round.clone);
    mine' := mine + CreatedSince(h', h.nextId);
    if rolled.Err? {
      NamesOfMembersAreFree(all, h, svc, source, t.value);
      FailedRollHasReason(all, h, svc, env, mode, round, t.value, rolled.error);
      return Err(RollFailed(rolled.error)), mine';
    }
    if env.Some? {
      RollReachesGoal(all, h, h', t.value, env.value, origin, version, mode,
                      PreferRunning(Candidates(all, source))[0].1, round.image, rolled.value);
    }
    return Ok(()), mine';
  }

  lemma DistinctListing(all: Listing, h: Host)
    requires IsListing(all, h)
    ensures DistinctIds(all)
  {
  }

  lemma NamesOfMembersAreFree(all: Listing, h: Host, svc: string, source: Source, t: Template)
    requires IsListing(all, h) && t.existing == Ids(Candidates(all, source))
    requires forall x, i: nat :: x in Candidates(all, source) ==> x.1.name != NewName(svc, t.startIdx, i)
    ensures forall id, i: nat :: id in t.existing ==> id in h.containers && h.containers[id].name != NewName(svc, t.startIdx, i)
  {
    hide NewName;
    TemplateMembers(all, h, source, t.existing);
    var members := Candidates(all, source);
    forall id, i: nat | id in t.existing ensures h.containers[id].name != NewName(svc, t.startIdx, i) {
      var k :| 0 <= k < |members| && members[k].0 == id;
      assert members[k] in all;
    }
  }

  /** A round after which the loop goes on, whatever its roll did. */
  predicate Passes(r: Round) {
    r.listed && if r.claimed then r.waited else !r.timedOut
  }

  /** A round that ends the loop for want of time. */
  predicate TimesOut(r: Round) {
    r.listed && if r.claimed then !r.waited else r.timedOut
  }

  /** How many of the rounds get to roll. */
  function Unclaimed(plan: seq<Round>): nat {
    if plan == [] then 0 else Unclaimed(plan[..|plan| - 1]) + if plan[|plan| - 1].claimed then 0 else 1
  }

  /** Nobody interferes, nothing fails and there is time. */
  ghost predicate Easy(r: Round) {
    && r.before == [] && r.between == [] && r.listed && r.relisted && !r.claimed && !r.timedOut
    && r.image != "" && r.spec && (forall id :: r.hostConfig(id) == Reproducible) && (forall i :: r.fates(i) == Healthy)
  }

  ghost predicate AllEasy(plan: seq<Round>) {
    |plan| >= 2 && forall k :: 0 <= k < |plan| ==> Easy(plan[k])
  }

  /** Nothing but a reason of its own makes an easy roll fail: some member is stale,
      and nothing it leaves alone has a replica's name. */
  lemma EasyRollHasNoReason(h: Host, svc: string, env: Option<EnvMap>, mode: Mode, version: nat, round: Round, why: Failure)
    requires Easy(round) && env.Some? && !NoneStale(h, mode, version) && !Namesake(h, svc, env, mode)
    ensures !Blames(h, svc, env, mode, round, why)
  {
    var id :| id in h.containers && Stale(h.containers[id], mode, version);
    assert Rolled(h.containers[id], env, mode);
  }

  /** Why the loop gave up in this round, found being the host as its roll found it. */
  ghost predicate Explains(found: Host, svc: string, env: Option<EnvMap>, mode: Mode, round: Round, why: Failure) {
    match why
    case TimedOut => TimesOut(round)
    case NotRecreated => !mode.Propagate?
    case NotListed => !round.listed || (!round.claimed && Blames(found, svc, env, mode, round, why))
    case _ => round.listed && !round.claimed && !round.timedOut && Blames(found, svc, env, mode, round, why)
  }

  /** One round, after so many rolls: how it ends the loop, if it does. */
  method OneRound(d: Docker, svc: string, env: Option<EnvMap>, origin: string, version: nat, mode: Mode, round: Round,
                  rolls: nat, ghost s: Host, ghost mine: set<nat>)
    returns (end: Option<Outcome>, ghost mine': set<nat>, ghost found: Host)
    requires d.Valid() && origin != "" && rolls <= 2 && Kept(d.View(), s, env.None? || mode.Adopt?, mine)
    requires AllMade(d.View(), mine, env, origin, version, mode)
    modifies d
    ensures d.Valid() && Kept(d.View(), s, env.None? || mode.Adopt?, mine')
    ensures AllMade(d.View(), mine', env, origin, version, mode)
    ensures end == Some(Done) ==> NoneStale(d.View(), mode, version)
    ensures end == Some(Straggling) || end == Some(Failed(NotRecreated)) ==>
              rolls == 2 && !NoneStale(d.View(), mode, version) && (end == Some(Straggling) <==> mode.Propagate?)
    ensures end.Some? && end.value.Failed? ==> Explains(found, svc, env, mode, round, end.value.why)
    ensures Passes(round) ==> end != Some(Failed(TimedOut))
    ensures end.None? ==> Passes(round) && rolls < 2 && (!round.claimed && env.Some? ==> NoneStale(d.View(), mode, version))
    ensures round.before == [] && NoneStale(old(d.View()), mode, version) ==>
              d.View() == old(d.View()) && end == Some(if round.listed then Done else Failed(NotListed))
    ensures env.Some? && Easy(round) && rolls < 2 && !Namesake(old(d.View()), svc, env, mode) ==>
              if NoneStale(old(d.View()), mode, version) then end == Some(Done) else end.None?
  {
    hide Kept, AllMade, NoneStale, IsListing, ValidHost, Blames, Namesake, Easy;
    mine', found := mine, d.View();
    ghost var foreignToo := env.None? || mode.Adopt?;
    EasyRound(round);
    RacesKeep(d.View(), round.before, s, foreignToo, mine);
    RacesKeepMade(d.View(), round.before, mine, env, origin, version, mode);
    d.Interfere(round.before);
    if !round.listed {
      return Some(Failed(NotListed)), mine', found;
    }
    var all := ListMembers(d);
    var stale := AnyStale(all, mode, version);
    StaleListed(all, d.View(), mode, version);
    if !stale {
      return Some(Done), mine', found;
    }
    if rolls == 2 {
      return Some(if mode.Propagate? then Straggling else Failed(NotRecreated)), mine', found;
    }
    if round.claimed {
      return if round.waited then None else Some(Failed(TimedOut)), mine', found;
    }
    RacesKeep(d.View(), round.between, s, foreignToo, mine);
    RacesKeepMade(d.View(), round.between, mine, env, origin, version, mode);
    d.Interfere(round.between);
    found := d.View();
    var rolled;
    rolled, mine' := RollOnce(d, svc, env, origin, version, mode, round, s, mine);
    if round.timedOut {
      return Some(Failed(TimedOut)), mine', found;
    }
    if rolled.Err? {
      RollFailureHasReason(found, svc, env, mode, version, round, rolled.error);
      return Some(Failed(rolled.error)), mine', found;
    }
    return None, mine', found;
  }

  lemma EasyRound(r: Round)
    ensures Easy(r) ==> r.before == [] && r.between == [] && r.listed && Passes(r) && !r.claimed && !r.timedOut
  {
  }

  lemma RollFailureHasReason(h: Host, svc: string, env: Option<EnvMap>, mode: Mode, version: nat, round: Round, why: Failure)
    requires Blames(h, svc, env, mode, round, why)
    ensures round.listed && !round.claimed && !round.timedOut ==> Explains(h, svc, env, mode, round, why)
    ensures !why.TimedOut? && !why.NotRecreated?
    ensures env.Some? && Easy(round) && !NoneStale(h, mode, version) ==> Namesake(h, svc, env, mode)
  {
    if env.Some? && Easy(round) && !NoneStale(h, mode, version) && !Namesake(h, svc, env, mode) {
      EasyRollHasNoReason(h, svc, env, mode, version, round, why);
    }
  }

  /** Rolls until no member is stale, with one re-run for stragglers. It ends
      (also when other rollouts keep the service claimed, once the job's time is
      up), after at most two rolls, with no member stale, a warning, or an error;
      release and adopt never end with a warning. An error has its reason in the
      last of the rounds used (found is the host as that round's roll found it), or
      the rounds ran out. With an env list, and outside an adopt, it removes only
      stamped members and replicas of its own, and what it leaves of those runs
      exactly that list under its stamp; a nil list unpins its rolls
      (ForeignRolledExactly). */
  method RollLocal(d: Docker, svc: string, env: Option<EnvMap>, origin: string, version: nat, mode: Mode, plan: seq<Round>)
    returns (r: Outcome, rolls: nat, ghost mine: set<nat>, ghost used: nat, ghost found: Host)
    requires d.Valid() && origin != ""
    modifies d
    ensures d.Valid() && rolls <= 2
    ensures r.Done? ==> NoneStale(d.View(), mode, version)
    ensures r.Straggling? || r == Failed(NotRecreated) ==>
              rolls == 2 && !NoneStale(d.View(), mode, version) && (r.Straggling? <==> mode.Propagate?)
    ensures used <= |plan| && forall k :: 0 <= k < used - 1 ==> Passes(plan[k])
    ensures r.Failed? ==>
              || (used >= 1 && Explains(found, svc, env, mode, plan[used - 1], r.why))
              || (r.why == TimedOut && used == |plan| && forall k :: 0 <= k < |plan| ==> Passes(plan[k]))
    ensures (forall k :: 0 <= k < |plan| ==> Passes(plan[k])) && Unclaimed(plan) >= 3 ==> r != Failed(TimedOut)
    ensures env.Some? && AllEasy(plan) && !Namesake(old(d.View()), svc, env, mode) ==>
              r.Done? && rolls == if NoneStale(old(d.View()), mode, version) then 0 else 1
    ensures Kept(d.View(), old(d.View()), env.None? || mode.Adopt?, mine)
    ensures AllMade(d.View(), mine, env, origin, version, mode)
    ensures env.Some? && (forall i :: 0 <= i < |plan| ==> plan[i].before == [] && plan[i].between == []) ==>
              rolls <= 1 && !r.Straggling? && r != Failed(NotRecreated)
  {
    hide Kept, AllMade, NoneStale, ValidHost, Namesake, Easy, Explains, Passes;
    ghost var s := d.View();
    rolls, mine, used, found := 0, {}, 0, s;
    ghost var alone := env.Some? && forall k :: 0 <= k < |plan| ==> plan[k].before == [] && plan[k].between == [];
    ghost var easy := env.Some? && AllEasy(plan) && !Namesake(s, svc, env, mode);
    NothingYet(s, env.None? || mode.Adopt?);
    NothingMadeYet(s, env, origin, version, mode);
    for i := 0 to |plan|
      invariant d.Valid() && Kept(d.View(), s, env.None? || mode.Adopt?, mine)
      invariant AllMade(d.View(), mine, env, origin, version, mode)
      invariant used == i && rolls <= 2 && rolls == Unclaimed(plan[..i])
      invariant forall k :: 0 <= k < i ==> Passes(plan[k])
      invariant alone ==> rolls <= 1 && (rolls == 1 ==> NoneStale(d.View(), mode, version))
      invariant easy && i == 0 ==> d.View() == s
      invariant easy && i > 0 ==> i == rolls == 1 && NoneStale(d.View(), mode, version) && !NoneStale(s, mode, version)
    {
      used := i + 1;
      assert plan[..i + 1][..i] == plan[..i];
      EasyRound(plan[i]);
      var end;
      end, mine, found := OneRound(d, svc, env, origin, version, mode, plan[i], rolls, s, mine);
      if end.Some? {
        return end.value, rolls, mine, used, found;
      }
      if !plan[i].claimed {
        rolls := rolls + 1;
      }
    }
    assert plan[..|plan|] == plan;
    return Failed(TimedOut), rolls, mine, used, found;
  }

  lemma NothingMadeYet(s: Host, env: Option<EnvMap>, origin: string, version: nat, mode: Mode)
    ensures AllMade(s, {}, env, origin, version, mode)
  {
  }

  lemma NothingYet(s: Host, foreignToo: bool)
    requires ValidHost(s)
    ensures Kept(s, s, foreignToo, {})
  {
  }

  lemma StaleListed(all: Listing, h: Host, mode: Mode, version: nat)
    requires IsListing(all, h)
    ensures NoneStale(h, mode, version) <==> !exists x :: x in all && Stale(x.1, mode, version)
  {
    if x :| x in all && Stale(x.1, mode, version) {
      assert x.0 in h.containers;
    }
    if id :| id in h.containers && Stale(h.containers[id], mode, version) {
      assert (id, h.containers[id]) in all;
    }
  }
}

/** One centrally managed service on an origin and its peers, as a step system:
    store operations, fetch answers that may be delayed, reordered or delivered
    twice, resolved creates in flight, convergence jobs with rollbacks, crashes.
    The main result is agreement: whatever carries version v on host h holds
    exactly the env the origin's history gives h at v. */
module EnvReplication {
  import opened Common
  import opened EnvContent
  import opened CentralEnvStore
  import opened StoreHistory
  import opened CentralEnvCache
  import opened CentralEnvResolver
  import opened PeerJob

  /** A replica carries the version it was stamped with, or no stamp. */
  datatype Replica = Replica(stamp: Option<nat>, env: EnvMap)

  /** The origin's answer to a fetch by host. */
  datatype Reply = Reply(host: string, got: Fetched)

  /** Where a host's job is. Fetching and Planning hold what runPeer captured
      before the fetch. A roll that is not pinned creates its replicas as any other
      create does, from what Resolve says. */
  datatype Job =
    | Idle
    | Fetching(before: Option<Entry>)
    | Planning(before: Option<Entry>, got: Fetched, putError: Option<PutError>)
    | Rolling(target: Pin, pinned: bool, prev: Option<Pin>)
    | RollingBack(failed: nat, to: Pin)

  /** seen holds what creates under way read from the cache before they asked the
      origin, pending the resolved envs of creates not done yet. */
  datatype Host = Host(
    cache: Option<Entry>,
    replicas: multiset<Replica>,
    seen: set<Option<Entry>>,
    pending: set<Pin>,
    job: Job)

  datatype System = System(
    store: Traced,
    secrets: EnvMap,
    service: string,
    origin: string,
    hosts: map<string, Host>,
    replies: set<Reply>)

  datatype Event =
    // the origin
    | Edit(attempt: Attempt)
    | Serve(host: string, healthcheck: Option<Healthcheck>)
    | OriginRead
    // creates: a scale, a label flip, an image roll, an A/B copy, a compose recreate
    | ResolveRead(host: string)
    | ResolveCreate(host: string, read: Option<Entry>, stamped: bool, answer: Option<Reply>, persisted: bool)
    | Create(host: string, pin: Pin)
    | Abandon(host: string, pin: Pin)
    | Copy(host: string, replica: Replica)
    | CreateUnstamped(host: string, env: EnvMap)
    | RemoveReplica(host: string, replica: Replica)
    // the peer's cache
    | AcceptSeed(host: string, reply: Reply, persisted: bool)
    | ClearFailure(host: string, persisted: bool)
    | DropCache(host: string)
    // the peer's job
    | JobStart(host: string)
    | JobPut(host: string, reply: Reply, persisted: bool)
    | JobPlan(host: string)
    | JobReplica(host: string)
    | JobDone(host: string)
    | JobGateFailed(host: string, persisted: bool)
    | JobRestored(host: string, persisted: bool)
    | Crash(host: string)

  // ---- Steps ----

  /** What the store on host knows of the service. */
  function StoreAt(s: System, host: string): StoreView {
    if host == s.origin then StoreView(map[s.service := s.store.rec], {}) else StoreView(map[], {})
  }

  function StampOf(s: System, stamped: bool): Labels {
    if stamped then map[LABEL_ENV_ORIGIN := s.origin] else map[]
  }

  predicate Answers(s: System, r: Option<Reply>, host: string) {
    r.Some? ==> r.value in s.replies && r.value.host == host
  }

  function Got(r: Option<Reply>): Option<Fetched> {
    if r.Some? then Some(r.value.got) else None
  }

  /** How a resolution ends that read the cache earlier, given the cache as it is. */
  function Resolved(s: System, host: string, read: Option<Entry>, stamped: bool, reply: Option<Reply>, persisted: bool)
    : (Resolution, Option<Entry>)
    requires host in s.hosts
  {
    ResolveSpec(true, host, StoreAt(s, host), s.service, s.secrets, read, StampOf(s, stamped), Got(reply),
                s.hosts[host].cache, persisted)
  }

  function OfferOf(s: System, got: Fetched): Offer {
    Offer(s.origin, got.version, got.env, got.healthcheck)
  }

  function WithHost(s: System, host: string, h: Host): System {
    s.(hosts := s.hosts[host := h])
  }

  /** What an event on one host makes of that host. */
  function HostNext(s: System, host: string, e: Event): Host
    requires host in s.hosts
  {
    var h := s.hosts[host];
    match e
    case ResolveRead(_) => h.(seen := h.seen + {h.cache})
    case ResolveCreate(_, read, stamped, reply, persisted) =>
      if read !in h.seen || !Answers(s, reply, host) then h
      else
        var (r, cache) := Resolved(s, host, read, stamped, reply, persisted);
        h.(cache := cache, pending := if r.Managed? then h.pending + {Pin(r.version, r.env)} else h.pending)
    case Create(_, pin) =>
      if pin !in h.pending then h
      else h.(pending := h.pending - {pin}, replicas := h.replicas + multiset{Replica(Some(pin.version), pin.env)})
    case Abandon(_, pin) => h.(pending := h.pending - {pin})
    case Copy(_, replica) => if replica in h.replicas then h.(replicas := h.replicas + multiset{replica}) else h
    case CreateUnstamped(_, env) => h.(replicas := h.replicas + multiset{Replica(None, env)})
    case RemoveReplica(_, replica) => h.(replicas := h.replicas - multiset{replica})
    case AcceptSeed(_, reply, persisted) =>
      if host == s.origin || !Answers(s, Some(reply), host) then h
      else h.(cache := PutOutcome(s.service, h.cache, OfferOf(s, reply.got), persisted).0)
    case ClearFailure(_, persisted) =>
      if h.cache.Some? && persisted then h.(cache := Some(ClearedFailed(h.cache.value))) else h
    case DropCache(_) => h.(cache := None)
    case JobStart(_) => if host != s.origin && h.job.Idle? then h.(job := Fetching(h.cache)) else h
    case JobPut(_, reply, persisted) =>
      if !h.job.Fetching? || !Answers(s, Some(reply), host) then h
      else
        var (after, err) := PutOutcome(s.service, h.cache, OfferOf(s, reply.got), persisted);
        h.(cache := after, job := Planning(h.job.before, reply.got, err))
    case JobPlan(_) =>
      if !h.job.Planning? then h
      else
        h.(job := match PlanOf(h.job.before, s.origin, h.job.got, h.job.putError, h.cache)
                  case Stop => Idle
                  case RollTo(target, list, prev, _, _) => Rolling(target, list.Some?, prev))
    case JobReplica(_) =>
      (match h.job
       case Rolling(target, pinned, _) =>
         if pinned then h.(replicas := h.replicas + multiset{Replica(Some(target.version), target.env)}) else h
       case RollingBack(_, to) => h.(replicas := h.replicas + multiset{Replica(Some(to.version), to.env)})
       case _ => h)
    case JobDone(_) => if h.job.Rolling? then h.(job := Idle) else h
    case JobGateFailed(_, persisted) =>
      if !h.job.Rolling? then h
      else if h.job.prev.Some? then h.(job := RollingBack(h.job.target.version, h.job.prev.value))
      else h.(job := Idle, cache := AfterGateFailure(h.cache, h.job.target.version, None, persisted))
    case JobRestored(_, persisted) =>
      if !h.job.RollingBack? then h
      else h.(job := Idle, cache := AfterGateFailure(h.cache, h.job.failed, Some(h.job.to), persisted))
    case Crash(_) => h.(job := Idle, seen := {}, pending := {})
    case _ => h
  }

  function Next(s: System, e: Event): System {
    match e
    case Edit(attempt) => s.(store := Step(s.store, attempt))
    case Serve(host, hc) =>
      (match EffectiveEnvAtSpec(StoreAt(s, s.origin), s.service, host, s.secrets)
       case Err(_) => s
       case Ok((env, version)) => s.(replies := s.replies + {Reply(host, Fetched(env, version, hc))}))
    case OriginRead =>
      if s.origin !in s.hosts || !s.hosts[s.origin].job.Idle? then s
      else
        (match EffectiveEnvAtSpec(StoreAt(s, s.origin), s.service, s.origin, s.secrets)
         case Err(_) => s
         case Ok((env, version)) =>
           WithHost(s, s.origin, s.hosts[s.origin].(job := Rolling(Pin(version, env), true, None))))
    case _ => if e.host in s.hosts then WithHost(s, e.host, HostNext(s, e.host, e)) else s
  }

  function Runs(s: System, events: seq<Event>): System
    decreases |events|
  {
    if events == [] then s else Runs(Next(s, events[0]), events[1..])
  }

  // ---- Progress ----

  /** What a host ends up running. */
  predicate Has(s: System, host: string, cache: Option<Entry>, replicas: multiset<Replica>) {
    host in s.hosts && s.hosts[host].cache == cache && s.hosts[host].replicas == replicas
  }

  /** The steps of a peer's job: it remembers the cache it starts from, puts what it
      fetched, plans on what the put left, adds replicas of what it rolls, and ends;
      or its gate fails, and it rolls back what ran before, if it knows that. */
  lemma JobStepsExactly(s: System, host: string, reply: Reply, saved: bool)
    requires host in s.hosts
    ensures var h := s.hosts[host];
      && HostNext(s, host, JobStart(host)) == (if h.job == Idle && host != s.origin then h.(job := Fetching(h.cache)) else h)
      && (h.job.Fetching? && reply in s.replies && reply.host == host ==>
            var (after, err) := PutOutcome(s.service, h.cache, OfferOf(s, reply.got), saved);
            HostNext(s, host, JobPut(host, reply, saved)) == h.(cache := after, job := Planning(h.job.before, reply.got, err)))
      && (h.job.Planning? ==>
            var plan := PlanOf(h.job.before, s.origin, h.job.got, h.job.putError, h.cache);
            HostNext(s, host, JobPlan(host))
            == h.(job := if plan == Stop then Idle else Rolling(plan.target, plan.list.Some?, plan.prev)))
  {
    hide PutOutcome, PlanOf, AfterGateFailure, Resolved;
  }

  lemma RollStepsExactly(s: System, host: string, saved: bool)
    requires host in s.hosts
    ensures var h := s.hosts[host];
      && (h.job.Rolling? && h.job.pinned ==>
            HostNext(s, host, JobReplica(host))
            == h.(replicas := h.replicas + multiset{Replica(Some(h.job.target.version), h.job.target.env)}))
      && (h.job.Rolling? && !h.job.pinned ==> HostNext(s, host, JobReplica(host)) == h)
      && (h.job.RollingBack? ==>
            HostNext(s, host, JobReplica(host))
            == h.(replicas := h.replicas + multiset{Replica(Some(h.job.to.version), h.job.to.env)}))
      && HostNext(s, host, JobDone(host)) == (if h.job.Rolling? then h.(job := Idle) else h)
      && (h.job.Rolling? && h.job.prev.Some? ==>
            HostNext(s, host, JobGateFailed(host, saved)) == h.(job := RollingBack(h.job.target.version, h.job.prev.value)))
      && (h.job.Rolling? && h.job.prev.None? ==>
            HostNext(s, host, JobGateFailed(host, saved))
            == h.(job := Idle, cache := AfterGateFailure(h.cache, h.job.target.version, None, saved)))
      && (h.job.RollingBack? ==>
            HostNext(s, host, JobRestored(host, saved))
            == h.(job := Idle, cache := AfterGateFailure(h.cache, h.job.failed, Some(h.job.to), saved)))
  {
    hide PutOutcome, PlanOf, AfterGateFailure, Resolved;
  }

  lemma OnHost(s: System, host: string, e: Event)
    requires host in s.hosts && !e.Edit? && !e.Serve? && !e.OriginRead? && e.host == host
    ensures Next(s, e) == WithHost(s, host, HostNext(s, host, e))
  {
    hide HostNext;
  }

  /** The origin's answer for a host, as of now. */
  function Current(s: System, host: string, env: EnvMap): Reply {
    Reply(host, Fetched(env, s.store.rec.version, None))
  }

  lemma ServesCurrent(s: System, host: string, env: EnvMap)
    requires EffectiveEnv(s.store.rec.content, host, s.secrets) == Some(env)
    ensures Next(s, Serve(host, None)) == s.(replies := s.replies + {Current(s, host, env)})
  {
    hide EffectiveEnv;
  }

  /** A cache that lets the origin's present version in, and can be rolled back to. */
  predicate Behind(s: System, before: Option<Entry>) {
    before.Some? ==>
      && before.value.origin == s.origin && before.value.env != map[] && before.value.version >= 1
      && before.value.version < s.store.rec.version && before.value.failedVersion < s.store.rec.version
  }

  /** What the put of the present version leaves on a host behind, and what is
      planned on that. */
  lemma PlansCurrent(s: System, before: Option<Entry>, got: Fetched)
    requires Behind(s, before) && ValidServiceName(s.service) && got.version == s.store.rec.version && got.healthcheck.None?
    ensures var (after, err) := PutOutcome(s.service, before, OfferOf(s, got), true);
            var plan := PlanOf(before, s.origin, got, err, after);
            && err.None? && after.Some? && after.value.origin == s.origin
            && after.value.version == got.version && after.value.env == got.env && after.value.failedVersion == 0
            && plan.RollTo? && plan.target == Pin(got.version, got.env) && plan.list.Some?
            && plan.prev == if before.None? then None else Some(Pin(before.value.version, before.value.env))
  {
  }

  /** A peer's job for the origin's present version, up to the planned roll. */
  function AfterPlan(s: System, host: string, env: EnvMap): System {
    Next(Next(Next(Next(s, JobStart(host)), Serve(host, None)), JobPut(host, Current(s, host, env), true)), JobPlan(host))
  }

  lemma PlannedRoll(s: System, host: string, env: EnvMap, before: Option<Entry>)
    requires host in s.hosts && host != s.origin && s.hosts[host].job == Idle && before == s.hosts[host].cache
    requires ValidServiceName(s.service) && EffectiveEnv(s.store.rec.content, host, s.secrets) == Some(env) && Behind(s, before)
    ensures var got := Current(s, host, env).got;
            var after := PutOutcome(s.service, before, OfferOf(s, got), true).0;
            var prev := if before.None? then None else Some(Pin(before.value.version, before.value.env));
            var t := AfterPlan(s, host, env);
            && host in t.hosts
            && t.hosts[host] == s.hosts[host].(cache := after, job := Rolling(Pin(got.version, got.env), true, prev))
  {
    hide HostNext, Next, PutOutcome, PlanOf, EffectiveEnv, ValidServiceName, Behind;
    var reply := Current(s, host, env);
    OnHost(s, host, JobStart(host));
    JobStepsExactly(s, host, reply, true);
    var s1 := Next(s, JobStart(host));
    ServesCurrent(s1, host, env);
    var s2 := Next(s1, Serve(host, None));
    OnHost(s2, host, JobPut(host, reply, true));
    JobStepsExactly(s2, host, reply, true);
    var s3 := Next(s2, JobPut(host, reply, true));
    PlansCurrent(s, before, reply.got);
    OnHost(s3, host, JobPlan(host));
    JobStepsExactly(s3, host, reply, true);
  }

  /** A peer whose cache is behind, and did not fail the origin's present version,
      converges: its job caches the env this version gives the host, rolls it under
      its stamp, and ends. */
  lemma PeerConverges(s: System, host: string, env: EnvMap, before: Option<Entry>)
    requires host in s.hosts && host != s.origin && s.hosts[host].job == Idle && before == s.hosts[host].cache
    requires ValidServiceName(s.service) && EffectiveEnv(s.store.rec.content, host, s.secrets) == Some(env) && Behind(s, before)
    ensures var v := s.store.rec.version;
            var t := Next(Next(AfterPlan(s, host, env), JobReplica(host)), JobDone(host));
            && host in t.hosts && t.hosts[host].job == Idle
            && t.hosts[host].cache.Some? && t.hosts[host].cache.value.origin == s.origin
            && t.hosts[host].cache.value.version == v && t.hosts[host].cache.value.env == env
            && t.hosts[host].cache.value.failedVersion == 0
            && t.hosts[host].replicas == s.hosts[host].replicas + multiset{Replica(Some(v), env)}
  {
    PlansCurrent(s, before, Current(s, host, env).got);
    hide HostNext, Next, PutOutcome, PlanOf, EffectiveEnv, ValidServiceName, Behind, AfterPlan;
    PlannedRoll(s, host, env, before);
    var planned := AfterPlan(s, host, env);
    OnHost(planned, host, JobReplica(host));
    RollStepsExactly(planned, host, true);
    var rolled := Next(planned, JobReplica(host));
    OnHost(rolled, host, JobDone(host));
    RollStepsExactly(rolled, host, true);
  }

  /** If its gate fails, it rolls what ran before again, and the cache is back on
      that with the failed version marked; without anything before, the version is
      marked where it is. */
  lemma PeerRollsBack(s: System, host: string, env: EnvMap, before: Option<Entry>)
    requires host in s.hosts && host != s.origin && s.hosts[host].job == Idle && before == s.hosts[host].cache
    requires ValidServiceName(s.service) && EffectiveEnv(s.store.rec.content, host, s.secrets) == Some(env) && Behind(s, before)
    ensures var v := s.store.rec.version;
            var failed := Next(AfterPlan(s, host, env), JobGateFailed(host, true));
            var t := if before.None? then failed else Next(Next(failed, JobReplica(host)), JobRestored(host, true));
            && host in t.hosts && t.hosts[host].job == Idle && t.hosts[host].cache.Some?
            && t.hosts[host].cache.value.failedVersion == v
            && (before.None? ==> t.hosts[host].cache.value.version == v && t.hosts[host].replicas == s.hosts[host].replicas)
            && (before.Some? ==>
                  var earlier := before.value;
                  && t.hosts[host].cache.value.version == earlier.version && t.hosts[host].cache.value.env == earlier.env
                  && t.hosts[host].replicas == s.hosts[host].replicas + multiset{Replica(Some(earlier.version), earlier.env)})
  {
    PlansCurrent(s, before, Current(s, host, env).got);
    hide HostNext, Next, PutOutcome, PlanOf, EffectiveEnv, ValidServiceName, Behind, AfterPlan;
    PlannedRoll(s, host, env, before);
    var planned := AfterPlan(s, host, env);
    OnHost(planned, host, JobGateFailed(host, true));
    RollStepsExactly(planned, host, true);
    if before.Some? {
      var failed := Next(planned, JobGateFailed(host, true));
      OnHost(failed, host, JobReplica(host));
      RollStepsExactly(failed, host, true);
      var rolled := Next(failed, JobReplica(host));
      OnHost(rolled, host, JobRestored(host, true));
      RollStepsExactly(rolled, host, true);
    }
  }

  /** A create on a peer that reaches the origin gets its present version: the
      resolution is cached, and the replica runs it under its stamp. One on the
      origin gets it from the store. */
  lemma CreateGetsCurrent(s: System, host: string, env: EnvMap)
    requires host in s.hosts && ValidServiceName(s.service) && s.origin != ""
    requires EffectiveEnv(s.store.rec.content, host, s.secrets) == Some(env)
    requires s.hosts[host].cache.None?
    ensures var v := s.store.rec.version;
            var pin := Pin(v, env);
            var reply := Reply(host, Fetched(env, v, None));
            var answered := Next(Next(s, ResolveRead(host)), Serve(host, None));
            var resolved := Next(answered, ResolveCreate(host, None, true, Some(reply), true));
            var created := Next(resolved, Create(host, pin));
            && host in resolved.hosts && pin in resolved.hosts[host].pending
            && Has(created, host, if host == s.origin then None else Some(Entry(s.origin, v, env, map[], 0, None, 0)),
                   s.hosts[host].replicas + multiset{Replica(Some(v), env)})
            && pin !in created.hosts[host].pending
  {
    var v := s.store.rec.version;
    var reply := Reply(host, Fetched(env, v, None));
    var answered := Next(Next(s, ResolveRead(host)), Serve(host, None));
    assert None in answered.hosts[host].seen && reply in answered.replies;
    assert StampOf(s, true)[LABEL_ENV_ORIGIN] == s.origin;
    assert answered.hosts[host].cache.None?;
  }

  /** A create from a template without a stamp, on a host that never cached the
      service, is left to the template: nothing is resolved or cached. */
  lemma UnstampedCreateIsLeftAlone(s: System, host: string, reply: Option<Reply>, saved: bool)
    requires host in s.hosts && host != s.origin && s.hosts[host].cache.None? && None in s.hosts[host].seen
    ensures HostNext(s, host, ResolveCreate(host, None, false, reply, saved)) == s.hosts[host]
  {
  }

  /** The origin's own roll of its present version. */
  lemma OriginRolls(s: System, env: EnvMap)
    requires s.origin in s.hosts && s.hosts[s.origin].job == Idle
    requires EffectiveEnv(s.store.rec.content, s.origin, s.secrets) == Some(env)
    ensures var t := Next(Next(Next(s, OriginRead), JobReplica(s.origin)), JobDone(s.origin));
            Has(t, s.origin, s.hosts[s.origin].cache,
                s.hosts[s.origin].replicas + multiset{Replica(Some(s.store.rec.version), env)})
  {
    var read := Next(s, OriginRead);
    assert read.hosts[s.origin] == s.hosts[s.origin].(job := Rolling(Pin(s.store.rec.version, env), true, None));
  }

  /** A run takes its events one after the other. */
  lemma {:induction false} RunsStepByStep(s: System, events: seq<Event>, e: Event)
    ensures Runs(s, []) == s && Runs(s, events + [e]) == Next(Runs(s, events), e)
    decreases |events|
  {
    hide Next;
    if events == [] {
      assert (events + [e])[1..] == [];
    } else {
      RunsStepByStep(Next(s, events[0]), events[1..], e);
      assert (events + [e])[1..] == events[1..] + [e];
    }
  }

  lemma SevenSteps(s: System, e1: Event, e2: Event, e3: Event, e4: Event, e5: Event, e6: Event, e7: Event)
    ensures Runs(s, [e1, e2, e3, e4, e5, e6, e7])
         == Next(Next(Next(Next(Next(Next(Next(s, e1), e2), e3), e4), e5), e6), e7)
  {
    hide Next;
    RunsStepByStep(s, [], e1);
    assert [] + [e1] == [e1];
    RunsStepByStep(s, [e1], e2);
    assert [e1] + [e2] == [e1, e2];
    RunsStepByStep(s, [e1, e2], e3);
    assert [e1, e2] + [e3] == [e1, e2, e3];
    RunsStepByStep(s, [e1, e2, e3], e4);
    assert [e1, e2, e3] + [e4] == [e1, e2, e3, e4];
    RunsStepByStep(s, [e1, e2, e3, e4], e5);
    assert [e1, e2, e3, e4] + [e5] == [e1, e2, e3, e4, e5];
    RunsStepByStep(s, [e1, e2, e3, e4, e5], e6);
    assert [e1, e2, e3, e4, e5] + [e6] == [e1, e2, e3, e4, e5, e6];
    RunsStepByStep(s, [e1, e2, e3, e4, e5, e6], e7);
    assert [e1, e2, e3, e4, e5, e6] + [e7] == [e1, e2, e3, e4, e5, e6, e7];
  }

  /** What an edit, and a job that could not read, do to the origin. */
  lemma OriginStepsExactly(s: System, attempt: Attempt)
    ensures Next(s, Edit(attempt)) == s.(store := Step(s.store, attempt))
    ensures s.origin in s.hosts && s.hosts[s.origin].job != Idle ==> Next(s, OriginRead) == s
  {
    hide EffectiveEnv, Step;
  }

  lemma EditIsApplied(s: System, ch: Change)
    requires ch.requestId != "" ==> forall r :: r in s.store.rec.ring ==> r.id != ch.requestId
    requires ch.ifVersion == s.store.rec.version && HashOf(ch.content) != s.store.rec.hash
    ensures var u := Next(s, Edit(Attempt(DoApply(ch), true)));
            && u == s.(store := u.store)
            && u.store.rec.version == s.store.rec.version + 1 && u.store.rec.content == ch.content
  {
    ApplyExactly(s.store.rec, ch);
    OriginStepsExactly(s, Attempt(DoApply(ch), true));
    hide ApplyOutcome;
  }

  /** An edit reaches a peer: once it is accepted, the peer's next job that reaches
      the origin caches and rolls exactly what the edit's content gives that host,
      as the next version. */
  lemma EditReachesPeer(s: System, ch: Change, host: string, env: EnvMap)
    requires host in s.hosts && host != s.origin && s.hosts[host].job == Idle && ValidServiceName(s.service)
    requires ch.requestId != "" ==> forall r :: r in s.store.rec.ring ==> r.id != ch.requestId
    requires ch.ifVersion == s.store.rec.version && HashOf(ch.content) != s.store.rec.hash
    requires EffectiveEnv(ch.content, host, s.secrets) == Some(env)
    requires var before := s.hosts[host].cache;
      before.Some? ==>
        && before.value.origin == s.origin && before.value.env != map[]
        && 1 <= before.value.version <= s.store.rec.version && before.value.failedVersion <= s.store.rec.version
    ensures var v := s.store.rec.version + 1;
            var t := Runs(s, [Edit(Attempt(DoApply(ch), true)), JobStart(host), Serve(host, None),
                              JobPut(host, Reply(host, Fetched(env, v, None)), true), JobPlan(host), JobReplica(host), JobDone(host)]);
            && t.store.rec.version == v && t.store.rec.content == ch.content
            && host in t.hosts && t.hosts[host].job == Idle
            && t.hosts[host].cache.Some? && t.hosts[host].cache.value.version == v && t.hosts[host].cache.value.env == env
            && t.hosts[host].replicas == s.hosts[host].replicas + multiset{Replica(Some(v), env)}
  {
    var e := Edit(Attempt(DoApply(ch), true));
    var u := Next(s, e);
    hide HostNext, Next, Runs, Step, HashOf, PutOutcome, PlanOf, EffectiveEnv, ValidServiceName;
    EditIsApplied(s, ch);
    var reply := Current(u, host, env);
    assert Behind(u, s.hosts[host].cache);
    hide Behind;
    PeerConverges(u, host, env, s.hosts[host].cache);
    JobKeepsStore(u, host, env);
    SevenSteps(s, e, JobStart(host), Serve(host, None), JobPut(host, reply, true), JobPlan(host), JobReplica(host), JobDone(host));
  }

  lemma HostStepKeepsStore(s: System, host: string, e: Event)
    requires host in s.hosts && !e.Edit? && !e.Serve? && !e.OriginRead? && e.host == host
    ensures Next(s, e).store == s.store && host in Next(s, e).hosts
  {
    hide HostNext;
  }

  lemma JobKeepsStore(s: System, host: string, env: EnvMap)
    requires host in s.hosts
    ensures Next(Next(AfterPlan(s, host, env), JobReplica(host)), JobDone(host)).store == s.store
  {
    hide HostNext, Next;
    var s1 := Next(s, JobStart(host));
    HostStepKeepsStore(s, host, JobStart(host));
    var s2 := Next(s1, Serve(host, None));
    assert s2.store == s1.store && s2.hosts == s1.hosts by {
      ServeKeepsHosts(s1, host);
    }
    var s3 := Next(s2, JobPut(host, Current(s, host, env), true));
    HostStepKeepsStore(s2, host, JobPut(host, Current(s, host, env), true));
    HostStepKeepsStore(s3, host, JobPlan(host));
    var s4 := Next(s3, JobPlan(host));
    HostStepKeepsStore(s4, host, JobReplica(host));
    HostStepKeepsStore(Next(s4, JobReplica(host)), host, JobDone(host));
  }

  lemma ServeKeepsHosts(s: System, host: string)
    ensures Next(s, Serve(host, None)).store == s.store && Next(s, Serve(host, None)).hosts == s.hosts
  {
    hide EffectiveEnv;
  }

  /** The other things that happen to a host. */
  lemma HostStepsExactly(s: System, host: string, pin: Pin, replica: Replica, env: EnvMap)
    requires host in s.hosts
    ensures var h := s.hosts[host];
      && HostNext(s, host, Abandon(host, pin)) == h.(pending := h.pending - {pin})
      && (replica in h.replicas ==> HostNext(s, host, Copy(host, replica)) == h.(replicas := h.replicas + multiset{replica}))
      && HostNext(s, host, CreateUnstamped(host, env)) == h.(replicas := h.replicas + multiset{Replica(None, env)})
      && HostNext(s, host, RemoveReplica(host, replica)) == h.(replicas := h.replicas - multiset{replica})
      && HostNext(s, host, DropCache(host)) == h.(cache := None)
      && HostNext(s, host, Crash(host)) == h.(job := Idle, seen := {}, pending := {})
  {
    hide PutOutcome, PlanOf, AfterGateFailure, Resolved;
  }

  lemma CacheStepsExactly(s: System, host: string, reply: Reply, saved: bool)
    requires host in s.hosts
    ensures var h := s.hosts[host];
      && (h.cache.Some? ==>
            HostNext(s, host, ClearFailure(host, saved))
            == if saved then h.(cache := Some(h.cache.value.(failedVersion := 0))) else h)
      && (host != s.origin && reply in s.replies && reply.host == host ==>
            HostNext(s, host, AcceptSeed(host, reply, saved))
            == h.(cache := PutOutcome(s.service, h.cache, OfferOf(s, reply.got), saved).0))
      && (host == s.origin ==> HostNext(s, host, AcceptSeed(host, reply, saved)) == h)
  {
    hide PutOutcome, PlanOf, AfterGateFailure, Resolved;
  }

  // ---- Agreement ----

  /** p is what the origin's history gives host at p's version. */
  ghost predicate Agrees(contents: seq<Content>, secrets: EnvMap, host: string, p: Pin) {
    && 1 <= p.version <= |contents|
    && EffectiveEnv(contents[p.version - 1], host, secrets) == Some(p.env)
  }

  ghost predicate EntryAgrees(contents: seq<Content>, secrets: EnvMap, origin: string, host: string, e: Option<Entry>) {
    e.Some? ==>
      && e.value.origin == origin
      && Agrees(contents, secrets, host, Pin(e.value.version, e.value.env))
      && (e.value.prevVersion > 0 ==> Agrees(contents, secrets, host, Pin(e.value.prevVersion, e.value.prevEnv)))
  }

  ghost predicate JobAgrees(contents: seq<Content>, secrets: EnvMap, origin: string, host: string, j: Job) {
    match j
    case Idle => true
    case Fetching(before) => EntryAgrees(contents, secrets, origin, host, before)
    case Planning(before, got, _) =>
      EntryAgrees(contents, secrets, origin, host, before) && Agrees(contents, secrets, host, Pin(got.version, got.env))
    case Rolling(target, _, prev) =>
      Agrees(contents, secrets, host, target) && (prev.Some? ==> Agrees(contents, secrets, host, prev.value))
    case RollingBack(_, to) => Agrees(contents, secrets, host, to)
  }

  ghost predicate ReplicasAgree(contents: seq<Content>, secrets: EnvMap, host: string, replicas: multiset<Replica>) {
    forall r :: r in replicas && r.stamp.Some? ==> Agrees(contents, secrets, host, Pin(r.stamp.value, r.env))
  }

  ghost predicate PendingAgree(contents: seq<Content>, secrets: EnvMap, host: string, pending: set<Pin>) {
    forall p :: p in pending ==> Agrees(contents, secrets, host, p)
  }

  ghost predicate SeenAgree(contents: seq<Content>, secrets: EnvMap, origin: string, host: string, seen: set<Option<Entry>>) {
    forall e :: e in seen ==> EntryAgrees(contents, secrets, origin, host, e)
  }

  ghost predicate HostAgrees(contents: seq<Content>, secrets: EnvMap, origin: string, host: string, h: Host) {
    && EntryAgrees(contents, secrets, origin, host, h.cache)
    && ReplicasAgree(contents, secrets, host, h.replicas)
    && SeenAgree(contents, secrets, origin, host, h.seen)
    && PendingAgree(contents, secrets, host, h.pending)
    && JobAgrees(contents, secrets, origin, host, h.job)
  }

  ghost predicate RepliesAgree(contents: seq<Content>, secrets: EnvMap, replies: set<Reply>) {
    forall r :: r in replies ==> Agrees(contents, secrets, r.host, Pin(r.got.version, r.got.env))
  }

  /** The invariant of every reachable state. */
  ghost predicate Agreement(s: System) {
    && History(s.store)
    && RepliesAgree(s.store.contents, s.secrets, s.replies)
    && forall host :: host in s.hosts ==> HostAgrees(s.store.contents, s.secrets, s.origin, host, s.hosts[host])
  }

  /** A record as created, and hosts whose replicas carry no stamp yet. */
  ghost predicate Initial(s: System) {
    && (exists svc, c, adopting, requestId :: s.store == Born(svc, s.origin, c, adopting, requestId))
    && s.replies == {} && s.origin != ""
    && forall host :: host in s.hosts ==>
         && s.hosts[host].cache == None && s.hosts[host].seen == {} && s.hosts[host].pending == {} && s.hosts[host].job == Idle
         && forall r :: r in s.hosts[host].replicas ==> r.stamp.None?
  }

  lemma InitialAgrees(s: System)
    requires Initial(s)
    ensures Agreement(s)
  {
    var svc, c, adopting, requestId :| s.store == Born(svc, s.origin, c, adopting, requestId);
    BornIsTraced(svc, s.origin, c, adopting, requestId);
  }

  lemma MoreHistoryAgrees(contents: seq<Content>, more: seq<Content>, secrets: EnvMap, host: string, p: Pin)
    requires contents <= more && Agrees(contents, secrets, host, p)
    ensures Agrees(more, secrets, host, p)
  {
  }

  /** More history never disagrees with what agreed before. */
  lemma HistoryOnlyGrows(contents: seq<Content>, more: seq<Content>, secrets: EnvMap, origin: string, host: string, h: Host)
    requires contents <= more && HostAgrees(contents, secrets, origin, host, h)
    ensures HostAgrees(more, secrets, origin, host, h)
  {
    assert forall p :: Agrees(contents, secrets, host, p) ==> Agrees(more, secrets, host, p);
  }

  /** What the store hands out now agrees with its history. */
  lemma StoreAnswersAgree(s: System, host: string)
    requires History(s.store)
    ensures var r := EffectiveEnvAtSpec(StoreAt(s, s.origin), s.service, host, s.secrets);
            r.Ok? ==> Agrees(s.store.contents, s.secrets, host, Pin(r.value.1, r.value.0))
  {
  }

  lemma PutAgrees(contents: seq<Content>, secrets: EnvMap, origin: string, host: string, svc: string,
                  cache: Option<Entry>, o: Offer, persisted: bool)
    requires EntryAgrees(contents, secrets, origin, host, cache)
    requires o.origin == origin && Agrees(contents, secrets, host, Pin(o.version, o.env))
    ensures EntryAgrees(contents, secrets, origin, host, PutOutcome(svc, cache, o, persisted).0)
  {
  }

  /** Whatever Resolve hands out, and whatever it leaves in the cache, agrees, no
      matter what became of the cache between its read and its put. */
  lemma ResolveAgrees(s: System, host: string, read: Option<Entry>, stamped: bool, reply: Option<Reply>, persisted: bool)
    requires Agreement(s) && host in s.hosts && read in s.hosts[host].seen && Answers(s, reply, host)
    ensures var (r, cache) := Resolved(s, host, read, stamped, reply, persisted);
            && EntryAgrees(s.store.contents, s.secrets, s.origin, host, cache)
            && (r.Managed? ==> Agrees(s.store.contents, s.secrets, host, Pin(r.version, r.env)))
  {
    var now := s.hosts[host].cache;
    assert HostAgrees(s.store.contents, s.secrets, s.origin, host, s.hosts[host]);
    assert EntryAgrees(s.store.contents, s.secrets, s.origin, host, read);
    ManagedEnvHasSource(true, host, StoreAt(s, host), s.service, s.secrets, read, StampOf(s, stamped), Got(reply), now, persisted);
    StoreAnswersAgree(s, host);
    var origin := OriginFor(StampOf(s, stamped), read);
    if reply.Some? && origin == s.origin {
      PutAgrees(s.store.contents, s.secrets, s.origin, host, s.service, now, OfferOf(s, reply.value.got), persisted);
    }
  }

  lemma PlanAgrees(contents: seq<Content>, secrets: EnvMap, origin: string, host: string,
                   before: Option<Entry>, got: Fetched, putError: Option<PutError>, after: Option<Entry>)
    requires EntryAgrees(contents, secrets, origin, host, before) && EntryAgrees(contents, secrets, origin, host, after)
    requires Agrees(contents, secrets, host, Pin(got.version, got.env))
    ensures var plan := PlanOf(before, origin, got, putError, after);
            plan.RollTo? ==>
              && Agrees(contents, secrets, host, plan.target)
              && (plan.prev.Some? ==> Agrees(contents, secrets, host, plan.prev.value))
  {
  }

  lemma GateFailureAgrees(contents: seq<Content>, secrets: EnvMap, origin: string, host: string,
                          cache: Option<Entry>, failed: nat, prev: Option<Pin>, persisted: bool)
    requires EntryAgrees(contents, secrets, origin, host, cache)
    requires prev.Some? ==> Agrees(contents, secrets, host, prev.value)
    ensures EntryAgrees(contents, secrets, origin, host, AfterGateFailure(cache, failed, prev, persisted))
    ensures cache.Some? ==> EntryAgrees(contents, secrets, origin, host, Some(ClearedFailed(cache.value)))
  {
  }

  /** A step that only adds a replica or takes one away. */
  lemma ReplicaStepAgrees(contents: seq<Content>, secrets: EnvMap, host: string, replicas: multiset<Replica>, r: Replica)
    requires ReplicasAgree(contents, secrets, host, replicas)
    ensures ReplicasAgree(contents, secrets, host, replicas - multiset{r})
    ensures (r in replicas || r.stamp.None? || Agrees(contents, secrets, host, Pin(r.stamp.value, r.env)))
            ==> ReplicasAgree(contents, secrets, host, replicas + multiset{r})
  {
  }

  lemma CacheStepAgrees(s: System, host: string, e: Event)
    requires host in s.hosts && HostAgrees(s.store.contents, s.secrets, s.origin, host, s.hosts[host])
    requires RepliesAgree(s.store.contents, s.secrets, s.replies)
    requires e.AcceptSeed? || e.ClearFailure? || e.DropCache?
    ensures HostAgrees(s.store.contents, s.secrets, s.origin, host, HostNext(s, host, e))
  {
    hide Agrees, PutOutcome, ClearedFailed, ReplicasAgree, SeenAgree, PendingAgree, JobAgrees;
    var h := s.hosts[host];
    GateFailureAgrees(s.store.contents, s.secrets, s.origin, host, h.cache, 0, None, false);
    if e.AcceptSeed? && Answers(s, Some(e.reply), host) {
      PutAgrees(s.store.contents, s.secrets, s.origin, host, s.service, h.cache, OfferOf(s, e.reply.got), e.persisted);
    }
  }

  lemma JobStepAgrees(s: System, host: string, e: Event)
    requires host in s.hosts && HostAgrees(s.store.contents, s.secrets, s.origin, host, s.hosts[host])
    requires RepliesAgree(s.store.contents, s.secrets, s.replies)
    requires e.JobStart? || e.JobPut? || e.JobPlan? || e.JobReplica? || e.JobDone? || e.JobGateFailed? || e.JobRestored?
    ensures HostAgrees(s.store.contents, s.secrets, s.origin, host, HostNext(s, host, e))
  {
    hide Agrees, PutOutcome, PlanOf, AfterGateFailure, ReplicasAgree, SeenAgree, PendingAgree;
    var h, contents := s.hosts[host], s.store.contents;
    match e
    case JobPut(_, reply, persisted) =>
      if Answers(s, Some(reply), host) {
        PutAgrees(contents, s.secrets, s.origin, host, s.service, h.cache, OfferOf(s, reply.got), persisted);
      }
    case JobPlan(_) =>
      if h.job.Planning? {
        PlanAgrees(contents, s.secrets, s.origin, host, h.job.before, h.job.got, h.job.putError, h.cache);
      }
    case JobReplica(_) =>
      if h.job.Rolling? {
        ReplicaStepAgrees(contents, s.secrets, host, h.replicas, Replica(Some(h.job.target.version), h.job.target.env));
      } else if h.job.RollingBack? {
        ReplicaStepAgrees(contents, s.secrets, host, h.replicas, Replica(Some(h.job.to.version), h.job.to.env));
      }
    case JobGateFailed(_, persisted) =>
      if h.job.Rolling? {
        GateFailureAgrees(contents, s.secrets, s.origin, host, h.cache, h.job.target.version, None, persisted);
      }
    case JobRestored(_, persisted) =>
      if h.job.RollingBack? {
        GateFailureAgrees(contents, s.secrets, s.origin, host, h.cache, h.job.failed, Some(h.job.to), persisted);
      }
    case _ =>
  }

  lemma CreateStepAgrees(s: System, host: string, e: Event)
    requires Agreement(s) && host in s.hosts
    requires e.ResolveRead? || e.ResolveCreate? || e.Create? || e.Abandon? || e.Copy? || e.CreateUnstamped?
             || e.RemoveReplica? || e.Crash?
    ensures HostAgrees(s.store.contents, s.secrets, s.origin, host, HostNext(s, host, e))
  {
    hide Agrees, Resolved, EntryAgrees, ReplicasAgree;
    var h, contents := s.hosts[host], s.store.contents;
    assert HostAgrees(contents, s.secrets, s.origin, host, h);
    match e
    case ResolveCreate(_, read, stamped, answer, persisted) =>
      if read in h.seen && Answers(s, answer, host) {
        ResolveAgrees(s, host, read, stamped, answer, persisted);
      }
    case Create(_, pin) =>
      ReplicaStepAgrees(contents, s.secrets, host, h.replicas, Replica(Some(pin.version), pin.env));
    case Copy(_, replica) => ReplicaStepAgrees(contents, s.secrets, host, h.replicas, replica);
    case CreateUnstamped(_, env) => ReplicaStepAgrees(contents, s.secrets, host, h.replicas, Replica(None, env));
    case RemoveReplica(_, replica) => ReplicaStepAgrees(contents, s.secrets, host, h.replicas, replica);
    case _ =>
  }

  lemma HostStepAgrees(s: System, host: string, e: Event)
    requires Agreement(s) && host in s.hosts && !e.Edit? && !e.Serve? && !e.OriginRead?
    ensures HostAgrees(s.store.contents, s.secrets, s.origin, host, HostNext(s, host, e))
  {
    hide HostAgrees, HostNext, RepliesAgree;
    if e.AcceptSeed? || e.ClearFailure? || e.DropCache? {
      CacheStepAgrees(s, host, e);
    } else if e.ResolveRead? || e.ResolveCreate? || e.Create? || e.Abandon? || e.Copy? || e.CreateUnstamped?
              || e.RemoveReplica? || e.Crash? {
      CreateStepAgrees(s, host, e);
    } else {
      JobStepAgrees(s, host, e);
    }
  }

  lemma EditAgrees(s: System, attempt: Attempt)
    requires Agreement(s)
    ensures Agreement(s.(store := Step(s.store, attempt))) && s.store.contents <= Step(s.store, attempt).contents
  {
    hide HostAgrees, Agrees, Step, History;
    StepKeepsHistory(s.store, attempt);
    var more := Step(s.store, attempt).contents;
    forall host | host in s.hosts ensures HostAgrees(more, s.secrets, s.origin, host, s.hosts[host]) {
      HistoryOnlyGrows(s.store.contents, more, s.secrets, s.origin, host, s.hosts[host]);
    }
    forall r | r in s.replies ensures Agrees(more, s.secrets, r.host, Pin(r.got.version, r.got.env)) {
      MoreHistoryAgrees(s.store.contents, more, s.secrets, r.host, Pin(r.got.version, r.got.env));
    }
  }

  lemma OriginReadAgrees(s: System)
    requires Agreement(s)
    ensures Agreement(Next(s, OriginRead))
  {
    hide Agrees, EntryAgrees, ReplicasAgree, SeenAgree, PendingAgree, History, EffectiveEnvAtSpec, StoreAt;
    StoreAnswersAgree(s, s.origin);
    if s.origin in s.hosts {
      assert HostAgrees(s.store.contents, s.secrets, s.origin, s.origin, s.hosts[s.origin]);
    }
  }

  lemma StepAgrees(s: System, e: Event)
    requires Agreement(s)
    ensures Agreement(Next(s, e))
    ensures s.store.contents <= Next(s, e).store.contents
  {
    hide HostAgrees, HostNext, Agrees, History, Step, EffectiveEnvAtSpec, StoreAt;
    match e
    case Edit(attempt) => EditAgrees(s, attempt);
    case Serve(host, _) => StoreAnswersAgree(s, host);
    case OriginRead => OriginReadAgrees(s);
    case _ =>
      if e.host in s.hosts {
        HostStepAgrees(s, e.host, e);
      }
  }

  /** Replication agreement, over every run from any initial state: each cached
      current and previous env (also as a create under way has read it), each
      stamped replica, each answer in flight, each resolved create and each job's
      target is, at its version, exactly what the origin's history gives that host.
      History itself is never rewritten. */
  lemma {:induction false} AgreementAlways(s: System, events: seq<Event>)
    requires Agreement(s)
    ensures Agreement(Runs(s, events))
    ensures s.store.contents <= Runs(s, events).store.contents
    decreases |events|
  {
    if events != [] {
      StepAgrees(s, events[0]);
      AgreementAlways(Next(s, events[0]), events[1..]);
    }
  }

  lemma {:induction false} FixedParameters(s: System, events: seq<Event>)
    ensures Runs(s, events).secrets == s.secrets && Runs(s, events).origin == s.origin
    ensures Runs(s, events).hosts.Keys == s.hosts.Keys
    decreases |events|
  {
    if events != [] {
      FixedParameters(Next(s, events[0]), events[1..]);
    }
  }

  /** One stamped replica of a reachable state. */
  lemma ReplicaAgrees(s: System, host: string, r: Replica)
    requires Agreement(s) && host in s.hosts && r in s.hosts[host].replicas && r.stamp.Some?
    ensures Agrees(s.store.contents, s.secrets, host, Pin(r.stamp.value, r.env))
  {
    hide EntryAgrees, SeenAgree, PendingAgree, JobAgrees, Agrees, History, RepliesAgree;
    assert HostAgrees(s.store.contents, s.secrets, s.origin, host, s.hosts[host]);
  }

  /** Two replicas of one host stamped with the same version run the same env,
      however far apart in a run they were created. */
  lemma SameStampSameEnv(s: System, events: seq<Event>, later: seq<Event>, host: string, r: Replica, q: Replica)
    requires Initial(s)
    requires var t := Runs(s, events);
      host in t.hosts && r in t.hosts[host].replicas && r.stamp.Some?
    requires var u := Runs(Runs(s, events), later);
      host in u.hosts && q in u.hosts[host].replicas && q.stamp == r.stamp
    ensures q.env == r.env
  {
    hide Agreement, Initial, Runs;
    InitialAgrees(s);
    AgreementAlways(s, events);
    var t := Runs(s, events);
    AgreementAlways(t, later);
    FixedParameters(t, later);
    ReplicaAgrees(t, host, r);
    ReplicaAgrees(Runs(t, later), host, q);
  }

  // ---- What a status answer means ----

  /** The version a host reports, and whether its replicas are all at or past
      a version (the atLeast test of the origin's polls). */
  function ReportedVersion(h: Host): nat {
    if h.cache.Some? then h.cache.value.version else 0
  }

  ghost predicate AtLeast(h: Host, version: nat) {
    && ReportedVersion(h) >= version
    && forall r :: r in h.replicas && r.stamp.Some? ==> r.stamp.value >= version
  }

  ghost predicate ConvergedFor(h: Host, version: nat, adopt: bool) {
    AtLeast(h, version) && (adopt ==> forall r :: r in h.replicas ==> r.stamp.Some?)
  }

  lemma ConvergedHostIsCurrent(t: System, host: string, adopt: bool)
    requires Agreement(t) && host in t.hosts && ConvergedFor(t.hosts[host], t.store.rec.version, adopt)
    ensures EffectiveEnv(t.store.rec.content, host, t.secrets).Some?
    ensures forall r :: r in t.hosts[host].replicas && (adopt || r.stamp.Some?) ==>
              && r.stamp == Some(t.store.rec.version)
              && r.env == EffectiveEnv(t.store.rec.content, host, t.secrets).value
  {
    hide RepliesAgree, SeenAgree, PendingAgree, JobAgrees, EffectiveEnv;
    assert HostAgrees(t.store.contents, t.secrets, t.origin, host, t.hosts[host]);
    forall r | r in t.hosts[host].replicas && r.stamp.Some?
      ensures r.stamp == Some(t.store.rec.version)
      ensures EffectiveEnv(t.store.rec.content, host, t.secrets) == Some(r.env) {
      ReplicaAgrees(t, host, r);
    }
  }

  /** A peer that reports itself converged for the origin's current version runs
      that version: every stamped replica there has exactly the current env of
      that host, and during an adopt there are no others. */
  lemma ConvergedMeansCurrent(s: System, events: seq<Event>, host: string, adopt: bool)
    requires Initial(s)
    requires var t := Runs(s, events); host in t.hosts && ConvergedFor(t.hosts[host], t.store.rec.version, adopt)
    ensures var t := Runs(s, events);
      && EffectiveEnv(t.store.rec.content, host, t.secrets).Some?
      && forall r :: r in t.hosts[host].replicas && (adopt || r.stamp.Some?) ==>
           && r.stamp == Some(t.store.rec.version)
           && r.env == EffectiveEnv(t.store.rec.content, host, t.secrets).value
  {
    InitialAgrees(s);
    AgreementAlways(s, events);
    ConvergedHostIsCurrent(Runs(s, events), host, adopt);
  }

  /** After any run, a peer reports itself converged for the origin's current version
      exactly when its cache and every stamped replica are at that version, and in an
      adopt no replica is unstamped. */
  lemma ConvergedExactly(s: System, events: seq<Event>, host: string, adopt: bool)
    requires Initial(s) && host in Runs(s, events).hosts
    ensures var t := Runs(s, events);
            var h, v := t.hosts[host], t.store.rec.version;
            ConvergedFor(h, v, adopt)
            <==> && h.cache.Some? && h.cache.value.version == v
                 && (forall r :: r in h.replicas && r.stamp.Some? ==> r.stamp.value == v)
                 && (adopt ==> forall r :: r in h.replicas ==> r.stamp.Some?)
  {
    InitialAgrees(s);
    AgreementAlways(s, events);
    var t := Runs(s, events);
    hide RepliesAgree, SeenAgree, PendingAgree, JobAgrees, EffectiveEnv, Initial, Runs;
    assert HostAgrees(t.store.contents, t.secrets, t.origin, host, t.hosts[host]);
    assert |t.store.contents| == t.store.rec.version >= 1;
  }
}

/** The decisions of one convergence job on a host that does not own the service
    (runPeer in cmd/dashboard/centralenv_sync.go): what to roll onto after the
    fetch, what to roll back to, and what the cache remembers of a failure. */
module PeerJob {
  import opened Common
  import opened EnvContent
  import opened CentralEnvCache
  import opened CentralEnvResolver

  /** One version of an env as a host sees it. */
  datatype Pin = Pin(version: nat, env: EnvMap)

  /** list is the env list handed to the roll, None if it is nil. */
  datatype Plan =
    | Stop
    | RollTo(target: Pin, list: Option<EnvMap>, prev: Option<Pin>, refused: Option<nat>, healthcheck: Option<Healthcheck>)

  /** An empty env and no env are the same nil slice. */
  function NonEmpty(p: Pin): Option<Pin> {
    if p.env == map[] then None else Some(p)
  }

  /** The env list of a cached entry: copying an empty one gives nil. */
  function CopiedList(env: EnvMap): Option<EnvMap> {
    if env == map[] then None else Some(env)
  }

  /** What the replicas here ran before the fetch rotated the cache. */
  function RollbackTarget(before: Option<Entry>, origin: string, version: nat): Option<Pin> {
    if before.None? || before.value.origin != origin then None
    else if before.value.version < version then NonEmpty(Pin(before.value.version, before.value.env))
    else if before.value.prevVersion > 0 then NonEmpty(Pin(before.value.prevVersion, before.value.prevEnv))
    else None
  }

  /** What to roll onto, from the cache entry as captured before the fetch, the
      fetched answer, what the cache said to it, and the entry read after that. */
  function PlanOf(before: Option<Entry>, origin: string, got: Fetched, putError: Option<PutError>, after: Option<Entry>)
    : Plan
  {
    var hc := if got.healthcheck.None? && after.Some? then after.value.healthcheck else got.healthcheck;
    match putError
    case None => RollTo(Pin(got.version, got.env), Some(got.env), RollbackTarget(before, origin, got.version), None, hc)
    case Some(e) =>
      if !(e.AlreadyFailed? || e.Older?) || after.None? || !after.value.Usable() then Stop
      else RollTo(Pin(after.value.version, after.value.env), CopiedList(after.value.env),
                  RollbackTarget(before, origin, after.value.version),
                  if e.AlreadyFailed? then Some(got.version) else None, hc)
  }

  /** The cache after the health gate failed: the failed version is marked, and
      the previous env restored when there is one. */
  function AfterGateFailure(cur: Option<Entry>, failed: nat, prev: Option<Pin>, persisted: bool): Option<Entry> {
    if cur.None? || !persisted then cur
    else Some(RolledBack(cur.value, failed, if prev.None? then None else Some((prev.value.env, prev.value.version))))
  }

  /** The first half of the job, run with nobody else at the cache. */
  method Prepare(cache: CentralEnvCache, svc: string, origin: string, got: Fetched, persisted: bool) returns (plan: Plan)
    requires ValidServiceName(svc)
    modifies cache
    ensures var (after, err) := Put(old(cache.Get(svc)), Offer(origin, got.version, got.env, got.healthcheck), persisted);
            cache.Get(svc) == after && plan == PlanOf(old(cache.Get(svc)), origin, got, err, after)
    ensures cache.items - {svc} == old(cache.items) - {svc}
  {
    var before := cache.Get(svc);
    var target, list := Pin(got.version, got.env), Some(got.env);
    var refused: Option<nat> := None;
    var err := cache.PutWithHealthcheck(svc, Offer(origin, got.version, got.env, got.healthcheck), persisted);
    if err.Some? {
      match err.value {
        case AlreadyFailed(_, _) => refused := Some(got.version);
        case Older(_, _) =>
        case _ => return Stop;
      }
      var cached := cache.Get(svc);
      if cached.None? || !cached.value.Usable() {
        return Stop;
      }
      target, list := Pin(cached.value.version, cached.value.env), CopiedList(cached.value.env);
    }
    var hc := got.healthcheck;
    var cached := cache.Get(svc);
    if cached.Some? && hc.None? {
      hc := cached.value.healthcheck;
    }
    var prev: Option<Pin> := None;
    if before.Some? && before.value.origin == origin {
      if before.value.version < target.version {
        prev := Some(Pin(before.value.version, before.value.env));
      } else if before.value.prevVersion > 0 {
        prev := Some(Pin(before.value.prevVersion, before.value.prevEnv));
      }
    }
    if prev.Some? && prev.value.env == map[] {
      prev := None;
    }
    return RollTo(target, list, prev, refused, hc);
  }

  /** The second half, once the roll's health gate failed. */
  method GiveUp(cache: CentralEnvCache, svc: string, plan: Plan, persisted: bool)
    requires plan.RollTo?
    modifies cache
    ensures cache.Get(svc) == AfterGateFailure(old(cache.Get(svc)), plan.target.version, plan.prev, persisted)
    ensures !persisted || old(cache.Get(svc)).None? ==> cache.Get(svc) == old(cache.Get(svc))
    ensures cache.items - {svc} == old(cache.items) - {svc}
  {
    if plan.prev.None? {
      var _ := cache.RollBack(svc, plan.target.version, None, persisted);
    } else {
      var _ := cache.RollBack(svc, plan.target.version, Some((plan.prev.value.env, plan.prev.value.version)), persisted);
    }
  }

  /** Every entry's previous version is below its current one. */
  ghost predicate Ordered(cur: Option<Entry>) {
    cur.Some? ==> cur.value.prevVersion < cur.value.version
  }

  lemma PutKeepsOrdered(cur: Option<Entry>, o: Offer, persisted: bool)
    requires Ordered(cur) && o.version >= 1
    ensures Ordered(Put(cur, o, persisted).0)
  {
  }

  /** The job never rolls onto a version it cannot use, and rolls back only to an
      older one. */
  lemma PlanIsSound(before: Option<Entry>, origin: string, got: Fetched, persisted: bool)
    requires Ordered(before) && got.version >= 1
    ensures var (after, err) := Put(before, Offer(origin, got.version, got.env, got.healthcheck), persisted);
            var plan := PlanOf(before, origin, got, err, after);
            plan.RollTo? ==>
              && after.Some? && plan.target == Pin(after.value.version, after.value.env)
              && (plan.prev.Some? ==> plan.prev.value.version < plan.target.version)
              && (plan.refused.Some? ==> plan.refused.value > plan.target.version)
              && after.value.Usable()
  {
    PutKeepsOrdered(before, Offer(origin, got.version, got.env, got.healthcheck), persisted);
    if before.Some? {
      AcceptedExactly(before.value, Offer(origin, got.version, got.env, got.healthcheck));
    }
  }

  /** What a job rolls onto, exactly: the answer if the cache accepted it; the cached
      env if the answer was refused (as older, or as one that already failed here)
      and that env is usable; nothing otherwise. */
  lemma PlanExactly(before: Option<Entry>, origin: string, got: Fetched, persisted: bool)
    ensures var (after, err) := Put(before, Offer(origin, got.version, got.env, got.healthcheck), persisted);
            var plan := PlanOf(before, origin, got, err, after);
            var older := before.Some? && got.version < before.value.version;
            var failed := before.Some? && !older && got.version <= before.value.failedVersion
                          && (got.version > before.value.version || before.value.failedVersion == before.value.version);
            && (plan.RollTo? <==>
                  if older || failed then before.value.failedVersion != before.value.version else persisted)
            && (plan.RollTo? && !older && !failed ==>
                  plan.target == Pin(got.version, got.env) && plan.list == Some(got.env) && plan.refused.None?)
            && (plan.RollTo? && (older || failed) ==>
                  && plan.target == Pin(before.value.version, before.value.env)
                  && plan.list == (if before.value.env == map[] then None else Some(before.value.env))
                  && plan.refused == (if failed then Some(got.version) else None))
            && (plan.RollTo? ==>
                  plan.healthcheck == if got.healthcheck.Some? || before.None? then got.healthcheck else before.value.healthcheck)
  {
  }

  /** What it rolls back to, exactly: from an entry of the same origin, the env that
      was current before the fetch if it is older than the target, else the one
      previous to it; an empty one counts as none. */
  lemma RollbackExactly(before: Option<Entry>, origin: string, got: Fetched, persisted: bool, p: Pin)
    ensures var (after, err) := Put(before, Offer(origin, got.version, got.env, got.healthcheck), persisted);
            var plan := PlanOf(before, origin, got, err, after);
            plan.RollTo? ==>
              (plan.prev == Some(p)
               <==> && before.Some? && before.value.origin == origin && p.env != map[]
                    && (if before.value.version < plan.target.version
                        then p == Pin(before.value.version, before.value.env)
                        else before.value.prevVersion > 0 && p == Pin(before.value.prevVersion, before.value.prevEnv)))
  {
  }

  /** So a job that finds its target already cached (one that crashed after the
      fetch, or a retry) still rolls back to what ran here before that fetch. */
  lemma RetryKeepsRollbackTarget(before: Entry, origin: string, got: Fetched)
    requires before.origin == origin && before.env != map[] && before.version >= 1
    requires got.version > before.version && got.version > before.failedVersion
    ensures var o := Offer(origin, got.version, got.env, got.healthcheck);
            var cached := Put(Some(before), o, true).0;
            var again := Put(cached, o, true);
            var plan := PlanOf(cached, origin, got, again.1, again.0);
            && plan.RollTo? && plan.target == Pin(got.version, got.env)
            && plan.prev == Some(Pin(before.version, before.env))
  {
    var o := Offer(origin, got.version, got.env, got.healthcheck);
    var cached := Put(Some(before), o, true).0;
    RollbackExactly(cached, origin, got, true, Pin(before.version, before.env));
  }

  /** Exactly when the plan's roll is not pinned: the put was refused and the usable
      cached env, to be kept, is empty. Whatever the fetch answered, an empty cached
      env and an older or quarantined offer lead there. */
  lemma UnpinnedExactly(before: Option<Entry>, origin: string, got: Fetched, persisted: bool)
    ensures var (after, err) := Put(before, Offer(origin, got.version, got.env, got.healthcheck), persisted);
            var plan := PlanOf(before, origin, got, err, after);
            plan.RollTo? && plan.list.None? <==>
              && before.Some? && before.value.Usable() && before.value.env == map[]
              && (got.version < before.value.version
                  || before.value.version < got.version <= before.value.failedVersion)
  {
    if before.Some? {
      AcceptedExactly(before.value, Offer(origin, got.version, got.env, got.healthcheck));
    }
  }

  /** A failed gate leaves its version quarantined, whatever became of the cache
      meanwhile: with a previous env the cache is back on it and usable; without
      one the failed version is marked, and quarantined exactly unless the cache
      has moved past it. No later put brings a quarantined version back into use
      (FailedVersionStaysOut). */
  lemma FailureIsQuarantined(before: Option<Entry>, origin: string, got: Fetched, persisted: bool, cur: Entry)
    requires Ordered(before) && got.version >= 1
    ensures var (after, err) := Put(before, Offer(origin, got.version, got.env, got.healthcheck), persisted);
            var plan := PlanOf(before, origin, got, err, after);
            plan.RollTo? ==>
              var e := AfterGateFailure(Some(cur), plan.target.version, plan.prev, true).value;
              && (Quarantines(e, plan.target.version) <==> plan.prev.Some? || cur.version <= plan.target.version)
              && (plan.prev.Some? ==> e.Usable() && Pin(e.version, e.env) == plan.prev.value)
              && (plan.prev.None? && cur.version == plan.target.version ==> !e.Usable())
  {
    PlanIsSound(before, origin, got, persisted);
  }
}

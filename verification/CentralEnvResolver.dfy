/** The resolver every create path consults (cmd/dashboard/centralenv.go), the
    provenance stamp it puts on replicas, and cloneEnvAndSpec's use of it. */
module CentralEnvResolver {
  import opened Common
  import opened EnvContent
  import opened CentralEnvStore
  import opened CentralEnvCache
  import opened Text

  const LABEL_ENV_ORIGIN := "pmgr.env.origin"
  const LABEL_ENV_VERSION := "pmgr.env.version"
  const COMPOSE_PREFIX := "com.docker.compose."

  type Labels = map<string, string>

  /** One answer of the origin for this host. */
  datatype Fetched = Fetched(env: EnvMap, version: nat, healthcheck: Option<Healthcheck>)

  datatype ResolveError =
    | StoreFailure(error: StoreError)
    | Unavailable(origin: string)
    | FailedHere(version: nat)

  datatype Resolution =
    | Unmanaged
    | Refused(why: ResolveError)
    | Managed(env: EnvMap, version: nat, origin: string, stale: bool, healthcheck: Option<Healthcheck>)

  function LabelOr(labels: Labels, k: string): string {
    if k in labels then labels[k] else ""
  }

  /** The origin svc is resolved from on a host that does not own it. */
  function OriginFor(labels: Labels, cached: Option<Entry>): string {
    var stamped := LabelOr(labels, LABEL_ENV_ORIGIN);
    if stamped != "" then stamped else if cached.Some? then cached.value.origin else ""
  }

  /** The env to use when the origin's answer is missing, older or refused. */
  function FromCache(own: Option<Entry>, origin: string, stale: bool): Option<Resolution> {
    match own
    case None => None
    case Some(c) =>
      Some(if c.Usable() then Managed(c.env, c.version, origin, stale, c.healthcheck)
           else Refused(FailedHere(c.version)))
  }

  /** Resolution on a host that does not own svc: own is the cached entry when it
      came from the same origin, fetched the origin's answer (None when it could
      not be asked), putError what the cache said to it. */
  function ResolveRemote(own: Option<Entry>, origin: string, fetched: Option<Fetched>, putError: Option<PutError>)
    : Resolution
  {
    if fetched.Some? && (putError.None? || putError.value.WriteFailed? || putError.value.BadName?) then
      var got := fetched.value;
      Managed(got.env, got.version, origin, false,
              if got.healthcheck.Some? || own.None? then got.healthcheck else own.value.healthcheck)
    else if fetched.Some? && putError.value.AlreadyFailed? then
      if own.Some? && own.value.Usable() then FromCache(own, origin, false).value
      else Refused(FailedHere(fetched.value.version))
    else if own.Some? then FromCache(own, origin, true).value
    else Refused(Unavailable(origin))
  }

  function PutOutcome(svc: string, cached: Option<Entry>, o: Offer, persisted: bool): (Option<Entry>, Option<PutError>) {
    if ValidServiceName(svc) then Put(cached, o, persisted) else (cached, Some(BadName))
  }

  /** Whether Resolve has the origin asked: it then reads the cache before and puts
      the answer after, with time for others in between. */
  predicate AsksOrigin(enabled: bool, identity: string, v: StoreView, svc: string, cached: Option<Entry>, labels: Labels) {
    enabled && svc !in v.items && svc !in v.broken && OriginFor(labels, cached) !in {"", identity}
  }

  /** The resolution and the cache entry it leaves: cached is the entry as read,
      now the one there when the answer is back. */
  function ResolveSpec(enabled: bool, identity: string, v: StoreView, svc: string, secrets: EnvMap,
                       cached: Option<Entry>, labels: Labels, fetch: Option<Fetched>, now: Option<Entry>, persisted: bool)
    : (Resolution, Option<Entry>)
  {
    var origin := OriginFor(labels, cached);
    if !enabled then (Unmanaged, now)
    else if svc in v.items || svc in v.broken then
      match EffectiveEnvAtSpec(v, svc, identity, secrets) {
        case Err(e) => (Refused(StoreFailure(e)), now)
        case Ok((env, version)) => (Managed(env, version, identity, false, None), now)
      }
    else if origin == "" then (Unmanaged, now)
    else if origin == identity then (Refused(Unavailable(origin)), now)
    else
      var own := if cached.Some? && cached.value.origin == origin then cached else None;
      match fetch
      case None => (ResolveRemote(own, origin, None, None), now)
      case Some(got) =>
        var put := PutOutcome(svc, now, Offer(origin, got.version, got.env, got.healthcheck), persisted);
        (ResolveRemote(own, origin, fetch, put.1), put.0)
  }

  predicate ManagedSpec(enabled: bool, v: StoreView, svc: string, cached: Option<Entry>, labels: Labels) {
    enabled && (svc in v.items || svc in v.broken || LabelOr(labels, LABEL_ENV_ORIGIN) != "" || cached.Some?)
  }

  class CentralEnv {
    const enabled: bool
    const identity: string
    const store: CentralEnvStore
    const cache: CentralEnvCache
    const secrets: EnvMap

    constructor (enabled: bool, identity: string, store: CentralEnvStore, cache: CentralEnvCache, secrets: EnvMap)
      ensures this.enabled == enabled && this.identity == identity
      ensures this.store == store && this.cache == cache && this.secrets == secrets
    {
      this.enabled, this.identity := enabled, identity;
      this.store, this.cache, this.secrets := store, cache, secrets;
    }

    /** meanwhile is the cache entry others leave while the origin is asked. */
    method Resolve(svc: string, labels: Labels, fetch: Option<Fetched>, meanwhile: Option<Entry>, persisted: bool)
      returns (r: Resolution)
      requires store.Valid()
      modifies cache
      ensures store.Valid()
      ensures var cached := old(cache.Get(svc));
              var now := if AsksOrigin(enabled, identity, store.View(), svc, cached, labels) then meanwhile else cached;
              (r, cache.Get(svc)) ==
                ResolveSpec(enabled, identity, store.View(), svc, secrets, cached, labels, fetch, now, persisted)
      ensures cache.items - {svc} == old(cache.items) - {svc}
    {
      hide Put, EffectiveEnvAtSpec, ValidServiceName;
      if !enabled {
        return Unmanaged;
      }
      if store.Has(svc) {
        var at := store.EffectiveEnvAt(svc, identity, secrets);
        match at {
          case Err(e) => return Refused(StoreFailure(e));
          case Ok((env, version)) => return Managed(env, version, identity, false, None);
        }
      }
      var cached := cache.Get(svc);
      var hasCache := cached.Some?;
      var origin := LabelOr(labels, LABEL_ENV_ORIGIN);
      if origin == "" && hasCache {
        origin := cached.value.origin;
      }
      if origin == "" {
        return Unmanaged;
      }
      if origin == identity {
        return Refused(Unavailable(origin));
      }
      if hasCache && cached.value.origin != origin {
        hasCache := false;
      }
      cache.Meanwhile(svc, meanwhile);
      if fetch.Some? {
        var got := fetch.value;
        var putErr := cache.PutWithHealthcheck(svc, Offer(origin, got.version, got.env, got.healthcheck), persisted);
        var hc := got.healthcheck;
        if hc.None? && hasCache {
          hc := cached.value.healthcheck;
        }
        match putErr {
          case None => return Managed(got.env, got.version, origin, false, hc);
          case Some(AlreadyFailed(_, _)) =>
            if hasCache && cached.value.Usable() {
              return Managed(cached.value.env, cached.value.version, origin, false, cached.value.healthcheck);
            }
            return Refused(FailedHere(got.version));
          case Some(WriteFailed) => return Managed(got.env, got.version, origin, false, hc);
          case Some(BadName) => return Managed(got.env, got.version, origin, false, hc);
          case Some(Older(_, _)) =>
        }
      }
      if hasCache && !cached.value.Usable() {
        return Refused(FailedHere(cached.value.version));
      }
      if hasCache {
        return Managed(cached.value.env, cached.value.version, origin, true, cached.value.healthcheck);
      }
      return Refused(Unavailable(origin));
    }

    /** The env of a replica on another host; only the origin can answer. */
    method ResolveForPeer(svc: string, host: string) returns (r: Resolution)
      requires store.Valid()
      ensures !enabled || !store.Has(svc) ==> r == Unmanaged
      ensures enabled && store.Has(svc) ==>
                r == match EffectiveEnvAtSpec(store.View(), svc, host, secrets)
                     case Err(e) => Refused(StoreFailure(e))
                     case Ok((env, version)) => Managed(env, version, identity, false, None)
    {
      if !enabled || !store.Has(svc) {
        return Unmanaged;
      }
      var at := store.EffectiveEnvAt(svc, host, secrets);
      match at {
        case Err(e) => return Refused(StoreFailure(e));
        case Ok((env, version)) => return Managed(env, version, identity, false, None);
      }
    }

    /** Caches an env the origin shipped; never on the origin itself. */
    method Accept(svc: string, o: Offer, persisted: bool) returns (ok: bool)
      modifies cache
      ensures !enabled || o.origin == identity || store.Has(svc) ==> !ok && cache.items == old(cache.items)
      ensures enabled && o.origin != identity && !store.Has(svc) ==>
                var put := PutOutcome(svc, old(cache.Get(svc)), o, persisted);
                ok == put.1.None? && cache.Get(svc) == put.0
    {
      if !enabled || o.origin == identity || store.Has(svc) {
        return false;
      }
      var putErr := cache.PutWithHealthcheck(svc, o, persisted);
      return putErr.None?;
    }
  }

  // ---- Failing closed ----

  /** A service this host does not own, whose replicas carry no origin and whose
      cached env names none either. */
  predicate NamesNoOrigin(v: StoreView, svc: string, cached: Option<Entry>, labels: Labels) {
    svc !in v.items && svc !in v.broken && LabelOr(labels, LABEL_ENV_ORIGIN) == "" && cached.Some? && cached.value.origin == ""
  }

  /** Resolve says "unmanaged" exactly when Managed says no, or when nothing names
      the origin of what is cached: the one way the two disagree. */
  lemma UnmanagedExactly(enabled: bool, identity: string, v: StoreView, svc: string, secrets: EnvMap,
                         cached: Option<Entry>, labels: Labels, fetch: Option<Fetched>, now: Option<Entry>, persisted: bool)
    ensures ResolveSpec(enabled, identity, v, svc, secrets, cached, labels, fetch, now, persisted).0.Unmanaged?
       <==> !ManagedSpec(enabled, v, svc, cached, labels) || NamesNoOrigin(v, svc, cached, labels)
  {
    var origin := OriginFor(labels, cached);
    var own := if cached.Some? && cached.value.origin == origin then cached else None;
    if fetch.Some? {
      var put := PutOutcome(svc, now, Offer(origin, fetch.value.version, fetch.value.env, fetch.value.healthcheck), persisted);
      assert !ResolveRemote(own, origin, fetch, put.1).Unmanaged?;
    }
  }

  /** Every env Resolve hands out is the store's own effective env, the origin's
      answer, or this host's usable cached copy from that same origin, each with
      its own version. */
  lemma ManagedEnvHasSource(enabled: bool, identity: string, v: StoreView, svc: string, secrets: EnvMap,
                            cached: Option<Entry>, labels: Labels, fetch: Option<Fetched>, now: Option<Entry>, persisted: bool)
    ensures var r := ResolveSpec(enabled, identity, v, svc, secrets, cached, labels, fetch, now, persisted).0;
      r.Managed? ==>
        || (r.origin == identity && EffectiveEnvAtSpec(v, svc, identity, secrets) == Ok((r.env, r.version)))
        || (r.origin != identity && fetch.Some? && r.env == fetch.value.env && r.version == fetch.value.version)
        || (r.origin != identity && cached.Some? && cached.value.origin == r.origin && cached.value.Usable()
            && r.env == cached.value.env && r.version == cached.value.version)
  {
  }

  /** Whether the copy that was read is what Resolve falls back to: it came from the
      origin asked and is usable, and the origin gave no answer or one that the
      cache, as it is then, refuses. */
  predicate FallsBackOnCopy(identity: string, cached: Option<Entry>, labels: Labels, fetch: Option<Fetched>, now: Option<Entry>) {
    var origin := OriginFor(labels, cached);
    && origin !in {"", identity}
    && cached.Some? && cached.value.origin == origin && cached.value.Usable()
    && (fetch.None?
        || Refusal(now, Offer(origin, fetch.value.version, fetch.value.env, fetch.value.healthcheck)).Some?)
  }

  /** On a host that does not own svc, whatever the fetch answered and whatever
      became of the cache write: an env handed out carries the version this host
      has quarantined exactly when it falls back on the copy read before the origin
      was asked and that copy's version failed here in the meantime. So never, when
      the cache was left alone while the origin was asked. */
  lemma HandsOutFailedVersionExactly(identity: string, v: StoreView, svc: string, secrets: EnvMap,
                                     cached: Option<Entry>, labels: Labels, fetch: Option<Fetched>, now: Option<Entry>,
                                     persisted: bool)
    requires svc !in v.items && svc !in v.broken
    requires now.Some? ==> ValidServiceName(svc)
    requires fetch.Some? ==> fetch.value.version != 0
    ensures var (r, after) := ResolveSpec(true, identity, v, svc, secrets, cached, labels, fetch, now, persisted);
      && (r.Managed? && after.Some? && r.version == after.value.failedVersion
          <==> && FallsBackOnCopy(identity, cached, labels, fetch, now)
               && now.Some? && now.value.failedVersion == cached.value.version)
      && (now == cached && r.Managed? && after.Some? ==> r.version != after.value.failedVersion)
  {
    var origin := OriginFor(labels, cached);
    if fetch.Some? && now.Some? {
      AcceptedExactly(now.value, Offer(origin, fetch.value.version, fetch.value.env, fetch.value.healthcheck));
    }
  }

  /** What Resolve hands out on a host that does not own svc and knows another host
      as its origin, exactly: the origin's answer unless the cache refuses it as
      older or as failed here, else the copy read from the same origin if it did not
      fail here, else nothing. */
  lemma ManagedExactly(identity: string, v: StoreView, svc: string, secrets: EnvMap, cached: Option<Entry>, labels: Labels,
                       fetch: Option<Fetched>, now: Option<Entry>, persisted: bool, origin: string)
    requires svc !in v.items && svc !in v.broken && origin != "" && origin != identity
    requires if LABEL_ENV_ORIGIN in labels && labels[LABEL_ENV_ORIGIN] != "" then labels[LABEL_ENV_ORIGIN] == origin
             else cached.Some? && cached.value.origin == origin
    requires now.Some? ==> ValidServiceName(svc)
    ensures var (r, after) := ResolveSpec(true, identity, v, svc, secrets, cached, labels, fetch, now, persisted);
      var own := cached.Some? && cached.value.origin == origin;
      var older := fetch.Some? && now.Some? && fetch.value.version < now.value.version;
      var failed := fetch.Some? && now.Some? && !older && fetch.value.version <= now.value.failedVersion
                    && (fetch.value.version > now.value.version || now.value.failedVersion == now.value.version);
      if fetch.Some? && !older && !failed then
        r == Managed(fetch.value.env, fetch.value.version, origin, false,
                     if fetch.value.healthcheck.Some? || !own then fetch.value.healthcheck else cached.value.healthcheck)
      else
        && after == now
        && (if own && cached.value.failedVersion != cached.value.version
            then r == Managed(cached.value.env, cached.value.version, origin, !failed, cached.value.healthcheck)
            else r.Refused?)
        && (r.Refused? ==>
              r.why == if failed then FailedHere(fetch.value.version)
                       else if own then FailedHere(cached.value.version) else Unavailable(origin))
    ensures var after := ResolveSpec(true, identity, v, svc, secrets, cached, labels, fetch, now, persisted).1;
      && (fetch.None? || !ValidServiceName(svc) ==> after == now)
      && (fetch.Some? && ValidServiceName(svc) ==>
            after == Put(now, Offer(origin, fetch.value.version, fetch.value.env, fetch.value.healthcheck), persisted).0)
  {
  }

  // ---- Creating a replica ----

  datatype Clone = Clone(env: EnvMap, labels: Labels, managed: bool)

  /** The env and labels of a new replica cloned from a template. */
  function CloneEnvAndSpec(r: Resolution, templateEnv: EnvMap, templateLabels: Labels): Result<Clone, ResolveError> {
    match r
    case Refused(e) => Err(e)
    case Managed(env, version, origin, _, _) =>
      Ok(Clone(env, Stamped(templateLabels, origin, version), true))
    case Unmanaged => Ok(Clone(templateEnv, templateLabels, false))
  }

  function Stamped(src: Labels, origin: string, version: nat): Labels {
    (map k | k in src && !(COMPOSE_PREFIX <= k) :: src[k])[LABEL_ENV_ORIGIN := origin][LABEL_ENV_VERSION := Itoa(version)]
  }

  method StampEnvLabels(src: Labels, origin: string, version: nat) returns (out: Labels)
    ensures out == Stamped(src, origin, version)
  {
    out := map[];
    var keys := src.Keys;
    while keys != {}
      invariant keys <= src.Keys
      invariant out == map k | k in src && !(COMPOSE_PREFIX <= k) && k !in keys :: src[k]
      decreases keys
    {
      var k :| k in keys;
      if !(COMPOSE_PREFIX <= k) {
        out := out[k := src[k]];
      }
      keys := keys - {k};
    }
    out := out[LABEL_ENV_ORIGIN := origin];
    out := out[LABEL_ENV_VERSION := Itoa(version)];
  }

  /** One live replica's provenance as localMembers reads it back. */
  datatype Member = Member(name: string, envVersion: nat, foreign: bool)

  function MemberOf(name: string, labels: Labels): Member {
    var v := ParseUint(LabelOr(labels, LABEL_ENV_VERSION));
    Member(name, if v.Some? then v.value else 0, LabelOr(labels, LABEL_ENV_ORIGIN) == "")
  }

  /** A stamp reads back as written, nothing of compose survives it, and every
      other label does. */
  lemma StampReadsBack(name: string, src: Labels, origin: string, version: nat)
    requires origin != ""
    ensures MemberOf(name, Stamped(src, origin, version)) == Member(name, version, false)
    ensures forall k :: k in Stamped(src, origin, version) ==> !(COMPOSE_PREFIX <= k)
    ensures forall k :: k in src && !(COMPOSE_PREFIX <= k) && k !in {LABEL_ENV_ORIGIN, LABEL_ENV_VERSION}
              ==> k in Stamped(src, origin, version) && Stamped(src, origin, version)[k] == src[k]
  {
    ItoaRoundTrip(version);
    assert LABEL_ENV_ORIGIN[0] != COMPOSE_PREFIX[0] && LABEL_ENV_VERSION[0] != COMPOSE_PREFIX[0];
  }

  /** A managed service whose origin is known never gets the template's own env:
      the create is refused or runs exactly the resolved env, stamped with its
      version. */
  lemma ManagedCreateNeverUsesTemplateEnv(
      enabled: bool, identity: string, v: StoreView, svc: string, secrets: EnvMap,
      cached: Option<Entry>, labels: Labels, fetch: Option<Fetched>, now: Option<Entry>, persisted: bool,
      templateEnv: EnvMap)
    requires ManagedSpec(enabled, v, svc, cached, labels)
    requires identity != "" && !NamesNoOrigin(v, svc, cached, labels)
    ensures var r := ResolveSpec(enabled, identity, v, svc, secrets, cached, labels, fetch, now, persisted).0;
      match CloneEnvAndSpec(r, templateEnv, labels)
      case Err(_) => r.Refused?
      case Ok(c) => r.Managed? && c.managed && c.env == r.env
                    && MemberOf("", c.labels) == Member("", r.version, false)
  {
    UnmanagedExactly(enabled, identity, v, svc, secrets, cached, labels, fetch, now, persisted);
    var r := ResolveSpec(enabled, identity, v, svc, secrets, cached, labels, fetch, now, persisted).0;
    if r.Managed? {
      ManagedEnvHasSource(enabled, identity, v, svc, secrets, cached, labels, fetch, now, persisted);
      var origin := OriginFor(labels, cached);
      assert r.origin == identity || r.origin == origin != "";
      StampReadsBack("", labels, r.origin, r.version);
    }
  }
}

/** The non-origin side's cached env (cmd/dashboard/centralenv_cache.go): versions
    only move forward, except for a deliberate rollback that quarantines the
    version that failed its health gate here. */
module CentralEnvCache {
  import opened Common
  import opened EnvContent

  /** The Test of a Docker healthcheck. */
  datatype Healthcheck = Healthcheck(test: seq<string>)

  /** prevVersion 0 means no previous env, failedVersion 0 no failed one. */
  datatype Entry = Entry(
    origin: string,
    version: nat,
    env: EnvMap,
    prevEnv: EnvMap,
    prevVersion: nat,
    healthcheck: Option<Healthcheck>,
    failedVersion: nat)
  {
    predicate Usable() {
      failedVersion != version
    }
  }

  datatype PutError =
    | BadName
    | Older(cached: nat, offered: nat)
    | AlreadyFailed(failed: nat, rejected: nat)
    | WriteFailed

  datatype Offer = Offer(origin: string, version: nat, env: EnvMap, healthcheck: Option<Healthcheck>)

  /** Whether an offer may replace the cached entry. */
  function Refusal(cur: Option<Entry>, o: Offer): Option<PutError> {
    match cur
    case None => None
    case Some(e) =>
      if o.version < e.version then Some(Older(e.version, o.version))
      else if o.version <= e.failedVersion && (o.version > e.version || !e.Usable())
      then Some(AlreadyFailed(e.failedVersion, o.version))
      else None
  }

  /** The entry an accepted offer produces: a newer version rotates the current
      env into the previous one, the same version refreshes in place. */
  function Accepted(cur: Option<Entry>, o: Offer): Entry {
    match cur
    case None => Entry(o.origin, o.version, o.env, map[], 0, o.healthcheck, 0)
    case Some(e) =>
      var hc := if o.healthcheck.Some? then o.healthcheck else e.healthcheck;
      if o.version == e.version
      then Entry(o.origin, o.version, o.env, e.prevEnv, e.prevVersion, hc, e.failedVersion)
      else Entry(o.origin, o.version, o.env, e.env, e.version, hc, 0)
  }

  function Put(cur: Option<Entry>, o: Offer, persisted: bool): (Option<Entry>, Option<PutError>) {
    var refusal := Refusal(cur, o);
    if refusal.Some? then (cur, refusal)
    else if !persisted then (cur, Some(WriteFailed))
    else (Some(Accepted(cur, o)), None)
  }

  function RolledBack(e: Entry, failed: nat, restored: Option<(EnvMap, nat)>): Entry {
    match restored
    case None => e.(failedVersion := failed)
    case Some((env, version)) =>
      e.(env := env, version := version, prevEnv := map[], prevVersion := 0, failedVersion := failed)
  }

  function ClearedFailed(e: Entry): Entry {
    e.(failedVersion := 0)
  }

  class CentralEnvCache {
    var items: map<string, Entry>

    constructor (loaded: map<string, Entry>)
      ensures items == loaded
    {
      items := loaded;
    }

    function Get(svc: string): Option<Entry>
      reads this
    {
      if svc in items then Some(items[svc]) else None
    }

    method PutWithHealthcheck(svc: string, o: Offer, persisted: bool) returns (r: Option<PutError>)
      modifies this
      ensures !ValidServiceName(svc) ==> r == Some(BadName) && items == old(items)
      ensures ValidServiceName(svc) ==> (Get(svc), r) == Put(old(Get(svc)), o, persisted)
      ensures items - {svc} == old(items) - {svc}
    {
      if !ValidServiceName(svc) {
        return Some(BadName);
      }
      var next := Entry(o.origin, o.version, o.env, map[], 0, o.healthcheck, 0);
      if svc in items {
        var cur := items[svc];
        if next.healthcheck.None? {
          next := next.(healthcheck := cur.healthcheck);
        }
        if o.version < cur.version {
          return Some(Older(cur.version, o.version));
        }
        if o.version <= cur.failedVersion && (o.version > cur.version || !cur.Usable()) {
          return Some(AlreadyFailed(cur.failedVersion, o.version));
        }
        if o.version == cur.version {
          next := next.(prevEnv := cur.prevEnv, prevVersion := cur.prevVersion, failedVersion := cur.failedVersion);
        } else {
          next := next.(prevEnv := cur.env, prevVersion := cur.version);
        }
      }
      if !persisted {
        return Some(WriteFailed);
      }
      items := items[svc := next];
      return None;
    }

    /** Replaces svc's entry in place; without one there is nothing to do. */
    method Mutate(svc: string, next: Entry -> Entry, persisted: bool) returns (ok: bool)
      modifies this
      ensures ok == (old(Get(svc)).None? || persisted)
      ensures Get(svc) == if old(Get(svc)).Some? && persisted then Some(next(old(Get(svc)).value)) else old(Get(svc))
      ensures items - {svc} == old(items) - {svc}
    {
      if svc !in items {
        return true;
      }
      if !persisted {
        return false;
      }
      items := items[svc := next(items[svc])];
      return true;
    }

    method RollBack(svc: string, failed: nat, restored: Option<(EnvMap, nat)>, persisted: bool) returns (ok: bool)
      modifies this
      ensures ok == (old(Get(svc)).None? || persisted)
      ensures Get(svc) == if old(Get(svc)).Some? && persisted
                          then Some(RolledBack(old(Get(svc)).value, failed, restored)) else old(Get(svc))
      ensures items - {svc} == old(items) - {svc}
    {
      ok := Mutate(svc, e => RolledBack(e, failed, restored), persisted);
    }

    method ClearFailed(svc: string, persisted: bool) returns (ok: bool)
      modifies this
      ensures ok == (old(Get(svc)).None? || persisted)
      ensures Get(svc) == if old(Get(svc)).Some? && persisted
                          then Some(ClearedFailed(old(Get(svc)).value)) else old(Get(svc))
      ensures items - {svc} == old(items) - {svc}
    {
      ok := Mutate(svc, ClearedFailed, persisted);
    }

    /** Other jobs and requests on this host, in between two calls of one. */
    method Meanwhile(svc: string, left: Option<Entry>)
      modifies this
      ensures Get(svc) == left && items - {svc} == old(items) - {svc}
    {
      match left {
        case None => items := items - {svc};
        case Some(e) => items := items[svc := e];
      }
    }

    method Delete(svc: string, removed: bool) returns (ok: bool)
      modifies this
      ensures ok == (ValidServiceName(svc) && removed)
      ensures items == if ok then old(items) - {svc} else old(items)
    {
      if !ValidServiceName(svc) || !removed {
        return false;
      }
      items := items - {svc};
      return true;
    }
  }

  // ---- Runs ----

  datatype PutCall = PutCall(offer: Offer, persisted: bool)

  function Puts(cur: Option<Entry>, calls: seq<PutCall>): Option<Entry>
    decreases |calls|
  {
    if calls == [] then cur else Puts(Put(cur, calls[0].offer, calls[0].persisted).0, calls[1..])
  }

  /** e with the failed version f quarantined: it is behind f, or is f itself
      and unusable. RollBack establishes this when f was current, or when it
      restored something older. */
  predicate Quarantines(e: Entry, f: nat) {
    e.failedVersion == f && e.version <= f
  }

  lemma RollBackQuarantines(e: Entry, failed: nat, restored: Option<(EnvMap, nat)>)
    requires restored.None? ==> e.version == failed
    requires restored.Some? ==> restored.value.1 < failed
    ensures Quarantines(RolledBack(e, failed, restored), failed)
    ensures RolledBack(e, failed, restored).Usable() <==> restored.Some?
  {
  }

  /** After a rollback from f no sequence of puts makes any version in
      (e.version, f] current, or an unusable entry usable, or changes an unusable
      entry at all, until one above f is accepted — and once above f it stays. */
  lemma {:induction false} FailedVersionStaysOut(e: Entry, f: nat, calls: seq<PutCall>)
    requires Quarantines(e, f)
    ensures Puts(Some(e), calls).Some?
    ensures var e' := Puts(Some(e), calls).value;
            || e'.version > f
            || (e'.version == e.version && Quarantines(e', f) && (!e.Usable() ==> e' == e))
    ensures (exists i :: 0 <= i < |calls| && calls[i].persisted && calls[i].offer.version > f)
            ==> Puts(Some(e), calls).value.version > f
    decreases |calls|
  {
    if calls != [] {
      var next := Put(Some(e), calls[0].offer, calls[0].persisted).0;
      if next.value.version > f {
        PutsNeverGoBack(next, calls[1..]);
      } else {
        FailedVersionStaysOut(next.value, f, calls[1..]);
        if i :| 0 <= i < |calls| && calls[i].persisted && calls[i].offer.version > f {
          assert calls[1..][i - 1] == calls[i];
        }
      }
    }
  }

  /** The same from the failed gate on: marked without anything to restore, the
      entry stays exactly as it is; restored to an older env, it stays on it. Only a
      version above the failed one ends either. */
  lemma FailedGateStaysOut(e: Entry, failed: nat, restored: Option<(EnvMap, nat)>, calls: seq<PutCall>)
    requires restored.None? ==> e.version == failed
    requires restored.Some? ==> restored.value.1 < failed
    ensures var rolled := RolledBack(e, failed, restored);
            var after := Puts(Some(rolled), calls);
            && after.Some?
            && (after.value.version > failed
                || (after.value.version == rolled.version && Quarantines(after.value, failed)
                    && (restored.None? ==> after.value == rolled && !after.value.Usable())))
  {
    RollBackQuarantines(e, failed, restored);
    FailedVersionStaysOut(RolledBack(e, failed, restored), failed, calls);
  }

  /** Puts alone never move the cached version backwards or drop the entry. */
  lemma {:induction false} PutsNeverGoBack(cur: Option<Entry>, calls: seq<PutCall>)
    ensures cur.Some? ==> Puts(cur, calls).Some? && Puts(cur, calls).value.version >= cur.value.version
    decreases |calls|
  {
    if calls != [] {
      PutsNeverGoBack(Put(cur, calls[0].offer, calls[0].persisted).0, calls[1..]);
    }
  }

  datatype CacheOp =
    | DoPut(call: PutCall)
    | DoClearFailed
    | DoRollBack(failed: nat, restored: Option<(EnvMap, nat)>)

  function CacheStep(cur: Option<Entry>, op: CacheOp): Option<Entry> {
    match op
    case DoPut(c) => Put(cur, c.offer, c.persisted).0
    case DoClearFailed => if cur.Some? then Some(ClearedFailed(cur.value)) else None
    case DoRollBack(f, r) => if cur.Some? then Some(RolledBack(cur.value, f, r)) else None
  }

  function CacheRun(cur: Option<Entry>, ops: seq<CacheOp>): Option<Entry>
    decreases |ops|
  {
    if ops == [] then cur else CacheRun(CacheStep(cur, ops[0]), ops[1..])
  }

  /** Without a rollback that restores something older, no run of puts, retries
      and markings ever lowers the cached version. */
  lemma {:induction false} OnlyRollBackGoesBack(e: Entry, ops: seq<CacheOp>)
    requires forall op :: op in ops && op.DoRollBack? ==> op.restored.None?
    ensures CacheRun(Some(e), ops).Some? && CacheRun(Some(e), ops).value.version >= e.version
    decreases |ops|
  {
    if ops != [] {
      OnlyRollBackGoesBack(CacheStep(Some(e), ops[0]).value, ops[1..]);
    }
  }

  /** Exactly which offers a cached entry accepts: a version above both the
      cached and the failed one, or the cached one again while it is usable. */
  lemma AcceptedExactly(e: Entry, o: Offer)
    ensures Refusal(Some(e), o).None? <==>
            (o.version > e.version && o.version > e.failedVersion) || (o.version == e.version && e.Usable())
            || (o.version == e.version && o.version > e.failedVersion)
  {
  }

  // ---- What each operation leaves, field by field ----

  /** A put is refused as older than what is cached, or as a version that failed here
      (one up to the failed one that is new, or the unusable cached one itself);
      otherwise, once on disk, it is the cached env. A newer one keeps what it
      replaces as the previous env and forgets any failure; the same version keeps
      both; a healthcheck is kept unless the offer brings one. */
  lemma PutExactly(cur: Option<Entry>, o: Offer, persisted: bool)
    ensures var (after, err) := Put(cur, o, persisted);
      var older := cur.Some? && o.version < cur.value.version;
      var failed := cur.Some? && !older && o.version <= cur.value.failedVersion
                    && (o.version > cur.value.version || cur.value.failedVersion == cur.value.version);
      && (older <==> err == Some(Older(if cur.Some? then cur.value.version else 0, o.version)))
      && (failed <==> err == Some(AlreadyFailed(if cur.Some? then cur.value.failedVersion else 0, o.version)))
      && (!older && !failed && !persisted <==> err == Some(WriteFailed))
      && (err.Some? ==> after == cur)
      && (err.None? ==>
            after == Some(
              if cur.None? then Entry(o.origin, o.version, o.env, map[], 0, o.healthcheck, 0)
              else
                var hc := if o.healthcheck.Some? then o.healthcheck else cur.value.healthcheck;
                if o.version > cur.value.version then Entry(o.origin, o.version, o.env, cur.value.env, cur.value.version, hc, 0)
                else Entry(o.origin, o.version, o.env, cur.value.prevEnv, cur.value.prevVersion, hc, cur.value.failedVersion)))
  {
  }

  /** A rollback marks the version that failed; with an env to restore, that one is
      current again with nothing before it. Forgetting a failure changes only that. */
  lemma RollBackExactly(e: Entry, failed: nat, env: EnvMap, version: nat)
    ensures RolledBack(e, failed, None)
         == Entry(e.origin, e.version, e.env, e.prevEnv, e.prevVersion, e.healthcheck, failed)
    ensures RolledBack(e, failed, Some((env, version))) == Entry(e.origin, version, env, map[], 0, e.healthcheck, failed)
    ensures ClearedFailed(e) == Entry(e.origin, e.version, e.env, e.prevEnv, e.prevVersion, e.healthcheck, 0)
  {
  }
}

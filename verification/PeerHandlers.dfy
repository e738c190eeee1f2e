/** What a peer answers when the origin notifies it of a version or asks it to
    release a service (notify and release in cmd/dashboard/centralenv_peer.go). */
module PeerHandlers {
  import opened Common
  import opened EnvContent
  import opened CentralEnvCache
  import opened CentralEnvResolver
  import opened DockerHost
  import opened RollingReplace
  import opened LocalRoll
  import opened Release
  import opened SyncLoop

  const OK := 200
  const ACCEPTED := 202
  const BAD_REQUEST := 400
  const CONFLICT := 409
  const SERVER_ERROR := 500
  const UNAVAILABLE := 503

  datatype Notice = Notice(origin: string, version: nat, retry: bool, adopt: bool)

  predicate Behind(c: Container, version: nat) {
    !c.canary && !Foreign(c) && MemberOf(c.name, c.labels).envVersion < version
  }

  /** The cache and every stamped live member at or past version, and in an adopt no
      unstamped one: what the origin calls converged. */
  predicate Converged(h: Host, cached: Option<Entry>, version: nat, adopt: bool) {
    && cached.Some? && cached.value.version >= version
    && (forall id :: id in h.containers && !h.containers[id].canary
                     && LabelOr(h.containers[id].labels, LABEL_ENV_ORIGIN) != "" ==>
          MemberOf("", h.containers[id].labels).envVersion >= version)
    && (adopt ==> forall id :: id in h.containers && !h.containers[id].canary ==> !Foreign(h.containers[id]))
  }

  method AnyBehind(all: Listing, version: nat, adopt: bool) returns (any: bool)
    ensures any <==> exists x :: x in all && (Behind(x.1, version) || (adopt && !x.1.canary && Foreign(x.1)))
  {
    for i := 0 to |all|
      invariant forall x :: x in all[..i] ==> !Behind(x.1, version) && !(adopt && !x.1.canary && Foreign(x.1))
    {
      assert all[..i + 1] == all[..i] + [all[i]];
      assert all[i] in all;
      if Behind(all[i].1, version) || (adopt && !all[i].1.canary && Foreign(all[i].1)) {
        return true;
      }
    }
    assert all[..|all|] == all;
    return false;
  }

  lemma ListedIsThere(all: Listing, h: Host, version: nat, adopt: bool, cached: Option<Entry>)
    requires IsListing(all, h) && cached.Some? && cached.value.version >= version
    ensures (exists x :: x in all && (Behind(x.1, version) || (adopt && !x.1.canary && Foreign(x.1))))
       <==> !Converged(h, cached, version, adopt)
  {
    if x :| x in all && (Behind(x.1, version) || (adopt && !x.1.canary && Foreign(x.1))) {
      assert x.0 in h.containers && h.containers[x.0] == x.1;
    }
    forall id | id in h.containers ensures (id, h.containers[id]) in all {
    }
  }

  predicate Stranger(n: Notice, identity: string, owned: bool, cached: Option<Entry>) {
    owned || n.origin == identity || (cached.Some? && cached.value.origin != n.origin)
  }

  /** 200 says that this host is already where the notice wants it. 202 says that a
      job was asked for: the target and the adopt mark are noted and a loop started
      or marked dirty; that is what a busy host or one whose containers cannot be
      listed answers too. Nothing else is ever asked for, and a notice from a
      stranger to the service changes nothing. m is absent while propagation does
      not run. */
  method HandleNotify(d: Docker, cache: CentralEnvCache, m: EnvSyncManager?, svc: string, identity: string, owned: bool,
                      n: Notice, listed: bool, persisted: bool)
    returns (code: nat, spawn: bool)
    requires d.Valid()
    modifies cache, m
    ensures code == BAD_REQUEST <==> n.origin == "" || n.version == 0
    ensures code == CONFLICT <==> n.origin != "" && n.version != 0 && Stranger(n, identity, owned, old(cache.Get(svc)))
    ensures code == UNAVAILABLE <==>
              n.origin != "" && n.version != 0 && !Stranger(n, identity, owned, old(cache.Get(svc))) && m == null
    ensures code == OK || code == ACCEPTED ==>
              && m != null
              && (code == OK <==>
                    !old(m.FlagsOf(svc)).running && listed
                    && Converged(d.View(), old(cache.Get(svc)), n.version, n.adopt))
    ensures code in {OK, ACCEPTED, BAD_REQUEST, CONFLICT, UNAVAILABLE}
    ensures code == ACCEPTED ==>
              && (m.FlagsOf(svc), spawn) == Started(old(m.FlagsOf(svc)))
              && m.TargetOf(svc) == Retarget(old(m.TargetOf(svc)), n.origin, n.version)
              && m.peerAdopt == (if n.adopt then old(m.peerAdopt) + {svc} else old(m.peerAdopt))
    ensures m != null ==>
              && m.peerRelease == old(m.peerRelease) && m.peerTarget - {svc} == old(m.peerTarget) - {svc}
              && m.running - {svc} == old(m.running) - {svc} && m.dirty - {svc} == old(m.dirty) - {svc}
    ensures code != ACCEPTED ==> !spawn && (m != null ==> unchanged(m))
    ensures cache.Get(svc) ==
            if (code == OK || code == ACCEPTED) && n.retry && persisted && old(cache.Get(svc)).Some?
            then Some(ClearedFailed(old(cache.Get(svc)).value)) else old(cache.Get(svc))
    ensures cache.items - {svc} == old(cache.items) - {svc}
  {
    hide Converged, IsListing, ValidHost;
    if n.origin == "" || n.version == 0 {
      return BAD_REQUEST, false;
    }
    if owned || n.origin == identity {
      return CONFLICT, false;
    }
    var cached := cache.Get(svc);
    if cached.Some? && cached.value.origin != n.origin {
      return CONFLICT, false;
    }
    if m == null {
      return UNAVAILABLE, false;
    }
    if n.retry {
      var _ := cache.ClearFailed(svc, persisted);
    }
    if cached.Some? && cached.value.version >= n.version && svc !in m.running && listed {
      var all := ListMembers(d);
      var behind := AnyBehind(all, n.version, n.adopt);
      ListedIsThere(all, d.View(), n.version, n.adopt, cached);
      if !behind {
        return OK, false;
      }
    }
    NotCachedNotConverged(d.View(), cached, n.version, n.adopt);
    spawn := m.RequestNotified(svc, n.origin, n.version, n.adopt);
    code := ACCEPTED;
  }

  lemma NotCachedNotConverged(h: Host, cached: Option<Entry>, version: nat, adopt: bool)
    ensures cached.None? || cached.value.version < version ==> !Converged(h, cached, version, adopt)
  {
  }

  /** The origin is on the stamp of a live member here. */
  ghost predicate OnSomeMember(h: Host, origin: string) {
    origin != "" && exists id :: id in h.containers && !h.containers[id].canary
                                 && LabelOr(h.containers[id].labels, LABEL_ENV_ORIGIN) == origin
  }

  lemma ListedOrigin(all: Listing, h: Host, origin: string)
    requires IsListing(all, h)
    requires origin == "" <==> forall x :: x in all && !x.1.canary ==> Foreign(x.1)
    requires origin != "" ==> exists x :: x in all && !x.1.canary && LabelOr(x.1.labels, LABEL_ENV_ORIGIN) == origin
    ensures !NoStampedMember(h) ==> OnSomeMember(h, origin)
  {
    if !NoStampedMember(h) {
      var id :| id in h.containers && !h.containers[id].canary && !Foreign(h.containers[id]);
      assert (id, h.containers[id]) in all;
      var x :| x in all && !x.1.canary && LabelOr(x.1.labels, LABEL_ENV_ORIGIN) == origin;
      assert x.0 in h.containers && h.containers[x.0] == x.1;
    }
  }

  /** Whether a live member here carries a stamp, and an origin read from one. */
  method StampedHere(d: Docker) returns (stamped: bool, origin: string)
    requires d.Valid()
    ensures stamped == !NoStampedMember(d.View())
    ensures stamped ==> OnSomeMember(d.View(), origin)
  {
    hide IsListing, NoStampedMember, NoneStale, ValidHost;
    var all := ListMembers(d);
    stamped := AnyStale(all, Unstamp, 0);
    StaleListed(all, d.View(), Unstamp, 0);
    NoneStaleMeansUnstamped(d.View(), 0);
    origin := OriginOnLabels(all);
    ListedOrigin(all, d.View(), origin);
  }

  /** 200 says that no stamped member is left and the cache and all that was asked
      for are gone; 202 that a release job was asked for, with the origin noted and a
      loop started or marked dirty. Nothing is touched unless the origin, if there is
      one to ask, confirms that it is releasing the service. */
  method HandleRelease(d: Docker, cache: CentralEnvCache, m: EnvSyncManager?, svc: string, owned: bool, asked: string,
                       listed: bool, originReleasing: string -> Option<bool>, removed: bool)
    returns (code: nat, origin: string, spawn: bool)
    requires d.Valid()
    modifies cache, m
    ensures var cached := old(cache.Get(svc));
            var known := if asked == "" && cached.Some? then cached.value.origin else asked;
            var stamped := !NoStampedMember(d.View());
            if owned then code == CONFLICT
            else if m == null then code == UNAVAILABLE
            else if cached.Some? && known != cached.value.origin then code == CONFLICT
            else if !listed then code == SERVER_ERROR
            else && (if known == "" && stamped then OnSomeMember(d.View(), origin) else origin == known)
                 && code == (if origin != "" && originReleasing(origin) == None then UNAVAILABLE
                             else if origin != "" && originReleasing(origin) == Some(false) then CONFLICT
                             else if stamped then ACCEPTED
                             else if removed && ValidServiceName(svc) then OK else SERVER_ERROR)
    ensures code == OK ==> NoStampedMember(d.View()) && cache.Get(svc).None? && !owned
    ensures code != OK ==> cache.items == old(cache.items)
    ensures code == ACCEPTED ==> !NoStampedMember(d.View()) && origin != "" && !owned
    ensures code == OK || code == ACCEPTED ==> origin == "" || originReleasing(origin) == Some(true)
    ensures code == OK || code == ACCEPTED ==> (old(cache.Get(svc)).Some? ==> old(cache.Get(svc)).value.origin in {origin, ""})
    ensures owned ==> code == CONFLICT
    ensures !owned && m == null ==> code == UNAVAILABLE
    ensures code == OK || code == ACCEPTED ==> m != null && listed
    ensures code == ACCEPTED ==>
              && (m.FlagsOf(svc), spawn) == Started(old(m.FlagsOf(svc)))
              && m.peerRelease == old(m.peerRelease)[svc := origin]
              && m.peerTarget == old(m.peerTarget) && m.peerAdopt == old(m.peerAdopt)
              && m.running - {svc} == old(m.running) - {svc} && m.dirty - {svc} == old(m.dirty) - {svc}
    ensures code == OK ==>
              && m.peerTarget == old(m.peerTarget) - {svc} && m.peerAdopt == old(m.peerAdopt) - {svc}
              && m.running == old(m.running) && m.dirty == old(m.dirty) && m.peerRelease == old(m.peerRelease)
    ensures code != ACCEPTED ==> !spawn
    ensures code != ACCEPTED && code != OK && m != null ==> unchanged(m)
    ensures cache.items - {svc} == old(cache.items) - {svc}
  {
    hide NoStampedMember, ValidHost, ValidServiceName;
    origin, spawn := asked, false;
    if owned {
      return CONFLICT, origin, false;
    }
    if m == null {
      return UNAVAILABLE, origin, false;
    }
    var cached := cache.Get(svc);
    if origin == "" && cached.Some? {
      origin := cached.value.origin;
    }
    if cached.Some? && origin != cached.value.origin {
      return CONFLICT, origin, false;
    }
    if !listed {
      return SERVER_ERROR, origin, false;
    }
    var stamped, onLabels := StampedHere(d);
    if stamped {
      if origin == "" {
        origin := onLabels;
      }
      if origin == "" {
        return CONFLICT, origin, false;
      }
    }
    if origin != "" {
      var releasing := originReleasing(origin);
      if releasing.None? {
        return UNAVAILABLE, origin, false;
      }
      if !releasing.value {
        return CONFLICT, origin, false;
      }
    }
    if stamped {
      spawn := m.RequestPeerRelease(svc, origin);
      return ACCEPTED, origin, spawn;
    }
    var gone := cache.Delete(svc, removed);
    if !gone {
      return SERVER_ERROR, origin, false;
    }
    m.Forget(svc);
    return OK, origin, false;
  }

  method OriginOnLabels(all: Listing) returns (origin: string)
    ensures origin == "" <==> forall x :: x in all && !x.1.canary ==> Foreign(x.1)
    ensures origin != "" ==> exists x :: x in all && !x.1.canary && LabelOr(x.1.labels, LABEL_ENV_ORIGIN) == origin
  {
    origin := "";
    for i := 0 to |all|
      invariant origin == "" <==> forall x :: x in all[..i] && !x.1.canary ==> Foreign(x.1)
      invariant origin != "" ==> exists x :: x in all && !x.1.canary && LabelOr(x.1.labels, LABEL_ENV_ORIGIN) == origin
    {
      assert all[..i + 1] == all[..i] + [all[i]];
      assert all[i] in all;
      if origin == "" && !all[i].1.canary && !Foreign(all[i].1) {
        origin := LabelOr(all[i].1.labels, LABEL_ENV_ORIGIN);
      }
    }
    assert all[..|all|] == all;
  }
}

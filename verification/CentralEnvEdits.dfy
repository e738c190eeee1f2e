/** Patch-style edits of a central env (applyCentralEnvSet in
    cmd/dashboard/centralenv_peer.go): the whole new content is computed from one
    read of the record and compare-and-swapped in by a second store call. */
module CentralEnvEdits {
  import opened Common
  import opened EnvContent
  import opened CentralEnvStore
  import opened StoreHistory

  datatype SetRequest = SetRequest(
    requestId: string,
    ifVersion: nat,
    sets: EnvMap,
    unset: seq<string>,
    hostOverrides: map<string, EnvMap>,
    unsetHostOverrides: map<string, seq<string>>)

  datatype SetError = ReadFailed(error: StoreError) | BeingReleased | InvalidHost | BadContent | BadRef

  predicate ValidHostIdentity(s: string) {
    1 <= |s| <= 253 && forall i :: 0 <= i < |s| ==> s[i] !in " /\\=\0\t\n"
  }

  /** An override is refused under a name no host can have. */
  lemma HostIdentityExactly(s: string)
    ensures ValidHostIdentity(s) <==> s != "" && |s| <= 253 && forall c :: c in s ==> c !in " /\\=\0\t\n"
  {
    if ValidHostIdentity(s) {
      forall c | c in s ensures c !in " /\\=\0\t\n" {
        var i :| 0 <= i < |s| && s[i] == c;
      }
    } else if s != "" && |s| <= 253 {
      var i :| 0 <= i < |s| && s[i] in " /\\=\0\t\n";
      assert s[i] in s;
    }
  }

  function Without(m: EnvMap, keys: seq<string>): EnvMap {
    map k | k in m && k !in keys :: m[k]
  }

  function KeysOf(ov: map<string, EnvMap>, h: string): EnvMap {
    if h in ov then ov[h] else map[]
  }

  function Layered(ov: map<string, EnvMap>, added: map<string, EnvMap>, h: string): EnvMap {
    KeysOf(ov, h) + KeysOf(added, h)
  }

  /** Overrides once the request's per-host keys are layered on. */
  function WithOverrides(ov: map<string, EnvMap>, added: map<string, EnvMap>): map<string, EnvMap> {
    map h | h in ov.Keys + added.Keys :: Layered(ov, added, h)
  }

  /** …and once its per-host removals are applied; a host left with no key goes. */
  function WithoutOverrides(ov: map<string, EnvMap>, removed: map<string, seq<string>>): map<string, EnvMap> {
    map h | h in ov && (h in removed ==> Without(ov[h], removed[h]) != map[]) ::
      if h in removed then Without(ov[h], removed[h]) else ov[h]
  }

  function Patch(c: Content, req: SetRequest): Content {
    Content(Without(c.base + req.sets, req.unset),
            WithoutOverrides(WithOverrides(c.overrides, req.hostOverrides), req.unsetHostOverrides))
  }

  /** The keys an edit reports: those it set to another value or removed. */
  ghost predicate Changes(c: Content, req: SetRequest, k: string) {
    || ChangesBase(c, req, k)
    || SomeOverrideDiffers(c, req.hostOverrides, k)
    || SomeRemoved(WithOverrides(c.overrides, req.hostOverrides), req.unsetHostOverrides, k)
  }

  predicate OverrideDiffers(c: Content, added: EnvMap, h: string, k: string) {
    k in added && !(k in KeysOf(c.overrides, h) && KeysOf(c.overrides, h)[k] == added[k])
  }

  predicate AllResolvable(c: Content, identity: string, secrets: EnvMap) {
    && EffectiveEnv(c, "", secrets).Some?
    && EffectiveEnv(c, identity, secrets).Some?
    && forall h :: h in c.overrides ==> EffectiveEnv(c, h, secrets).Some?
  }

  /** Layers kv over one map of keys, noting what changed. */
  method Overlay(cur: EnvMap, kv: EnvMap, seen: set<string>) returns (out: EnvMap, changed: set<string>)
    ensures out == cur + kv
    ensures changed == seen + set k | k in kv && !(k in cur && cur[k] == kv[k])
  {
    out, changed := cur, seen;
    var keys := kv.Keys;
    while keys != {}
      invariant keys <= kv.Keys
      invariant out == cur + map k | k in kv && k !in keys :: kv[k]
      invariant changed == seen + set k | k in kv && k !in keys && !(k in cur && cur[k] == kv[k])
      decreases keys
    {
      var k :| k in keys;
      if !(k in out && out[k] == kv[k]) {
        changed := changed + {k};
      }
      out := out[k := kv[k]];
      keys := keys - {k};
    }
    assert kv == map k | k in kv && k !in keys :: kv[k];
  }

  /** Deletes a list of keys, noting which were there. */
  method Prune(cur: EnvMap, keys: seq<string>, seen: set<string>) returns (out: EnvMap, changed: set<string>)
    ensures out == Without(cur, keys)
    ensures changed == seen + set k | k in keys && k in cur
  {
    out, changed := cur, seen;
    for i := 0 to |keys|
      invariant out == Without(cur, keys[..i])
      invariant changed == seen + set k | k in keys[..i] && k in cur
    {
      assert keys[..i + 1] == keys[..i] + [keys[i]];
      if keys[i] in out {
        changed := changed + {keys[i]};
      }
      out := out - {keys[i]};
    }
    assert keys[..|keys|] == keys;
  }

  ghost predicate ChangesBase(c: Content, req: SetRequest, k: string) {
    || (k in req.sets && !(k in c.base && c.base[k] == req.sets[k]))
    || (k in req.unset && k in c.base + req.sets)
  }

  ghost predicate SomeOverrideDiffers(c: Content, added: map<string, EnvMap>, k: string) {
    exists h :: h in added && OverrideDiffers(c, added[h], h, k)
  }

  ghost predicate SomeRemoved(ov: map<string, EnvMap>, removed: map<string, seq<string>>, k: string) {
    exists h :: h in removed && RemovedFrom(ov, removed[h], h, k)
  }

  predicate RemovedFrom(ov: map<string, EnvMap>, keys: seq<string>, h: string, k: string) {
    k in keys && h in ov && k in ov[h]
  }

  lemma LayerOneHost(ov: map<string, EnvMap>, done: map<string, EnvMap>, h: string, kv: EnvMap)
    requires h !in done
    ensures Layered(ov, map[], h) == KeysOf(ov, h) == Layered(ov, done, h)
    ensures Layered(ov, done[h := kv], h) == KeysOf(ov, h) + kv
  {
  }

  lemma OtherHostsKeepLayers(ov: map<string, EnvMap>, done: map<string, EnvMap>, h: string, kv: EnvMap, g: string)
    requires g != h
    ensures Layered(ov, done[h := kv], g) == Layered(ov, done, g)
  {
  }

  lemma OneMoreHostDiffers(c: Content, done: map<string, EnvMap>, h: string, kv: EnvMap, k: string)
    requires h !in done
    ensures SomeOverrideDiffers(c, done[h := kv], k) <==>
            (SomeOverrideDiffers(c, done, k) || OverrideDiffers(c, kv, h, k))
  {
    var more := done[h := kv];
    if OverrideDiffers(c, kv, h, k) {
      assert h in more && OverrideDiffers(c, more[h], h, k);
    }
    if g :| g in done && OverrideDiffers(c, done[g], g, k) {
      assert g in more && OverrideDiffers(c, more[g], g, k);
    }
  }

  /** Where LayerHosts stands once the hosts of done have been layered. */
  ghost predicate LayeredSoFar(c: Content, done: map<string, EnvMap>, seen: set<string>,
                               overrides: map<string, EnvMap>, changed: set<string>) {
    && overrides.Keys == c.overrides.Keys + done.Keys
    && (forall h :: h in overrides ==> overrides[h] == Layered(c.overrides, done, h))
    && (forall k :: k in changed <==> (k in seen || SomeOverrideDiffers(c, done, k)))
  }

  method LayerHost(c: Content, ghost done: map<string, EnvMap>, ghost seen: set<string>, h: string, kv: EnvMap,
                   overrides: map<string, EnvMap>, changed: set<string>)
    returns (overrides': map<string, EnvMap>, changed': set<string>)
    requires h !in done && LayeredSoFar(c, done, seen, overrides, changed)
    ensures LayeredSoFar(c, done[h := kv], seen, overrides', changed')
  {
    var cur := if h in overrides then overrides[h] else map[];
    LayerOneHost(c.overrides, done, h, kv);
    assert cur == KeysOf(c.overrides, h);
    var layered;
    layered, changed' := Overlay(cur, kv, changed);
    overrides' := overrides[h := layered];
    forall g | g in overrides' && g != h ensures overrides'[g] == Layered(c.overrides, done[h := kv], g) {
      OtherHostsKeepLayers(c.overrides, done, h, kv, g);
    }
    forall k ensures k in changed' <==> (k in seen || SomeOverrideDiffers(c, done[h := kv], k)) {
      OneMoreHostDiffers(c, done, h, kv, k);
    }
  }

  lemma NothingLayeredYet(c: Content, seen: set<string>)
    ensures LayeredSoFar(c, map[], seen, c.overrides, seen)
  {
    forall h | h in c.overrides ensures c.overrides[h] == Layered(c.overrides, map[], h) {
      LayerOneHost(c.overrides, map[], h, map[]);
    }
  }

  lemma AllLayered(c: Content, added: map<string, EnvMap>, seen: set<string>,
                   overrides: map<string, EnvMap>, changed: set<string>)
    requires LayeredSoFar(c, added, seen, overrides, changed)
    ensures overrides == WithOverrides(c.overrides, added)
    ensures forall k :: k in changed <==> (k in seen || SomeOverrideDiffers(c, added, k))
  {
  }

  method LayerHosts(c: Content, added: map<string, EnvMap>, seen: set<string>)
    returns (ok: bool, overrides: map<string, EnvMap>, changed: set<string>)
    ensures ok <==> forall h :: h in added ==> ValidHostIdentity(h)
    ensures ok ==> overrides == WithOverrides(c.overrides, added)
    ensures ok ==> forall k :: k in changed <==> (k in seen || SomeOverrideDiffers(c, added, k))
  {
    hide LayeredSoFar, SomeOverrideDiffers, WithOverrides, ValidHostIdentity;
    overrides, changed := c.overrides, seen;
    var hosts := added.Keys;
    ghost var done: map<string, EnvMap> := map[];
    NothingLayeredYet(c, seen);
    while hosts != {}
      invariant done.Keys == added.Keys - hosts && hosts <= added.Keys
      invariant forall h :: h in done ==> done[h] == added[h] && ValidHostIdentity(h)
      invariant LayeredSoFar(c, done, seen, overrides, changed)
      decreases hosts
    {
      var h :| h in hosts;
      if !ValidHostIdentity(h) {
        return false, overrides, changed;
      }
      overrides, changed := LayerHost(c, done, seen, h, added[h], overrides, changed);
      hosts := hosts - {h};
      done := done[h := added[h]];
    }
    assert done == added;
    AllLayered(c, added, seen, overrides, changed);
    ok := true;
  }

  lemma OneMoreHostPruned(ov: map<string, EnvMap>, done: map<string, seq<string>>, h: string, keys: seq<string>)
    requires h !in done
    ensures h in WithoutOverrides(ov, done) <==> h in ov
    ensures h in ov ==> WithoutOverrides(ov, done)[h] == ov[h]
    ensures h in ov && Without(ov[h], keys) == map[] ==>
              WithoutOverrides(ov, done[h := keys]) == WithoutOverrides(ov, done) - {h}
    ensures h in ov && Without(ov[h], keys) != map[] ==>
              WithoutOverrides(ov, done[h := keys]) == WithoutOverrides(ov, done)[h := Without(ov[h], keys)]
    ensures h !in ov ==> WithoutOverrides(ov, done[h := keys]) == WithoutOverrides(ov, done)
    ensures forall k :: SomeRemoved(ov, done[h := keys], k) <==> (SomeRemoved(ov, done, k) || RemovedFrom(ov, keys, h, k))
  {
    forall k ensures SomeRemoved(ov, done[h := keys], k) <==> (SomeRemoved(ov, done, k) || RemovedFrom(ov, keys, h, k)) {
      if RemovedFrom(ov, keys, h, k) {
        assert h in done[h := keys] && RemovedFrom(ov, done[h := keys][h], h, k);
      }
      if g :| g in done && RemovedFrom(ov, done[g], g, k) {
        assert g in done[h := keys] && RemovedFrom(ov, done[h := keys][g], g, k);
      }
    }
  }

  method PruneHosts(ov: map<string, EnvMap>, removed: map<string, seq<string>>, seen: set<string>)
    returns (overrides: map<string, EnvMap>, changed: set<string>)
    ensures overrides == WithoutOverrides(ov, removed)
    ensures forall k :: k in changed <==> (k in seen || SomeRemoved(ov, removed, k))
  {
    overrides, changed := ov, seen;
    var hosts := removed.Keys;
    ghost var done: map<string, seq<string>> := map[];
    assert overrides == WithoutOverrides(ov, done);
    while hosts != {}
      invariant done.Keys == removed.Keys - hosts && hosts <= removed.Keys
      invariant forall h :: h in done ==> done[h] == removed[h]
      invariant overrides == WithoutOverrides(ov, done)
      invariant forall k :: k in changed <==> (k in seen || SomeRemoved(ov, done, k))
      decreases hosts
    {
      var h :| h in hosts;
      OneMoreHostPruned(ov, done, h, removed[h]);
      if h in overrides {
        var left;
        left, changed := Prune(overrides[h], removed[h], changed);
        if left == map[] {
          overrides := overrides - {h};
        } else {
          overrides := overrides[h := left];
        }
      }
      hosts := hosts - {h};
      done := done[h := removed[h]];
    }
    assert done == removed;
  }

  /** What an edit would write, computed from one read of the record, or why it
      is refused. Nothing is written here. */
  method BuildSet(rec: Record, req: SetRequest, identity: string, secrets: EnvMap)
    returns (r: Result<(Content, set<string>), SetError>)
    ensures r == Err(BeingReleased) <==> rec.state == Releasing
    ensures r == Err(InvalidHost) <==>
            (rec.state != Releasing && exists h :: h in req.hostOverrides && !ValidHostIdentity(h))
    ensures r == Err(BadContent) <==>
            && rec.state != Releasing
            && (forall h :: h in req.hostOverrides ==> ValidHostIdentity(h))
            && !ValidContent(Patch(rec.content, req))
    ensures r.Ok? <==>
            && rec.state != Releasing
            && (forall h :: h in req.hostOverrides ==> ValidHostIdentity(h))
            && ValidContent(Patch(rec.content, req))
            && AllResolvable(Patch(rec.content, req), identity, secrets)
    ensures r.Ok? ==> r.value.0 == Patch(rec.content, req)
    ensures r.Ok? ==> forall k :: k in r.value.1 <==> Changes(rec.content, req, k)
  {
    if rec.state == Releasing {
      return Err(BeingReleased);
    }
    var c := rec.content;
    var base, changed := Overlay(c.base, req.sets, {});
    base, changed := Prune(base, req.unset, changed);
    assert forall k :: k in changed <==> ChangesBase(c, req, k);
    var ok, overrides;
    ok, overrides, changed := LayerHosts(c, req.hostOverrides, changed);
    if !ok {
      return Err(InvalidHost);
    }
    overrides, changed := PruneHosts(overrides, req.unsetHostOverrides, changed);
    var content := Content(base, overrides);
    if !ValidContent(content) {
      return Err(BadContent);
    }
    if !AllResolvable(content, identity, secrets) {
      return Err(BadRef);
    }
    return Ok((content, changed));
  }

  ghost predicate Dangles(v: string, secrets: EnvMap) {
    |v| >= 4 && v[..4] == "ref:" && v[4..] !in secrets
  }

  /** An edit is refused for its references exactly when some value of the base or
      of any host's overrides dangles; otherwise every host can resolve the result. */
  lemma AllResolvableExactly(c: Content, identity: string, secrets: EnvMap)
    requires ValidContent(c)
    ensures AllResolvable(c, identity, secrets) <==>
            && (forall k :: k in c.base ==> !Dangles(c.base[k], secrets))
            && forall h, k :: h in c.overrides && k in c.overrides[h] ==> !Dangles(c.overrides[h][k], secrets)
    ensures AllResolvable(c, identity, secrets) ==> forall h :: EffectiveEnv(c, h, secrets).Some?
  {
    forall h ensures EffectiveEnv(c, h, secrets).Some? <==> forall k, v :: Layer(c, h, k, v) ==> !Dangles(v, secrets) {
      EffectiveEnvExactly(c, h, secrets);
    }
    assert "" !in c.overrides;
    if AllResolvable(c, identity, secrets) {
      forall k | k in c.base ensures !Dangles(c.base[k], secrets) {
        assert Layer(c, "", k, c.base[k]);
      }
      forall h, k | h in c.overrides && k in c.overrides[h] ensures !Dangles(c.overrides[h][k], secrets) {
        assert Layer(c, h, k, c.overrides[h][k]);
      }
    }
  }

  /** The keys an edit reports, on the request and the record alone. */
  lemma ReportedKeysExactly(c: Content, req: SetRequest, k: string)
    ensures Changes(c, req, k) <==>
            || (k in req.sets && (k in c.base ==> c.base[k] != req.sets[k]))
            || (k in req.unset && (k in c.base || k in req.sets))
            || (exists h :: h in req.hostOverrides && k in req.hostOverrides[h]
                  && (h in c.overrides && k in c.overrides[h] ==> c.overrides[h][k] != req.hostOverrides[h][k]))
            || (exists h :: h in req.unsetHostOverrides && k in req.unsetHostOverrides[h]
                  && ((h in c.overrides && k in c.overrides[h]) || (h in req.hostOverrides && k in req.hostOverrides[h])))
  {
    var ov := WithOverrides(c.overrides, req.hostOverrides);
    forall h | h in req.hostOverrides
      ensures OverrideDiffers(c, req.hostOverrides[h], h, k) <==>
              k in req.hostOverrides[h]
              && (h in c.overrides && k in c.overrides[h] ==> c.overrides[h][k] != req.hostOverrides[h][k]) {
    }
    forall h | h in req.unsetHostOverrides
      ensures RemovedFrom(ov, req.unsetHostOverrides[h], h, k) <==>
              k in req.unsetHostOverrides[h]
              && ((h in c.overrides && k in c.overrides[h]) || (h in req.hostOverrides && k in req.hostOverrides[h])) {
    }
  }

  lemma UnreportedOverrideKept(c: Content, req: SetRequest, k: string, h: string)
    requires h in req.hostOverrides && k in req.hostOverrides[h] ==>
               h in c.overrides && k in c.overrides[h] && c.overrides[h][k] == req.hostOverrides[h][k]
    requires h in req.unsetHostOverrides && k in req.unsetHostOverrides[h] ==>
               !(h in c.overrides && k in c.overrides[h]) && !(h in req.hostOverrides && k in req.hostOverrides[h])
    ensures (h in c.overrides && k in c.overrides[h])
       <==> (h in Patch(c, req).overrides && k in Patch(c, req).overrides[h])
    ensures h in c.overrides && k in c.overrides[h] ==> Patch(c, req).overrides[h][k] == c.overrides[h][k]
  {
    var ov := WithOverrides(c.overrides, req.hostOverrides);
    assert (h in ov && k in ov[h]) <==> (h in c.overrides && k in c.overrides[h]);
    if h in ov && k in ov[h] {
      assert ov[h][k] == c.overrides[h][k];
      if h in req.unsetHostOverrides {
        assert k in Without(ov[h], req.unsetHostOverrides[h]);
      }
    }
  }

  /** A key an edit does not report has the same value on every host as before. */
  lemma UnreportedKeysKept(c: Content, req: SetRequest, k: string, host: string)
    requires !Changes(c, req, k)
    ensures forall v :: Layer(c, host, k, v) <==> Layer(Patch(c, req), host, k, v)
  {
    hide WithOverrides, WithoutOverrides;
    assert !ChangesBase(c, req, k);
    ReportedKeysExactly(c, req, k);
    UnreportedOverrideKept(c, req, k, host);
  }

  // ---- Concurrent edits ----

  /** How a version came about; an edit read the record when readAt was current. */
  datatype How = FromCreate | FromEdit(req: SetRequest, readAt: nat) | FromTouch | FromRevert

  /** An edit between its read and its compare-and-swap. */
  datatype Call = Call(req: SetRequest, readAt: nat, content: Content)

  datatype World = World(t: Traced, how: seq<How>, calls: map<nat, Call>)

  datatype Event =
    | Read(id: nat, req: SetRequest)
    | Commit(who: nat, persisted: bool)
    | Other(attempt: Attempt)

  predicate Enabled(w: World, e: Event) {
    match e
    case Read(id, req) => id !in w.calls
    case Commit(id, _) => id in w.calls
    case Other(a) => !a.op.DoApply?
  }

  function ChangeOf(c: Call): Change {
    Change(c.req.ifVersion, c.req.requestId, c.content)
  }

  function Extend(w: World, a: Attempt, kind: How): World {
    var t' := Step(w.t, a);
    w.(t := t', how := if t'.rec.version == w.t.rec.version then w.how else w.how + [kind])
  }

  function Next(w: World, e: Event): World
    requires Enabled(w, e)
  {
    match e
    case Read(id, req) =>
      w.(calls := w.calls[id := Call(req, w.t.rec.version, Patch(w.t.rec.content, req))])
    case Commit(id, persisted) =>
      var c := w.calls[id];
      Extend(w, Attempt(DoApply(ChangeOf(c)), persisted), FromEdit(c.req, c.readAt))
        .(calls := w.calls - {id})
    case Other(a) =>
      Extend(w, a, if a.op.DoTouch? then FromTouch else FromRevert)
  }

  /** A read computes its patch at once; its commit compares and swaps that, once,
      and adds a version exactly when it is saved, no replay, at if_version, and of
      other content. */
  lemma WorldStepsExactly(w: World, id: nat, req: SetRequest, persisted: bool)
    ensures id !in w.calls ==>
              Next(w, Read(id, req))
              == w.(calls := w.calls[id := Call(req, w.t.rec.version, Patch(w.t.rec.content, req))])
    ensures id in w.calls ==>
              var c, after := w.calls[id], Next(w, Commit(id, persisted));
              && after.calls == w.calls - {id}
              && (if persisted && !(c.req.requestId != "" && exists r :: r in w.t.rec.ring && r.id == c.req.requestId)
                     && c.req.ifVersion == w.t.rec.version && HashOf(c.content) != w.t.rec.hash
                  then && after.t.contents == w.t.contents + [c.content]
                       && after.how == w.how + [FromEdit(c.req, c.readAt)]
                  else after.t.contents == w.t.contents && after.how == w.how)
  {
    hide Patch, HashOf;
    if id in w.calls {
      ApplyExactly(w.t.rec, ChangeOf(w.calls[id]));
    }
  }

  ghost predicate IsRun(ws: seq<World>, es: seq<Event>) {
    && |ws| == |es| + 1
    && forall i :: 0 <= i < |es| ==> Enabled(ws[i], es[i]) && ws[i + 1] == Next(ws[i], es[i])
  }

  /** What every reachable state satisfies. */
  ghost predicate Serial(w: World) {
    && History(w.t)
    && |w.how| == |w.t.contents| && w.how[0].FromCreate?
    && (forall v :: 1 <= v < |w.how| ==> Explained(w, v))
    && (forall id :: id in w.calls ==> Faithful(w, w.calls[id]))
  }

  /** Version v+1 is what its kind says, computed from version v. */
  ghost predicate Explained(w: World, v: nat)
    requires |w.how| == |w.t.contents| && 1 <= v < |w.how|
  {
    match w.how[v]
    case FromCreate => false
    case FromTouch => w.t.contents[v] == w.t.contents[v - 1]
    case FromRevert => v >= 2 && w.t.contents[v] == w.t.contents[v - 2]
    case FromEdit(req, readAt) =>
      1 <= readAt <= v && req.ifVersion == v && w.t.contents[v] == Patch(w.t.contents[readAt - 1], req)
  }

  ghost predicate Faithful(w: World, c: Call) {
    1 <= c.readAt <= |w.t.contents| && c.content == Patch(w.t.contents[c.readAt - 1], c.req)
  }

  lemma ExtendKeepsSerial(w: World, a: Attempt, kind: How)
    requires Serial(w)
    requires History(Step(w.t, a)) && w.t.contents <= Step(w.t, a).contents
    requires Step(w.t, a).rec.version <= w.t.rec.version + 1
    requires Step(w.t, a).rec.version > w.t.rec.version ==> Explained(Extend(w, a, kind), |w.how|)
    ensures Serial(Extend(w, a, kind)) && w.how <= Extend(w, a, kind).how
  {
    ExplanationsKept(w, Extend(w, a, kind));
  }

  lemma ReadKeepsSerial(w: World, id: nat, req: SetRequest)
    requires Serial(w) && id !in w.calls
    ensures Serial(Next(w, Read(id, req)))
  {
    var w' := Next(w, Read(id, req));
    ExplanationsKept(w, w');
    assert Faithful(w', w'.calls[id]);
  }

  lemma PublishedMeansReadHere(rec: Record, ch: Change, persisted: bool)
    requires NextRecord(rec, Attempt(DoApply(ch), persisted)).version != rec.version
    ensures ch.ifVersion == rec.version
    ensures NextRecord(rec, Attempt(DoApply(ch), persisted)).content == ch.content
  {
  }

  lemma CommitIsExplained(w: World, c: Call, persisted: bool)
    requires History(w.t) && |w.how| == |w.t.contents| && Faithful(w, c)
    requires NextRecord(w.t.rec, Attempt(DoApply(ChangeOf(c)), persisted)).version != w.t.rec.version
    ensures var w' := Extend(w, Attempt(DoApply(ChangeOf(c)), persisted), FromEdit(c.req, c.readAt));
            |w'.how| == |w'.t.contents| == |w.how| + 1 && Explained(w', |w.how|)
  {
    hide Patch, NextRecord, HashOf;
    PublishedMeansReadHere(w.t.rec, ChangeOf(c), persisted);
    var contents' := Step(w.t, Attempt(DoApply(ChangeOf(c)), persisted)).contents;
    assert contents' == w.t.contents + [c.content];
  }

  lemma CommitKeepsSerial(w: World, id: nat, persisted: bool)
    requires Serial(w) && id in w.calls
    ensures Serial(Next(w, Commit(id, persisted))) && w.how <= Next(w, Commit(id, persisted)).how
  {
    var c := w.calls[id];
    var a := Attempt(DoApply(ChangeOf(c)), persisted);
    var kind := FromEdit(c.req, c.readAt);
    StepKeepsHistory(w.t, a);
    if Step(w.t, a).rec.version != w.t.rec.version {
      assert Faithful(w, c);
      CommitIsExplained(w, c, persisted);
    }
    ExtendKeepsSerial(w, a, kind);
    ForgettingCallKeepsSerial(Extend(w, a, kind), id);
  }

  lemma ForgettingCallKeepsSerial(w: World, id: nat)
    requires Serial(w)
    ensures Serial(w.(calls := w.calls - {id}))
  {
    ExplanationsKept(w, w.(calls := w.calls - {id}));
  }

  lemma OtherKeepsSerial(w: World, a: Attempt)
    requires Serial(w) && !a.op.DoApply?
    ensures Serial(Next(w, Other(a))) && w.how <= Next(w, Other(a)).how
  {
    StepKeepsHistory(w.t, a);
    ExtendKeepsSerial(w, a, if a.op.DoTouch? then FromTouch else FromRevert);
  }

  lemma NextKeepsSerial(w: World, e: Event)
    requires Serial(w) && Enabled(w, e)
    ensures Serial(Next(w, e)) && w.how <= Next(w, e).how
  {
    match e
    case Read(id, req) => ReadKeepsSerial(w, id, req);
    case Commit(id, persisted) => CommitKeepsSerial(w, id, persisted);
    case Other(a) => OtherKeepsSerial(w, a);
  }

  lemma ExplanationsKept(w: World, w': World)
    requires Serial(w)
    requires w.t.contents <= w'.t.contents && w.how <= w'.how && |w'.how| == |w'.t.contents|
    ensures forall v :: 1 <= v < |w.how| ==> Explained(w', v)
    ensures forall id :: id in w.calls ==> Faithful(w', w.calls[id])
  {
    forall v | 1 <= v < |w.how| ensures Explained(w', v) {
      assert Explained(w, v);
    }
    forall id | id in w.calls ensures Faithful(w', w.calls[id]) {
      assert Faithful(w, w.calls[id]);
    }
  }

  lemma {:induction false} RunKeepsSerial(ws: seq<World>, es: seq<Event>, n: nat)
    requires IsRun(ws, es) && Serial(ws[0]) && n <= |es|
    ensures Serial(ws[n]) && ws[0].how <= ws[n].how
  {
    if n > 0 {
      RunKeepsSerial(ws, es, n - 1);
      NextKeepsSerial(ws[n - 1], es[n - 1]);
    }
  }

  // ---- What a patch depends on ----

  predicate Mentions(req: SetRequest, k: string) {
    k in req.sets || k in req.unset
  }

  predicate MentionsAt(req: SetRequest, h: string, k: string) {
    || (h in req.hostOverrides && k in req.hostOverrides[h])
    || (h in req.unsetHostOverrides && k in req.unsetHostOverrides[h])
  }

  predicate SameAt(m: EnvMap, n: EnvMap, k: string) {
    (k in m <==> k in n) && (k in m ==> m[k] == n[k])
  }

  predicate NamesHost(req: SetRequest, h: string) {
    h in req.hostOverrides || h in req.unsetHostOverrides
  }

  /** The two contents differ in nothing the request leaves alone. */
  ghost predicate SameBut(c: Content, d: Content, req: SetRequest) {
    && (forall k :: !Mentions(req, k) ==> SameAt(c.base, d.base, k))
    && (forall h :: !NamesHost(req, h) ==> (h in c.overrides <==> h in d.overrides))
    && (forall h, k :: !MentionsAt(req, h, k) ==> SameAt(KeysOf(c.overrides, h), KeysOf(d.overrides, h), k))
  }

  lemma PatchedBaseAt(c: Content, d: Content, req: SetRequest, k: string)
    ensures !Mentions(req, k) ==> SameAt(Patch(c, req).base, c.base, k)
    ensures Mentions(req, k) ==> SameAt(Patch(c, req).base, Patch(d, req).base, k)
  {
  }

  lemma PatchedHostAt(c: Content, req: SetRequest, h: string)
    ensures h in req.unsetHostOverrides ==>
              KeysOf(Patch(c, req).overrides, h)
              == Without(Layered(c.overrides, req.hostOverrides, h), req.unsetHostOverrides[h])
    ensures h !in req.unsetHostOverrides ==>
              KeysOf(Patch(c, req).overrides, h) == Layered(c.overrides, req.hostOverrides, h)
    ensures h in Patch(c, req).overrides <==>
              if h in req.unsetHostOverrides then KeysOf(Patch(c, req).overrides, h) != map[]
              else h in c.overrides || h in req.hostOverrides
  {
    if h !in c.overrides && h !in req.hostOverrides {
      assert Layered(c.overrides, req.hostOverrides, h) == map[];
      assert h in req.unsetHostOverrides ==> Without(map[], req.unsetHostOverrides[h]) == map[];
    }
  }

  lemma PatchedKeyAt(c: Content, d: Content, req: SetRequest, h: string, k: string)
    ensures !MentionsAt(req, h, k) ==> SameAt(KeysOf(Patch(c, req).overrides, h), KeysOf(c.overrides, h), k)
    ensures MentionsAt(req, h, k) ==> SameAt(KeysOf(Patch(c, req).overrides, h), KeysOf(Patch(d, req).overrides, h), k)
  {
    hide Patch;
    PatchedHostAt(c, req, h);
    PatchedHostAt(d, req, h);
  }

  lemma SameEverywhere(m: EnvMap, n: EnvMap)
    requires forall k :: SameAt(m, n, k)
    ensures m == n
  {
    forall k ensures k in m <==> k in n {
      assert SameAt(m, n, k);
    }
    forall k | k in m ensures m[k] == n[k] {
      assert SameAt(m, n, k);
    }
  }

  lemma SamePatchOfHost(c: Content, d: Content, req: SetRequest, h: string)
    requires SameBut(c, d, req)
    ensures KeysOf(Patch(c, req).overrides, h) == KeysOf(Patch(d, req).overrides, h)
    ensures h in Patch(c, req).overrides <==> h in Patch(d, req).overrides
  {
    hide Patch;
    forall k ensures SameAt(KeysOf(Patch(c, req).overrides, h), KeysOf(Patch(d, req).overrides, h), k) {
      PatchedKeyAt(c, d, req, h, k);
      PatchedKeyAt(d, c, req, h, k);
      assert !MentionsAt(req, h, k) ==> SameAt(KeysOf(c.overrides, h), KeysOf(d.overrides, h), k);
    }
    SameEverywhere(KeysOf(Patch(c, req).overrides, h), KeysOf(Patch(d, req).overrides, h));
    PatchedHostAt(c, req, h);
    PatchedHostAt(d, req, h);
    assert !NamesHost(req, h) ==> (h in c.overrides <==> h in d.overrides);
  }

  lemma SamePatchOfBase(c: Content, d: Content, req: SetRequest)
    requires SameBut(c, d, req)
    ensures Patch(c, req).base == Patch(d, req).base
  {
    hide Patch;
    forall k ensures SameAt(Patch(c, req).base, Patch(d, req).base, k) {
      PatchedBaseAt(c, d, req, k);
      PatchedBaseAt(d, c, req, k);
      assert !Mentions(req, k) ==> SameAt(c.base, d.base, k);
    }
    SameEverywhere(Patch(c, req).base, Patch(d, req).base);
  }

  /** A patch gives the same result on two contents exactly when they differ in
      nothing it leaves alone. */
  lemma SamePatchExactly(c: Content, d: Content, req: SetRequest)
    ensures Patch(c, req) == Patch(d, req) <==> SameBut(c, d, req)
  {
    hide Patch;
    var x, y := Patch(c, req), Patch(d, req);
    if SameBut(c, d, req) {
      SamePatchOfBase(c, d, req);
      forall h ensures (h in x.overrides <==> h in y.overrides) && KeysOf(x.overrides, h) == KeysOf(y.overrides, h) {
        SamePatchOfHost(c, d, req, h);
      }
      forall h | h in x.overrides ensures h in y.overrides && x.overrides[h] == y.overrides[h] {
        assert KeysOf(x.overrides, h) == KeysOf(y.overrides, h);
      }
      assert x.overrides == y.overrides;
    }
    if x == y {
      forall k | !Mentions(req, k) ensures SameAt(c.base, d.base, k) {
        PatchedBaseAt(c, d, req, k);
        PatchedBaseAt(d, c, req, k);
      }
      forall h | !NamesHost(req, h) ensures h in c.overrides <==> h in d.overrides {
        PatchedHostAt(c, req, h);
        PatchedHostAt(d, req, h);
      }
      forall h, k | !MentionsAt(req, h, k) ensures SameAt(KeysOf(c.overrides, h), KeysOf(d.overrides, h), k) {
        PatchedKeyAt(c, d, req, h, k);
        PatchedKeyAt(d, c, req, h, k);
      }
    }
  }

  // ---- What a commit leaves ----

  /** The commit publishes a new version. */
  predicate Publishes(w: World, c: Call) {
    var o := ApplyOutcome(w.t.rec, ChangeOf(c));
    o.Write? && !o.written.noOp
  }

  /** The commit is answered with success because nothing would change. */
  predicate IsNoOp(w: World, c: Call) {
    var o := ApplyOutcome(w.t.rec, ChangeOf(c));
    (o.Write? && o.written.noOp) || (o.Keep? && o.kept.noOp)
  }

  /** What a commit that succeeds without being a replay leaves: its patch of the
      content it read, as the version after if_version, or nothing new. */
  ghost predicate Lands(w: World, c: Call, after: Record) {
    var at := w.t.contents;
    && (Publishes(w, c) || IsNoOp(w, c) ==> 1 <= c.readAt <= c.req.ifVersion == |at|)
    && (Publishes(w, c) ==>
          after.version == c.req.ifVersion + 1 && after.content == Patch(at[c.readAt - 1], c.req))
    && (IsNoOp(w, c) ==>
          && after.version == c.req.ifVersion && after.content == at[c.req.ifVersion - 1]
          && HashOf(after.content) == HashOf(Patch(at[c.readAt - 1], c.req)))
  }

  /** Which commits publish and which change nothing, on the record alone. */
  lemma CommitFatesExactly(w: World, c: Call)
    ensures var replay := c.req.requestId != "" && exists r :: r in w.t.rec.ring && r.id == c.req.requestId;
            && (Publishes(w, c) <==> !replay && c.req.ifVersion == w.t.rec.version && HashOf(c.content) != w.t.rec.hash)
            && (IsNoOp(w, c) <==> !replay && c.req.ifVersion == w.t.rec.version && HashOf(c.content) == w.t.rec.hash)
  {
    hide HashOf;
    ApplyExactly(w.t.rec, ChangeOf(c));
  }

  lemma CommitLands(w: World, id: nat)
    requires Serial(w) && id in w.calls
    ensures Lands(w, w.calls[id], Next(w, Commit(id, true)).t.rec)
  {
    hide Patch;
    assert Faithful(w, w.calls[id]);
  }

  /** Edits serialise: in any interleaving of reads and compare-and-swaps with
      touches and reverts, a commit that succeeds without being a replay leaves its
      patch of the content it read; and that is its patch of the content at its
      if_version exactly when the two contents differ in nothing the request leaves
      alone. So always, if that version had been published when the call read. */
  lemma EditsSerialise(ws: seq<World>, es: seq<Event>, n: nat)
    requires IsRun(ws, es) && Serial(ws[0]) && n < |es|
    requires es[n].Commit? && es[n].persisted
    ensures var w, c, after := ws[n], ws[n].calls[es[n].who], ws[n + 1].t.rec;
            && Lands(w, c, after)
            && (Publishes(w, c) ==>
                  (after.content == Patch(w.t.contents[c.req.ifVersion - 1], c.req)
                   <==> SameBut(w.t.contents[c.readAt - 1], w.t.contents[c.req.ifVersion - 1], c.req)))
            && (Publishes(w, c) && c.req.ifVersion <= c.readAt ==>
                  after.content == Patch(w.t.contents[c.req.ifVersion - 1], c.req))
  {
    hide Patch, SameBut, Serial, ApplyOutcome;
    RunKeepsSerial(ws, es, n);
    CommitLands(ws[n], es[n].who);
    var w, c := ws[n], ws[n].calls[es[n].who];
    if Publishes(w, c) {
      SamePatchExactly(w.t.contents[c.readAt - 1], w.t.contents[c.req.ifVersion - 1], c.req);
    }
  }

  // ---- No edit is lost ----

  /** A base key set by an edit still holds that value at any later version reached
      only by touches and by edits that read the record after that edit and do not
      mention the key. */
  lemma {:induction false} KeySurvivesOtherEdits(w: World, v: nat, n: nat, k: string)
    requires Serial(w) && 1 <= v <= n < |w.how|
    requires w.how[v].FromEdit? && k in w.how[v].req.sets && k !in w.how[v].req.unset
    requires forall i :: v < i <= n ==>
      w.how[i].FromTouch? || (w.how[i].FromEdit? && w.how[i].readAt > v && !Mentions(w.how[i].req, k))
    ensures k in w.t.contents[n].base && w.t.contents[n].base[k] == w.how[v].req.sets[k]
    decreases n
  {
    assert Explained(w, n);
    if n > v {
      KeySurvivesOtherEdits(w, v, if w.how[n].FromTouch? then n - 1 else w.how[n].readAt - 1, k);
    }
  }

  predicate OverridesKey(c: Content, h: string, k: string, x: string) {
    h in c.overrides && k in c.overrides[h] && c.overrides[h][k] == x
  }

  lemma PatchOverride(c: Content, req: SetRequest, h: string, k: string, x: string)
    requires !(h in req.unsetHostOverrides && k in req.unsetHostOverrides[h])
    ensures h in req.hostOverrides && k in req.hostOverrides[h] && req.hostOverrides[h][k] == x ==>
              OverridesKey(Patch(c, req), h, k, x)
    ensures OverridesKey(c, h, k, x) && !MentionsAt(req, h, k) ==> OverridesKey(Patch(c, req), h, k, x)
  {
    var layered := WithOverrides(c.overrides, req.hostOverrides);
    if h in req.unsetHostOverrides && h in layered && k in layered[h] {
      assert k in Without(layered[h], req.unsetHostOverrides[h]);
    }
  }

  /** The same for a key of one host's overrides: such edits of the base, of other
      hosts and of other keys leave it alone, even where they empty a host. */
  lemma {:induction false} OverrideSurvivesOtherEdits(w: World, v: nat, n: nat, h: string, k: string)
    requires Serial(w) && 1 <= v <= n < |w.how|
    requires w.how[v].FromEdit?
    requires var req := w.how[v].req;
      && h in req.hostOverrides && k in req.hostOverrides[h]
      && !(h in req.unsetHostOverrides && k in req.unsetHostOverrides[h])
    requires forall i :: v < i <= n ==>
      w.how[i].FromTouch? || (w.how[i].FromEdit? && w.how[i].readAt > v && !MentionsAt(w.how[i].req, h, k))
    ensures OverridesKey(w.t.contents[n], h, k, w.how[v].req.hostOverrides[h][k])
    decreases n
  {
    hide Patch, OverridesKey, History;
    var x := w.how[v].req.hostOverrides[h][k];
    assert Explained(w, n);
    if n > v {
      OverrideSurvivesOtherEdits(w, v, if w.how[n].FromTouch? then n - 1 else w.how[n].readAt - 1, h, k);
    }
    if w.how[n].FromEdit? {
      PatchOverride(w.t.contents[w.how[n].readAt - 1], w.how[n].req, h, k, x);
    }
  }

  function Touches(n: nat): seq<Attempt> {
    seq(n, _ => Attempt(DoTouch, true))
  }

  lemma {:induction false} TouchesMoveVersionOnly(t: Traced, n: nat)
    ensures Run(t, Touches(n)).rec.version == t.rec.version + n
    ensures Run(t, Touches(n)).rec.content == t.rec.content && Run(t, Touches(n)).rec.hash == t.rec.hash
    ensures Run(t, Touches(n)).rec.ring == t.rec.ring
    decreases n
  {
    if n > 0 {
      assert Touches(n)[1..] == Touches(n - 1);
      TouchesMoveVersionOnly(Step(t, Touches(n)[0]), n - 1);
    }
  }

  /** The proviso is needed, for every record and however far ahead the guess: a
      caller that reads at version r with if_version r+gap, gap > 0, overwrites an
      edit of another key made in between, and both calls succeed. */
  lemma GuessedVersionLosesEdit(t: Traced, gap: nat, k: string, x: string, j: string, y: string)
    requires History(t) && gap > 0 && k != j
    requires !(k in t.rec.content.base && t.rec.content.base[k] == x)
    requires !(j in t.rec.content.base && t.rec.content.base[j] == y)
    ensures var r := t.rec.version;
            var early := SetRequest("", r + gap, map[j := y], [], map[], map[]);
            var other := SetRequest("", r, map[k := x], [], map[], map[]);
            var stale := Patch(t.rec.content, early);
            var t1 := Step(t, Attempt(DoApply(Change(r, "", Patch(t.rec.content, other))), true));
            var t2 := Run(t1, Touches(gap - 1));
            var t3 := Step(t2, Attempt(DoApply(Change(r + gap, "", stale)), true));
            && t1.rec.version == r + 1 && t1.rec.content.base[k] == x
            && t3.rec.version == r + gap + 1
            && t3.rec.content == stale
            && !(k in stale.base && stale.base[k] == x)
  {
    var r := t.rec.version;
    var early := SetRequest("", r + gap, map[j := y], [], map[], map[]);
    var other := SetRequest("", r, map[k := x], [], map[], map[]);
    var mine := Patch(t.rec.content, other);
    assert mine.base[k] == x;
    assert HashOf(mine).canonical.base != t.rec.content.base;
    hide Run, Touches;
    var t1 := Step(t, Attempt(DoApply(Change(r, "", mine)), true));
    TouchesMoveVersionOnly(t1, gap - 1);
    var stale := Patch(t.rec.content, early);
    assert stale.base[j] == y;
    assert HashOf(stale).canonical.base != mine.base;
  }
}

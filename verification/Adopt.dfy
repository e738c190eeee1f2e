/** Adopting an existing service into central env: the per-host diff, the request's
    imports, and the first record (cmd/dashboard/centralenv_adopt.go), with the
    origin's own share of its env (subtractImageEnv in cmd/dashboard/centralenv.go). */
module Adopt {
  import opened Common
  import opened EnvContent

  // ---- The origin's own share of its env ----

  function IndexOf(s: string, c: char): Option<nat> {
    if s == [] then None
    else if s[0] == c then Some(0)
    else
      match IndexOf(s[1..], c)
      case None => None
      case Some(i) => Some(i + 1)
  }

  lemma IndexInside(s: string, c: char)
    ensures IndexOf(s, c).Some? ==> IndexOf(s, c).value < |s|
  {
  }

  /** KEY=VALUE, split at the first '='; an entry without a key is no entry. */
  function SplitEnvEntry(s: string): Option<(string, string)> {
    IndexInside(s, '=');
    match IndexOf(s, '=')
    case None => None
    case Some(i) => if i == 0 then None else Some((s[..i], s[i + 1..]))
  }

  lemma {:induction false} FirstIndex(s: string, c: char, i: nat)
    ensures IndexOf(s, c) == Some(i) <==> i < |s| && s[i] == c && c !in s[..i]
    ensures IndexOf(s, c).None? <==> c !in s
  {
    IndexInside(s, c);
    if s != [] && s[0] != c {
      assert s == [s[0]] + s[1..];
      if i > 0 {
        FirstIndex(s[1..], c, i - 1);
        assert i <= |s| ==> s[..i] == [s[0]] + s[1..][..i - 1];
      } else {
        FirstIndex(s[1..], c, 0);
      }
    }
  }

  /** An entry is a key without '=', that sign, and anything. */
  lemma SplitExactly(s: string, k: string, v: string)
    ensures SplitEnvEntry(s) == Some((k, v)) <==> k != "" && '=' !in k && s == k + "=" + v
  {
    if s == k + "=" + v {
      assert s[..|k|] == k && s[|k| + 1..] == v && s[|k|] == '=';
    }
    FirstIndex(s, '=', |k|);
    var at := IndexOf(s, '=');
    if at.Some? {
      FirstIndex(s, '=', at.value);
      assert s == s[..at.value] + "=" + s[at.value + 1..];
    }
  }

  /** A key is accepted exactly when every entry made of it splits back into it and
      its value, and it holds no NUL; content, exactly when all its keys are and no
      override is for a blank host. */
  lemma ValidKeysSplitBack(k: string)
    ensures ValidEnvKey(k) <==> '\0' !in k && forall v :: SplitEnvEntry(k + "=" + v) == Some((k, v))
  {
    forall v ensures SplitEnvEntry(k + "=" + v) == Some((k, v)) <==> k != "" && '=' !in k {
      SplitExactly(k + "=" + v, k, v);
    }
    assert SplitEnvEntry(k + "=" + "") == Some((k, "")) <==> k != "" && '=' !in k;
  }

  lemma ValidContentExactly(c: Content)
    ensures ValidContent(c) <==>
            && (forall k :: k in c.base ==> ValidEnvKey(k))
            && (forall h :: h in c.overrides ==> exists x :: x in h && !IsSpace(x))
            && (forall h, k :: h in c.overrides && k in c.overrides[h] ==> ValidEnvKey(k))
    ensures ValidContent(c) ==>
              forall host, k, v, w :: Layer(c, host, k, v) ==> SplitEnvEntry(k + "=" + w) == Some((k, w))
  {
    forall h ensures Blank(h) <==> forall x :: x in h ==> IsSpace(x) {
      assert forall i :: 0 <= i < |h| ==> h[i] in h;
    }
    forall k ensures ValidEnvKey(k) ==> forall w :: SplitEnvEntry(k + "=" + w) == Some((k, w)) {
      ValidKeysSplitBack(k);
    }
  }

  /** What a process sees of a list of entries: the last one of a key wins. */
  function Seen(entries: seq<string>): EnvMap {
    if entries == [] then map[]
    else
      var before := Seen(entries[..|entries| - 1]);
      match SplitEnvEntry(entries[|entries| - 1])
      case None => before
      case Some((k, v)) => before[k := v]
  }

  /** That is, for each key, the last entry that has it. */
  lemma {:induction false} SeenIsLast(entries: seq<string>, k: string, v: string)
    ensures (k in Seen(entries) && Seen(entries)[k] == v) <==>
            exists i :: 0 <= i < |entries| && IsLastOf(entries, i, k, v)
  {
    if entries != [] {
      var n := |entries| - 1;
      SeenIsLast(entries[..n], k, v);
      if SplitEnvEntry(entries[n]).Some? && SplitEnvEntry(entries[n]).value.0 == k {
        assert forall i :: 0 <= i < n ==> !IsLastOf(entries, i, k, v);
        assert IsLastOf(entries, n, k, v) <==> SplitEnvEntry(entries[n]).value.1 == v;
      } else {
        assert !IsLastOf(entries, n, k, v);
        forall i | 0 <= i < n ensures IsLastOf(entries, i, k, v) <==> IsLastOf(entries[..n], i, k, v) {
        }
      }
    }
  }

  predicate IsLastOf(entries: seq<string>, i: int, k: string, v: string)
    requires 0 <= i < |entries|
  {
    && SplitEnvEntry(entries[i]) == Some((k, v))
    && forall j :: i < j < |entries| ==> SplitEnvEntry(entries[j]).None? || SplitEnvEntry(entries[j]).value.0 != k
  }

  lemma SeenNext(entries: seq<string>, i: nat)
    requires i < |entries|
    ensures Seen(entries[..i + 1]) ==
            match SplitEnvEntry(entries[i])
            case None => Seen(entries[..i])
            case Some((k, v)) => Seen(entries[..i])[k := v]
  {
    assert entries[..i + 1][..i] == entries[..i];
  }

  /** What env sets beyond img. */
  function Beyond(env: EnvMap, img: EnvMap): EnvMap {
    map k | k in env && !(k in img && img[k] == env[k]) :: env[k]
  }

  method SubtractImageEnv(containerEnv: seq<string>, imageEnv: seq<string>) returns (out: EnvMap)
    ensures out == Beyond(Seen(containerEnv), Seen(imageEnv))
  {
    var img: EnvMap := map[];
    for i := 0 to |imageEnv|
      invariant img == Seen(imageEnv[..i])
    {
      SeenNext(imageEnv, i);
      var e := SplitEnvEntry(imageEnv[i]);
      if e.Some? {
        img := img[e.value.0 := e.value.1];
      }
    }
    assert imageEnv[..|imageEnv|] == imageEnv;
    out := map[];
    for i := 0 to |containerEnv|
      invariant out == Beyond(Seen(containerEnv[..i]), img)
    {
      SeenNext(containerEnv, i);
      var e := SplitEnvEntry(containerEnv[i]);
      if e.Some? {
        var (k, v) := e.value;
        if k in img && img[k] == v {
          out := out - {k};
        } else {
          out := out[k := v];
        }
      }
    }
    assert containerEnv[..|containerEnv|] == containerEnv;
  }

  /** The image's env overlaid with the subtracted one is the container's env,
      duplicates included, exactly when the container still has every key of the
      image. */
  lemma OverlayGivesBackExactly(containerEnv: seq<string>, imageEnv: seq<string>)
    ensures Seen(imageEnv) + Beyond(Seen(containerEnv), Seen(imageEnv)) == Seen(containerEnv)
       <==> Seen(imageEnv).Keys <= Seen(containerEnv).Keys
  {
    var env, img := Seen(containerEnv), Seen(imageEnv);
    if img + Beyond(env, img) == env {
      forall k | k in img ensures k in env {
        assert k in img + Beyond(env, img);
      }
    }
  }

  // ---- Facts, request, report ----

  /** The salted hash of a value, injective. */
  datatype KeyHash = KeyHash(value: string)

  datatype ImportAs = AsBase | AsOverride | AsOther

  datatype Import = Import(mode: ImportAs, keys: seq<string>)

  /** peers: what each peer running the service answered, hashes only. */
  datatype Plan = Plan(originEnv: EnvMap, peers: map<string, map<string, KeyHash>>)

  datatype Request = Request(imports: map<string, Import>, acceptDropped: seq<string>)

  datatype Blocker =
    | NotAPeer(host: string)
    | BadMode(host: string)
    | NoSuchKey(host: string, key: string)
    | OriginHasKey(host: string, key: string)
    | ValuesDiffer(key: string, source: string, host: string)

  datatype HostDiff = HostDiff(peerOnly: set<string>, originOnly: set<string>, differs: set<string>)

  predicate Imports(req: Request, host: string, mode: ImportAs, key: string) {
    host in req.imports && req.imports[host].mode == mode && key in req.imports[host].keys
  }

  /** An import the preflight has nothing against, on its own. */
  predicate GoodImport(plan: Plan, req: Request, host: string) {
    && host in plan.peers && host in req.imports
    && !req.imports[host].mode.AsOther?
    && forall k :: k in req.imports[host].keys ==>
         k in plan.peers[host] && (req.imports[host].mode.AsBase? ==> k !in plan.originEnv)
  }

  /** ... and together: base imports of one key agree on its value. */
  ghost predicate GoodImports(plan: Plan, req: Request) {
    && (forall h :: h in req.imports ==> GoodImport(plan, req, h))
    && (forall g, h, k :: Imports(req, g, AsBase, k) && Imports(req, h, AsBase, k) ==> plan.peers[g][k] == plan.peers[h][k])
  }

  ghost predicate IsOrder(order: seq<string>, hosts: set<string>) {
    && (forall h :: h in order <==> h in hosts)
    && forall i, j :: 0 <= i < j < |order| ==> order[i] != order[j]
  }

  /** What the first pass over the imports has collected so far. */
  datatype Collected = Collected(baseFrom: map<string, string>, overrideKeys: map<string, set<string>>, blockers: seq<Blocker>)

  function OverrideKeysOf(c: Collected, host: string): set<string> {
    if host in c.overrideKeys then c.overrideKeys[host] else {}
  }

  /** One key of one import. */
  function CollectKey(plan: Plan, c: Collected, host: string, mode: ImportAs, k: string): Collected
    requires host in plan.peers
  {
    if k !in plan.peers[host] then c.(blockers := c.blockers + [NoSuchKey(host, k)])
    else if mode.AsBase? && k in plan.originEnv then c.(blockers := c.blockers + [OriginHasKey(host, k)])
    else if mode.AsBase? then
      if k !in c.baseFrom then c.(baseFrom := c.baseFrom[k := host])
      else if c.baseFrom[k] in plan.peers && k in plan.peers[c.baseFrom[k]] && plan.peers[c.baseFrom[k]][k] != plan.peers[host][k]
      then c.(blockers := c.blockers + [ValuesDiffer(k, c.baseFrom[k], host)])
      else c
    else c.(overrideKeys := c.overrideKeys[host := OverrideKeysOf(c, host) + {k}])
  }

  /** Keys of imports that passed their checks. */
  ghost predicate Passed(plan: Plan, req: Request, done: set<(string, string)>) {
    forall h, k :: (h, k) in done ==>
      && h in req.imports && k in req.imports[h].keys && h in plan.peers && k in plan.peers[h]
      && !req.imports[h].mode.AsOther? && (req.imports[h].mode.AsBase? ==> k !in plan.originEnv)
  }

  ghost predicate BaseCollected(plan: Plan, req: Request, baseFrom: map<string, string>, done: set<(string, string)>) {
    && (forall k :: k in baseFrom ==>
          (baseFrom[k], k) in done && Imports(req, baseFrom[k], AsBase, k)
          && baseFrom[k] in plan.peers && k in plan.peers[baseFrom[k]])
    && (forall h, k :: (h, k) in done && Imports(req, h, AsBase, k) && h in plan.peers && k in plan.peers[h] ==>
          k in baseFrom && plan.peers[baseFrom[k]][k] == plan.peers[h][k])
  }

  ghost predicate OverridesCollected(req: Request, overrideKeys: map<string, set<string>>, done: set<(string, string)>) {
    forall h, k :: (h in overrideKeys && k in overrideKeys[h]) <==> ((h, k) in done && Imports(req, h, AsOverride, k))
  }

  /** As long as nothing is blocked: what was collected from the imports done so
      far (their hosts, and some keys of the current one) is what they ask for. */
  ghost predicate Faithful(plan: Plan, req: Request, c: Collected, done: set<(string, string)>) {
    && Passed(plan, req, done)
    && BaseCollected(plan, req, c.baseFrom, done)
    && OverridesCollected(req, c.overrideKeys, done)
  }

  lemma PassedNext(plan: Plan, req: Request, done: set<(string, string)>, host: string, k: string)
    requires Passed(plan, req, done)
    requires host in req.imports && k in req.imports[host].keys && host in plan.peers && k in plan.peers[host]
    requires !req.imports[host].mode.AsOther? && (req.imports[host].mode.AsBase? ==> k !in plan.originEnv)
    ensures Passed(plan, req, done + {(host, k)})
  {
  }

  lemma OverrideFaithful(plan: Plan, req: Request, c: Collected, done: set<(string, string)>, host: string, k: string)
    requires Faithful(plan, req, c, done) && Imports(req, host, AsOverride, k) && host in plan.peers && k in plan.peers[host]
    ensures Faithful(plan, req, c.(overrideKeys := c.overrideKeys[host := OverrideKeysOf(c, host) + {k}]), done + {(host, k)})
  {
    PassedNext(plan, req, done, host, k);
    var keys := c.overrideKeys[host := OverrideKeysOf(c, host) + {k}];
    forall h, j ensures (h in keys && j in keys[h]) <==> ((h, j) in done + {(host, k)} && Imports(req, h, AsOverride, j)) {
      assert (h, j) in done + {(host, k)} <==> (h, j) in done || (h, j) == (host, k);
    }
    forall h, j | (h, j) in done + {(host, k)} && Imports(req, h, AsBase, j) ensures (h, j) in done {
    }
    assert BaseCollected(plan, req, c.baseFrom, done + {(host, k)});
  }

  lemma BaseFaithful(plan: Plan, req: Request, c: Collected, done: set<(string, string)>, host: string, k: string)
    requires Faithful(plan, req, c, done) && Imports(req, host, AsBase, k)
    requires host in plan.peers && k in plan.peers[host] && k !in plan.originEnv
    requires k in c.baseFrom ==> plan.peers[c.baseFrom[k]][k] == plan.peers[host][k]
    ensures Faithful(plan, req, if k in c.baseFrom then c else c.(baseFrom := c.baseFrom[k := host]), done + {(host, k)})
  {
    PassedNext(plan, req, done, host, k);
    BaseCollectedNext(plan, req, c.baseFrom, done, host, k);
    forall h, j ensures (h, j) in done + {(host, k)} && Imports(req, h, AsOverride, j) <==> (h, j) in done && Imports(req, h, AsOverride, j) {
    }
    assert OverridesCollected(req, c.overrideKeys, done + {(host, k)});
  }

  lemma BaseCollectedNext(plan: Plan, req: Request, baseFrom: map<string, string>, done: set<(string, string)>,
                          host: string, k: string)
    requires BaseCollected(plan, req, baseFrom, done) && Imports(req, host, AsBase, k)
    requires host in plan.peers && k in plan.peers[host]
    requires k in baseFrom ==> plan.peers[baseFrom[k]][k] == plan.peers[host][k]
    ensures BaseCollected(plan, req, if k in baseFrom then baseFrom else baseFrom[k := host], done + {(host, k)})
  {
    var next := if k in baseFrom then baseFrom else baseFrom[k := host];
    forall h, j | (h, j) in done + {(host, k)} && Imports(req, h, AsBase, j) && h in plan.peers && j in plan.peers[h]
      ensures j in next && next[j] in plan.peers && j in plan.peers[next[j]] && plan.peers[next[j]][j] == plan.peers[h][j] {
      assert (h, j) in done || (h, j) == (host, k);
    }
  }

  lemma CollectKeyFaithful(plan: Plan, req: Request, c: Collected, done: set<(string, string)>, host: string, k: string)
    requires Faithful(plan, req, c, done)
    requires host in req.imports && host in plan.peers && !req.imports[host].mode.AsOther? && k in req.imports[host].keys
    requires CollectKey(plan, c, host, req.imports[host].mode, k).blockers == c.blockers
    ensures Faithful(plan, req, CollectKey(plan, c, host, req.imports[host].mode, k), done + {(host, k)})
  {
    FaithfulSources(plan, req, c, done);
    hide Faithful;
    assert k in plan.peers[host];
    if req.imports[host].mode.AsBase? {
      BaseFaithful(plan, req, c, done, host, k);
    } else {
      OverrideFaithful(plan, req, c, done, host, k);
    }
  }

  lemma FaithfulSources(plan: Plan, req: Request, c: Collected, done: set<(string, string)>)
    requires Faithful(plan, req, c, done)
    ensures forall k :: k in c.baseFrom ==>
              c.baseFrom[k] in plan.peers && k in plan.peers[c.baseFrom[k]] && Imports(req, c.baseFrom[k], AsBase, k)
  {
  }

  /** A blocked key speaks against the imports. */
  lemma BlockedKeyIsBad(plan: Plan, req: Request, c: Collected, done: set<(string, string)>, host: string, k: string)
    requires Faithful(plan, req, c, done)
    requires host in req.imports && host in plan.peers && !req.imports[host].mode.AsOther? && k in req.imports[host].keys
    requires CollectKey(plan, c, host, req.imports[host].mode, k).blockers != c.blockers
    ensures !GoodImports(plan, req)
  {
    FaithfulSources(plan, req, c, done);
    if k in plan.peers[host] && (req.imports[host].mode.AsBase? ==> k !in plan.originEnv) {
      var source := c.baseFrom[k];
      assert Imports(req, source, AsBase, k) && Imports(req, host, AsBase, k);
      assert plan.peers[source][k] != plan.peers[host][k];
    } else {
      assert !GoodImport(plan, req, host);
    }
  }

  lemma FaithfulToAll(plan: Plan, req: Request, c: Collected, done: set<(string, string)>)
    requires Faithful(plan, req, c, done)
    requires forall h, k :: h in req.imports && k in req.imports[h].keys ==> (h, k) in done
    requires forall h :: h in req.imports ==> h in plan.peers && !req.imports[h].mode.AsOther?
    ensures GoodImports(plan, req)
    ensures forall k :: k in c.baseFrom <==> exists h :: Imports(req, h, AsBase, k)
    ensures forall k :: k in c.baseFrom ==> Imports(req, c.baseFrom[k], AsBase, k)
    ensures forall h, k :: k in OverrideKeysOf(c, h) <==> Imports(req, h, AsOverride, k)
  {
    forall h, k ensures k in OverrideKeysOf(c, h) <==> Imports(req, h, AsOverride, k) {
      assert Imports(req, h, AsOverride, k) ==> (h, k) in done;
    }
    forall h | h in req.imports ensures GoodImport(plan, req, h) {
      forall k | k in req.imports[h].keys ensures k in plan.peers[h] && (req.imports[h].mode.AsBase? ==> k !in plan.originEnv) {
        assert (h, k) in done;
      }
    }
    forall g, h, k | Imports(req, g, AsBase, k) && Imports(req, h, AsBase, k) ensures plan.peers[g][k] == plan.peers[h][k] {
      assert (g, k) in done && (h, k) in done;
    }
    forall h, k | Imports(req, h, AsBase, k) ensures k in c.baseFrom {
      assert (h, k) in done;
    }
  }

  /** The first pass: base imports with the host each comes from, override imports,
      and a blocker exactly when something is wrong with the imports. */
  method CollectImports(plan: Plan, req: Request, order: seq<string>) returns (c: Collected)
    requires IsOrder(order, req.imports.Keys)
    ensures c.blockers == [] <==> GoodImports(plan, req)
    ensures c.blockers == [] ==>
              && (forall k :: k in c.baseFrom <==> exists h :: Imports(req, h, AsBase, k))
              && (forall k :: k in c.baseFrom ==> Imports(req, c.baseFrom[k], AsBase, k))
              && (forall h, k :: k in OverrideKeysOf(c, h) <==> Imports(req, h, AsOverride, k))
  {
    hide Faithful, GoodImports, CollectKey;
    c := Collected(map[], map[], []);
    ghost var done: set<(string, string)> := {};
    NothingCollected(plan, req);
    for i := 0 to |order|
      invariant c.blockers == [] ==> Faithful(plan, req, c, done)
      invariant c.blockers == [] ==>
                  forall j :: 0 <= j < i ==>
                    && order[j] in plan.peers && !req.imports[order[j]].mode.AsOther?
                    && forall k :: k in req.imports[order[j]].keys ==> (order[j], k) in done
      invariant c.blockers != [] ==> !GoodImports(plan, req)
    {
      var h := order[i];
      assert h in req.imports;
      var imp := req.imports[h];
      if h !in plan.peers {
        c := c.(blockers := c.blockers + [NotAPeer(h)]);
        BadImport(plan, req, h);
      } else if imp.mode.AsOther? {
        c := c.(blockers := c.blockers + [BadMode(h)]);
        BadImport(plan, req, h);
      } else {
        for n := 0 to |imp.keys|
          invariant c.blockers == [] ==> Faithful(plan, req, c, done)
          invariant c.blockers == [] ==>
                      && (forall j :: 0 <= j < i ==>
                            && order[j] in plan.peers && !req.imports[order[j]].mode.AsOther?
                            && forall k :: k in req.imports[order[j]].keys ==> (order[j], k) in done)
                      && forall k :: k in imp.keys[..n] ==> (h, k) in done
          invariant c.blockers != [] ==> !GoodImports(plan, req)
        {
          var next := CollectKey(plan, c, h, imp.mode, imp.keys[n]);
          BlockersGrow(plan, c, h, imp.mode, imp.keys[n]);
          assert imp.keys[..n + 1] == imp.keys[..n] + [imp.keys[n]];
          if c.blockers == [] {
            if next.blockers == [] {
              CollectKeyFaithful(plan, req, c, done, h, imp.keys[n]);
              done := done + {(h, imp.keys[n])};
            } else {
              BlockedKeyIsBad(plan, req, c, done, h, imp.keys[n]);
            }
          }
          c := next;
        }
        assert imp.keys[..|imp.keys|] == imp.keys;
      }
    }
    if c.blockers == [] {
      FaithfulToAll(plan, req, c, done);
    }
  }

  lemma NothingCollected(plan: Plan, req: Request)
    ensures Faithful(plan, req, Collected(map[], map[], []), {})
  {
  }

  lemma BadImport(plan: Plan, req: Request, h: string)
    requires h in req.imports && (h !in plan.peers || req.imports[h].mode.AsOther?)
    ensures !GoodImports(plan, req)
  {
    assert !GoodImport(plan, req, h);
  }

  lemma BlockersGrow(plan: Plan, c: Collected, host: string, mode: ImportAs, k: string)
    requires host in plan.peers
    ensures c.blockers <= CollectKey(plan, c, host, mode, k).blockers
  {
  }

  // ---- The diff ----

  function DiffOf(originEnv: EnvMap, keys: map<string, KeyHash>): HostDiff {
    HostDiff(set k | k in keys && k !in originEnv,
             set k | k in originEnv && k !in keys,
             set k | k in keys && k in originEnv && keys[k] != KeyHash(originEnv[k]))
  }

  /** The keys of a peer that would be dropped without anyone having said so. */
  function UnresolvedOf(peerOnly: set<string>, c: Collected, host: string, accepted: seq<string>): set<string> {
    set k | k in peerOnly && k !in OverrideKeysOf(c, host) && k !in c.baseFrom && k !in accepted
  }

  method DiffHost(originEnv: EnvMap, keys: map<string, KeyHash>) returns (d: HostDiff)
    ensures d == DiffOf(originEnv, keys)
  {
    d := HostDiff({}, {}, {});
    var rest := keys.Keys;
    while rest != {}
      invariant rest <= keys.Keys && d.originOnly == {}
      invariant d.peerOnly == set k | k in keys && k !in rest && k !in originEnv
      invariant d.differs == set k | k in keys && k !in rest && k in originEnv && keys[k] != KeyHash(originEnv[k])
      decreases rest
    {
      var k :| k in rest;
      if k !in originEnv {
        d := d.(peerOnly := d.peerOnly + {k});
      } else if keys[k] != KeyHash(originEnv[k]) {
        d := d.(differs := d.differs + {k});
      }
      rest := rest - {k};
    }
    rest := originEnv.Keys;
    while rest != {}
      invariant rest <= originEnv.Keys
      invariant d.peerOnly == DiffOf(originEnv, keys).peerOnly && d.differs == DiffOf(originEnv, keys).differs
      invariant d.originOnly == set k | k in originEnv && k !in rest && k !in keys
      decreases rest
    {
      var k :| k in rest;
      if k !in keys {
        d := d.(originOnly := d.originOnly + {k});
      }
      rest := rest - {k};
    }
  }

  /** The whole diff: blockers, and per host what differs and what is unresolved. */
  method AdoptEnvDiff(plan: Plan, req: Request, order: seq<string>)
    returns (blockers: seq<Blocker>, diffs: map<string, HostDiff>, unresolved: map<string, set<string>>)
    requires IsOrder(order, req.imports.Keys)
    ensures blockers == [] <==> GoodImports(plan, req)
    ensures diffs == map h | h in plan.peers :: DiffOf(plan.originEnv, plan.peers[h])
    ensures unresolved.Keys == plan.peers.Keys
    ensures blockers == [] ==> forall h, k :: h in plan.peers ==> (k in unresolved[h] <==> IsUnresolved(plan, req, h, k))
  {
    hide GoodImports, DiffOf, UnresolvedOf;
    var c := CollectImports(plan, req, order);
    diffs, unresolved := map[], map[];
    var rest := plan.peers.Keys;
    while rest != {}
      invariant rest <= plan.peers.Keys
      invariant diffs == map h | h in plan.peers && h !in rest :: DiffOf(plan.originEnv, plan.peers[h])
      invariant unresolved.Keys == plan.peers.Keys - rest
      invariant forall h :: h in unresolved ==>
                  unresolved[h] == UnresolvedOf(DiffOf(plan.originEnv, plan.peers[h]).peerOnly, c, h, req.acceptDropped)
      decreases rest
    {
      var h :| h in rest;
      var d := DiffHost(plan.originEnv, plan.peers[h]);
      diffs := diffs[h := d];
      unresolved := unresolved[h := UnresolvedOf(d.peerOnly, c, h, req.acceptDropped)];
      rest := rest - {h};
    }
    if c.blockers == [] {
      forall h, k | h in plan.peers ensures k in unresolved[h] <==> IsUnresolved(plan, req, h, k) {
        UnresolvedMeans(plan, req, c, h, k);
      }
    }
    return c.blockers, diffs, unresolved;
  }

  /** A key of h nobody imports or accepts to lose. */
  ghost predicate IsUnresolved(plan: Plan, req: Request, h: string, k: string)
    requires h in plan.peers
  {
    && k in plan.peers[h] && k !in plan.originEnv && k !in req.acceptDropped
    && !Imports(req, h, AsOverride, k) && !exists g :: Imports(req, g, AsBase, k)
  }

  lemma UnresolvedMeans(plan: Plan, req: Request, c: Collected, h: string, k: string)
    requires h in plan.peers
    requires k in c.baseFrom <==> exists g :: Imports(req, g, AsBase, k)
    requires k in OverrideKeysOf(c, h) <==> Imports(req, h, AsOverride, k)
    ensures k in UnresolvedOf(DiffOf(plan.originEnv, plan.peers[h]).peerOnly, c, h, req.acceptDropped)
       <==> IsUnresolved(plan, req, h, k)
  {
  }

  // ---- The record ----

  /** The first key of an import whose value is gone or changed since the check. */
  datatype BuildError = Changed(host: string, key: string)

  predicate Unchanged(plan: Plan, req: Request, fetched: map<string, EnvMap>, h: string, k: string) {
    h in plan.peers && k in plan.peers[h] && h in fetched && k in fetched[h] && KeyHash(fetched[h][k]) == plan.peers[h][k]
  }

  ghost predicate StillThere(plan: Plan, req: Request, fetched: map<string, EnvMap>, done: set<(string, string)>) {
    forall h, k :: (h, k) in done ==> h in req.imports && k in req.imports[h].keys && Unchanged(plan, req, fetched, h, k)
  }

  ghost predicate BaseBuilt(originEnv: EnvMap, req: Request, fetched: map<string, EnvMap>, base: EnvMap,
                            done: set<(string, string)>) {
    && (forall k :: k in originEnv ==> k in base && base[k] == originEnv[k])
    && (forall k :: k in base && k !in originEnv ==> exists h :: FromBase(req, fetched, done, h, k, base[k]))
    && (forall h, k :: (h, k) in done && Imports(req, h, AsBase, k) ==> k in base)
  }

  /** Value v of key k was imported as base from h. */
  ghost predicate FromBase(req: Request, fetched: map<string, EnvMap>, done: set<(string, string)>, h: string, k: string, v: string) {
    (h, k) in done && Imports(req, h, AsBase, k) && h in fetched && k in fetched[h] && v == fetched[h][k]
  }

  ghost predicate OverridesBuilt(req: Request, fetched: map<string, EnvMap>, overrides: map<string, EnvMap>,
                                 done: set<(string, string)>) {
    && (forall h, k :: (h in overrides && k in overrides[h]) <==>
                       ((h, k) in done && h in req.imports && !req.imports[h].mode.AsBase?))
    && (forall h, k :: h in overrides && k in overrides[h] ==> h in fetched && k in fetched[h] && overrides[h][k] == fetched[h][k])
  }

  /** The content built from the imports done so far. */
  ghost predicate BuiltFrom(plan: Plan, req: Request, fetched: map<string, EnvMap>, content: Content, done: set<(string, string)>) {
    && StillThere(plan, req, fetched, done)
    && BaseBuilt(plan.originEnv, req, fetched, content.base, done)
    && OverridesBuilt(req, fetched, content.overrides, done)
  }

  function WithImport(content: Content, mode: ImportAs, h: string, k: string, v: string): Content {
    if mode.AsBase? then if k in content.base then content else content.(base := content.base[k := v])
    else content.(overrides := content.overrides[h := OverridesFor(content, h)[k := v]])
  }

  lemma StillThereNext(plan: Plan, req: Request, fetched: map<string, EnvMap>, done: set<(string, string)>, h: string, k: string)
    requires StillThere(plan, req, fetched, done)
    requires h in req.imports && k in req.imports[h].keys && Unchanged(plan, req, fetched, h, k)
    ensures StillThere(plan, req, fetched, done + {(h, k)})
  {
  }

  /** More done imports, the same base: fine unless one of them was to add to it. */
  lemma BaseStaysBuilt(originEnv: EnvMap, req: Request, fetched: map<string, EnvMap>, base: EnvMap,
                       done: set<(string, string)>, h: string, k: string)
    requires BaseBuilt(originEnv, req, fetched, base, done) && (Imports(req, h, AsBase, k) ==> k in base)
    ensures BaseBuilt(originEnv, req, fetched, base, done + {(h, k)})
  {
    forall j | j in base && j !in originEnv ensures exists g :: FromBase(req, fetched, done + {(h, k)}, g, j, base[j]) {
      var g :| FromBase(req, fetched, done, g, j, base[j]);
      assert FromBase(req, fetched, done + {(h, k)}, g, j, base[j]);
    }
    forall g, j | (g, j) in done + {(h, k)} && Imports(req, g, AsBase, j) ensures j in base {
      assert (g, j) in done || (g, j) == (h, k);
    }
  }

  lemma BaseGrows(originEnv: EnvMap, req: Request, fetched: map<string, EnvMap>, base: EnvMap,
                  done: set<(string, string)>, h: string, k: string)
    requires BaseBuilt(originEnv, req, fetched, base, done)
    requires k !in base && h in fetched && k in fetched[h] && Imports(req, h, AsBase, k)
    ensures BaseBuilt(originEnv, req, fetched, base[k := fetched[h][k]], done + {(h, k)})
  {
    var next := base[k := fetched[h][k]];
    forall j | j in next && j !in originEnv ensures exists g :: FromBase(req, fetched, done + {(h, k)}, g, j, next[j]) {
      if j == k {
        assert FromBase(req, fetched, done + {(h, k)}, h, j, next[j]);
      } else {
        var g :| FromBase(req, fetched, done, g, j, base[j]);
        assert FromBase(req, fetched, done + {(h, k)}, g, j, next[j]);
      }
    }
    forall g, j | (g, j) in done + {(h, k)} && Imports(req, g, AsBase, j) ensures j in next {
      assert (g, j) in done || (g, j) == (h, k);
    }
  }

  lemma OverridesNext(req: Request, fetched: map<string, EnvMap>, content: Content, done: set<(string, string)>,
                      h: string, k: string)
    requires OverridesBuilt(req, fetched, content.overrides, done)
    requires h in req.imports && h in fetched && k in fetched[h]
    ensures OverridesBuilt(req, fetched, WithImport(content, req.imports[h].mode, h, k, fetched[h][k]).overrides, done + {(h, k)})
  {
    var next := WithImport(content, req.imports[h].mode, h, k, fetched[h][k]).overrides;
    forall g, j ensures (g in next && j in next[g]) <==>
                        ((g, j) in done + {(h, k)} && g in req.imports && !req.imports[g].mode.AsBase?) {
      assert (g, j) in done + {(h, k)} <==> (g, j) in done || (g, j) == (h, k);
    }
  }

  lemma ImportBuilds(plan: Plan, req: Request, fetched: map<string, EnvMap>, content: Content, done: set<(string, string)>,
                     h: string, k: string)
    requires BuiltFrom(plan, req, fetched, content, done)
    requires h in req.imports && k in req.imports[h].keys && Unchanged(plan, req, fetched, h, k)
    ensures BuiltFrom(plan, req, fetched, WithImport(content, req.imports[h].mode, h, k, fetched[h][k]), done + {(h, k)})
  {
    hide StillThere, BaseBuilt, OverridesBuilt;
    StillThereNext(plan, req, fetched, done, h, k);
    OverridesNext(req, fetched, content, done, h, k);
    if req.imports[h].mode.AsBase? && k !in content.base {
      BaseGrows(plan.originEnv, req, fetched, content.base, done, h, k);
    } else {
      BaseStaysBuilt(plan.originEnv, req, fetched, content.base, done, h, k);
    }
  }

  ghost predicate AllDone(req: Request, done: set<(string, string)>) {
    forall h, k :: h in req.imports && k in req.imports[h].keys ==> (h, k) in done
  }

  /** The first record: fetched is what each peer answers now. It fails exactly
      when an imported value is gone or changed since the preflight. */
  method AdoptBuildRecord(plan: Plan, req: Request, fetched: map<string, EnvMap>, order: seq<string>)
    returns (r: Result<Content, BuildError>, ghost done: set<(string, string)>)
    requires IsOrder(order, req.imports.Keys)
    ensures r.Ok? <==> forall h, k :: h in req.imports && k in req.imports[h].keys ==> Unchanged(plan, req, fetched, h, k)
    ensures r.Ok? ==> AllDone(req, done) && BuiltFrom(plan, req, fetched, r.value, done)
    ensures r.Err? ==>
              && r.error.host in req.imports && r.error.key in req.imports[r.error.host].keys
              && !Unchanged(plan, req, fetched, r.error.host, r.error.key)
  {
    hide BuiltFrom, WithImport;
    done := {};
    var content := Content(plan.originEnv, map[]);
    NothingImported(plan, req, fetched);
    for i := 0 to |order|
      invariant BuiltFrom(plan, req, fetched, content, done)
      invariant forall j, k :: 0 <= j < i && k in req.imports[order[j]].keys ==>
                  (order[j], k) in done && Unchanged(plan, req, fetched, order[j], k)
    {
      var h := order[i];
      assert h in req.imports;
      var imp := req.imports[h];
      for n := 0 to |imp.keys|
        invariant BuiltFrom(plan, req, fetched, content, done)
        invariant forall j, k :: 0 <= j < i && k in req.imports[order[j]].keys ==>
                    (order[j], k) in done && Unchanged(plan, req, fetched, order[j], k)
        invariant forall k :: k in imp.keys[..n] ==> (h, k) in done && Unchanged(plan, req, fetched, h, k)
      {
        var k := imp.keys[n];
        if !Unchanged(plan, req, fetched, h, k) {
          return Err(Changed(h, k)), done;
        }
        ImportBuilds(plan, req, fetched, content, done, h, k);
        assert imp.keys[..n + 1] == imp.keys[..n] + [k];
        content := WithImport(content, imp.mode, h, k, fetched[h][k]);
        done := done + {(h, k)};
      }
      assert imp.keys[..|imp.keys|] == imp.keys;
    }
    return Ok(content), done;
  }

  lemma NothingImported(plan: Plan, req: Request, fetched: map<string, EnvMap>)
    ensures BuiltFrom(plan, req, fetched, Content(plan.originEnv, map[]), {})
  {
  }

  // ---- Nothing is lost silently ----

  /** The preflight's answers describe the live envs. */
  ghost predicate Describes(plan: Plan, live: map<string, EnvMap>) {
    && plan.peers.Keys == live.Keys
    && forall h :: h in live ==> plan.peers[h] == map k | k in live[h] :: KeyHash(live[h][k])
  }

  ghost predicate NothingUnresolved(plan: Plan, req: Request) {
    forall h, k :: h in plan.peers ==> !IsUnresolved(plan, req, h, k)
  }

  ghost predicate NoRefs(plan: Plan, live: map<string, EnvMap>) {
    && (forall k :: k in plan.originEnv ==> !IsRef(plan.originEnv[k]))
    && forall h, k :: h in live && k in live[h] ==> !IsRef(live[h][k])
  }

  lemma LiveValue(plan: Plan, req: Request, live: map<string, EnvMap>, fetched: map<string, EnvMap>, h: string, k: string)
    requires Describes(plan, live) && Unchanged(plan, req, fetched, h, k)
    ensures h in live && k in live[h] && fetched[h][k] == live[h][k]
  {
    assert plan.peers[h][k] == KeyHash(live[h][k]);
  }

  /** A merged value is the origin's or a live one, so nothing reads as a secret
      reference. */
  lemma MergedIsEffective(plan: Plan, req: Request, live: map<string, EnvMap>, fetched: map<string, EnvMap>,
                          content: Content, done: set<(string, string)>, h: string, secrets: EnvMap)
    requires Describes(plan, live) && NoRefs(plan, live) && BuiltFrom(plan, req, fetched, content, done)
    ensures EffectiveEnv(content, h, secrets) == Some(Merged(content, h))
  {
    var m := Merged(content, h);
    forall k | k in m ensures !IsRef(m[k]) {
      if k in OverridesFor(content, h) {
        LiveValue(plan, req, live, fetched, h, k);
      } else if k !in plan.originEnv {
        var g :| FromBase(req, fetched, done, g, k, content.base[k]);
        LiveValue(plan, req, live, fetched, g, k);
      }
    }
    assert m == map k | k in m :: ResolveValue(m[k], secrets);
  }

  /** Adopt loses nothing silently. If the preflight found nothing wrong and nothing
      unresolved and the record was built, then on every peer each live key is in
      the effective env or was accepted as dropped; a host that imported a key as
      override keeps its own value; a key imported as base has its source's value
      there; every other host, the origin included, has the origin's value for each
      of the origin's keys. */
  lemma AdoptLosesNothing(plan: Plan, req: Request, live: map<string, EnvMap>, fetched: map<string, EnvMap>,
                          content: Content, done: set<(string, string)>, h: string, k: string, secrets: EnvMap)
    requires Describes(plan, live) && NoRefs(plan, live) && GoodImports(plan, req) && NothingUnresolved(plan, req)
    requires AllDone(req, done) && BuiltFrom(plan, req, fetched, content, done)
    ensures EffectiveEnv(content, h, secrets).Some?
    ensures var env := EffectiveEnv(content, h, secrets).value;
      && (h in live && k in live[h] ==> k in env || k in req.acceptDropped)
      && (Imports(req, h, AsOverride, k) ==> h in live && k in live[h] && k in env && env[k] == live[h][k])
      && (Imports(req, h, AsBase, k) ==> h in live && k in live[h] && k in env && env[k] == live[h][k])
      && (k in plan.originEnv && !Imports(req, h, AsOverride, k) ==> k in env && env[k] == plan.originEnv[k])
  {
    MergedIsEffective(plan, req, live, fetched, content, done, h, secrets);
    if h in live && k in live[h] && k !in plan.originEnv && k !in req.acceptDropped {
      PeerKeyKept(plan, req, live, fetched, content, done, h, k);
    }
    if Imports(req, h, AsOverride, k) {
      assert (h, k) in done && k in OverridesFor(content, h);
      LiveValue(plan, req, live, fetched, h, k);
    }
    if Imports(req, h, AsBase, k) {
      BaseImportKept(plan, req, live, fetched, content, done, h, k);
    }
    if k in plan.originEnv && !Imports(req, h, AsOverride, k) {
      OriginKeyKept(plan, req, fetched, content, done, h, k);
    }
  }

  lemma PeerKeyKept(plan: Plan, req: Request, live: map<string, EnvMap>, fetched: map<string, EnvMap>,
                    content: Content, done: set<(string, string)>, h: string, k: string)
    requires Describes(plan, live) && NothingUnresolved(plan, req)
    requires AllDone(req, done) && BuiltFrom(plan, req, fetched, content, done)
    requires h in live && k in live[h] && k !in plan.originEnv && k !in req.acceptDropped
    ensures k in Merged(content, h)
  {
    assert k in plan.peers[h] && !IsUnresolved(plan, req, h, k);
    if Imports(req, h, AsOverride, k) {
      assert (h, k) in done && k in OverridesFor(content, h);
    } else {
      var g :| Imports(req, g, AsBase, k);
      assert (g, k) in done;
    }
  }

  lemma BaseImportKept(plan: Plan, req: Request, live: map<string, EnvMap>, fetched: map<string, EnvMap>,
                       content: Content, done: set<(string, string)>, h: string, k: string)
    requires Describes(plan, live) && GoodImports(plan, req)
    requires AllDone(req, done) && BuiltFrom(plan, req, fetched, content, done)
    requires Imports(req, h, AsBase, k)
    ensures h in live && k in live[h] && k in Merged(content, h) && Merged(content, h)[k] == live[h][k]
  {
    assert (h, k) in done && k in content.base;
    assert GoodImport(plan, req, h) && k !in plan.originEnv;
    LiveValue(plan, req, live, fetched, h, k);
    var g :| FromBase(req, fetched, done, g, k, content.base[k]);
    LiveValue(plan, req, live, fetched, g, k);
    assert plan.peers[g][k] == plan.peers[h][k];
    assert plan.peers[g][k] == KeyHash(live[g][k]) && plan.peers[h][k] == KeyHash(live[h][k]);
    assert k !in OverridesFor(content, h);
  }

  lemma OriginKeyKept(plan: Plan, req: Request, fetched: map<string, EnvMap>,
                      content: Content, done: set<(string, string)>, h: string, k: string)
    requires GoodImports(plan, req) && BuiltFrom(plan, req, fetched, content, done)
    requires k in plan.originEnv && !Imports(req, h, AsOverride, k)
    ensures k in Merged(content, h) && Merged(content, h)[k] == plan.originEnv[k]
  {
    assert h in req.imports ==> GoodImport(plan, req, h);
    assert k !in OverridesFor(content, h);
  }
}

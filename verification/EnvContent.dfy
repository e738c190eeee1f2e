/** The content of a central env record: a base map, per-host overrides layered
    over it, and what one host ends up running (cmd/dashboard/centralenv_store.go). */
module EnvContent {
  import opened Common

  type EnvMap = map<string, string>

  datatype Content = Content(base: EnvMap, overrides: map<string, EnvMap>)

  /** The hash of a content, injective on its canonical form: a host whose
      override map is empty leaves no trace. */
  datatype ContentHash = ContentHash(canonical: Content)

  function HashOf(c: Content): ContentHash {
    ContentHash(Content(c.base,
                        map h | h in c.overrides && c.overrides[h] != map[] :: c.overrides[h]))
  }

  function OverridesFor(c: Content, host: string): EnvMap {
    if host in c.overrides then c.overrides[host] else map[]
  }

  function Merged(c: Content, host: string): EnvMap {
    c.base + OverridesFor(c, host)
  }

  const SECRET_REF_PREFIX := "ref:"

  predicate IsRef(v: string) {
    |v| >= |SECRET_REF_PREFIX| && v[..|SECRET_REF_PREFIX|] == SECRET_REF_PREFIX
  }

  function RefName(v: string): string
    requires IsRef(v)
  {
    v[|SECRET_REF_PREFIX|..]
  }

  predicate Resolvable(v: string, secrets: EnvMap) {
    IsRef(v) ==> RefName(v) in secrets
  }

  function ResolveValue(v: string, secrets: EnvMap): string
    requires Resolvable(v, secrets)
  {
    if IsRef(v) then secrets[RefName(v)] else v
  }

  /** Every "ref:NAME" replaced by the secret, or None when one is missing. */
  function ResolveRefs(m: EnvMap, secrets: EnvMap): Option<EnvMap> {
    if forall k :: k in m ==> Resolvable(m[k], secrets)
    then Some(map k | k in m :: ResolveValue(m[k], secrets))
    else None
  }

  /** What a replica on host runs. */
  function EffectiveEnv(c: Content, host: string, secrets: EnvMap): Option<EnvMap> {
    ResolveRefs(Merged(c, host), secrets)
  }

  /** v is the value a content gives key k on a host: the host's override, or else
      the base. */
  predicate Layer(c: Content, host: string, k: string, v: string) {
    if host in c.overrides && k in c.overrides[host] then v == c.overrides[host][k]
    else k in c.base && v == c.base[k]
  }

  /** What a replica on a host runs, spelled out: it can be resolved exactly when
      every secret its layered values refer to exists; then it has exactly the keys
      of the base and of the host's overrides, each with the secret it refers to or
      the value itself. */
  lemma EffectiveEnvExactly(c: Content, host: string, secrets: EnvMap)
    ensures EffectiveEnv(c, host, secrets).Some?
       <==> forall k, v :: Layer(c, host, k, v) && |v| >= 4 && v[..4] == "ref:" ==> v[4..] in secrets
    ensures var r := EffectiveEnv(c, host, secrets);
            r.Some? ==>
              && (forall k :: k in r.value <==> k in c.base || (host in c.overrides && k in c.overrides[host]))
              && forall k, v :: Layer(c, host, k, v) ==>
                   k in r.value && r.value[k] == if |v| >= 4 && v[..4] == "ref:" then secrets[v[4..]] else v
  {
    var merged := Merged(c, host);
    forall k, v | Layer(c, host, k, v) ensures k in merged && merged[k] == v {
    }
    forall k | k in merged ensures Layer(c, host, k, merged[k]) {
    }
    if forall k, v :: Layer(c, host, k, v) && |v| >= 4 && v[..4] == "ref:" ==> v[4..] in secrets {
      forall k | k in merged ensures Resolvable(merged[k], secrets) {
        assert Layer(c, host, k, merged[k]);
      }
    }
  }

  /** Equal hashes mean equal envs on every host, so a write refused as
      "identical content" could not have changed any replica. */
  lemma SameHashSameEnv(c: Content, d: Content, host: string, secrets: EnvMap)
    requires HashOf(c) == HashOf(d)
    ensures EffectiveEnv(c, host, secrets) == EffectiveEnv(d, host, secrets)
  {
    var co, do := HashOf(c).canonical.overrides, HashOf(d).canonical.overrides;
    assert host in co <==> host in do;
    assert OverridesFor(c, host) == OverridesFor(d, host);
  }

  /** Two contents override the same keys by the same values on a host. */
  predicate SameAtHost(c: Content, d: Content, h: string) {
    (if h in c.overrides then c.overrides[h] else map[]) == (if h in d.overrides then d.overrides[h] else map[])
  }

  /** Hashes are equal exactly when the base is, and every host's overrides are; a
      host listed without any key counts as not listed. */
  lemma SameHashExactly(c: Content, d: Content)
    ensures HashOf(c) == HashOf(d) <==> c.base == d.base && forall h :: SameAtHost(c, d, h)
  {
    var co, do := HashOf(c).canonical.overrides, HashOf(d).canonical.overrides;
    if HashOf(c) == HashOf(d) {
      forall h ensures SameAtHost(c, d, h) {
        assert h in co <==> h in do;
      }
    }
    if forall h :: SameAtHost(c, d, h) {
      forall h ensures (h in co <==> h in do) && (h in co ==> co[h] == do[h]) {
        assert SameAtHost(c, d, h);
      }
      assert co == do;
    }
  }

  predicate IsSpace(c: char) {
    c in " \t\n\r\U{000B}\U{000C}\U{0085}\U{00A0}\U{1680}\U{2028}\U{2029}\U{202F}\U{205F}\U{3000}"
    || '\U{2000}' <= c <= '\U{200A}'
  }

  predicate Blank(s: string) {
    forall i :: 0 <= i < |s| ==> IsSpace(s[i])
  }

  predicate ValidEnvKey(k: string) {
    k != "" && '=' !in k && '\0' !in k
  }

  predicate ValidContent(c: Content) {
    && (forall k :: k in c.base ==> ValidEnvKey(k))
    && (forall h :: h in c.overrides ==> !Blank(h))
    && (forall h :: h in c.overrides ==> forall k :: k in c.overrides[h] ==> ValidEnvKey(k))
  }

  predicate IsAlnum(c: char) {
    'a' <= c <= 'z' || 'A' <= c <= 'Z' || '0' <= c <= '9'
  }

  predicate ValidServiceName(s: string) {
    && 1 <= |s| <= 63
    && IsAlnum(s[0])
    && forall i :: 1 <= i < |s| ==> IsAlnum(s[i]) || s[i] in "._-"
  }

  /** A service name is a file name of at most 63 characters that is not hidden and
      leaves no directory. */
  lemma ServiceNameExactly(s: string)
    ensures ValidServiceName(s) <==>
            && 1 <= |s| <= 63 && s[0] !in "._-"
            && forall c :: c in s ==> 'a' <= c <= 'z' || 'A' <= c <= 'Z' || '0' <= c <= '9' || c in "._-"
  {
    if 1 <= |s| <= 63 && forall c :: c in s ==> 'a' <= c <= 'z' || 'A' <= c <= 'Z' || '0' <= c <= '9' || c in "._-" {
      assert forall i :: 0 <= i < |s| ==> s[i] in s;
    }
  }
}

/** Surge-of-one replica replacement (prepareReplaceTemplate and rollTemplate in
    cmd/dashboard/docker.go). */
module RollingReplace {
  import opened Common
  import opened EnvContent
  import opened CentralEnvResolver
  import opened Text
  import opened DockerHost

  // ---- Which containers are rolled ----

  type Listing = seq<(nat, Container)>

  function Select(all: Listing, keep: ((nat, Container)) -> bool): (r: Listing)
    ensures forall x :: x in r <==> x in all && keep(x)
  {
    if all == [] then []
    else if keep(all[0]) then [all[0]] + Select(all[1..], keep) else Select(all[1..], keep)
  }

  function LiveOnly(all: Listing): Listing {
    Select(all, (x: (nat, Container)) => !x.1.canary)
  }

  function StampedOnly(all: Listing): Listing {
    Select(all, (x: (nat, Container)) => !MemberOf(x.1.name, x.1.labels).foreign)
  }

  function RunningOnly(all: Listing): Listing {
    Select(all, (x: (nat, Container)) => x.1.running)
  }

  function PreferRunning(all: Listing): (r: Listing)
    ensures all != [] ==> r != []
  {
    if RunningOnly(all) != [] then RunningOnly(all) else all
  }

  ghost predicate DistinctIds(all: Listing) {
    forall i, j :: 0 <= i < j < |all| ==> all[i].0 != all[j].0
  }

  lemma {:induction false} SelectKeepsDistinct(all: Listing, keep: ((nat, Container)) -> bool)
    requires DistinctIds(all)
    ensures DistinctIds(Select(all, keep))
  {
    if all != [] {
      SelectKeepsDistinct(all[1..], keep);
      forall x | x in all[1..] ensures x.0 != all[0].0 {
      }
    }
  }

  lemma CandidatesDistinct(all: Listing, s: Source)
    requires DistinctIds(all)
    ensures DistinctIds(Candidates(all, s)) && DistinctIds(PreferRunning(Candidates(all, s)))
  {
    SelectKeepsDistinct(all, (x: (nat, Container)) => !x.1.canary);
    SelectKeepsDistinct(LiveOnly(all), (x: (nat, Container)) => !MemberOf(x.1.name, x.1.labels).foreign);
    SelectKeepsDistinct(Candidates(all, s), (x: (nat, Container)) => x.1.running);
  }

  // ---- Names ----

  function ReplicaPrefix(svc: string): string {
    "goproxy-" + svc + "-"
  }

  function ReplicaName(svc: string, n: nat): string {
    ReplicaPrefix(svc) + Itoa(n)
  }

  /** The name of a roll's i-th new replica. */
  function NewName(svc: string, start: nat, i: nat): string {
    ReplicaName(svc, start + i)
  }

  /** The index in a name of the given prefix. */
  function IndexIn(prefix: string, name: string): Option<int> {
    if prefix <= name then Atoi(name[|prefix|..]) else None
  }

  /** One past the highest index in use under a prefix. */
  method NextIndex(all: Listing, prefix: string) returns (next: nat)
    ensures next >= 1
    ensures forall x :: x in all && IndexIn(prefix, x.1.name).Some? ==> IndexIn(prefix, x.1.name).value < next
    ensures next == 1 || exists x :: x in all && IndexIn(prefix, x.1.name) == Some(next - 1)
  {
    var max: nat := 0;
    for i := 0 to |all|
      invariant forall x :: x in all[..i] && IndexIn(prefix, x.1.name).Some? ==> IndexIn(prefix, x.1.name).value <= max
      invariant max == 0 || exists x :: x in all[..i] && IndexIn(prefix, x.1.name) == Some(max)
    {
      var v := IndexIn(prefix, all[i].1.name);
      assert all[..i + 1] == all[..i] + [all[i]];
      if v.Some? && v.value > max {
        max := v.value;
      }
    }
    assert all[..|all|] == all;
    next := max + 1;
  }

  lemma ReplicaNameIndex(svc: string, n: nat)
    ensures IndexIn(ReplicaPrefix(svc), ReplicaName(svc, n)) == Some(n)
  {
    ItoaRoundTrip(n);
    assert ReplicaName(svc, n)[|ReplicaPrefix(svc)|..] == Itoa(n);
  }

  /** Names from the starting index on are not in use among the members scanned,
      and differ from each other. */
  lemma NewNamesAreNew(svc: string, all: Listing, start: nat, i: nat, j: nat)
    requires forall x :: x in all && IndexIn(ReplicaPrefix(svc), x.1.name).Some?
               ==> IndexIn(ReplicaPrefix(svc), x.1.name).value < start
    ensures forall x :: x in all ==> x.1.name != NewName(svc, start, i)
    ensures i != j ==> NewName(svc, start, i) != NewName(svc, start, j)
  {
    hide IndexIn, ReplicaName, ReplicaPrefix;
    ReplicaNameIndex(svc, start + i);
    ReplicaNameIndex(svc, start + j);
  }

  // ---- The template ----

  /** What a replacement is built from. A pinned env list is exact, stamped with an
      origin and version unless it is rolled without a stamp; without one the env
      and labels are cloned from the template, if that succeeds. */
  datatype Source =
    | Pinned(env: EnvMap, stamp: Option<(string, nat)>, includeForeign: bool)
    | Cloned(clone: Option<Clone>)

  datatype Template = Template(
    existing: seq<nat>,
    tplSet: seq<nat>,
    image: string,
    env: EnvMap,
    labels: Labels,
    startIdx: nat)

  /** What inspecting a container says about host configuration that a recreate
      would drop. */
  datatype HostConfig = Reproducible | WouldDrop | NotInspected

  /** Environment edits of the request, the keys it agrees to overwrite, and the
      secrets its references may name. */
  datatype Edits = Edits(values: EnvMap, ack: set<string>, secrets: EnvMap)

  const NO_EDITS := Edits(map[], {}, map[])

  datatype PrepareError =
    | NoImage
    | NothingLive
    | Irreproducible(id: nat)
    | CannotClone
    | ManagedCentrally
    | MissingSecret
    | Conflicting(keys: set<string>)

  const OCI_PREFIX := "org.opencontainers.image."
  const LABEL_PREV_IMAGE := "proxy.previous_image"

  function PinnedLabels(tpl: Labels, stamp: Option<(string, nat)>): Labels {
    var kept := map k | k in tpl && !(COMPOSE_PREFIX <= k) :: tpl[k];
    match stamp
    case None => kept - {LABEL_ENV_ORIGIN, LABEL_ENV_VERSION}
    case Some((origin, version)) => kept[LABEL_ENV_ORIGIN := origin][LABEL_ENV_VERSION := Itoa(version)]
  }

  function WithoutImageLabels(labels: Labels): Labels {
    map k | k in labels && !(OCI_PREFIX <= k) :: labels[k]
  }

  /** The image a one-click rollback goes back to; a restart keeps the old one. */
  function WithPrevImage(labels: Labels, previous: string, image: string, restart: bool): Labels {
    if previous != "" && previous != image && !restart then labels[LABEL_PREV_IMAGE := previous] else labels
  }

  function SourceLabels(tpl: Labels, s: Source): Labels {
    match s
    case Pinned(_, stamp, _) => PinnedLabels(tpl, stamp)
    case Cloned(c) => if c.Some? then c.value.labels else map[]
  }

  function SourceEnv(s: Source): EnvMap {
    match s
    case Pinned(env, _, _) => env
    case Cloned(c) => if c.Some? then c.value.env else map[]
  }

  function NewLabels(tpl: Container, image: string, restart: bool, s: Source): Labels {
    WithPrevImage(WithoutImageLabels(SourceLabels(tpl.labels, s)), tpl.image, image, restart)
  }

  function Candidates(all: Listing, s: Source): Listing {
    if s.Pinned? && !s.includeForeign then StampedOnly(LiveOnly(all)) else LiveOnly(all)
  }

  function Ids(all: Listing): (r: seq<nat>)
    ensures |r| == |all| && forall i :: 0 <= i < |r| ==> r[i] == all[i].0
  {
    seq(|all|, i requires 0 <= i < |all| => all[i].0)
  }

  ghost predicate Distinct(ids: seq<nat>) {
    forall i, j :: 0 <= i < j < |ids| ==> ids[i] != ids[j]
  }

  function ToSet(ids: seq<nat>): set<nat> {
    set id | id in ids
  }

  ghost predicate ValidTemplate(t: Template) {
    Distinct(t.existing) && Distinct(t.tplSet) && ToSet(t.tplSet) <= ToSet(t.existing) && t.tplSet != []
  }

  predicate IsManaged(s: Source) {
    s.Pinned? || (s.clone.Some? && s.clone.value.managed)
  }

  /** Keys an edit would change against the value running, without agreement. */
  function Conflicts(base: EnvMap, edits: EnvMap, ack: set<string>): set<string> {
    set k | k in edits && k in base && base[k] != edits[k] && k !in ack
  }

  /** The env a source runs with the request's edits merged in. */
  function EditedEnv(s: Source, e: Edits): Result<EnvMap, PrepareError> {
    if IsManaged(s) then if e.values == map[] then Ok(SourceEnv(s)) else Err(ManagedCentrally)
    else
      match ResolveRefs(e.values, e.secrets)
      case None => Err(MissingSecret)
      case Some(edits) =>
        if Conflicts(SourceEnv(s), edits, e.ack) != {} then Err(Conflicting(Conflicts(SourceEnv(s), edits, e.ack)))
        else Ok(SourceEnv(s) + edits)
  }

  /** When edits are taken: never for a centrally managed env; otherwise exactly when
      every secret they name exists and each running value they would change was
      agreed to. No edits leave the env as it is. */
  lemma EditsTakenExactly(s: Source, e: Edits)
    ensures var managed := s.Pinned? || (s.clone.Some? && s.clone.value.managed);
            var env := EditedEnv(s, e);
            && (managed ==> env == if e.values == map[] then Ok(SourceEnv(s)) else Err(ManagedCentrally))
            && (!managed ==>
                  (env.Ok? <==>
                     forall k :: k in e.values ==>
                       && Resolvable(e.values[k], e.secrets)
                       && (k in SourceEnv(s) && k !in e.ack ==> SourceEnv(s)[k] == ResolveValue(e.values[k], e.secrets))))
            && (e.values == map[] ==> env == Ok(SourceEnv(s)))
  {
    assert SourceEnv(s) + map[] == SourceEnv(s);
    var refs := ResolveRefs(e.values, e.secrets);
    if !IsManaged(s) && refs.Some? {
      var edits := refs.value;
      forall k | k in e.values
        ensures k in Conflicts(SourceEnv(s), edits, e.ack) <==>
                k in SourceEnv(s) && k !in e.ack && SourceEnv(s)[k] != ResolveValue(e.values[k], e.secrets) {
      }
      assert Conflicts(SourceEnv(s), edits, e.ack) == {} <==> forall k :: k in e.values ==> k !in Conflicts(SourceEnv(s), edits, e.ack);
    }
  }

  /** What edits do to a service without a central env: unedited keys stay, edited
      ones get the resolved value, and nothing running changes without agreement. */
  lemma EditsChangeOnlyAgreed(s: Source, e: Edits, k: string)
    requires !IsManaged(s) && EditedEnv(s, e).Ok?
    ensures var base, env := SourceEnv(s), EditedEnv(s, e).value;
            && (k in e.values ==> k in env && env[k] == ResolveValue(e.values[k], e.secrets))
            && (k !in e.values ==> (k in env <==> k in base) && (k in base ==> env[k] == base[k]))
            && (k in base && env[k] != base[k] ==> k in e.ack)
  {
    var edits := ResolveRefs(e.values, e.secrets).value;
    assert k !in Conflicts(SourceEnv(s), edits, e.ack);
  }

  lemma PinnedTakesNoEdits(s: Source, e: Edits)
    requires s.Pinned?
    ensures EditedEnv(s, e) == if e.values == map[] then Ok(s.env) else Err(ManagedCentrally)
  {
  }

  lemma EditErrors(s: Source, e: Edits)
    requires EditedEnv(s, e).Err?
    ensures EditedEnv(s, e).error.ManagedCentrally? || EditedEnv(s, e).error.MissingSecret? || EditedEnv(s, e).error.Conflicting?
  {
  }

  method FirstIrreproducible(existing: Listing, hostConfig: nat -> HostConfig) returns (bad: Option<nat>)
    ensures bad.None? <==> forall id :: id in Ids(existing) ==> hostConfig(id) == Reproducible
    ensures bad.Some? ==> bad.value in Ids(existing) && hostConfig(bad.value) != Reproducible
  {
    for i := 0 to |existing|
      invariant forall j :: 0 <= j < i ==> hostConfig(existing[j].0) == Reproducible
    {
      if hostConfig(existing[i].0) != Reproducible {
        assert existing[i].0 == Ids(existing)[i];
        return Some(existing[i].0);
      }
    }
    return None;
  }

  method BuildTemplate(svc: string, existing: Listing, image: string, env: EnvMap, labels: Labels) returns (t: Template)
    requires existing != [] && DistinctIds(existing) && DistinctIds(PreferRunning(existing))
    ensures ValidTemplate(t)
    ensures t.existing == Ids(existing) && t.tplSet == Ids(PreferRunning(existing))
    ensures t.image == image && t.env == env && t.labels == labels
    ensures forall x, i: nat :: x in existing ==> x.1.name != NewName(svc, t.startIdx, i)
  {
    hide IndexIn, ReplicaName, ReplicaPrefix;
    var tplSet := PreferRunning(existing);
    var start := NextIndex(existing, ReplicaPrefix(svc));
    forall x, i: nat | x in existing ensures x.1.name != NewName(svc, start, i) {
      NewNamesAreNew(svc, existing, start, i, i);
    }
    t := Template(Ids(existing), Ids(tplSet), image, env, labels, start);
    forall id | id in t.tplSet ensures id in t.existing {
      var i :| 0 <= i < |t.tplSet| && t.tplSet[i] == id;
      assert tplSet[i] in existing;
    }
  }

  /** Resolves what a roll replaces and with what; hostConfig and spec say what
      inspecting the containers gave. */
  method PrepareReplaceTemplate(svc: string, all: Listing, image: string, restart: bool, s: Source, edits: Edits,
                                hostConfig: nat -> HostConfig, spec: bool)
    returns (t: Result<Template, PrepareError>)
    requires DistinctIds(all)
    ensures t == Err(NoImage) <==> image == ""
    ensures t == Err(NothingLive) <==> image != "" && Candidates(all, s) == []
    ensures t.Err? && t.error.Irreproducible? <==>
              image != "" && exists id :: id in Ids(Candidates(all, s)) && hostConfig(id) != Reproducible
    ensures t.Err? && t.error.Irreproducible? ==>
              t.error.id in Ids(Candidates(all, s)) && hostConfig(t.error.id) != Reproducible
    ensures t == Err(CannotClone) ==> if s.Pinned? then !spec else s.clone.None?
    ensures t.Ok? <==>
              && image != "" && Candidates(all, s) != []
              && (forall id :: id in Ids(Candidates(all, s)) ==> hostConfig(id) == Reproducible)
              && (s.Pinned? ==> spec) && (s.Cloned? ==> s.clone.Some?)
              && EditedEnv(s, edits).Ok?
    ensures t.Err? && (t.error.ManagedCentrally? || t.error.MissingSecret? || t.error.Conflicting?) ==>
              EditedEnv(s, edits) == Err(t.error)
    ensures t.Ok? ==>
      && ValidTemplate(t.value)
      && t.value.existing == Ids(Candidates(all, s))
      && t.value.tplSet == Ids(PreferRunning(Candidates(all, s)))
      && t.value.image == image && Ok(t.value.env) == EditedEnv(s, edits)
      && t.value.labels == NewLabels(PreferRunning(Candidates(all, s))[0].1, image, restart, s)
      && forall x, i: nat :: x in Candidates(all, s) ==> x.1.name != NewName(svc, t.value.startIdx, i)
  {
    hide Candidates, PreferRunning, NewName, NewLabels, EditedEnv, ValidTemplate;
    if image == "" {
      return Err(NoImage);
    }
    var existing := Candidates(all, s);
    if existing == [] {
      return Err(NothingLive);
    }
    var bad := FirstIrreproducible(existing, hostConfig);
    if bad.Some? {
      return Err(Irreproducible(bad.value));
    }
    if s.Pinned? && edits.values != map[] {
      PinnedTakesNoEdits(s, edits);
      return Err(ManagedCentrally);
    }
    if (s.Pinned? && !spec) || (s.Cloned? && s.clone.None?) {
      return Err(CannotClone);
    }
    var env := EditedEnv(s, edits);
    if env.Err? {
      EditErrors(s, edits);
      return Err(env.error);
    }
    CandidatesDistinct(all, s);
    var template := BuildTemplate(svc, existing, image, env.value, NewLabels(PreferRunning(existing)[0].1, image, restart, s));
    return Ok(template);
  }

  /** The stamp a roll puts on its replicas is the one it was given, and a roll
      without one leaves none; and they remember the image they replaced. */
  lemma RolledMember(name: string, tpl: Container, image: string, restart: bool, env: EnvMap, stamp: Option<(string, nat)>,
                     includeForeign: bool)
    requires stamp.Some? ==> stamp.value.0 != ""
    ensures var labels := NewLabels(tpl, image, restart, Pinned(env, stamp, includeForeign));
            && MemberOf(name, labels) == (match stamp
                                          case None => Member(name, 0, true)
                                          case Some((_, version)) => Member(name, version, false))
            && (stamp.Some? ==> LabelOr(labels, LABEL_ENV_ORIGIN) == stamp.value.0)
            && LabelOr(labels, LABEL_PREV_IMAGE) == (if tpl.image != "" && tpl.image != image && !restart then tpl.image
                                                     else LabelOr(tpl.labels, LABEL_PREV_IMAGE))
  {
    assert LABEL_ENV_ORIGIN[0] != OCI_PREFIX[0] && LABEL_ENV_VERSION[0] != OCI_PREFIX[0];
    assert LABEL_PREV_IMAGE[0] != OCI_PREFIX[0] && LABEL_PREV_IMAGE[0] != COMPOSE_PREFIX[0];
    assert LABEL_PREV_IMAGE[1] != LABEL_ENV_ORIGIN[1] && LABEL_PREV_IMAGE[1] != LABEL_ENV_VERSION[1];
    if stamp.Some? {
      ItoaRoundTrip(stamp.value.1);
    }
  }

  /** The other labels of a replacement are its template's, but for compose's own and
      those that describe the old image. */
  lemma RolledLabels(tpl: Container, image: string, restart: bool, env: EnvMap, stamp: Option<(string, nat)>, foreign: bool,
                     k: string)
    requires k !in {LABEL_ENV_ORIGIN, LABEL_ENV_VERSION, LABEL_PREV_IMAGE}
    ensures var labels := NewLabels(tpl, image, restart, Pinned(env, stamp, foreign));
            && (k in labels <==>
                  && k in tpl.labels
                  && !(|k| >= 19 && k[..19] == "com.docker.compose.") && !(|k| >= 25 && k[..25] == "org.opencontainers.image."))
            && (k in labels ==> labels[k] == tpl.labels[k])
  {
    assert |COMPOSE_PREFIX| == 19 && |OCI_PREFIX| == 25;
  }

  /** A roll that is not pinned takes env and labels of what was cloned, but for the
      labels that describe the old image. */
  lemma ClonedExactly(c: Clone, tpl: Container, image: string, restart: bool, k: string)
    requires k != LABEL_PREV_IMAGE
    ensures SourceEnv(Cloned(Some(c))) == c.env
    ensures var labels := NewLabels(tpl, image, restart, Cloned(Some(c)));
            && (k in labels <==> k in c.labels && !(|k| >= 25 && k[..25] == "org.opencontainers.image."))
            && (k in labels ==> labels[k] == c.labels[k])
  {
    assert |OCI_PREFIX| == 25;
  }

  /** Whom a roll replaces: no canary, and of the rest only stamped ones if it is
      pinned and not an adopt; and whom it counts: those running, or all if none is. */
  lemma MembersExactly(all: Listing, s: Source, x: (nat, Container))
    ensures var members := Candidates(all, s);
            && (x in members <==>
                  x in all && !x.1.canary && (s.Cloned? || s.includeForeign || LabelOr(x.1.labels, LABEL_ENV_ORIGIN) != ""))
            && (x in PreferRunning(members) <==>
                  x in members && (x.1.running || !exists y :: y in members && y.1.running))
  {
    var members := Candidates(all, s);
    EmptyOrSome(RunningOnly(members));
    if y :| y in members && y.1.running {
      assert y in RunningOnly(members);
    }
  }

  lemma EmptyOrSome<T>(s: seq<T>)
    ensures s == [] || exists z :: z in s
  {
    if s != [] {
      assert s[0] in s;
    }
  }

  // ---- Capacity ----

  /** Replicas that serve: new ones (ids from firstNew on) that passed their gate,
      and members of the rolled set not removed yet. */
  function Serving(m: Moment, tplSet: seq<nat>, firstNew: nat): set<nat> {
    set id | id in m.present && ((id >= firstNew && id in m.gated) || id in tplSet)
  }

  /** Everything the roll is responsible for: its existing members and its new
      replicas, gated or not. */
  function InPlay(m: Moment, existing: seq<nat>, firstNew: nat): set<nat> {
    set id | id in m.present && (id >= firstNew || id in existing)
  }

  ghost predicate Capacity(m: Moment, t: Template, firstNew: nat) {
    && |Serving(m, t.tplSet, firstNew)| >= |t.tplSet|
    && |InPlay(m, t.existing, firstNew)| <= |t.existing| + 1
  }

  /** Where a roll stands: these new replicas are gated, this extra one is not
      yet, these members are gone. */
  ghost predicate Stands(m: Moment, t: Template, firstNew: nat, made: set<nat>, extra: set<nat>, gone: set<nat>) {
    && InPlay(m, t.existing, firstNew) == (ToSet(t.existing) - gone) + made + extra
    && made <= m.gated
    && (forall id :: id in made ==> id >= firstNew)
    && (forall id :: id in extra ==> id >= firstNew)
    && gone <= ToSet(t.existing)
    && |made| + |extra| <= |gone| + 1
    && |gone * ToSet(t.tplSet)| <= |made|
  }

  lemma {:induction false} SetSize(ids: seq<nat>)
    requires Distinct(ids)
    ensures |ToSet(ids)| == |ids|
  {
    if ids != [] {
      SetSize(ids[1..]);
      assert ToSet(ids) == {ids[0]} + ToSet(ids[1..]);
    }
  }

  lemma SubsetSize(a: set<nat>, b: set<nat>)
    requires a <= b
    ensures |a| <= |b| && |b - a| == |b| - |a|
  {
    assert b == a + (b - a);
  }

  /** Serving members add up to at least the old count, all members in play to at
      most one more than it. */
  lemma SizesAddUp(ex: set<nat>, tpl: set<nat>, made: set<nat>, extra: set<nat>, gone: set<nat>)
    requires tpl <= ex && gone <= ex && made !! ex
    requires |made| + |extra| <= |gone| + 1 && |gone * tpl| <= |made|
    ensures |made + (tpl - gone)| >= |tpl|
    ensures |(ex - gone) + made + extra| <= |ex| + 1
  {
    SubsetSize(gone, ex);
    SubsetSize(gone * tpl, tpl);
    assert tpl - gone == tpl - gone * tpl;
    assert |made + (tpl - gone)| == |made| + |tpl - gone|;
    assert |(ex - gone) + made + extra| <= |ex - gone| + |made| + |extra|;
  }

  lemma StandsKeepsCapacity(m: Moment, t: Template, firstNew: nat, made: set<nat>, extra: set<nat>, gone: set<nat>)
    requires ValidTemplate(t) && (forall id :: id in t.existing ==> id < firstNew)
    requires Stands(m, t, firstNew, made, extra, gone)
    ensures Capacity(m, t, firstNew)
  {
    var ex, tpl := ToSet(t.existing), ToSet(t.tplSet);
    SetSize(t.existing);
    SetSize(t.tplSet);
    SizesAddUp(ex, tpl, made, extra, gone);
    forall id | id in made + (tpl - gone) ensures id in Serving(m, t.tplSet, firstNew) {
      assert id in InPlay(m, t.existing, firstNew);
    }
    SubsetSize(made + (tpl - gone), Serving(m, t.tplSet, firstNew));
  }

  // ---- The roll ----

  datatype Fate = CreateFails | StartFails | GateFails | Healthy

  datatype RollError = CreateFailed | StartFailed | GateFailed

  function Fresh(t: Template, cname: string): Container {
    Container(cname, false, false, t.image, t.labels, t.env)
  }

  /** One replica is created and swapped for victim once it is healthy; a
      container that does not start is removed, an unhealthy one only if asked. */
  function Swap(h: Host, t: Template, cname: string, victim: nat, removeOnGateFailure: bool, fate: Fate)
    : (r: (Host, Result<nat, RollError>))
  {
    var id := h.nextId;
    if fate == CreateFails || NameTaken(h, cname) then (h, Err(CreateFailed))
    else
      var created := AfterCreate(h, Fresh(t, cname));
      if fate == StartFails then (AfterRemove(created, id), Err(StartFailed))
      else
        var started := AfterStart(created, id);
        if fate == GateFails then
          (if removeOnGateFailure then AfterRemove(Logged(started), id) else Logged(started), Err(GateFailed))
        else (AfterRemove(AfterGate(started, id), victim), Ok(id))
  }

  /** The first n swaps of a roll, up to the first that fails, with the replicas
      they brought in. */
  function Swaps(h: Host, svc: string, t: Template, removeOnGateFailure: bool, fates: nat -> Fate, n: nat)
    : (r: (Host, Result<set<nat>, RollError>))
    requires n <= |t.tplSet|
  {
    if n == 0 then (h, Ok({}))
    else
      var (before, soFar) := Swaps(h, svc, t, removeOnGateFailure, fates, n - 1);
      if soFar.Err? then (before, soFar)
      else
        var (after, one) := Swap(before, t, NewName(svc, t.startIdx, n - 1), t.tplSet[n - 1], removeOnGateFailure, fates(n - 1));
        (after, if one.Ok? then Ok(soFar.value + {one.value}) else Err(one.error))
  }

  /** The leftovers among the first n existing members are drained. */
  function Sweep(h: Host, existing: seq<nat>, replaced: set<nat>, n: nat): Host
    requires n <= |existing|
  {
    if n == 0 then h
    else
      var before := Sweep(h, existing, replaced, n - 1);
      if existing[n - 1] in replaced then before else AfterRemove(before, existing[n - 1])
  }

  function Roll(h: Host, svc: string, t: Template, removeOnGateFailure: bool, fates: nat -> Fate)
    : (Host, Result<set<nat>, RollError>)
  {
    var (swapped, made) := Swaps(h, svc, t, removeOnGateFailure, fates, |t.tplSet|);
    if made.Err? then (swapped, made)
    else (Sweep(swapped, t.existing, ToSet(t.tplSet), |t.existing|), made)
  }

  /** Creates one replica and swaps it for victim once it is healthy. */
  method ReplaceOne(d: Docker, t: Template, cname: string, victim: nat, removeOnGateFailure: bool, fate: Fate)
    returns (r: Result<nat, RollError>)
    requires d.Valid() && victim in d.containers
    modifies d
    ensures d.Valid()
    ensures (d.View(), r) == Swap(old(d.View()), t, cname, victim, removeOnGateFailure, fate)
  {
    hide ValidHost;
    var id := d.Create(Fresh(t, cname), fate != CreateFails);
    if id.None? {
      return Err(CreateFailed);
    }
    d.Start(id.value, fate != StartFails);
    if fate == StartFails {
      d.Remove(id.value);
      return Err(StartFailed);
    }
    d.WaitReady(id.value, fate == Healthy);
    if fate == GateFails {
      if removeOnGateFailure {
        d.Remove(id.value);
      }
      return Err(GateFailed);
    }
    d.Remove(victim);
    return Ok(id.value);
  }

  lemma SwapTouchesVictimOnly(h: Host, t: Template, cname: string, victim: nat, removeOnGateFailure: bool, fate: Fate)
    requires h.nextId !in h.containers
    ensures forall id :: id in h.containers && id != victim ==>
              id in Swap(h, t, cname, victim, removeOnGateFailure, fate).0.containers
  {
  }

  lemma {:induction false} FirstFailureEndsRoll(h: Host, svc: string, t: Template, removeOnGateFailure: bool,
                                                fates: nat -> Fate, i: nat, n: nat)
    requires i <= n <= |t.tplSet|
    requires Swaps(h, svc, t, removeOnGateFailure, fates, i).1.Err?
    ensures Swaps(h, svc, t, removeOnGateFailure, fates, n) == Swaps(h, svc, t, removeOnGateFailure, fates, i)
  {
    hide Swap;
    if i < n {
      FirstFailureEndsRoll(h, svc, t, removeOnGateFailure, fates, i, n - 1);
    }
  }

  lemma NextIdIsFree(h: Host)
    requires ValidHost(h)
    ensures h.nextId !in h.containers
  {
  }

  lemma NothingReplacedYet(t: Template)
    requires ValidTemplate(t)
    ensures ToSet(t.tplSet[..0]) == {} && Distinct(t.existing)
  {
  }

  /** The i-th victim is a member not replaced before. */
  lemma NextVictimWaits(t: Template, i: nat)
    requires ValidTemplate(t) && i < |t.tplSet|
    ensures t.tplSet[i] in t.existing && t.tplSet[i] !in ToSet(t.tplSet[..i])
    ensures ToSet(t.tplSet[..i + 1]) == ToSet(t.tplSet[..i]) + {t.tplSet[i]}
  {
    assert t.tplSet[..i + 1] == t.tplSet[..i] + [t.tplSet[i]];
    assert t.tplSet[i] in ToSet(t.tplSet);
  }

  /** Create, gate, drain, one replica at a time, then sweep the leftovers.
      fates(i) is what the daemon and the health gate do to replica i. */
  method RollTemplate(d: Docker, svc: string, t: Template, removeOnGateFailure: bool, fates: nat -> Fate)
    returns (r: Result<set<nat>, RollError>)
    requires d.Valid() && ValidTemplate(t)
    requires forall id :: id in t.existing ==> id in d.containers
    modifies d
    ensures d.Valid()
    ensures (d.View(), r) == Roll(old(d.View()), svc, t, removeOnGateFailure, fates)
  {
    hide Swap, ValidHost, ValidTemplate, ToSet;
    NothingReplacedYet(t);
    ghost var start := d.View();
    var made: set<nat> := {};
    var replaced: set<nat> := {};
    for i := 0 to |t.tplSet|
      invariant d.Valid()
      invariant Swaps(start, svc, t, removeOnGateFailure, fates, i) == (d.View(), Ok(made))
      invariant replaced == ToSet(t.tplSet[..i])
      invariant forall id :: id in t.existing && id !in replaced ==> id in d.containers
    {
      NextVictimWaits(t, i);
      NextIdIsFree(d.View());
      SwapTouchesVictimOnly(d.View(), t, NewName(svc, t.startIdx, i), t.tplSet[i], removeOnGateFailure, fates(i));
      var one := ReplaceOne(d, t, NewName(svc, t.startIdx, i), t.tplSet[i], removeOnGateFailure, fates(i));
      if one.Err? {
        FirstFailureEndsRoll(start, svc, t, removeOnGateFailure, fates, i + 1, |t.tplSet|);
        return Err(one.error);
      }
      replaced := replaced + {t.tplSet[i]};
      made := made + {one.value};
    }
    assert t.tplSet[..|t.tplSet|] == t.tplSet;
    SweepLeftovers(d, t, replaced);
    return Ok(made);
  }

  method SweepLeftovers(d: Docker, t: Template, replaced: set<nat>)
    requires d.Valid() && Distinct(t.existing)
    requires forall id :: id in t.existing && id !in replaced ==> id in d.containers
    modifies d
    ensures d.Valid() && d.View() == Sweep(old(d.View()), t.existing, replaced, |t.existing|)
  {
    hide ValidHost;
    for i := 0 to |t.existing|
      invariant d.Valid() && d.View() == Sweep(old(d.View()), t.existing, replaced, i)
      invariant forall k :: i <= k < |t.existing| && t.existing[k] !in replaced ==> t.existing[k] in d.containers
    {
      if t.existing[i] !in replaced {
        d.Remove(t.existing[i]);
      }
    }
  }

  // ---- What a roll keeps ----

  ghost predicate Built(c: Container, t: Template) {
    c.labels == t.labels && c.env == t.env && c.image == t.image && !c.canary
  }

  /** What a roll leaves alone, and what its new containers look like. */
  ghost predicate OnlyRolled(h: Host, t: Template, s: Host) {
    && (forall id :: id in s.containers && id !in t.existing ==> id in h.containers)
    && (forall id :: id in h.containers && id < s.nextId ==> id in s.containers && h.containers[id] == s.containers[id])
    && (forall id :: id in h.containers && id >= s.nextId ==> Built(h.containers[id], t))
  }

  /** Every moment since the start had capacity, and only members of the roll
      were removed. */
  ghost predicate Safe(h: Host, t: Template, s: Host) {
    && s.log <= h.log
    && (forall n :: |s.log| <= n < |h.log| ==> Capacity(h.log[n], t, s.nextId))
    && (forall id :: id in h.removed && id < s.nextId ==> id in s.removed || id in t.existing)
    && (forall id :: id in s.known ==> id in h.known && h.known[id] == s.known[id])
  }

  /** Which containers a roll created (made are gated, extra is not yet) and removed. */
  ghost predicate Shape(h: Host, t: Template, s: Host, made: set<nat>, extra: set<nat>, gone: set<nat>) {
    && h.containers.Keys == (s.containers.Keys - gone) + made + extra
    && made <= h.gated && gone <= ToSet(t.existing)
    && (forall id :: id in made ==> s.nextId <= id < h.nextId && id in h.containers && h.containers[id].running)
    && (forall id :: id in extra ==> s.nextId <= id < h.nextId)
    && |made| + |extra| <= |gone| + 1
    && |gone * ToSet(t.tplSet)| <= |made|
  }

  ghost predicate Rollable(t: Template, s: Host) {
    ValidHost(s) && ValidTemplate(t) && forall id :: id in t.existing ==> id in s.containers
  }

  /** A host in the middle of a roll that began in state s. */
  ghost predicate Progress(h: Host, t: Template, s: Host, made: set<nat>, extra: set<nat>, gone: set<nat>) {
    ValidHost(h) && OnlyRolled(h, t, s) && Safe(h, t, s) && Shape(h, t, s, made, extra, gone) && s.nextId <= h.nextId
  }

  /** Membership in play, one container at a time. */
  lemma InPlayAt(m: Moment, existing: seq<nat>, base: set<nat>, firstNew: nat,
                 made: set<nat>, extra: set<nat>, gone: set<nat>)
    requires forall id :: id in existing ==> id in base
    requires forall id :: id in base ==> id < firstNew
    requires m.present == (base - gone) + made + extra
    requires forall id :: id in made ==> id >= firstNew
    requires forall id :: id in extra ==> id >= firstNew
    ensures InPlay(m, existing, firstNew) == (ToSet(existing) - gone) + made + extra
  {
    var right := (ToSet(existing) - gone) + made + extra;
    forall id: nat ensures id in InPlay(m, existing, firstNew) <==> id in right {
      assert id in ToSet(existing) <==> id in existing;
    }
  }

  lemma ShapeHasCapacity(h: Host, t: Template, s: Host, made: set<nat>, extra: set<nat>, gone: set<nat>)
    requires Rollable(t, s) && Shape(h, t, s, made, extra, gone)
    ensures Capacity(Now(h), t, s.nextId)
  {
    InPlayAt(Now(h), t.existing, s.containers.Keys, s.nextId, made, extra, gone);
    StandsKeepsCapacity(Now(h), t, s.nextId, made, extra, gone);
  }

  lemma SafeNext(h: Host, h': Host, t: Template, s: Host)
    requires Safe(h, t, s) && (h'.log == h.log || (h'.log == h.log + [Now(h')] && Capacity(Now(h'), t, s.nextId)))
    requires forall id :: id in h'.removed && id < s.nextId ==> id in h.removed || id in t.existing
    requires forall id :: id in h.known ==> id in h'.known && h'.known[id] == h.known[id]
    ensures Safe(h', t, s)
  {
    forall n | |s.log| <= n < |h'.log| ensures Capacity(h'.log[n], t, s.nextId) {
      assert n < |h.log| ==> h'.log[n] == h.log[n];
    }
  }

  // One call at a time: the shape, the rest, the whole.

  lemma ShapeCreated(h: Host, t: Template, s: Host, made: set<nat>, gone: set<nat>, c: Container)
    requires Shape(h, t, s, made, {}, gone) && |made| == |gone| && s.nextId <= h.nextId
    ensures Shape(AfterCreate(h, c), t, s, made, {h.nextId}, gone)
  {
  }

  lemma ShapeStarted(h: Host, t: Template, s: Host, made: set<nat>, gone: set<nat>, id: nat)
    requires Shape(h, t, s, made, {id}, gone) && id in h.containers
    ensures Shape(AfterStart(h, id), t, s, made, {id}, gone)
  {
    assert AfterStart(h, id).containers.Keys == h.containers.Keys;
  }

  lemma ShapeGated(h: Host, t: Template, s: Host, made: set<nat>, gone: set<nat>, id: nat)
    requires Shape(h, t, s, made, {id}, gone) && |made| == |gone|
    requires id !in made && id in h.containers && h.containers[id].running
    ensures Shape(AfterGate(h, id), t, s, made + {id}, {}, gone)
  {
  }

  lemma ShapeDropped(h: Host, t: Template, s: Host, made: set<nat>, gone: set<nat>, id: nat)
    requires Shape(h, t, s, made, {id}, gone) && id !in made && id !in s.containers
    ensures Shape(AfterRemove(h, id), t, s, made, {}, gone)
  {
  }

  lemma ShapeDrained(h: Host, t: Template, s: Host, made: set<nat>, gone: set<nat>, id: nat)
    requires Shape(h, t, s, made, {}, gone)
    requires id in ToSet(t.existing) && id < s.nextId && id !in gone && |made| <= |gone| + 1
    requires |(gone + {id}) * ToSet(t.tplSet)| <= |made|
    ensures Shape(AfterRemove(h, id), t, s, made, {}, gone + {id})
  {
  }

  lemma OnlyRolledCreated(h: Host, t: Template, s: Host, c: Container)
    requires OnlyRolled(h, t, s) && Built(c, t) && s.nextId <= h.nextId && h.nextId !in h.containers
    ensures OnlyRolled(AfterCreate(h, c), t, s)
  {
  }

  lemma OnlyRolledStarted(h: Host, t: Template, s: Host, id: nat)
    requires OnlyRolled(h, t, s) && id in h.containers && s.nextId <= id
    ensures OnlyRolled(AfterStart(h, id), t, s)
  {
  }

  lemma OnlyRolledRemoved(h: Host, t: Template, s: Host, id: nat)
    requires OnlyRolled(h, t, s) && (id in t.existing || id !in s.containers)
    ensures OnlyRolled(AfterRemove(h, id), t, s)
  {
  }

  /** What a roll in progress says about single containers. */
  lemma InProgress(h: Host, t: Template, s: Host, made: set<nat>, extra: set<nat>, gone: set<nat>)
    requires Rollable(t, s) && Progress(h, t, s, made, extra, gone)
    ensures h.nextId !in h.containers && h.nextId !in made && s.nextId <= h.nextId
    ensures forall id :: id in t.existing && id !in gone ==> id in h.containers
    ensures forall id :: id in t.tplSet ==> id in t.existing
    ensures made + extra <= h.containers.Keys
    ensures forall id :: id in made + extra ==> id >= s.nextId
    ensures forall id :: id in t.existing ==> id < s.nextId
    ensures |gone * ToSet(t.tplSet)| <= |made|
  {
    forall id | id in t.tplSet ensures id in t.existing {
      assert id in ToSet(t.tplSet);
    }
  }

  lemma ProgressStart(t: Template, s: Host)
    requires Rollable(t, s)
    ensures Progress(s, t, s, {}, {}, {})
  {
  }

  lemma SafeCreated(h: Host, t: Template, s: Host, c: Container)
    requires ValidHost(h) && Safe(h, t, s) && Capacity(Now(AfterCreate(h, c)), t, s.nextId)
    ensures Safe(AfterCreate(h, c), t, s)
  {
    assert AfterCreate(h, c).log == h.log + [Now(AfterCreate(h, c))];
    SafeNext(h, AfterCreate(h, c), t, s);
  }

  lemma CreateProgress(h: Host, t: Template, s: Host, made: set<nat>, gone: set<nat>, cname: string)
    requires Rollable(t, s) && Progress(h, t, s, made, {}, gone) && |made| == |gone|
    ensures Progress(AfterCreate(h, Fresh(t, cname)), t, s, made, {h.nextId}, gone)
  {
    hide ValidHost, OnlyRolled, Safe, Shape;
    InProgress(h, t, s, made, {}, gone);
    CallsKeepValid(h, Fresh(t, cname), 0, Vanish(0));
    ShapeCreated(h, t, s, made, gone, Fresh(t, cname));
    ShapeHasCapacity(AfterCreate(h, Fresh(t, cname)), t, s, made, {h.nextId}, gone);
    SafeCreated(h, t, s, Fresh(t, cname));
    OnlyRolledCreated(h, t, s, Fresh(t, cname));
  }

  lemma StartProgress(h: Host, t: Template, s: Host, made: set<nat>, gone: set<nat>, id: nat)
    requires Rollable(t, s) && Progress(h, t, s, made, {id}, gone) && id in h.containers
    ensures Progress(AfterStart(h, id), t, s, made, {id}, gone)
  {
    var h' := AfterStart(h, id);
    CallsKeepValid(h, h.containers[id], id, Vanish(0));
    ShapeStarted(h, t, s, made, gone, id);
    SafeNext(h, h', t, s);
    OnlyRolledStarted(h, t, s, id);
  }

  lemma GateProgress(h: Host, t: Template, s: Host, made: set<nat>, gone: set<nat>, id: nat)
    requires Rollable(t, s) && Progress(h, t, s, made, {id}, gone) && |made| == |gone|
    requires id !in made && id in h.containers && h.containers[id].running
    ensures Progress(AfterGate(h, id), t, s, made + {id}, {}, gone)
  {
    var h' := AfterGate(h, id);
    CallsKeepValid(h, h.containers[id], id, Vanish(0));
    ShapeGated(h, t, s, made, gone, id);
    ShapeHasCapacity(h', t, s, made + {id}, {}, gone);
    SafeNext(h, h', t, s);
    assert OnlyRolled(h', t, s);
  }

  /** A replica that failed its gate was looked at and left. */
  lemma UngatedProgress(h: Host, t: Template, s: Host, made: set<nat>, gone: set<nat>, id: nat)
    requires Rollable(t, s) && Progress(h, t, s, made, {id}, gone)
    ensures Progress(Logged(h), t, s, made, {id}, gone)
  {
    CallsKeepValid(h, NOBODY, 0, Vanish(0));
    ShapeHasCapacity(h, t, s, made, {id}, gone);
    SafeNext(h, Logged(h), t, s);
  }

  lemma DropProgress(h: Host, t: Template, s: Host, made: set<nat>, gone: set<nat>, id: nat)
    requires Rollable(t, s) && Progress(h, t, s, made, {id}, gone) && id !in made && id in h.containers
    ensures Progress(AfterRemove(h, id), t, s, made, {}, gone)
  {
    var h' := AfterRemove(h, id);
    CallsKeepValid(h, h.containers[id], id, Vanish(0));
    ShapeDropped(h, t, s, made, gone, id);
    ShapeHasCapacity(h', t, s, made, {}, gone);
    SafeNext(h, h', t, s);
    OnlyRolledRemoved(h, t, s, id);
  }

  lemma DrainProgress(h: Host, t: Template, s: Host, made: set<nat>, gone: set<nat>, id: nat)
    requires Rollable(t, s) && Progress(h, t, s, made, {}, gone)
    requires id in t.existing && id !in gone && |made| <= |gone| + 1
    requires |(gone + {id}) * ToSet(t.tplSet)| <= |made|
    ensures Progress(AfterRemove(h, id), t, s, made, {}, gone + {id})
  {
    var h' := AfterRemove(h, id);
    assert id in h.containers;
    CallsKeepValid(h, h.containers[id], id, Vanish(0));
    ShapeDrained(h, t, s, made, gone, id);
    ShapeHasCapacity(h', t, s, made, {}, gone + {id});
    SafeNext(h, h', t, s);
    OnlyRolledRemoved(h, t, s, id);
  }

  /** One whole swap. */
  lemma SwapProgress(h: Host, t: Template, s: Host, cname: string, victim: nat, removeOnGateFailure: bool, fate: Fate,
                     made: set<nat>, gone: set<nat>) returns (extra: set<nat>)
    requires Rollable(t, s) && Progress(h, t, s, made, {}, gone) && |made| == |gone|
    requires gone <= ToSet(t.tplSet) && victim in t.tplSet && victim !in gone
    ensures var (h', r) := Swap(h, t, cname, victim, removeOnGateFailure, fate);
            if r.Ok? then r.value !in made && Progress(h', t, s, made + {r.value}, {}, gone + {victim})
            else Progress(h', t, s, made, extra, gone) && (removeOnGateFailure ==> extra == {})
  {
    hide Progress, Rollable;
    var id := h.nextId;
    extra := {};
    if fate == CreateFails || NameTaken(h, cname) {
      return;
    }
    InProgress(h, t, s, made, {}, gone);
    CreateProgress(h, t, s, made, gone, cname);
    var created := AfterCreate(h, Fresh(t, cname));
    if fate == StartFails {
      DropProgress(created, t, s, made, gone, id);
      return;
    }
    StartProgress(created, t, s, made, gone, id);
    var started := AfterStart(created, id);
    if fate == GateFails {
      UngatedProgress(started, t, s, made, gone, id);
      if removeOnGateFailure {
        DropProgress(Logged(started), t, s, made, gone, id);
      } else {
        extra := {id};
      }
      return;
    }
    GateProgress(started, t, s, made, gone, id);
    assert (gone + {victim}) * ToSet(t.tplSet) == gone + {victim};
    DrainProgress(AfterGate(started, id), t, s, made + {id}, gone, victim);
  }

  lemma NextIsNew(t: Template, s: Host, i: nat)
    requires Rollable(t, s)
    ensures i < |t.tplSet| ==> t.tplSet[i] !in ToSet(t.tplSet[..i]) && t.tplSet[i] in t.tplSet
    ensures i < |t.existing| ==> t.existing[i] !in ToSet(t.existing[..i]) && t.existing[i] in t.existing
  {
  }

  lemma ToSetNext(ids: seq<nat>, i: nat)
    requires i < |ids|
    ensures ToSet(ids[..i + 1]) == ToSet(ids[..i]) + {ids[i]}
  {
    assert ids[..i + 1] == ids[..i] + [ids[i]];
  }

  lemma EmptyPrefix(ids: seq<nat>)
    ensures ToSet(ids[..0]) == {}
  {
  }

  /** How far the first n swaps got, on state h with result r. */
  ghost predicate Swapping(h: Host, r: Result<set<nat>, RollError>, t: Template, s: Host, removeOnGateFailure: bool,
                           n: nat, made: set<nat>, extra: set<nat>, gone: set<nat>)
    requires n <= |t.tplSet|
  {
    && Progress(h, t, s, made, extra, gone)
    && (r.Ok? ==> r.value == made && |made| == n == |gone| && extra == {} && gone == ToSet(t.tplSet[..n]))
    && (r.Err? && removeOnGateFailure ==> extra == {})
  }

  lemma SwapStep(h: Host, r: Result<set<nat>, RollError>, t: Template, s: Host, cname: string,
                 removeOnGateFailure: bool, fate: Fate, n: nat, made: set<nat>, gone: set<nat>)
    returns (new1: set<nat>, extra1: set<nat>, gone1: set<nat>)
    requires Rollable(t, s) && n < |t.tplSet| && r.Ok?
    requires Swapping(h, r, t, s, removeOnGateFailure, n, made, {}, gone)
    ensures var (h', one) := Swap(h, t, cname, t.tplSet[n], removeOnGateFailure, fate);
            Swapping(h', if one.Ok? then Ok(r.value + {one.value}) else Err(one.error), t, s, removeOnGateFailure,
                     n + 1, new1, extra1, gone1)
  {
    hide Rollable, Progress, Swap;
    NextIsNew(t, s, n);
    ToSetNext(t.tplSet, n);
    InProgress(h, t, s, made, {}, gone);
    extra1 := SwapProgress(h, t, s, cname, t.tplSet[n], removeOnGateFailure, fate, made, gone);
    var one := Swap(h, t, cname, t.tplSet[n], removeOnGateFailure, fate).1;
    if one.Ok? {
      new1, extra1, gone1 := made + {one.value}, {}, gone + {t.tplSet[n]};
    } else {
      new1, gone1 := made, gone;
    }
  }

  lemma {:induction false} SwapsProgress(s: Host, svc: string, t: Template, removeOnGateFailure: bool,
                                         fates: nat -> Fate, n: nat)
    returns (made: set<nat>, extra: set<nat>, gone: set<nat>)
    requires Rollable(t, s) && n <= |t.tplSet|
    ensures var (h, r) := Swaps(s, svc, t, removeOnGateFailure, fates, n);
            Swapping(h, r, t, s, removeOnGateFailure, n, made, extra, gone)
  {
    hide Rollable, Progress, Swap;
    if n == 0 {
      made, extra, gone := {}, {}, {};
      ProgressStart(t, s);
      return;
    }
    made, extra, gone := SwapsProgress(s, svc, t, removeOnGateFailure, fates, n - 1);
    var (h, r) := Swaps(s, svc, t, removeOnGateFailure, fates, n - 1);
    if r.Ok? {
      made, extra, gone := SwapStep(h, r, t, s, NewName(svc, t.startIdx, n - 1), removeOnGateFailure, fates(n - 1),
                                    n - 1, made, gone);
    }
  }

  lemma SweepStep(h: Host, t: Template, s: Host, made: set<nat>, replaced: set<nat>, n: nat)
    requires Rollable(t, s) && n < |t.existing|
    requires replaced == ToSet(t.tplSet) && |made| == |replaced|
    requires Progress(h, t, s, made, {}, replaced + ToSet(t.existing[..n]))
    ensures Progress(if t.existing[n] in replaced then h else AfterRemove(h, t.existing[n]), t, s, made, {},
                     replaced + ToSet(t.existing[..n + 1]))
  {
    hide Rollable, Progress, AfterRemove;
    var gone, leftover := replaced + ToSet(t.existing[..n]), t.existing[n];
    NextIsNew(t, s, n);
    ToSetNext(t.existing, n);
    assert replaced + ToSet(t.existing[..n + 1]) == gone + {leftover};
    if leftover in replaced {
      assert gone + {leftover} == gone;
    } else {
      assert (gone + {leftover}) * ToSet(t.tplSet) == replaced;
      SubsetSize(replaced, gone);
      DrainProgress(h, t, s, made, gone, leftover);
    }
  }

  lemma {:induction false} SweepProgress(h: Host, t: Template, s: Host, made: set<nat>, replaced: set<nat>, n: nat)
    requires Rollable(t, s) && n <= |t.existing|
    requires Progress(h, t, s, made, {}, replaced) && replaced == ToSet(t.tplSet) && |made| == |replaced|
    ensures Progress(Sweep(h, t.existing, replaced, n), t, s, made, {}, replaced + ToSet(t.existing[..n]))
  {
    hide Rollable, Progress, AfterRemove, ToSet;
    if n == 0 {
      EmptyPrefix(t.existing);
      assert replaced + {} == replaced;
    } else {
      SweepProgress(h, t, s, made, replaced, n - 1);
      SweepStep(Sweep(h, t.existing, replaced, n - 1), t, s, made, replaced, n - 1);
    }
  }

  /** What is left to see when a roll ends. */
  ghost predicate Ended(h: Host, r: Result<set<nat>, RollError>, t: Template, s: Host, removeOnGateFailure: bool) {
    && (r.Ok? ==>
          && h.containers.Keys == (s.containers.Keys - ToSet(t.existing)) + r.value
          && |r.value| == |t.tplSet|
          && forall id :: id in r.value ==> id >= s.nextId && id in h.gated && id in h.containers && h.containers[id].running)
    && (r.Err? && removeOnGateFailure ==> forall id :: id in h.containers && id >= s.nextId ==> id in h.gated)
  }

  lemma EndOfRoll(h: Host, r: Result<set<nat>, RollError>, t: Template, s: Host, removeOnGateFailure: bool,
                  made: set<nat>, extra: set<nat>, gone: set<nat>)
    requires Rollable(t, s) && Progress(h, t, s, made, extra, gone)
    requires r.Ok? ==> r.value == made && |made| == |t.tplSet| && gone == ToSet(t.existing) && extra == {}
    requires r.Err? && removeOnGateFailure ==> extra == {}
    ensures ValidHost(h) && OnlyRolled(h, t, s) && Safe(h, t, s)
    ensures Ended(h, r, t, s, removeOnGateFailure) && s.nextId <= h.nextId
  {
    assert ValidHost(h);
    assert OnlyRolled(h, t, s);
    assert Safe(h, t, s);
  }

  /** Surge of one: at every moment of a roll the serving replicas number at least
      the members it replaces and at most one container more than before exists;
      success leaves exactly as many new replicas as were replaced, all gated and
      running, and none of the existing members; an error that removes failed
      replicas leaves every new one gated. Nothing else is touched. */
  lemma RollIsSurgeOfOne(s: Host, svc: string, t: Template, removeOnGateFailure: bool, fates: nat -> Fate)
    requires Rollable(t, s)
    ensures var (h, r) := Roll(s, svc, t, removeOnGateFailure, fates);
            && ValidHost(h) && OnlyRolled(h, t, s) && Safe(h, t, s) && s.nextId <= h.nextId
            && Ended(h, r, t, s, removeOnGateFailure)
  {
    hide Rollable, Progress, ValidHost, OnlyRolled, Safe, Ended;
    var made, extra, gone := SwapsProgress(s, svc, t, removeOnGateFailure, fates, |t.tplSet|);
    var (h, r) := Swaps(s, svc, t, removeOnGateFailure, fates, |t.tplSet|);
    if r.Ok? {
      assert t.tplSet[..|t.tplSet|] == t.tplSet && t.existing[..|t.existing|] == t.existing;
      SweepProgress(h, t, s, made, gone, |t.existing|);
      InProgress(h, t, s, made, extra, gone);
      assert gone + ToSet(t.existing) == ToSet(t.existing);
      EndOfRoll(Sweep(h, t.existing, gone, |t.existing|), r, t, s, removeOnGateFailure, made, {}, ToSet(t.existing));
    } else {
      EndOfRoll(h, r, t, s, removeOnGateFailure, made, extra, gone);
    }
  }

  lemma HealthySwap(h: Host, t: Template, cname: string, victim: nat, removeOnGateFailure: bool)
    requires !NameTaken(h, cname)
    ensures var (h', r) := Swap(h, t, cname, victim, removeOnGateFailure, Healthy);
            && r == Ok(h.nextId)
            && (h.nextId in h'.containers ==> h'.containers[h.nextId].name == cname)
            && forall id :: id in h'.containers && id != h.nextId ==> id in h.containers && h'.containers[id] == h.containers[id]
  {
  }

  lemma OldOnesUnchanged(h: Host, t: Template, s: Host, made: set<nat>, extra: set<nat>, gone: set<nat>, id: nat)
    requires Rollable(t, s) && (Progress(h, t, s, made, extra, gone) || h == s) && id in h.containers
    ensures id < s.nextId ==> id in s.containers && h.containers[id] == s.containers[id]
    ensures h == s ==> id < s.nextId
  {
  }

  /** The containers a roll has created bear the first n of its names. */
  ghost predicate NamedByRoll(h: Host, svc: string, t: Template, s: Host, n: nat) {
    forall id :: id in h.containers && id >= s.nextId ==>
      exists k: nat :: k < n && h.containers[id].name == NewName(svc, t.startIdx, k)
  }

  lemma NobodyNamedYet(svc: string, t: Template, s: Host)
    requires forall id :: id in s.containers ==> id < s.nextId
    ensures NamedByRoll(s, svc, t, s, 0)
  {
  }

  lemma NamedNext(h: Host, h': Host, svc: string, t: Template, s: Host, n: nat)
    requires NamedByRoll(h, svc, t, s, n)
    requires h.nextId in h'.containers ==> h'.containers[h.nextId].name == NewName(svc, t.startIdx, n)
    requires forall id :: id in h'.containers && id != h.nextId ==> id in h.containers && h'.containers[id] == h.containers[id]
    ensures NamedByRoll(h', svc, t, s, n + 1)
  {
    hide NewName;
    forall id | id in h'.containers && id >= s.nextId
      ensures exists k: nat :: k < n + 1 && h'.containers[id].name == NewName(svc, t.startIdx, k) {
      if id != h.nextId {
        var k: nat :| k < n && h.containers[id].name == NewName(svc, t.startIdx, k);
      }
    }
  }

  lemma NewNameIsFree(h: Host, svc: string, t: Template, s: Host, made: set<nat>, extra: set<nat>, gone: set<nat>,
                      n: nat, id: nat)
    requires Rollable(t, s) && Progress(h, t, s, made, extra, gone) && id in h.containers
    requires id < s.nextId && id in s.containers ==> s.containers[id].name != NewName(svc, t.startIdx, n)
    requires NamedByRoll(h, svc, t, s, n)
    ensures h.containers[id].name != NewName(svc, t.startIdx, n)
  {
    hide Progress, Rollable;
    OldOnesUnchanged(h, t, s, made, extra, gone, id);
    if id >= s.nextId {
      var k: nat :| k < n && h.containers[id].name == NewName(svc, t.startIdx, k);
      NewNamesAreNew(svc, [], t.startIdx, k, n);
    }
  }

  /** A roll whose replicas all come up, under names nobody has, succeeds: each
      new name is also new to the names the roll itself gives out. */
  lemma {:induction false} HealthySwapsSucceed(s: Host, svc: string, t: Template, removeOnGateFailure: bool,
                                               fates: nat -> Fate, n: nat)
    requires Rollable(t, s) && n <= |t.tplSet|
    requires forall i :: 0 <= i < n ==> fates(i) == Healthy
    requires forall id, i: nat :: id in s.containers && i < n ==> s.containers[id].name != NewName(svc, t.startIdx, i)
    ensures var (h, r) := Swaps(s, svc, t, removeOnGateFailure, fates, n);
            r.Ok? && NamedByRoll(h, svc, t, s, n)
  {
    hide Swap, Progress, Rollable, NewName, NamedByRoll;
    if n == 0 {
      forall id | id in s.containers ensures id < s.nextId {
        OldOnesUnchanged(s, t, s, {}, {}, {}, id);
      }
      NobodyNamedYet(svc, t, s);
    } else {
      HealthySwapsSucceed(s, svc, t, removeOnGateFailure, fates, n - 1);
      var made, extra, gone := SwapsProgress(s, svc, t, removeOnGateFailure, fates, n - 1);
      var h := Swaps(s, svc, t, removeOnGateFailure, fates, n - 1).0;
      forall id | id in h.containers ensures h.containers[id].name != NewName(svc, t.startIdx, n - 1) {
        NewNameIsFree(h, svc, t, s, made, extra, gone, n - 1, id);
      }
      HealthySwap(h, t, NewName(svc, t.startIdx, n - 1), t.tplSet[n - 1], removeOnGateFailure);
      NamedNext(h, Swap(h, t, NewName(svc, t.startIdx, n - 1), t.tplSet[n - 1], removeOnGateFailure, Healthy).0, svc, t, s, n - 1);
    }
  }

  lemma OutsidersStay(h: Host, t: Template, s: Host, made: set<nat>, extra: set<nat>, gone: set<nat>, id: nat)
    requires Rollable(t, s) && Progress(h, t, s, made, extra, gone) && id in s.containers && id !in t.existing
    ensures id in h.containers && h.containers[id] == s.containers[id]
  {
  }

  lemma SwapFate(h: Host, t: Template, cname: string, victim: nat, removeOnGateFailure: bool, fate: Fate)
    ensures Swap(h, t, cname, victim, removeOnGateFailure, fate).1
         == (if fate == CreateFails || NameTaken(h, cname) then Err(CreateFailed)
             else if fate == StartFails then Err(StartFailed)
             else if fate == GateFails then Err(GateFailed)
             else Ok(h.nextId))
  {
  }

  predicate Taken(s: Host, svc: string, t: Template, i: nat) {
    NameTaken(s, NewName(svc, t.startIdx, i))
  }

  /** Replica i is the first that does not make it, and e says why. */
  ghost predicate FailsAt(s: Host, svc: string, t: Template, fates: nat -> Fate, i: nat, e: RollError) {
    && i < |t.tplSet|
    && (forall j: nat :: j < i ==> fates(j) == Healthy && !Taken(s, svc, t, j))
    && (match e
        case CreateFailed => fates(i) == CreateFails || Taken(s, svc, t, i)
        case StartFailed => fates(i) == StartFails && !Taken(s, svc, t, i)
        case GateFailed => fates(i) == GateFails && !Taken(s, svc, t, i))
  }

  /** In the middle of a roll exactly the names taken at its start are taken, as far
      as the names still to be given out go. */
  lemma TakenAsAtStart(s: Host, svc: string, t: Template, removeOnGateFailure: bool, fates: nat -> Fate, n: nat)
    requires Rollable(t, s) && n < |t.tplSet|
    requires forall id, i: nat :: id in t.existing ==> s.containers[id].name != NewName(svc, t.startIdx, i)
    requires forall j: nat :: j < n ==> fates(j) == Healthy && !Taken(s, svc, t, j)
    ensures var (h, r) := Swaps(s, svc, t, removeOnGateFailure, fates, n);
            r.Ok? && (NameTaken(h, NewName(svc, t.startIdx, n)) <==> Taken(s, svc, t, n))
  {
    hide Swap, Progress;
    forall id, i: nat | id in s.containers && i < n ensures s.containers[id].name != NewName(svc, t.startIdx, i) {
      assert !Taken(s, svc, t, i);
    }
    HealthySwapsSucceed(s, svc, t, removeOnGateFailure, fates, n);
    var made, extra, gone := SwapsProgress(s, svc, t, removeOnGateFailure, fates, n);
    var h := Swaps(s, svc, t, removeOnGateFailure, fates, n).0;
    if id :| id in s.containers && s.containers[id].name == NewName(svc, t.startIdx, n) {
      OutsidersStay(h, t, s, made, extra, gone, id);
    } else {
      forall id | id in h.containers ensures h.containers[id].name != NewName(svc, t.startIdx, n) {
        NewNameIsFree(h, svc, t, s, made, extra, gone, n, id);
      }
    }
  }

  lemma FailsHere(h: Host, s: Host, svc: string, t: Template, removeOnGateFailure: bool, fates: nat -> Fate, i: nat)
    requires i < |t.tplSet| && forall j: nat :: j < i ==> fates(j) == Healthy && !Taken(s, svc, t, j)
    requires NameTaken(h, NewName(svc, t.startIdx, i)) <==> Taken(s, svc, t, i)
    ensures var r := Swap(h, t, NewName(svc, t.startIdx, i), t.tplSet[i], removeOnGateFailure, fates(i)).1;
            r.Err? ==> FailsAt(s, svc, t, fates, i, r.error)
  {
    hide Swap, Taken, NewName;
    SwapFate(h, t, NewName(svc, t.startIdx, i), t.tplSet[i], removeOnGateFailure, fates(i));
  }

  lemma {:induction false} SwapsFailAt(s: Host, svc: string, t: Template, removeOnGateFailure: bool, fates: nat -> Fate, n: nat)
    returns (i: nat)
    requires Rollable(t, s) && n <= |t.tplSet|
    requires forall id, i: nat :: id in t.existing ==> s.containers[id].name != NewName(svc, t.startIdx, i)
    ensures var r := Swaps(s, svc, t, removeOnGateFailure, fates, n).1;
            if r.Ok? then forall j: nat :: j < n ==> fates(j) == Healthy && !Taken(s, svc, t, j)
            else i < n && FailsAt(s, svc, t, fates, i, r.error)
  {
    hide Swap, Rollable, Taken, NewName, FailsAt, NameTaken;
    if n == 0 {
      return 0;
    }
    i := SwapsFailAt(s, svc, t, removeOnGateFailure, fates, n - 1);
    var (h, r) := Swaps(s, svc, t, removeOnGateFailure, fates, n - 1);
    if r.Ok? {
      TakenAsAtStart(s, svc, t, removeOnGateFailure, fates, n - 1);
      SwapFate(h, t, NewName(svc, t.startIdx, n - 1), t.tplSet[n - 1], removeOnGateFailure, fates(n - 1));
      i := n - 1;
      if Swaps(s, svc, t, removeOnGateFailure, fates, n).1.Err? {
        FailsHere(h, s, svc, t, removeOnGateFailure, fates, i);
      }
    }
  }

  /** A roll succeeds exactly when every replica comes up and none of the names it
      gives out is held by a container it does not replace; otherwise it ends at the
      first replica for which that fails, and says why. The starting index looks
      only at the members to be replaced, so a member a pinned roll leaves alone (an
      unstamped one) can hold such a name. */
  lemma RollSucceedsExactly(s: Host, svc: string, t: Template, removeOnGateFailure: bool, fates: nat -> Fate)
    requires Rollable(t, s)
    requires forall id, i: nat :: id in t.existing ==> s.containers[id].name != NewName(svc, t.startIdx, i)
    ensures var r := Roll(s, svc, t, removeOnGateFailure, fates).1;
            && (r.Ok? <==> forall j: nat :: j < |t.tplSet| ==> fates(j) == Healthy && !Taken(s, svc, t, j))
            && (r.Err? ==> exists i :: FailsAt(s, svc, t, fates, i, r.error))
  {
    hide Swaps, Rollable, Taken, Sweep;
    var i := SwapsFailAt(s, svc, t, removeOnGateFailure, fates, |t.tplSet|);
    var r := Swaps(s, svc, t, removeOnGateFailure, fates, |t.tplSet|).1;
    if r.Err? {
      assert FailsAt(s, svc, t, fates, i, r.error);
    }
  }
}

/** The relabel surge of an A/B test's B replicas and the proxy's config pick
    (relabelABReplicas in cmd/dashboard/abmanager.go, newABIDAfter in
    cmd/dashboard/abtest.go). The proxy reads a test's config from the B replica
    with the smallest id, then the smallest name. */
module AbRelabel {
  import opened Common
  import opened Text

  // ---- Ids ----

  const MAX_ID := 16

  /** A fresh id that sorts after old: some draw that does, else old extended. */
  method NewAbIdAfter(previous: string, draws: seq<string>, last: string) returns (id: string)
    requires |draws| == 64 && |last| == 8
    ensures |previous| < MAX_ID ==> Less(previous, id)
    ensures Less(previous, id) <==> |previous| < MAX_ID || Less(previous, last) || exists i :: 0 <= i < |draws| && Less(previous, draws[i])
    ensures (forall i :: 0 <= i < |draws| ==> |draws[i]| == 8) ==> |id| <= MAX_ID
  {
    for i := 0 to |draws|
      invariant forall j :: 0 <= j < i ==> !Less(previous, draws[j])
    {
      if Less(previous, draws[i]) {
        return draws[i];
      }
    }
    if |previous| < MAX_ID {
      var n := if MAX_ID - |previous| < 8 then MAX_ID - |previous| else 8;
      PrefixSortsFirst(previous, last[..n]);
      return previous + last[..n];
    }
    return last;
  }

  predicate Hex(s: string) {
    forall i :: 0 <= i < |s| ==> '0' <= s[i] <= '9' || 'a' <= s[i] <= 'f'
  }

  /** At full length it can fail: no hex draw of eight sorts after sixteen f's. */
  lemma {:induction false} FullLengthIdsRunOut(draw: string, n: nat)
    requires Hex(draw) && |draw| <= n
    ensures !Less(seq(n, _ => 'f'), draw)
  {
    if draw != [] {
      assert seq(n, _ => 'f')[1..] == seq(n - 1, _ => 'f');
      FullLengthIdsRunOut(draw[1..], n - 1);
    }
  }

  // ---- Names ----

  const MAX_INDEX := 1_000_000

  function CanaryName(svc: string, index: nat): string {
    "goproxy-" + svc + "-canary-" + Pad6(index)
  }

  lemma CanaryNameOrder(svc: string, m: nat, n: nat)
    requires m < MAX_INDEX && n < MAX_INDEX
    ensures Less(CanaryName(svc, m), CanaryName(svc, n)) <==> m < n
  {
    var p := "goproxy-" + svc + "-canary-";
    LessUnderPrefix(p, Pad6(m), Pad6(n));
    Pad6Order(m, n);
  }

  // ---- B replicas ----

  /** gen: which version of the record's labels it carries; gated: it passed its
      readiness gate. */
  datatype Replica = Replica(id: string, index: nat, gen: nat, gated: bool)

  type Bs = map<nat, Replica>

  predicate Before(svc: string, x: Replica, y: Replica) {
    Less(x.id, y.id) || (x.id == y.id && Less(CanaryName(svc, x.index), CanaryName(svc, y.index)))
  }

  /** The replica whose config the proxy uses. */
  ghost predicate IsPick(svc: string, b: Bs, k: nat) {
    k in b && forall j :: j in b && j != k ==> Before(svc, b[k], b[j])
  }

  /** creating is the replica waiting for its gate; id and gen are the record's. */
  datatype System = System(b: Bs, next: nat, id: string, gen: nat, creating: Option<nat>)

  datatype Event =
    | Renew(id: string)
    | Create(index: nat)
    | Gate(ok: bool)
    | RemoveOld(k: nat)
    | Crash

  predicate Above(b: Bs, index: nat) {
    forall k :: k in b ==> b[k].index < index
  }

  /** A relabel is one Create, Gate, RemoveOld per replica still behind. A reset
      renews the id, every other change of the record keeps it. A replica that
      fails its gate is removed; one that cannot be removed stays, as does one whose
      gate a crash cut short. */
  function Next(s: System, e: Event): System {
    match e
    case Renew(id) =>
      if s.creating.Some? || (id != s.id && !Less(s.id, id)) then s else s.(id := id, gen := s.gen + 1)
    case Create(index) =>
      if s.creating.Some? || s.b == map[] || !Above(s.b, index) || index >= MAX_INDEX then s
      else s.(b := s.b[s.next := Replica(s.id, index, s.gen, false)], next := s.next + 1, creating := Some(s.next))
    case Gate(ok) =>
      if s.creating.None? || s.creating.value !in s.b then s
      else
        var k := s.creating.value;
        s.(b := if ok then s.b[k := s.b[k].(gated := true)] else s.b - {k}, creating := None)
    case RemoveOld(k) =>
      if s.creating.Some? || k !in s.b || s.b[k].gen == s.gen || !(exists j :: j in s.b && s.b[j].gen == s.gen) then s
      else s.(b := s.b - {k})
    case Crash => s.(creating := None)
  }

  function Runs(s: System, events: seq<Event>): System
    decreases |events|
  {
    if events == [] then s else Runs(Next(s, events[0]), events[1..])
  }

  // ---- What each step does ----

  /** A change of the record is a new generation, under a renewed id only if that
      sorts after the old one. A new replica carries the record's id and generation
      and waits for its gate; it stays if it passes, gated, and goes if not. A
      replica behind may go once one of the present generation is there, and none
      while one waits. */
  lemma StepsExactly(s: System, id: string, index: nat, ok: bool, k: nat)
    ensures Next(s, Renew(id)) ==
            if s.creating.None? && (id == s.id || Less(s.id, id)) then s.(id := id, gen := s.gen + 1) else s
    ensures Next(s, Create(index)) ==
            if s.creating.None? && s.b != map[] && index < MAX_INDEX && (forall j :: j in s.b ==> s.b[j].index < index)
            then s.(b := s.b[s.next := Replica(s.id, index, s.gen, false)], next := s.next + 1, creating := Some(s.next))
            else s
    ensures s.creating.Some? && s.creating.value in s.b ==>
              var r := s.b[s.creating.value];
              Next(s, Gate(ok)) ==
                if ok then s.(b := s.b[s.creating.value := Replica(r.id, r.index, r.gen, true)], creating := None)
                else s.(b := s.b - {s.creating.value}, creating := None)
    ensures s.creating.None? && k in s.b && s.b[k].gen != s.gen && (exists j :: j in s.b && s.b[j].gen == s.gen) ==>
              Next(s, RemoveOld(k)) == s.(b := s.b - {k})
    ensures s.creating.Some? || k !in s.b || s.b[k].gen == s.gen ==> Next(s, RemoveOld(k)) == s
    ensures Next(s, Crash) == s.(creating := None)
  {
  }

  // ---- What every run keeps ----

  ghost predicate Distinct(b: Bs) {
    forall j, k :: j in b && k in b && j != k ==> b[j].index != b[k].index
  }

  /** Later in the proxy's order means an equal or newer generation. */
  ghost predicate Ordered(svc: string, b: Bs) {
    forall j, k :: j in b && k in b && Before(svc, b[j], b[k]) ==> b[j].gen <= b[k].gen
  }

  ghost predicate Fits(s: System) {
    && (forall k :: k in s.b ==> k < s.next && s.b[k].index < MAX_INDEX && s.b[k].gen <= s.gen)
    && (forall k :: k in s.b ==> s.b[k].id == s.id || Less(s.b[k].id, s.id))
  }

  /** The replica waiting for its gate is the newest, and not the only one. */
  ghost predicate CreatingLast(s: System) {
    s.creating.Some? ==>
      && s.creating.value in s.b && !s.b[s.creating.value].gated
      && (forall k :: k in s.b && k != s.creating.value ==> s.b[k].index < s.b[s.creating.value].index)
      && s.b[s.creating.value].id == s.id && s.b[s.creating.value].gen == s.gen
      && exists k :: k in s.b && k != s.creating.value
  }

  /** What every run keeps, crashes included. */
  ghost predicate Inv(svc: string, s: System) {
    Distinct(s.b) && Ordered(svc, s.b) && Fits(s) && CreatingLast(s)
  }

  /** What a run without crashes keeps besides. */
  ghost predicate AllGated(s: System) {
    forall k :: k in s.b && s.creating != Some(k) ==> s.b[k].gated
  }

  /** A test as its start leaves it: B's replicas all gated, under one record. */
  ghost predicate Started(s: System) {
    && s.creating.None? && s.b != map[] && Distinct(s.b)
    && forall k :: k in s.b ==>
         k < s.next && s.b[k].index < MAX_INDEX && s.b[k].gated && s.b[k].id == s.id && s.b[k].gen == s.gen
  }

  lemma StartedKeepsInv(svc: string, s: System)
    requires Started(s)
    ensures Inv(svc, s) && AllGated(s)
  {
  }

  /** The record's id with an index above all sorts after every replica. */
  lemma NewestSortsLast(svc: string, s: System, k: nat, r: Replica)
    requires Fits(s) && k in s.b && r.id == s.id && s.b[k].index < r.index < MAX_INDEX
    ensures Before(svc, s.b[k], r) && !Before(svc, r, s.b[k])
  {
    CanaryNameOrder(svc, s.b[k].index, r.index);
    CanaryNameOrder(svc, r.index, s.b[k].index);
    LessTotal(s.b[k].id, r.id);
  }

  lemma CreateKeepsInv(svc: string, s: System, index: nat)
    requires Inv(svc, s)
    ensures Inv(svc, Next(s, Create(index)))
  {
    var s' := Next(s, Create(index));
    if s' != s {
      var r := s'.b[s.next];
      forall k | k in s.b ensures k in s'.b && s'.b[k] == s.b[k] && Before(svc, s.b[k], r) && !Before(svc, r, s.b[k]) {
        NewestSortsLast(svc, s, k, r);
      }
      var k :| k in s.b;
      assert k in s'.b && k != s.next;
      LessTotal(r.id, r.id);
      LessTotal(CanaryName(svc, r.index), CanaryName(svc, r.index));
      assert Ordered(svc, s'.b);
    }
  }

  lemma GateKeepsInv(svc: string, s: System, ok: bool)
    requires Inv(svc, s)
    ensures Inv(svc, Next(s, Gate(ok)))
  {
    var s' := Next(s, Gate(ok));
    forall k | k in s'.b ensures k in s.b && s'.b[k] == s.b[k].(gated := s'.b[k].gated) {
    }
    forall j, k | j in s'.b && k in s'.b && Before(svc, s'.b[j], s'.b[k]) ensures s'.b[j].gen <= s'.b[k].gen {
      assert Before(svc, s.b[j], s.b[k]);
    }
  }

  lemma StepKeepsInv(svc: string, s: System, e: Event)
    requires Inv(svc, s)
    ensures Inv(svc, Next(s, e))
  {
    match e
    case Renew(id) =>
      if Next(s, e) != s {
        forall k | k in s.b && id != s.id ensures Less(s.b[k].id, id) {
          if s.b[k].id != s.id {
            LessTransitive(s.b[k].id, s.id, id);
          }
        }
      }
    case Create(index) => CreateKeepsInv(svc, s, index);
    case Gate(ok) => GateKeepsInv(svc, s, ok);
    case RemoveOld(k) =>
      var s' := Next(s, e);
      forall j | j in s'.b ensures j in s.b && s'.b[j] == s.b[j] {
      }
    case Crash =>
  }

  lemma StepKeepsGated(svc: string, s: System, e: Event)
    requires Inv(svc, s) && AllGated(s) && !e.Crash?
    ensures AllGated(Next(s, e))
  {
  }

  /** A replica still waiting for its gate sorts last, so it is never the pick. */
  lemma PickIsGated(svc: string, s: System, k: nat)
    requires Inv(svc, s) && AllGated(s) && IsPick(svc, s.b, k)
    ensures s.b[k].gated
  {
    if s.creating == Some(k) {
      var j :| j in s.b && j != k;
      NewestSortsLast(svc, s, j, s.b[k]);
    }
  }

  /** One step never moves the pick to an older generation. */
  lemma PickStepsForward(svc: string, s: System, e: Event, k: nat, k': nat)
    requires Inv(svc, s) && IsPick(svc, s.b, k) && IsPick(svc, Next(s, e).b, k')
    ensures s.b[k].gen <= Next(s, e).b[k'].gen
  {
    var s' := Next(s, e);
    if k' in s.b {
      if k' != k {
        assert Before(svc, s.b[k], s.b[k']);
      }
    } else {
      assert s'.b[k'].gen == s.gen;
    }
  }

  /** There always is a pick, and B never runs empty. */
  lemma {:induction false} PickExists(svc: string, b: Bs) returns (k: nat)
    requires b != map[] && Distinct(b) && forall j :: j in b ==> b[j].index < MAX_INDEX
    ensures IsPick(svc, b, k)
    decreases |b|
  {
    var j :| j in b;
    var rest := b - {j};
    if rest == map[] {
      assert forall i :: i in b && i != j ==> i in rest;
      k := j;
    } else {
      assert forall i :: i in rest ==> i in b && rest[i] == b[i];
      assert |rest| < |b|;
      k := PickExists(svc, rest);
      TotalOrder(svc, b[j], b[k]);
      if Before(svc, b[j], b[k]) {
        forall i | i in b && i != j ensures Before(svc, b[j], b[i]) {
          if i != k {
            assert i in rest;
            BeforeTransitive(svc, b[j], b[k], b[i]);
          }
        }
        k := j;
      } else {
        assert forall i :: i in b && i != j ==> i in rest;
      }
    }
  }

  lemma TotalOrder(svc: string, x: Replica, y: Replica)
    requires x.index != y.index && x.index < MAX_INDEX && y.index < MAX_INDEX
    ensures Before(svc, x, y) || Before(svc, y, x)
  {
    LessTotal(x.id, y.id);
    CanaryNameOrder(svc, x.index, y.index);
    CanaryNameOrder(svc, y.index, x.index);
  }

  lemma BeforeTransitive(svc: string, x: Replica, y: Replica, z: Replica)
    requires Before(svc, x, y) && Before(svc, y, z)
    ensures Before(svc, x, z)
  {
    LessTotal(x.id, x.id);
    if Less(x.id, y.id) && Less(y.id, z.id) {
      LessTransitive(x.id, y.id, z.id);
    }
    if x.id == y.id == z.id {
      LessTransitive(CanaryName(svc, x.index), CanaryName(svc, y.index), CanaryName(svc, z.index));
    }
  }

  lemma NeverEmpty(svc: string, s: System, e: Event)
    requires Inv(svc, s) && s.b != map[]
    ensures Next(s, e).b != map[]
  {
    var s' := Next(s, e);
    match e
    case Gate(ok) =>
      if s.creating.Some? && !ok {
        var j :| j in s.b && j != s.creating.value;
        assert j in s'.b;
      } else if s.creating.Some? {
        assert s.creating.value in s'.b;
      }
    case RemoveOld(k) =>
      if s' != s {
        var j :| j in s.b && s.b[j].gen == s.gen;
        assert j in s'.b;
      }
    case Create(_) =>
      if s' != s {
        assert s.next in s'.b;
      }
    case Renew(_) =>
    case Crash =>
  }

  /** Config pick never moves back: over any sequence of relabels, failed gates,
      retries, resets and crashes, the replica the proxy reads always exists, and
      its generation never decreases. */
  lemma {:induction false} ConfigPickNeverMovesBack(svc: string, s: System, events: seq<Event>, k: nat) returns (k': nat)
    requires Inv(svc, s) && IsPick(svc, s.b, k)
    ensures Inv(svc, Runs(s, events)) && IsPick(svc, Runs(s, events).b, k')
    ensures s.b[k].gen <= Runs(s, events).b[k'].gen
    decreases |events|
  {
    if events == [] {
      return k;
    }
    var s1 := Next(s, events[0]);
    StepKeepsInv(svc, s, events[0]);
    NeverEmpty(svc, s, events[0]);
    var k1 := PickExists(svc, s1.b);
    PickStepsForward(svc, s, events[0], k, k1);
    k' := ConfigPickNeverMovesBack(svc, s1, events[1..], k1);
  }

  /** Without crashes, and with every replica gated at the start, the pick has always
      passed its gate. */
  lemma {:induction false} PickStaysGated(svc: string, s: System, events: seq<Event>)
    requires Inv(svc, s) && AllGated(s) && Crash !in events
    ensures Inv(svc, Runs(s, events)) && AllGated(Runs(s, events))
    ensures forall k :: IsPick(svc, Runs(s, events).b, k) ==> Runs(s, events).b[k].gated
    decreases |events|
  {
    if events == [] {
      forall k | IsPick(svc, s.b, k) ensures s.b[k].gated {
        PickIsGated(svc, s, k);
      }
    } else {
      assert events[0] in events;
      StepKeepsInv(svc, s, events[0]);
      StepKeepsGated(svc, s, events[0]);
      PickStaysGated(svc, Next(s, events[0]), events[1..]);
    }
  }

  /** From a test's start on: there always is a pick, of the present generation or
      one before, and without crashes it has passed its gate. */
  lemma PickFromTheStart(svc: string, s: System, events: seq<Event>) returns (k: nat)
    requires Started(s)
    ensures var t := Runs(s, events);
            && IsPick(svc, t.b, k) && s.gen <= t.b[k].gen <= t.gen
            && (Crash !in events ==> t.b[k].gated)
  {
    StartedKeepsInv(svc, s);
    var k0 := PickExists(svc, s.b);
    k := ConfigPickNeverMovesBack(svc, s, events, k0);
    if Crash !in events {
      PickStaysGated(svc, s, events);
    }
  }

  // ---- What a crash leaves ----

  /** The replicas the proxy prefers to k. */
  ghost function Ahead(svc: string, b: Bs, k: nat): set<nat>
    requires k in b
  {
    set j | j in b && j != k && !Before(svc, b[k], b[j])
  }

  /** One replica is replaced: created, gated, the old one removed. */
  function Surged(index: nat, victim: nat): seq<Event> {
    [Create(index), Gate(true), RemoveOld(victim)]
  }

  lemma RunsThree(s: System, e: Event, f: Event, g: Event)
    ensures Runs(s, [e, f, g]) == Next(Next(Next(s, e), f), g)
  {
    hide Next;
    var s1, s2 := Next(s, e), Next(Next(s, e), f);
    assert [e, f, g][1..] == [f, g] && [f, g][1..] == [g] && [g][1..] == [];
    assert Runs(s2, [g]) == Runs(Next(s2, g), []);
    assert Runs(s1, [f, g]) == Runs(s2, [g]);
  }

  /** The three steps as values. */
  lemma SurgeSteps(s: System, index: nat, victim: nat)
    requires s.creating.None? && victim in s.b && s.b[victim].gen != s.gen && victim < s.next
    requires Above(s.b, index) && index < MAX_INDEX
    ensures Next(Next(Next(s, Create(index)), Gate(true)), RemoveOld(victim))
         == s.(b := (s.b - {victim})[s.next := Replica(s.id, index, s.gen, true)], next := s.next + 1)
  {
    hide Next;
    StepsExactly(s, s.id, index, true, victim);
    var s1 := Next(s, Create(index));
    StepsExactly(s1, s.id, index, true, victim);
    var s2 := Next(s1, Gate(true));
    StepsExactly(s2, s.id, index, true, victim);
    assert s2.b == s.b[s.next := Replica(s.id, index, s.gen, true)];
    assert s.next in s2.b;
    assert s2.b - {victim} == (s.b - {victim})[s.next := Replica(s.id, index, s.gen, true)];
  }

  lemma SurgeDoes(svc: string, s: System, index: nat, victim: nat)
    requires Inv(svc, s) && s.creating.None? && victim in s.b && s.b[victim].gen != s.gen
    requires Above(s.b, index) && index < MAX_INDEX
    ensures Inv(svc, Runs(s, Surged(index, victim)))
    ensures Runs(s, Surged(index, victim))
         == s.(b := (s.b - {victim})[s.next := Replica(s.id, index, s.gen, true)], next := s.next + 1)
  {
    SurgeSteps(s, index, victim);
    hide Next, Inv;
    RunsThree(s, Create(index), Gate(true), RemoveOld(victim));
    StepKeepsInv(svc, s, Create(index));
    StepKeepsInv(svc, Next(s, Create(index)), Gate(true));
    StepKeepsInv(svc, Next(Next(s, Create(index)), Gate(true)), RemoveOld(victim));
  }

  lemma {:induction false} RunsJoin(s: System, first: seq<Event>, second: seq<Event>)
    ensures Runs(s, first + second) == Runs(Runs(s, first), second)
    decreases |first|
  {
    if first == [] {
      assert [] + second == second;
    } else {
      assert (first + second)[1..] == first[1..] + second;
      RunsJoin(Next(s, first[0]), first[1..], second);
    }
  }

  lemma RunsNothing(s: System)
    ensures Runs(s, []) == s
  {
  }

  /** Replacing one of the replicas ahead of k leaves the others ahead, and k stale
      no less than before. */
  lemma SurgeGoesOneAhead(svc: string, s: System, k: nat, index: nat, victim: nat)
    requires Inv(svc, s) && s.creating.None? && k in s.b && victim in Ahead(svc, s.b, k)
    requires s.b[victim].gen != s.gen && Above(s.b, index) && index < MAX_INDEX
    ensures var t := Runs(s, Surged(index, victim));
            && Inv(svc, t) && t.creating.None? && t.gen == s.gen && k in t.b && t.b[k] == s.b[k]
            && Ahead(svc, t.b, k) == Ahead(svc, s.b, k) - {victim}
            && (forall j :: j in t.b && j != s.next ==> j in s.b && t.b[j] == s.b[j])
            && s.next in t.b && Before(svc, s.b[k], t.b[s.next])
            && Above(t.b, index + 1)
  {
    SurgeDoes(svc, s, index, victim);
    assert Fits(s);
    hide Inv, Runs, Next, Before, Less;
    var t := Runs(s, Surged(index, victim));
    NewestSortsLast(svc, s, k, t.b[s.next]);
    forall j ensures j in Ahead(svc, t.b, k) <==> j in Ahead(svc, s.b, k) - {victim} {
      if j in t.b && j != s.next {
        assert t.b[j] == s.b[j];
      }
    }
  }

  /** Any replica comes to be the pick, once those ahead of it are replaced. */
  lemma {:induction false} Surfaces(svc: string, s: System, k: nat, index: nat) returns (events: seq<Event>)
    requires Inv(svc, s) && s.creating.None? && k in s.b
    requires forall j :: j in s.b && !Before(svc, s.b[k], s.b[j]) ==> s.b[j].gen != s.gen
    requires Above(s.b, index) && index + |Ahead(svc, s.b, k)| <= MAX_INDEX
    ensures Crash !in events
    ensures k in Runs(s, events).b && Runs(s, events).b[k] == s.b[k] && IsPick(svc, Runs(s, events).b, k)
    decreases |Ahead(svc, s.b, k)|
  {
    hide Inv, Runs, Next, Before, Less;
    var ahead := Ahead(svc, s.b, k);
    if ahead == {} {
      forall j | j in s.b && j != k ensures Before(svc, s.b[k], s.b[j]) {
        assert j !in ahead;
      }
      assert Runs(s, []) == s by {
        RunsNothing(s);
      }
      return [];
    }
    var victim :| victim in ahead;
    SurgeGoesOneAhead(svc, s, k, index, victim);
    var t := Runs(s, Surged(index, victim));
    var rest := Surfaces(svc, t, k, index + 1);
    RunsJoin(s, Surged(index, victim), rest);
    events := Surged(index, victim) + rest;
  }

  /** A replica that never passed its gate can become the pick without any further
      crash: the next change of the record makes every replica stale, and those
      ahead of it may be replaced first. */
  lemma UngatedCanSurface(svc: string, s: System, k: nat, index: nat) returns (events: seq<Event>)
    requires Inv(svc, s) && s.creating.None? && k in s.b && !s.b[k].gated
    requires Above(s.b, index) && index + |s.b| <= MAX_INDEX
    ensures Crash !in events && IsPick(svc, Runs(s, events).b, k) && !Runs(s, events).b[k].gated
  {
    var t := Next(s, Renew(s.id));
    StepKeepsInv(svc, s, Renew(s.id));
    AheadIsFewer(svc, s.b, k);
    var rest := Surfaces(svc, t, k, index);
    RunsJoin(s, [Renew(s.id)], rest);
    assert Runs(s, [Renew(s.id)]) == t by {
      assert Runs(t, []) == t;
    }
    events := [Renew(s.id)] + rest;
  }

  lemma AheadIsFewer(svc: string, b: Bs, k: nat)
    requires k in b
    ensures |Ahead(svc, b, k)| <= |b|
  {
    Fewer(Ahead(svc, b, k), b.Keys);
  }

  lemma Fewer(a: set<nat>, c: set<nat>)
    requires a <= c
    ensures |a| <= |c|
  {
    assert c == a + (c - a);
  }

  /** The pick stays gated for good, over every further run without a crash, exactly
      when every replica present has passed its gate. */
  lemma GatedForGoodExactly(svc: string, s: System, index: nat)
    requires Inv(svc, s) && s.creating.None?
    requires Above(s.b, index) && index + |s.b| <= MAX_INDEX
    ensures (forall k :: k in s.b ==> s.b[k].gated)
       <==> forall events, k :: Crash !in events && IsPick(svc, Runs(s, events).b, k) ==> Runs(s, events).b[k].gated
  {
    if forall k :: k in s.b ==> s.b[k].gated {
      forall events, k | Crash !in events && IsPick(svc, Runs(s, events).b, k) ensures Runs(s, events).b[k].gated {
        PickStaysGated(svc, s, events);
      }
    } else {
      var k :| k in s.b && !s.b[k].gated;
      var events := UngatedCanSurface(svc, s, k, index);
      assert IsPick(svc, Runs(s, events).b, k);
    }
  }

  /** So a crash between create and gate always leaves a state from which the proxy
      may come to read the config of a replica that never passed. */
  lemma CrashLeavesUngatedPick(svc: string, s: System, index: nat) returns (events: seq<Event>, k: nat)
    requires Inv(svc, s) && s.creating.Some?
    requires Above(s.b, index) && index + |s.b| <= MAX_INDEX
    ensures Crash !in events
    ensures var t := Runs(Next(s, Crash), events); IsPick(svc, t.b, k) && !t.b[k].gated
  {
    StepKeepsInv(svc, s, Crash);
    k := s.creating.value;
    events := UngatedCanSurface(svc, Next(s, Crash), k, index);
  }

  // ---- Where it needs its assumptions ----

  lemma AMillion()
    ensures Pad6(MAX_INDEX) == "1000000"
  {
    assert Itoa(1000) == "1000" by {
      assert Itoa(10) == "10";
      assert Itoa(100) == "100";
    }
    assert Itoa(10000) == "10000";
    assert Itoa(100000) == "100000";
  }

  lemma {:induction false} AllNines(w: nat)
    ensures Pow10(w) >= 1 && |PadDigits(Pow10(w) - 1, w)| == w
    ensures w > 0 ==> PadDigits(Pow10(w) - 1, w)[0] == '9'
  {
    if w > 0 {
      AllNines(w - 1);
      assert (Pow10(w) - 1) / 10 == Pow10(w - 1) - 1 && (Pow10(w) - 1) % 10 == 9;
    }
  }

  /** From the millionth name on, string order is no longer index order. */
  lemma NamesOutgrowTheirWidth(svc: string)
    ensures Less(CanaryName(svc, MAX_INDEX), CanaryName(svc, MAX_INDEX - 1))
  {
    AMillion();
    AllNines(6);
    Pow10Six();
    LessUnderPrefix("goproxy-" + svc + "-canary-", Pad6(MAX_INDEX), Pad6(MAX_INDEX - 1));
  }

  // ---- The surge itself ----

  lemma GateMeans(s: System, ok: bool)
    requires s.creating.Some? && s.creating.value in s.b
    ensures Next(s, Gate(ok)).b == if ok then s.b[s.creating.value := s.b[s.creating.value].(gated := true)]
                                   else s.b - {s.creating.value}
    ensures Next(s, Gate(ok)) == s.(b := Next(s, Gate(ok)).b, creating := None)
  {
  }

  /** After the first i replicas of the listing: old ones as they were, new ones as
      wanted, the rest still to do; all says that every removal succeeds. */
  ghost predicate Halfway(b: Bs, next: nat, b0: Bs, next0: nat, id: string, gen: nat, listing: seq<nat>, i: nat, all: bool)
    requires i <= |listing|
  {
    && next0 <= next
    && (forall k :: k in b ==> k < next)
    && (forall k :: k in b && k < next0 ==> k in b0 && b[k] == b0[k])
    && (forall k :: k in b && k >= next0 ==> b[k].id == id && b[k].gen == gen && b[k].gated)
    && (forall j :: i <= j < |listing| ==> listing[j] in b && listing[j] < next0)
    && (all ==> forall k :: k in b && k in listing[..i] ==> b[k].gen == gen)
  }

  lemma HalfwayStart(b: Bs, next: nat, id: string, gen: nat, listing: seq<nat>, all: bool)
    requires forall k :: k in listing ==> k in b
    requires forall k :: k in b ==> k < next
    ensures Halfway(b, next, b, next, id, gen, listing, 0, all)
  {
    forall j | 0 <= j < |listing| ensures listing[j] in b && listing[j] < next {
      assert listing[j] in listing;
    }
  }

  lemma HalfwayEnd(b: Bs, next: nat, b0: Bs, next0: nat, id: string, gen: nat, listing: seq<nat>, all: bool)
    requires Halfway(b, next, b0, next0, id, gen, listing, |listing|, all)
    requires forall k :: k in listing <==> k in b0
    ensures forall k :: k in b ==> (k in b0 && b[k] == b0[k]) || (b[k].id == id && b[k].gen == gen && b[k].gated)
    ensures all ==> forall k :: k in b ==> b[k].gen == gen
  {
    assert listing[..|listing|] == listing;
  }

  lemma HalfwayBounds(b: Bs, next: nat, b0: Bs, next0: nat, id: string, gen: nat, listing: seq<nat>, i: nat, all: bool)
    requires i <= |listing| && Halfway(b, next, b0, next0, id, gen, listing, i, all)
    ensures forall k :: k in b ==> k < next
    ensures forall k :: k in b ==> (k in b0 && b[k] == b0[k]) || (b[k].id == id && b[k].gen == gen && b[k].gated)
  {
  }

  lemma HalfwayStep(b: Bs, next: nat, b0: Bs, next0: nat, id: string, gen: nat, listing: seq<nat>, i: nat, all: bool,
                    remove: bool, index: nat)
    requires i < |listing| && Halfway(b, next, b0, next0, id, gen, listing, i, all) && (all ==> remove)
    requires forall m, n :: 0 <= m < n < |listing| ==> listing[m] != listing[n]
    ensures listing[i] in b && b[listing[i]] == b0[listing[i]]
    ensures b[listing[i]].gen == gen ==> Halfway(b, next, b0, next0, id, gen, listing, i + 1, all)
    ensures b[listing[i]].gen != gen ==>
              Halfway((if remove then b - {listing[i]} else b)[next := Replica(id, index, gen, true)], next + 1,
                      b0, next0, id, gen, listing, i + 1, all)
  {
    assert listing[..i + 1] == listing[..i] + [listing[i]];
  }

  lemma RemoveMeans(s: System, k: nat)
    requires s.creating.None? && k in s.b && s.b[k].gen != s.gen && exists j :: j in s.b && s.b[j].gen == s.gen
    ensures Next(s, RemoveOld(k)) == s.(b := s.b - {k})
  {
  }

  datatype Gating = CannotCreate | NeverReady | Ready

  /** The B replicas of one service on this host. */
  class BHost {
    var b: Bs
    var next: nat
    var id: string
    var gen: nat
    var creating: Option<nat>
    /** Every step taken, from the first state. */
    ghost var start: System
    ghost var taken: seq<Event>

    ghost function View(): System
      reads this
    {
      System(b, next, id, gen, creating)
    }

    ghost predicate Valid()
      reads this
    {
      View() == Runs(start, taken)
    }

    constructor (b: Bs, next: nat, id: string, gen: nat)
      ensures Valid() && View() == start == System(b, next, id, gen, None) && taken == []
    {
      this.b, this.next, this.id, this.gen := b, next, id, gen;
      creating, start, taken := None, System(b, next, id, gen, None), [];
    }

    ghost method Take(e: Event)
      requires Valid()
      modifies this`taken
      ensures taken == old(taken) + [e] && Next(View(), e) == Runs(start, taken)
    {
      RunsAppend(start, taken, e);
      taken := taken + [e];
    }

    /** Replaces one replica that is still behind. */
    method Surge(victim: nat, index: nat, gating: Gating, remove: bool) returns (ok: bool)
      requires Valid() && creating.None? && victim in b && b[victim].gen != gen && Above(b, index) && index < MAX_INDEX
      requires forall k :: k in b ==> k < next
      modifies this
      ensures Valid() && start == old(start) && old(taken) <= taken && creating.None?
      ensures id == old(id) && gen == old(gen) && old(next) <= next
      ensures ok <==> gating == Ready
      ensures Above(b, index + 1) && forall k :: k in b ==> k < next
      ensures !ok ==> b == old(b)
      ensures ok ==> next == old(next) + 1
                     && b == (if remove then old(b) - {victim} else old(b))[old(next) := Replica(id, index, gen, true)]
    {
      hide Next, Runs;
      if gating == CannotCreate {
        return false;
      }
      Create(index);
      GateMeans(View(), gating == Ready);
      Gate(gating == Ready);
      if gating != Ready {
        assert b == old(b);
        return false;
      }
      assert victim in b && b[victim] == old(b)[victim];
      if remove {
        assert b[next - 1].gen == gen;
        RemoveMeans(View(), victim);
        RemoveOld(victim);
      }
      return true;
    }

    /** Gives every replica the labels of generation gen, one surge at a time; only
        replicas still behind are touched. Every change it makes is a step of the
        run above. */
    method Relabel(listing: seq<nat>, gating: nat -> Gating, removes: nat -> bool) returns (ok: bool)
      requires Valid() && creating.None?
      requires forall k :: k in listing <==> k in b
      requires forall i, j :: 0 <= i < j < |listing| ==> listing[i] != listing[j]
      requires forall k :: k in b ==> k < next
      requires forall k :: k in b ==> b[k].index + |listing| < MAX_INDEX
      modifies this
      ensures Valid() && start == old(start) && old(taken) <= taken && creating.None?
      ensures id == old(id) && gen == old(gen)
      ensures forall k :: k in b ==> (k in old(b) && b[k] == old(b)[k]) || (b[k].id == id && b[k].gen == gen && b[k].gated)
      ensures ok && (forall i :: removes(i)) ==> forall k :: k in b ==> b[k].gen == gen
      ensures ok <==> listing != [] && forall i :: 0 <= i < |listing| && old(b)[listing[i]].gen != gen ==> gating(i) == Ready
    {
      hide Next, Runs, Valid, Halfway, Above;
      if listing == [] {
        return false;
      }
      assert listing[0] in b;
      HalfwayStart(b, next, id, gen, listing, forall n :: removes(n));
      var index: nat := NextIndex(listing);
      ghost var first, all := index, forall n :: removes(n);
      for i := 0 to |listing|
        invariant Valid() && start == old(start) && old(taken) <= taken && creating.None?
        invariant id == old(id) && gen == old(gen) && old(next) <= next
        invariant Above(b, index) && first <= index <= first + i && first + |listing| <= MAX_INDEX
        invariant Halfway(b, next, old(b), old(next), id, gen, listing, i, all)
        invariant forall j :: 0 <= j < i && old(b)[listing[j]].gen != gen ==> gating(j) == Ready
      {
        HalfwayBounds(b, next, old(b), old(next), id, gen, listing, i, all);
        HalfwayStep(b, next, old(b), old(next), id, gen, listing, i, all, removes(i), index);
        if b[listing[i]].gen != gen {
          ok := Surge(listing[i], index, gating(i), removes(i));
          if !ok {
            return;
          }
          index := index + 1;
        }
      }
      HalfwayEnd(b, next, old(b), old(next), id, gen, listing, all);
      return true;
    }

    method NextIndex(listing: seq<nat>) returns (index: nat)
      requires forall k :: k in listing <==> k in b
      requires b != map[]
      ensures Above(b, index) && exists k :: k in b && index == b[k].index + 1
    {
      index := 0;
      for i := 0 to |listing|
        invariant forall k :: k in listing[..i] ==> b[k].index < index
        invariant i == 0 ==> index == 0
        invariant i > 0 ==> exists k :: k in b && index == b[k].index + 1
      {
        assert listing[..i + 1] == listing[..i] + [listing[i]];
        assert listing[i] in b;
        if b[listing[i]].index >= index {
          index := b[listing[i]].index + 1;
        }
      }
      assert listing[..|listing|] == listing;
      var k :| k in b;
    }

    method Create(index: nat)
      requires Valid() && creating.None? && b != map[] && Above(b, index) && index < MAX_INDEX
      requires forall k :: k in b ==> k < next
      modifies this
      ensures Valid() && start == old(start) && taken == old(taken) + [Event.Create(index)]
      ensures View() == Next(old(View()), Event.Create(index)) && creating == Some(old(next))
      ensures b == old(b)[old(next) := Replica(id, index, gen, false)] && next == old(next) + 1
      ensures id == old(id) && gen == old(gen)
    {
      Take(Event.Create(index));
      b := b[next := Replica(id, index, gen, false)];
      creating := Some(next);
      next := next + 1;
    }

    method Gate(ok: bool)
      requires Valid() && creating.Some? && creating.value in b
      modifies this
      ensures Valid() && start == old(start) && taken == old(taken) + [Event.Gate(ok)]
      ensures View() == Next(old(View()), Event.Gate(ok)) && id == old(id) && gen == old(gen) && next == old(next)
    {
      Take(Event.Gate(ok));
      var k := creating.value;
      b := if ok then b[k := b[k].(gated := true)] else b - {k};
      creating := None;
    }

    method RemoveOld(k: nat)
      requires Valid() && creating.None? && k in b && b[k].gen != gen && exists j :: j in b && b[j].gen == gen
      modifies this
      ensures Valid() && start == old(start) && taken == old(taken) + [Event.RemoveOld(k)]
      ensures View() == Next(old(View()), Event.RemoveOld(k)) && id == old(id) && gen == old(gen) && next == old(next)
    {
      Take(Event.RemoveOld(k));
      b := b - {k};
    }
  }

  lemma {:induction false} RunsAppend(s: System, events: seq<Event>, e: Event)
    ensures Runs(s, events + [e]) == Next(Runs(s, events), e)
    decreases |events|
  {
    if events == [] {
      assert Runs(Next(s, e), []) == Next(s, e);
    } else {
      assert (events + [e])[1..] == events[1..] + [e];
      RunsAppend(Next(s, events[0]), events[1..], e);
    }
  }
}

/** The generation-guarded, single-flight container cache
    (cmd/dashboard/containercache.go): its critical sections, and every
    interleaving of lookups, fetches and invalidations. */
module ContainerCache {
  import opened Common

  /** inflight is the fetch callers may join. */
  datatype State<T> = State(items: T, fetchedAt: int, valid: bool, gen: nat, inflight: Option<nat>)

  datatype Decision<T> = Hit(items: T) | Join(fetch: nat) | Fetch

  function Decide<T>(s: State<T>, now: int, maxAge: int): Decision<T> {
    if s.valid && now - s.fetchedAt < maxAge then Hit(s.items)
    else if s.inflight.Some? then Join(s.inflight.value)
    else Fetch
  }

  function FetchStarted<T>(s: State<T>, fetch: nat): State<T> {
    s.(inflight := Some(fetch))
  }

  /** A snapshot an invalidate overtook is kept for this round of waiters, but not
      marked valid; an error is never cached. */
  function FetchDone<T>(s: State<T>, startGen: nat, result: Option<T>, now: int): State<T> {
    if result.Some? then s.(items := result.value, fetchedAt := now, valid := s.gen == startGen, inflight := None)
    else s.(valid := false, inflight := None)
  }

  function Invalidated<T>(s: State<T>): State<T> {
    s.(valid := false, gen := s.gen + 1)
  }

  class Cache<T> {
    var items: T
    var fetchedAt: int
    var valid: bool
    var gen: nat
    var inflight: Option<nat>
    const maxAge: int

    constructor (empty: T, maxAge: int)
      ensures View() == State(empty, 0, false, 0, None) && this.maxAge == maxAge
    {
      this.maxAge := maxAge;
      items, fetchedAt, valid, gen, inflight := empty, 0, false, 0, None;
    }

    function View(): State<T>
      reads this
    {
      State(items, fetchedAt, valid, gen, inflight)
    }

    /** The first critical section of list: fetch names the fetch this caller would
        start, startGen is what it has to hand back. */
    method Lookup(now: int, fetch: nat) returns (d: Decision<T>, startGen: nat)
      modifies this
      ensures d == Decide(old(View()), now, maxAge) && startGen == old(gen)
      ensures View() == if d.Fetch? then FetchStarted(old(View()), fetch) else old(View())
    {
      startGen := gen;
      if valid && now - fetchedAt < maxAge {
        return Hit(items), startGen;
      }
      if inflight.Some? {
        return Join(inflight.value), startGen;
      }
      inflight := Some(fetch);
      return Fetch, startGen;
    }

    /** The second one. */
    method Complete(startGen: nat, result: Option<T>, now: int)
      modifies this
      ensures View() == FetchDone(old(View()), startGen, result, now)
    {
      if result.Some? {
        items := result.value;
        fetchedAt := now;
        valid := gen == startGen;
      } else {
        valid := false;
      }
      inflight := None;
    }

    method Invalidate()
      modifies this
      ensures View() == Invalidated(old(View()))
    {
      valid := false;
      gen := gen + 1;
    }
  }

  // ---- Every interleaving ----

  /** A fetch on its way: the generation it started at, and the moment its Docker
      call began, once it has. */
  datatype Flight = Flight(startGen: nat, begun: Option<nat>)

  /** A snapshot is known by its fetch and the moment its Docker call began. */
  datatype Snapshot = Snapshot(fetch: nat, begun: nat)

  /** A caller as it asked: when, the latest invalidate before that, when the Docker
      call of the fetch it joined had begun (if it joined one whose call had), and
      whether that fetch was of the present generation. */
  datatype Caller = Caller(asked: nat, latest: nat, joined: Option<nat>, current: bool)

  /** What a caller got. */
  datatype Answer = Answer(caller: Caller, snapshot: Snapshot, fromCache: bool)

  /** running: the fetches between their two critical sections; waiting: the callers
      of each; overtaken: fetches an invalidate came between. */
  datatype System = System(
    cache: State<Option<Snapshot>>,
    running: map<nat, Flight>,
    waiting: map<nat, set<Caller>>,
    overtaken: set<nat>,
    answers: set<Answer>,
    nextFetch: nat,
    clock: nat,
    invalidatedAt: nat)

  datatype Event =
    | List(now: int, maxAge: int)
    | CallBegins(fetch: nat)
    | CallReturns(fetch: nat, ok: bool, now: int)
    | Invalidate

  const EMPTY := System(State(None, 0, false, 0, None), map[], map[], {}, {}, 0, 1, 0)

  function WaitersOf(s: System, fetch: nat): set<Caller> {
    if fetch in s.waiting then s.waiting[fetch] else {}
  }

  function Joiner(s: System, fetch: nat): Caller {
    if fetch in s.running
    then Caller(s.clock, s.invalidatedAt, s.running[fetch].begun, s.running[fetch].startGen == s.cache.gen)
    else Caller(s.clock, s.invalidatedAt, None, true)
  }

  /** One event; the clock orders them. */
  function Next(s0: System, e: Event): System {
    var s := s0.(clock := s0.clock + 1);
    match e
    case List(now, maxAge) =>
      (match Decide(s.cache, now, maxAge)
       case Hit(items) =>
         if items.None? then s
         else s.(answers := s.answers + {Answer(Caller(s.clock, s.invalidatedAt, None, true), items.value, true)})
       case Join(f) => s.(waiting := s.waiting[f := WaitersOf(s, f) + {Joiner(s, f)}])
       case Fetch =>
         s.(cache := FetchStarted(s.cache, s.nextFetch),
            running := s.running[s.nextFetch := Flight(s.cache.gen, None)],
            waiting := s.waiting[s.nextFetch := {Caller(s.clock, s.invalidatedAt, None, true)}],
            nextFetch := s.nextFetch + 1))
    case CallBegins(f) =>
      if f in s.running && s.running[f].begun.None?
      then s.(running := s.running[f := s.running[f].(begun := Some(s.clock))])
      else s
    case CallReturns(f, ok, now) =>
      if f !in s.running || s.running[f].begun.None? then s
      else
        var snapshot := Snapshot(f, s.running[f].begun.value);
        var startGen := s.running[f].startGen;
        s.(cache := FetchDone(s.cache, startGen, if ok then Some(Some(snapshot)) else None, now),
           running := s.running - {f},
           waiting := s.waiting - {f},
           overtaken := if s.cache.gen != startGen then s.overtaken + {f} else s.overtaken,
           answers := if ok then s.answers + (set c | c in WaitersOf(s, f) :: Answer(c, snapshot, false))
                      else s.answers)
    case Invalidate => s.(cache := Invalidated(s.cache), invalidatedAt := s.clock)
  }

  function Runs(s: System, events: seq<Event>): System
    decreases |events|
  {
    if events == [] then s else Runs(Next(s, events[0]), events[1..])
  }

  // ---- What a lookup does ----

  /** The three critical sections: a lookup is answered from a valid cache younger
      than allowed, else joins the fetch in flight, else starts one; a fetch that
      returns leaves its snapshot, valid only for the generation it started in, and
      an error leaves the old one, invalid; an invalidate begins a generation. */
  lemma SectionsExactly<T>(s: State<T>, now: int, maxAge: int, fetch: nat, startGen: nat, items: T)
    ensures Decide(s, now, maxAge) ==
            if s.valid && now < s.fetchedAt + maxAge then Hit(s.items)
            else match s.inflight case Some(f) => Join(f) case None => Fetch
    ensures FetchStarted(s, fetch) == State(s.items, s.fetchedAt, s.valid, s.gen, Some(fetch))
    ensures FetchDone(s, startGen, Some(items), now) == State(items, now, s.gen == startGen, s.gen, None)
    ensures FetchDone(s, startGen, None, now) == State(s.items, s.fetchedAt, false, s.gen, None)
    ensures Invalidated(s) == State(s.items, s.fetchedAt, false, s.gen + 1, s.inflight)
  {
  }

  /** A caller that finds nothing to use starts a call of its own and gets its
      answer, and so does everyone who joins meanwhile; it serves later callers until
      it is too old or an invalidate comes, of which an error leaves nothing. */
  lemma FetchServesItsCallers(s: System, now: int, maxAge: int, done: int, later: int)
    requires !s.cache.valid && s.cache.inflight.None? && s.nextFetch !in s.running && s.nextFetch !in s.waiting
    ensures var asked := Next(Next(s, List(now, maxAge)), List(now, maxAge));
            var returned := Next(Next(asked, CallBegins(s.nextFetch)), CallReturns(s.nextFetch, true, done));
            var failed := Next(Next(asked, CallBegins(s.nextFetch)), CallReturns(s.nextFetch, false, done));
            var snapshot := Snapshot(s.nextFetch, s.clock + 3);
            var first, second := Caller(s.clock + 1, s.invalidatedAt, None, true), Caller(s.clock + 2, s.invalidatedAt, None, true);
            && asked.cache.inflight == Some(s.nextFetch) && asked.answers == s.answers
            && returned.answers == s.answers + {Answer(first, snapshot, false), Answer(second, snapshot, false)}
            && returned.cache.valid && returned.cache.items == Some(snapshot) && returned.cache.inflight.None?
            && s.nextFetch !in returned.running
            && (later < done + maxAge ==>
                  Next(returned, List(later, maxAge)).answers
                  == returned.answers + {Answer(Caller(returned.clock + 1, s.invalidatedAt, None, true), snapshot, true)})
            && (later >= done + maxAge ==> Next(returned, List(later, maxAge)).cache.inflight.Some?)
            && !Next(returned, Invalidate).cache.valid && Next(returned, Invalidate).invalidatedAt == returned.clock + 1
            && failed.answers == s.answers && !failed.cache.valid && failed.cache.inflight.None?
  {
    var one := Next(s, List(now, maxAge));
    var asked := Next(one, List(now, maxAge));
    var first, second := Caller(s.clock + 1, s.invalidatedAt, None, true), Caller(s.clock + 2, s.invalidatedAt, None, true);
    assert one.waiting == s.waiting[s.nextFetch := {first}];
    assert Joiner(one.(clock := one.clock + 1), s.nextFetch) == second;
    assert WaitersOf(asked, s.nextFetch) == {first, second};
    var begun := Next(asked, CallBegins(s.nextFetch));
    assert WaitersOf(begun, s.nextFetch) == {first, second};
  }

  /** An invalidate while a fetch is under way overtakes it: its own callers get its
      answer, but it is not valid for anyone else, and the next caller starts a new
      one. */
  lemma OvertakenServesOnlyItsOwn(s: System, f: nat, done: int, later: int, maxAge: int)
    requires f in s.running && s.running[f].begun.Some? && s.running[f].startGen == s.cache.gen
    ensures var invalidated := Next(s, Invalidate);
            var returned := Next(invalidated, CallReturns(f, true, done));
            && (forall c :: c in WaitersOf(s, f) ==> Answer(c, Snapshot(f, s.running[f].begun.value), false) in returned.answers)
            && returned.overtaken == s.overtaken + {f} && !returned.cache.valid
            && Next(returned, List(later, maxAge)).cache.inflight == Some(s.nextFetch)
            && Next(returned, List(later, maxAge)).answers == returned.answers
  {
    var invalidated := Next(s, Invalidate);
    assert WaitersOf(invalidated, f) == WaitersOf(s, f);
  }

  /** At most one fetch is in flight, and it is the one callers join. */
  ghost predicate SingleFlight(s: System) {
    && (forall f :: f in s.running <==> s.cache.inflight == Some(f))
    && (forall f :: f in s.running ==> f < s.nextFetch && s.running[f].startGen <= s.cache.gen)
    && (forall f :: f in s.overtaken ==> f < s.nextFetch && f !in s.running)
  }

  /** A fetch of the present generation began its call after the latest
      invalidate; so did the snapshot of a valid cache, which no invalidate
      overtook. */
  ghost predicate Fresh(s: System) {
    && s.invalidatedAt <= s.clock
    && (forall f :: f in s.running && s.running[f].startGen == s.cache.gen && s.running[f].begun.Some? ==>
          s.running[f].begun.value > s.invalidatedAt)
    && (forall f :: f in s.running && s.running[f].begun.Some? ==> s.running[f].begun.value <= s.clock)
    && (s.cache.valid ==>
          && s.cache.items.Some?
          && s.cache.items.value.begun > s.invalidatedAt
          && s.cache.items.value.fetch !in s.overtaken
          && s.cache.items.value.fetch < s.nextFetch && s.cache.items.value.fetch !in s.running)
  }

  /** An overtaken fetch answered only those who waited for it. */
  ghost predicate OwnWaitersOnly(s: System) {
    forall a :: a in s.answers && a.fromCache ==>
      a.snapshot.fetch !in s.overtaken && a.snapshot.fetch < s.nextFetch && a.snapshot.fetch !in s.running
  }

  ghost predicate Inv(s: System) {
    SingleFlight(s) && Fresh(s) && OwnWaitersOnly(s)
  }

  lemma StepKeepsSingleFlight(s: System, e: Event)
    requires SingleFlight(s)
    ensures SingleFlight(Next(s, e))
  {
  }

  lemma AskKeepsFresh(s: System, e: Event)
    requires SingleFlight(s) && Fresh(s) && (e.List? || e.Invalidate?)
    ensures Fresh(Next(s, e))
  {
  }

  lemma CallKeepsFresh(s: System, e: Event)
    requires SingleFlight(s) && Fresh(s) && (e.CallBegins? || e.CallReturns?)
    ensures Fresh(Next(s, e))
  {
    hide Decide;
  }

  lemma StepKeepsFresh(s: System, e: Event)
    requires SingleFlight(s) && Fresh(s)
    ensures Fresh(Next(s, e))
  {
    hide SingleFlight, Fresh, Next;
    if e.List? || e.Invalidate? {
      AskKeepsFresh(s, e);
    } else {
      CallKeepsFresh(s, e);
    }
  }

  lemma StepKeepsOwnWaiters(s: System, e: Event)
    requires SingleFlight(s) && Fresh(s) && OwnWaitersOnly(s)
    ensures OwnWaitersOnly(Next(s, e))
  {
    var s' := Next(s, e);
    forall a | a in s'.answers && a.fromCache
      ensures a.snapshot.fetch !in s'.overtaken && a.snapshot.fetch < s'.nextFetch && a.snapshot.fetch !in s'.running {
      assert a in s.answers || s.cache.valid;
    }
  }

  /** In every reachable state at most one fetch is in flight, a valid cache holds a
      snapshot whose Docker call began after the latest invalidate, and a fetch
      overtaken by an invalidate was handed to nobody but its own waiters. */
  lemma {:induction false} CacheIsFresh(s: System, events: seq<Event>)
    requires Inv(s)
    ensures Inv(Runs(s, events))
    decreases |events|
  {
    if events != [] {
      StepKeepsSingleFlight(s, events[0]);
      StepKeepsFresh(s, events[0]);
      StepKeepsOwnWaiters(s, events[0]);
      CacheIsFresh(Next(s, events[0]), events[1..]);
    }
  }

  /** From the empty cache on, every answer served from the cache is of a Docker
      call that began after the invalidate then latest. */
  lemma HitsAreFresh(events: seq<Event>, now: int, maxAge: int)
    ensures var s := Runs(EMPTY, events);
      Decide(s.cache, now, maxAge).Hit? ==>
        && s.cache.items.Some? && s.cache.items.value.begun > s.invalidatedAt
        && s.cache.items.value.fetch !in s.overtaken
  {
    CacheIsFresh(EMPTY, events);
  }

  // ---- Every caller ----

  /** A caller that joined a fetch whose Docker call had begun before the latest
      invalidate. */
  predicate JoinedStale(c: Caller) {
    c.joined.Some? && c.joined.value < c.latest
  }

  /** What a waiting caller knows of its fetch. */
  ghost predicate Waits(s: System, f: nat, c: Caller)
    requires f in s.running
  {
    && c.latest < c.asked <= s.clock
    && (c.joined.Some? ==> c.joined == s.running[f].begun && c.joined.value != c.latest)
    && (c.joined.None? && s.running[f].begun.Some? ==> s.running[f].begun.value > c.asked)
    && (c.current ==> !JoinedStale(c))
  }

  ghost predicate AllWait(s: System) {
    && s.invalidatedAt <= s.clock
    && (forall f :: f in s.running && s.running[f].begun.Some? ==>
          s.running[f].begun.value <= s.clock && s.running[f].begun.value != s.invalidatedAt)
    && EachWaits(s)
  }

  ghost predicate EachWaits(s: System) {
    forall f :: f in s.waiting ==> f in s.running && forall c :: c in s.waiting[f] ==> Waits(s, f, c)
  }

  /** An answer is of a call begun after the invalidate latest when it was asked for,
      unless its caller joined a fetch begun before that. */
  ghost predicate Told(a: Answer) {
    && (a.snapshot.begun > a.caller.latest <==> !JoinedStale(a.caller))
    && (a.caller.current ==> a.snapshot.begun > a.caller.latest)
  }

  ghost predicate AllTold(s: System) {
    forall a :: a in s.answers ==> Told(a)
  }

  lemma StepKeepsWaits(s: System, e: Event)
    requires SingleFlight(s) && Fresh(s) && AllWait(s)
    ensures AllWait(Next(s, e))
  {
    var t := Next(s, e);
    forall f | f in t.waiting ensures f in t.running {
      assert f in s.waiting ==> f in s.running;
    }
    forall f, c | f in t.waiting && c in t.waiting[f] ensures Waits(t, f, c) {
      WaiterKeepsWaiting(s, e, f, c);
    }
  }

  lemma WaiterKeepsWaiting(s: System, e: Event, f: nat, c: Caller)
    requires SingleFlight(s) && Fresh(s) && AllWait(s)
    requires f in Next(s, e).waiting && c in Next(s, e).waiting[f] && f in Next(s, e).running
    ensures Waits(Next(s, e), f, c)
  {
    if f in s.waiting && c in s.waiting[f] {
      assert Waits(s, f, c);
    }
  }

  lemma StepTells(s: System, e: Event)
    requires SingleFlight(s) && Fresh(s) && AllWait(s) && AllTold(s)
    ensures AllTold(Next(s, e))
  {
    var t := Next(s, e);
    forall a | a in t.answers && a !in s.answers ensures Told(a) {
      if e.CallReturns? {
        assert a.caller in s.waiting[e.fetch];
        assert Waits(s, e.fetch, a.caller);
      }
    }
  }

  lemma {:induction false} AlwaysTold(s: System, events: seq<Event>)
    requires Inv(s) && AllWait(s) && AllTold(s)
    ensures AllTold(Runs(s, events))
    decreases |events|
  {
    if events != [] {
      StepKeepsSingleFlight(s, events[0]);
      StepKeepsFresh(s, events[0]);
      StepKeepsOwnWaiters(s, events[0]);
      StepKeepsWaits(s, events[0]);
      StepTells(s, events[0]);
      AlwaysTold(Next(s, events[0]), events[1..]);
    }
  }

  /** Over every run, for every caller: the answer is of a Docker call begun after
      the invalidate latest when it asked, exactly unless it joined a fetch whose
      call had begun before that invalidate. Enough for a fresh answer is to join a
      fetch of the present generation, to start one, or to be served from the
      cache. */
  lemma AnswersAreFreshExactly(events: seq<Event>, a: Answer)
    requires a in Runs(EMPTY, events).answers
    ensures a.snapshot.begun > a.caller.latest <==> !JoinedStale(a.caller)
    ensures a.caller.current ==> a.snapshot.begun > a.caller.latest
    ensures a.fromCache ==> a.caller.current
  {
    CacheIsFresh(EMPTY, events);
    AlwaysTold(EMPTY, events);
    HitsAreCurrent(EMPTY, events);
  }

  lemma {:induction false} HitsAreCurrent(s: System, events: seq<Event>)
    requires forall a :: a in s.answers && a.fromCache ==> a.caller.current
    ensures forall a :: a in Runs(s, events).answers && a.fromCache ==> a.caller.current
    decreases |events|
  {
    if events != [] {
      HitsAreCurrent(Next(s, events[0]), events[1..]);
    }
  }

  /** Joining such a fetch does happen. */
  lemma JoinerMayGetOlderFetch()
    ensures exists a :: a in Runs(EMPTY, [List(0, 1), CallBegins(0), Invalidate, List(0, 1), CallReturns(0, true, 0)]).answers
                        && a.snapshot.begun < a.caller.latest
  {
    var s1 := Next(EMPTY, List(0, 1));
    var s2 := Next(s1, CallBegins(0));
    var s3 := Next(s2, Invalidate);
    var s4 := Next(s3, List(0, 1));
    var s5 := Next(s4, CallReturns(0, true, 0));
    var late := Caller(5, 4, Some(3), false);
    assert late in WaitersOf(s4, 0);
    assert Runs(s5, []) == s5;
    assert Runs(s4, [CallReturns(0, true, 0)]) == s5;
    assert Runs(s3, [List(0, 1), CallReturns(0, true, 0)]) == s5;
    assert Runs(s2, [Invalidate, List(0, 1), CallReturns(0, true, 0)]) == s5;
    assert Runs(s1, [CallBegins(0), Invalidate, List(0, 1), CallReturns(0, true, 0)]) == s5;
    assert Answer(late, Snapshot(0, 3), false) in s5.answers;
  }
}

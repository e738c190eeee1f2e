/** The token bucket of the passkey login endpoints (cmd/auth/ratelimit.go): five
    attempts, one more a minute, idle buckets evicted. Times are in nanoseconds and
    never go back. */
module RateLimit {
  import opened Common

  const CAPACITY := 5
  const SECOND := 1_000_000_000
  const REFILL_EVERY := 60 * SECOND
  const IDLE_EVICT := 30 * REFILL_EVERY

  datatype Bucket = Bucket(tokens: int, lastRefill: int, lastSeen: int)

  function Refilled(b: Bucket, now: int): Bucket {
    var elapsed := now - b.lastRefill;
    if elapsed < REFILL_EVERY then b
    else
      var add := elapsed / REFILL_EVERY;
      b.(tokens := if b.tokens + add > CAPACITY then CAPACITY else b.tokens + add,
         lastRefill := b.lastRefill + add * REFILL_EVERY)
  }

  /** The bucket after a request, and whether it was let through. */
  function Asked(cur: Option<Bucket>, now: int): (Bucket, bool) {
    var b := Refilled(if cur.None? then Bucket(CAPACITY, now, now) else cur.value, now).(lastSeen := now);
    if b.tokens <= 0 then (b, false) else (b.(tokens := b.tokens - 1), true)
  }

  predicate Idle(b: Bucket, now: int) {
    b.lastSeen < now - IDLE_EVICT
  }

  class RateLimiter {
    var b: map<string, Bucket>

    constructor ()
      ensures b == map[]
    {
      b := map[];
    }

    function BucketOf(key: string): Option<Bucket>
      reads this
    {
      if key in b then Some(b[key]) else None
    }

    method Allow(key: string, now: int) returns (ok: bool)
      modifies this
      ensures (BucketOf(key), ok) == (Some(Asked(old(BucketOf(key)), now).0), Asked(old(BucketOf(key)), now).1)
      ensures b - {key} == old(b) - {key}
    {
      var bucket := if key in b then b[key] else Bucket(CAPACITY, now, now);
      var elapsed := now - bucket.lastRefill;
      if elapsed >= REFILL_EVERY {
        var add := elapsed / REFILL_EVERY;
        bucket := bucket.(tokens := bucket.tokens + add);
        if bucket.tokens > CAPACITY {
          bucket := bucket.(tokens := CAPACITY);
        }
        bucket := bucket.(lastRefill := bucket.lastRefill + add * REFILL_EVERY);
      }
      bucket := bucket.(lastSeen := now);
      ok := bucket.tokens > 0;
      if ok {
        bucket := bucket.(tokens := bucket.tokens - 1);
      }
      b := b[key := bucket];
    }

    method Gc(now: int)
      modifies this
      ensures b == map k | k in old(b) && !Idle(old(b)[k], now) :: old(b)[k]
      ensures forall k :: k in b <==> k in old(b) && now - old(b)[k].lastSeen <= 30 * 60 * 1_000_000_000
    {
      var keys := b.Keys;
      ghost var done: set<string> := {};
      while keys != {}
        invariant keys !! done && keys + done == old(b).Keys
        invariant b == map k | k in old(b) && (k in keys || !Idle(old(b)[k], now)) :: old(b)[k]
        decreases keys
      {
        var k :| k in keys;
        if k in b && Idle(b[k], now) {
          b := b - {k};
        }
        keys := keys - {k};
        done := done + {k};
      }
    }
  }

  // ---- One key over time ----

  datatype Event = Request(at: int) | Collect(at: int)

  function Next(cur: Option<Bucket>, e: Event): Option<Bucket> {
    match e
    case Request(now) => Some(Asked(cur, now).0)
    case Collect(now) => if cur.Some? && Idle(cur.value, now) then None else cur
  }

  function Admitted(cur: Option<Bucket>, events: seq<Event>): nat
    decreases |events|
  {
    if events == [] then 0
    else
      (if events[0].Request? && Asked(cur, events[0].at).1 then 1 else 0) + Admitted(Next(cur, events[0]), events[1..])
  }

  /** Events in order of time, between from and to. */
  ghost predicate Within(events: seq<Event>, from: int, to: int) {
    && (forall i :: 0 <= i < |events| ==> from <= events[i].at <= to)
    && forall i, j :: 0 <= i < j < |events| ==> events[i].at <= events[j].at
  }

  predicate Valid(cur: Option<Bucket>, now: int) {
    cur.Some? ==> 0 <= cur.value.tokens <= CAPACITY && cur.value.lastRefill <= cur.value.lastSeen <= now
  }

  /** Of n requests admitted since the clock stood at start, all but what the bucket
      held then were paid for by refills since. */
  ghost predicate Paid(cur: Option<Bucket>, now: int, n: int, start: int) {
    Valid(cur, now) &&
    match cur
    case None => REFILL_EVERY * n <= now - start
    case Some(b) => REFILL_EVERY * (n + b.tokens - CAPACITY) <= b.lastRefill - start
  }

  lemma RefilledIsRecent(b: Bucket, now: int)
    requires b.lastRefill <= now
    ensures now - REFILL_EVERY < Refilled(b, now).lastRefill <= now
    ensures 0 <= b.tokens <= CAPACITY ==> b.tokens <= Refilled(b, now).tokens <= CAPACITY
    ensures REFILL_EVERY * (Refilled(b, now).tokens - b.tokens) <= Refilled(b, now).lastRefill - b.lastRefill
            || b.tokens > CAPACITY
  {
  }

  lemma StepKeepsPaid(cur: Option<Bucket>, now: int, n: int, start: int, e: Event)
    requires Paid(cur, now, n, start) && now <= e.at && start <= now
    ensures Paid(Next(cur, e), e.at, n + if e.Request? && Asked(cur, e.at).1 then 1 else 0, start)
  {
    if e.Request? {
      RefilledIsRecent(if cur.None? then Bucket(CAPACITY, e.at, e.at) else cur.value, e.at);
    }
  }

  lemma {:induction false} PaidToTheEnd(cur: Option<Bucket>, now: int, n: int, start: int, events: seq<Event>, end: int)
    requires Paid(cur, now, n, start) && Within(events, now, end) && start <= now <= end
    ensures REFILL_EVERY * (n + Admitted(cur, events) - CAPACITY) <= end - start
    decreases |events|
  {
    if events != [] {
      StepKeepsPaid(cur, now, n, start, events[0]);
      PaidToTheEnd(Next(cur, events[0]), events[0].at, n + if events[0].Request? && Asked(cur, events[0].at).1 then 1 else 0,
                   start, events[1..], end);
    }
  }

  function CeilDiv(a: int, b: int): int
    requires b > 0
  {
    (a + b - 1) / b
  }

  /** The bucket after the window's first request is refilled to within a minute. */
  lemma FirstRequestStartsClock(cur: Option<Bucket>, from: int, now: int)
    requires Valid(cur, from) && from <= now
    ensures var (b, ok) := Asked(cur, now);
            Paid(Some(b), now, if ok then 1 else 0, b.lastRefill) && now - REFILL_EVERY < b.lastRefill <= now
  {
    RefilledIsRecent(if cur.None? then Bucket(CAPACITY, now, now) else cur.value, now);
  }

  lemma {:induction false} CollectsFirst(cur: Option<Bucket>, from: int, events: seq<Event>, to: int)
    requires Valid(cur, from) && Within(events, from, to) && from <= to
    ensures REFILL_EVERY * (Admitted(cur, events) - CAPACITY) < to - from + REFILL_EVERY
    decreases |events|
  {
    if events != [] {
      var e := events[0];
      if e.Request? {
        FirstRequestStartsClock(cur, from, e.at);
        var (b, ok) := Asked(cur, e.at);
        PaidToTheEnd(Some(b), e.at, if ok then 1 else 0, b.lastRefill, events[1..], to);
      } else {
        CollectsFirst(Next(cur, e), e.at, events[1..], to);
      }
    }
  }

  /** Any window of length T admits at most 5 + ceil(T / 1min) requests of one key,
      wherever in a run it lies and whenever the idle bucket was evicted. */
  lemma WindowBound(cur: Option<Bucket>, from: int, length: nat, events: seq<Event>)
    requires Valid(cur, from) && Within(events, from, from + length)
    ensures Admitted(cur, events) <= CAPACITY + CeilDiv(length, REFILL_EVERY)
  {
    CollectsFirst(cur, from, events, from + length);
  }

  /** A run from the start is in a valid state at every moment, so the bound covers
      every window of every run. */
  lemma {:induction false} EveryWindowBound(cur: Option<Bucket>, from: int, events: seq<Event>, to: int, window: seq<Event>, length: nat)
    requires Valid(cur, from) && Within(events, from, to) && from <= to && Within(window, to, to + length)
    ensures Admitted(After(cur, events), window) <= CAPACITY + CeilDiv(length, REFILL_EVERY)
    decreases |events|
  {
    if events == [] {
      WindowBound(cur, to, length, window);
    } else {
      if events[0].Request? {
        FirstRequestStartsClock(cur, from, events[0].at);
      }
      EveryWindowBound(Next(cur, events[0]), events[0].at, events[1..], to, window, length);
    }
  }

  function After(cur: Option<Bucket>, events: seq<Event>): Option<Bucket>
    decreases |events|
  {
    if events == [] then cur else After(Next(cur, events[0]), events[1..])
  }

  function Burst(now: int, n: nat): seq<Event> {
    seq(n, _ => Request(now))
  }

  function Min(a: int, b: int): int {
    if a < b then a else b
  }

  /** What a bucket holds at a moment: what it held, plus one for each whole minute
      since it was last refilled, up to five; a key not seen before has five. */
  function Held(cur: Option<Bucket>, now: int): int {
    if cur.None? then 5 else Min(5, cur.value.tokens + (now - cur.value.lastRefill) / (60 * 1_000_000_000))
  }

  lemma AskTakesOne(cur: Option<Bucket>, now: int)
    requires Valid(cur, now)
    ensures var h := Held(cur, now);
            && 0 <= h && (Asked(cur, now).1 <==> h > 0)
            && Held(Next(cur, Request(now)), now) == (if h > 0 then h - 1 else h)
            && Valid(Next(cur, Request(now)), now)
  {
    if cur.Some? {
      RefilledIsRecent(cur.value, now);
    }
  }

  /** Of any number of requests at once, exactly as many are let through as the
      bucket held, plus one for each whole minute since it was last refilled, but
      never more than five; a key not seen before has five. */
  lemma {:induction false} BurstExactly(cur: Option<Bucket>, now: int, n: nat)
    requires Valid(cur, now)
    ensures cur.None? ==> Admitted(cur, Burst(now, n)) == Min(n, 5)
    ensures cur.Some? ==>
              Admitted(cur, Burst(now, n)) == Min(n, Min(5, cur.value.tokens + (now - cur.value.lastRefill) / (60 * 1_000_000_000)))
    decreases n
  {
    hide Asked, Valid;
    if n > 0 {
      assert Burst(now, n)[1..] == Burst(now, n - 1);
      AskTakesOne(cur, now);
      BurstExactly(Next(cur, Request(now)), now, n - 1);
    } else {
      AskTakesOne(cur, now);
    }
  }

  lemma MinutesAddUp(since: int, m: nat)
    ensures (since + m * REFILL_EVERY) / REFILL_EVERY == m + since / REFILL_EVERY
  {
  }

  /** The clock of a bucket moves on by whole minutes, one for each token it gains. */
  lemma RefillKeepsRemainder(b: Bucket, first: int)
    requires Valid(Some(b), first) && b.tokens + (first - b.lastRefill) / REFILL_EVERY <= CAPACITY
    ensures var m := (first - b.lastRefill) / REFILL_EVERY;
            m >= 0 && Refilled(b, first) == Bucket(b.tokens + m, b.lastRefill + m * REFILL_EVERY, b.lastSeen)
  {
  }

  lemma MinutesGrow(from: int, first: int, later: int)
    requires first <= later
    ensures (first - from) / REFILL_EVERY <= (later - from) / REFILL_EVERY
  {
  }

  /** Asking in between loses nothing of the minutes that have begun, whether it is
      let through or not: a later burst gets what it would have got, less the one. */
  lemma AskingLosesNoMinute(b: Bucket, first: int, later: int, n: nat)
    requires Valid(Some(b), first) && first <= later
    requires b.tokens + (later - b.lastRefill) / REFILL_EVERY <= CAPACITY
    ensures var asked := Asked(Some(b), first);
            Admitted(Some(asked.0), Burst(later, n))
            == Min(n, b.tokens + (later - b.lastRefill) / REFILL_EVERY - if asked.1 then 1 else 0)
  {
    var asked := Asked(Some(b), first);
    MinutesGrow(b.lastRefill, first, later);
    RefillKeepsRemainder(b, first);
    RefilledIsRecent(b, first);
    MinutesAddUp(later - asked.0.lastRefill, (first - b.lastRefill) / REFILL_EVERY);
    hide Refilled, Admitted;
    BurstExactly(Some(asked.0), later, n);
  }

  /** The bound is reached: six requests in a minute. */
  lemma BoundIsReached()
    ensures var t, u := 59 * SECOND, 60 * SECOND;
            Admitted(None, [Request(0), Request(t), Request(t), Request(t), Request(t), Request(u)])
            == CAPACITY + CeilDiv(u, REFILL_EVERY)
  {
    var t, u := 59 * SECOND, 60 * SECOND;
    var b0 := Asked(None, 0).0;
    var b1 := Asked(Some(b0), t).0;
    var b2 := Asked(Some(b1), t).0;
    var b3 := Asked(Some(b2), t).0;
    var b4 := Asked(Some(b3), t).0;
    assert Admitted(Some(b4), [Request(u)]) == 1;
    assert Admitted(Some(b3), [Request(t), Request(u)]) == 2;
    assert Admitted(Some(b2), [Request(t), Request(t), Request(u)]) == 3;
    assert Admitted(Some(b1), [Request(t), Request(t), Request(t), Request(u)]) == 4;
    assert Admitted(Some(b0), [Request(t), Request(t), Request(t), Request(t), Request(u)]) == 5;
  }
}

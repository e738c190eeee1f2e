/** The user list dashboards share through one Redis key: one optimistic-locking
    attempt, the bounded retries around it, and adopting or seeding the key
    (mutateUsers in cmd/dashboard/auth.go; RunTx and syncFromRedisOrImport in
    cmd/dashboard/authredis.go). */
module AuthStore {
  import opened Common

  datatype User = User(name: string, credentials: string)

  type Users = seq<User>

  /** What a caller wants done; None refuses. */
  type Mutation = Users -> Option<Users>

  /** What the key holds: nothing, a list, or bytes that do not decode. */
  datatype Value = Absent | Stored(users: Users) | Corrupt

  datatype TxError = Conflict | Refused | Unreachable

  /** What a mutation makes of the value read; an absent key stands for the copy
      this instance holds. */
  function Mutated(mutation: Mutation, local: Users, seen: Value): Result<Users, TxError> {
    if seen.Corrupt? then Err(Refused)
    else
      match mutation(if seen.Stored? then seen.users else local)
      case None => Err(Refused)
      case Some(users) => Ok(users)
  }

  /** What a seed makes of it: a key that exists is somebody else's. */
  function Seeded(local: Users, seen: Value): Result<Users, TxError> {
    if seen.Absent? then Ok(local) else Err(Conflict)
  }

  ghost function Current(log: seq<Value>): Value {
    if log == [] then Absent else log[|log| - 1]
  }

  /** The key; log holds every value ever written to it, the present one last. */
  class Redis {
    var value: Value
    var revision: nat
    ghost var log: seq<Value>

    ghost predicate Valid()
      reads this
    {
      value == Current(log) && revision == |log|
    }

    constructor ()
      ensures Valid() && log == []
    {
      value, revision, log := Absent, 0, [];
    }

    /** A write is a value, whatever it was computed from. */
    method Set(v: Value)
      requires Valid()
      modifies this
      ensures Valid() && log == old(log) + [v]
    {
      value := v;
      revision := revision + 1;
      log := log + [v];
    }

    /** Whatever others write, wipe or spoil meanwhile. */
    method Others(writes: seq<Value>)
      requires Valid()
      modifies this
      ensures Valid() && log == old(log) + writes
    {
      for i := 0 to |writes|
        invariant Valid() && log == old(log) + writes[..i]
      {
        assert writes[..i + 1] == writes[..i] + [writes[i]];
        Set(writes[i]);
      }
      assert writes[..|writes|] == writes;
    }
  }

  // ---- One attempt ----

  /** What happens around one attempt: a refresh of this instance's own copy, other
      writers before the watched read and between it and EXEC, and whether the call
      fails or its reply gets lost. */
  datatype Round = Round(refreshed: Option<Users>, before: seq<Value>, between: seq<Value>, down: bool, replyLost: bool)

  function TxResult(round: Round, next: Result<Users, TxError>): Result<Users, TxError> {
    if round.down then Err(Unreachable)
    else if next.Err? then next
    else if round.between != [] then Err(Conflict)
    else if round.replyLost then Err(Unreachable)
    else next
  }

  ghost function Written(landed: Option<Users>): seq<Value> {
    if landed.Some? then [Stored(landed.value)] else []
  }

  /** RunTx: watch, read, compute, and write what was computed if nothing was
      written since. What lands was computed from the value it replaces. */
  method RunTx(redis: Redis, fn: Value -> Result<Users, TxError>, round: Round)
    returns (r: Result<Users, TxError>, ghost landed: Option<Users>)
    requires redis.Valid()
    modifies redis
    ensures redis.Valid()
    ensures redis.log == old(redis.log) + OneRound(round, landed)
    ensures landed.Some? ==> round.between == [] && fn(Current(old(redis.log) + round.before)) == Ok(landed.value)
    ensures r == TxResult(round, fn(Current(old(redis.log) + round.before)))
    ensures r.Ok? ==> landed == Some(r.value) && redis.log[..|redis.log| - 1] == old(redis.log) + round.before
    ensures r.Err? && landed.Some? ==> r == Err(Unreachable) && round.replyLost
  {
    redis.Others(round.before);
    if round.down {
      redis.Others(round.between);
      return Err(Unreachable), None;
    }
    var watched := redis.revision;
    var next := fn(redis.value);
    redis.Others(round.between);
    if next.Err? {
      return next, None;
    }
    if redis.revision != watched {
      return Err(Conflict), None;
    }
    redis.Set(Stored(next.value));
    if round.replyLost {
      return Err(Unreachable), Some(next.value);
    }
    return next, Some(next.value);
  }

  // ---- The retries ----

  const MAX_MUTATE_RETRIES := 10

  datatype MutateError = TxFailed(error: TxError) | GaveUp | RefusedHere | NotSaved

  /** The values written during the attempts so far: the others' of each round and,
      where one landed, our own. */
  ghost function Rounds(rounds: nat -> Round, landed: seq<Option<Users>>): seq<Value> {
    if landed == [] then []
    else
      var n := |landed| - 1;
      Rounds(rounds, landed[..n]) + OneRound(rounds(n), landed[n])
  }

  ghost function OneRound(round: Round, landed: Option<Users>): seq<Value> {
    round.before + round.between + Written(landed)
  }

  /** How many of them were our own. */
  function Landings(landed: seq<Option<Users>>): nat {
    if landed == [] then 0
    else Landings(landed[..|landed| - 1]) + if landed[|landed| - 1].Some? then 1 else 0
  }

  /** The copy this instance holds in attempt n, after the refreshes until then. */
  function LocalAt(users: Users, rounds: nat -> Round, n: nat): Users {
    if rounds(n).refreshed.Some? then rounds(n).refreshed.value
    else if n == 0 then users
    else LocalAt(users, rounds, n - 1)
  }

  lemma RoundsNext(rounds: nat -> Round, landed: seq<Option<Users>>, one: Option<Users>)
    ensures Rounds(rounds, landed + [one]) == Rounds(rounds, landed) + OneRound(rounds(|landed|), one)
    ensures Landings(landed + [one]) == Landings(landed) + if one.Some? then 1 else 0
  {
    hide OneRound;
    assert (landed + [one])[..|landed|] == landed;
  }

  lemma Regroup<T>(a: seq<T>, b: seq<T>, c: seq<T>)
    ensures (a + b) + c == a + (b + c)
  {
  }

  lemma LogNext(first: seq<Value>, before: seq<Value>, after: seq<Value>, rounds: nat -> Round,
                landed: seq<Option<Users>>, one: Option<Users>)
    requires before == first + Rounds(rounds, landed)
    requires after == before + OneRound(rounds(|landed|), one)
    ensures after == first + Rounds(rounds, landed + [one])
    ensures Landings(landed + [one]) == Landings(landed) + if one.Some? then 1 else 0
  {
    hide OneRound, Rounds, Landings;
    RoundsNext(rounds, landed, one);
    Regroup(first, Rounds(rounds, landed), OneRound(rounds(|landed|), one));
  }

  lemma NothingLanded(rounds: nat -> Round)
    ensures Rounds(rounds, []) == [] && Landings([]) == 0
  {
  }

  /** Why an attempt failed: the call did, or its reply got lost; the mutation refuses
      the value seen, or that does not decode; or somebody wrote in between. */
  ghost predicate Fails(mutation: Mutation, local: Users, seen: Value, round: Round, error: TxError) {
    match error
    case Unreachable => round.down || round.replyLost
    case Conflict => !round.down && round.between != []
    case Refused =>
      !round.down && (seen.Corrupt? || mutation(if seen.Stored? then seen.users else local).None?)
  }

  lemma MutatedNeverConflicts(mutation: Mutation, local: Users, seen: Value)
    ensures Mutated(mutation, local, seen) != Err(Conflict)
    ensures Mutated(mutation, local, seen).Err? <==>
              seen.Corrupt? || mutation(if seen.Stored? then seen.users else local).None?
    ensures Mutated(mutation, local, seen).Err? ==> Mutated(mutation, local, seen) == Err(Refused)
  {
  }

  /** The value an attempt saw, found again in the log after it. */
  lemma AttemptFailed(mutation: Mutation, local: Users, before: seq<Value>, after: seq<Value>, round: Round,
                      one: Option<Users>, error: TxError)
    requires after == before + OneRound(round, one)
    requires Fails(mutation, local, Current(before + round.before), round, error)
    ensures var cut := |after| - |round.between| - if one.Some? then 1 else 0;
            0 <= cut <= |after| && Fails(mutation, local, Current(after[..cut]), round, error)
    ensures error == Conflict ==> !round.down && round.between != []
  {
    hide Current;
    var cut := |after| - |round.between| - if one.Some? then 1 else 0;
    assert after[..cut] == before + round.before;
  }

  class Store {
    var users: Users
    var file: Users
    const redis: Redis?

    constructor (users: Users, redis: Redis?)
      ensures this.users == file == users && this.redis == redis
    {
      this.users, this.file, this.redis := users, users, redis;
    }

    /** One attempt, on the copy held after the round's refresh. */
    method Attempt(mutation: Mutation, round: Round) returns (tx: Result<Users, TxError>, ghost one: Option<Users>)
      requires redis != null && redis.Valid()
      modifies this`users, redis
      ensures redis.Valid() && redis.log == old(redis.log) + OneRound(round, one)
      ensures users == if round.refreshed.Some? then round.refreshed.value else old(users)
      ensures tx.Ok? ==>
                && one == Some(tx.value) && |redis.log| >= 1 && redis.value == Stored(tx.value)
                && Mutated(mutation, users, Current(redis.log[..|redis.log| - 1])) == Ok(tx.value)
      ensures tx.Err? && one.Some? ==> tx == Err(Unreachable) && round.replyLost
      ensures tx.Err? ==> Fails(mutation, users, Current(old(redis.log) + round.before), round, tx.error)
    {
      hide Mutated;
      if round.refreshed.Some? {
        users := round.refreshed.value;
      }
      var local := users;
      MutatedNeverConflicts(mutation, local, Current(redis.log + round.before));
      tx, one := RunTx(redis, seen => Mutated(mutation, local, seen), round);
    }

    /** The single write path. Without Redis it changes memory, then the file. With
        Redis a success means that exactly one write of ours landed, that it is the
        mutation of the value it replaced (or of the copy held in that attempt, if
        the key was gone), and that memory holds it. An error means none landed,
        unless the reply was lost; giving up means ten conflicts. */
    method MutateUsers(mutation: Mutation, rounds: nat -> Round, saved: bool)
      returns (r: Result<(), MutateError>, ghost landed: seq<Option<Users>>)
      requires redis != null ==> redis.Valid()
      modifies this, redis
      ensures redis != null ==> redis.Valid()
      ensures redis == null ==>
                && r.Ok? == (mutation(old(users)).Some? && saved)
                && users == (if mutation(old(users)).Some? then mutation(old(users)).value else old(users))
                && file == (if r.Ok? then users else old(file))
      ensures redis != null ==>
                && |landed| <= MAX_MUTATE_RETRIES
                && redis.log == old(redis.log) + Rounds(rounds, landed)
      ensures redis != null && r.Ok? ==>
                && landed != [] && Landings(landed) == 1 && landed[|landed| - 1] == Some(users)
                && redis.value == Stored(users) && |redis.log| >= 1
                && Mutated(mutation, LocalAt(old(users), rounds, |landed| - 1), Current(redis.log[..|redis.log| - 1])) == Ok(users)
                && file == (if saved then users else old(file))
      ensures redis != null && r.Err? ==> Landings(landed) <= 1 && file == old(file)
      ensures redis != null && r.Err? && Landings(landed) == 1 ==> landed != [] && rounds(|landed| - 1).replyLost
      ensures redis != null ==>
                forall i :: 0 <= i < |landed| - 1 ==> !rounds(i).down && rounds(i).between != []
      ensures redis != null && r.Err? ==>
                || (r.error == GaveUp && |landed| == MAX_MUTATE_RETRIES
                    && forall i :: 0 <= i < MAX_MUTATE_RETRIES ==> !rounds(i).down && rounds(i).between != [])
                || (r.error.TxFailed? && landed != [] && r.error.error != Conflict
                    && var n := |landed| - 1;
                       var cut := |redis.log| - |rounds(n).between| - Landings(landed);
                       && 0 <= cut <= |redis.log|
                       && Fails(mutation, LocalAt(old(users), rounds, n), Current(redis.log[..cut]), rounds(n), r.error.error))
    {
      hide Rounds, OneRound, Landings, Redis.Valid, Mutated, Fails;
      NothingLanded(rounds);
      landed := [];
      if redis == null {
        var next := mutation(users);
        if next.None? {
          return Err(RefusedHere), [];
        }
        users := next.value;
        if !saved {
          return Err(NotSaved), [];
        }
        file := users;
        return Ok(()), [];
      }
      for attempt := 0 to MAX_MUTATE_RETRIES
        invariant redis.Valid() && file == old(file)
        invariant users == if attempt == 0 then old(users) else LocalAt(old(users), rounds, attempt - 1)
        invariant |landed| == attempt && Landings(landed) == 0
        invariant redis.log == old(redis.log) + Rounds(rounds, landed)
        invariant forall i :: 0 <= i < attempt ==> !rounds(i).down && rounds(i).between != []
      {
        ghost var before := redis.log;
        var tx;
        ghost var one;
        tx, one := Attempt(mutation, rounds(attempt));
        LogNext(old(redis.log), before, redis.log, rounds, landed, one);
        landed := landed + [one];
        if tx.Err? {
          AttemptFailed(mutation, users, before, redis.log, rounds(attempt), one, tx.error);
        }
        if tx.Ok? {
          users := tx.value;
          if saved {
            file := users;
          }
          return Ok(()), landed;
        }
        if tx.error != Conflict {
          return Err(TxFailed(tx.error)), landed;
        }
      }
      return Err(GaveUp), landed;
    }
  }

  // ---- Startup and refresh ----

  /** Somebody else writes between the look at the key and the seed. */
  predicate LosesRace(r: Round) {
    !r.down && (r.before != [] || r.between != [])
  }

  /** One try of syncFromRedisOrImport's recursion per round: adopt what is there,
      else seed; losing the seed race means looking again. */
  method SyncFromRedisOrImport(store: Store, rounds: seq<Round>, reachable: seq<bool>)
    returns (ok: bool, ghost seeded: bool, ghost used: nat)
    requires store.redis != null && store.redis.Valid() && |reachable| == |rounds|
    modifies store`users, store.redis
    ensures store.redis.Valid()
    ensures old(store.redis.log) <= store.redis.log
    ensures seeded ==> store.users == old(store.users) && store.redis.log != []
                       && store.redis.value == Stored(store.users)
                       && Current(store.redis.log[..|store.redis.log| - 1]) == Absent
    ensures ok && !seeded ==> store.redis.value == Corrupt || store.redis.value == Stored(store.users)
    ensures !ok || store.redis.value == Corrupt ==> store.users == old(store.users)
    ensures used <= |rounds| && forall k :: 0 <= k < used - 1 ==> reachable[k] && LosesRace(rounds[k])
    ensures !ok ==>
              || (used == |rounds| && forall k :: 0 <= k < |rounds| ==> reachable[k] && LosesRace(rounds[k]))
              || (used >= 1 && (!reachable[used - 1] || rounds[used - 1].down || rounds[used - 1].replyLost))
  {
    var redis := store.redis;
    seeded, used := false, 0;
    for i := 0 to |rounds|
      invariant redis.Valid() && store.users == old(store.users) && old(redis.log) <= redis.log && used == i
      invariant forall k :: 0 <= k < i ==> reachable[k] && LosesRace(rounds[k])
    {
      used := i + 1;
      if !reachable[i] {
        return false, false, used;
      }
      match redis.value {
        case Corrupt => return true, false, used;
        case Stored(users) =>
          store.users := users;
          return true, false, used;
        case Absent =>
      }
      var local := store.users;
      var r;
      ghost var landed;
      r, landed := RunTx(redis, seen => Seeded(local, seen), rounds[i]);
      if r.Ok? {
        return true, true, used;
      }
      if r.error != Conflict {
        return false, false, used;
      }
    }
    return false, false, used;
  }
}

/** Any number of dashboards at one key, as a step system: watched reads and writes
    of different calls interleave with each other, with wipes, spoiled values and
    refreshes (cmd/dashboard/auth.go, cmd/dashboard/authredis.go). A write stores
    the bytes computed at its read; the history only records who made it. */
module SharedUsers {
  import opened Common
  import opened AuthStore

  datatype What = Mutate(mutation: Mutation) | Seed

  function Computed(what: What, local: Users, seen: Value): Result<Users, TxError> {
    match what
    case Mutate(m) => Mutated(m, local, seen)
    case Seed => Seeded(local, seen)
  }

  /** A watched read: the revision and value then, the caller's own copy, and what
      it will write. */
  datatype Tx = Tx(watched: nat, seen: Value, local: Users, next: Users)

  datatype Phase = Ready | Watching(tx: Tx) | Landed(users: Users)

  datatype Call = Call(who: nat, what: What, phase: Phase, attempts: nat)

  datatype Outcome = Done | RefusedCall | GaveUpCall | Unknown

  datatype Entry = Committed(call: nat, what: What, local: Users) | Wiped | Spoiled

  datatype System = System(
    value: Value,
    revision: nat,
    locals: map<nat, Users>,
    calls: map<nat, Call>,
    outcomes: map<nat, Outcome>,
    history: seq<Entry>)

  datatype Event =
    | Begin(id: nat, who: nat, what: What)
    | Read(id: nat)
    | Exec(id: nat, replyLost: bool)
    | Mirror(id: nat)
    | TimeOut(id: nat)
    | Wipe
    | Spoil
    | Refresh(who: nat)
    | Restart(who: nat, users: Users)

  function Ends(s: System, id: nat, o: Outcome): System {
    s.(calls := s.calls - {id}, outcomes := s.outcomes[id := o])
  }

  function Moves(s: System, id: nat, c: Call): System {
    s.(calls := s.calls[id := c])
  }

  predicate At(s: System, id: nat) {
    id in s.calls
  }

  /** EXEC: nothing happens if the key was written since the watched read. */
  function AfterExec(s: System, id: nat, c: Call, tx: Tx, replyLost: bool): System {
    if tx.watched != s.revision then
      if c.what.Seed? then Ends(s, id, RefusedCall)
      else if c.attempts + 1 == MAX_MUTATE_RETRIES then Ends(s, id, GaveUpCall)
      else Moves(s, id, c.(phase := Ready, attempts := c.attempts + 1))
    else
      var written := s.(value := Stored(tx.next), revision := s.revision + 1,
                        history := s.history + [Committed(id, c.what, tx.local)]);
      if replyLost then Ends(written, id, Unknown) else Moves(written, id, c.(phase := Landed(tx.next)))
  }

  function Next(s: System, e: Event): System {
    match e
    case Begin(id, who, what) =>
      if id in s.calls || id in s.outcomes || who !in s.locals then s
      else Moves(s, id, Call(who, what, Ready, 0))
    case Read(id) =>
      if !At(s, id) || !s.calls[id].phase.Ready? || s.calls[id].who !in s.locals then s
      else
        var c, local := s.calls[id], s.locals[s.calls[id].who];
        (match Computed(c.what, local, s.value)
         case Err(_) => Ends(s, id, RefusedCall)
         case Ok(next) => Moves(s, id, c.(phase := Watching(Tx(s.revision, s.value, local, next)))))
    case Exec(id, replyLost) =>
      if !At(s, id) || !s.calls[id].phase.Watching? then s
      else AfterExec(s, id, s.calls[id], s.calls[id].phase.tx, replyLost)
    case Mirror(id) =>
      if !At(s, id) || !s.calls[id].phase.Landed? then s
      else
        var c := s.calls[id];
        Ends(if c.what.Seed? then s else s.(locals := s.locals[c.who := c.phase.users]), id, Done)
    case TimeOut(id) => if At(s, id) then Ends(s, id, Unknown) else s
    case Wipe =>
      if s.value.Absent? then s else s.(value := Absent, revision := s.revision + 1, history := s.history + [Wiped])
    case Spoil => s.(value := Corrupt, revision := s.revision + 1, history := s.history + [Spoiled])
    case Refresh(who) =>
      if s.value.Stored? && who in s.locals then s.(locals := s.locals[who := s.value.users]) else s
    case Restart(who, users) => s.(locals := s.locals[who := users])
  }

  function Runs(s: System, events: seq<Event>): System
    decreases |events|
  {
    if events == [] then s else Runs(Next(s, events[0]), events[1..])
  }

  function Initial(value: Value): System {
    System(value, 0, map[], map[], map[], [])
  }

  // ---- What each step does ----

  /** A call alone at the key: it reads, lands what it computed from the value there,
      takes it over as its own copy and reports success; a refused computation ends
      it, with nothing written. */
  lemma CallAloneSucceeds(s: System, id: nat, who: nat, what: What)
    requires id !in s.calls && id !in s.outcomes && who in s.locals
    ensures var begun := Next(s, Begin(id, who, what));
            var watching := Next(begun, Read(id));
            var landed := Next(watching, Exec(id, false));
            var t := Next(landed, Mirror(id));
            var r := Computed(what, s.locals[who], s.value);
            && (r.Err? ==> watching == s.(outcomes := s.outcomes[id := RefusedCall]))
            && (r.Ok? ==>
                  && watching.value == s.value && watching.revision == s.revision
                  && t.value == landed.value == Stored(r.value) && t.revision == s.revision + 1
                  && t.history == s.history + [Committed(id, what, s.locals[who])]
                  && id !in t.calls && id in t.outcomes && t.outcomes[id] == Done
                  && t.locals == if what.Seed? then s.locals else s.locals[who := r.value])
  {
  }

  /** A call whose watched read is overtaken writes nothing: a mutation tries again,
      and gives up after the tenth time; a seed is over, somebody else's list being
      there. A lost reply leaves the caller not knowing, with the write made. */
  lemma OvertakenCallRetries(s: System, id: nat, replyLost: bool)
    requires id in s.calls && s.calls[id].phase.Watching?
    ensures var c := s.calls[id];
            var t := Next(s, Exec(id, replyLost));
            && (c.phase.tx.watched != s.revision ==>
                  && t.value == s.value && t.revision == s.revision && t.history == s.history && t.locals == s.locals
                  && (c.what.Mutate? && c.attempts + 1 != 10 ==>
                        t.calls == s.calls[id := Call(c.who, c.what, Ready, c.attempts + 1)] && t.outcomes == s.outcomes)
                  && (c.what.Mutate? && c.attempts + 1 == 10 ==>
                        t.calls == s.calls - {id} && t.outcomes == s.outcomes[id := GaveUpCall])
                  && (c.what.Seed? ==> t.calls == s.calls - {id} && t.outcomes == s.outcomes[id := RefusedCall]))
            && (c.phase.tx.watched == s.revision ==>
                  && t.value == Stored(c.phase.tx.next) && t.revision == s.revision + 1
                  && (replyLost ==> t.calls == s.calls - {id} && t.outcomes == s.outcomes[id := Unknown])
                  && (!replyLost ==> t.calls == s.calls[id := c.(phase := Landed(c.phase.tx.next))] && t.outcomes == s.outcomes))
  {
  }

  /** What others do: wipes and spoiled values are writes, a refresh takes over the
      list that is there, a restart any copy; a call may end at any time without
      knowing. */
  lemma OthersExactly(s: System, id: nat, who: nat, users: Users)
    ensures Next(s, Wipe) ==
            if s.value == Absent then s else s.(value := Absent, revision := s.revision + 1, history := s.history + [Wiped])
    ensures Next(s, Spoil) == s.(value := Corrupt, revision := s.revision + 1, history := s.history + [Spoiled])
    ensures Next(s, Refresh(who)) ==
            if s.value.Stored? && who in s.locals then s.(locals := s.locals[who := s.value.users]) else s
    ensures Next(s, Restart(who, users)) == s.(locals := s.locals[who := users])
    ensures Next(s, TimeOut(id)) ==
            if id in s.calls then s.(calls := s.calls - {id}, outcomes := s.outcomes[id := Unknown]) else s
  {
  }

  /** What a mutation or a seed makes of a value: of the list there, or of the
      caller's own copy if the key is gone; bytes that do not decode are refused, and
      a seed of a key that exists. */
  lemma ComputedExactly(m: Mutation, local: Users, users: Users)
    ensures Computed(Mutate(m), local, Stored(users)) == if m(users).Some? then Ok(m(users).value) else Err(Refused)
    ensures Computed(Mutate(m), local, Absent) == if m(local).Some? then Ok(m(local).value) else Err(Refused)
    ensures Computed(Mutate(m), local, Corrupt) == Err(Refused)
    ensures Computed(Seed, local, Absent) == Ok(local)
    ensures Computed(Seed, local, Stored(users)) == Err(Conflict) && Computed(Seed, local, Corrupt) == Err(Conflict)
  {
  }

  // ---- What the key holds ----

  /** One change of the key on its own. */
  function Applied(before: Value, e: Entry): Value {
    match e
    case Wiped => Absent
    case Spoiled => Corrupt
    case Committed(_, what, local) => StoredIf(Computed(what, local, before), before)
  }

  function StoredIf(r: Result<Users, TxError>, before: Value): Value {
    if r.Ok? then Stored(r.value) else before
  }

  /** The history read as one change after the other. */
  function Replay(first: Value, history: seq<Entry>): Value {
    if history == [] then first
    else Applied(Replay(first, history[..|history| - 1]), history[|history| - 1])
  }

  /** A read still watched is of the present value; any other read is older. */
  ghost predicate Watched(s: System) {
    forall id :: id in s.calls ==> Honest(s.calls[id], s.revision, s.value)
  }

  ghost predicate Honest(c: Call, revision: nat, value: Value) {
    c.phase.Watching? ==>
      && c.phase.tx.watched <= revision
      && (c.phase.tx.watched == revision ==> c.phase.tx.seen == value)
      && Computed(c.what, c.phase.tx.local, c.phase.tx.seen) == Ok(c.phase.tx.next)
  }

  ghost predicate InOrder(s: System, first: Value) {
    s.value == Replay(first, s.history) && Watched(s)
  }

  lemma ReplayNext(first: Value, history: seq<Entry>, e: Entry)
    ensures Replay(first, history + [e]) == Applied(Replay(first, history), e)
  {
    assert (history + [e])[..|history|] == history;
  }

  /** What lands was computed from the very value it replaces: a mutation from the
      list there, or from its caller's own copy onto a key that is gone; a seed only
      onto a key that is gone. */
  lemma LandingReplacesWhatItRead(s: System, first: Value, id: nat, replyLost: bool)
    requires InOrder(s, first) && At(s, id) && s.calls[id].phase.Watching?
    requires Next(s, Exec(id, replyLost)).revision != s.revision
    ensures var c := s.calls[id];
            var t := Next(s, Exec(id, replyLost));
            && t.value.Stored? && Computed(c.what, c.phase.tx.local, s.value) == Ok(t.value.users)
            && (c.what.Seed? ==> s.value == Absent)
            && t.history == s.history + [Committed(id, c.what, c.phase.tx.local)]
  {
  }

  /** What a step writes to the history, if it writes to the key. */
  function WriteOf(s: System, e: Event): seq<Entry> {
    match e
    case Wipe => if s.value.Absent? then [] else [Wiped]
    case Spoil => [Spoiled]
    case Exec(id, _) =>
      if At(s, id) && s.calls[id].phase.Watching? && s.calls[id].phase.tx.watched == s.revision
      then [Committed(id, s.calls[id].what, s.calls[id].phase.tx.local)] else []
    case _ => []
  }

  lemma StepWrites(s: System, e: Event)
    ensures var t := Next(s, e);
            && t.history == s.history + WriteOf(s, e) && t.revision == s.revision + |WriteOf(s, e)|
            && (WriteOf(s, e) == [] ==> t.value == s.value)
  {
  }

  lemma StepFollowsHistory(s: System, first: Value, e: Event)
    requires InOrder(s, first)
    ensures Next(s, e).value == Replay(first, Next(s, e).history)
  {
    hide Replay, Computed;
    StepWrites(s, e);
    if WriteOf(s, e) != [] {
      ReplayNext(first, s.history, WriteOf(s, e)[0]);
      if e.Exec? {
        LandingReplacesWhatItRead(s, first, e.id, e.replyLost);
      }
    }
  }

  lemma StepStaysHonest(s: System, e: Event)
    requires Watched(s)
    ensures Watched(Next(s, e))
  {
    hide Computed;
    StepWrites(s, e);
    var t := Next(s, e);
    forall id | id in t.calls ensures Honest(t.calls[id], t.revision, t.value) {
      assert id in s.calls ==> Honest(s.calls[id], s.revision, s.value);
    }
  }

  lemma StepInOrder(s: System, first: Value, e: Event)
    requires InOrder(s, first)
    ensures InOrder(Next(s, e), first)
  {
    StepFollowsHistory(s, first, e);
    StepStaysHonest(s, e);
  }

  /** In every reachable state, whatever calls of however many dashboards interleave,
      the key holds exactly what its history says one change at a time: no update is
      lost, although every write stores bytes computed from an earlier read. */
  lemma {:induction false} KeyFollowsHistory(s: System, first: Value, events: seq<Event>)
    requires InOrder(s, first)
    ensures InOrder(Runs(s, events), first)
    decreases |events|
  {
    if events != [] {
      StepInOrder(s, first, events[0]);
      KeyFollowsHistory(Next(s, events[0]), first, events[1..]);
    }
  }

  // ---- The fold since the last wipe ----

  /** What the present list began with, and the mutations committed since. */
  datatype Chain = Chain(base: Users, mutations: seq<Mutation>)

  function ChainOf(first: Value, history: seq<Entry>): Option<Chain> {
    if history == [] then if first.Stored? then Some(Chain(first.users, [])) else None
    else Extended(ChainOf(first, history[..|history| - 1]), history[|history| - 1])
  }

  function Extended(c: Option<Chain>, e: Entry): Option<Chain> {
    match e
    case Wiped => None
    case Spoiled => None
    case Committed(_, what, local) =>
      match what
      case Seed => Some(Chain(local, []))
      case Mutate(m) => if c.Some? then Some(c.value.(mutations := c.value.mutations + [m])) else Some(Chain(local, [m]))
  }

  function Folded(users: Users, mutations: seq<Mutation>): Option<Users> {
    if mutations == [] then Some(users)
    else
      var before := Folded(users, mutations[..|mutations| - 1]);
      if before.None? then None else mutations[|mutations| - 1](before.value)
  }

  lemma FoldedNext(users: Users, mutations: seq<Mutation>, m: Mutation)
    ensures Folded(users, mutations + [m]) == if Folded(users, mutations).None? then None else m(Folded(users, mutations).value)
  {
    assert (mutations + [m])[..|mutations|] == mutations;
  }

  /** Every commit of a history was possible where it stands. */
  ghost predicate Possible(first: Value, history: seq<Entry>) {
    forall i :: 0 <= i < |history| && history[i].Committed? ==>
      Computed(history[i].what, history[i].local, Replay(first, history[..i])).Ok?
  }

  /** v is the list a chain stands for. */
  ghost predicate StandsFor(c: Option<Chain>, v: Value) {
    && (v.Stored? <==> c.Some?)
    && (c.Some? ==> Folded(c.value.base, c.value.mutations) == Some(v.users))
  }

  lemma ChainStep(v: Value, c: Option<Chain>, e: Entry)
    requires StandsFor(c, v)
    requires e.Committed? ==> Computed(e.what, e.local, v).Ok?
    ensures StandsFor(Extended(c, e), Applied(v, e))
  {
    if e.Committed? && e.what.Mutate? {
      if c.Some? {
        FoldedNext(c.value.base, c.value.mutations, e.what.mutation);
      } else {
        FoldedNext(e.local, [], e.what.mutation);
        assert [] + [e.what.mutation] == [e.what.mutation];
      }
    }
  }

  lemma {:induction false} ReplayIsFold(first: Value, history: seq<Entry>)
    requires Possible(first, history)
    ensures StandsFor(ChainOf(first, history), Replay(first, history))
  {
    if history != [] {
      var n := |history| - 1;
      assert forall i :: 0 <= i < n ==> history[..n][..i] == history[..i];
      ReplayIsFold(first, history[..n]);
      assert history[..n] + [history[n]] == history;
      ChainStep(Replay(first, history[..n]), ChainOf(first, history[..n]), history[n]);
    }
  }

  lemma StepKeepsPossible(s: System, first: Value, e: Event)
    requires InOrder(s, first) && Possible(first, s.history)
    ensures Possible(first, Next(s, e).history)
  {
    hide Replay, Computed;
    StepWrites(s, e);
    var t := Next(s, e);
    if WriteOf(s, e) != [] {
      if e.Exec? {
        LandingReplacesWhatItRead(s, first, e.id, e.replyLost);
      }
      assert t.history[..|s.history|] == s.history;
      forall i | 0 <= i < |t.history| && t.history[i].Committed?
        ensures Computed(t.history[i].what, t.history[i].local, Replay(first, t.history[..i])).Ok? {
        assert i < |s.history| ==> t.history[..i] == s.history[..i] && t.history[i] == s.history[i];
      }
    }
  }

  lemma {:induction false} AlwaysPossible(s: System, first: Value, events: seq<Event>)
    requires InOrder(s, first) && Possible(first, s.history)
    ensures Possible(first, Runs(s, events).history)
    decreases |events|
  {
    if events != [] {
      StepInOrder(s, first, events[0]);
      StepKeepsPossible(s, first, events[0]);
      AlwaysPossible(Next(s, events[0]), first, events[1..]);
    }
  }

  /** The shared list, over any run: the key holds a list exactly when something was
      committed or seeded since the last wipe or spoiling (or it began with one),
      and then it is the mutations committed since, folded in commit order over what
      that stretch began with: the seeded list, or the first committer's own copy. */
  lemma ListIsCommittedMutations(first: Value, events: seq<Event>)
    ensures var t := Runs(Initial(first), events);
            StandsFor(ChainOf(first, t.history), t.value)
  {
    var s := Initial(first);
    KeyFollowsHistory(s, first, events);
    AlwaysPossible(s, first, events);
    ReplayIsFold(first, Runs(s, events).history);
  }

  // ---- Each call ----

  function LandingsOf(history: seq<Entry>, id: nat): nat {
    if history == [] then 0
    else
      LandingsOf(history[..|history| - 1], id)
      + if history[|history| - 1].Committed? && history[|history| - 1].call == id then 1 else 0
  }

  lemma LandingsNext(history: seq<Entry>, e: Entry, id: nat)
    ensures LandingsOf(history + [e], id) == LandingsOf(history, id) + if e.Committed? && e.call == id then 1 else 0
  {
    assert (history + [e])[..|history|] == history;
  }

  /** How often call id has taken effect, by where it is. */
  ghost predicate Accounted(s: System, id: nat) {
    var n := LandingsOf(s.history, id);
    && !(id in s.calls && id in s.outcomes)
    && (id in s.calls ==> n == if s.calls[id].phase.Landed? then 1 else 0)
    && (id in s.calls ==> s.calls[id].attempts < MAX_MUTATE_RETRIES)
    && (id in s.outcomes ==>
          match s.outcomes[id]
          case Done => n == 1
          case RefusedCall => n == 0
          case GaveUpCall => n == 0
          case Unknown => n <= 1)
    && (id !in s.calls && id !in s.outcomes ==> n == 0)
  }

  lemma StepKeepsAccounts(s: System, e: Event, id: nat)
    requires Accounted(s, id)
    ensures Accounted(Next(s, e), id)
  {
    hide LandingsOf, Computed;
    StepWrites(s, e);
    if WriteOf(s, e) != [] {
      LandingsNext(s.history, WriteOf(s, e)[0], id);
    }
  }

  /** Each call takes effect exactly once if it reports success, never if it reports
      a refusal or gives up, and at most once if its fate is unknown to it. */
  lemma {:induction false} EachCallOnce(s: System, events: seq<Event>, id: nat)
    requires Accounted(s, id)
    ensures Accounted(Runs(s, events), id)
    decreases |events|
  {
    if events != [] {
      StepKeepsAccounts(s, events[0], id);
      EachCallOnce(Next(s, events[0]), events[1..], id);
    }
  }

  lemma InitiallyAccounted(first: Value, id: nat)
    ensures Accounted(Initial(first), id)
  {
  }

  /** So from a key with any value on, over any run, for every call that has ended. */
  lemma CallsReportTruly(first: Value, events: seq<Event>, id: nat)
    requires id in Runs(Initial(first), events).outcomes
    ensures var t := Runs(Initial(first), events);
            var n := LandingsOf(t.history, id);
            match t.outcomes[id]
            case Done => n == 1
            case RefusedCall => n == 0
            case GaveUpCall => n == 0
            case Unknown => n <= 1
  {
    InitiallyAccounted(first, id);
    EachCallOnce(Initial(first), events, id);
  }
}

/** The lifecycle of one service's A/B test (cmd/dashboard/abmanager.go and the
    store of cmd/dashboard/abtest.go): API calls, background executions, ticks,
    crashes, failed writes. */
module AbTest {
  import opened Common

  datatype Phase = Running | Aborted | Promoting | Discarding

  datatype Pending = Undecided | Promote | Discard

  datatype Op = Done | Start | Relabel | FinalizePromote | FinalizeDiscard

  /** pinA, pinB: the latest pin of each variant ever reported for this id. */
  datatype Rec = Rec(id: string, phase: Phase, pending: Pending, op: Op, phaseAt: int, epoch: int, pinA: int, pinB: int)

  // ---- The store ----

  const MAX_HISTORY := 20

  datatype Entry = Entry(id: string, outcome: string)

  datatype ServiceState = ServiceState(current: Option<Rec>, history: seq<Entry>)

  const NO_STATE := ServiceState(None, [])

  function Appended(history: seq<Entry>, e: Entry): (r: seq<Entry>)
    ensures |r| <= MAX_HISTORY + |history| && |history| <= MAX_HISTORY ==> |r| <= MAX_HISTORY
    ensures r != [] && r[|r| - 1] == e
  {
    var longer := history + [e];
    if |longer| > MAX_HISTORY then longer[|longer| - MAX_HISTORY..] else longer
  }

  /** A history keeps the latest twenty, in order. */
  lemma AppendedKeepsLatest(history: seq<Entry>, e: Entry)
    requires |history| <= 20
    ensures |Appended(history, e)| == if |history| == 20 then 20 else |history| + 1
    ensures forall k :: 0 <= k < |Appended(history, e)| - 1 ==>
              Appended(history, e)[k] == history[if |history| == 20 then k + 1 else k]
  {
  }

  /** Memory changes first; the one file holds every service's state, so a later
      save for any service also saves what an earlier failed one did not. */
  class AbStore {
    var data: map<string, ServiceState>
    var disk: map<string, ServiceState>

    constructor (loaded: map<string, ServiceState>)
      ensures data == disk == loaded
    {
      data, disk := loaded, loaded;
    }

    function StateOf(svc: string): ServiceState
      reads this
    {
      if svc in data then data[svc] else NO_STATE
    }

    method Save(persisted: bool)
      modifies this`disk
      ensures disk == if persisted then data else old(disk)
    {
      if persisted {
        disk := data;
      }
    }

    method Put(svc: string, rec: Rec, persisted: bool) returns (ok: bool)
      modifies this
      ensures ok == persisted
      ensures data == old(data)[svc := ServiceState(Some(rec), if svc in old(data) then old(data)[svc].history else [])]
      ensures disk == if persisted then data else old(disk)
    {
      data := data[svc := StateOf(svc).(current := Some(rec))];
      Save(persisted);
      return persisted;
    }

    method Finish(svc: string, h: Entry, persisted: bool) returns (ok: bool)
      modifies this
      ensures ok == persisted
      ensures data == old(data)[svc := ServiceState(None, Appended(if svc in old(data) then old(data)[svc].history else [], h))]
      ensures disk == if persisted then data else old(disk)
    {
      var st := StateOf(svc);
      st := st.(current := None);
      var history := st.history + [h];
      if |history| > MAX_HISTORY {
        history := history[|history| - MAX_HISTORY..];
      }
      data := data[svc := st.(history := history)];
      Save(persisted);
      return persisted;
    }

    /** mutate: prep's answer is put before anything is executed. */
    method Mutate(svc: string, next: Result<Rec, Refusal>, claimed: bool, persisted: bool) returns (r: Result<Rec, Refusal>)
      modifies this
      ensures r == if next.Err? then next else if !claimed then Err(Busy) else if !persisted then Err(NotSaved) else next
      ensures next.Err? || !claimed ==> data == old(data) && disk == old(disk)
      ensures next.Ok? && claimed ==>
                && data == old(data)[svc := ServiceState(Some(next.value), if svc in old(data) then old(data)[svc].history else [])]
                && disk == if persisted then data else old(disk)
    {
      if next.Err? {
        return next;
      }
      if !claimed {
        return Err(Busy);
      }
      var ok := Put(svc, next.value, persisted);
      return if ok then next else Err(NotSaved);
    }
  }

  // ---- What each operation makes of the record ----

  datatype Refusal = NoTest | Exists | StillStarting | BeingFinalized | WrongPhase(phase: Phase) | WasAborted | NotDrained
                   | Already | Busy | NotSaved

  function RequireRecord(cur: Option<Rec>): Option<Refusal> {
    if cur.None? then Some(NoTest)
    else if cur.value.op.Start? then Some(StillStarting)
    else if cur.value.op.FinalizePromote? || cur.value.op.FinalizeDiscard? then Some(BeingFinalized)
    else None
  }

  function NewTest(id: string, now: int): Rec {
    Rec(id, Running, Undecided, Start, now, now, 0, 0)
  }

  function PrepAbort(cur: Option<Rec>, now: int): Result<Rec, Refusal> {
    if RequireRecord(cur).Some? then Err(RequireRecord(cur).value)
    else if cur.value.phase != Running then Err(WrongPhase(cur.value.phase))
    else Ok(cur.value.(phase := Aborted, phaseAt := now, op := Relabel))
  }

  function PrepReconfigure(cur: Option<Rec>, now: int): Result<Rec, Refusal> {
    if RequireRecord(cur).Some? then Err(RequireRecord(cur).value)
    else if cur.value.phase != Running && cur.value.phase != Aborted then Err(WrongPhase(cur.value.phase))
    else Ok(cur.value.(epoch := now, op := Relabel))
  }

  function PrepReset(cur: Option<Rec>, id: string, force: bool, drained: bool, now: int): Result<Rec, Refusal> {
    if RequireRecord(cur).Some? then Err(RequireRecord(cur).value)
    else if cur.value.phase != Running && cur.value.phase != Aborted then Err(WrongPhase(cur.value.phase))
    else if !force && !drained then Err(NotDrained)
    else Ok(Rec(id, Running, Undecided, Relabel, now, now, 0, 0))
  }

  function PrepDiscard(cur: Option<Rec>, force: bool, now: int): Result<Rec, Refusal> {
    if RequireRecord(cur).Some? then Err(RequireRecord(cur).value)
    else if cur.value.phase == Promoting then Err(WrongPhase(Promoting))
    else if force then Ok(cur.value.(pending := Discard, op := FinalizeDiscard))
    else if cur.value.phase == Discarding then Err(Already)
    else
      Ok(cur.value.(pending := Discard, phase := Discarding, op := Relabel,
                    phaseAt := if cur.value.phase != Aborted then now else cur.value.phaseAt))
  }

  /** latched: a proxy auto-aborted B and no tick has made it durable yet. */
  function PrepPromote(cur: Option<Rec>, force: bool, confirmAborted: bool, latched: bool, now: int): Result<Rec, Refusal> {
    if RequireRecord(cur).Some? then Err(RequireRecord(cur).value)
    else if cur.value.phase == Discarding then Err(WrongPhase(Discarding))
    else if !confirmAborted && (cur.value.phase == Aborted || (cur.value.phase == Running && latched)) then Err(WasAborted)
    else if force then Ok(cur.value.(pending := Promote, op := FinalizePromote))
    else if cur.value.phase == Promoting then Err(Already)
    else Ok(cur.value.(pending := Promote, phase := Promoting, phaseAt := now, op := Relabel))
  }

  // ---- What each operation accepts, and what it changes ----

  /** A record that is neither starting nor being finalized. */
  predicate Open(cur: Option<Rec>) {
    cur.Some? && cur.value.op in {Done, Relabel}
  }

  /** A new test runs, undecided, from the moment given, without any pins yet. */
  predicate IsNew(r: Rec, id: string, now: int) {
    && r.id == id && r.phase == Running && r.pending == Undecided && r.phaseAt == r.epoch == now && r.pinA == r.pinB == 0
  }

  lemma AbortExactly(cur: Option<Rec>, now: int)
    ensures var r := PrepAbort(cur, now);
      && (r.Ok? <==> Open(cur) && cur.value.phase == Running)
      && (r.Ok? ==> r.value == Rec(cur.value.id, Aborted, cur.value.pending, Relabel, now, cur.value.epoch, cur.value.pinA, cur.value.pinB))
  {
  }

  lemma ReconfigureExactly(cur: Option<Rec>, now: int)
    ensures var r := PrepReconfigure(cur, now);
      && (r.Ok? <==> Open(cur) && cur.value.phase in {Running, Aborted})
      && (r.Ok? ==>
            r.value == Rec(cur.value.id, cur.value.phase, cur.value.pending, Relabel, cur.value.phaseAt, now, cur.value.pinA, cur.value.pinB))
  {
  }

  /** A reset invalidates every pin, so without force B must have drained. */
  lemma ResetExactly(cur: Option<Rec>, id: string, force: bool, drained: bool, now: int)
    ensures var r := PrepReset(cur, id, force, drained, now);
      && (r.Ok? <==> Open(cur) && cur.value.phase in {Running, Aborted} && (force || drained))
      && (r.Ok? ==> IsNew(r.value, id, now) && r.value.op == Relabel)
      && (r == Err(NotDrained) <==> Open(cur) && cur.value.phase in {Running, Aborted} && !force && !drained)
  {
  }

  /** From aborted, B has been draining since the abort, so the clock stays. */
  lemma DiscardExactly(cur: Option<Rec>, force: bool, now: int)
    ensures var r := PrepDiscard(cur, force, now);
      && (r.Ok? <==> Open(cur) && cur.value.phase != Promoting && (force || cur.value.phase != Discarding))
      && (r.Ok? ==>
            && r.value.id == cur.value.id && r.value.pending == Discard && r.value.epoch == cur.value.epoch
            && r.value.pinA == cur.value.pinA && r.value.pinB == cur.value.pinB
            && (if force then r.value.op == FinalizeDiscard && r.value.phase == cur.value.phase && r.value.phaseAt == cur.value.phaseAt
                else && r.value.op == Relabel && r.value.phase == Discarding
                     && r.value.phaseAt == if cur.value.phase == Aborted then cur.value.phaseAt else now))
  {
  }

  /** An aborted B, also one only the proxy has aborted yet, is promoted only when
      that is confirmed. */
  lemma PromoteExactly(cur: Option<Rec>, force: bool, confirmAborted: bool, latched: bool, now: int)
    ensures var r := PrepPromote(cur, force, confirmAborted, latched, now);
      && (r.Ok? <==>
            && Open(cur) && cur.value.phase != Discarding && (force || cur.value.phase != Promoting)
            && (confirmAborted || (cur.value.phase != Aborted && !(cur.value.phase == Running && latched))))
      && (r.Ok? ==>
            && r.value.id == cur.value.id && r.value.pending == Promote && r.value.epoch == cur.value.epoch
            && r.value.pinA == cur.value.pinA && r.value.pinB == cur.value.pinB
            && (if force then r.value.op == FinalizePromote && r.value.phase == cur.value.phase && r.value.phaseAt == cur.value.phaseAt
                else r.value.op == Relabel && r.value.phase == Promoting && r.value.phaseAt == now))
      && (r == Err(WasAborted) <==>
            && Open(cur) && cur.value.phase != Discarding && !confirmAborted
            && (cur.value.phase == Aborted || (cur.value.phase == Running && latched)))
  {
  }

  function AutoAborted(cur: Rec, at: int): Rec {
    cur.(phase := Aborted, phaseAt := at, op := Relabel)
  }

  /** A failed or interrupted start whose B could not be removed. */
  function StartAbandoned(cur: Rec): Rec {
    cur.(op := FinalizeDiscard, pending := Discard)
  }

  function Observed(cur: Rec, a: int, b: int): Rec {
    cur.(pinA := if a > cur.pinA then a else cur.pinA, pinB := if b > cur.pinB then b else cur.pinB)
  }

  datatype BLabels = BLabels(id: string, phase: Phase)

  function FromLabels(b: BLabels): Rec {
    Rec(b.id, b.phase, match b.phase case Promoting => Promote case Discarding => Discard case _ => Undecided,
        Done, 0, 0, 0, 0)
  }

  // ---- All interleavings ----

  /** busy is the execution holding the service's lock, with its copy of the
      record; b is what the B replicas' labels say, None when there are none. */
  datatype System = System(
    mem: Option<Rec>,
    disk: Option<Rec>,
    busy: Option<Rec>,
    b: Option<BLabels>,
    used: set<string>)

  datatype Event =
    // API calls: refused while the lock is held
    | ApiStart(id: string, now: int, persisted: bool)
    | ApiAbort(now: int, persisted: bool)
    | ApiReconfigure(now: int, persisted: bool)
    | ApiReset(id: string, force: bool, drained: bool, now: int, persisted: bool)
    | ApiDiscard(force: bool, now: int, persisted: bool)
    | ApiPromote(force: bool, confirmAborted: bool, latched: bool, now: int, persisted: bool)
    // the execution in progress
    | Executed(ok: bool, bGone: bool, moved: bool, persisted: bool)
    // ticks
    | TickPins(a: int, b: int, persisted: bool)
    | TickInterruptedStart(bGone: bool, persisted: bool)
    | TickAutoAbort(at: int, persisted: bool)
    | TickResume
    | TickDrained(persisted: bool)
    | TickLost(persisted: bool)
    | TickAdoptOrphan(persisted: bool)
    // the world
    | RemoveBByHand
    | SavedWithOther
    | Crash
    | StoreLost

  function Put(s: System, rec: Rec, persisted: bool): System {
    s.(mem := Some(rec), disk := if persisted then Some(rec) else s.disk)
  }

  function Finish(s: System, persisted: bool): System {
    s.(mem := None, disk := if persisted then None else s.disk)
  }

  /** mutate: put, and execute only what was saved. */
  function Mutate(s: System, next: Result<Rec, Refusal>, persisted: bool): System {
    if s.busy.Some? || next.Err? then s
    else Put(s, next.value, persisted).(busy := if persisted then Some(next.value) else None)
  }

  /** How one execution ends: rec is its copy of the record. */
  function AfterExec(s: System, rec: Rec, ok: bool, bGone: bool, moved: bool, persisted: bool): System {
    match rec.op
    case Start =>
      if ok then Put(s.(b := Some(BLabels(rec.id, rec.phase))), rec.(op := Done), persisted)
      else if bGone then Finish(s.(b := None), persisted)
      else Put(s.(b := Some(BLabels(rec.id, rec.phase))), StartAbandoned(rec), persisted)
    case Relabel =>
      // without B replicas a relabel fails; one that fails part way may have
      // moved some of the labels
      if s.b.None? then Put(s, rec, persisted)
      else if ok then Put(s.(b := Some(BLabels(rec.id, rec.phase))), rec.(op := Done), persisted)
      else Put(if moved then s.(b := Some(BLabels(rec.id, rec.phase))) else s, rec, persisted)
    case FinalizePromote => if ok then Finish(s.(b := None), persisted) else Put(s, rec, persisted)
    case FinalizeDiscard => if ok then Finish(s.(b := None), persisted) else Put(s, rec, persisted)
    case Done => s
  }

  function Next(s: System, e: Event): System {
    match e
    case ApiStart(id, now, persisted) =>
      if s.mem.Some? || s.b.Some? || id in s.used then s
      else Mutate(s.(used := s.used + {id}), Ok(NewTest(id, now)), persisted)
    case ApiAbort(now, persisted) => Mutate(s, PrepAbort(s.mem, now), persisted)
    case ApiReconfigure(now, persisted) => Mutate(s, PrepReconfigure(s.mem, now), persisted)
    case ApiReset(id, force, drained, now, persisted) =>
      if id in s.used then s
      else Mutate(s.(used := s.used + {id}), PrepReset(s.mem, id, force, drained, now), persisted)
    case ApiDiscard(force, now, persisted) => Mutate(s, PrepDiscard(s.mem, force, now), persisted)
    case ApiPromote(force, confirm, latched, now, persisted) =>
      Mutate(s, PrepPromote(s.mem, force, confirm, latched, now), persisted)
    case Executed(ok, bGone, moved, persisted) =>
      if s.busy.None? then s
      else AfterExec(s, s.busy.value, ok, bGone, moved, persisted).(busy := None)
    case TickPins(a, b, persisted) =>
      if s.busy.Some? || s.mem.None? || Observed(s.mem.value, a, b) == s.mem.value then s
      else Put(s, Observed(s.mem.value, a, b), persisted)
    case TickInterruptedStart(bGone, persisted) =>
      if s.busy.Some? || s.mem.None? || !s.mem.value.op.Start? then s
      else if bGone then Finish(s.(b := None), persisted)
      else Put(s, StartAbandoned(s.mem.value), persisted)
    case TickAutoAbort(at, persisted) =>
      if s.busy.Some? || s.mem.None? || !s.mem.value.phase.Running? || !(s.mem.value.op.Done? || s.mem.value.op.Relabel?) then s
      else
        var next := AutoAborted(s.mem.value, at);
        Put(s, next, persisted).(busy := if persisted then Some(next) else None)
    case TickResume =>
      if s.busy.Some? || s.mem.None? || s.mem.value.op.Done? || s.mem.value.op.Start? then s else s.(busy := s.mem)
    case TickDrained(persisted) =>
      if s.busy.Some? || s.mem.None? || !s.mem.value.op.Done? || s.mem.value.pending.Undecided? then s
      else
        var next := s.mem.value.(op := if s.mem.value.pending.Discard? then FinalizeDiscard else FinalizePromote);
        Put(s, next, persisted).(busy := if persisted then Some(next) else None)
    case TickLost(persisted) =>
      if s.busy.Some? || s.mem.None? || s.b.Some? || !s.mem.value.op.Done? || !s.mem.value.pending.Undecided? then s
      else Finish(s, persisted)
    case TickAdoptOrphan(persisted) =>
      if s.busy.Some? || s.mem.Some? || s.b.None? then s else Put(s, FromLabels(s.b.value), persisted)
    case RemoveBByHand => s.(b := None)
    case SavedWithOther => s.(disk := s.mem)
    case Crash => s.(busy := None, mem := s.disk)
    case StoreLost => s.(busy := None, mem := None, disk := None)
  }

  function Runs(s: System, events: seq<Event>): System
    decreases |events|
  {
    if events == [] then s else Runs(Next(s, events[0]), events[1..])
  }

  // ---- What each step does ----

  /** An operation is refused while another holds the lock; else its record replaces
      the one in memory, and is executed exactly if it was saved. */
  lemma MutateExactly(s: System, next: Result<Rec, Refusal>, persisted: bool)
    ensures var t := Mutate(s, next, persisted);
            t == if s.busy.Some? || next.Err? then s
                 else if persisted then System(Some(next.value), Some(next.value), Some(next.value), s.b, s.used)
                 else System(Some(next.value), s.disk, None, s.b, s.used)
  {
  }

  /** Which API call runs which operation. A start needs a service without a test or
      B replicas, a start and a reset an id never used. */
  lemma ApiStepsExactly(s: System, id: string, now: int, force: bool, drained: bool, confirm: bool, latched: bool, saved: bool)
    ensures Next(s, ApiAbort(now, saved)) == Mutate(s, PrepAbort(s.mem, now), saved)
    ensures Next(s, ApiReconfigure(now, saved)) == Mutate(s, PrepReconfigure(s.mem, now), saved)
    ensures Next(s, ApiDiscard(force, now, saved)) == Mutate(s, PrepDiscard(s.mem, force, now), saved)
    ensures Next(s, ApiPromote(force, confirm, latched, now, saved)) == Mutate(s, PrepPromote(s.mem, force, confirm, latched, now), saved)
    ensures id !in s.used ==>
              Next(s, ApiReset(id, force, drained, now, saved))
              == Mutate(s.(used := s.used + {id}), PrepReset(s.mem, id, force, drained, now), saved)
    ensures var t := Next(s, ApiStart(id, now, saved));
            if s.mem.None? && s.b.None? && id !in s.used && s.busy.None?
            then && t.mem.Some? && IsNew(t.mem.value, id, now) && t.mem.value.op == Start && id in t.used && t.b.None?
                 && (saved ==> t.disk == t.busy == t.mem) && (!saved ==> t.disk == s.disk && t.busy == None)
            else t.mem == s.mem && t.disk == s.disk && t.busy == s.busy && t.b == s.b
  {
  }

  /** How an execution ends. A start that succeeds puts B's replicas under the
      record's labels; one that fails is over if B could be removed, and else left to
      be discarded. A relabel that succeeds moves the labels; a finalize that
      succeeds removes B and the record. What fails stays as it was recorded, to be
      resumed. */
  lemma ExecutionsExactly(s: System, ok: bool, bGone: bool, moved: bool, saved: bool)
    requires s.busy.Some?
    ensures var rec := s.busy.value;
            var labels := Some(BLabels(rec.id, rec.phase));
            var t := Next(s, Executed(ok, bGone, moved, saved));
            && t.busy == None && t.used == s.used
            && (rec.op == Start && ok ==> t.b == labels && t.mem == Some(rec.(op := Done)))
            && (rec.op == Start && !ok && bGone ==> t.b == None && t.mem == None)
            && (rec.op == Start && !ok && !bGone ==>
                  t.b == labels && t.mem == Some(rec.(op := FinalizeDiscard, pending := Discard)))
            && (rec.op == Relabel && ok && s.b.Some? ==> t.b == labels && t.mem == Some(rec.(op := Done)))
            && (rec.op == Relabel && !(ok && s.b.Some?) ==>
                  t.mem == Some(rec) && t.b == if s.b.Some? && moved then labels else s.b)
            && (rec.op in {FinalizePromote, FinalizeDiscard} && ok ==> t.b == None && t.mem == None)
            && (rec.op in {FinalizePromote, FinalizeDiscard} && !ok ==> t.b == s.b && t.mem == Some(rec))
            && (rec.op != Done ==> t.disk == if saved then t.mem else s.disk)
            && (rec.op == Done ==> t == s.(busy := None))
  {
  }

  /** Ticks do nothing while an execution holds the lock, and else: keep the latest
      pins; clean up after an interrupted start; abort what a proxy aborted; resume
      what was not finished; finalize what has drained; give up a test whose replicas
      are gone; and take up one whose record is. */
  lemma TicksExactly(s: System, a: int, b: int, bGone: bool, at: int, saved: bool)
    requires s.busy.None? && s.mem.Some?
    ensures var r := s.mem.value;
      && (Next(s, TickPins(a, b, saved)).mem
          == Some(r.(pinA := if a > r.pinA then a else r.pinA, pinB := if b > r.pinB then b else r.pinB)))
      && (r.op == Start ==>
            var t := Next(s, TickInterruptedStart(bGone, saved));
            && t.busy == None
            && (bGone ==> t.mem == None && t.b == None)
            && (!bGone ==> t.mem == Some(r.(op := FinalizeDiscard, pending := Discard)) && t.b == s.b))
      && (r.op != Start ==> Next(s, TickInterruptedStart(bGone, saved)) == s)
      && (var t := Next(s, TickAutoAbort(at, saved));
          if r.phase == Running && r.op in {Done, Relabel}
          then && t.mem == Some(r.(phase := Aborted, phaseAt := at, op := Relabel)) && t.b == s.b
               && t.busy == if saved then t.mem else None
          else t == s)
      && Next(s, TickResume) == (if r.op in {Relabel, FinalizePromote, FinalizeDiscard} then s.(busy := s.mem) else s)
      && (var t := Next(s, TickDrained(saved));
          if r.op == Done && r.pending != Undecided
          then t.mem == Some(r.(op := if r.pending == Discard then FinalizeDiscard else FinalizePromote))
               && t.b == s.b && t.busy == if saved then t.mem else None
          else t == s)
      && (var t := Next(s, TickLost(saved));
          if s.b == None && r.op == Done && r.pending == Undecided then t.mem == None && t.b == None else t == s)
  {
  }

  /** A tick that writes. */
  predicate Writes(e: Event) {
    e.TickPins? || e.TickInterruptedStart? || e.TickAutoAbort? || e.TickDrained? || e.TickLost? || e.TickAdoptOrphan?
  }

  lemma OtherStepsExactly(s: System, e: Event)
    ensures s.busy.Some? && (Writes(e) || e.TickResume?) ==> Next(s, e) == s
    ensures Writes(e) && Next(s, e) != s ==> Next(s, e).disk == if e.persisted then Next(s, e).mem else s.disk
    ensures s.busy.None? && s.mem.None? && s.b.Some? && e.TickAdoptOrphan? ==>
              var t := Next(s, e);
              && t.mem.Some? && t.mem.value.id == s.b.value.id && t.mem.value.phase == s.b.value.phase && t.mem.value.op == Done
              && (t.mem.value.pending == Promote <==> s.b.value.phase == Promoting)
              && (t.mem.value.pending == Discard <==> s.b.value.phase == Discarding)
    ensures Next(s, RemoveBByHand) == s.(b := None) && Next(s, SavedWithOther) == s.(disk := s.mem)
    ensures Next(s, Crash) == s.(busy := None, mem := s.disk)
    ensures Next(s, StoreLost) == s.(busy := None, mem := None, disk := None)
  {
  }

  const INITIAL := System(None, None, None, None, {})

  // ---- What every interleaving keeps ----

  predicate Coherent(r: Rec) {
    && (r.op.FinalizePromote? ==> r.pending.Promote?)
    && (r.op.FinalizeDiscard? ==> r.pending.Discard?)
    && (r.phase.Promoting? ==> r.pending.Promote?)
    && (r.phase.Discarding? ==> r.pending.Discard?)
    && (r.pending.Promote? && !r.op.FinalizePromote? ==> r.phase.Promoting?)
    && (r.pending.Discard? && !r.op.FinalizeDiscard? ==> r.phase.Discarding?)
    && (r.op.Start? ==> r.phase.Running? && r.pending.Undecided?)
  }

  predicate CoherentOpt(r: Option<Rec>) {
    r.Some? ==> Coherent(r.value)
  }

  /** Every copy of the record is coherent, and an execution's copy is the one in
      memory. */
  predicate Sound(s: System) {
    && CoherentOpt(s.mem) && CoherentOpt(s.disk)
    && (s.busy.Some? ==> s.busy == s.mem)
  }

  lemma StepIsSound(s: System, e: Event)
    requires Sound(s)
    ensures Sound(Next(s, e))
  {
  }

  lemma {:induction false} AlwaysSound(s: System, events: seq<Event>)
    requires Sound(s)
    ensures Sound(Runs(s, events))
    decreases |events|
  {
    if events != [] {
      StepIsSound(s, events[0]);
      AlwaysSound(Next(s, events[0]), events[1..]);
    }
  }

  // ---- Without a lost store ----

  predicate SameTest(x: Option<Rec>, y: Option<Rec>) {
    x.Some? && y.Some? && x.value.id == y.value.id
  }

  predicate PinsAtMost(x: Rec, y: Rec) {
    x.pinA <= y.pinA && x.pinB <= y.pinB
  }

  /** B exists only for a recorded test, and a start in execution was saved. */
  predicate BRecorded(s: System) {
    && (s.b.Some? ==> s.mem.Some? && s.disk.Some?)
    && (s.busy.Some? && s.busy.value.op.Start? ==> s.disk.Some?)
  }

  /** Ids in use are used; memory is never behind the disk on pins. */
  predicate PinsRecorded(s: System) {
    && (s.mem.Some? ==> s.mem.value.id in s.used)
    && (s.disk.Some? ==> s.disk.value.id in s.used)
    && (SameTest(s.mem, s.disk) ==> PinsAtMost(s.disk.value, s.mem.value))
  }

  predicate Recorded(s: System) {
    BRecorded(s) && PinsRecorded(s)
  }

  // What a step does to the record, whatever the event.

  /** A later state of the same test: no pin forgotten, no decision taken back. */
  predicate Follows(r: Rec, next: Rec) {
    next.id == r.id && PinsAtMost(r, next) && (!r.pending.Undecided? ==> next.pending == r.pending)
  }

  predicate Updated(s: System, t: System) {
    && s.mem.Some? && t.mem.Some? && Follows(s.mem.value, t.mem.value)
    && (t.disk == s.disk || t.disk == t.mem) && t.used == s.used
  }

  predicate Replaced(s: System, t: System) {
    && t.mem.Some? && t.mem.value.id !in s.used && t.used == s.used + {t.mem.value.id}
    && (t.disk == s.disk || t.disk == t.mem) && (s.mem.Some? ==> s.mem.value.pending.Undecided?)
  }

  predicate Finished(s: System, t: System) {
    t.mem == None && (t.disk == s.disk || t.disk == None) && t.used == s.used
  }

  predicate Untouched(s: System, t: System) {
    t.mem == s.mem && (t.disk == s.disk || t.disk == s.mem) && s.used <= t.used
  }

  /** A step leaves the record alone (or saves it), updates it, starts a new test,
      or finishes it; a crash goes back to what was saved. */
  predicate Progress(s: System, t: System, e: Event) {
    if e.Crash? then t.mem == s.disk && t.disk == s.disk && t.used == s.used
    else Untouched(s, t) || Updated(s, t) || Replaced(s, t) || Finished(s, t)
  }

  lemma ApiStepProgresses(s: System, e: Event)
    requires Sound(s) && Recorded(s)
    requires e.ApiStart? || e.ApiAbort? || e.ApiReconfigure? || e.ApiReset? || e.ApiDiscard? || e.ApiPromote?
    ensures Progress(s, Next(s, e), e)
  {
  }

  lemma OwnStepProgresses(s: System, e: Event)
    requires Sound(s) && Recorded(s) && !e.StoreLost?
    requires !(e.ApiStart? || e.ApiAbort? || e.ApiReconfigure? || e.ApiReset? || e.ApiDiscard? || e.ApiPromote?)
    ensures Progress(s, Next(s, e), e)
  {
  }

  lemma StepProgresses(s: System, e: Event)
    requires Sound(s) && Recorded(s) && !e.StoreLost?
    ensures Progress(s, Next(s, e), e)
  {
    hide Next, Sound, Recorded, Progress;
    if e.ApiStart? || e.ApiAbort? || e.ApiReconfigure? || e.ApiReset? || e.ApiDiscard? || e.ApiPromote? {
      ApiStepProgresses(s, e);
    } else {
      OwnStepProgresses(s, e);
    }
  }

  lemma StepKeepsBRecorded(s: System, e: Event)
    requires Sound(s) && BRecorded(s) && !e.StoreLost?
    ensures BRecorded(Next(s, e))
  {
    hide Coherent;
  }

  lemma StepIsRecorded(s: System, e: Event)
    requires Sound(s) && Recorded(s) && !e.StoreLost?
    ensures Recorded(Next(s, e))
  {
    hide Next, Sound, BRecorded;
    StepKeepsBRecorded(s, e);
    StepProgresses(s, e);
  }

  /** Pin maxima of one test: on disk they never fall; in memory only a crash can
      take back what was not saved. */
  lemma PinsNeverFall(s: System, e: Event)
    requires Sound(s) && Recorded(s) && !e.StoreLost?
    ensures var t := Next(s, e);
      && (SameTest(s.disk, t.disk) ==> PinsAtMost(s.disk.value, t.disk.value))
      && (SameTest(s.mem, t.mem) && !e.Crash? ==> PinsAtMost(s.mem.value, t.mem.value))
      && (SameTest(s.disk, t.mem) ==> PinsAtMost(s.disk.value, t.mem.value))
  {
    hide Next, Sound, BRecorded;
    StepProgresses(s, e);
  }

  /** The decision p about test id, wherever a copy of its record is. */
  predicate Decided(s: System, id: string, p: Pending) {
    && id in s.used
    && (s.mem.Some? && s.mem.value.id == id ==> s.mem.value.pending == p)
    && (s.disk.Some? && s.disk.value.id == id ==> s.disk.value.pending == p)
  }

  lemma StepKeepsDecision(s: System, e: Event, id: string, p: Pending)
    requires Sound(s) && Recorded(s) && !e.StoreLost?
    requires Decided(s, id, p) && !p.Undecided?
    ensures Decided(Next(s, e), id, p)
    ensures s.mem.Some? && s.mem.value.id == id && Next(s, e).mem.Some? && !e.Crash? ==> Next(s, e).mem.value.id == id
  {
    hide Next, Sound, BRecorded;
    StepProgresses(s, e);
  }

  /** Irreversibility: once a promote or a discard of a test was accepted (its
      record written), no interleaving of API calls, ticks, crashes and failed
      writes ever makes a copy of that test's record say anything else; the record
      only goes by being finished. */
  lemma {:induction false} AcceptedDecisionStands(s: System, events: seq<Event>, id: string, p: Pending)
    requires Sound(s) && Recorded(s) && Decided(s, id, p) && !p.Undecided?
    requires StoreLost !in events
    ensures Decided(Runs(s, events), id, p)
    ensures Sound(Runs(s, events)) && Recorded(Runs(s, events))
    decreases |events|
  {
    if events != [] {
      assert events[0] in events;
      StepIsSound(s, events[0]);
      StepIsRecorded(s, events[0]);
      StepKeepsDecision(s, events[0], id, p);
      AcceptedDecisionStands(Next(s, events[0]), events[1..], id, p);
    }
  }

  /** An API call that answers with success is such an acceptance. */
  lemma AcceptedMeansDecided(s: System, force: bool, confirmAborted: bool, latched: bool, now: int)
    requires Sound(s) && Recorded(s) && s.busy.None?
    ensures PrepPromote(s.mem, force, confirmAborted, latched, now).Ok? ==>
              Decided(Next(s, ApiPromote(force, confirmAborted, latched, now, true)), s.mem.value.id, Promote)
    ensures PrepDiscard(s.mem, force, now).Ok? ==>
              Decided(Next(s, ApiDiscard(force, now, true)), s.mem.value.id, Discard)
  {
  }

  /** The record of a decided test refuses everything that would undo it: the
      opposite decision, a reset, an abort, an automatic abort. */
  lemma DecidedRefusesTheRest(r: Rec, now: int, id: string, force: bool, confirmAborted: bool, latched: bool)
    requires Coherent(r) && !r.pending.Undecided?
    ensures PrepAbort(Some(r), now).Err? && PrepReset(Some(r), id, true, true, now).Err? && PrepReconfigure(Some(r), now).Err?
    ensures r.pending.Discard? ==> PrepPromote(Some(r), force, confirmAborted, latched, now).Err?
    ensures r.pending.Promote? ==> PrepDiscard(Some(r), force, now).Err?
    ensures !(r.phase.Running? && (r.op.Done? || r.op.Relabel?))
  {
  }

  lemma {:induction false} AlwaysRecorded(s: System, events: seq<Event>)
    requires Sound(s) && Recorded(s) && StoreLost !in events
    ensures Sound(Runs(s, events)) && Recorded(Runs(s, events))
    decreases |events|
  {
    if events != [] {
      assert events[0] in events;
      StepIsSound(s, events[0]);
      StepIsRecorded(s, events[0]);
      AlwaysRecorded(Next(s, events[0]), events[1..]);
    }
  }

  lemma ReachableIsSound(events: seq<Event>)
    ensures Sound(Runs(INITIAL, events))
    ensures StoreLost !in events ==> Recorded(Runs(INITIAL, events))
  {
    AlwaysSound(INITIAL, events);
    if StoreLost !in events {
      AlwaysRecorded(INITIAL, events);
    }
  }

  /** From a dashboard without a test: whatever happened before a promote or a
      discard was answered with success, and whatever happens after, the decision
      stands in every copy of that test's record. */
  lemma DecisionStandsFromTheStart(before: seq<Event>, after: seq<Event>, force: bool, confirmAborted: bool, latched: bool,
                                   now: int)
    requires StoreLost !in before && StoreLost !in after
    requires Runs(INITIAL, before).busy.None?
    ensures var s := Runs(INITIAL, before);
      && (PrepPromote(s.mem, force, confirmAborted, latched, now).Ok? ==>
            Decided(Runs(Next(s, ApiPromote(force, confirmAborted, latched, now, true)), after), s.mem.value.id, Promote))
      && (PrepDiscard(s.mem, force, now).Ok? ==>
            Decided(Runs(Next(s, ApiDiscard(force, now, true)), after), s.mem.value.id, Discard))
  {
    hide Runs, Sound, Recorded, Decided;
    var s := Runs(INITIAL, before);
    ReachableIsSound(before);
    AcceptedMeansDecided(s, force, confirmAborted, latched, now);
    if PrepPromote(s.mem, force, confirmAborted, latched, now).Ok? {
      var e := ApiPromote(force, confirmAborted, latched, now, true);
      StepIsSound(s, e);
      StepIsRecorded(s, e);
      AcceptedDecisionStands(Next(s, e), after, s.mem.value.id, Promote);
    }
    if PrepDiscard(s.mem, force, now).Ok? {
      var e := ApiDiscard(force, now, true);
      StepIsSound(s, e);
      StepIsRecorded(s, e);
      AcceptedDecisionStands(Next(s, e), after, s.mem.value.id, Discard);
    }
  }

  /** A decision gets carried out: once its relabel has succeeded and sessions have
      drained, and removing B succeeds, the test is over, in memory, on disk and on
      the host. With force it takes neither the relabel nor the drain. */
  lemma DecisionIsCarriedOut(s: System)
    requires Sound(s) && s.busy.None? && s.mem.Some? && !s.mem.value.pending.Undecided? && s.b.Some?
    ensures var relabelled := if s.mem.value.op.Relabel? then Next(Next(s, TickResume), Executed(true, false, false, true)) else s;
            var finalizing := if s.mem.value.op in {FinalizePromote, FinalizeDiscard} then Next(relabelled, TickResume)
                              else Next(relabelled, TickDrained(true));
            var t := Next(finalizing, Executed(true, false, false, true));
            && t.mem == None && t.disk == None && t.b == None && t.busy == None
            && finalizing.b.Some? && finalizing.busy == finalizing.mem && finalizing.mem.Some?
            && finalizing.mem.value.id == s.mem.value.id
            && (relabelled != s ==> relabelled.b == Some(BLabels(s.mem.value.id, s.mem.value.phase)))
  {
    hide Next;
    TicksExactly(s, 0, 0, false, 0, true);
    var resumed := Next(s, TickResume);
    if s.mem.value.op.Relabel? {
      ExecutionsExactly(resumed, true, false, false, true);
    }
    var relabelled := if s.mem.value.op.Relabel? then Next(resumed, Executed(true, false, false, true)) else s;
    TicksExactly(relabelled, 0, 0, false, 0, true);
    var finalizing := if s.mem.value.op in {FinalizePromote, FinalizeDiscard} then Next(relabelled, TickResume)
                      else Next(relabelled, TickDrained(true));
    ExecutionsExactly(finalizing, true, false, false, true);
  }

  /** Pins on disk over a whole run, for the test that is there at both ends. */
  lemma {:induction false} PinsOnDiskOnlyRise(s: System, events: seq<Event>, id: string, a: int, b: int)
    requires Sound(s) && Recorded(s) && StoreLost !in events && id in s.used
    requires s.disk.Some? && s.disk.value.id == id ==> a <= s.disk.value.pinA && b <= s.disk.value.pinB
    requires s.mem.Some? && s.mem.value.id == id ==> a <= s.mem.value.pinA && b <= s.mem.value.pinB
    ensures var t := Runs(s, events);
      t.disk.Some? && t.disk.value.id == id ==> a <= t.disk.value.pinA && b <= t.disk.value.pinB
    decreases |events|
  {
    if events != [] {
      assert events[0] in events;
      StepIsSound(s, events[0]);
      StepIsRecorded(s, events[0]);
      PinsNeverFall(s, events[0]);
      PinsStayAbove(s, events[0], id, a, b);
      PinsOnDiskOnlyRise(Next(s, events[0]), events[1..], id, a, b);
    }
  }

  lemma PinsStayAbove(s: System, e: Event, id: string, a: int, b: int)
    requires Sound(s) && Recorded(s) && !e.StoreLost? && id in s.used
    requires s.disk.Some? && s.disk.value.id == id ==> a <= s.disk.value.pinA && b <= s.disk.value.pinB
    requires s.mem.Some? && s.mem.value.id == id ==> a <= s.mem.value.pinA && b <= s.mem.value.pinB
    ensures var t := Next(s, e);
      && id in t.used
      && (t.disk.Some? && t.disk.value.id == id ==> a <= t.disk.value.pinA && b <= t.disk.value.pinB)
      && (t.mem.Some? && t.mem.value.id == id ==> a <= t.mem.value.pinA && b <= t.mem.value.pinB)
  {
    hide Next, Sound, BRecorded;
    StepProgresses(s, e);
  }
}

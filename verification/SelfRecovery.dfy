/** The origin's job loop against its own record: read, roll, and on a failed
    health gate revert once or degrade (runOrigin, handleOriginGateFailure and
    loop in cmd/dashboard/centralenv_sync.go). Each store call is a step of its own,
    so writes may land between any two of them. */
module SelfRecovery {
  import opened Common
  import opened EnvContent
  import opened CentralEnvStore
  import opened StoreHistory

  /** snap is the copy of the record the job works from. */
  datatype Pc =
    | Stopped
    | Top
    | Waiting(target: nat, snap: Record)
    | Rereading(target: nat)
    | Rolling(target: nat, snap: Record)
    | Handling(target: nat, snap: Record)
    | Reverting(target: nat)
    | Degrading(target: nat)
    | Propagating(target: nat, snap: Record)
    | AtEnd(target: nat)

  /** The counters count successful content edits, touches and automatic reverts;
      reverted says that the current version was produced by one. */
  datatype System = System(
    rec: Option<Record>,
    pc: Pc,
    dirty: bool,
    edits: nat,
    touches: nat,
    reverts: nat,
    reverted: bool)

  datatype RollEnd = Healthy | GateFailed | OtherError

  datatype Event =
    // from outside: an edit, a rotated secret, an operator's release, a request
    | Edit(change: Change, persisted: bool)
    | Touch(persisted: bool)
    | Release(persisted: bool)
    | Ask
    // the loop's own steps
    | FirstRead(released: bool)
    | SecondRead(ready: bool)
    | Reread(readable: bool)
    | Roll(end: RollEnd, undone: bool, persisted: bool)
    | Handle
    | Revert(persisted: bool)
    | Degrade(persisted: bool)
    | Propagate(converged: bool, persisted: bool)
    | EndJob

  predicate External(e: Event) {
    e.Edit? || e.Touch? || e.Release? || e.Ask?
  }

  function Born(svc: string, origin: string, c: Content, adopting: bool, requestId: string): System {
    System(Some(NewRecord(svc, origin, c, adopting, requestId)), Stopped, false, 0, 0, 0, false)
  }

  function MarkedDegraded(rec: Record, persisted: bool): Record {
    if persisted then rec.(state := Degraded) else rec
  }

  /** handleOriginGateFailure: a newer version is left alone; if the failed one came
      from a revert, it is degraded, else reverted. */
  function AfterGateFailure(s: System, target: nat, snap: Record): Pc {
    if s.rec.None? || s.rec.value.version != target then AtEnd(target)
    else if snap.state == Reverted then Degrading(target)
    else Reverting(target)
  }

  /** Reverts the record as it is by now; a revert that fails, or one that cannot be
      made, degrades it. */
  function AfterRevert(s: System, target: nat, persisted: bool): System {
    if s.rec.None? || !RevertOutcome(s.rec.value).Write? || !persisted then s.(pc := Degrading(target))
    else
      s.(pc := AtEnd(target), rec := Some(RevertOutcome(s.rec.value).next), reverts := s.reverts + 1, reverted := true)
  }

  function Next(s: System, e: Event): System {
    match e
    case Edit(change, persisted) =>
      if s.rec.None? then s
      else
        var next := Settle(s.rec.value, ApplyOutcome(s.rec.value, change), persisted);
        if next.version == s.rec.value.version then s.(rec := Some(next))
        else s.(rec := Some(next), edits := s.edits + 1, reverted := false)
    case Touch(persisted) =>
      if s.rec.None? || !persisted then s
      else s.(rec := Some(TouchOutcome(s.rec.value).next), touches := s.touches + 1, reverted := false)
    case Release(persisted) =>
      if s.rec.Some? && persisted then s.(rec := Some(s.rec.value.(state := Releasing))) else s
    case Ask => if s.pc.Stopped? then s.(pc := Top) else s.(dirty := true)
    case FirstRead(released) =>
      if !s.pc.Top? then s
      else if s.rec.None? then s.(pc := AtEnd(0))
      else
        var rec := s.rec.value;
        if rec.state == Releasing then s.(pc := AtEnd(rec.version), rec := if released then None else s.rec)
        else if rec.state == Degraded then s.(pc := AtEnd(rec.version))
        else s.(pc := Waiting(rec.version, rec))
    case SecondRead(ready) =>
      // claimed, no A/B test, and the env resolves
      if !s.pc.Waiting? then s
      else if !ready || s.rec.None? then s.(pc := AtEnd(s.pc.target))
      else if s.rec.value.version == s.pc.target then s.(pc := Rolling(s.pc.target, s.pc.snap))
      else s.(pc := Rereading(s.rec.value.version))
    case Reread(readable) =>
      if !s.pc.Rereading? then s
      else if !readable || s.rec.None? then s.(pc := AtEnd(s.pc.target))
      else s.(pc := Rolling(s.pc.target, s.rec.value))
    case Roll(end, undone, persisted) =>
      if !s.pc.Rolling? then s
      else if end.Healthy? then s.(pc := Propagating(s.pc.target, s.pc.snap))
      else if s.pc.snap.adopting && s.pc.snap.prev.None? then
        s.(pc := AtEnd(s.pc.target),
           rec := if s.rec.None? || undone then None
                  else if persisted then Some(s.rec.value.(state := Releasing)) else s.rec)
      else if end.GateFailed? then s.(pc := Handling(s.pc.target, s.pc.snap))
      else s.(pc := AtEnd(s.pc.target))
    case Handle => if !s.pc.Handling? then s else s.(pc := AfterGateFailure(s, s.pc.target, s.pc.snap))
    case Revert(persisted) => if !s.pc.Reverting? then s else AfterRevert(s, s.pc.target, persisted)
    case Degrade(persisted) =>
      if !s.pc.Degrading? then s
      else
        s.(pc := AtEnd(s.pc.target), rec := if s.rec.Some? then Some(MarkedDegraded(s.rec.value, persisted)) else None)
    case Propagate(converged, persisted) =>
      if !s.pc.Propagating? then s
      else if converged && s.pc.snap.adopting && s.rec.Some? && persisted then
        s.(pc := AtEnd(s.pc.target), rec := Some(s.rec.value.(adopting := false)))
      else s.(pc := AtEnd(s.pc.target))
    case EndJob =>
      if !s.pc.AtEnd? then s
      else if s.dirty || BehindNow(s) then s.(pc := Top, dirty := false)
      else s.(pc := Stopped)
  }

  function Runs(s: System, events: seq<Event>): System
    decreases |events|
  {
    if events == [] then s else Runs(Next(s, events[0]), events[1..])
  }

  predicate HasTarget(pc: Pc) {
    !pc.Stopped? && !pc.Top?
  }

  /** The stored version moved past the job's target and may be tried. */
  predicate BehindNow(s: System) {
    HasTarget(s.pc) && s.rec.Some? && s.rec.value.version > s.pc.target && s.rec.value.state != Degraded
  }

  // ---- What every run keeps ----

  /** A version not yet reverted that has something to go back to. */
  predicate CanRevert(s: System) {
    s.rec.Some? && !s.reverted && s.rec.value.prev.Some?
  }

  function One(b: bool): nat {
    if b then 1 else 0
  }

  /** Every revert is paid for by an edit or a touch. */
  ghost predicate Paid(s: System) {
    s.reverts + One(CanRevert(s)) <= s.edits + s.touches
  }

  /** The job knows when the version it rolls came from a revert. */
  ghost predicate Marked(s: System) {
    s.rec.Some? && s.reverted ==>
      && s.rec.value.state in {Reverted, Degraded, Releasing}
      && !s.pc.Rereading? && !s.pc.Reverting?
      && (s.pc.Waiting? || s.pc.Rolling? || s.pc.Handling? ==>
            s.pc.target == s.rec.value.version && s.pc.snap.state == Reverted)
  }

  /** A degraded record is not being rolled. */
  ghost predicate Quiet(s: System) {
    s.rec.Some? && s.rec.value.state == Degraded ==> s.pc.Stopped? || s.pc.Top? || s.pc.AtEnd?
  }

  ghost predicate Inv(s: System) {
    Paid(s) && Marked(s) && Quiet(s)
  }

  lemma OutsideKeepsInv(s: System, e: Event)
    requires Inv(s) && External(e)
    ensures Inv(Next(s, e))
  {
  }

  lemma OwnStepKeepsInv(s: System, e: Event)
    requires Inv(s) && !External(e)
    ensures Inv(Next(s, e))
  {
  }

  lemma StepKeepsInv(s: System, e: Event)
    requires Inv(s)
    ensures Inv(Next(s, e))
  {
    hide Inv, Next, External;
    if External(e) {
      OutsideKeepsInv(s, e);
    } else {
      OwnStepKeepsInv(s, e);
    }
  }

  lemma {:induction false} RunKeepsInv(s: System, events: seq<Event>)
    requires Inv(s)
    ensures Inv(Runs(s, events))
    decreases |events|
  {
    if events != [] {
      StepKeepsInv(s, events[0]);
      RunKeepsInv(Next(s, events[0]), events[1..]);
    }
  }

  /** Bounded self-recovery: in any run from a record's creation, automatic reverts
      number at most the content edits and touches, and a degraded record is never
      rolled. */
  lemma RevertsBoundedByEdits(svc: string, origin: string, c: Content, adopting: bool, requestId: string, events: seq<Event>)
    ensures var s := Runs(Born(svc, origin, c, adopting, requestId), events);
            && s.reverts <= s.edits + s.touches
            && (s.rec.Some? && s.rec.value.state == Degraded ==> s.pc.Stopped? || s.pc.Top? || s.pc.AtEnd?)
  {
    RunKeepsInv(Born(svc, origin, c, adopting, requestId), events);
  }

  /** Left to itself, a degraded record stays exactly as it is and no job rolls it:
      only a new write or an operator's release gets it moving again. */
  lemma {:induction false} DegradedWaitsForAWrite(s: System, events: seq<Event>)
    requires Inv(s) && s.rec.Some? && s.rec.value.state == Degraded
    requires forall e :: e in events ==> !External(e) || e.Ask?
    ensures var t := Runs(s, events);
            t.rec == s.rec && (t.pc.Stopped? || t.pc.Top? || t.pc.AtEnd?) && t.reverts == s.reverts
    decreases |events|
  {
    if events != [] {
      assert events[0] in events;
      StepKeepsInv(s, events[0]);
      DegradedWaitsForAWrite(Next(s, events[0]), events[1..]);
    }
  }

  /** A failed gate of the current version is reverted, exactly unless that version
      came from a revert itself: then, or when there is nothing to go back to or the
      revert cannot be saved, the record is degraded; and a newer version is left
      alone. */
  lemma FailedGateReverts(s: System)
    requires s.pc.Handling?
    ensures var t := Next(s, Handle);
            && t.rec == s.rec && t.reverts == s.reverts
            && (t.pc == AtEnd(s.pc.target) <==> s.rec.None? || s.rec.value.version != s.pc.target)
            && (t.pc == Degrading(s.pc.target)
                <==> s.rec.Some? && s.rec.value.version == s.pc.target && s.pc.snap.state == Reverted)
    ensures s.rec.Some? && s.rec.value.version == s.pc.target && s.pc.snap.state != Reverted ==>
              var saved, unsaved := Next(Next(s, Handle), Revert(true)), Next(Next(Next(s, Handle), Revert(false)), Degrade(true));
              && (s.rec.value.prev.Some? ==>
                    && saved.pc == AtEnd(s.pc.target) && saved.reverts == s.reverts + 1 && saved.rec.Some?
                    && saved.rec.value.version == s.pc.target + 1
                    && saved.rec.value.content == s.rec.value.prev.value.content
                    && saved.rec.value.state == Reverted && saved.rec.value.adopting == s.rec.value.adopting
                    && saved.rec.value.prev == Some(Snapshot(s.pc.target, s.rec.value.content)))
              && (s.rec.value.prev.None? ==> saved == Next(s, Handle).(pc := Degrading(s.pc.target)))
              && unsaved.pc == AtEnd(s.pc.target) && unsaved.rec == Some(s.rec.value.(state := Degraded))
              && Next(Next(Next(s, Handle), Revert(false)), Degrade(false)) == s.(pc := AtEnd(s.pc.target))
  {
  }

  /** What the gap between the version check and the revert allows, for every state:
      an edit landing there is taken back, leaving the content that just failed its
      gate as the next version to roll. */
  lemma EditInTheGapIsUndone(s: System, change: Change)
    requires s.pc.Reverting? && s.rec.Some? && s.rec.value.version == s.pc.target
    requires var o := ApplyOutcome(s.rec.value, change); o.Write? && !o.written.noOp
    ensures var t := Next(Next(s, Edit(change, true)), Revert(true));
            && t.rec.Some? && t.rec.value.content == s.rec.value.content
            && t.rec.value.version == s.pc.target + 2 && BehindNow(t)
            && t.rec.value.prev == Some(Snapshot(s.pc.target + 1, change.content))
  {
    var s1 := Next(s, Edit(change, true));
    assert s1.rec.value.content == change.content && s1.rec.value.prev == Some(Snapshot(s.pc.target, s.rec.value.content));
  }

  // ---- What a job does ----

  /** Writes from outside: an edit that publishes counts once and is the new
      version, one that does not publish moves nothing; a saved touch is a new
      version with the old content; a saved release only marks the record. None of
      them moves the job. A request starts a stopped loop and is remembered by a
      running one. */
  lemma OutsideSteps(s: System, change: Change, persisted: bool)
    requires s.rec.Some?
    ensures var edited, touched, released := Next(s, Edit(change, persisted)), Next(s, Touch(persisted)), Next(s, Release(persisted));
            var o := ApplyOutcome(s.rec.value, change);
            && (o.Write? && persisted && o.next.version != s.rec.value.version ==>
                  edited == s.(rec := Some(o.next), edits := s.edits + 1, reverted := false))
            && (o.Write? && persisted && o.next.version == s.rec.value.version ==> edited == s.(rec := Some(o.next)))
            && (!o.Write? || !persisted ==> edited == s)
            && touched.pc == released.pc == s.pc && touched.dirty == released.dirty == s.dirty
            && (!persisted ==> touched == s && released == s)
            && (persisted ==>
                  && touched.rec.Some? && touched.rec.value.version == s.rec.value.version + 1
                  && touched.rec.value.content == s.rec.value.content
                  && touched.touches == s.touches + 1 && touched.edits == s.edits && !touched.reverted
                  && released == s.(rec := Some(s.rec.value.(state := Releasing))))
            && Next(s, Ask) == if s.pc.Stopped? then s.(pc := Top) else s.(dirty := true)
  {
  }

  /** The start of a job: without a record nothing is done; a record being released
      is released instead, a degraded one left alone; any other is rolled, in the
      version the env was resolved at, unless the host is not ready for it. */
  lemma JobReads(s: System, released: bool, ready: bool, readable: bool)
    requires s.pc.Top?
    ensures var s1 := Next(s, FirstRead(released));
            var s2 := Next(s1, SecondRead(ready));
            if s.rec.None? then s1 == s.(pc := AtEnd(0))
            else
              var rec := s.rec.value;
              match rec.state
              case Releasing => s1 == s.(pc := AtEnd(rec.version), rec := if released then None else s.rec)
              case Degraded => s1 == s.(pc := AtEnd(rec.version))
              case _ =>
                && s1 == s.(pc := Waiting(rec.version, rec))
                && s2 == s.(pc := if ready then Rolling(rec.version, rec) else AtEnd(rec.version))
  {
  }

  /** A write between the two reads: the newest version is rolled, never the one in
      between. */
  lemma JobRollsNewest(s: System, ready: bool, readable: bool)
    requires s.pc.Waiting? && s.rec.Some? && s.rec.value.version != s.pc.target
    ensures var t := Next(Next(s, SecondRead(ready)), Reread(readable));
            var v := s.rec.value.version;
            && (!ready ==> t == s.(pc := AtEnd(s.pc.target)))
            && (ready && readable ==> t == s.(pc := Rolling(v, s.rec.value)))
            && (ready && !readable ==> t == s.(pc := AtEnd(v)))
  {
  }

  /** How a roll ends: healthy replicas go on to the peers, and at last the adopting
      mark goes, if every peer converged; a failed first roll of an adopt is undone
      or, failing that, left releasing; any other failed gate is handled, and any
      other error ends the job. */
  lemma RollEnds(s: System, end: RollEnd, undone: bool, persisted: bool, converged: bool)
    requires s.pc.Rolling?
    ensures var t := Next(s, Roll(end, undone, persisted));
            var first := s.pc.snap.adopting && s.pc.snap.prev.None?;
            match end
            case Healthy =>
              && t == s.(pc := Propagating(s.pc.target, s.pc.snap))
              && Next(t, Propagate(converged, persisted))
                 == s.(pc := AtEnd(s.pc.target),
                       rec := if converged && s.pc.snap.adopting && persisted && s.rec.Some?
                              then Some(s.rec.value.(adopting := false)) else s.rec)
            case GateFailed => !first ==> t == s.(pc := Handling(s.pc.target, s.pc.snap))
            case OtherError => !first ==> t == s.(pc := AtEnd(s.pc.target))
    ensures s.pc.snap.adopting && s.pc.snap.prev.None? && !end.Healthy? ==>
              var t := Next(s, Roll(end, undone, persisted));
              && t.pc == AtEnd(s.pc.target) && t.reverts == s.reverts
              && (undone || s.rec.None? ==> t.rec == None)
              && (!undone && s.rec.Some? ==> t.rec == if persisted then Some(s.rec.value.(state := Releasing)) else s.rec)
  {
  }

  /** The end of a job: once more if something was asked for meanwhile or the stored
      version is newer and not degraded, else the loop stops. */
  lemma JobEnds(s: System)
    requires s.pc.AtEnd?
    ensures var again := s.dirty || (s.rec.Some? && s.rec.value.version > s.pc.target && s.rec.value.state != Degraded);
            Next(s, EndJob) == if again then s.(pc := Top, dirty := false) else s.(pc := Stopped)
  {
  }

  /** The loop at rest, asked to propagate a version whose replicas fail their gate
      on this host, with nobody writing meanwhile. */
  function AfterFirstGateFailure(s: System): System {
    var rolling := Next(Next(Next(s, Ask), FirstRead(false)), SecondRead(true));
    Next(Next(Next(Next(rolling, Roll(GateFailed, false, true)), Handle), Revert(true)), EndJob)
  }

  /** Self-recovery at work: the previous content comes back as the next version and
      is rolled by the same loop. If its replicas are healthy the loop stops on it;
      if not, the record is degraded and the loop stops. */
  lemma LoopRecovers(s: System)
    requires s.pc.Stopped? && !s.dirty && s.rec.Some? && s.rec.value.prev.Some? && !s.rec.value.adopting
    requires s.rec.value.state !in {Releasing, Degraded, Reverted}
    ensures var rolling := Next(Next(AfterFirstGateFailure(s), FirstRead(false)), SecondRead(true));
            var healed := Next(Next(Next(rolling, Roll(Healthy, false, true)), Propagate(true, true)), EndJob);
            var failed := Next(Next(Next(Next(rolling, Roll(GateFailed, false, true)), Handle), Degrade(true)), EndJob);
            && rolling.pc.Rolling? && rolling.pc.target == s.rec.value.version + 1
            && healed.rec.Some? && healed.rec.value.state == Reverted && healed.rec == rolling.rec
            && failed.rec == Some(healed.rec.value.(state := Degraded))
            && healed.rec.value.version == s.rec.value.version + 1
            && healed.rec.value.content == s.rec.value.prev.value.content
            && healed.pc.Stopped? && failed.pc.Stopped? && healed.reverts == failed.reverts == s.reverts + 1
  {
    hide Next;
    var change := Change(0, "", s.rec.value.content);
    OutsideSteps(s, change, true);
    var top := Next(s, Ask);
    JobReads(top, false, true, true);
    var rolling := Next(Next(top, FirstRead(false)), SecondRead(true));
    RollEnds(rolling, GateFailed, false, true, true);
    FailedGateReverts(Next(rolling, Roll(GateFailed, false, true)));
    JobEnds(Next(Next(Next(rolling, Roll(GateFailed, false, true)), Handle), Revert(true)));
    var again := AfterFirstGateFailure(s);
    JobReads(again, false, true, true);
    var second := Next(Next(again, FirstRead(false)), SecondRead(true));
    RollEnds(second, Healthy, false, true, true);
    JobEnds(Next(Next(second, Roll(Healthy, false, true)), Propagate(true, true)));
    SecondGateFailure(second);
  }

  /** A version that came from a revert and fails its own gate. */
  lemma SecondGateFailure(s: System)
    requires s.pc.Rolling? && s.rec == Some(s.pc.snap) && s.pc.target == s.rec.value.version && s.pc.snap.state == Reverted
    requires !s.pc.snap.adopting && !s.dirty
    ensures var t := Next(Next(Next(Next(s, Roll(GateFailed, false, true)), Handle), Degrade(true)), EndJob);
            t == s.(pc := Stopped, rec := Some(s.rec.value.(state := Degraded)))
  {
    RollEnds(s, GateFailed, false, true, true);
    JobEnds(Next(Next(Next(s, Roll(GateFailed, false, true)), Handle), Degrade(true)));
  }

  // ---- Termination ----

  function StepsLeft(pc: Pc): nat {
    match pc
    case Stopped => 0
    case Top => 9
    case Waiting(_, _) => 8
    case Rereading(_) => 7
    case Rolling(_, _) => 6
    case Handling(_, _) => 5
    case Reverting(_) => 4
    case Degrading(_) => 3
    case Propagating(_, _) => 2
    case AtEnd(_) => 1
  }

  /** Jobs the loop may still start on its own, then the steps of the present one. */
  function Measure(s: System): nat {
    10 * (One(s.dirty) + One(BehindNow(s)) + One(CanRevert(s))) + StepsLeft(s.pc)
  }

  lemma OutsideMeasure(s: System, e: Event)
    requires External(e)
    ensures Measure(Next(s, e)) <= Measure(s) + 20
  {
    hide ApplyOutcome, Settle, TouchOutcome;
  }

  lemma ReadMeasure(s: System, e: Event)
    requires Inv(s) && (e.FirstRead? || e.SecondRead? || e.Reread? || e.EndJob?)
    ensures Next(s, e) != s ==> Measure(Next(s, e)) < Measure(s)
  {
  }

  lemma RollMeasure(s: System, e: Event)
    requires Inv(s) && (e.Roll? || e.Handle? || e.Revert? || e.Degrade? || e.Propagate?)
    ensures Next(s, e) != s ==> Measure(Next(s, e)) < Measure(s)
  {
  }

  lemma StepMeasure(s: System, e: Event)
    requires Inv(s)
    ensures !External(e) && Next(s, e) != s ==> Measure(Next(s, e)) < Measure(s)
    ensures External(e) ==> Measure(Next(s, e)) <= Measure(s) + 20
  {
    hide Inv, Next, Measure;
    if External(e) {
      OutsideMeasure(s, e);
    } else if e.Roll? || e.Handle? || e.Revert? || e.Degrade? || e.Propagate? {
      RollMeasure(s, e);
    } else {
      ReadMeasure(s, e);
    }
  }

  function Count(events: seq<Event>, external: bool): nat {
    if events == [] then 0 else One(External(events[0]) == external) + Count(events[1..], external)
  }

  /** How many of the loop's own steps took effect. */
  function Moves(s: System, events: seq<Event>): nat
    decreases |events|
  {
    if events == [] then 0
    else One(!External(events[0]) && Next(s, events[0]) != s) + Moves(Next(s, events[0]), events[1..])
  }

  /** The job loop comes to rest: with n events from outside it makes at most
      20 n steps of its own beyond what it had left at the start. */
  lemma {:induction false} LoopComesToRest(s: System, events: seq<Event>)
    requires Inv(s)
    ensures Moves(s, events) + Measure(Runs(s, events)) <= Measure(s) + 20 * Count(events, true)
    decreases |events|
  {
    if events != [] {
      StepKeepsInv(s, events[0]);
      StepMeasure(s, events[0]);
      LoopComesToRest(Next(s, events[0]), events[1..]);
    }
  }

  /** It does not get stuck either: until it stops, one of its own steps is
      possible. */
  lemma LoopIsNeverStuck(s: System)
    requires !s.pc.Stopped?
    ensures exists e :: !External(e) && Next(s, e).pc != s.pc
  {
    var e := match s.pc
      case Top => FirstRead(false)
      case Waiting(_, _) => SecondRead(false)
      case Rereading(_) => Reread(false)
      case Rolling(_, _) => Roll(OtherError, false, false)
      case Handling(_, _) => Handle
      case Reverting(_) => Revert(false)
      case Degrading(_) => Degrade(false)
      case Propagating(_, _) => Propagate(false, false)
      case AtEnd(_) => EndJob;
    assert Next(s, e).pc != s.pc;
  }

  /** When the loop has stopped after its own EndJob, the stored version is the one
      it last aimed at, or the record is degraded or gone. */
  lemma StoppedIsCaughtUp(s: System)
    requires s.pc.AtEnd? && Next(s, EndJob).pc.Stopped?
    ensures s.rec.None? || s.rec.value.version <= s.pc.target || s.rec.value.state == Degraded
    ensures !s.dirty
  {
  }
}

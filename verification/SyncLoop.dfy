/** The per-service job loop of cmd/dashboard/centralenv_sync.go: its critical
    sections as methods, and every interleaving of requests with one service's
    loops. */
module SyncLoop {
  import opened Common
  import opened CentralEnvStore

  // ---- The manager's critical sections ----

  datatype Flags = Flags(running: bool, dirty: bool)

  function Started(f: Flags): (Flags, bool) {
    if f.running then (f.(dirty := true), false) else (f.(running := true), true)
  }

  function Ended(f: Flags, behind: bool): (Flags, bool) {
    var again := f.dirty || behind;
    (Flags(f.running && again, false), again)
  }

  datatype PeerTarget = PeerTarget(origin: string, version: nat)

  /** The target moves to a new origin or up, never down. */
  function Retarget(t: PeerTarget, origin: string, version: nat): PeerTarget {
    PeerTarget(origin, if t.origin == origin && t.version > version then t.version else version)
  }

  /** A stored version above the one just rolled, which is not marked degraded. */
  predicate Behind(rec: Result<Option<Record>, StoreError>, target: nat) {
    rec.Ok? && rec.value.Some? && rec.value.value.version > target && rec.value.value.state != Degraded
  }

  class EnvSyncManager {
    var running: set<string>
    var dirty: set<string>
    var peerTarget: map<string, PeerTarget>
    var peerAdopt: set<string>
    var peerRelease: map<string, string>

    constructor ()
      ensures running == {} && dirty == {} && peerTarget == map[] && peerAdopt == {} && peerRelease == map[]
    {
      running, dirty, peerTarget, peerAdopt, peerRelease := {}, {}, map[], {}, map[];
    }

    function FlagsOf(svc: string): Flags
      reads this
    {
      Flags(svc in running, svc in dirty)
    }

    function TargetOf(svc: string): PeerTarget
      reads this
    {
      if svc in peerTarget then peerTarget[svc] else PeerTarget("", 0)
    }

    /** spawn tells the caller to start svc's loop. */
    method StartLocked(svc: string) returns (spawn: bool)
      modifies this`running, this`dirty
      ensures (FlagsOf(svc), spawn) == Started(old(FlagsOf(svc)))
      ensures running - {svc} == old(running) - {svc} && dirty - {svc} == old(dirty) - {svc}
    {
      if svc in running {
        dirty := dirty + {svc};
        return false;
      }
      running := running + {svc};
      return true;
    }

    method Request(svc: string) returns (spawn: bool)
      modifies this`running, this`dirty
      ensures (FlagsOf(svc), spawn) == Started(old(FlagsOf(svc)))
      ensures running - {svc} == old(running) - {svc} && dirty - {svc} == old(dirty) - {svc}
    {
      spawn := StartLocked(svc);
    }

    method RequestPeer(svc: string, origin: string, version: nat) returns (spawn: bool)
      modifies this`running, this`dirty, this`peerTarget
      ensures (FlagsOf(svc), spawn) == Started(old(FlagsOf(svc)))
      ensures running - {svc} == old(running) - {svc} && dirty - {svc} == old(dirty) - {svc}
      ensures TargetOf(svc) == Retarget(old(TargetOf(svc)), origin, version)
      ensures peerTarget - {svc} == old(peerTarget) - {svc}
    {
      var t := TargetOf(svc);
      if t.origin != origin || version > t.version {
        peerTarget := peerTarget[svc := PeerTarget(origin, version)];
      }
      spawn := StartLocked(svc);
    }

    /** What a notice asks for: the target, and the adopt mark its job will take. */
    method RequestNotified(svc: string, origin: string, version: nat, adopt: bool) returns (spawn: bool)
      modifies this`running, this`dirty, this`peerTarget, this`peerAdopt
      ensures (FlagsOf(svc), spawn) == Started(old(FlagsOf(svc)))
      ensures running - {svc} == old(running) - {svc} && dirty - {svc} == old(dirty) - {svc}
      ensures TargetOf(svc) == Retarget(old(TargetOf(svc)), origin, version)
      ensures peerTarget - {svc} == old(peerTarget) - {svc}
      ensures peerAdopt == if adopt then old(peerAdopt) + {svc} else old(peerAdopt)
    {
      if adopt {
        peerAdopt := peerAdopt + {svc};
      }
      spawn := RequestPeer(svc, origin, version);
    }

    /** The start of a peer's job: the target as it is, and the adopt mark, once. */
    method TakePeerTarget(svc: string) returns (t: PeerTarget, adopt: bool)
      modifies this`peerAdopt
      ensures t == TargetOf(svc) && adopt == (svc in old(peerAdopt))
      ensures peerAdopt == old(peerAdopt) - {svc}
    {
      t, adopt := TargetOf(svc), svc in peerAdopt;
      peerAdopt := peerAdopt - {svc};
    }

    /** Drops what is remembered of a service without a central env here. */
    method Forget(svc: string)
      modifies this`peerTarget, this`peerAdopt
      ensures peerTarget == old(peerTarget) - {svc} && peerAdopt == old(peerAdopt) - {svc}
    {
      peerTarget, peerAdopt := peerTarget - {svc}, peerAdopt - {svc};
    }

    method RequestPeerRelease(svc: string, origin: string) returns (spawn: bool)
      modifies this`running, this`dirty, this`peerRelease
      ensures (FlagsOf(svc), spawn) == Started(old(FlagsOf(svc)))
      ensures peerRelease == old(peerRelease)[svc := origin]
      ensures running - {svc} == old(running) - {svc} && dirty - {svc} == old(dirty) - {svc}
    {
      peerRelease := peerRelease[svc := origin];
      spawn := StartLocked(svc);
    }

    method TakePeerRelease(svc: string) returns (origin: string)
      modifies this`peerRelease
      ensures origin == if svc in old(peerRelease) then old(peerRelease)[svc] else ""
      ensures peerRelease == old(peerRelease) - {svc}
    {
      origin := if svc in peerRelease then peerRelease[svc] else "";
      peerRelease := peerRelease - {svc};
    }

    /** The end of one job. The loop stops with a stored version above its target
        only if the record is degraded, broken or gone. */
    method EndOfJob(svc: string, store: CentralEnvStore, origin: bool, target: nat) returns (again: bool)
      requires store.Valid()
      modifies this`running, this`dirty
      ensures (FlagsOf(svc), again) ==
              Ended(old(FlagsOf(svc)),
                    origin && svc !in store.broken && svc in store.items
                    && store.items[svc].version > target && store.items[svc].state != Degraded)
      ensures running - {svc} == old(running) - {svc} && dirty - {svc} == old(dirty) - {svc}
      ensures origin && !again ==>
                || svc in store.broken || svc !in store.items
                || store.items[svc].version <= target || store.items[svc].state == Degraded
    {
      again := svc in dirty;
      dirty := dirty - {svc};
      if !again && origin {
        var rec := store.Get(svc);
        if Behind(rec, target) {
          again := true;
        }
      }
      if !again {
        running := running - {svc};
      }
    }
  }

  // ---- One service's loops, interleaved with requests ----

  /** Where a loop is: choosing the kind of job, about to read what to propagate,
      past that read, in a peer's release job, or at the end of a job; owned says
      that the job is of a service in this host's own store. */
  datatype Pc = Choosing | Reading(owned: bool) | Past(owned: bool) | Unstamping | AtEnd(owned: bool)

  /** unserved says that some request was not followed by a read yet. */
  datatype System = System(flags: Flags, loops: map<nat, Pc>, next: nat, releaseAsked: bool, unserved: bool)

  datatype Event =
    | AskSync
    | AskRelease
    | Choose(loop: nat, owned: bool)
    | Read(loop: nat)
    | FinishJob(loop: nat)
    | FinishRelease(loop: nat, ok: bool)
    | EndJob(loop: nat, behind: bool)

  function Spawned(s: System): System {
    var (flags, spawn) := Started(s.flags);
    if spawn then s.(flags := flags, loops := s.loops[s.next := Choosing], next := s.next + 1)
    else s.(flags := flags)
  }

  function Next(s: System, e: Event): System {
    match e
    case AskSync => Spawned(s).(unserved := true)
    case AskRelease => Spawned(s).(releaseAsked := true)
    case Choose(l, owned) =>
      if l !in s.loops || !s.loops[l].Choosing? then s
      else if owned || !s.releaseAsked then s.(loops := s.loops[l := Reading(owned)])
      else s.(loops := s.loops[l := Unstamping], releaseAsked := false)
    case Read(l) =>
      if l in s.loops && s.loops[l].Reading? then s.(loops := s.loops[l := Past(s.loops[l].owned)], unserved := false) else s
    case FinishJob(l) =>
      if l in s.loops && s.loops[l].Past? then s.(loops := s.loops[l := AtEnd(s.loops[l].owned)]) else s
    case FinishRelease(l, ok) =>
      // a successful release withdraws what was queued before it
      if l !in s.loops || !s.loops[l].Unstamping? then s
      else if ok && !s.releaseAsked then
        s.(loops := s.loops[l := AtEnd(false)], flags := s.flags.(dirty := false), unserved := false)
      else s.(loops := s.loops[l := AtEnd(false)])
    case EndJob(l, behind) =>
      if l !in s.loops || !s.loops[l].AtEnd? then s
      else
        var (flags, again) := Ended(s.flags, s.loops[l].owned && behind);
        s.(flags := flags, loops := if again then s.loops[l := Choosing] else s.loops - {l})
  }

  function Runs(s: System, events: seq<Event>): System
    decreases |events|
  {
    if events == [] then s else Runs(Next(s, events[0]), events[1..])
  }

  // ---- What each step does ----

  /** A request starts a loop if none runs, which begins by choosing its job, and
      otherwise leaves word for the one that runs. */
  lemma AskingExactly(s: System)
    ensures var sync, release := Next(s, AskSync), Next(s, AskRelease);
      && sync.unserved && sync.releaseAsked == s.releaseAsked
      && release.releaseAsked && release.unserved == s.unserved
      && sync.flags == release.flags && sync.loops == release.loops && sync.next == release.next
      && sync.flags.running
      && (s.flags.running ==> sync.flags.dirty && sync.loops == s.loops && sync.next == s.next)
      && (!s.flags.running ==>
            && sync.flags.dirty == s.flags.dirty && sync.next == s.next + 1 && sync.next > s.next
            && sync.loops == s.loops[s.next := Choosing])
  {
  }

  /** A job of an owned service propagates; on a peer a pending release goes first,
      once. The read of a propagation serves every request before it. */
  lemma JobExactly(s: System, l: nat, owned: bool)
    requires l in s.loops
    ensures s.loops[l] == Choosing ==>
              Next(s, Choose(l, owned)) ==
                if !owned && s.releaseAsked then s.(loops := s.loops[l := Unstamping], releaseAsked := false)
                else s.(loops := s.loops[l := Reading(owned)])
    ensures s.loops[l] == Reading(owned) ==> Next(s, Read(l)) == s.(loops := s.loops[l := Past(owned)], unserved := false)
    ensures s.loops[l] == Past(owned) ==> Next(s, FinishJob(l)) == s.(loops := s.loops[l := AtEnd(owned)])
  {
  }

  /** A release job that succeeds withdraws what was queued, unless another release
      was asked for meanwhile; one that fails withdraws nothing. */
  lemma ReleaseJobExactly(s: System, l: nat, ok: bool)
    requires l in s.loops && s.loops[l] == Unstamping
    ensures Next(s, FinishRelease(l, ok)) ==
            var ended := s.(loops := s.loops[l := AtEnd(false)]);
            if ok && !s.releaseAsked then ended.(flags := Flags(s.flags.running, false), unserved := false) else ended
  {
  }

  /** The end of a job: another one if word was left, or an owned service's stored
      version is ahead; else the loop is gone and the service free for a new one. */
  lemma EndExactly(s: System, l: nat, owned: bool, behind: bool)
    requires l in s.loops && s.loops[l] == AtEnd(owned)
    ensures Next(s, EndJob(l, behind)) ==
            if s.flags.dirty || (owned && behind)
            then s.(flags := Flags(s.flags.running, false), loops := s.loops[l := Choosing])
            else s.(flags := Flags(false, false), loops := s.loops - {l})
  {
  }

  /** So a request at rest gets a job of its own, which serves it and leaves the
      manager at rest again; and one that comes during that job, after its read, gets
      another job. */
  lemma RequestsAreServed(s: System, owned: bool)
    requires s.flags == Flags(false, false) && s.loops == map[] && !s.releaseAsked
    ensures var reading := Next(Next(s, AskSync), Choose(s.next, owned));
            var past := Next(reading, Read(s.next));
            var t := Next(Next(past, FinishJob(s.next)), EndJob(s.next, false));
            var again := Next(Next(Next(past, AskSync), FinishJob(s.next)), EndJob(s.next, false));
            && !past.unserved
            && t.flags == Flags(false, false) && t.loops == map[] && !t.unserved
            && again.flags == Flags(true, false) && again.loops == map[s.next := Choosing] && again.unserved
  {
    hide Next;
    AskingExactly(s);
    var asked := Next(s, AskSync);
    assert asked.loops == map[s.next := Choosing];
    JobExactly(asked, s.next, owned);
    var reading := Next(asked, Choose(s.next, owned));
    JobExactly(reading, s.next, owned);
    var past := Next(reading, Read(s.next));
    assert past.loops == map[s.next := Past(owned)];
    JobExactly(past, s.next, owned);
    EndExactly(Next(past, FinishJob(s.next)), s.next, owned, false);
    AskingExactly(past);
    var more := Next(past, AskSync);
    JobExactly(more, s.next, owned);
    EndExactly(Next(more, FinishJob(s.next)), s.next, owned, false);
  }

  /** And a release asked for on a peer at rest gets its job, which withdraws what
      was queued with it and leaves the manager at rest. */
  lemma ReleasesAreServed(s: System)
    requires s.flags == Flags(false, false) && s.loops == map[]
    ensures var unstamping := Next(Next(Next(s, AskRelease), AskSync), Choose(s.next, false));
            var t := Next(Next(unstamping, FinishRelease(s.next, true)), EndJob(s.next, false));
            && unstamping.unserved && !unstamping.releaseAsked
            && t.flags == Flags(false, false) && t.loops == map[] && !t.unserved && !t.releaseAsked
  {
    hide Next;
    AskingExactly(s);
    var asked := Next(s, AskRelease);
    assert asked.loops == map[s.next := Choosing];
    AskingExactly(asked);
    var both := Next(asked, AskSync);
    JobExactly(both, s.next, false);
    var unstamping := Next(both, Choose(s.next, false));
    ReleaseJobExactly(unstamping, s.next, true);
    EndExactly(Next(unstamping, FinishRelease(s.next, true)), s.next, false, false);
  }

  const INITIAL := System(Flags(false, false), map[], 0, false, false)

  /** At most one loop, and exactly while the service is marked running. */
  ghost predicate SingleLoop(s: System) {
    && (s.flags.running <==> s.loops != map[])
    && (forall k, l :: k in s.loops && l in s.loops ==> k == l)
    && (s.flags.dirty ==> s.flags.running)
  }

  /** A loop that still serves a request: it has yet to read, or its release will
      withdraw what is queued. */
  predicate Serves(pc: Pc) {
    pc.Choosing? || pc.Reading? || pc.Unstamping?
  }

  /** A request not yet followed by a read has one coming: the dirty flag, or a job
      that still serves it. A release asked for during a release job is behind the
      dirty flag. */
  ghost predicate WillRead(s: System) {
    && (s.unserved ==> s.flags.dirty || exists l :: l in s.loops && Serves(s.loops[l]))
    && (forall l :: l in s.loops && s.loops[l].Unstamping? && s.releaseAsked ==> s.flags.dirty)
  }

  lemma StepKeepsSingleLoop(s: System, e: Event)
    requires SingleLoop(s)
    ensures SingleLoop(Next(s, e))
  {
    var s' := Next(s, e);
    match e
    case AskSync => assert s.next in Spawned(s).loops || Spawned(s).loops == s.loops;
    case AskRelease => assert s.next in Spawned(s).loops || Spawned(s).loops == s.loops;
    case EndJob(l, behind) =>
      if l in s.loops && s.loops[l].AtEnd? {
        assert s.loops.Keys == {l};
        assert s'.loops.Keys == {l} || s'.loops == map[];
        assert s'.loops != map[] ==> l in s'.loops;
      }
    case _ =>
      if e.loop in s.loops {
        assert e.loop in s'.loops;
      }
  }

  lemma {:induction false} AtMostOneLoop(s: System, events: seq<Event>)
    requires SingleLoop(s)
    ensures SingleLoop(Runs(s, events))
    decreases |events|
  {
    if events != [] {
      StepKeepsSingleLoop(s, events[0]);
      AtMostOneLoop(Next(s, events[0]), events[1..]);
    }
  }

  predicate FailsRelease(e: Event) {
    e.FinishRelease? && !e.ok
  }

  lemma StepKeepsWillRead(s: System, e: Event)
    requires SingleLoop(s) && WillRead(s) && !FailsRelease(e)
    ensures WillRead(Next(s, e))
  {
    var s' := Next(s, e);
    if s'.unserved && !s'.flags.dirty {
      match e
      case AskSync => assert s.next in s'.loops;
      case EndJob(l, behind) =>
        if l in s.loops && s.loops[l].AtEnd? {
          assert s.flags.dirty;
          assert l in s'.loops && Serves(s'.loops[l]);
        }
      case Choose(l, owned) =>
        if l in s.loops && s.loops[l].Choosing? {
          assert l in s'.loops && Serves(s'.loops[l]);
        }
      case _ =>
    }
  }

  /** No lost wake-up: on any host, as long as no release job fails, a request is
      never forgotten. In every reachable state a request without a later read has
      one still to come, or a release that withdraws it; so once the loop has
      stopped, nothing is unserved, however many requests coalesced. */
  lemma {:induction false} NoLostWakeUp(s: System, events: seq<Event>)
    requires SingleLoop(s) && WillRead(s)
    requires forall e :: e in events ==> !FailsRelease(e)
    ensures SingleLoop(Runs(s, events)) && WillRead(Runs(s, events))
    ensures !Runs(s, events).flags.running ==> !Runs(s, events).unserved
    decreases |events|
  {
    if events != [] {
      assert events[0] in events;
      StepKeepsSingleLoop(s, events[0]);
      StepKeepsWillRead(s, events[0]);
      NoLostWakeUp(Next(s, events[0]), events[1..]);
    }
  }

  lemma EverythingServedAtFirst()
    ensures SingleLoop(INITIAL) && WillRead(INITIAL)
  {
  }

  /** So from a manager without a loop on, any sequence of requests and jobs. */
  lemma NothingUnservedAtRest(events: seq<Event>)
    requires forall e :: e in events ==> !FailsRelease(e)
    ensures !Runs(INITIAL, events).flags.running ==> !Runs(INITIAL, events).unserved
  {
    hide SingleLoop, WillRead;
    EverythingServedAtFirst();
    NoLostWakeUp(INITIAL, events);
  }

  /** No release job ever runs on a host that owns the service, so there nothing is
      lost at all. */
  predicate OwnedOnly(events: seq<Event>) {
    forall e :: e in events ==> !(e.Choose? && !e.owned)
  }

  lemma {:induction false} OwnerNeverLoses(s: System, events: seq<Event>)
    requires SingleLoop(s) && WillRead(s) && OwnedOnly(events)
    requires forall l :: l in s.loops ==> !s.loops[l].Unstamping?
    ensures !Runs(s, events).flags.running ==> !Runs(s, events).unserved
    ensures WillRead(Runs(s, events))
    decreases |events|
  {
    if events != [] {
      assert events[0] in events;
      StepKeepsSingleLoop(s, events[0]);
      if FailsRelease(events[0]) {
        assert Next(s, events[0]) == s;
      } else {
        StepKeepsWillRead(s, events[0]);
      }
      OwnerNeverLoses(Next(s, events[0]), events[1..]);
    }
  }

  // ---- What a failed release job loses ----

  predicate Asks(e: Event) {
    e.AskSync? || e.AskRelease?
  }

  /** Whether anything is asked among these events. */
  predicate AnyAsked(events: seq<Event>) {
    exists e :: e in events && Asks(e)
  }

  predicate EndsJob(e: Event, l: nat) {
    e.EndJob? && e.loop == l
  }

  /** Between the end of a job's work and EndJob only requests change anything. */
  lemma {:induction false} OnlyRequestsCount(s: System, l: nat, between: seq<Event>)
    requires SingleLoop(s) && l in s.loops && s.loops[l] == AtEnd(false)
    requires forall e :: e in between ==> !EndsJob(e, l)
    ensures var t := Runs(s, between);
            && SingleLoop(t) && t.loops == s.loops
            && (t.flags.dirty <==> s.flags.dirty || AnyAsked(between))
            && (t.unserved <==> s.unserved || AskSync in between)
    decreases |between|
  {
    if between != [] {
      var e := between[0];
      assert e in between;
      StepKeepsSingleLoop(s, e);
      OnlyRequestsCount(Next(s, e), l, between[1..]);
      assert AnyAsked(between) <==> Asks(e) || AnyAsked(between[1..]) by {
        assert forall f :: f in between <==> f == e || f in between[1..];
      }
    }
  }

  /** Exactly when a failed release job loses a request: something was unserved, the
      dirty flag was not set, and nothing is asked until the job has ended. Then the
      loop stops with a request that no read follows. */
  lemma FailedReleaseLosesExactly(s: System, l: nat, between: seq<Event>, behind: bool)
    requires SingleLoop(s) && l in s.loops && s.loops[l].Unstamping?
    requires forall e :: e in between ==> !EndsJob(e, l)
    ensures var t := Next(Runs(Next(s, FinishRelease(l, false)), between), EndJob(l, behind));
            && (!t.flags.running && t.unserved <==> s.unserved && !s.flags.dirty && !AnyAsked(between))
            && (!(s.unserved && !s.flags.dirty && !AnyAsked(between)) && WillRead(s) ==> WillRead(t))
  {
    var s1 := Next(s, FinishRelease(l, false));
    StepKeepsSingleLoop(s, FinishRelease(l, false));
    OnlyRequestsCount(s1, l, between);
    var t1 := Runs(s1, between);
    var t := Next(t1, EndJob(l, behind));
    assert l in t1.loops;
    if AskSync in between {
      assert Asks(AskSync);
    }
    if t1.flags.dirty {
      assert l in t.loops && Serves(t.loops[l]);
    }
  }

  /** It does happen: both arrive during one job, the next job is the release, it
      fails, and the loop stops. */
  lemma ReleaseJobLosesRequest()
    ensures var t := Runs(INITIAL,
              [AskSync, Choose(0, false), Read(0), AskSync, AskRelease, FinishJob(0), EndJob(0, false),
               Choose(0, false), FinishRelease(0, false), EndJob(0, false)]);
            !t.flags.running && t.unserved
  {
    var s7 := Runs(INITIAL, [AskSync, Choose(0, false), Read(0), AskSync, AskRelease, FinishJob(0), EndJob(0, false)]);
    var s8 := Next(s7, Choose(0, false));
    var s9 := Next(s8, FinishRelease(0, false));
    var s10 := Next(s9, EndJob(0, false));
    assert !s10.flags.running && s10.unserved;
    assert Runs(s10, []) == s10;
    assert Runs(s9, [EndJob(0, false)]) == s10;
    assert Runs(s8, [FinishRelease(0, false), EndJob(0, false)]) == s10;
  }
}

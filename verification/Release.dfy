/** Releasing a service from central env (cmd/dashboard/centralenv_release.go):
    unstamp here, then on every peer, and only then delete the record. */
module Release {
  import opened Common
  import opened EnvContent
  import opened CentralEnvStore
  import opened CentralEnvCache
  import opened CentralEnvResolver
  import opened DockerHost
  import opened LocalRoll
  import opened PeerJob

  // ---- What a peer says ----

  datatype JobInfo = JobInfo(release: bool, terminal: bool, converged: bool)

  /** A status answer: what the peer has cached, its live members, its last job. */
  datatype PeerStatus = PeerStatus(isOrigin: bool, version: nat, members: seq<Member>, job: Option<JobInfo>)

  predicate NoneStamped(members: seq<Member>) {
    forall i :: 0 <= i < |members| ==> members[i].foreign
  }

  predicate PeerReleased(ps: PeerStatus) {
    ps.version == 0 && NoneStamped(ps.members)
  }

  datatype Answer = NotFound | NoAnswer | Says(status: PeerStatus)

  /** The reply to the release call itself: a failure, or a code and whether the
      peer recreates its replicas. */
  datatype Reply = NoReply | Replied(code: nat, unstamped: bool)

  datatype HostResult = Skipped | Converged | Unreachable | Unsupported | FailedThere

  /** What the origin concludes from the first status answer; None means it has to
      ask for the release. */
  function FirstVerdict(a: Answer, adoptCapable: bool): Option<HostResult> {
    match a
    case NotFound => Some(Skipped)
    case NoAnswer => Some(Unreachable)
    case Says(ps) =>
      if ps.isOrigin || PeerReleased(ps) then Some(Skipped)
      else if !adoptCapable then Some(Unsupported)
      else None
  }

  /** What it concludes from the reply; None means it has to poll. */
  function ReplyVerdict(r: Reply): Option<HostResult> {
    match r
    case NoReply => Some(Unreachable)
    case Replied(code, unstamped) =>
      if (code == 200 || code == 202) && !unstamped then Some(Unsupported)
      else if code == 200 then Some(Converged)
      else if code != 202 then Some(FailedThere)
      else None
  }

  function PollVerdict(a: Answer): Option<HostResult> {
    if !a.Says? then None
    else
      var ps := a.status;
      if ps.job.Some? && ps.job.value.release && ps.job.value.terminal
      then Some(if ps.job.value.converged && PeerReleased(ps) then Converged else FailedThere)
      else if (ps.job.None? || ps.job.value.terminal) && PeerReleased(ps) then Some(Converged)
      else None
  }

  /** One peer's turn in a release job: what it answered, as far as it was asked.
      Its polls run out when the deadline or the job's time does. */
  datatype Turn = Turn(expired: bool, capable: bool, first: Answer, adoptCapable: bool, reply: Reply, polls: seq<Answer>)

  ghost predicate AllForeign(members: seq<Member>) {
    forall m :: m in members ==> m.foreign
  }

  /** Nothing of the service is left on a peer: no cached env, no stamped member. */
  ghost predicate Bare(ps: PeerStatus) {
    ps.version == 0 && AllForeign(ps.members)
  }

  lemma ReleasedMeansBare(ps: PeerStatus)
    ensures NoneStamped(ps.members) <==> AllForeign(ps.members)
    ensures PeerReleased(ps) <==> Bare(ps)
  {
  }

  ghost predicate NothingThere(first: Answer) {
    first.NotFound? || (first.Says? && (first.status.isOrigin || Bare(first.status)))
  }

  /** A peer that is asked to release. */
  ghost predicate Asked(t: Turn) {
    t.first.Says? && !NothingThere(t.first) && t.adoptCapable
  }

  /** A poll that ends the turn: its release job is over, or nothing is left there
      and no job runs. */
  ghost predicate Reports(a: Answer) {
    a.Says? && var job := a.status.job;
      || (job.Some? && job.value.release && job.value.terminal)
      || ((job.None? || job.value.terminal) && Bare(a.status))
  }

  ghost predicate ReportsSuccess(a: Answer) {
    Reports(a) && Bare(a.status) && (a.status.job.Some? && a.status.job.value.release ==> a.status.job.value.converged)
  }

  ghost predicate FirstReport(polls: seq<Answer>, i: nat) {
    i < |polls| && Reports(polls[i]) && forall j :: 0 <= j < i ==> !Reports(polls[j])
  }

  ghost predicate ConfirmsRelease(t: Turn) {
    && Asked(t)
    && (t.reply == Replied(200, true)
        || (t.reply == Replied(202, true) && exists i: nat :: FirstReport(t.polls, i) && ReportsSuccess(t.polls[i])))
  }

  lemma PollSays(a: Answer)
    ensures PollVerdict(a).Some? <==> Reports(a)
    ensures PollVerdict(a) == Some(Converged) <==> ReportsSuccess(a)
    ensures PollVerdict(a).Some? ==> PollVerdict(a).value in {Converged, FailedThere}
  {
    if a.Says? {
      ReleasedMeansBare(a.status);
    }
  }

  /** Each verdict exactly (FailedThere being what is left): nothing there; no answer
      to the first question or to the release call; a dashboard too old for it;
      released, by its own word or by the first poll that tells. */
  method ReleaseOnePeer(t: Turn) returns (r: HostResult)
    ensures r.Skipped? <==> NothingThere(t.first)
    ensures r.Unreachable? <==> t.first.NoAnswer? || (Asked(t) && t.reply.NoReply?)
    ensures r.Unsupported? <==>
              || (t.first.Says? && !NothingThere(t.first) && !t.adoptCapable)
              || (Asked(t) && t.reply in {Replied(200, false), Replied(202, false)})
    ensures r.Converged? <==> ConfirmsRelease(t)
  {
    hide PeerReleased, Bare;
    if t.first.Says? {
      ReleasedMeansBare(t.first.status);
    }
    var verdict := FirstVerdict(t.first, t.adoptCapable);
    if verdict.Some? {
      return verdict.value;
    }
    verdict := ReplyVerdict(t.reply);
    if verdict.Some? {
      return verdict.value;
    }
    for i := 0 to |t.polls|
      invariant forall j :: 0 <= j < i ==> !Reports(t.polls[j])
    {
      verdict := PollVerdict(t.polls[i]);
      PollSays(t.polls[i]);
      if verdict.Some? {
        assert FirstReport(t.polls, i);
        assert forall k: nat :: FirstReport(t.polls, k) ==> k == i;
        return verdict.value;
      }
    }
    return FailedThere;
  }

  /** Whether the job may go on as if this peer had nothing of the service left. */
  ghost predicate TurnIsClean(t: Turn) {
    !t.expired && (t.capable ==> NothingThere(t.first) || ConfirmsRelease(t))
  }

  /** Every peer in turn; without a shared secret there are no peers to ask. */
  method ReleasePeers(mesh: bool, turns: seq<Turn>) returns (failed: bool)
    ensures failed <==> mesh && exists i :: 0 <= i < |turns| && !TurnIsClean(turns[i])
  {
    if !mesh {
      return false;
    }
    failed := false;
    for i := 0 to |turns|
      invariant failed <==> exists j :: 0 <= j < i && !TurnIsClean(turns[j])
    {
      if turns[i].expired {
        return true;
      }
      if turns[i].capable {
        var r := ReleaseOnePeer(turns[i]);
        if !r.Skipped? && !r.Converged? {
          failed := true;
        }
      }
    }
  }

  // ---- The release as steps ----

  datatype Pc = Idle | RollingHere | NextPeer | Calling(peer: string) | Polling(peer: string)

  /** status is the peer's true state, which a status answer reads at one moment;
      capable peers listed by the job are todo until they had their turn. */
  datatype System = System(
    record: bool,
    members: seq<Member>,
    peers: map<string, PeerStatus>,
    pc: Pc,
    listed: set<string>,
    todo: set<string>,
    unknown: set<string>,
    failed: bool)

  datatype Event =
    | OriginChanges(members: seq<Member>)
    | PeerChanges(peer: string, status: PeerStatus)
    | Start
    | LocalRolled(ok: bool, capable: set<string>)
    | AskStatus(peer: string, answered: bool, found: bool, adoptCapable: bool)
    | AskRelease(reply: Reply)
    | Poll(answered: bool)
    | GiveUp
    | Delete(ok: bool)

  ghost predicate Settled(ps: PeerStatus) {
    ps.isOrigin || Bare(ps)
  }

  predicate AfterLocalRoll(s: System) {
    !s.pc.Idle? && !s.pc.RollingHere?
  }

  function Verdict(s: System, r: HostResult): System {
    s.(pc := NextPeer, failed := s.failed || !(r.Skipped? || r.Converged?))
  }

  function TrueAnswer(s: System, peer: string, answered: bool, found: bool): Answer
    requires peer in s.peers
  {
    if !answered then NoAnswer else if !found then Answer.NotFound else Says(s.peers[peer])
  }

  predicate InTurn(s: System, peer: string) {
    (s.pc.Calling? || s.pc.Polling?) && s.pc.peer == peer
  }

  /** The current job has asked this peer and is done with it. */
  predicate HadItsTurn(s: System, peer: string) {
    AfterLocalRoll(s) && peer in s.listed && peer !in s.todo && peer !in s.unknown && !InTurn(s, peer)
  }

  /** Every host changes at will, at any moment. A 200 to the release call means the
      peer found nothing stamped and dropped its cache. */
  function Next(s: System, e: Event): System {
    match e
    case OriginChanges(members) => s.(members := members)
    case PeerChanges(peer, status) => if peer !in s.peers then s else s.(peers := s.peers[peer := status])
    case Start => if s.pc.Idle? && s.record then s.(pc := RollingHere) else s
    case LocalRolled(ok, capable) =>
      if !s.pc.RollingHere? then s
      else if !ok || !NoneStamped(s.members) then s.(pc := Idle)
      else
        var listed := capable * s.peers.Keys;
        s.(pc := NextPeer, listed := listed, todo := listed, unknown := {}, failed := false)
    case AskStatus(peer, answered, found, adoptCapable) =>
      if !s.pc.NextPeer? || peer !in s.todo || peer !in s.peers then s
      else
        var asked := s.(todo := s.todo - {peer});
        var a := TrueAnswer(s, peer, answered, found);
        (match FirstVerdict(a, adoptCapable)
         case Some(r) => Verdict(asked.(unknown := if a.NotFound? then s.unknown + {peer} else s.unknown), r)
         case None => asked.(pc := Calling(peer)))
    case AskRelease(reply) =>
      if !s.pc.Calling? || s.pc.peer !in s.peers then s
      else
        (match ReplyVerdict(reply)
         case Some(r) => if r.Converged? && !PeerReleased(s.peers[s.pc.peer]) then s else Verdict(s, r)
         case None => s.(pc := Polling(s.pc.peer)))
    case Poll(answered) =>
      if !s.pc.Polling? || s.pc.peer !in s.peers then s
      else
        (match PollVerdict(TrueAnswer(s, s.pc.peer, answered, true))
         case Some(r) => Verdict(s, r)
         case None => s)
    case GiveUp =>
      // a deadline, the job's own time, or a crash
      if s.pc.Polling? then Verdict(s, FailedThere) else s.(pc := Idle)
    case Delete(ok) =>
      if s.pc.NextPeer? && (s.todo == {} || s.failed) then
        s.(pc := Idle, record := s.record && (s.failed || !ok))
      else s
  }

  function Runs(s: System, events: seq<Event>): System
    decreases |events|
  {
    if events == [] then s else Runs(Next(s, events[0]), events[1..])
  }

  // ---- What a delete says ----

  /** A host of the mesh: the origin itself or a peer. */
  datatype Where = Here | There(peer: string)

  ghost predicate Clean(s: System, w: Where) {
    match w
    case Here => AllForeign(s.members)
    case There(p) => p in s.peers && Settled(s.peers[p])
  }

  /** The current job is done with this host and has found no fault so far. */
  predicate DoneWith(s: System, w: Where) {
    match w
    case Here => AfterLocalRoll(s)
    case There(p) => HadItsTurn(s, p) && !s.failed
  }

  ghost predicate CleanIfDone(s: System, w: Where) {
    DoneWith(s, w) ==> Clean(s, w)
  }

  predicate Touches(e: Event, w: Where) {
    match w
    case Here => e.OriginChanges?
    case There(p) => e.PeerChanges? && e.peer == p
  }

  ghost predicate Untouched(events: seq<Event>, w: Where) {
    forall i :: 0 <= i < |events| ==> !Touches(events[i], w)
  }

  predicate ListedAreKnown(s: System) {
    AfterLocalRoll(s) ==> s.listed <= s.peers.Keys
  }

  lemma StepKeepsKnown(s: System, e: Event)
    requires ListedAreKnown(s)
    ensures ListedAreKnown(Next(s, e))
  {
    hide PollVerdict, ReplyVerdict, FirstVerdict, TrueAnswer, NoneStamped, PeerReleased;
  }

  lemma AskKeepsClean(s: System, e: Event, w: Where)
    requires ListedAreKnown(s) && CleanIfDone(s, w) && e.AskStatus?
    ensures CleanIfDone(Next(s, e), w)
  {
    if e.peer in s.peers {
      ReleasedMeansBare(s.peers[e.peer]);
    }
    hide PeerReleased, NoneStamped, Bare, AllForeign;
  }

  lemma ReplyKeepsClean(s: System, e: Event, w: Where)
    requires ListedAreKnown(s) && CleanIfDone(s, w) && (e.AskRelease? || e.Poll?)
    ensures CleanIfDone(Next(s, e), w)
  {
    if s.pc.Calling? || s.pc.Polling? {
      if s.pc.peer in s.peers {
        ReleasedMeansBare(s.peers[s.pc.peer]);
      }
    }
    hide PeerReleased, NoneStamped, Bare, AllForeign;
  }

  lemma StepKeepsClean(s: System, e: Event, w: Where)
    requires ListedAreKnown(s) && CleanIfDone(s, w) && !Touches(e, w)
    ensures CleanIfDone(Next(s, e), w)
  {
    match e
    case AskStatus(_, _, _, _) => AskKeepsClean(s, e, w);
    case AskRelease(_) => ReplyKeepsClean(s, e, w);
    case Poll(_) => ReplyKeepsClean(s, e, w);
    case _ => QuietStepKeepsClean(s, e, w);
  }

  lemma QuietStepKeepsClean(s: System, e: Event, w: Where)
    requires CleanIfDone(s, w) && !Touches(e, w) && !e.AskStatus? && !e.AskRelease? && !e.Poll?
    ensures CleanIfDone(Next(s, e), w)
  {
    ReleasedMeansBare(PeerStatus(false, 0, s.members, None));
    hide PeerReleased, NoneStamped, Bare, AllForeign;
  }

  /** Only a change of a host changes what is there. */
  lemma StepKeepsOthers(s: System, e: Event, w: Where)
    requires !Touches(e, w)
    ensures Clean(Next(s, e), w) == Clean(s, w)
  {
    hide PollVerdict, ReplyVerdict, FirstVerdict, TrueAnswer, NoneStamped, PeerReleased;
  }

  lemma TouchKeepsDone(s: System, e: Event, w: Where)
    requires Touches(e, w)
    ensures DoneWith(Next(s, e), w) == DoneWith(s, w)
  {
  }

  /** As long as nobody changes it, a host is clean from the end of its turn on,
      through all failures, crashes and restarts of the job. */
  lemma {:induction false} UntouchedStaysClean(s: System, events: seq<Event>, w: Where)
    requires ListedAreKnown(s) && CleanIfDone(s, w) && Untouched(events, w)
    ensures CleanIfDone(Runs(s, events), w)
    decreases |events|
  {
    hide ListedAreKnown, CleanIfDone, Next, Touches;
    if events != [] {
      assert !Touches(events[0], w);
      StepKeepsKnown(s, events[0]);
      StepKeepsClean(s, events[0], w);
      UntouchedStaysClean(Next(s, events[0]), events[1..], w);
    }
  }

  lemma {:induction false} UntouchedStaysPut(s: System, events: seq<Event>, w: Where)
    requires Untouched(events, w)
    ensures Clean(Runs(s, events), w) == Clean(s, w)
    decreases |events|
  {
    hide Clean, Next, Touches;
    if events != [] {
      assert !Touches(events[0], w);
      StepKeepsOthers(s, events[0], w);
      UntouchedStaysPut(Next(s, events[0]), events[1..], w);
    }
  }

  lemma {:induction false} ListedStayKnown(s: System, events: seq<Event>)
    requires ListedAreKnown(s)
    ensures ListedAreKnown(Runs(s, events))
    decreases |events|
  {
    hide ListedAreKnown, Next;
    if events != [] {
      StepKeepsKnown(s, events[0]);
      ListedStayKnown(Next(s, events[0]), events[1..]);
    }
  }

  lemma {:induction false} RunsSplit(s: System, events: seq<Event>, i: nat)
    requires i <= |events|
    ensures Runs(s, events) == Runs(Runs(s, events[..i]), events[i..])
    decreases i
  {
    hide Next;
    if i == 0 {
      assert events[0..] == events;
    } else {
      assert events[..i][1..] == events[1..][..i - 1];
      assert events[1..][i - 1..] == events[i..];
      RunsSplit(Next(s, events[0]), events[1..], i - 1);
    }
  }

  lemma RunsStep(s: System, events: seq<Event>, j: nat)
    requires j < |events|
    ensures Runs(s, events[..j + 1]) == Next(Runs(s, events[..j]), events[j])
  {
    hide Next;
    RunsSplit(s, events[..j + 1], j);
    assert events[..j + 1][..j] == events[..j] && events[..j + 1][j..] == [events[j]];
    assert Runs(Next(Runs(s, events[..j]), events[j]), []) == Next(Runs(s, events[..j]), events[j]);
  }

  lemma {:induction false} LastTouch(events: seq<Event>, w: Where) returns (j: nat)
    requires !Untouched(events, w)
    ensures j < |events| && Touches(events[j], w) && Untouched(events[j + 1..], w)
    decreases |events|
  {
    var n := |events| - 1;
    if Touches(events[n], w) {
      return n;
    }
    var i :| 0 <= i < |events| && Touches(events[i], w);
    assert Touches(events[..n][i], w);
    j := LastTouch(events[..n], w);
    var tail, shorter := events[j + 1..], events[..n][j + 1..];
    forall k | 0 <= k < |tail| ensures !Touches(tail[k], w) {
      assert k < |shorter| ==> tail[k] == shorter[k];
    }
  }

  /** Event j, a change of that host after its turn in the job still running at the
      end, left it unclean, and nothing changed it again. */
  ghost predicate PutBack(s: System, events: seq<Event>, w: Where, j: nat) {
    && j < |events| && Touches(events[j], w) && !Clean(Runs(s, events[..j + 1]), w)
    && Untouched(events[j + 1..], w)
    && forall i :: j <= i <= |events| ==> DoneWith(Runs(s, events[..i]), w)
  }

  lemma IdleIsFresh(s: System, w: Where)
    requires s.pc.Idle?
    ensures ListedAreKnown(s) && CleanIfDone(s, w)
  {
  }

  /** Once the job was not done with a host, only a later change leaves it unclean. */
  lemma NotDoneThenTouched(s: System, events: seq<Event>, w: Where, i: nat)
    requires s.pc.Idle? && i <= |events| && Untouched(events[i..], w)
    requires !DoneWith(Runs(s, events[..i]), w)
    ensures CleanIfDone(Runs(s, events), w)
  {
    hide Clean, DoneWith, Next, Touches, Runs, Untouched, ListedAreKnown;
    IdleIsFresh(s, w);
    ListedStayKnown(s, events[..i]);
    UntouchedStaysClean(Runs(s, events[..i]), events[i..], w);
    RunsSplit(s, events, i);
  }

  lemma UntouchedTail(events: seq<Event>, w: Where, j: nat, i: nat)
    requires j <= i <= |events| && Untouched(events[j..], w)
    ensures Untouched(events[i..], w)
  {
    var later, all := events[i..], events[j..];
    forall k | 0 <= k < |later| ensures !Touches(later[k], w) {
      assert later[k] == all[k + i - j];
    }
  }

  lemma UncleanMeansPutBack(s: System, events: seq<Event>, w: Where) returns (j: nat)
    requires s.pc.Idle? && DoneWith(Runs(s, events), w) && !Clean(Runs(s, events), w)
    ensures PutBack(s, events, w, j)
  {
    hide Clean, DoneWith, Next, Touches, Runs, Untouched, ListedAreKnown;
    IdleIsFresh(s, w);
    if Untouched(events, w) {
      UntouchedStaysClean(s, events, w);
      assert false;
    }
    j := LastTouch(events, w);
    RunsSplit(s, events, j + 1);
    UntouchedStaysPut(Runs(s, events[..j + 1]), events[j + 1..], w);
    RunsStep(s, events, j);
    TouchKeepsDone(Runs(s, events[..j]), events[j], w);
    forall i | j <= i <= |events| ensures DoneWith(Runs(s, events[..i]), w) {
      var k := if i == j then j + 1 else i;
      if !DoneWith(Runs(s, events[..k]), w) {
        UntouchedTail(events, w, j + 1, k);
        NotDoneThenTouched(s, events, w, k);
        assert false;
      }
    }
  }

  lemma PutBackMeansUnclean(s: System, events: seq<Event>, w: Where, j: nat)
    requires PutBack(s, events, w, j)
    ensures !Clean(Runs(s, events), w)
  {
    hide Clean, DoneWith, Next, Touches, Runs, Untouched;
    RunsSplit(s, events, j + 1);
    UntouchedStaysPut(Runs(s, events[..j + 1]), events[j + 1..], w);
  }

  /** Hosts the job has to clear: this one, and the listed peers that know of
      central env. */
  predicate MustBeClean(s: System, w: Where) {
    match w
    case Here => true
    case There(p) => p in s.listed && p !in s.unknown
  }

  lemma DeleteMeansDone(s: System, e: Event, w: Where)
    requires s.record && !Next(s, e).record
    ensures e.Delete? && !s.failed && s.todo == {}
    ensures MustBeClean(s, w) ==> DoneWith(s, w)
  {
    hide PollVerdict, ReplyVerdict, FirstVerdict, TrueAnswer, NoneStamped, PeerReleased;
  }

  /** Release safety, over any run of peer failures, crashes, resumed releases and
      creates at any moment. When the record goes, every listed peer had its turn
      and none failed; this host runs no stamped replica, and no listed peer that
      knows of central env caches the service or runs a stamped replica of it
      (unless it owns it itself) — exactly but for a host that something changed
      back between its own turn and the delete. */
  lemma DeletedOnlyWhenReleased(s: System, events: seq<Event>, e: Event, w: Where)
    requires s.pc.Idle?
    requires Runs(s, events).record && !Next(Runs(s, events), e).record
    ensures Runs(s, events).todo == {} && !Runs(s, events).failed
    ensures MustBeClean(Runs(s, events), w) ==>
              (Clean(Runs(s, events), w) <==> !exists j :: PutBack(s, events, w, j))
  {
    hide Clean, DoneWith, Next, Runs, MustBeClean, PutBack;
    DeleteMeansDone(Runs(s, events), e, w);
    if MustBeClean(Runs(s, events), w) && !Clean(Runs(s, events), w) {
      var j := UncleanMeansPutBack(s, events, w);
    }
    if j :| PutBack(s, events, w, j) {
      PutBackMeansUnclean(s, events, w, j);
    }
  }

  /** It does happen, on any host with a record and one clean peer: a create on that
      peer right after its turn goes unnoticed, and the record is deleted. */
  lemma CreateAfterTurnIsMissed(s: System, p: string, back: PeerStatus)
    requires s.pc.Idle? && s.record && Clean(s, Here) && Clean(s, There(p)) && !Settled(back)
    ensures var events := [Start, LocalRolled(true, {p}), AskStatus(p, true, true, true), PeerChanges(p, back)];
            var t := Next(Runs(s, events), Delete(true));
            !t.record && PutBack(s, events, There(p), 3) && !Clean(t, There(p))
  {
    hide Runs, Next, Clean, DoneWith, Settled, Untouched;
    var events := [Start, LocalRolled(true, {p}), AskStatus(p, true, true, true), PeerChanges(p, back)];
    TurnThenCreate(s, p, back);
    RunsNothing(s);
    RunsStep(s, events, 0);
    RunsStep(s, events, 1);
    RunsStep(s, events, 2);
    RunsStep(s, events, 3);
    assert events[..0] == [] && events[..4] == events;
    NothingUntouched(events[4..], There(p));
  }

  lemma RunsNothing(s: System)
    ensures Runs(s, []) == s
  {
  }

  lemma NothingUntouched(events: seq<Event>, w: Where)
    ensures events == [] ==> Untouched(events, w)
  {
  }

  lemma TurnThenCreate(s: System, p: string, back: PeerStatus)
    requires s.pc.Idle? && s.record && Clean(s, Here) && Clean(s, There(p)) && !Settled(back)
    ensures var s3 := Next(Next(Next(s, Start), LocalRolled(true, {p})), AskStatus(p, true, true, true));
            var s4 := Next(s3, PeerChanges(p, back));
            && DoneWith(s3, There(p)) && DoneWith(s4, There(p)) && !Clean(s4, There(p))
            && !Next(s4, Delete(true)).record && !Clean(Next(s4, Delete(true)), There(p))
  {
    ReleasedMeansBare(PeerStatus(false, 0, s.members, None));
    ReleasedMeansBare(s.peers[p]);
    hide PeerReleased, NoneStamped, Bare, AllForeign;
    var s2 := Next(Next(s, Start), LocalRolled(true, {p}));
    assert s2.todo == {p} && s2.peers == s.peers;
    var s3 := Next(s2, AskStatus(p, true, true, true));
    assert s3 == s2.(todo := {});
  }

  // ---- What each step does ----

  /** A job starts for a record only, rolls this host first, and goes on to the
      capable peers only if that left nothing stamped. */
  lemma ReleaseStarts(s: System, ok: bool, capable: set<string>)
    requires s.pc.Idle?
    ensures var s1 := Next(s, Start);
            var s2 := Next(s1, LocalRolled(ok, capable));
            && (!s.record ==> s1 == s)
            && (s.record ==> s1 == s.(pc := RollingHere))
            && (s.record && ok && AllForeign(s.members) ==>
                  && s2.pc == NextPeer && !s2.failed && s2.unknown == {} && s2.record && s2.peers == s.peers
                  && s2.listed == s2.todo && forall p :: p in s2.todo <==> p in capable && p in s.peers)
            && (s.record && !(ok && AllForeign(s.members)) ==> s2 == s)
  {
    ReleasedMeansBare(PeerStatus(false, 0, s.members, None));
  }

  /** One question to a peer not asked yet. */
  lemma FirstQuestion(s: System, p: string, answered: bool, found: bool, adoptCapable: bool)
    requires s.pc.NextPeer? && p in s.todo && p in s.peers
    ensures var t := Next(s, AskStatus(p, answered, found, adoptCapable));
            && t.todo == s.todo - {p} && t.record == s.record && t.peers == s.peers && t.members == s.members
            && t.unknown == (if answered && !found then s.unknown + {p} else s.unknown)
            && (if answered && (!found || Settled(s.peers[p])) then t.pc == NextPeer && t.failed == s.failed
                else if !answered || !adoptCapable then t.pc == NextPeer && t.failed
                else t.pc == Calling(p) && t.failed == s.failed)
  {
    ReleasedMeansBare(s.peers[p]);
  }

  /** What the reply to the call and the polls make of it. */
  lemma CallAndPoll(s: System, reply: Reply, answered: bool)
    requires (s.pc.Calling? || s.pc.Polling?) && s.pc.peer in s.peers
    ensures var p := s.pc.peer;
            var said := Says(s.peers[p]);
            var called, polled := Next(s, AskRelease(reply)), Next(s, Poll(answered));
            && (s.pc.Calling? ==>
                  polled == s
                  && called == if reply == Replied(202, true) then s.(pc := Polling(p))
                               else if reply != Replied(200, true) then s.(pc := NextPeer, failed := true)
                               else if Bare(s.peers[p]) then s.(pc := NextPeer) else s)
            && (s.pc.Polling? ==>
                  called == s
                  && polled == if !answered || !Reports(said) then s
                               else s.(pc := NextPeer, failed := s.failed || !ReportsSuccess(said)))
  {
    ReleasedMeansBare(s.peers[s.pc.peer]);
    PollSays(Says(s.peers[s.pc.peer]));
  }

  /** The end of a job: the record goes exactly when all were asked, none failed and
      its file could be removed; with a failure it stays, for another job to resume.
      A job that gives up leaves it as well. */
  lemma ReleaseEnds(s: System, ok: bool)
    ensures var t := Next(s, Delete(ok));
            if s.pc.NextPeer? && s.todo == {} && !s.failed then t == s.(pc := Idle, record := s.record && !ok)
            else if s.pc.NextPeer? && s.failed then t == s.(pc := Idle)
            else t == s
    ensures var t := Next(s, GiveUp);
            t == if s.pc.Polling? then s.(pc := NextPeer, failed := true) else s.(pc := Idle)
  {
  }

  /** Out of turn nothing happens: a second start joins the job under way, a peer is
      asked once, and only a known peer changes. */
  lemma OutOfTurnNothing(s: System, p: string, status: PeerStatus, ok: bool, found: bool, capable: set<string>)
    ensures !s.pc.Idle? ==> Next(s, Start) == s
    ensures !s.pc.RollingHere? ==> Next(s, LocalRolled(ok, capable)) == s
    ensures !s.pc.NextPeer? || p !in s.todo ==> Next(s, AskStatus(p, ok, found, true)) == s
    ensures p !in s.peers ==> Next(s, PeerChanges(p, status)) == s
  {
  }

  /** And it does go: once this host is unstamped, a job that gets an answer from
      every listed peer, each of them clean, deletes the record. */
  lemma {:induction false} ReleaseCompletes(s: System) returns (events: seq<Event>)
    requires s.pc.NextPeer? && !s.failed && s.record
    requires forall p :: p in s.todo ==> p in s.peers && Settled(s.peers[p])
    ensures |events| == |s.todo| && !Next(Runs(s, events), Delete(true)).record
    decreases |s.todo|
  {
    hide Settled, Next;
    RunsNothing(s);
    if s.todo == {} {
      ReleaseEnds(s, true);
      return [];
    }
    var p :| p in s.todo;
    var e := AskStatus(p, true, true, true);
    FirstQuestion(s, p, true, true, true);
    var rest := ReleaseCompletes(Next(s, e));
    events := [e] + rest;
    assert events[0] == e && events[1..] == rest;
  }

  /** From a record on, whenever this host's roll leaves nothing stamped. */
  lemma ReleaseFinishes(s: System, capable: set<string>) returns (events: seq<Event>)
    requires s.pc.Idle? && s.record && AllForeign(s.members)
    requires forall p :: p in capable && p in s.peers ==> Settled(s.peers[p])
    ensures !Runs(s, events).record
  {
    hide Settled, Next, AllForeign;
    ReleaseStarts(s, true, capable);
    var s2 := Next(Next(s, Start), LocalRolled(true, capable));
    var middle := ReleaseCompletes(s2);
    events := [Start, LocalRolled(true, capable)] + middle + [Delete(true)];
    var n := |middle| + 2;
    assert events[..n + 1] == events && events[n] == Delete(true);
    RunsStep(s, events, n);
    RunsSplit(s, events[..n], 2);
    assert events[..n][..2] == [Start, LocalRolled(true, capable)] && events[..n][2..] == middle;
    RunsTwo(s, Start, LocalRolled(true, capable));
  }

  lemma RunsTwo(s: System, e: Event, f: Event)
    ensures Runs(s, [e, f]) == Next(Next(s, e), f)
  {
    hide Next;
    assert [e, f][1..] == [f] && [f][1..] == [];
    RunsNothing(Next(Next(s, e), f));
    assert Runs(Next(s, e), [f]) == Next(Next(s, e), f);
  }

  /** A peer that caches or runs the service is asked to release it, waited for while
      its job runs, and counted as released once it reports that nothing is left. */
  lemma PeerIsWaitedFor(s: System, p: string, working: PeerStatus, clean: PeerStatus)
    requires s.pc.NextPeer? && p in s.todo && p in s.peers && !Settled(s.peers[p])
    requires working.job == Some(JobInfo(true, false, false)) && clean.job == Some(JobInfo(true, true, true)) && Bare(clean)
    ensures var called := Next(Next(s, AskStatus(p, true, true, true)), AskRelease(Replied(202, true)));
            var still := Next(Next(called, PeerChanges(p, working)), Poll(true));
            var t := Next(Next(still, PeerChanges(p, clean)), Poll(true));
            && called.pc == still.pc == Polling(p)
            && t.pc == NextPeer && t.failed == s.failed && t.todo == s.todo - {p} && p in t.peers && Bare(t.peers[p])
  {
    hide Next, Bare, Settled;
    FirstQuestion(s, p, true, true, true);
    var calling := Next(s, AskStatus(p, true, true, true));
    CallAndPoll(calling, Replied(202, true), true);
    var called := Next(calling, AskRelease(Replied(202, true)));
    PeerChangesOnly(called, p, working);
    var at := Next(called, PeerChanges(p, working));
    CallAndPoll(at, NoReply, true);
    PeerChangesOnly(at, p, clean);
    CallAndPoll(Next(at, PeerChanges(p, clean)), NoReply, true);
  }

  lemma PeerChangesOnly(s: System, p: string, status: PeerStatus)
    requires p in s.peers
    ensures Next(s, PeerChanges(p, status)) == s.(peers := s.peers[p := status])
    ensures Next(s, OriginChanges(status.members)) == s.(members := status.members)
  {
  }

  // ---- The jobs on one host ----

  predicate NoStampedMember(h: Host) {
    forall id :: id in h.containers && !h.containers[id].canary ==> Foreign(h.containers[id])
  }

  predicate BringNoStamp(races: seq<Race>) {
    forall race :: race in races && race.Appear? ==> race.container.canary || Foreign(race.container)
  }

  lemma {:induction false} RacesKeepUnstamped(h: Host, races: seq<Race>)
    requires NoStampedMember(h) && BringNoStamp(races)
    ensures NoStampedMember(AfterRaces(h, races))
  {
    if races != [] {
      var rest, race := races[..|races| - 1], races[|races| - 1];
      assert race in races;
      RacesKeepUnstamped(h, rest);
    }
  }

  lemma NoneStaleMeansUnstamped(h: Host, version: nat)
    ensures NoneStale(h, Unstamp, version) <==> NoStampedMember(h)
  {
    if NoStampedMember(h) {
      assert forall id :: id in h.containers ==> !Stale(h.containers[id], Unstamp, version);
    } else {
      var id :| id in h.containers && !h.containers[id].canary && !Foreign(h.containers[id]);
      assert Stale(h.containers[id], Unstamp, version);
    }
  }

  /** The env to unstamp onto: the origin's answer, else this host's usable copy. */
  function ReleaseEnv(fetched: Option<Fetched>, cached: Option<Entry>, origin: string): Option<Pin> {
    if fetched.Some? then Some(Pin(fetched.value.version, fetched.value.env))
    else if cached.Some? && cached.value.origin == origin && cached.value.Usable()
    then NonEmpty(Pin(cached.value.version, cached.value.env))
    else None
  }

  lemma ReleaseEnvExactly(fetched: Option<Fetched>, cached: Option<Entry>, origin: string, p: Pin)
    ensures ReleaseEnv(fetched, cached, origin) == Some(p) <==>
      if fetched.Some? then p.version == fetched.value.version && p.env == fetched.value.env
      else && cached.Some? && cached.value.origin == origin && cached.value.failedVersion != cached.value.version
           && p.version == cached.value.version && p.env == cached.value.env != map[]
  {
  }

  /** Nothing stands in the way of unstamping this host. */
  ghost predicate EasyHere(h: Host, svc: string, plan: seq<Round>) {
    AllEasy(plan) && !Namesake(h, svc, Some(map[]), Unstamp)
  }

  lemma EasyUnstamp(h: Host, svc: string, plan: seq<Round>, env: EnvMap)
    ensures EasyHere(h, svc, plan) ==> AllEasy(plan) && !Namesake(h, svc, Some(env), Unstamp)
  {
  }

  /** A peer's release job: exactly when it ends converged, and then no stamped
      member is left, the cached env is gone, and what it recreated runs the env the
      origin gave, or the usable copy. A stamped member it cannot recreate keeps the
      cache; without an env to recreate it from nothing is touched. */
  method RunPeerRelease(d: Docker, cache: CentralEnvCache, svc: string, origin: string, fetched: Option<Fetched>,
                        waited: bool, listed: bool, plan: seq<Round>, removed: bool)
    returns (converged: bool, ghost outcome: Option<LocalRoll.Outcome>, ghost mine: set<nat>)
    requires d.Valid() && origin != ""
    modifies d, cache
    ensures d.Valid()
    ensures converged ==> NoStampedMember(d.View()) && cache.Get(svc).None?
    ensures !converged ==> cache.items == old(cache.items)
    ensures var target := ReleaseEnv(fetched, old(cache.Get(svc)), origin);
      && (converged <==>
            && waited && listed && removed && ValidServiceName(svc)
            && if target.Some? then outcome == Some(Done) else NoStampedMember(old(d.View())))
      && (waited && listed && target.Some? && EasyHere(old(d.View()), svc, plan) ==> outcome == Some(Done))
      && (target.None? || !waited || !listed ==> d.View() == old(d.View()))
      && (target.Some? ==> AllMade(d.View(), mine, Some(target.value.env), origin, target.value.version, Unstamp))
    ensures cache.items - {svc} == old(cache.items) - {svc}
    ensures Kept(d.View(), old(d.View()), false, mine)
  {
    hide Kept, AllMade, NoneStale, IsListing, ValidHost, ReleaseEnv, AllEasy, Namesake, NoStampedMember, ValidServiceName;
    mine, outcome := {}, None;
    NothingYet(d.View(), false);
    var target := ReleaseEnv(fetched, cache.Get(svc), origin);
    if target.Some? {
      NothingMadeYet(d.View(), Some(target.value.env), origin, target.value.version, Unstamp);
      EasyUnstamp(d.View(), svc, plan, target.value.env);
    }
    if !waited || !listed {
      return false, outcome, mine;
    }
    var all := ListMembers(d);
    var stamped := AnyStale(all, Unstamp, 0);
    StaleListed(all, d.View(), Unstamp, 0);
    NoneStaleMeansUnstamped(d.View(), 0);
    if target.None? && stamped {
      return false, outcome, mine;
    }
    if target.Some? {
      var ended, rolls;
      ghost var used, found;
      ended, rolls, mine, used, found :=
        RollLocal(d, svc, Some(target.value.env), origin, target.value.version, Unstamp, plan);
      NoneStaleMeansUnstamped(d.View(), target.value.version);
      outcome := Some(ended);
      if !ended.Done? {
        return false, outcome, mine;
      }
    }
    converged := cache.Delete(svc, removed);
  }

  datatype Undo = Undone | LeftReleasing | RecordKept

  /** Undoing an adopt whose first roll failed: the record goes only with no
      stamped member left, exactly if nothing was stamped or unstamping it
      succeeded; otherwise it is left releasing. */
  method UnAdopt(d: Docker, store: CentralEnvStore, svc: string, identity: string, env: EnvMap, target: nat,
                 listed: bool, plan: seq<Round>, persisted: bool)
    returns (r: Undo, ghost outcome: Option<LocalRoll.Outcome>, ghost mine: set<nat>)
    requires d.Valid() && store.Valid() && identity != "" && ValidServiceName(svc)
    requires svc in store.items && svc !in store.broken
    modifies d, store
    ensures d.Valid() && store.Valid()
    ensures r.Undone? ==> NoStampedMember(d.View()) && !store.Has(svc)
    ensures !r.Undone? ==> svc in store.items
    ensures var unstamped := listed && (NoStampedMember(old(d.View())) || outcome == Some(Done));
      && (r.LeftReleasing? <==> !unstamped) && (r.Undone? <==> unstamped && persisted)
    ensures listed && !NoStampedMember(old(d.View())) && EasyHere(old(d.View()), svc, plan) ==> outcome == Some(Done)
    ensures r.LeftReleasing? && persisted ==> store.items[svc] == old(store.items[svc]).(state := Releasing)
    ensures AllMade(d.View(), mine, Some(env), identity, target, Unstamp)
    ensures Kept(d.View(), old(d.View()), false, mine)
  {
    hide Kept, AllMade, NoneStale, IsListing, ValidHost, AllEasy, Namesake, NoStampedMember;
    mine, outcome := {}, None;
    NothingYet(d.View(), false);
    NothingMadeYet(d.View(), Some(env), identity, target, Unstamp);
    EasyUnstamp(d.View(), svc, plan, env);
    var ok := listed;
    if listed {
      var all := ListMembers(d);
      var stamped := AnyStale(all, Unstamp, 0);
      StaleListed(all, d.View(), Unstamp, 0);
      NoneStaleMeansUnstamped(d.View(), 0);
      if stamped {
        var ended, rolls;
        ghost var used, found;
        ended, rolls, mine, used, found := RollLocal(d, svc, Some(env), identity, target, Unstamp, plan);
        NoneStaleMeansUnstamped(d.View(), target);
        outcome := Some(ended);
        ok := ended.Done?;
      }
    }
    if !ok {
      var _ := store.SetState(svc, Releasing, persisted);
      return LeftReleasing, outcome, mine;
    }
    var deleted := store.Delete(svc, persisted);
    r := if deleted.Ok? then Undone else RecordKept;
  }

  /** The origin's release job, and exactly when the record goes: its env resolves,
      this host's roll left no stamped member, every peer's turn was clean, and the
      file could be removed; otherwise nothing of it changes. rolled is this host
      right after its roll, meanwhile what others do here while the peers are asked:
      a stamp they bring stays. */
  method RunRelease(d: Docker, store: CentralEnvStore, svc: string, identity: string, secrets: EnvMap, waited: bool,
                    plan: seq<Round>, mesh: bool, turns: seq<Turn>, meanwhile: seq<Race>, removed: bool)
    returns (released: bool, ghost outcome: Option<LocalRoll.Outcome>, ghost mine: set<nat>, ghost rolled: Host)
    requires d.Valid() && store.Valid() && identity != ""
    modifies d, store
    ensures d.Valid() && store.Valid()
    ensures released ==> NoStampedMember(rolled) && d.View() == AfterRaces(rolled, meanwhile) && !store.Has(svc)
    ensures released && BringNoStamp(meanwhile) ==> NoStampedMember(d.View())
    ensures released <==>
      && outcome == Some(Done) && (mesh ==> forall i :: 0 <= i < |turns| ==> TurnIsClean(turns[i]))
      && removed && ValidServiceName(svc)
    ensures var at := EffectiveEnvAtSpec(old(store.View()), svc, identity, secrets);
      && (outcome.Some? <==> waited && at.Ok?)
      && (waited && at.Ok? && EasyHere(old(d.View()), svc, plan) ==> outcome == Some(Done))
      && (at.Ok? ==> AllMade(rolled, mine, Some(at.value.0), identity, at.value.1, Unstamp))
    ensures !released ==> store.View() == old(store.View())
    ensures Kept(d.View(), old(d.View()), false, mine)
  {
    hide Kept, AllMade, NoneStale, IsListing, ValidHost, TurnIsClean, NoStampedMember, BringNoStamp, AllEasy, Namesake,
         ValidServiceName, EffectiveEnvAtSpec;
    mine, rolled, outcome := {}, d.View(), None;
    NothingYet(d.View(), false);
    if !waited {
      NothingMadeEver(d.View(), store.View(), svc, identity, secrets);
      return false, outcome, mine, rolled;
    }
    var at := store.EffectiveEnvAt(svc, identity, secrets);
    if at.Err? {
      return false, outcome, mine, rolled;
    }
    EasyUnstamp(d.View(), svc, plan, at.value.0);
    var ended, rolls;
    ghost var used, found;
    ended, rolls, mine, used, found := RollLocal(d, svc, Some(at.value.0), identity, at.value.1, Unstamp, plan);
    NoneStaleMeansUnstamped(d.View(), at.value.1);
    rolled, outcome := d.View(), Some(ended);
    if !ended.Done? {
      return false, outcome, mine, rolled;
    }
    RacesKeep(d.View(), meanwhile, old(d.View()), false, mine);
    d.Interfere(meanwhile);
    if NoStampedMember(rolled) && BringNoStamp(meanwhile) {
      RacesKeepUnstamped(rolled, meanwhile);
    }
    var failed := ReleasePeers(mesh, turns);
    if failed {
      return false, outcome, mine, rolled;
    }
    var deleted := store.Delete(svc, removed);
    released := deleted.Ok?;
  }

  lemma NothingMadeEver(h: Host, v: StoreView, svc: string, identity: string, secrets: EnvMap)
    ensures var at := EffectiveEnvAtSpec(v, svc, identity, secrets);
            at.Ok? ==> AllMade(h, {}, Some(at.value.0), identity, at.value.1, Unstamp)
  {
  }
}

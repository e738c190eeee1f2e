/** What any run of store operations does to one service's record: its version
    history, its one-step undo and its request ring
    (cmd/dashboard/centralenv_store.go). */
module StoreHistory {
  import opened Common
  import opened EnvContent
  import opened CentralEnvStore

  datatype Op = DoApply(change: Change) | DoRevert | DoTouch | DoSetState(state: State) | DoFinishAdopt

  /** An operation and whether its file write succeeded. */
  datatype Attempt = Attempt(op: Op, persisted: bool)

  /** The record an outcome leaves behind. */
  function Settle<R>(cur: Record, o: Outcome<R>, persisted: bool): Record {
    if o.Write? && persisted then o.next else cur
  }

  function NextRecord(cur: Record, a: Attempt): Record {
    match a.op
    case DoApply(ch) => Settle(cur, ApplyOutcome(cur, ch), a.persisted)
    case DoRevert => Settle(cur, RevertOutcome(cur), a.persisted)
    case DoTouch => Settle(cur, TouchOutcome(cur), a.persisted)
    case DoSetState(s) => Settle(cur, SetStateOutcome(cur, s), a.persisted)
    case DoFinishAdopt => Settle(cur, FinishAdoptOutcome(cur), a.persisted)
  }

  /** What one operation on svc makes of the whole store. */
  function Operated(v: StoreView, svc: string, a: Attempt): StoreView {
    match a.op
    case DoApply(ch) => Operate(v, svc, (cur: Record) => ApplyOutcome(cur, ch), a.persisted).0
    case DoRevert => Operate(v, svc, RevertOutcome, a.persisted).0
    case DoTouch => Operate(v, svc, TouchOutcome, a.persisted).0
    case DoSetState(s) => Operate(v, svc, (cur: Record) => SetStateOutcome(cur, s), a.persisted).0
    case DoFinishAdopt => Operate(v, svc, FinishAdoptOutcome, a.persisted).0
  }

  lemma NextRecordIsOperate(v: StoreView, svc: string, a: Attempt)
    requires svc in v.items && svc !in v.broken
    ensures Operated(v, svc, a) == v.(items := v.items[svc := NextRecord(v.items[svc], a)])
  {
    assert v.items == v.items[svc := v.items[svc]];
  }

  function StoreRun(v: StoreView, svc: string, attempts: seq<Attempt>): StoreView
    decreases |attempts|
  {
    if attempts == [] then v else StoreRun(Operated(v, svc, attempts[0]), svc, attempts[1..])
  }

  /** A record with everything that ever happened to it: contents[n-1] is the
      content published as version n; recorded is every request id ever
      remembered, in order. */
  datatype Traced = Traced(rec: Record, contents: seq<Content>, recorded: seq<Request>)

  function Born(svc: string, origin: string, c: Content, adopting: bool, requestId: string): Traced {
    Traced(NewRecord(svc, origin, c, adopting, requestId), [c],
           if requestId == "" then [] else [Request(requestId, 1)])
  }

  predicate Records(cur: Record, a: Attempt) {
    a.op.DoApply? && a.persisted && a.op.change.requestId != "" && ApplyOutcome(cur, a.op.change).Write?
  }

  function Step(t: Traced, a: Attempt): Traced {
    var next := NextRecord(t.rec, a);
    Traced(next,
           if next.version == t.rec.version then t.contents else t.contents + [next.content],
           if Records(t.rec, a) then t.recorded + [Request(a.op.change.requestId, next.version)] else t.recorded)
  }

  function Run(t: Traced, attempts: seq<Attempt>): Traced
    decreases |attempts|
  {
    if attempts == [] then t else Run(Step(t, attempts[0]), attempts[1..])
  }

  // ---- The invariant of every run ----

  function Last<T>(s: seq<T>, n: nat): seq<T> {
    if |s| <= n then s else s[|s| - n..]
  }

  ghost predicate DistinctIds(ring: seq<Request>) {
    forall i, j :: 0 <= i < j < |ring| ==> ring[i].id != ring[j].id
  }

  ghost predicate History(t: Traced) {
    && |t.contents| == t.rec.version >= 1
    && t.contents[t.rec.version - 1] == t.rec.content
    && t.rec.hash == HashOf(t.rec.content)
    && (t.rec.prev.None? <==> t.rec.version == 1)
    && (t.rec.prev.Some? ==>
          && t.rec.prev.value.version + 1 == t.rec.version
          && t.rec.prev.value.content == t.contents[t.rec.version - 2])
  }

  ghost predicate Ring(t: Traced) {
    && t.rec.ring == Last(t.recorded, REQUEST_RING)
    && DistinctIds(t.rec.ring)
    && (forall r :: r in t.recorded ==> r.id != "" && 1 <= r.version <= t.rec.version)
  }

  lemma FindRequestFinds(ring: seq<Request>, id: string)
    ensures FindRequest(ring, id).None? <==> forall i :: 0 <= i < |ring| ==> ring[i].id != id
    ensures forall i :: DistinctIds(ring) && 0 <= i < |ring| && ring[i].id == id
              ==> FindRequest(ring, id) == Some(ring[i].version)
  {
    if ring != [] {
      FindRequestFinds(ring[1..], id);
      assert forall i :: 1 <= i < |ring| ==> ring[i] == ring[1..][i - 1];
    }
  }

  lemma AppendIsLast(recorded: seq<Request>, id: string, version: nat)
    ensures AppendRequest(Last(recorded, REQUEST_RING), id, version)
         == Last(recorded + [Request(id, version)], REQUEST_RING)
  {
  }

  lemma StepKeepsHistory(t: Traced, a: Attempt)
    requires History(t)
    ensures History(Step(t, a))
    ensures t.contents <= Step(t, a).contents
    ensures t.rec.version <= Step(t, a).rec.version <= t.rec.version + 1
  {
  }

  /** A new id takes the oldest one's place. */
  lemma RingGrows(recorded: seq<Request>, id: string, version: nat)
    requires var ring := Last(recorded, REQUEST_RING); DistinctIds(ring) && FindRequest(ring, id).None?
    ensures var ring := AppendRequest(Last(recorded, REQUEST_RING), id, version);
            ring == Last(recorded + [Request(id, version)], REQUEST_RING) && DistinctIds(ring)
  {
    var ring := Last(recorded, REQUEST_RING);
    FindRequestFinds(ring, id);
    AppendIsLast(recorded, id, version);
    assert DistinctIds(ring + [Request(id, version)]);
  }

  lemma StepKeepsRing(t: Traced, a: Attempt)
    requires t.rec.version >= 1 && Ring(t)
    ensures Ring(Step(t, a))
    ensures t.recorded <= Step(t, a).recorded
  {
    hide FindRequest, AppendRequest, Last, DistinctIds;
    var t' := Step(t, a);
    if Records(t.rec, a) {
      RingGrows(t.recorded, a.op.change.requestId, t'.rec.version);
    } else {
      assert t'.rec.ring == t.rec.ring;
    }
  }

  /** Over any run: the version history stays exact and append-only, the hash
      matches the content, the undo snapshot is the previous version, and the
      ring is the last 32 recorded ids, pairwise distinct. */
  lemma {:induction false} RunKeepsInvariants(t: Traced, attempts: seq<Attempt>)
    requires History(t) && Ring(t)
    ensures var u := Run(t, attempts);
            && History(u) && Ring(u)
            && t.contents <= u.contents && t.recorded <= u.recorded
            && t.rec.version <= u.rec.version
    decreases |attempts|
  {
    if attempts != [] {
      StepKeepsHistory(t, attempts[0]);
      StepKeepsRing(t, attempts[0]);
      RunKeepsInvariants(Step(t, attempts[0]), attempts[1..]);
    }
  }

  /** The store itself over any run of operations on one service: its record is the
      one the history describes, every invariant above holds of it, and no other
      service is touched. */
  lemma {:induction false} StoreFollowsHistory(v: StoreView, svc: string, t: Traced, attempts: seq<Attempt>)
    requires svc in v.items && svc !in v.broken && v.items[svc] == t.rec
    requires History(t) && Ring(t)
    ensures StoreRun(v, svc, attempts) == v.(items := v.items[svc := Run(t, attempts).rec])
    ensures History(Run(t, attempts)) && Ring(Run(t, attempts))
    decreases |attempts|
  {
    hide Operated, NextRecord, Ring;
    if attempts == [] {
      assert v.items == v.items[svc := t.rec];
    } else {
      NextRecordIsOperate(v, svc, attempts[0]);
      StepKeepsHistory(t, attempts[0]);
      StepKeepsRing(t, attempts[0]);
      var v' := Operated(v, svc, attempts[0]);
      StoreFollowsHistory(v', svc, Step(t, attempts[0]), attempts[1..]);
    }
  }

  lemma BornIsTraced(svc: string, origin: string, c: Content, adopting: bool, requestId: string)
    ensures var t := Born(svc, origin, c, adopting, requestId); History(t) && Ring(t)
  {
    AppendIsLast([], requestId, 1);
    assert [] + [Request(requestId, 1)] == [Request(requestId, 1)];
  }

  // ---- At-most-once edits ----

  /** A request is answered from the ring exactly when its id is among the last
      32 recorded ones; then nothing changes, whatever the request carries. */
  lemma ReplayedIffRemembered(t: Traced, ch: Change, persisted: bool)
    requires Ring(t)
    ensures ApplyOutcome(t.rec, ch).Keep? && ApplyOutcome(t.rec, ch).kept.replayed
       <==> exists r :: r in Last(t.recorded, REQUEST_RING) && r.id == ch.requestId
    ensures ApplyOutcome(t.rec, ch).Keep? ==> Step(t, Attempt(DoApply(ch), persisted)) == t
  {
    FindRequestFinds(t.rec.ring, ch.requestId);
    if ch.requestId == "" {
      forall r | r in t.rec.ring ensures r.id != "" { assert r in t.recorded; }
    }
  }

  /** A request recorded at version v, retried after any run that records fewer
      than 32 newer ids, replays v and leaves the record as it is. */
  lemma RetryReplaysOriginalVersion(t: Traced, a: Attempt, later: seq<Attempt>, retry: Change, persisted: bool)
    requires History(t) && Ring(t)
    requires Records(t.rec, a) && retry.requestId == a.op.change.requestId
    requires |Run(Step(t, a), later).recorded| < |t.recorded| + 1 + REQUEST_RING
    ensures var u := Run(Step(t, a), later);
            && ApplyOutcome(u.rec, retry) == Keep(ApplyResult(Step(t, a).rec.version, false, true))
            && Step(u, Attempt(DoApply(retry), persisted)) == u
  {
    var t1 := Step(t, a);
    StepKeepsHistory(t, a);
    StepKeepsRing(t, a);
    RunKeepsInvariants(t1, later);
    var u := Run(t1, later);
    var at := |t.recorded|;
    assert u.recorded[at] == t1.recorded[at];
    var offset := |u.recorded| - |u.rec.ring|;
    assert u.rec.ring[at - offset] == u.recorded[at];
    FindRequestFinds(u.rec.ring, retry.requestId);
  }

  // ---- Undo ----

  /** Reverting twice puts the content back, two versions on. */
  lemma RevertTwiceRestores(t: Traced)
    requires History(t) && t.rec.prev.Some?
    ensures var u := Run(t, [Attempt(DoRevert, true), Attempt(DoRevert, true)]);
            && u.rec.content == t.rec.content && u.rec.hash == t.rec.hash
            && u.rec.version == t.rec.version + 2 && u.rec.state == Reverted
            && u.contents == t.contents + [t.rec.prev.value.content, t.rec.content]
  {
    var t1 := Step(t, Attempt(DoRevert, true));
    var t2 := Step(t1, Attempt(DoRevert, true));
    assert Run(t2, []) == t2;
    assert Run(t1, [Attempt(DoRevert, true)]) == t2;
    assert [Attempt(DoRevert, true), Attempt(DoRevert, true)][1..] == [Attempt(DoRevert, true)];
  }

  /** Reverting right after an edit restores the edited-away content. */
  lemma RevertUndoesEdit(t: Traced, ch: Change)
    requires History(t)
    requires ApplyOutcome(t.rec, ch).Write? && !ApplyOutcome(t.rec, ch).written.noOp
    ensures var u := Run(t, [Attempt(DoApply(ch), true), Attempt(DoRevert, true)]);
            && u.rec.content == t.rec.content
            && u.rec.version == t.rec.version + 2
            && u.rec.prev == Some(Snapshot(t.rec.version + 1, ch.content))
  {
    var t1 := Step(t, Attempt(DoApply(ch), true));
    var t2 := Step(t1, Attempt(DoRevert, true));
    assert Run(t2, []) == t2;
    assert Run(t1, [Attempt(DoRevert, true)]) == t2;
    assert [Attempt(DoApply(ch), true), Attempt(DoRevert, true)][1..] == [Attempt(DoRevert, true)];
  }

  /** A touch moves the version and nothing a replica runs; a revert after it
      still has nothing to change. */
  lemma TouchThenRevertIsContentNoOp(t: Traced)
    requires History(t)
    ensures var t1 := Run(t, [Attempt(DoTouch, true)]);
            var u := Run(t1, [Attempt(DoRevert, true)]);
            && t1.rec.content == t.rec.content && t1.rec.version == t.rec.version + 1
            && u.rec.content == t.rec.content && u.rec.hash == t.rec.hash
            && u.rec.version == t.rec.version + 2
  {
    var t1 := Step(t, Attempt(DoTouch, true));
    var t2 := Step(t1, Attempt(DoRevert, true));
    assert Run(t1, []) == t1;
    assert Run(t2, []) == t2;
  }
}

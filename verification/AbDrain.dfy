/** When a variant of an A/B test has drained (abDrain and observePins in
    cmd/dashboard/abmanager.go). Times are seconds. */
module AbDrain {
  import opened Common

  datatype Variant = A | B

  datatype Pinned = Pinned(activeSessions: int, lastSeen: int)

  datatype Experiment = Experiment(id: string, trackingSince: int, a: Pinned, b: Pinned)

  /** What one proxy answered: nothing, no such test, or its report. */
  datatype Report = Report(reachable: bool, exp: Option<Experiment>)

  datatype Test = Test(id: string, phaseAt: int, maxSession: int, sessionIdle: int, pinA: int, pinB: int)

  datatype DrainView = DrainView(activeSessions: int, lastPinnedAt: int, drained: bool, drainsBy: int, deadlineOnly: bool)

  function PinOf(e: Experiment, v: Variant): Pinned {
    if v.B? then e.b else e.a
  }

  function PinnedMax(t: Test, v: Variant): int {
    if v.B? then t.pinB else t.pinA
  }

  function Max(x: int, y: int): int {
    if y > x then y else x
  }

  /** A report that says since when it has tracked this very test. */
  predicate Trusted(t: Test, h: Report) {
    h.reachable && h.exp.Some? && h.exp.value.id == t.id && h.exp.value.trackingSince > 0
  }

  predicate AllTrusted(t: Test, hosts: seq<Report>) {
    forall i :: 0 <= i < |hosts| ==> Trusted(t, hosts[i])
  }

  function LastPin(t: Test, v: Variant, hosts: seq<Report>): int {
    if hosts == [] then PinnedMax(t, v)
    else
      var rest := LastPin(t, v, hosts[..|hosts| - 1]);
      var h := hosts[|hosts| - 1];
      if Trusted(t, h) then Max(rest, PinOf(h.exp.value, v).lastSeen) else rest
  }

  function LastTracking(t: Test, hosts: seq<Report>): int {
    if hosts == [] then 0
    else
      var rest := LastTracking(t, hosts[..|hosts| - 1]);
      var h := hosts[|hosts| - 1];
      if Trusted(t, h) then Max(rest, h.exp.value.trackingSince) else rest
  }

  function ActiveSessions(t: Test, v: Variant, hosts: seq<Report>): int {
    if hosts == [] then 0
    else
      var rest := ActiveSessions(t, v, hosts[..|hosts| - 1]);
      var h := hosts[|hosts| - 1];
      if Trusted(t, h) then rest + PinOf(h.exp.value, v).activeSessions else rest
  }

  function Deadline(t: Test): int {
    t.phaseAt + t.maxSession
  }

  /** The idle clock starts at the last pin ever seen or, if later, at the latest
      time any proxy began to remember pins. */
  function IdleEnd(t: Test, v: Variant, hosts: seq<Report>): int {
    Max(LastPin(t, v, hosts), LastTracking(t, hosts)) + t.sessionIdle
  }

  predicate Drained(t: Test, v: Variant, hosts: seq<Report>, now: int) {
    now >= Deadline(t) || (AllTrusted(t, hosts) && IdleEnd(t, v, hosts) < now)
  }

  method AbDrain(t: Test, v: Variant, hosts: seq<Report>, now: int) returns (d: DrainView)
    ensures d.drained == Drained(t, v, hosts, now)
    ensures d.deadlineOnly == !AllTrusted(t, hosts)
    ensures d.lastPinnedAt == LastPin(t, v, hosts) && d.activeSessions == ActiveSessions(t, v, hosts)
    ensures d.drainsBy == if AllTrusted(t, hosts) && IdleEnd(t, v, hosts) < Deadline(t) then IdleEnd(t, v, hosts) else Deadline(t)
  {
    var deadline := t.phaseAt + t.maxSession;
    d := DrainView(0, PinnedMax(t, v), false, deadline, false);
    var trusted := true;
    var tracking := 0;
    for i := 0 to |hosts|
      invariant trusted == AllTrusted(t, hosts[..i])
      invariant tracking == LastTracking(t, hosts[..i])
      invariant d.lastPinnedAt == LastPin(t, v, hosts[..i]) && d.drainsBy == deadline
      invariant d.activeSessions == ActiveSessions(t, v, hosts[..i])
    {
      var h := hosts[i];
      assert hosts[..i + 1][..i] == hosts[..i] && hosts[..i + 1] == hosts[..i] + [h];
      if !h.reachable || h.exp.None? || h.exp.value.id != t.id || h.exp.value.trackingSince <= 0 {
        assert hosts[..i + 1][i] == h;
        trusted := false;
      } else {
        if h.exp.value.trackingSince > tracking {
          tracking := h.exp.value.trackingSince;
        }
        var p := PinOf(h.exp.value, v);
        d := d.(activeSessions := d.activeSessions + p.activeSessions);
        if p.lastSeen > d.lastPinnedAt {
          d := d.(lastPinnedAt := p.lastSeen);
        }
      }
    }
    assert hosts[..|hosts|] == hosts;
    d := d.(deadlineOnly := !trusted);
    if trusted {
      var quiet := d.lastPinnedAt;
      if tracking > quiet {
        quiet := tracking;
      }
      var idleEnd := quiet + t.sessionIdle;
      if idleEnd < d.drainsBy {
        d := d.(drainsBy := idleEnd);
      }
    }
    d := d.(drained := now >= deadline || (trusted && d.drainsBy < now));
  }

  /** A report that counts: from a reachable proxy, on this very test, saying since
      when it has kept track. */
  ghost predicate Counts(t: Test, h: Report) {
    h.reachable && h.exp.Some? && h.exp.value.id == t.id && h.exp.value.trackingSince >= 1
  }

  lemma {:induction false} LatestExactly(t: Test, v: Variant, hosts: seq<Report>, x: int)
    ensures LastPin(t, v, hosts) <= x <==>
            && (if v == B then t.pinB else t.pinA) <= x
            && forall h :: h in hosts && Counts(t, h) ==> (if v == B then h.exp.value.b else h.exp.value.a).lastSeen <= x
    ensures LastTracking(t, hosts) <= x <==> 0 <= x && forall h :: h in hosts && Counts(t, h) ==> h.exp.value.trackingSince <= x
  {
    if hosts != [] {
      var n := |hosts| - 1;
      LatestExactly(t, v, hosts[..n], x);
      assert hosts == hosts[..n] + [hosts[n]];
    }
  }

  /** Drained, spelled out: at the deadline; or before it once every host gives a
      report that counts, and the idle time has passed since each pin they or the
      record know of, since each of them began to keep track, and since the epoch. */
  lemma DrainedExactly(t: Test, v: Variant, hosts: seq<Report>, now: int)
    ensures Drained(t, v, hosts, now) <==>
      || now >= t.phaseAt + t.maxSession
      || (&& (forall h :: h in hosts ==> Counts(t, h))
          && (if v == B then t.pinB else t.pinA) + t.sessionIdle < now && t.sessionIdle < now
          && forall h :: h in hosts ==>
               && (if v == B then h.exp.value.b else h.exp.value.a).lastSeen + t.sessionIdle < now
               && h.exp.value.trackingSince + t.sessionIdle < now)
  {
    LatestExactly(t, v, hosts, now - t.sessionIdle - 1);
    assert AllTrusted(t, hosts) <==> forall h :: h in hosts ==> Counts(t, h) by {
      assert forall i :: 0 <= i < |hosts| ==> hosts[i] in hosts;
    }
  }

  // ---- Observing pins ----

  /** A report about this test raises its maxima, whatever else it lacks. */
  predicate About(t: Test, h: Report) {
    h.reachable && h.exp.Some? && h.exp.value.id == t.id
  }

  method ObservePins(t: Test, hosts: seq<Report>) returns (r: Test, changed: bool)
    ensures r == t.(pinA := r.pinA, pinB := r.pinB) && changed == (r != t)
    ensures r.pinA >= t.pinA && r.pinB >= t.pinB
    ensures forall h :: h in hosts && h.reachable && h.exp.Some? && h.exp.value.id == t.id ==>
              h.exp.value.a.lastSeen <= r.pinA && h.exp.value.b.lastSeen <= r.pinB
    ensures (r.pinA == t.pinA && r.pinB == t.pinB)
            || exists h :: h in hosts && h.reachable && h.exp.Some? && h.exp.value.id == t.id
    ensures forall i :: 0 <= i < |hosts| && About(t, hosts[i]) ==>
              hosts[i].exp.value.a.lastSeen <= r.pinA && hosts[i].exp.value.b.lastSeen <= r.pinB
    ensures r.pinA == t.pinA || exists i :: 0 <= i < |hosts| && About(t, hosts[i]) && hosts[i].exp.value.a.lastSeen == r.pinA
    ensures r.pinB == t.pinB || exists i :: 0 <= i < |hosts| && About(t, hosts[i]) && hosts[i].exp.value.b.lastSeen == r.pinB
  {
    r, changed := t, false;
    for i := 0 to |hosts|
      invariant r == t.(pinA := r.pinA, pinB := r.pinB) && changed == (r != t)
      invariant r.pinA >= t.pinA && r.pinB >= t.pinB
      invariant forall j :: 0 <= j < i && About(t, hosts[j]) ==>
                  hosts[j].exp.value.a.lastSeen <= r.pinA && hosts[j].exp.value.b.lastSeen <= r.pinB
      invariant r.pinA == t.pinA || exists j :: 0 <= j < i && About(t, hosts[j]) && hosts[j].exp.value.a.lastSeen == r.pinA
      invariant r.pinB == t.pinB || exists j :: 0 <= j < i && About(t, hosts[j]) && hosts[j].exp.value.b.lastSeen == r.pinB
    {
      if About(t, hosts[i]) {
        if hosts[i].exp.value.a.lastSeen > r.pinA {
          r, changed := r.(pinA := hosts[i].exp.value.a.lastSeen), true;
        }
        if hosts[i].exp.value.b.lastSeen > r.pinB {
          r, changed := r.(pinB := hosts[i].exp.value.b.lastSeen), true;
        }
      }
    }
  }

  // ---- Soundness ----

  /** A proxy: the times at which it served pinned requests of each variant, since
      when it remembers them, and when it made its report. */
  datatype Proxy = Proxy(pinsA: set<int>, pinsB: set<int>, trackingSince: int, reportedAt: int)

  function PinsOf(p: Proxy, v: Variant): set<int> {
    if v.B? then p.pinsB else p.pinsA
  }

  /** A report is truthful about the pins the proxy remembers, those since it began
      tracking. */
  ghost predicate Truthful(p: Proxy, e: Experiment) {
    && e.trackingSince == p.trackingSince
    && forall v: Variant, x :: x in PinsOf(p, v) && p.trackingSince <= x <= p.reportedAt ==> PinOf(e, v).lastSeen >= x
  }

  lemma {:induction false} QuietBounds(t: Test, v: Variant, hosts: seq<Report>, i: nat)
    requires i < |hosts| && Trusted(t, hosts[i])
    ensures LastPin(t, v, hosts) >= PinOf(hosts[i].exp.value, v).lastSeen && LastPin(t, v, hosts) >= PinnedMax(t, v)
    ensures LastTracking(t, hosts) >= hosts[i].exp.value.trackingSince
  {
    LastPinBase(t, v, hosts);
    if i < |hosts| - 1 {
      QuietBounds(t, v, hosts[..|hosts| - 1], i);
    }
  }

  lemma {:induction false} LastPinBase(t: Test, v: Variant, hosts: seq<Report>)
    ensures LastPin(t, v, hosts) >= PinnedMax(t, v)
  {
    if hosts != [] {
      LastPinBase(t, v, hosts[..|hosts| - 1]);
    }
  }

  /** The idle drain is sound across proxy restarts: when every proxy reports and
      the verdict comes before the deadline, none of them served a pinned request
      of the variant from session_idle before now up to its report — although a
      restarted proxy has forgotten everything before its tracking_since. */
  lemma IdleDrainIsSound(t: Test, v: Variant, proxies: seq<Proxy>, hosts: seq<Report>, now: int, i: nat, x: int)
    requires |hosts| == |proxies| && i < |proxies|
    requires Drained(t, v, hosts, now) && now < Deadline(t)
    requires forall j :: 0 <= j < |hosts| && hosts[j].exp.Some? ==> Truthful(proxies[j], hosts[j].exp.value)
    requires now - t.sessionIdle <= x <= proxies[i].reportedAt
    ensures x !in PinsOf(proxies[i], v)
    ensures x > PinnedMax(t, v)
  {
    QuietBounds(t, v, hosts, i);
    assert Truthful(proxies[i], hosts[i].exp.value);
  }

  /** Without full reports only the deadline ends a drain. */
  lemma UntrustedNeedsDeadline(t: Test, v: Variant, hosts: seq<Report>, now: int, i: nat)
    requires i < |hosts| && !Trusted(t, hosts[i])
    ensures Drained(t, v, hosts, now) <==> now >= Deadline(t)
  {
  }

  /** A host that cannot be asked can only delay the verdict. */
  lemma UnreachableOnlyDelays(t: Test, v: Variant, hosts: seq<Report>, now: int, i: nat, lost: Report)
    requires i < |hosts| && !Trusted(t, lost)
    requires Drained(t, v, hosts[i := lost], now)
    ensures Drained(t, v, hosts, now)
  {
    UntrustedNeedsDeadline(t, v, hosts[i := lost], now, i);
  }

  /** A proxy that restarts forgets its pins, but begins tracking after all of
      them. */
  predicate Restarted(before: Report, after: Report) {
    && before.exp.Some? && after.exp.Some?
    && after.exp.value.trackingSince >= before.exp.value.trackingSince
    && after.exp.value.trackingSince >= before.exp.value.a.lastSeen
    && after.exp.value.trackingSince >= before.exp.value.b.lastSeen
  }

  lemma {:induction false} QuietAfterRestart(t: Test, v: Variant, hosts: seq<Report>, i: nat, after: Report)
    requires i < |hosts| && Trusted(t, hosts[i]) && Trusted(t, after) && Restarted(hosts[i], after)
    ensures Max(LastPin(t, v, hosts[i := after]), LastTracking(t, hosts[i := after]))
         >= Max(LastPin(t, v, hosts), LastTracking(t, hosts))
  {
    var n := |hosts| - 1;
    if i < n {
      assert hosts[i := after][..n] == hosts[..n][i := after];
      QuietAfterRestart(t, v, hosts[..n], i, after);
    } else {
      assert hosts[i := after][..n] == hosts[..n];
    }
  }

  /** So can a restart only delay it, whatever the restarted proxy reports since. */
  lemma RestartOnlyDelays(t: Test, v: Variant, hosts: seq<Report>, now: int, i: nat, after: Report)
    requires i < |hosts| && Trusted(t, hosts[i]) && Restarted(hosts[i], after)
    requires Drained(t, v, hosts[i := after], now)
    ensures Drained(t, v, hosts, now)
  {
    if now < Deadline(t) {
      assert hosts[i := after][i] == after;
      QuietAfterRestart(t, v, hosts, i, after);
      forall j | 0 <= j < |hosts| ensures Trusted(t, hosts[j]) {
        assert j != i ==> hosts[i := after][j] == hosts[j];
      }
    }
  }

  /** Nor does it go back as time passes, or come sooner for pins observed
      meanwhile. */
  lemma DrainedStaysDrained(t: Test, v: Variant, hosts: seq<Report>, now: int, later: int)
    requires Drained(t, v, hosts, now) && now <= later
    ensures Drained(t, v, hosts, later)
  {
  }

  lemma {:induction false} ObservedPinsOnlyDelay(t: Test, r: Test, v: Variant, hosts: seq<Report>)
    requires r == t.(pinA := r.pinA, pinB := r.pinB) && r.pinA >= t.pinA && r.pinB >= t.pinB
    ensures LastPin(r, v, hosts) >= LastPin(t, v, hosts) && LastTracking(r, hosts) == LastTracking(t, hosts)
    ensures forall now :: Drained(r, v, hosts, now) ==> Drained(t, v, hosts, now)
  {
    if hosts != [] {
      ObservedPinsOnlyDelay(t, r, v, hosts[..|hosts| - 1]);
      assert Trusted(t, hosts[|hosts| - 1]) == Trusted(r, hosts[|hosts| - 1]);
    }
    assert forall h :: Trusted(t, h) == Trusted(r, h);
  }
}

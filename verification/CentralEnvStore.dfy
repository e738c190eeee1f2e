/** The origin's store of central env records (cmd/dashboard/centralenv_store.go).

    Each operation is a value-level function of the current record (…Outcome)
    and a method of the class, whose fields it updates; `persisted` says whether
    the atomic file write succeeded. */
module CentralEnvStore {
  import opened Common
  import opened EnvContent

  const REQUEST_RING := 32

  datatype State = Active | Reverted | Degraded | Releasing

  datatype Snapshot = Snapshot(version: nat, content: Content)

  datatype Request = Request(id: string, version: nat)

  datatype Record = Record(
    service: string,
    origin: string,
    version: nat,
    content: Content,
    prev: Option<Snapshot>,
    ring: seq<Request>,
    hash: ContentHash,
    state: State,
    adopting: bool)

  datatype Change = Change(ifVersion: nat, requestId: string, content: Content)

  datatype ApplyResult = ApplyResult(version: nat, noOp: bool, replayed: bool)

  datatype StoreError =
    | InvalidName | InvalidContent | Broken | AlreadyExists | NotFound | NoPrevious
    | VersionConflict(current: nat) | Unresolvable | IoFailure

  /** What an operation decides to do with the current record. */
  datatype Outcome<+R> =
    | Refuse(error: StoreError)
    | Keep(kept: R)
    | Write(next: Record, written: R)

  // ---- Operations on one record ----

  /** The version the first ring entry with this id was recorded at. */
  function FindRequest(ring: seq<Request>, id: string): Option<nat> {
    if ring == [] then None
    else if ring[0].id == id then Some(ring[0].version)
    else FindRequest(ring[1..], id)
  }

  function AppendRequest(ring: seq<Request>, id: string, version: nat): seq<Request> {
    var longer := ring + [Request(id, version)];
    if |longer| > REQUEST_RING then longer[|longer| - REQUEST_RING..] else longer
  }

  function KeepTransitionState(s: State): State {
    if s == Releasing then Releasing else Active
  }

  function NewRecord(svc: string, origin: string, c: Content, adopting: bool, requestId: string): Record {
    Record(svc, origin, 1, c, None,
           if requestId != "" then AppendRequest([], requestId, 1) else [],
           HashOf(c), Active, adopting)
  }

  function Remember(ring: seq<Request>, id: string, version: nat): seq<Request> {
    if id == "" then ring else AppendRequest(ring, id, version)
  }

  function ApplyOutcome(cur: Record, ch: Change): Outcome<ApplyResult> {
    var seen := FindRequest(cur.ring, ch.requestId);
    if ch.requestId != "" && seen.Some? then
      Keep(ApplyResult(seen.value, false, true))
    else if ch.ifVersion != cur.version then
      Refuse(VersionConflict(cur.version))
    else if HashOf(ch.content) == cur.hash then
      if ch.requestId == "" then Keep(ApplyResult(cur.version, true, false))
      else Write(cur.(ring := AppendRequest(cur.ring, ch.requestId, cur.version)),
                 ApplyResult(cur.version, true, false))
    else
      Write(cur.(prev := Some(Snapshot(cur.version, cur.content)),
                 version := cur.version + 1,
                 content := ch.content,
                 hash := HashOf(ch.content),
                 state := KeepTransitionState(cur.state),
                 ring := Remember(cur.ring, ch.requestId, cur.version + 1)),
            ApplyResult(cur.version + 1, false, false))
  }

  function RevertOutcome(cur: Record): Outcome<nat> {
    if cur.prev.None? then Refuse(NoPrevious)
    else
      Write(cur.(prev := Some(Snapshot(cur.version, cur.content)),
                 version := cur.version + 1,
                 content := cur.prev.value.content,
                 hash := HashOf(cur.prev.value.content),
                 state := Reverted),
            cur.version + 1)
  }

  function TouchOutcome(cur: Record): Outcome<nat> {
    Write(cur.(prev := Some(Snapshot(cur.version, cur.content)),
               version := cur.version + 1,
               state := KeepTransitionState(cur.state)),
          cur.version + 1)
  }

  function SetStateOutcome(cur: Record, s: State): Outcome<()> {
    Write(cur.(state := s), ())
  }

  function FinishAdoptOutcome(cur: Record): Outcome<()> {
    Write(cur.(adopting := false), ())
  }

  // ---- The store ----

  datatype StoreView = StoreView(items: map<string, Record>, broken: set<string>)

  /** A record file on disk: one that decodes, or one that does not. */
  datatype File = Decoded(rec: Record) | Corrupt

  predicate Loadable(svc: string, f: File) {
    f.Decoded? && f.rec.service == svc && f.rec.version != 0
  }

  /** What loadCentralEnvStore makes of a directory. */
  function Load(disk: map<string, File>): StoreView {
    StoreView(map svc | svc in disk && ValidServiceName(svc) && Loadable(svc, disk[svc]) :: disk[svc].rec,
              set svc | svc in disk && ValidServiceName(svc) && !Loadable(svc, disk[svc]))
  }

  /** One mutex-protected operation on svc: a broken record fails closed, a
      missing one is not found, and a write reaches memory only if it reached
      the disk first. */
  function Operate<R>(v: StoreView, svc: string, o: Record -> Outcome<R>, persisted: bool)
    : (StoreView, Result<R, StoreError>)
  {
    if svc in v.broken then (v, Err(Broken))
    else if svc !in v.items then (v, Err(NotFound))
    else
      match o(v.items[svc])
      case Refuse(e) => (v, Err(e))
      case Keep(r) => (v, Ok(r))
      case Write(next, r) =>
        if persisted then (v.(items := v.items[svc := next]), Ok(r)) else (v, Err(IoFailure))
  }

  class CentralEnvStore {
    var items: map<string, Record>
    var broken: set<string>
    var disk: map<string, File>

    ghost function View(): StoreView
      reads this
    {
      StoreView(items, broken)
    }

    /** Memory always is what a restart would load. */
    ghost predicate Valid()
      reads this
    {
      View() == Load(disk)
    }

    constructor (files: map<string, File>)
      ensures Valid() && View() == Load(files)
    {
      items := Load(files).items;
      broken := Load(files).broken;
      disk := files;
    }

    predicate Has(svc: string)
      reads this
    {
      svc in items || svc in broken
    }

    method Get(svc: string) returns (r: Result<Option<Record>, StoreError>)
      ensures svc in broken ==> r == Err(Broken)
      ensures svc !in broken ==> r == Ok(if svc in items then Some(items[svc]) else None)
    {
      if svc in broken {
        return Err(Broken);
      }
      if svc !in items {
        return Ok(None);
      }
      return Ok(Some(items[svc]));
    }

    method Persist(rec: Record, persisted: bool)
      requires Valid() && rec.service in items && rec.version != 0
      modifies this`disk, this`items
      ensures Valid()
      ensures View() == if persisted then old(View()).(items := old(items)[rec.service := rec]) else old(View())
    {
      if persisted {
        disk := disk[rec.service := Decoded(rec)];
        items := items[rec.service := rec];
        assert items == Load(disk).items;
        assert broken == Load(disk).broken;
      }
    }

    method Create(svc: string, origin: string, c: Content, adopting: bool, requestId: string, persisted: bool)
      returns (r: Result<nat, StoreError>)
      requires Valid()
      modifies this
      ensures Valid()
      ensures r.Ok? <==>
              ValidServiceName(svc) && ValidContent(c) && !old(Has(svc)) && persisted
      ensures r.Ok? ==> r.value == 1
      ensures View() == if r.Ok? then old(View()).(items := old(items)[svc := NewRecord(svc, origin, c, adopting, requestId)])
                        else old(View())
      ensures !old(Has(svc)) && !ValidServiceName(svc) ==> r == Err(InvalidName)
      ensures ValidServiceName(svc) && ValidContent(c) && old(svc in broken) ==> r == Err(Broken)
      ensures ValidServiceName(svc) && ValidContent(c) && old(svc in items && svc !in broken) ==> r == Err(AlreadyExists)
    {
      if !ValidServiceName(svc) {
        return Err(InvalidName);
      }
      if !ValidContent(c) {
        return Err(InvalidContent);
      }
      if svc in broken {
        return Err(Broken);
      }
      if svc in items {
        return Err(AlreadyExists);
      }
      var rec := Record(svc, origin, 1, c, None, [], HashOf(c), Active, adopting);
      if requestId != "" {
        rec := rec.(ring := AppendRequest([], requestId, 1));
      }
      if !persisted {
        return Err(IoFailure);
      }
      disk := disk[svc := Decoded(rec)];
      items := items[svc := rec];
      assert items == Load(disk).items;
      assert broken == Load(disk).broken;
      return Ok(1);
    }

    method Apply(svc: string, ch: Change, persisted: bool) returns (r: Result<ApplyResult, StoreError>)
      requires Valid()
      modifies this
      ensures Valid()
      ensures !ValidContent(ch.content) ==> View() == old(View()) && r == Err(InvalidContent)
      ensures ValidContent(ch.content) ==>
                (View(), r) == Operate(old(View()), svc, (cur: Record) => ApplyOutcome(cur, ch), persisted)
    {
      if !ValidContent(ch.content) {
        return Err(InvalidContent);
      }
      if svc in broken {
        return Err(Broken);
      }
      if svc !in items {
        return Err(NotFound);
      }
      var cur := items[svc];
      if ch.requestId != "" {
        var i := 0;
        while i < |cur.ring|
          invariant 0 <= i <= |cur.ring|
          invariant FindRequest(cur.ring[i..], ch.requestId) == FindRequest(cur.ring, ch.requestId)
        {
          assert cur.ring[i..][1..] == cur.ring[i + 1..];
          if cur.ring[i].id == ch.requestId {
            return Ok(ApplyResult(cur.ring[i].version, false, true));
          }
          i := i + 1;
        }
      }
      if ch.ifVersion != cur.version {
        return Err(VersionConflict(cur.version));
      }
      var hash := HashOf(ch.content);
      var next := cur;
      if hash == cur.hash {
        if ch.requestId == "" {
          return Ok(ApplyResult(cur.version, true, false));
        }
        next := next.(ring := AppendRequest(next.ring, ch.requestId, cur.version));
        Persist(next, persisted);
        return if persisted then Ok(ApplyResult(cur.version, true, false)) else Err(IoFailure);
      }
      next := next.(prev := Some(Snapshot(cur.version, cur.content)));
      next := next.(version := cur.version + 1);
      next := next.(content := ch.content);
      next := next.(hash := hash);
      next := next.(state := KeepTransitionState(cur.state));
      if ch.requestId != "" {
        next := next.(ring := AppendRequest(next.ring, ch.requestId, next.version));
      }
      Persist(next, persisted);
      return if persisted then Ok(ApplyResult(next.version, false, false)) else Err(IoFailure);
    }

    method Revert(svc: string, persisted: bool) returns (r: Result<nat, StoreError>)
      requires Valid()
      modifies this
      ensures Valid()
      ensures (View(), r) == Operate(old(View()), svc, RevertOutcome, persisted)
    {
      if svc in broken {
        return Err(Broken);
      }
      if svc !in items {
        return Err(NotFound);
      }
      var cur := items[svc];
      if cur.prev.None? {
        return Err(NoPrevious);
      }
      var next := cur.(prev := Some(Snapshot(cur.version, cur.content)));
      next := next.(version := cur.version + 1);
      next := next.(content := cur.prev.value.content);
      next := next.(hash := HashOf(next.content));
      next := next.(state := Reverted);
      Persist(next, persisted);
      return if persisted then Ok(next.version) else Err(IoFailure);
    }

    method Touch(svc: string, persisted: bool) returns (r: Result<nat, StoreError>)
      requires Valid()
      modifies this
      ensures Valid()
      ensures (View(), r) == Operate(old(View()), svc, TouchOutcome, persisted)
    {
      if svc in broken {
        return Err(Broken);
      }
      if svc !in items {
        return Err(NotFound);
      }
      var cur := items[svc];
      var next := cur.(prev := Some(Snapshot(cur.version, cur.content)));
      next := next.(version := cur.version + 1);
      next := next.(state := KeepTransitionState(cur.state));
      Persist(next, persisted);
      return if persisted then Ok(next.version) else Err(IoFailure);
    }

    method SetState(svc: string, s: State, persisted: bool) returns (r: Result<(), StoreError>)
      requires Valid()
      modifies this
      ensures Valid()
      ensures (View(), r) == Operate(old(View()), svc, (cur: Record) => SetStateOutcome(cur, s), persisted)
    {
      if svc in broken {
        return Err(Broken);
      }
      if svc !in items {
        return Err(NotFound);
      }
      Persist(items[svc].(state := s), persisted);
      return if persisted then Ok(()) else Err(IoFailure);
    }

    method FinishAdopt(svc: string, persisted: bool) returns (r: Result<(), StoreError>)
      requires Valid()
      modifies this
      ensures Valid()
      ensures (View(), r) == Operate(old(View()), svc, FinishAdoptOutcome, persisted)
    {
      if svc in broken {
        return Err(Broken);
      }
      if svc !in items {
        return Err(NotFound);
      }
      Persist(items[svc].(adopting := false), persisted);
      return if persisted then Ok(()) else Err(IoFailure);
    }

    /** Removes a record, broken or not; a missing file is not an error. */
    method Delete(svc: string, removed: bool) returns (r: Result<(), StoreError>)
      requires Valid()
      modifies this
      ensures Valid()
      ensures r == if !ValidServiceName(svc) then Err(InvalidName) else if removed then Ok(()) else Err(IoFailure)
      ensures View() == if r.Ok? then StoreView(old(items) - {svc}, old(broken) - {svc}) else old(View())
      ensures r.Ok? ==> !Has(svc)
    {
      if !ValidServiceName(svc) {
        return Err(InvalidName);
      }
      if !removed {
        return Err(IoFailure);
      }
      disk := disk - {svc};
      items := items - {svc};
      broken := broken - {svc};
      assert items == Load(disk).items;
      assert broken == Load(disk).broken;
      return Ok(());
    }

    /** The env a replica on host runs and the version it came from, both read
        from one copy of the record. */
    method EffectiveEnvAt(svc: string, host: string, secrets: EnvMap)
      returns (r: Result<(EnvMap, nat), StoreError>)
      requires Valid()
      ensures r == EffectiveEnvAtSpec(View(), svc, host, secrets)
      ensures svc in broken ==> r == Err(Broken)
      ensures svc !in broken && svc !in items ==> r == Err(NotFound)
      ensures svc !in broken && svc in items ==>
                var env := EffectiveEnv(items[svc].content, host, secrets);
                r == if env.Some? then Ok((env.value, items[svc].version)) else Err(Unresolvable)
    {
      if svc in broken {
        return Err(Broken);
      }
      if svc !in items {
        return Err(NotFound);
      }
      var rec := items[svc];
      var merged: EnvMap := map[];
      var keys := rec.content.base.Keys;
      while keys != {}
        invariant keys <= rec.content.base.Keys
        invariant merged == map k | k in rec.content.base && k !in keys :: rec.content.base[k]
        decreases keys
      {
        var k :| k in keys;
        merged := merged[k := rec.content.base[k]];
        keys := keys - {k};
      }
      var over := if host in rec.content.overrides then rec.content.overrides[host] else map[];
      keys := over.Keys;
      while keys != {}
        invariant keys <= over.Keys
        invariant merged == rec.content.base + map k | k in over && k !in keys :: over[k]
        decreases keys
      {
        var k :| k in keys;
        merged := merged[k := over[k]];
        keys := keys - {k};
      }
      assert over == map k | k in over && k !in keys :: over[k];
      match ResolveRefs(merged, secrets)
      case None => return Err(Unresolvable);
      case Some(env) => return Ok((env, rec.version));
    }
  }

  function EffectiveEnvAtSpec(v: StoreView, svc: string, host: string, secrets: EnvMap)
    : Result<(EnvMap, nat), StoreError>
  {
    if svc in v.broken then Err(Broken)
    else if svc !in v.items then Err(NotFound)
    else
      match EffectiveEnv(v.items[svc].content, host, secrets)
      case None => Err(Unresolvable)
      case Some(env) => Ok((env, v.items[svc].version))
  }

  // ---- What each operation leaves, field by field ----

  /** A new record is version 1 of its content, active, with nothing to revert to. */
  lemma CreatedRecord(svc: string, origin: string, c: Content, adopting: bool, requestId: string)
    ensures var r := NewRecord(svc, origin, c, adopting, requestId);
      && r.service == svc && r.origin == origin && r.version == 1 && r.content == c && r.prev.None?
      && r.hash == HashOf(c) && r.state == Active && r.adopting == adopting
      && r.ring == (if requestId == "" then [] else [Request(requestId, 1)])
  {
  }

  /** A change is answered from the ring if its id is there; else refused unless it
      names the current version; else it is written, unless its content hashes as the
      present one does: then at most its id is remembered. A new version keeps what
      it replaces as its snapshot, and a record being released stays so. */
  lemma ApplyExactly(cur: Record, ch: Change)
    ensures var o := ApplyOutcome(cur, ch);
      var replay := ch.requestId != "" && exists r :: r in cur.ring && r.id == ch.requestId;
      var same := HashOf(ch.content) == cur.hash;
      var remembered := if ch.requestId == "" then cur.ring else AppendRequest(cur.ring, ch.requestId,
                          if same then cur.version else cur.version + 1);
      && (o.Keep? && o.kept.replayed <==> replay)
      && (replay ==> exists r :: r in cur.ring && r.id == ch.requestId && o == Keep(ApplyResult(r.version, false, true)))
      && (o.Refuse? <==> !replay && ch.ifVersion != cur.version)
      && (o.Refuse? ==> o.error == VersionConflict(cur.version))
      && (!replay && ch.ifVersion == cur.version && same ==>
            o == if ch.requestId == "" then Keep(ApplyResult(cur.version, true, false))
                 else Write(cur.(ring := remembered), ApplyResult(cur.version, true, false)))
      && (!replay && ch.ifVersion == cur.version && !same ==>
            o == Write(Record(cur.service, cur.origin, cur.version + 1, ch.content, Some(Snapshot(cur.version, cur.content)),
                              remembered, HashOf(ch.content), if cur.state == Releasing then Releasing else Active, cur.adopting),
                       ApplyResult(cur.version + 1, false, false)))
  {
    FoundInRing(cur.ring, ch.requestId);
  }

  lemma {:induction false} FoundInRing(ring: seq<Request>, id: string)
    ensures FindRequest(ring, id).Some? <==> exists r :: r in ring && r.id == id
    ensures FindRequest(ring, id).Some? ==> exists r :: r in ring && r.id == id && FindRequest(ring, id) == Some(r.version)
  {
    if ring != [] {
      FoundInRing(ring[1..], id);
      if ring[0].id == id {
        assert ring[0] in ring;
      } else if r :| r in ring[1..] && r.id == id && FindRequest(ring[1..], id) == Some(r.version) {
        assert r in ring;
      }
    }
  }

  /** A ring takes the new id last, and drops the oldest beyond thirty-two. */
  lemma RingAppends(ring: seq<Request>, id: string, version: nat)
    requires |ring| <= 32
    ensures var longer := AppendRequest(ring, id, version);
      && |longer| == (if |ring| == 32 then 32 else |ring| + 1)
      && longer[|longer| - 1] == Request(id, version)
      && forall k :: 0 <= k < |longer| - 1 ==> longer[k] == ring[if |ring| == 32 then k + 1 else k]
  {
  }

  /** A revert brings the snapshot back as the next version; a touch is the same
      content again as the next version; the others change one mark. */
  lemma OtherOperationsExactly(cur: Record, st: State)
    ensures RevertOutcome(cur) ==
            if cur.prev.None? then Refuse(NoPrevious)
            else Write(Record(cur.service, cur.origin, cur.version + 1, cur.prev.value.content,
                              Some(Snapshot(cur.version, cur.content)), cur.ring, HashOf(cur.prev.value.content), Reverted,
                              cur.adopting),
                       cur.version + 1)
    ensures TouchOutcome(cur) ==
            Write(Record(cur.service, cur.origin, cur.version + 1, cur.content, Some(Snapshot(cur.version, cur.content)),
                         cur.ring, cur.hash, if cur.state == Releasing then Releasing else Active, cur.adopting),
                  cur.version + 1)
    ensures SetStateOutcome(cur, st) ==
            Write(Record(cur.service, cur.origin, cur.version, cur.content, cur.prev, cur.ring, cur.hash, st, cur.adopting), ())
    ensures FinishAdoptOutcome(cur) ==
            Write(Record(cur.service, cur.origin, cur.version, cur.content, cur.prev, cur.ring, cur.hash, cur.state, false), ())
  {
  }

  /** An operation on one service: refused for a broken or a missing record, and in
      memory exactly when it reached the disk. */
  lemma OperateExactly<R>(v: StoreView, svc: string, o: Record -> Outcome<R>, persisted: bool)
    ensures var (after, r) := Operate(v, svc, o, persisted);
      && after.broken == v.broken
      && (forall s :: s != svc ==> (s in after.items <==> s in v.items) && (s in v.items ==> after.items[s] == v.items[s]))
      && (svc in v.broken ==> r == Err(Broken) && after == v)
      && (svc !in v.broken && svc !in v.items ==> r == Err(NotFound) && after == v)
      && (svc !in v.broken && svc in v.items ==>
            match o(v.items[svc])
            case Refuse(e) => r == Err(e) && after == v
            case Keep(k) => r == Ok(k) && after == v
            case Write(next, w) =>
              if persisted then r == Ok(w) && svc in after.items && after.items[svc] == next else r == Err(IoFailure) && after == v)
  {
  }

  /** A restart finds the records whose file decodes to one of that name, and knows
      of the others that they are broken; files under no service's name are ignored. */
  lemma LoadExactly(disk: map<string, File>, svc: string)
    ensures var v := Load(disk);
      var named := svc in disk && ValidServiceName(svc);
      && (svc in v.items <==> named && disk[svc].Decoded? && disk[svc].rec.service == svc && disk[svc].rec.version > 0)
      && (svc in v.items ==> v.items[svc] == disk[svc].rec)
      && (svc in v.broken <==> named && svc !in v.items)
  {
  }
}

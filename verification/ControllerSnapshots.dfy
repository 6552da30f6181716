/** One name, one snapshot: what concurrent and retried CreateSnapshot calls leave behind. */
module ControllerSnapshots {
  import opened Options
  import opened WireSizes
  import opened ControllerModel
  import opened ControllerLocks
  import opened ControllerRuns

  predicate TakenFor(b: Backend, name: string, source: string) {
    exists id | id in b.snapshots :: b.snapshots[id].name == name && b.snapshots[id].source == source
  }

  /** A listing tells everything, and what will still be so when the CREATE takes effect. */
  predicate FullLists(w: World) {
    w.snapshotLists && w.pagesFit && !w.lateWrites
  }

  /** The same for a lookup by name. */
  predicate TrustedLookups(w: World) {
    w.snapshotLookups && !w.lateWrites
  }

  /**
   What a call knows while it holds its lock: past a lookup that cannot fail, the name is free;
   past a complete listing, it is free for this source.
   */
  predicate Fact(w: World, b: Backend, k: Call) {
    k.req.CreateSnapshot? ==>
      && (TrustedLookups(w) && (k.pc.ListSnapshots? || k.pc.ReadSource? || k.pc.Write?) ==>
            !SnapshotNameTaken(b, k.req.name))
      && (FullLists(w) && (k.pc.ReadSource? || k.pc.Write?) ==> !TakenFor(b, k.req.name, k.req.volumeId))
  }

  predicate SnapshotResultOf(k: Call) {
    k.req.CreateSnapshot? && (k.pc.Leaving? || k.pc.Returned?) && k.pc.result.SnapshotCreated?
  }

  /** A success returns a snapshot of the requested source. */
  predicate ResultFact(k: Call) {
    SnapshotResultOf(k) ==> k.pc.result.source == k.req.volumeId
  }

  /** The result is in the backend under the requested name and source. */
  predicate ResultIsThere(b: Backend, k: Call)
    requires SnapshotResultOf(k)
  {
    && k.pc.result.id in b.snapshots
    && b.snapshots[k.pc.result.id].name == k.req.name
    && b.snapshots[k.pc.result.id].source == k.req.volumeId
  }

  ghost predicate Facts(w: World, s: State) {
    forall c | c in s.calls :: Fact(w, s.backend, s.calls[c]) && ResultFact(s.calls[c])
  }

  lemma OtherFact(w: World, b: Backend, b': Backend, req: Request, r: Reply, k: Call)
    requires Answers(req, Write(0), r) && Writes(w, b, b', req, r)
    requires Fact(w, b, k) && ResultFact(k)
    requires Holds(k) ==> Key(k.req) != Key(req)
    ensures Fact(w, b', k) && ResultFact(k)
  {
  }

  lemma {:induction false} FirstNamedOf(entries: seq<SnapshotEntry>, name: string)
    ensures var hit := FirstNamed(entries, name);
      && (hit.Some? ==> hit.value.name == name && exists i | 0 <= i < |entries| :: entries[i] == hit.value)
      && (hit.None? ==> forall i | 0 <= i < |entries| :: entries[i].name != name)
  {
    if entries != [] {
      FirstNamedOf(entries[1..], name);
      if entries[0].name != name && FirstNamed(entries, name).Some? {
        var i :| 0 <= i < |entries[1..]| && entries[1..][i] == FirstNamed(entries, name).value;
        assert entries[i + 1] == FirstNamed(entries, name).value;
      }
    }
  }

  /** A complete listing without the name means that no snapshot of the source has it. */
  lemma ListingDecides(b: Backend, source: string, entries: seq<SnapshotEntry>, name: string)
    requires Lists(b, source, entries) && |SnapshotsOf(b, source)| <= PAGE
    requires FirstNamed(entries, name).None?
    ensures !TakenFor(b, name, source)
  {
    FirstNamedOf(entries, name);
    forall id | id in b.snapshots && b.snapshots[id].source == source ensures b.snapshots[id].name != name {
      assert id in SnapshotsOf(b, source);
      var i :| 0 <= i < |entries| && entries[i].id == id;
      assert DescribesSnapshot(b, entries[i]);
    }
  }

  lemma OwnRead(w: World, b: Backend, k: Call, r: Reply)
    requires Checked(w, k) && Talking(k) && k.req.CreateSnapshot? && !k.pc.Write?
    requires Answers(k.req, k.pc, r) && Reads(w, b, k.req, k.pc, r)
    requires w.pagesFit ==> PagesFit(b)
    requires Fact(w, b, k)
    ensures Fact(w, b, k.(pc := AfterReply(k.req, k.pc, r)))
    ensures ResultFact(k.(pc := AfterReply(k.req, k.pc, r)))
  {
    if k.pc.ListSnapshots? && r.SnapshotPage? {
      FirstNamedOf(r.entries, k.req.name);
      if FirstNamed(r.entries, k.req.name).None? {
        if FullLists(w) {
          assert |SnapshotsOf(b, k.req.volumeId)| <= PAGE;
          ListingDecides(b, k.req.volumeId, r.entries, k.req.name);
        }
      } else {
        var i :| 0 <= i < |r.entries| && r.entries[i] == FirstNamed(r.entries, k.req.name).value;
        assert DescribesSnapshot(b, r.entries[i]);
      }
    }
  }

  lemma OwnWrite(w: World, b: Backend, b': Backend, k: Call, r: Reply)
    requires Checked(w, k) && Talking(k) && k.req.CreateSnapshot? && k.pc.Write?
    requires Answers(k.req, k.pc, r) && Writes(w, b, b', k.req, r)
    ensures Fact(w, b', k.(pc := AfterReply(k.req, k.pc, r)))
    ensures ResultFact(k.(pc := AfterReply(k.req, k.pc, r)))
  {
    if r.SnapshotInfo? {
      var id, size :| AddsSnapshot(b, b', id, Snapshot(k.req.name, k.req.volumeId, size));
    }
  }

  /** The three degrees of uniqueness a world keeps. */
  predicate KeepsNames(w: World) {
    !w.client || TrustedLookups(w) || w.refusesDuplicates
  }

  predicate KeepsPerSource(w: World) {
    KeepsNames(w) || FullLists(w)
  }

  lemma WriteKeepsNames(w: World, b: Backend, b': Backend, k: Call)
    requires k.pc.Write? && Commits(w, b, b', k.req)
    requires UniqueSnapshotNames(b) && Fact(w, b, k) && (TrustedLookups(w) || w.refusesDuplicates)
    ensures UniqueSnapshotNames(b')
  {
  }

  lemma WriteKeepsPerSource(w: World, b: Backend, b': Backend, k: Call)
    requires k.pc.Write? && Commits(w, b, b', k.req)
    requires UniquePerSource(b) && Fact(w, b, k)
    requires TrustedLookups(w) || w.refusesDuplicates || FullLists(w)
    ensures UniquePerSource(b')
  {
    if k.req.CreateSnapshot? {
      var id, size :| AddsSnapshot(b, b', id, Snapshot(k.req.name, k.req.volumeId, size));
      assert !TakenFor(b, k.req.name, k.req.volumeId);
    }
  }

  ghost predicate Inv(w: World, s: State) {
    LockInv(w, s) && Within(w, s) && Facts(w, s)
  }

  lemma OwnFact(w: World, s: State, s': State, c: nat, r: Reply)
    requires Inv(w, s) && Exchanges(w, s, s', c, r)
    ensures Fact(w, s'.backend, s'.calls[c]) && ResultFact(s'.calls[c])
  {
    var k := s.calls[c];
    assert Checked(w, k);
    if k.req.CreateSnapshot? {
      if k.pc.Write? {
        OwnWrite(w, s.backend, s'.backend, k, r);
      } else {
        OwnRead(w, s.backend, k, r);
      }
    }
  }

  lemma ExchangeKeepsFacts(w: World, s: State, s': State, c: nat, r: Reply)
    requires Inv(w, s) && Exchanges(w, s, s', c, r)
    ensures Facts(w, s')
  {
    OwnFact(w, s, s', c, r);
    var k := s.calls[c];
    if k.pc.Write? {
      forall d | d in s'.calls && d != c
        ensures Fact(w, s'.backend, s'.calls[d]) && ResultFact(s'.calls[d])
      {
        OtherFact(w, s.backend, s'.backend, k.req, r, s.calls[d]);
      }
    }
  }

  lemma ExchangeKeepsUnique(w: World, s: State, s': State, c: nat, r: Reply)
    requires Inv(w, s) && Exchanges(w, s, s', c, r)
    ensures KeepsNames(w) && UniqueSnapshotNames(s.backend) ==> UniqueSnapshotNames(s'.backend)
    ensures KeepsPerSource(w) && UniquePerSource(s.backend) ==> UniquePerSource(s'.backend)
  {
    var k := s.calls[c];
    assert Checked(w, k) && Fact(w, s.backend, k);
    if k.pc.Write? && s'.backend != s.backend && Commits(w, s.backend, s'.backend, k.req) {
      if KeepsNames(w) && UniqueSnapshotNames(s.backend) {
        WriteKeepsNames(w, s.backend, s'.backend, k);
      }
      if KeepsPerSource(w) && UniquePerSource(s.backend) {
        WriteKeepsPerSource(w, s.backend, s'.backend, k);
      }
    }
  }

  /** A late write spares names where the backend looks after them. */
  lemma LandKeeps(w: World, s: State, s': State, i: nat)
    requires Inv(w, s) && Lands(w, s, s', i)
    ensures Facts(w, s')
    ensures KeepsNames(w) && UniqueSnapshotNames(s.backend) ==> UniqueSnapshotNames(s'.backend)
    ensures KeepsPerSource(w) && UniquePerSource(s.backend) ==> UniquePerSource(s'.backend)
  {
    assert w.client && w.lateWrites;
    var k := Call(s.underway[i], Write(0));
    if s'.backend != s.backend && w.refusesDuplicates {
      if UniqueSnapshotNames(s.backend) {
        WriteKeepsNames(w, s.backend, s'.backend, k);
      }
      if UniquePerSource(s.backend) {
        WriteKeepsPerSource(w, s.backend, s'.backend, k);
      }
    }
    forall d | d in s'.calls ensures Fact(w, s'.backend, s'.calls[d]) && ResultFact(s'.calls[d]) {
      assert ResultFact(s.calls[d]);
    }
  }

  lemma QuietKeeps(w: World, s: State, s': State, c: nat, e: Event)
    requires Inv(w, s) && StepBy(w, s, s', c, e) && !e.Exchange? && !e.Land?
    ensures s'.backend == s.backend && Facts(w, s')
  {
    forall d | d in s'.calls && d != c
      ensures Fact(w, s'.backend, s'.calls[d]) && ResultFact(s'.calls[d])
    {
      assert s'.calls[d] == s.calls[d];
    }
  }

  lemma StepKeeps(w: World, s: State, s': State, c: nat, e: Event)
    requires Inv(w, s) && StepBy(w, s, s', c, e) && Within(w, s')
    ensures Inv(w, s')
    ensures KeepsNames(w) && UniqueSnapshotNames(s.backend) ==> UniqueSnapshotNames(s'.backend)
    ensures KeepsPerSource(w) && UniquePerSource(s.backend) ==> UniquePerSource(s'.backend)
  {
    StepKeepsLocks(w, s, s', c, e);
    if e.Exchange? {
      ExchangeKeepsFacts(w, s, s', c, e.reply);
      ExchangeKeepsUnique(w, s, s', c, e.reply);
    } else if e.Land? {
      LandKeeps(w, s, s', e.index);
    } else {
      QuietKeeps(w, s, s', c, e);
    }
  }

  lemma {:induction false} InvInRun(w: World, run: seq<State>, i: nat)
    requires IsRun(w, run) && i < |run|
    ensures Inv(w, run[i])
    ensures KeepsNames(w) && UniqueSnapshotNames(run[0].backend) ==> UniqueSnapshotNames(run[i].backend)
    ensures KeepsPerSource(w) && UniquePerSource(run[0].backend) ==> UniquePerSource(run[i].backend)
  {
    if i > 0 {
      InvInRun(w, run, i - 1);
      assert StepAt(w, run, i);
      var c: nat, e :| StepBy(w, run[i - 1], run[i], c, e);
      StepKeeps(w, run[i - 1], run[i], c, e);
    }
  }

  // ---------------------------------------------------------------- what follows for runs

  ghost predicate KeepsSnapshotNamesUnique(w: World) {
    forall run: seq<State> | IsRun(w, run) && UniqueSnapshotNames(run[0].backend) ::
      UniqueSnapshotNames(run[|run| - 1].backend)
  }

  ghost predicate KeepsUniquePerSource(w: World) {
    forall run: seq<State> | IsRun(w, run) && UniquePerSource(run[0].backend) ::
      UniquePerSource(run[|run| - 1].backend)
  }

  /** A successful CreateSnapshot returns, as long as its result is there to see, the requested source. */
  lemma HitsMatchTheirSource(w: World, run: seq<State>, i: nat, c: nat)
    requires IsRun(w, run) && i < |run| && c in run[i].calls && SnapshotResultOf(run[i].calls[c])
    ensures run[i].calls[c].pc.result.source == run[i].calls[c].req.volumeId
  {
    InvInRun(w, run, i);
  }

  /** Call c, with call k, comes to a successful CreateSnapshot at step i. */
  ghost predicate Takes(w: World, run: seq<State>, i: nat, c: nat, k: Call) {
    ComesTo(w, run, i, c, k) && SnapshotResultOf(k)
  }

  lemma SuccessStep(w: World, s: State, s': State, d: nat, e: Event, c: nat, k: Call)
    requires Inv(w, s) && StepBy(w, s, s', d, e) && SnapshotResultOf(k) && k.pc.Leaving?
    requires c in s'.calls && s'.calls[c] == k && !(c in s.calls && s.calls[c] == k)
    ensures w.client ==> ResultIsThere(s'.backend, k)
    ensures !w.client ==> k.pc.result.id == "snap-" + k.req.name
  {
    if e.Exchange? {
      var before := s.calls[d];
      assert Checked(w, before);
      if before.pc.Write? {
        var id, size :| AddsSnapshot(s.backend, s'.backend, id, Snapshot(k.req.name, k.req.volumeId, size));
      } else if before.pc.ListSnapshots? && e.reply.SnapshotPage? {
        FirstNamedOf(e.reply.entries, k.req.name);
      }
    }
  }

  /**
   At the moment a CreateSnapshot succeeds, by whichever of its ways, the backend holds the snapshot
   it reports under the requested name and source.
   */
  lemma HitsMatchTheirRequest(w: World, run: seq<State>, i: nat, c: nat, k: Call)
    requires Takes(w, run, i, c, k)
    ensures w.client ==> ResultIsThere(run[i].backend, k)
    ensures !w.client ==> k.pc.result.id == "snap-" + k.req.name
    ensures k.pc.result.source == k.req.volumeId
  {
    InvInRun(w, run, i - 1);
    InvInRun(w, run, i);
    assert StepAt(w, run, i);
    var d: nat, e :| StepBy(w, run[i - 1], run[i], d, e);
    SuccessStep(w, run[i - 1], run[i], d, e, c, k);
    assert ResultFact(run[i].calls[c]);
  }

  lemma SnapshotKept(w: World, s: State, s': State, c: nat, e: Event, id: string)
    requires StepBy(w, s, s', c, e) && id in s.backend.snapshots && id in s'.backend.snapshots
    ensures s'.backend.snapshots[id] == s.backend.snapshots[id]
  {
  }

  lemma {:induction false} SnapshotStays(w: World, run: seq<State>, i: nat, j: nat, id: string)
    requires IsRun(w, run) && i <= j < |run| && SnapshotThroughout(run, i, j, id)
    ensures run[j].backend.snapshots[id] == run[i].backend.snapshots[id]
  {
    if i < j {
      SnapshotStays(w, run, i, j - 1, id);
      assert StepAt(w, run, j);
      var c: nat, e :| StepBy(w, run[j - 1], run[j], c, e);
      SnapshotKept(w, run[j - 1], run[j], c, e, id);
    }
  }

  // ---------------------------------------------------------------- worlds that allow duplicates

  /** A call for snapshot `name` of "v", given what the listing shows, gets as far as its CREATE. */
  lemma UntilSnapshot(w: World, before: seq<State>, c: nat, name: string, page: Reply) returns (run: seq<State>)
    requires IsRun(w, before) && Idle(Last(before)) && c !in Last(before).calls && w.client && name != ""
    requires var b, req := Last(before).backend, CreateSnapshot(name, "v");
      && "v" in b.volumes && b.volumes["v"].size == 0 && b.attachments == {}
      && (w.snapshotLookups ==> !SnapshotNameTaken(b, name))
      && Answers(req, ListSnapshots, page) && Reads(w, b, req, ListSnapshots, page)
    requires page.SnapshotPage? ==> FirstNamed(page.entries, name).None?
    ensures IsRun(w, run) && before < run
    ensures Last(run) == During(Last(before), c, CreateSnapshot(name, "v"), Write(0))
    ensures forall i | |before| <= i < |run| :: run[i].backend == Last(before).backend
  {
    var base, req := Last(before), CreateSnapshot(name, "v");
    var begun := Begin(w, before, c, req);
    var looked := Read(w, begun, base, c, req, Lookup, Failure(""));
    var listed := Read(w, looked, base, c, req, ListSnapshots, page);
    var info := VolumeInfo("v", 0, "", "");
    assert Float64(0) == 0;
    assert Describes(w, base.backend, "v", info);
    run := Read(w, listed, base, c, req, ReadSource, info);
    var i := |before|;
    assert run[i] == begun[i] && run[i + 1] == Last(begun) && run[i + 2] == Last(looked) && run[i + 3] == Last(listed);
  }

  /** The backend after a snapshot `name` of "v" has been taken. */
  function Taken(b: Backend, id: string, name: string): Backend {
    b.(snapshots := b.snapshots[id := Snapshot(name, "v", 0)])
  }

  /** A call that sees neither lookup nor listing creates its snapshot. */
  lemma DuplicatingRun(w: World, b: Backend, name: string, page: Reply) returns (run: seq<State>)
    requires w.client && !w.snapshotLookups && !w.refusesDuplicates && name != ""
    requires "v" in b.volumes && b.volumes["v"].size == 0 && b.attachments == {}
    requires Answers(CreateSnapshot(name, "v"), ListSnapshots, page)
    requires Reads(w, b, CreateSnapshot(name, "v"), ListSnapshots, page)
    requires page.SnapshotPage? ==> FirstNamed(page.entries, name).None?
    requires "new" !in b.snapshots && InBounds(w, b) && InBounds(w, Taken(b, "new", name))
    ensures IsRun(w, run) && run[0].backend == b && Last(run).backend == Taken(b, "new", name)
  {
    run := Fresh(w, b);
    var base := Last(run);
    run := UntilSnapshot(w, run, 0, name, page);
    assert AddsSnapshot(b, Taken(b, "new", name), "new", Snapshot(name, "v", 0));
    run := WriteOnce(w, run, base, 0, CreateSnapshot(name, "v"), Write(0), Failure(""), Taken(b, "new", name), []);
  }

  /** Leaving with a snapshot of "v" whose size is not known. */
  function Success(id: string): Pc {
    Leaving(SnapshotCreated(id, "v", 0))
  }

  function OneVolume(): Backend {
    Backend(map["v" := Volume("a", 0)], {}, map[])
  }

  /**
   A CREATE whose reply is lost is still under way when the call is repeated: nothing is found yet,
   and a second snapshot is taken.
   */
  lemma TakenWithOneUnderWay(w: World) returns (run: seq<State>, base: State)
    requires w.client && w.lateWrites && !w.refusesDuplicates
    ensures IsRun(w, run) && run[0].backend == OneVolume() && Last(run).backend == Taken(OneVolume(), "1", "n")
    ensures Last(run).underway == [CreateSnapshot("n", "v")]
    ensures Idle(base) && base.calls.Keys == {0}
    ensures Last(run) == During(base, 1, CreateSnapshot("n", "v"), Success("1"))
    ensures |run| > 1 && run[|run| - 2].calls == base.calls[1 := Call(CreateSnapshot("n", "v"), Write(0))]
  {
    var b, b' := OneVolume(), Taken(OneVolume(), "1", "n");
    var req, none := CreateSnapshot("n", "v"), SnapshotPage([]);
    FewSnapshotsFit(b, {});
    FewSnapshotsFit(b', {"1"});
    assert SnapshotsOf(b, "v") == {};
    run := Fresh(w, b);
    base := Last(run);
    run := UntilSnapshot(w, run, 0, "n", none);
    run := Abandon(w, run, base, 0, req, Write(0));
    base := Last(run);
    run := UntilSnapshot(w, run, 1, "n", none);
    assert AddsSnapshot(b, b', "1", Snapshot("n", "v", 0));
    run := WriteOnce(w, run, base, 1, req, Write(0), SnapshotInfo(SnapshotEntry("1", "n", "v", 0)), b', [req]);
    base := base.(backend := b');
  }

  /** Then the first one appears. */
  lemma LateSnapshotDuplicates(w: World)
    requires w.client && w.lateWrites && !w.refusesDuplicates
    ensures !KeepsSnapshotNamesUnique(w) && !KeepsUniquePerSource(w)
  {
    var run, _ := TakenWithOneUnderWay(w);
    var b := Last(run).backend;
    var b' := Taken(b, "2", "n");
    FewSnapshotsFit(b', {"1", "2"});
    assert AddsSnapshot(b, b', "2", Snapshot("n", "v", 0));
    run := LandOnly(w, run, CreateSnapshot("n", "v"), b');
    assert b'.snapshots["1"].name == b'.snapshots["2"].name;
  }

  function OtherSource(): Backend {
    Backend(map["v" := Volume("a", 0)], {}, map["old" := Snapshot("n", "u", 0)])
  }

  /** Listings only ever show the source's own snapshots: a namesake of another volume is missed. */
  lemma ListingMissesOtherSources(w: World)
    requires w.client && !w.snapshotLookups && !w.refusesDuplicates
    ensures !KeepsSnapshotNamesUnique(w)
  {
    var b := OtherSource();
    var b' := Taken(b, "new", "n");
    FewSnapshotsFit(b, {"old"});
    FewSnapshotsFit(b', {"old", "new"});
    assert SnapshotsOf(b, "v") == {};
    var run := DuplicatingRun(w, b, "n", SnapshotPage([]));
    assert b'.snapshots["old"].name == b'.snapshots["new"].name;
  }

  function SameSource(): Backend {
    Backend(map["v" := Volume("a", 0)], {}, map["old" := Snapshot("n", "v", 0)])
  }

  lemma FailedListingDuplicates(w: World)
    requires w.client && !w.snapshotLookups && !w.refusesDuplicates && !w.snapshotLists
    ensures !KeepsUniquePerSource(w)
  {
    var b := SameSource();
    var b' := Taken(b, "new", "n");
    FewSnapshotsFit(b, {"old"});
    FewSnapshotsFit(b', {"old", "new"});
    var run := DuplicatingRun(w, b, "n", Failure(""));
    assert b'.snapshots["old"].name == b'.snapshots["new"].name;
  }

  /** n snapshots of "v", named and identified by n different strings of x's. */
  predicate IsStock(m: map<string, Snapshot>, n: nat) {
    && |m| == n
    && (forall id | id in m :: 0 < |id| <= n && id == Xs(|id|) && m[id] == Snapshot(id, "v", 0))
    && forall i | 0 < i <= n :: Xs(i) in m
  }

  lemma {:induction false} SomeStock(n: nat) returns (m: map<string, Snapshot>)
    ensures IsStock(m, n)
  {
    if n == 0 {
      m := map[];
    } else {
      m := SomeStock(n - 1);
      assert |Xs(n)| == n && Xs(n) !in m;
      m := m[Xs(n) := Snapshot(Xs(n), "v", 0)];
    }
  }

  function Xs(n: nat): (s: string)
    ensures |s| == n && forall i | 0 <= i < n :: s[i] == 'x'
  {
    if n == 0 then "" else ['x'] + Xs(n - 1)
  }

  lemma NotInStock(m: map<string, Snapshot>, n: nat, id: string)
    requires IsStock(m, n) && id != "" && id[0] != 'x'
    ensures id !in m
  {
    assert Xs(|id|) != id;
  }

  function StockPage(): seq<SnapshotEntry> {
    seq(PAGE, i requires 0 <= i < PAGE => SnapshotEntry(Xs(i + 1), Xs(i + 1), "v", 0))
  }

  /** The entries of the page are distinct and in a stock of at least that many. */
  lemma StockPageShows(m: map<string, Snapshot>, n: nat)
    requires IsStock(m, n) && n >= PAGE
    ensures var entries := StockPage();
      && (forall i | 0 <= i < PAGE :: entries[i].id in m && m[entries[i].id] == Snapshot(entries[i].name, "v", 0))
      && (forall i | 0 <= i < PAGE :: entries[i].source == "v" && entries[i].id == entries[i].name == Xs(i + 1))
      && forall i, j | 0 <= i < j < PAGE :: entries[i].id != entries[j].id
  {
    var entries := StockPage();
    forall i, j | 0 <= i < j < PAGE ensures entries[i].id != entries[j].id {
      assert |entries[i].id| == i + 1;
    }
  }

  lemma {:induction false} NotOnPage(entries: seq<SnapshotEntry>, name: string)
    requires forall i | 0 <= i < |entries| :: entries[i].name != name
    ensures FirstNamed(entries, name).None?
  {
    if entries != [] {
      NotOnPage(entries[1..], name);
    }
  }

  /** The source has 101 snapshots, and the one asked for is not among the 100 on the page. */
  lemma SecondPageDuplicates(w: World)
    requires w.client && !w.snapshotLookups && !w.refusesDuplicates && w.snapshotLists && !w.pagesFit
    ensures !KeepsUniquePerSource(w)
  {
    var stock := SomeStock(PAGE + 1);
    var b := Backend(map["v" := Volume("a", 0)], {}, stock);
    var name := Xs(PAGE + 1);
    StockPageShows(stock, PAGE + 1);
    assert SnapshotsOf(b, "v") == stock.Keys;
    forall i | 0 <= i < PAGE ensures StockPage()[i].name != name {
      assert |StockPage()[i].name| == i + 1;
    }
    NotOnPage(StockPage(), name);
    NotInStock(stock, PAGE + 1, "new");
    var run := DuplicatingRun(w, b, name, SnapshotPage(StockPage()));
    var b' := Taken(b, "new", name);
    assert name in stock && b'.snapshots[name] == Snapshot(name, "v", 0) == b'.snapshots["new"];
    assert !UniquePerSource(b');
    assert UniquePerSource(b);
  }

  /**
   Names stay unique in every run if and only if the backend refuses duplicates, or lookups by name
   work and no CREATE takes effect after its call has returned (or there is no backend).
   */
  lemma SnapshotNamesUniqueIff(w: World)
    ensures KeepsSnapshotNamesUnique(w) <==>
      !w.client || w.refusesDuplicates || (w.snapshotLookups && !w.lateWrites)
  {
    if KeepsNames(w) {
      forall run: seq<State> | IsRun(w, run) && UniqueSnapshotNames(run[0].backend)
        ensures UniqueSnapshotNames(run[|run| - 1].backend)
      {
        InvInRun(w, run, |run| - 1);
      }
    } else if w.lateWrites {
      LateSnapshotDuplicates(w);
    } else {
      ListingMissesOtherSources(w);
    }
  }

  /**
   For names to stay unique per source volume it is also enough that listings work and every
   volume's snapshots fit the single page of 100 that is read.
   */
  lemma UniquePerSourceIff(w: World)
    ensures KeepsUniquePerSource(w) <==>
      || !w.client || w.refusesDuplicates
      || (!w.lateWrites && (w.snapshotLookups || (w.snapshotLists && w.pagesFit)))
  {
    if KeepsPerSource(w) {
      forall run: seq<State> | IsRun(w, run) && UniquePerSource(run[0].backend)
        ensures UniquePerSource(run[|run| - 1].backend)
      {
        InvInRun(w, run, |run| - 1);
      }
    } else if w.lateWrites {
      LateSnapshotDuplicates(w);
    } else if !w.snapshotLists {
      FailedListingDuplicates(w);
    } else {
      SecondPageDuplicates(w);
    }
  }
}

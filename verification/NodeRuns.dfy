/** Concrete runs of the node: which promises its guarantees cannot do without. */
module NodeRuns {
  import opened NodeModel
  import opened NodeData
  import opened NodeDevices
  import opened NodeStacks

  // ---------------------------------------------------------------- building runs

  ghost function Last(run: seq<State>): State
    requires run != []
  {
    run[|run| - 1]
  }

  /** The run goes on by one step, or by several, from where it stood. */
  ghost predicate Continues(w: World, before: seq<State>, run: seq<State>, locks: set<string>, n: Node, calls: map<nat, Call>) {
    && IsRun(w, before) && IsRun(w, run)
    && before < run && Last(run) == State(locks, n, calls)
  }

  /** Call c arrives and takes its lock. */
  lemma Start(w: World, before: seq<State>, c: nat, req: Request) returns (run: seq<State>)
    requires IsRun(w, before) && c !in Last(before).calls && Follows(w, req)
    requires !Malformed(req) && Key(req) !in Last(before).locks
    requires w.serial ==> forall d | d in Last(before).calls ::
      Last(before).calls[d].pc.Returned? || Last(before).calls[d].req.volume != req.volume
    ensures var s := Last(before);
      Continues(w, before, run, s.locks + {Key(req)}, s.node, s.calls[c := Call(req, AfterLock(req))])
  {
    var s := Last(before);
    PresentIsWithin(w, before);
    var s1 := s.(calls := s.calls[c := Call(req, Arrived)]);
    Extend(w, before, s1, c, Arrive(req));
    var s2 := State(s.locks + {Key(req)}, s.node, s.calls[c := Call(req, AfterLock(req))]);
    assert s2.calls == s1.calls[c := Call(req, AfterLock(req))];
    Extend(w, before + [s1], s2, c, Enter);
    run := before + [s1] + [s2];
  }

  /** Call c makes its next system call. */
  lemma Do(w: World, before: seq<State>, c: nat, o: Outcome, n': Node) returns (run: seq<State>)
    requires IsRun(w, before) && c in Last(before).calls
    requires var k := Last(before).calls[c];
      Fits(k.req, k.pc, o) && Effect(w, Last(before).node, n', k.req, k.pc, o)
    ensures var s, k := Last(before), Last(before).calls[c];
      && Continues(w, before, run, s.locks, n', s.calls[c := Call(k.req, After(k.req, k.pc, o))])
      && |run| == |before| + 1 && StepBy(w, s, Last(run), c, Act(o))
  {
    var s, k := Last(before), Last(before).calls[c];
    PresentIsWithin(w, before);
    var s' := State(s.locks, n', s.calls[c := Call(k.req, After(k.req, k.pc, o))]);
    Extend(w, before, s', c, Act(o));
    run := before + [s'];
  }

  /** Call c gives its lock up and returns. */
  lemma Finish(w: World, before: seq<State>, c: nat) returns (run: seq<State>)
    requires IsRun(w, before) && c in Last(before).calls && Last(before).calls[c].pc.Leaving?
    ensures var s, k := Last(before), Last(before).calls[c];
      Continues(w, before, run, s.locks - {Key(k.req)}, s.node, s.calls[c := Call(k.req, Returned(k.pc.result))])
  {
    var s, k := Last(before), Last(before).calls[c];
    PresentIsWithin(w, before);
    var s' := State(s.locks - {Key(k.req)}, s.node, s.calls[c := Call(k.req, Returned(k.pc.result))]);
    Extend(w, before, s', c, Return);
    run := before + [s'];
  }

  /** A step of the surroundings. */
  lemma Surroundings(w: World, before: seq<State>, e: Event, n': Node) returns (run: seq<State>)
    requires IsRun(w, before)
    requires (e.Land? && Lands(Last(before).node, n', e.index)) || (e.Work? && Works(Last(before).node, n', e.device))
    ensures Continues(w, before, run, Last(before).locks, n', Last(before).calls)
  {
    var s := Last(before);
    PresentIsWithin(w, before);
    Extend(w, before, s.(node := n'), 0, e);
    run := before + [s.(node := n')];
  }

  /** A stage call gets as far as its probe. */
  lemma StageUntilProbe(w: World, before: seq<State>, c: nat, req: Request) returns (run: seq<State>)
    requires IsRun(w, before) && c !in Last(before).calls
    requires !Malformed(req) && req.Stage? && req.device != "" && req.mountCap && Follows(w, req)
    requires Key(req) !in Last(before).locks
    requires w.serial ==> forall x | x in Last(before).calls ::
      Last(before).calls[x].pc.Returned? || Last(before).calls[x].req.volume != req.volume
    requires var n := Last(before).node; req.path in n.dirs && Stack(n, req.path) == []
    ensures var s := Last(before);
      Continues(w, before, run, s.locks + {Key(req)}, s.node, s.calls[c := Call(req, Probe)])
  {
    var s := Last(before);
    run := Start(w, before, c, req);
    run := Do(w, run, c, Succeeded, s.node);
    run := Do(w, run, c, NotMounted, s.node);
    run := Do(w, run, c, Succeeded, s.node);
    assert Last(run).calls == s.calls[c := Call(req, Probe)];
  }

  /** ... and on to its mount, or to mkfs when the device is blank. */
  lemma StageUntilMount(w: World, before: seq<State>, c: nat, v: string, p: string, d: string) returns (run: seq<State>)
    requires IsRun(w, before) && c !in Last(before).calls
    requires MayStage(w, v, p, d) && LockKey(v, p) !in Last(before).locks
    requires w.serial ==> forall x | x in Last(before).calls ::
      Last(before).calls[x].pc.Returned? || Last(before).calls[x].req.volume != v
    requires var n := Last(before).node; d in n.disks && p in n.dirs && Stack(n, p) == []
    ensures var s, req := Last(before), Stage(v, p, d, true, true, "");
      Continues(w, before, run, s.locks + {LockKey(v, p)}, s.node,
                s.calls[c := Call(req, if s.node.disks[d].fs == "" then Mkfs else Mount)])
  {
    var s, req := Last(before), Stage(v, p, d, true, true, "");
    run := StageUntilProbe(w, before, c, req);
    run := Do(w, run, c, Filesystem(s.node.disks[d].fs), s.node);
    assert Last(run).calls == s.calls[c := Call(req, if s.node.disks[d].fs == "" then Mkfs else Mount)];
  }

  /** An unstage call gets as far as RemoveAll on a path that carried one mount. */
  lemma UnstageUntilRemove(w: World, before: seq<State>, c: nat, v: string, p: string) returns (run: seq<State>)
    requires IsRun(w, before) && c !in Last(before).calls
    requires v != "" && p != "" && LockKey(v, p) !in Last(before).locks && Follows(w, Unstage(v, p))
    requires w.serial ==> forall x | x in Last(before).calls ::
      Last(before).calls[x].pc.Returned? || Last(before).calls[x].req.volume != v
    requires |Stack(Last(before).node, p)| == 1
    ensures var s, n := Last(before), Last(before).node;
      Continues(w, before, run, s.locks + {LockKey(v, p)}, n.(mounts := n.mounts[p := []]),
                s.calls[c := Call(Unstage(v, p), RemoveAll)])
  {
    var s, n := Last(before), Last(before).node;
    var n' := n.(mounts := n.mounts[p := []]);
    run := Start(w, before, c, Unstage(v, p));
    run := Do(w, run, c, Mounted, n);
    assert Stack(n, p)[..0] == [];
    run := Do(w, run, c, Succeeded, n');
    assert Last(run).calls == s.calls[c := Call(Unstage(v, p), RemoveAll)];
  }

  /** A publish call gets as far as its bind mount. */
  lemma PublishUntilBind(w: World, before: seq<State>, c: nat, v: string, t: string, p: string) returns (run: seq<State>)
    requires IsRun(w, before) && c !in Last(before).calls
    requires v != "" && p != "" && t != "" && LockKey(v, t) !in Last(before).locks
    requires Follows(w, Publish(v, t, p, true))
    requires w.serial ==> forall x | x in Last(before).calls ::
      Last(before).calls[x].pc.Returned? || Last(before).calls[x].req.volume != v
    requires var n := Last(before).node; Stack(n, p) != [] && Stack(n, t) == [] && t in n.dirs
    ensures var s := Last(before);
      Continues(w, before, run, s.locks + {LockKey(v, t)}, s.node, s.calls[c := Call(Publish(v, t, p, true), Bind)])
  {
    var s, n := Last(before), Last(before).node;
    run := Start(w, before, c, Publish(v, t, p, true));
    run := Do(w, run, c, Mounted, n);
    run := Do(w, run, c, NotMounted, n);
    run := Do(w, run, c, Succeeded, n);
    assert Last(run).calls == s.calls[c := Call(Publish(v, t, p, true), Bind)];
  }

  lemma PushOnEmpty(n: Node, p: string, what: Shown)
    requires Stack(n, p) == []
    ensures Push(n, p, what) == n.(mounts := n.mounts[p := [what]])
  {
    assert Stack(n, p) + [what] == [what];
  }

  /** The only mount under way lands. */
  lemma LandsAlone(n: Node, n': Node, d: string, p: string)
    requires n.pending == [Pending(d, p)] && d in n.disks && p in n.dirs && n.landed == map[]
    requires n' == n.(mounts := n.mounts[p := Stack(n, p) + [Device(d)]], pending := [], landed := map[p := 1])
    ensures Lands(n, n', 0)
  {
    assert n.pending[..0] + n.pending[1..] == [];
  }

  // ---------------------------------------------------------------- late mounts

  /** The device holds data, the staging path exists, nothing is mounted. */
  function Stored(p: string, d: string): Node {
    Node(map[], map[d := Disk("ext4", {"data"})], {p}, [], map[])
  }

  /** A first stage call times out, a second one mounts: one mount is still under way. */
  lemma StagedWithOneUnderWay(w: World, v: string, p: string, d: string) returns (run: seq<State>)
    requires w.late && MayStage(w, v, p, d)
    ensures IsRun(w, run) && Last(run).locks == {} && Last(run).calls.Keys == {0, 1}
    ensures forall c | c in Last(run).calls :: Last(run).calls[c].pc.Returned?
    ensures Last(run).node == Stored(p, d).(mounts := map[p := [Device(d)]], pending := [Pending(d, p)])
  {
    var n := Stored(p, d);
    var timedOut := n.(pending := [Pending(d, p)]);
    var mounted := timedOut.(mounts := map[p := [Device(d)]]);
    run := [State({}, n, map[])];
    run := StageUntilMount(w, run, 0, v, p, d);
    run := Do(w, run, 0, TimedOut, timedOut);
    run := Finish(w, run, 0);
    run := StageUntilMount(w, run, 1, v, p, d);
    PushOnEmpty(timedOut, p, Device(d));
    run := Do(w, run, 1, Succeeded, mounted);
    run := Finish(w, run, 1);
  }

  /** The device after its second mount has landed. */
  function LandedLate(p: string, d: string): Node {
    Stored(p, d).(mounts := map[p := [Device(d)]], landed := map[p := 1])
  }

  /** Unstaging unmounts the one mount, and the other lands before RemoveAll. */
  lemma LandsBeforeRemoveAll(w: World, v: string, p: string, d: string) returns (run: seq<State>)
    requires w.late && MayStage(w, v, p, d)
    ensures IsRun(w, run) && Last(run).node == LandedLate(p, d)
    ensures 2 in Last(run).calls && Last(run).calls[2] == Call(Unstage(v, p), RemoveAll)
  {
    run := StagedWithOneUnderWay(w, v, p, d);
    var mounted := Last(run).node;
    var unmounted := mounted.(mounts := map[p := []]);
    run := UnstageUntilRemove(w, run, 2, v, p);
    assert mounted.mounts[p := []] == unmounted.mounts;
    assert Stack(unmounted, p) + [Device(d)] == [Device(d)];
    LandsAlone(unmounted, LandedLate(p, d), d, p);
    run := Surroundings(w, run, Land(0), LandedLate(p, d));
  }

  /** RemoveAll runs through it. */
  lemma LateMountsLoseData(w: World, v: string, p: string, d: string)
    requires w.late && MayStage(w, v, p, d)
    ensures !NeverLosesData(w)
  {
    var before := LandsBeforeRemoveAll(w, v, p, d);
    var landed := LandedLate(p, d);
    var emptied := landed.(disks := map[d := Disk("ext4", {})]);
    assert landed.mounts[p][0] == Device(d);
    assert VisibleUnder(landed, p, d);
    var run := Do(w, before, 2, Succeeded, emptied);
    LosesData(w, before, run, 2, Act(Succeeded), d);
  }

  lemma LosesData(w: World, before: seq<State>, run: seq<State>, c: nat, e: Event, d: string)
    requires IsRun(w, run) && before < run && before != [] && |run| == |before| + 1
    requires StepBy(w, Last(before), Last(run), c, e) && !e.Work?
    requires d in Last(before).node.disks && d in Last(run).node.disks
    requires Last(run).node.disks[d].files != Last(before).node.disks[d].files
    ensures !NeverLosesData(w)
  {
    var i := |before|;
    assert run[i - 1] == Last(before) && run[i] == Last(run);
    assert DriverStep(w, run, i, c, e) && !KeepsData(run[i - 1].node, run[i].node);
  }

  // ---------------------------------------------------------------- one device, two paths

  /**
   Two stage calls of one blank device at different paths both find no filesystem; the first
   formats and mounts, a workload stores a file, and the second formats again.
   */
  lemma TwoHomesLoseData(w: World, u: string, p: string, v: string, q: string, d: string)
    requires MayShareAt(w, u, p, v, q, d)
    ensures !NeverLosesData(w)
  {
    var n := Node(map[], map[d := Disk("", {})], {p, q}, [], map[]);
    var formatted := n.(disks := map[d := Disk("ext4", {})]);
    var mounted := formatted.(mounts := map[p := [Device(d)]]);
    var used := mounted.(disks := map[d := Disk("ext4", {"data"})]);
    var run := [State({}, n, map[])];
    run := StageUntilMount(w, run, 0, u, p, d);
    run := StageUntilMount(w, run, 1, v, q, d);
    run := Do(w, run, 0, Succeeded, formatted);
    PushOnEmpty(formatted, p, Device(d));
    run := Do(w, run, 0, Succeeded, mounted);
    run := Surroundings(w, run, Work(d), used);
    var before := run;
    run := Do(w, run, 1, Succeeded, mounted);
    LosesData(w, before, run, 1, Act(Succeeded), d);
  }

  // ---------------------------------------------------------------- a missed filesystem

  /** The probe takes a device with data for blank, and the stage call formats it. */
  lemma MisreadLosesData(w: World, v: string, p: string, d: string)
    requires !w.probes && MayStage(w, v, p, d)
    ensures !NeverLosesData(w)
  {
    var n := Stored(p, d);
    var before := StageUntilProbe(w, [State({}, n, map[])], 0, Stage(v, p, d, true, true, ""));
    before := Do(w, before, 0, Filesystem(""), n);
    var run := Do(w, before, 0, Succeeded, n.(disks := map[d := Disk("ext4", {})]));
    LosesData(w, before, run, 0, Act(Succeeded), d);
  }

  // ---------------------------------------------------------------- nested paths

  /** Something else is mounted below the path that is unstaged: RemoveAll runs through its mount. */
  lemma NestedPathsLoseData(w: World, p: string, q: string)
    requires p in w.owner && (q in w.owner || w.foreign) && Under(p, q) && p != "" && w.owner[p] != ""
    ensures !NeverLosesData(w)
  {
    var v := w.owner[p];
    assert p != q;
    var n := Node(map[p := [Device("x")], q := [Device("y")]],
                  map["x" := Disk("ext4", {}), "y" := Disk("ext4", {"data"})], {p, q}, [], map[]);
    var unmounted := n.(mounts := map[p := [], q := [Device("y")]]);
    var emptied := unmounted.(disks := map["x" := Disk("ext4", {}), "y" := Disk("ext4", {})]);
    var run := [State({}, n, map[])];
    run := UnstageUntilRemove(w, run, 0, v, p);
    assert n.mounts[p := []] == unmounted.mounts;
    assert unmounted.mounts[q][0] == Device("y");
    assert VisibleUnder(unmounted, p, "y");
    var before := run;
    run := Do(w, run, 0, Succeeded, emptied);
    LosesData(w, before, run, 0, Act(Succeeded), "y");
  }

  /**
   The driver never destroys data, in any run, if and only if no mount can land late, no probe of a
   device that is staged can miss its filesystem, nothing can be mounted below a path in use and no
   device can be staged at two paths at once.
   */
  lemma DataSafetyIff(w: World)
    ensures NeverLosesData(w) <==> Safe(w)
  {
    if Safe(w) {
      DriverKeepsData(w);
    } else if MayLand(w) {
      var v, p, d :| MayStage(w, v, p, d);
      LateMountsLoseData(w, v, p, d);
    } else if MayMisread(w) {
      var v, p, d :| MayStage(w, v, p, d);
      MisreadLosesData(w, v, p, d);
    } else if MayShelter(w) {
      var p :| p in w.owner && p != "" && w.owner[p] != "";
      NestedPathsLoseData(w, p, p + "/x");
    } else if MayNest(w) {
      var p, q :| p in w.owner && q in w.owner && Under(p, q) && p != "" && w.owner[p] != "";
      NestedPathsLoseData(w, p, q);
    } else {
      var u, p, v, q, d :| MayShareAt(w, u, p, v, q, d);
      TwoHomesLoseData(w, u, p, v, q, d);
    }
  }

  // ---------------------------------------------------------------- a device of another volume

  /** A volume is staged from a device that is not its own. */
  lemma ForeignDeviceShows(w: World, v: string, p: string, d: string)
    requires MayStage(w, v, p, d) && !(v in w.device && w.device[v] == d)
    ensures !AlwaysShowsOwn(w)
  {
    var n := Stored(p, d);
    var mounted := n.(mounts := map[p := [Device(d)]]);
    var run := [State({}, n, map[])];
    run := StageUntilMount(w, run, 0, v, p, d);
    PushOnEmpty(n, p, Device(d));
    run := Do(w, run, 0, Succeeded, mounted);
    NotShown(w, run, p, Device(d));
  }

  // ---------------------------------------------------------------- two calls for one volume

  /** The node while volume v, with device d, is staged at p and to be published at t. */
  function StagedAt(p: string, t: string, d: string): Node {
    Node(map[p := [Device(d)]], map[d := Disk("ext4", {})], {p, t}, [], map[])
  }

  /**
   A publish call finds the staging path mounted, and an unstage call of the same volume unmounts
   it.
   */
  lemma UnstagedWhilePublishing(w: World, v: string, p: string, t: string) returns (run: seq<State>)
    requires !w.serial && MayPublish(w, v, t, p)
    ensures var n := StagedAt(p, t, w.device[v]);
      && IsRun(w, run) && run[0].node == n && Last(run).node == n.(mounts := map[p := []])
      && 0 in Last(run).calls && Last(run).calls[0] == Call(Publish(v, t, p, true), Bind)
  {
    assert LockKey(v, p)[|v| + 1..] == p && LockKey(v, t)[|v| + 1..] == t;
    var n := StagedAt(p, t, w.device[v]);
    run := [State({}, n, map[])];
    run := PublishUntilBind(w, run, 0, v, t, p);
    run := UnstageUntilRemove(w, run, 1, v, p);
    assert n.mounts[p := []] == map[p := []];
  }

  /** The publish call binds what is left, a directory of the host, and reports success. */
  lemma ParallelCallsShowDirectory(w: World, v: string, p: string, t: string)
    requires !w.serial && MayPublish(w, v, t, p)
    ensures !AlwaysShowsOwn(w)
  {
    var before := UnstagedWhilePublishing(w, v, p, t);
    var unmounted := Last(before).node;
    PushOnEmpty(unmounted, t, Directory);
    var run := Do(w, before, 0, Succeeded, Push(unmounted, t, Directory));
    NotShown(w, run, t, Directory);
  }

  lemma NotShown(w: World, run: seq<State>, path: string, what: Shown)
    requires IsRun(w, run) && ShowsOwn(w, run[0].node)
    requires path in w.owner && Stack(Last(run).node, path) == [what] && !Own(w, path, what)
    ensures !AlwaysShowsOwn(w)
  {
    var i := |run| - 1;
    assert !Own(w, path, run[i].node.mounts[path][0]);
    assert !ShowsOwn(w, run[i].node);
  }

  /**
   Every path in use always shows its own volume, in every run, if and only if volumes can only be staged
   from their own devices and no publish call can meet another call of its volume.
   */
  lemma ShowsOwnIff(w: World)
    ensures AlwaysShowsOwn(w) <==> Faithful(w)
  {
    if Faithful(w) {
      PathsShowTheirVolume(w);
    } else if MayMisstage(w) {
      var v, p, d :| MayStage(w, v, p, d) && !(v in w.device && w.device[v] == d);
      ForeignDeviceShows(w, v, p, d);
    } else {
      var v, t, p :| MayPublish(w, v, t, p);
      ParallelCallsShowDirectory(w, v, p, t);
    }
  }

  // ---------------------------------------------------------------- the stack bound is tight

  /** A second mount can end up on a path that carries one: the bound on stacks is reached. */
  lemma LateMountsStack(w: World, v: string, p: string, d: string) returns (run: seq<State>)
    requires w.late && MayStage(w, v, p, d)
    ensures IsRun(w, run) && Landed(Last(run).node, p) == 1 && |Stack(Last(run).node, p)| == 2
  {
    run := StagedWithOneUnderWay(w, v, p, d);
    var n := Last(run).node;
    var stacked := n.(mounts := map[p := [Device(d), Device(d)]], pending := [], landed := map[p := 1]);
    assert Stack(n, p) + [Device(d)] == [Device(d), Device(d)];
    LandsAlone(n, stacked, d, p);
    run := Surroundings(w, run, Land(0), stacked);
  }

  /** In no state of any run does a path carry two mounts. */
  ghost predicate NeverStacks(w: World) {
    forall run: seq<State>, i: nat, p: string | IsRun(w, run) && i < |run| :: |Stack(run[i].node, p)| <= 1
  }

  /** Mounts never pile up, in any run, if and only if no mount can land late. */
  lemma NeverStacksIff(w: World)
    ensures NeverStacks(w) <==> !MayLand(w)
  {
    if MayLand(w) {
      var v, p, d :| MayStage(w, v, p, d);
      var run := LateMountsStack(w, v, p, d);
      assert |Stack(run[|run| - 1].node, p)| == 2;
    } else {
      forall run: seq<State>, i: nat, p: string | IsRun(w, run) && i < |run| ensures |Stack(run[i].node, p)| <= 1 {
        NoLateMountsNoStacks(w, run, i);
      }
    }
  }
}

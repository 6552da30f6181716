/** The node service never destroys what a workload has stored. */
module NodeData {
  import opened NodeModel
  import opened NodeLocks
  import Stacks = NodeStacks

  /** A step that loses nothing: no file goes, and no filesystem is replaced. */
  ghost predicate KeepsData(n: Node, n': Node) {
    && n'.disks.Keys == n.disks.Keys
    && forall d | d in n.disks ::
      n'.disks[d].files == n.disks[d].files && (n.disks[d].fs != "" ==> n'.disks[d].fs == n.disks[d].fs)
  }

  /** A disk without a filesystem holds no files. */
  predicate Bare(n: Node) {
    forall d | d in n.disks && n.disks[d].fs == "" :: n.disks[d].files == {}
  }

  predicate Blank(n: Node, device: string) {
    device in n.disks ==> n.disks[device].fs == ""
  }

  /** Between the probe that found no filesystem and mkfs, none appears. */
  predicate Fact(n: Node, k: Call) {
    k.req.Stage? && k.pc.Mkfs? ==> Blank(n, k.req.device)
  }

  ghost predicate Facts(s: State) {
    forall c | c in s.calls :: Fact(s.node, s.calls[c])
  }

  /**
   Nothing that can go wrong is possible: no late mounts, no misread or shared devices, and nothing
   mounted below a path in use.
   */
  ghost predicate Safe(w: World) {
    !MayLand(w) && !MayMisread(w) && !MayShare(w) && !MayNest(w) && !MayShelter(w)
  }

  ghost predicate Inv(w: World, s: State) {
    Stacks.Inv(w, s) && Bare(s.node) && Facts(s)
  }

  /** Only mkfs gives a disk another filesystem type, and only the handler's own device. */
  lemma EffectOnDisks(w: World, n: Node, n': Node, k: Call, o: Outcome)
    requires Fits(k.req, k.pc, o) && Effect(w, n, n', k.req, k.pc, o) && Fact(n, k)
    requires Checked(k) && Holds(k) && Follows(w, k.req) && !MayMisread(w)
    ensures forall d | !(k.pc.Mkfs? && d == k.req.device) :: Blank(n, d) ==> Blank(n', d)
    ensures Fact(n', k.(pc := After(k.req, k.pc, o)))
  {
    if k.pc.Probe? {
      StagesAsPromised(w, k);
    }
  }

  /** Two calls about to format one device stage it at one path, so they are the same call. */
  lemma OneFormatter(w: World, s: State, c: nat, d: nat)
    requires Inv(w, s) && !MayShare(w) && c in s.calls && d in s.calls
    requires s.calls[c].pc.Mkfs? && s.calls[d].pc.Mkfs? && s.calls[c].req.Stage? && s.calls[d].req.Stage?
    requires s.calls[c].req.device == s.calls[d].req.device
    ensures c == d
  {
    var k, l := s.calls[c], s.calls[d];
    StagesAsPromised(w, k);
    StagesAsPromised(w, l);
    if k.req.path == l.req.path {
      OnePathOneCall(w, s, c, d);
    } else {
      assert !MayShareAt(w, k.req.volume, k.req.path, l.req.volume, l.req.path, k.req.device);
    }
  }

  /** With no late mounts and no paths nested, RemoveAll never sees a mount. */
  lemma RemoveAllSeesNothing(w: World, s: State, c: nat, device: string)
    requires Stacks.Inv(w, s) && !MayLand(w) && !MayNest(w) && !MayShelter(w) && c in s.calls && s.calls[c].pc.RemoveAll?
    ensures !VisibleUnder(s.node, s.calls[c].req.path, device)
  {
    var path := s.calls[c].req.path;
    assert Stacks.Fact(s.node, s.calls[c]) && Follows(w, s.calls[c].req) && Checked(s.calls[c]);
    assert Stack(s.node, path) == [];
    assert forall q | q in s.node.mounts :: q in w.owner || w.foreign;
  }

  lemma EffectKeepsData(w: World, n: Node, n': Node, k: Call, o: Outcome)
    requires Fits(k.req, k.pc, o) && Effect(w, n, n', k.req, k.pc, o)
    requires Bare(n) && Fact(n, k)
    requires k.pc.RemoveAll? ==> forall d | d in n.disks :: !VisibleUnder(n, k.req.path, d)
    requires Holds(k)
    ensures KeepsData(n, n') && Bare(n')
  {
  }

  lemma ActKeeps(w: World, s: State, s': State, c: nat, o: Outcome)
    requires Inv(w, s) && Acts(w, s, s', c, o) && Safe(w)
    ensures KeepsData(s.node, s'.node) && Bare(s'.node) && Facts(s')
  {
    var k := s.calls[c];
    assert Fact(s.node, k);
    if k.pc.RemoveAll? {
      forall d | d in s.node.disks ensures !VisibleUnder(s.node, k.req.path, d) {
        RemoveAllSeesNothing(w, s, c, d);
      }
    }
    EffectKeepsData(w, s.node, s'.node, k, o);
    EffectOnDisks(w, s.node, s'.node, k, o);
    forall d | d in s'.calls && d != c ensures Fact(s'.node, s'.calls[d]) {
      assert Fact(s.node, s.calls[d]);
      if s.calls[d].req.Stage? && s.calls[d].pc.Mkfs? && k.pc.Mkfs? && s.calls[d].req.device == k.req.device {
        OneFormatter(w, s, c, d);
      }
    }
  }

  /** The other steps change no disk, except that a workload writes files where there is a filesystem. */
  lemma QuietStep(w: World, s: State, s': State, c: nat, e: Event)
    requires StepBy(w, s, s', c, e) && !e.Act?
    ensures e.Work? || s'.node.disks == s.node.disks
    ensures e.Work? ==> s'.calls == s.calls && s'.node == s.node.(disks := s'.node.disks) && Works(s.node, s'.node, e.device)
    ensures forall d | d in s'.calls && !(d in s.calls && s.calls[d] == s'.calls[d]) ::
      s'.calls[d].pc.Arrived? || s'.calls[d].pc.Returned? || s'.calls[d].pc == AfterLock(s'.calls[d].req)
  {
  }

  lemma StepKeeps(w: World, s: State, s': State, c: nat, e: Event)
    requires Inv(w, s) && StepBy(w, s, s', c, e) && Within(w, s') && Safe(w)
    ensures Inv(w, s')
    ensures e.Work? || KeepsData(s.node, s'.node)
  {
    Stacks.StepKeeps(w, s, s', c, e);
    if e.Act? {
      ActKeeps(w, s, s', c, e.outcome);
    } else {
      QuietStep(w, s, s', c, e);
      forall d | d in s'.calls ensures Fact(s'.node, s'.calls[d]) {
        assert d in s.calls ==> Fact(s.node, s.calls[d]);
      }
    }
  }

  lemma {:induction false} InvInRun(w: World, run: seq<State>, i: nat)
    requires IsRun(w, run) && i < |run| && Safe(w)
    ensures Inv(w, run[i])
  {
    if i > 0 {
      InvInRun(w, run, i - 1);
      assert StepAt(w, run, i);
      var c: nat, e :| StepBy(w, run[i - 1], run[i], c, e);
      StepKeeps(w, run[i - 1], run[i], c, e);
    } else {
      Stacks.InvInRun(w, run, 0);
    }
  }

  /** Step i of the run is one of the driver's, or of a mount it has started. */
  ghost predicate DriverStep(w: World, run: seq<State>, i: nat, c: nat, e: Event) {
    IsRun(w, run) && 0 < i < |run| && StepBy(w, run[i - 1], run[i], c, e) && !e.Work?
  }

  /** In no run does a step other than a workload's own lose data. */
  ghost predicate NeverLosesData(w: World) {
    forall run: seq<State>, i: nat, c: nat, e: Event | DriverStep(w, run, i, c, e) :: KeepsData(run[i - 1].node, run[i].node)
  }

  /**
   The driver never destroys volume contents: when no mount can land late, no probe misses a
   filesystem, nothing is mounted below a path in use and no device can be staged at two paths at
   once (and each path serves one volume), no step of any handler removes a file or formats a disk
   that has a filesystem, in any run, whichever calls fail.
   */
  lemma DriverKeepsData(w: World)
    requires Safe(w)
    ensures NeverLosesData(w)
  {
    forall run: seq<State>, i: nat, c: nat, e: Event | DriverStep(w, run, i, c, e) ensures KeepsData(run[i - 1].node, run[i].node) {
      InvInRun(w, run, i - 1);
      assert StepAt(w, run, i);
      StepKeeps(w, run[i - 1], run[i], c, e);
    }
  }
}

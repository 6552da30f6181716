/** What a path shows: the device of the volume it belongs to. */
module NodeDevices {
  import opened NodeModel
  import opened NodeLocks

  /** The path is used for a volume with a known device, and the mount shows that device. */
  predicate Own(w: World, path: string, what: Shown) {
    && path in w.owner && w.owner[path] in w.device
    && what == Device(w.device[w.owner[path]])
  }

  ghost predicate ShowsOwn(w: World, n: Node) {
    && (forall p, i | p in n.mounts && p in w.owner && 0 <= i < |n.mounts[p]| :: Own(w, p, n.mounts[p][i]))
    && (forall i | 0 <= i < |n.pending| :: Own(w, n.pending[i].path, Device(n.pending[i].device)))
  }

  /** A publish call past its first check, and a stage or publish call that succeeds. */
  predicate Fact(n: Node, k: Call) {
    && (k.req.Publish? && (k.pc.Inspect? || k.pc.MakeDirs? || k.pc.Bind?) ==> Stack(n, k.req.staging) != [])
    && (k.pc == Leaving(Ok) && (k.req.Stage? || k.req.Publish?) ==> Stack(n, k.req.path) != [])
  }

  ghost predicate Facts(s: State) {
    forall c | c in s.calls :: Fact(s.node, s.calls[c])
  }

  /** Volumes are staged from their own devices, and no publish call meets another of its volume. */
  ghost predicate Faithful(w: World) {
    !MayMisstage(w) && !MayOverlap(w)
  }

  ghost predicate Inv(w: World, s: State) {
    LockInv(s) && Within(w, s) && ShowsOwn(w, s.node) && Facts(s)
  }

  lemma VisibleIsOwn(w: World, n: Node, path: string)
    requires ShowsOwn(w, n) && Stack(n, path) != [] && path in w.owner
    ensures Own(w, path, Visible(n, path))
  {
  }

  lemma EffectShowsOwn(w: World, n: Node, n': Node, k: Call, o: Outcome)
    requires Fits(k.req, k.pc, o) && Effect(w, n, n', k.req, k.pc, o)
    requires ShowsOwn(w, n) && Fact(n, k) && Follows(w, k.req) && Checked(k) && Holds(k) && !MayMisstage(w)
    ensures ShowsOwn(w, n')
  {
    if k.pc.Bind? {
      VisibleIsOwn(w, n, k.req.staging);
    } else if k.pc.Mount? {
      StagesAsPromised(w, k);
      assert Own(w, k.req.path, Device(k.req.device));
    }
  }

  lemma EffectFact(w: World, n: Node, n': Node, k: Call, o: Outcome)
    requires Fits(k.req, k.pc, o) && Effect(w, n, n', k.req, k.pc, o) && Fact(n, k) && Holds(k)
    ensures Fact(n', k.(pc := After(k.req, k.pc, o)))
  {
  }

  /** A handler empties no path but its own. */
  lemma EffectElsewhere(w: World, n: Node, n': Node, k: Call, o: Outcome, path: string)
    requires Fits(k.req, k.pc, o) && Effect(w, n, n', k.req, k.pc, o)
    requires path != k.req.path && Stack(n, path) != []
    ensures Stack(n', path) != []
  {
  }

  /** A staging path that a publish call relies on is its own path, unless calls come one at a time. */
  lemma StagingIsSafe(w: World, n: Node, k: Call)
    requires ShowsOwn(w, n) && Fact(n, k) && Follows(w, k.req) && Checked(k) && !MayOverlap(w)
    requires k.req.Publish? && (k.pc.Inspect? || k.pc.MakeDirs? || k.pc.Bind?)
    ensures w.serial || k.req.staging == k.req.path
  {
    VisibleIsOwn(w, n, k.req.staging);
    assert w.serial || !MayPublish(w, k.req.volume, k.req.path, k.req.staging);
  }

  lemma OtherFact(w: World, s: State, s': State, c: nat, o: Outcome, d: nat)
    requires Inv(w, s) && Acts(w, s, s', c, o) && !MayOverlap(w) && d in s.calls && d != c
    ensures Fact(s'.node, s.calls[d])
  {
    var k, other := s.calls[c], s.calls[d];
    assert Fact(s.node, other) && Follows(w, k.req) && Follows(w, other.req) && Checked(other);
    if Holds(other) {
      assert other.req.path != k.req.path by {
        if other.req.path == k.req.path {
          OnePathOneCall(w, s, c, d);
        }
      }
      if Stack(s.node, other.req.path) != [] {
        EffectElsewhere(w, s.node, s'.node, k, o, other.req.path);
      }
      if other.req.Publish? && (other.pc.Inspect? || other.pc.MakeDirs? || other.pc.Bind?) {
        StagingIsSafe(w, s.node, other);
        assert other.req.staging != k.req.path;
        EffectElsewhere(w, s.node, s'.node, k, o, other.req.staging);
      }
    }
  }

  lemma LandKeeps(w: World, s: State, s': State, i: nat)
    requires Inv(w, s) && s' == s.(node := s'.node) && Lands(s.node, s'.node, i)
    ensures ShowsOwn(w, s'.node) && Facts(s')
  {
    assert Own(w, s.node.pending[i].path, Device(s.node.pending[i].device));
    forall p ensures Stack(s.node, p) != [] ==> Stack(s'.node, p) != [] {
    }
    forall c | c in s'.calls ensures Fact(s'.node, s'.calls[c]) {
      assert Fact(s.node, s.calls[c]);
    }
  }

  lemma QuietStep(w: World, s: State, s': State, c: nat, e: Event)
    requires StepBy(w, s, s', c, e) && !e.Act? && !e.Land?
    ensures s'.node.mounts == s.node.mounts && s'.node.pending == s.node.pending
    ensures forall d | d in s'.calls && !(d in s.calls && s.calls[d] == s'.calls[d]) ::
      s'.calls[d].pc.Arrived? || s'.calls[d].pc.Returned? || s'.calls[d].pc == AfterLock(s'.calls[d].req)
  {
  }

  lemma ActKeeps(w: World, s: State, s': State, c: nat, o: Outcome)
    requires Inv(w, s) && Acts(w, s, s', c, o) && Faithful(w)
    ensures ShowsOwn(w, s'.node) && Facts(s')
  {
    var k := s.calls[c];
    ActMoves(w, s, s', c, o);
    assert Fact(s.node, k) && Follows(w, k.req) && Checked(k);
    EffectShowsOwn(w, s.node, s'.node, k, o);
    EffectFact(w, s.node, s'.node, k, o);
    forall d | d in s'.calls && d != c ensures Fact(s'.node, s'.calls[d]) {
      OtherFact(w, s, s', c, o, d);
    }
  }

  lemma QuietKeeps(w: World, s: State, s': State, c: nat, e: Event)
    requires Inv(w, s) && StepBy(w, s, s', c, e) && !e.Act? && !e.Land?
    ensures ShowsOwn(w, s'.node) && Facts(s')
  {
    QuietStep(w, s, s', c, e);
    forall d | d in s'.calls ensures Fact(s'.node, s'.calls[d]) {
      assert d in s.calls ==> Fact(s.node, s.calls[d]);
    }
  }

  lemma StepKeeps(w: World, s: State, s': State, c: nat, e: Event)
    requires Inv(w, s) && StepBy(w, s, s', c, e) && Within(w, s') && Faithful(w)
    ensures Inv(w, s')
  {
    StepKeepsLocks(w, s, s', c, e);
    match e
    case Act(o) => ActKeeps(w, s, s', c, o);
    case Land(i) => LandKeeps(w, s, s', i);
    case _ => QuietKeeps(w, s, s', c, e);
  }

  lemma {:induction false} InvInRun(w: World, run: seq<State>, i: nat)
    requires IsRun(w, run) && i < |run| && Faithful(w) && ShowsOwn(w, run[0].node)
    ensures Inv(w, run[i])
  {
    if i > 0 {
      InvInRun(w, run, i - 1);
      assert StepAt(w, run, i);
      var c: nat, e :| StepBy(w, run[i - 1], run[i], c, e);
      StepKeeps(w, run[i - 1], run[i], c, e);
    }
  }

  /** Every mount of every path in use shows the path's own volume, in every state of every run. */
  ghost predicate AlwaysShowsOwn(w: World) {
    forall run: seq<State>, i: nat | IsRun(w, run) && i < |run| && ShowsOwn(w, run[0].node) :: ShowsOwn(w, run[i].node)
  }

  /**
   With one volume per path, volumes staged from their own devices, and one call in flight per
   volume (or no two paths to publish between), every mounted staging or target path shows its
   volume's device throughout any run, late mounts included; and whenever a stage or publish call
   succeeds, also by finding its path mounted already, the volume's device is visible there.
   */
  lemma PathsShowTheirVolume(w: World)
    requires Faithful(w)
    ensures AlwaysShowsOwn(w)
    ensures forall run: seq<State>, i: nat, c: nat |
      IsRun(w, run) && i < |run| && ShowsOwn(w, run[0].node) && c in run[i].calls
      && run[i].calls[c].pc == Leaving(Ok) && (run[i].calls[c].req.Stage? || run[i].calls[c].req.Publish?) ::
        Own(w, run[i].calls[c].req.path, Visible(run[i].node, run[i].calls[c].req.path))
  {
    forall run: seq<State>, i: nat | IsRun(w, run) && i < |run| && ShowsOwn(w, run[0].node)
      ensures Inv(w, run[i])
    {
      InvInRun(w, run, i);
    }
    forall run: seq<State>, i: nat, c: nat |
      IsRun(w, run) && i < |run| && ShowsOwn(w, run[0].node) && c in run[i].calls
      && run[i].calls[c].pc == Leaving(Ok) && (run[i].calls[c].req.Stage? || run[i].calls[c].req.Publish?)
      ensures Own(w, run[i].calls[c].req.path, Visible(run[i].node, run[i].calls[c].req.path))
    {
      InvInRun(w, run, i);
      assert Fact(run[i].node, run[i].calls[c]) && Follows(w, run[i].calls[c].req);
      VisibleIsOwn(w, run[i].node, run[i].calls[c].req.path);
    }
  }
}

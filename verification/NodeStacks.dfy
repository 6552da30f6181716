/** How many mounts can pile up on a path of the node. */
module NodeStacks {
  import opened NodeModel
  import opened NodeLocks

  /** A handler that is about to mount on its path, or has just unmounted it. */
  predicate Clear(k: Call) {
    || k.pc.MakeDirs? || k.pc.Probe? || k.pc.Mkfs? || k.pc.Mount? || k.pc.Bind? || k.pc.RemoveAll?
    || (k.pc == Leaving(Ok) && (k.req.Unstage? || k.req.Unpublish?))
  }

  /** The path of such a handler carries nothing but mounts that landed late. */
  predicate Fact(n: Node, k: Call) {
    Clear(k) ==> |Stack(n, k.req.path)| <= Landed(n, k.req.path)
  }

  ghost predicate Bounded(n: Node) {
    forall p :: |Stack(n, p)| <= 1 + Landed(n, p)
  }

  /** Everything mounted or still to be mounted concerns paths in use; lateness is as promised. */
  ghost predicate Tidy(w: World, n: Node) {
    && (forall p | p in n.mounts :: p in w.owner || w.foreign)
    && (forall i | 0 <= i < |n.pending| :: n.pending[i].path in w.owner)
    && (!MayLand(w) ==> n.pending == [] && n.landed == map[])
  }

  ghost predicate Facts(s: State) {
    forall c | c in s.calls :: Fact(s.node, s.calls[c])
  }

  ghost predicate Inv(w: World, s: State) {
    LockInv(s) && Within(w, s) && Bounded(s.node) && Tidy(w, s.node) && Facts(s)
  }

  /** A handler touches the mounts of its own path only, and no late mounts. */
  lemma EffectOnPath(w: World, n: Node, n': Node, req: Request, pc: Pc, o: Outcome)
    requires Fits(req, pc, o) && Effect(w, n, n', req, pc, o)
    ensures forall p | p != req.path :: Stack(n', p) == Stack(n, p)
    ensures n'.landed == n.landed
  {
  }

  lemma EffectTidy(w: World, n: Node, n': Node, k: Call, o: Outcome)
    requires Fits(k.req, k.pc, o) && Effect(w, n, n', k.req, k.pc, o)
    requires Checked(k) && Holds(k) && Follows(w, k.req) && Tidy(w, n)
    ensures Tidy(w, n')
  {
    if k.pc.Mount? {
      StagesAsPromised(w, k);
    }
  }

  /** What a handler does to the stack of its own path. */
  lemma EffectOnStack(w: World, n: Node, n': Node, k: Call, o: Outcome)
    requires Fits(k.req, k.pc, o) && Effect(w, n, n', k.req, k.pc, o)
    requires Fact(n, k) && |Stack(n, k.req.path)| <= 1 + Landed(n, k.req.path)
    ensures Fact(n', k.(pc := After(k.req, k.pc, o)))
    ensures |Stack(n', k.req.path)| <= 1 + Landed(n', k.req.path)
  {
  }

  lemma ActKeeps(w: World, s: State, s': State, c: nat, o: Outcome)
    requires Inv(w, s) && Acts(w, s, s', c, o) && Within(w, s')
    ensures Bounded(s'.node) && Tidy(w, s'.node) && Facts(s')
  {
    var k := s.calls[c];
    assert Follows(w, k.req) && Fact(s.node, k);
    EffectOnPath(w, s.node, s'.node, k.req, k.pc, o);
    ActMoves(w, s, s', c, o);
    EffectTidy(w, s.node, s'.node, k, o);
    EffectOnStack(w, s.node, s'.node, k, o);
    OthersKeep(w, s, s', c, k.req.path);
  }

  lemma OthersKeep(w: World, s: State, s': State, c: nat, path: string)
    requires Inv(w, s) && Moves(s, s', c) && path == s.calls[c].req.path
    requires forall p | p != path :: Stack(s'.node, p) == Stack(s.node, p)
    requires s'.node.landed == s.node.landed
    requires Fact(s'.node, s'.calls[c]) && |Stack(s'.node, path)| <= 1 + Landed(s'.node, path)
    ensures Bounded(s'.node) && Facts(s')
  {
    forall p ensures |Stack(s'.node, p)| <= 1 + Landed(s'.node, p) {
      assert |Stack(s.node, p)| <= 1 + Landed(s.node, p);
    }
    forall d | d in s'.calls && d != c ensures Fact(s'.node, s'.calls[d]) {
      assert Fact(s.node, s.calls[d]);
      if Clear(s.calls[d]) && s.calls[d].req.path == path {
        OnePathOneCall(w, s, c, d);
      }
    }
  }

  lemma LandKeeps(w: World, s: State, s': State, i: nat)
    requires Inv(w, s) && s' == s.(node := s'.node) && Lands(s.node, s'.node, i)
    ensures Bounded(s'.node) && Tidy(w, s'.node) && Facts(s')
  {
    assert s.node.pending[i].path in w.owner;
    forall p ensures |Stack(s'.node, p)| - Landed(s'.node, p) <= |Stack(s.node, p)| - Landed(s.node, p) {
    }
    forall p ensures |Stack(s'.node, p)| <= 1 + Landed(s'.node, p) {
      assert |Stack(s.node, p)| <= 1 + Landed(s.node, p);
    }
    forall c | c in s'.calls ensures Fact(s'.node, s'.calls[c]) {
      assert Fact(s.node, s.calls[c]);
    }
  }

  /** Steps that leave mounts and late mounts alone. */
  lemma QuietKeeps(w: World, s: State, s': State)
    requires Inv(w, s)
    requires s'.node.mounts == s.node.mounts && s'.node.pending == s.node.pending && s'.node.landed == s.node.landed
    requires forall d | d in s'.calls && Clear(s'.calls[d]) ::
      d in s.calls && Clear(s.calls[d]) && s.calls[d].req == s'.calls[d].req
    ensures Bounded(s'.node) && Tidy(w, s'.node) && Facts(s')
  {
    forall p ensures Stack(s'.node, p) == Stack(s.node, p) && Landed(s'.node, p) == Landed(s.node, p) {
    }
    forall p ensures |Stack(s'.node, p)| <= 1 + Landed(s'.node, p) {
      assert |Stack(s.node, p)| <= 1 + Landed(s.node, p);
    }
    forall c | c in s'.calls && Clear(s'.calls[c]) ensures Fact(s'.node, s'.calls[c]) {
      assert Fact(s.node, s.calls[c]);
    }
  }

  lemma QuietStep(w: World, s: State, s': State, c: nat, e: Event)
    requires StepBy(w, s, s', c, e) && !e.Act? && !e.Land?
    ensures s'.node.mounts == s.node.mounts && s'.node.pending == s.node.pending && s'.node.landed == s.node.landed
    ensures forall d | d in s'.calls && Clear(s'.calls[d]) ::
      d in s.calls && Clear(s.calls[d]) && s.calls[d].req == s'.calls[d].req
  {
  }

  lemma StepKeeps(w: World, s: State, s': State, c: nat, e: Event)
    requires Inv(w, s) && StepBy(w, s, s', c, e) && Within(w, s')
    ensures Inv(w, s')
  {
    StepKeepsLocks(w, s, s', c, e);
    match e
    case Act(o) =>
      ActKeeps(w, s, s', c, o);
    case Land(i) => LandKeeps(w, s, s', i);
    case _ =>
      QuietStep(w, s, s', c, e);
      QuietKeeps(w, s, s');
  }

  lemma {:induction false} InvInRun(w: World, run: seq<State>, i: nat)
    requires IsRun(w, run) && i < |run|
    ensures Inv(w, run[i])
  {
    if i > 0 {
      InvInRun(w, run, i - 1);
      assert StepAt(w, run, i);
      var c: nat, e :| StepBy(w, run[i - 1], run[i], c, e);
      StepKeeps(w, run[i - 1], run[i], c, e);
    }
  }

  /**
   With one volume per path, the mounts stacked on a path never exceed one plus the number of
   timed-out mounts that landed on it late; a successful unstage or unpublish leaves only those.
   */
  lemma StacksAreBounded(w: World, run: seq<State>, i: nat)
    requires IsRun(w, run) && i < |run|
    ensures forall p :: |Stack(run[i].node, p)| <= 1 + Landed(run[i].node, p)
    ensures forall c | c in run[i].calls && run[i].calls[c].pc == Leaving(Ok)
      && (run[i].calls[c].req.Unstage? || run[i].calls[c].req.Unpublish?) ::
        |Stack(run[i].node, run[i].calls[c].req.path)| <= Landed(run[i].node, run[i].calls[c].req.path)
  {
    InvInRun(w, run, i);
    forall c | c in run[i].calls ensures Fact(run[i].node, run[i].calls[c]) {
    }
  }

  /** Where no mount can time out nothing ever stacks, and a successful unstage or unpublish unmounts. */
  lemma NoLateMountsNoStacks(w: World, run: seq<State>, i: nat)
    requires IsRun(w, run) && i < |run| && !MayLand(w)
    ensures forall p :: |Stack(run[i].node, p)| <= 1
    ensures forall c | c in run[i].calls && run[i].calls[c].pc == Leaving(Ok)
      && (run[i].calls[c].req.Unstage? || run[i].calls[c].req.Unpublish?) ::
        Stack(run[i].node, run[i].calls[c].req.path) == []
  {
    StacksAreBounded(w, run, i);
    InvInRun(w, run, i);
    assert forall p :: Landed(run[i].node, p) == 0;
  }
}

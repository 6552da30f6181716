/** No run of the controller attaches a volume to two nodes. */
module ControllerAttachments {
  import opened ControllerModel
  import opened ControllerLocks
  import opened ControllerRuns
  import opened ClientErrors
  import opened GoStrings
  import opened WireSizes

  /** The volume is attached to some other node. */
  ghost predicate AttachedElsewhere(b: Backend, id: string, node: string) {
    exists n :: n != node && (id, n) in b.attachments
  }

  /**
   What a publish call knows while it holds its lock: about to attach, the volume is attached
   nowhere; leaving with success, it is attached to the call's node; leaving with a failed
   precondition, to another one.
   */
  ghost predicate Fact(w: World, b: Backend, k: Call) {
    k.req.PublishVolume? ==>
      && (k.pc.Write? ==> k.req.nodeId != "" && !Attached(b, k.req.volumeId))
      && (k.pc.Leaving? && k.pc.result.Published? && w.client ==>
            && (k.req.volumeId, k.req.nodeId) in b.attachments
            && k.pc.result.devicePath == PathOf(b, k.req.volumeId, k.req.nodeId))
      && (k.pc == Leaving(Error(FailedPrecondition)) ==> AttachedElsewhere(b, k.req.volumeId, k.req.nodeId))
  }

  ghost predicate Inv(w: World, s: State) {
    && LockInv(w, s)
    && AttachedOnce(s.backend)
    && forall c | c in s.calls :: Fact(w, s.backend, s.calls[c])
  }

  /** A write under another key leaves the volume's attachments alone. */
  lemma OtherFact(w: World, b: Backend, b': Backend, req: Request, r: Reply, k: Call)
    requires Answers(req, Write(0), r) && Writes(w, b, b', req, r)
    requires Fact(w, b, k) && (Holds(k) ==> Key(k.req) != Key(req))
    ensures Fact(w, b', k)
  {
    if k.req.PublishVolume? && Holds(k) {
      var id := k.req.volumeId;
      assert forall n :: (id, n) in b.attachments <==> (id, n) in b'.attachments;
    }
  }

  lemma WriteKeepsOnce(w: World, b: Backend, b': Backend, k: Call, r: Reply)
    requires k.pc.Write? && Answers(k.req, k.pc, r) && Writes(w, b, b', k.req, r)
    requires AttachedOnce(b) && Fact(w, b, k)
    ensures AttachedOnce(b')
  {
    if k.req.PublishVolume? && b' != b {
      var id := k.req.volumeId;
      assert forall p | p in b'.attachments && p.0 == id :: p.1 == k.req.nodeId;
    }
  }

  lemma ExchangeKeeps(w: World, s: State, s': State, c: nat, r: Reply)
    requires Inv(w, s) && Exchanges(w, s, s', c, r) && !w.lateWrites
    ensures AttachedOnce(s'.backend) && forall d | d in s'.calls :: Fact(w, s'.backend, s'.calls[d])
  {
    var k := s.calls[c];
    if k.pc.Write? {
      WriteKeepsOnce(w, s.backend, s'.backend, k, r);
      forall d | d in s'.calls && d != c ensures Fact(w, s'.backend, s'.calls[d]) {
        OtherFact(w, s.backend, s'.backend, k.req, r, s.calls[d]);
      }
    }
  }

  lemma StepKeeps(w: World, s: State, s': State, c: nat, e: Event)
    requires Inv(w, s) && StepBy(w, s, s', c, e) && (w.client ==> !w.lateWrites)
    ensures Inv(w, s')
  {
    StepKeepsLocks(w, s, s', c, e);
    if e.Exchange? {
      assert Checked(w, s.calls[c]);
      ExchangeKeeps(w, s, s', c, e.reply);
    }
  }

  lemma {:induction false} InvInRun(w: World, run: seq<State>, i: nat)
    requires IsRun(w, run) && i < |run| && AttachedOnce(run[0].backend) && (w.client ==> !w.lateWrites)
    ensures Inv(w, run[i])
  {
    if i > 0 {
      InvInRun(w, run, i - 1);
      assert StepAt(w, run, i);
      var c: nat, e :| StepBy(w, run[i - 1], run[i], c, e);
      StepKeeps(w, run[i - 1], run[i], c, e);
    }
  }

  ghost predicate KeepsAttachedOnce(w: World) {
    forall run: seq<State> | IsRun(w, run) && AttachedOnce(run[0].backend) :: AttachedOnce(run[|run| - 1].backend)
  }

  /** A backend with one volume that is attached nowhere. */
  function FreeVolume(id: string): Backend {
    Backend(map[id := Volume("a", 0)], {}, map[])
  }

  /** The same, attached to a node. */
  function AttachedVolume(id: string, node: string): Backend {
    FreeVolume(id).(attachments := {(id, node)}, paths := map[(id, node) := "/dev/vdb"])
  }

  /** A publish call for that volume gets as far as its ATTACH. */
  lemma UntilAttach(w: World, before: seq<State>, c: nat, id: string, node: string) returns (run: seq<State>)
    requires IsRun(w, before) && Idle(Last(before)) && c !in Last(before).calls && Last(before).backend == FreeVolume(id)
    requires w.client && id != "" && node != ""
    ensures IsRun(w, run) && before < run
    ensures Last(run) == During(Last(before), c, PublishVolume(id, node, true), Write(0))
  {
    var req, free := PublishVolume(id, node, true), VolumeInfo(id, 0, "", "");
    assert Float64(0) == 0;
    assert Describes(w, FreeVolume(id), id, free);
    run := Begin(w, before, c, req);
    run := Read(w, run, Last(before), c, req, Lookup, free);
  }

  /**
   An ATTACH to "n" whose reply is lost is still under way when another call finds the volume
   unattached and attaches it to "m".
   */
  lemma AttachedWithOneUnderWay(w: World) returns (run: seq<State>)
    requires w.client && w.lateWrites
    ensures IsRun(w, run) && run[0].backend == FreeVolume("v")
    ensures Last(run).backend == AttachedVolume("v", "m")
    ensures Last(run).underway == [PublishVolume("v", "n", true)]
  {
    var b := FreeVolume("v");
    var b' := AttachedVolume("v", "m");
    var first, second := PublishVolume("v", "n", true), PublishVolume("v", "m", true);
    FewSnapshotsFit(b, {});
    FewSnapshotsFit(b', {});
    run := Fresh(w, b);
    var base := Last(run);
    run := UntilAttach(w, run, 0, "v", "n");
    run := Abandon(w, run, base, 0, first, Write(0));
    base := Last(run);
    run := UntilAttach(w, run, 1, "v", "m");
    assert Attaches(b, b', "v", "m");
    run := WriteOnce(w, run, base, 1, second, Write(0), Failure(""), b', [first]);
  }

  /** Then the first one takes effect. */
  lemma LateAttachDoubles(w: World)
    requires w.client && w.lateWrites
    ensures !KeepsAttachedOnce(w)
  {
    var run := AttachedWithOneUnderWay(w);
    var b := Last(run).backend;
    var b' := b.(attachments := {("v", "m"), ("v", "n")}, paths := b.paths[("v", "n") := "/dev/vdb"]);
    assert Attaches(b, b', "v", "n");
    FewSnapshotsFit(b', {});
    run := LandOnly(w, run, PublishVolume("v", "n", true), b');
    assert ("v", "m") in b'.attachments && ("v", "n") in b'.attachments;
  }

  /**
   However calls interleave and whichever replies are lost, every run leaves each volume attached to
   at most one node if and only if no write takes effect after its call has returned (or there is no
   backend): the lock and the check under it are enough for everything else.
   */
  lemma AttachedOnceIff(w: World)
    ensures KeepsAttachedOnce(w) <==> !w.client || !w.lateWrites
  {
    if w.client && w.lateWrites {
      LateAttachDoubles(w);
    } else {
      forall run: seq<State> | IsRun(w, run) && AttachedOnce(run[0].backend)
        ensures AttachedOnce(run[|run| - 1].backend)
      {
        InvInRun(w, run, |run| - 1);
      }
    }
  }

  /**
   In every state of every run without late writes: when a publish call succeeds, its node and no
   other has the volume, under the device path that is reported; when it fails a precondition, another node has it.
   */
  lemma PublishTellsTheTruth(w: World, run: seq<State>, i: nat, c: nat)
    requires IsRun(w, run) && i < |run| && AttachedOnce(run[0].backend) && w.client && !w.lateWrites
    requires c in run[i].calls && run[i].calls[c].req.PublishVolume? && run[i].calls[c].pc.Leaving?
    ensures var k, b := run[i].calls[c], run[i].backend;
      && (k.pc.result.Published? ==>
            && (forall n :: (k.req.volumeId, n) in b.attachments <==> n == k.req.nodeId)
            && k.pc.result.devicePath == PathOf(b, k.req.volumeId, k.req.nodeId))
      && (k.pc.result == Error(FailedPrecondition) ==> AttachedElsewhere(b, k.req.volumeId, k.req.nodeId))
  {
    InvInRun(w, run, i);
    assert Fact(w, run[i].backend, run[i].calls[c]);
  }
}

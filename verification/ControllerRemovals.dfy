/** What a successful delete or unpublish call means for the backend. */
module ControllerRemovals {
  import opened GoStrings
  import opened ClientErrors
  import opened WireSizes
  import opened ControllerModel
  import opened ControllerLocks
  import opened ControllerRuns
  import Attachments = ControllerAttachments

  // ---------------------------------------------------------------- one exchange

  /** The reply leaves nothing of what the request is to remove, whatever the backend looked like. */
  ghost predicate Assures(w: World, req: Request, r: Reply)
    requires r.Failure? || (if req.CreateSnapshot? then r.SnapshotInfo? else r.Accepted?)
  {
    forall b, b' | Writes(w, b, b', req, r) :: Gone(b', req)
  }

  /** A backend in which something is left of everything a removal could be about. */
  function Left(req: Request): Backend
    requires Removes(req)
  {
    match req
    case DeleteVolume(id) => Backend(map[id := Volume("a", 0)], {}, map[])
    case UnpublishVolume(id, node) =>
      Backend(map[id := Volume("a", 0)], {(id, if node == "" then "n" else node)}, map[])
    case DeleteSnapshot(id) => Backend(map[], {}, map[id := Snapshot("a", "v", 0)])
  }

  lemma SomethingIsLeft(req: Request)
    requires Removes(req)
    ensures !Gone(Left(req), req)
  {
    if req.UnpublishVolume? {
      assert (req.volumeId, if req.nodeId == "" then "n" else req.nodeId) in Left(req).attachments;
    }
  }

  /**
   On its own, a reply that makes a delete or unpublish call succeed assures that nothing is left if
   and only if the backend has accepted the request: a failure that reads like "not found" does not.
   */
  lemma AssuresIff(w: World, req: Request, pc: Pc, r: Reply)
    requires Removes(req) && !Malformed(req) && pc.Write? && Answers(req, pc, r)
    requires AfterReply(req, pc, r) == Leaving(Done)
    ensures Assures(w, req, r) <==> r.Accepted?
  {
    if r.Failure? {
      SomethingIsLeft(req);
      assert Writes(w, Left(req), Left(req), req, r);
    }
  }

  /** Call c, for the request, is leaving with success in state i of the run. */
  ghost predicate Leaves(w: World, run: seq<State>, i: nat, c: nat, req: Request) {
    IsRun(w, run) && i < |run| && c in run[i].calls && run[i].calls[c] == Call(req, Leaving(Done))
  }

  // ---------------------------------------------------------------- the moment of success

  /** Call c, for the request, comes to its success at step i of the run. */
  ghost predicate Succeeds(w: World, run: seq<State>, i: nat, c: nat, req: Request) {
    i > 0 && Leaves(w, run, i, c, req) && !Leaves(w, run, i - 1, c, req)
  }

  /** In every run, nothing is left at the moment at which a call for this request succeeds. */
  ghost predicate DoneMeansGone(w: World, req: Request) {
    forall run: seq<State>, i: nat, c: nat | Succeeds(w, run, i, c, req) :: Gone(run[i].backend, req)
  }

  lemma ReplyTellsTheTruth(w: World, run: seq<State>, i: nat, c: nat, req: Request)
    requires Succeeds(w, run, i, c, req) && Removes(req) && w.client && w.honest
    ensures Gone(run[i].backend, req)
  {
    LocksInRun(w, run, i - 1);
    assert StepAt(w, run, i);
    var d: nat, e :| StepBy(w, run[i - 1], run[i], d, e);
    assert d in run[i - 1].calls ==> Checked(w, run[i - 1].calls[d]);
  }

  const MISLEADING := Wrapped("failed to detach volume", StatusError(500, "404"))

  lemma MisleadingReadsNotFound()
    ensures NotFoundText(MISLEADING)
  {
    assert OccursAt("404", "404", 0);
    StatusClassifiedIff(500, "404");
    WrappingKeepsClass("failed to detach volume", StatusError(500, "404"));
  }

  /** A call succeeds although the backend still holds everything: it met a misleading text, or no backend. */
  lemma MisledRun(w: World, req: Request) returns (run: seq<State>)
    requires Removes(req) && !Malformed(req) && !(w.client && w.honest)
    ensures IsRun(w, run) && |run| > 1 && Last(run).backend == Left(req)
    ensures Succeeds(w, run, |run| - 1, 0, req)
    ensures forall i | 0 <= i < |run| - 1 :: !Leaves(w, run, i, 0, req)
  {
    var b := Left(req);
    FewSnapshotsFit(b, if req.DeleteSnapshot? then {req.snapshotId} else {});
    run := Fresh(w, b);
    var base := Last(run);
    run := Begin(w, run, 0, req);
    if w.client {
      MisleadingReadsNotFound();
      var before := run;
      run := WriteOnce(w, run, base, 0, req, Write(0), Failure(MISLEADING), b, []);
      assert run[|run| - 2] == Last(before);
    }
  }

  /**
   For every well-formed delete or unpublish request: in all runs, a call for it that succeeds leaves
   nothing of what it was to remove, if and only if there is a backend and a removal fails with a
   text that reads like "not found" only when nothing is left. Late writes do not matter here.
   */
  lemma DoneMeansGoneIff(w: World, req: Request)
    requires Removes(req) && !Malformed(req)
    ensures DoneMeansGone(w, req) <==> w.client && w.honest
  {
    if w.client && w.honest {
      forall run: seq<State>, i: nat, c: nat | Succeeds(w, run, i, c, req) ensures Gone(run[i].backend, req) {
        ReplyTellsTheTruth(w, run, i, c, req);
      }
    } else {
      var run := MisledRun(w, req);
      SomethingIsLeft(req);
    }
  }

  /** One such run: an unpublish reports success while the volume stays attached. */
  lemma UnpublishMayLeaveAttached(w: World) returns (run: seq<State>)
    requires w.client && !w.honest
    ensures IsRun(w, run)
    ensures var last := run[|run| - 1];
      && 0 in last.calls && last.calls[0] == Call(UnpublishVolume("v", "n"), Leaving(Done))
      && ("v", "n") in last.backend.attachments
  {
    run := MisledRun(w, UnpublishVolume("v", "n"));
  }

  // ---------------------------------------------------------------- until the call returns

  /** A CREATE gives the id out again, or an ATTACH attaches the volume again. */
  ghost predicate Restores(b: Backend, b': Backend, req: Request) {
    match req
    case DeleteVolume(id) => exists v :: AddsVolume(b, b', id, v)
    case UnpublishVolume(id, _) => exists n :: Attaches(b, b', id, n)
    case DeleteSnapshot(id) => exists s :: AddsSnapshot(b, b', id, s)
    case _ => false
  }

  lemma OnlyRestoringUndoes(w: World, b: Backend, b': Backend, writer: Request, req: Request)
    requires Commits(w, b, b', writer) && Removes(req) && Gone(b, req) && !Gone(b', req)
    ensures Restores(b, b', req)
  {
    if writer.PublishVolume? && req.UnpublishVolume? {
      assert Attaches(b, b', req.volumeId, writer.nodeId);
    }
  }

  lemma OnlyRestoringSteps(w: World, s: State, s': State, c: nat, e: Event, req: Request)
    requires StepBy(w, s, s', c, e) && Removes(req) && Gone(s.backend, req) && !Gone(s'.backend, req)
    ensures Restores(s.backend, s'.backend, req)
  {
    if e.Exchange? {
      OnlyRestoringUndoes(w, s.backend, s'.backend, s.calls[c].req, req);
    } else {
      OnlyRestoringUndoes(w, s.backend, s'.backend, s.underway[e.index], req);
    }
  }

  /** After call c has succeeded, step k of the run, before its return, restores what it removed. */
  ghost predicate RestoredAt(w: World, run: seq<State>, k: nat, c: nat, req: Request)
    requires 0 < k < |run|
  {
    && Leaves(w, run, k - 1, c, req)
    && Gone(run[k - 1].backend, req) && !Gone(run[k].backend, req)
    && Restores(run[k - 1].backend, run[k].backend, req)
  }

  /** In every run, what a call has removed is gone until it returns, unless it has been restored. */
  ghost predicate GoneUnlessRestored(w: World, req: Request) {
    forall run: seq<State>, i: nat, c: nat | Leaves(w, run, i, c, req) ::
      Gone(run[i].backend, req) || exists k | 0 < k <= i :: RestoredAt(w, run, k, c, req)
  }

  lemma {:induction false} GoneOrRestored(w: World, run: seq<State>, i: nat, c: nat, req: Request)
    requires Leaves(w, run, i, c, req) && Removes(req) && w.client && w.honest
    ensures Gone(run[i].backend, req) || exists k | 0 < k <= i :: RestoredAt(w, run, k, c, req)
  {
    if i > 0 {
      if Leaves(w, run, i - 1, c, req) {
        GoneOrRestored(w, run, i - 1, c, req);
        if Gone(run[i - 1].backend, req) && !Gone(run[i].backend, req) {
          assert StepAt(w, run, i);
          var d: nat, e :| StepBy(w, run[i - 1], run[i], d, e);
          OnlyRestoringSteps(w, run[i - 1], run[i], d, e, req);
          assert RestoredAt(w, run, i, c, req);
        }
      } else {
        ReplyTellsTheTruth(w, run, i, c, req);
      }
    }
  }

  /**
   The same condition as for the moment of success: in every state of every run, what a successful
   call was to remove is gone, or another call has created or attached it again since, if and only
   if there is a backend and "not found" is only said when nothing is left.
   */
  lemma GoneUnlessRestoredIff(w: World, req: Request)
    requires Removes(req) && !Malformed(req)
    ensures GoneUnlessRestored(w, req) <==> w.client && w.honest
  {
    if w.client && w.honest {
      forall run: seq<State>, i: nat, c: nat | Leaves(w, run, i, c, req)
        ensures Gone(run[i].backend, req) || exists k | 0 < k <= i :: RestoredAt(w, run, k, c, req)
      {
        GoneOrRestored(w, run, i, c, req);
      }
    } else {
      var run := MisledRun(w, req);
      SomethingIsLeft(req);
      assert Leaves(w, run, |run| - 1, 0, req);
    }
  }

  predicate Trusted(w: World) {
    w.client && w.honest && !w.lateWrites
  }

  /** An unpublish call that leaves with success has its volume detached. */
  ghost predicate Fact(b: Backend, k: Call) {
    k.req.UnpublishVolume? && k.pc == Leaving(Done) ==> Gone(b, k.req)
  }

  ghost predicate Inv(w: World, s: State) {
    LockInv(w, s) && forall c | c in s.calls :: Fact(s.backend, s.calls[c])
  }

  /** A write under another key does not attach the volume. */
  lemma OtherFact(w: World, b: Backend, b': Backend, req: Request, r: Reply, k: Call)
    requires Answers(req, Write(0), r) && Writes(w, b, b', req, r)
    requires Fact(b, k) && (Holds(k) ==> Key(k.req) != Key(req))
    ensures Fact(b', k)
  {
    if k.req.UnpublishVolume? && Holds(k) {
      var id := k.req.volumeId;
      assert forall n :: (id, n) in b'.attachments ==> (id, n) in b.attachments;
    }
  }

  lemma StepKeeps(w: World, s: State, s': State, c: nat, e: Event)
    requires Inv(w, s) && StepBy(w, s, s', c, e) && Trusted(w)
    ensures Inv(w, s')
  {
    StepKeepsLocks(w, s, s', c, e);
    if e.Exchange? {
      var k := s.calls[c];
      assert Checked(w, k);
      if k.pc.Write? {
        forall d | d in s'.calls && d != c ensures Fact(s'.backend, s'.calls[d]) {
          OtherFact(w, s.backend, s'.backend, k.req, e.reply, s.calls[d]);
        }
      }
    }
  }

  lemma {:induction false} InvInRun(w: World, run: seq<State>, i: nat)
    requires IsRun(w, run) && i < |run| && Trusted(w)
    ensures Inv(w, run[i])
  {
    if i > 0 {
      InvInRun(w, run, i - 1);
      assert StepAt(w, run, i);
      var c: nat, e :| StepBy(w, run[i - 1], run[i], c, e);
      StepKeeps(w, run[i - 1], run[i], c, e);
    }
  }

  /** In every run, a call for this request that has succeeded finds nothing left until it returns. */
  ghost predicate StaysGone(w: World, req: Request) {
    forall run: seq<State>, i: nat, c: nat | Leaves(w, run, i, c, req) :: Gone(run[i].backend, req)
  }

  function SomeNode(req: Request): string
    requires req.UnpublishVolume?
  {
    if req.nodeId == "" then "n" else req.nodeId
  }

  /** An ATTACH is under way when the unpublish call succeeds ... */
  lemma DetachedWithOneUnderWay(w: World, req: Request) returns (run: seq<State>)
    requires w.client && w.lateWrites && req.UnpublishVolume? && req.volumeId != ""
    ensures IsRun(w, run) && Last(run).backend == Attachments.FreeVolume(req.volumeId)
    ensures Last(run).underway == [PublishVolume(req.volumeId, SomeNode(req), true)]
    ensures 1 in Last(run).calls && Last(run).calls[1] == Call(req, Leaving(Done))
  {
    var id, node := req.volumeId, SomeNode(req);
    var b, publish := Attachments.FreeVolume(id), PublishVolume(id, node, true);
    FewSnapshotsFit(b, {});
    run := Fresh(w, b);
    var base := Last(run);
    run := Attachments.UntilAttach(w, run, 0, id, node);
    run := Abandon(w, run, base, 0, publish, Write(0));
    base := Last(run);
    run := Begin(w, run, 1, req);
    run := WriteOnce(w, run, base, 1, req, Write(0), Accepted("", 0), b, [publish]);
  }

  /** ... and takes effect before the call returns. */
  lemma LateAttachReturns(w: World, req: Request)
    requires w.client && w.lateWrites && req.UnpublishVolume? && req.volumeId != ""
    ensures !StaysGone(w, req)
  {
    var run := DetachedWithOneUnderWay(w, req);
    var id, node := req.volumeId, SomeNode(req);
    var b' := Attachments.AttachedVolume(id, node);
    FewSnapshotsFit(b', {});
    assert Attaches(Last(run).backend, b', id, node);
    run := LandOnly(w, run, PublishVolume(id, node, true), b');
    assert (id, node) in b'.attachments;
    assert Leaves(w, run, |run| - 1, 1, req);
  }

  /**
   For every well-formed unpublish request, with a node or for all nodes: in every state of every
   run, a call for it that leaves with success has its volume detached, if and only if there is a
   backend, "not found" is only said when nothing is left, and no write takes effect late.
   */
  lemma StaysGoneIff(w: World, req: Request)
    requires req.UnpublishVolume? && !Malformed(req)
    ensures StaysGone(w, req) <==> w.client && w.honest && !w.lateWrites
  {
    if Trusted(w) {
      forall run: seq<State>, i: nat, c: nat | Leaves(w, run, i, c, req) ensures Gone(run[i].backend, req) {
        InvInRun(w, run, i);
        assert Fact(run[i].backend, run[i].calls[c]);
      }
    } else if w.client && w.honest {
      LateAttachReturns(w, req);
    } else {
      var run := MisledRun(w, req);
      SomethingIsLeft(req);
      assert Leaves(w, run, |run| - 1, 0, req);
    }
  }
}

/** What the node's handlers answer, given what their system calls report. */
module NodeOutcomes {
  import opened NodeModel
  import opened NodeLocks

  // ---------------------------------------------------------------- steps of one call

  /** At step m call c, standing at pc, makes its system call with the outcome o. */
  ghost predicate Performs(w: World, run: seq<State>, m: nat, c: nat, req: Request, pc: Pc, o: Outcome) {
    && IsRun(w, run) && 0 < m < |run|
    && c in run[m - 1].calls && run[m - 1].calls[c] == Call(req, pc)
    && Acts(w, run[m - 1], run[m], c, o)
  }

  /** At step m call c enters, or is turned away. */
  ghost predicate Knocks(w: World, run: seq<State>, m: nat, c: nat, req: Request) {
    && IsRun(w, run) && 0 < m < |run|
    && c in run[m - 1].calls && run[m - 1].calls[c] == Call(req, Arrived)
    && Enters(run[m - 1], run[m], c)
  }

  /** Call c comes to its result at step i of the run. */
  ghost predicate ComesTo(w: World, run: seq<State>, i: nat, c: nat, k: Call) {
    && IsRun(w, run) && 0 < i < |run| && k.pc.Leaving?
    && c in run[i].calls && run[i].calls[c] == k
    && !(c in run[i - 1].calls && run[i - 1].calls[c] == k)
  }

  /** Where call c stands after step m. */
  function Next(run: seq<State>, m: nat, c: nat): Pc
    requires m < |run| && c in run[m].calls
  {
    run[m].calls[c].pc
  }

  lemma OwnStep(w: World, s: State, s': State, d: nat, e: Event, c: nat)
    requires StepBy(w, s, s', d, e) && c in s'.calls && !(c in s.calls && s.calls[c] == s'.calls[c])
    ensures d == c && !e.Land? && !e.Work?
  {
  }

  /** The step at which a call came to where it stands. */
  lemma {:induction false} LastMove(w: World, run: seq<State>, i: nat, c: nat) returns (m: nat, e: Event)
    requires IsRun(w, run) && i < |run| && c in run[i].calls
    ensures 0 < m <= i && c in run[m].calls && run[m].calls[c] == run[i].calls[c]
    ensures StepBy(w, run[m - 1], run[m], c, e) && !e.Land? && !e.Work?
    ensures !(c in run[m - 1].calls && run[m - 1].calls[c] == run[i].calls[c])
    decreases i
  {
    if c in run[i - 1].calls && run[i - 1].calls[c] == run[i].calls[c] {
      m, e := LastMove(w, run, i - 1, c);
    } else {
      assert StepAt(w, run, i);
      m := i;
      var d: nat;
      d, e :| StepBy(w, run[i - 1], run[i], d, e);
      OwnStep(w, run[i - 1], run[i], d, e, c);
    }
  }

  /** A call comes to a result by a system call, or where it enters. */
  lemma ComesBy(w: World, run: seq<State>, i: nat, c: nat, k: Call) returns (e: Event)
    requires ComesTo(w, run, i, c, k)
    ensures StepBy(w, run[i - 1], run[i], c, e) && (e.Enter? || e.Act?)
    ensures c in run[i - 1].calls && run[i - 1].calls[c].req == k.req
    ensures e.Act? ==> Performs(w, run, i, c, k.req, run[i - 1].calls[c].pc, e.outcome)
    ensures e.Enter? ==> Knocks(w, run, i, c, k.req)
  {
    assert StepAt(w, run, i);
    var d: nat;
    d, e :| StepBy(w, run[i - 1], run[i], d, e);
    OwnStep(w, run[i - 1], run[i], d, e, c);
  }

  /** What a call returns is what it came to under its lock, or it was turned away. */
  lemma ReturnsItsResult(w: World, run: seq<State>, i: nat, c: nat)
    requires IsRun(w, run) && i < |run| && c in run[i].calls && run[i].calls[c].pc.Returned?
    ensures var k := run[i].calls[c];
      exists m | 0 < m <= i :: ComesTo(w, run, m, c, Call(k.req, Leaving(k.pc.result))) || Knocks(w, run, m, c, k.req)
  {
    var k := run[i].calls[c];
    var m, e := LastMove(w, run, i, c);
    if e.Return? {
      var n, f := LastMove(w, run, m - 1, c);
      assert ComesTo(w, run, n, c, Call(k.req, Leaving(k.pc.result)));
    } else {
      assert Knocks(w, run, m, c, k.req);
    }
  }

  /** By step i the call has made that system call with that outcome. */
  ghost predicate HasDone(w: World, run: seq<State>, i: nat, c: nat, req: Request, pc: Pc, o: Outcome) {
    exists m | 0 < m <= i :: Performs(w, run, m, c, req, pc, o)
  }

  // ---------------------------------------------------------------- entering

  /** Some argument is missing without which a request is refused. */
  predicate Incomplete(req: Request) {
    || req.volume == "" || req.path == ""
    || (req.Stage? && !req.capability)
    || (req.Publish? && (req.staging == "" || !req.capability))
  }

  /** Some call in flight has the same volume and path, as far as one string tells. */
  ghost predicate SomeoneAt(s: State, volume: string, path: string) {
    exists d | d in s.calls :: Holds(s.calls[d]) && s.calls[d].req.volume + "-" + s.calls[d].req.path == volume + "-" + path
  }

  /**
   A call is refused with an invalid argument exactly when it is incomplete, and else aborted exactly
   when a call in flight has the same volume and path.
   */
  lemma TurnedAwayIff(w: World, run: seq<State>, m: nat, c: nat, req: Request)
    requires Knocks(w, run, m, c, req)
    ensures var pc := Next(run, m, c);
      && (pc == Returned(Error(InvalidArgument)) <==> Incomplete(req))
      && (pc == Returned(Error(Aborted)) <==> !Incomplete(req) && SomeoneAt(run[m - 1], req.volume, req.path))
      && (pc.Returned? ==> pc.result in {Error(InvalidArgument), Error(Aborted)})
  {
    LocksInRun(w, run, m - 1);
    var s := run[m - 1];
    forall d | d in s.calls
      ensures Key(s.calls[d].req) == s.calls[d].req.volume + "-" + s.calls[d].req.path
    {
    }
    if Key(req) in s.locks {
      var d :| d in s.calls && Holds(s.calls[d]) && Key(s.calls[d].req) == Key(req);
      assert SomeoneAt(s, req.volume, req.path);
    }
  }

  /** Where a call goes that gets its lock: only a stage call without a device is answered at once. */
  lemma AdmittedIff(w: World, run: seq<State>, m: nat, c: nat, req: Request)
    requires Knocks(w, run, m, c, req) && !Next(run, m, c).Returned?
    ensures Next(run, m, c) ==
      if req.Stage? then (if req.device == "" then Leaving(Error(InvalidArgument)) else FindDevice)
      else if req.Publish? then InspectStaging else Inspect
    ensures run[m].node == run[m - 1].node
  {
  }

  // ---------------------------------------------------------------- stage

  /** The call finds its own path mounted. */
  ghost predicate FindsMounted(w: World, run: seq<State>, i: nat, c: nat, req: Request) {
    Performs(w, run, i, c, req, Inspect, Mounted) && Stack(run[i - 1].node, req.path) != []
  }

  /** A system call of c succeeds and leaves one more mount on its path, which shows that. */
  ghost predicate PutsOn(w: World, run: seq<State>, i: nat, c: nat, req: Request, what: Shown) {
    exists pc :: Performs(w, run, i, c, req, pc, Succeeded) && run[i].node == Push(run[i - 1].node, req.path, what)
  }

  /** A system call of c has the outcome o. */
  ghost predicate Meets(w: World, run: seq<State>, i: nat, c: nat, req: Request, o: Outcome) {
    exists pc :: Performs(w, run, i, c, req, pc, o)
  }

  /** What a stage call does after each system call. */
  lemma StageGoesOn(w: World, run: seq<State>, m: nat, c: nat, req: Request, pc: Pc, o: Outcome)
    requires Performs(w, run, m, c, req, pc, o) && req.Stage?
    ensures o.Failed? || o.TimedOut? ==> Next(run, m, c) == Leaving(Error(Internal))
    ensures pc.FindDevice? && o.NotExist? ==> Next(run, m, c) == Leaving(Error(NotFound))
    ensures pc.FindDevice? && o.Succeeded? ==>
      Next(run, m, c) == if req.mountCap then Inspect else Leaving(Error(InvalidArgument))
    ensures pc.Inspect? && !o.Failed? ==> Next(run, m, c) == if o.Mounted? then Leaving(Ok) else MakeDirs
    ensures pc.MakeDirs? && o.Succeeded? ==> Next(run, m, c) == Probe
    ensures pc.Probe? && o.Filesystem? ==> Next(run, m, c) == if o.fs == "" then Mkfs else Mount
    ensures pc.Mkfs? && o.Succeeded? ==>
      && Next(run, m, c) == Mount && req.device in run[m].node.disks
      && run[m].node.disks[req.device] == Disk(if req.fsType == "" then "ext4" else req.fsType, {})
    ensures pc.Mount? && o.Succeeded? ==>
      && Next(run, m, c) == Leaving(Ok)
      && run[m].node == Push(run[m - 1].node, req.path, Device(req.device))
    ensures pc in {FindDevice, Inspect, MakeDirs, Probe, Mkfs, Mount}
  {
  }

  lemma PushShows(n: Node, path: string, what: Shown)
    ensures Stack(Push(n, path, what), path) == Stack(n, path) + [what] && Push(n, path, what) != n
    ensures Visible(Push(n, path, what), path) == what
    ensures Push(n, path, what).mounts != n.mounts
  {
    assert Stack(Push(n, path, what), path) != Stack(n, path);
  }

  /**
   When a stage call comes to its result, in any run, it succeeds exactly when it has found its path
   mounted or has just mounted its device there.
   */
  lemma StageSucceedsIff(w: World, run: seq<State>, i: nat, c: nat, k: Call)
    requires ComesTo(w, run, i, c, k) && k.req.Stage?
    ensures k.pc.result == Ok <==>
      FindsMounted(w, run, i, c, k.req) || PutsOn(w, run, i, c, k.req, Device(k.req.device))
    ensures PutsOn(w, run, i, c, k.req, Device(k.req.device)) ==>
      Visible(run[i].node, k.req.path) == Device(k.req.device)
  {
    var e := ComesBy(w, run, i, c, k);
    var what := Device(k.req.device);
    PushShows(run[i - 1].node, k.req.path, what);
    if e.Act? {
      StageGoesOn(w, run, i, c, k.req, run[i - 1].calls[c].pc, e.outcome);
    }
    if PutsOn(w, run, i, c, k.req, what) {
      var pc :| Performs(w, run, i, c, k.req, pc, Succeeded) && run[i].node == Push(run[i - 1].node, k.req.path, what);
      StageGoesOn(w, run, i, c, k.req, pc, Succeeded);
    }
  }

  /** Whatever system call is seen at the last step of a stage call, its outcome fits the result. */
  lemma OnlyOutcome(w: World, run: seq<State>, i: nat, c: nat, k: Call)
    requires ComesTo(w, run, i, c, k) && k.req.Stage?
    ensures forall pc, o: Outcome | Performs(w, run, i, c, k.req, pc, o) && (o.Failed? || o.TimedOut?) ::
      k.pc.result == Error(Internal)
    ensures forall pc, o: Outcome | Performs(w, run, i, c, k.req, pc, o) && pc.FindDevice? ::
      k.pc.result == if o.NotExist? then Error(NotFound) else Error(InvalidArgument)
  {
    forall pc, o: Outcome | Performs(w, run, i, c, k.req, pc, o)
      ensures o.Failed? || o.TimedOut? ==> k.pc.result == Error(Internal)
      ensures pc.FindDevice? ==> k.pc.result == if o.NotExist? then Error(NotFound) else Error(InvalidArgument)
    {
      StageGoesOn(w, run, i, c, k.req, pc, o);
    }
  }

  /**
   And it fails: for want of the device exactly when that is not there, for an invalid argument when
   none is named or the volume is not to be mounted, and else, as internal, exactly when one of its
   system calls fails or the mount times out.
   */
  lemma StageFailsIff(w: World, run: seq<State>, i: nat, c: nat, k: Call)
    requires ComesTo(w, run, i, c, k) && k.req.Stage?
    ensures k.pc.result == Error(NotFound) <==> Performs(w, run, i, c, k.req, FindDevice, NotExist)
    ensures k.pc.result == Error(NotFound) ==> k.req.device !in run[i].node.disks
    ensures k.pc.result == Error(InvalidArgument) <==>
      k.req.device == "" || (!k.req.mountCap && Performs(w, run, i, c, k.req, FindDevice, Succeeded))
    ensures k.pc.result == Error(Internal) <==>
      Meets(w, run, i, c, k.req, Failed) || Meets(w, run, i, c, k.req, TimedOut)
    ensures k.pc.result in {Ok, Error(NotFound), Error(InvalidArgument), Error(Internal)}
  {
    var e := ComesBy(w, run, i, c, k);
    LocksInRun(w, run, i - 1);
    assert Checked(run[i - 1].calls[c]);
    if e.Act? {
      StageGoesOn(w, run, i, c, k.req, run[i - 1].calls[c].pc, e.outcome);
      assert Meets(w, run, i, c, k.req, e.outcome);
    } else {
      AdmittedIff(w, run, i, c, k.req);
    }
    OnlyOutcome(w, run, i, c, k);
  }

  /**
   A stage call about to mount has made its directory, and has either seen a filesystem on the device
   or seen none and made one.
   */
  lemma StagePrepares(w: World, run: seq<State>, i: nat, c: nat)
    requires IsRun(w, run) && i < |run| && c in run[i].calls
    requires run[i].calls[c].req.Stage? && run[i].calls[c].pc.Mount?
    ensures var req := run[i].calls[c].req;
      && HasDone(w, run, i, c, req, MakeDirs, Succeeded)
      && ((exists fs :: fs != "" && HasDone(w, run, i, c, req, Probe, Filesystem(fs)))
          || (HasDone(w, run, i, c, req, Probe, Filesystem("")) && HasDone(w, run, i, c, req, Mkfs, Succeeded)))
  {
    var m, e := LastMove(w, run, i, c);
    var req := run[i].calls[c].req;
    var p := m;
    if run[m - 1].calls[c].pc.Mkfs? {
      assert Performs(w, run, m, c, req, Mkfs, Succeeded);
      p, e := LastMove(w, run, m - 1, c);
    }
    assert Performs(w, run, p, c, req, Probe, e.outcome);
    assert HasDone(w, run, i, c, req, Probe, e.outcome);
    var q, f := LastMove(w, run, p - 1, c);
    assert Performs(w, run, q, c, req, MakeDirs, Succeeded);
  }

  // ---------------------------------------------------------------- publish

  /** What a publish call does after each system call. */
  lemma PublishGoesOn(w: World, run: seq<State>, m: nat, c: nat, req: Request, pc: Pc, o: Outcome)
    requires Performs(w, run, m, c, req, pc, o) && req.Publish?
    ensures o.Failed? ==> Next(run, m, c) == Leaving(Error(Internal))
    ensures pc.InspectStaging? && o.Mounted? ==> Next(run, m, c) == Inspect && Stack(run[m].node, req.staging) != []
    ensures pc.InspectStaging? && o.NotMounted? ==> Next(run, m, c) == Leaving(Error(FailedPrecondition))
    ensures pc.InspectStaging? && o.NotExist? ==> Next(run, m, c) == Leaving(Error(Internal))
    ensures pc.Inspect? && !o.Failed? ==> Next(run, m, c) == if o.Mounted? then Leaving(Ok) else MakeDirs
    ensures pc.MakeDirs? && o.Succeeded? ==> Next(run, m, c) == Bind
    ensures pc.Bind? && o.Succeeded? ==>
      && Next(run, m, c) == Leaving(Ok)
      && run[m].node == Push(run[m - 1].node, req.path, Visible(run[m - 1].node, req.staging))
    ensures pc in {InspectStaging, Inspect, MakeDirs, Bind}
  {
  }

  /**
   When a publish call comes to its result, in any run, it succeeds exactly when it has found its
   target mounted or has just bound there what the staging path shows; it fails a precondition
   exactly when it has found the staging path not mounted; and else, as internal, exactly when one of
   its system calls fails or the staging path is not there.
   */
  lemma PublishEndsIff(w: World, run: seq<State>, i: nat, c: nat, k: Call)
    requires ComesTo(w, run, i, c, k) && k.req.Publish?
    ensures k.pc.result == Ok <==>
      FindsMounted(w, run, i, c, k.req) || PutsOn(w, run, i, c, k.req, Visible(run[i - 1].node, k.req.staging))
    ensures k.pc.result == Error(FailedPrecondition) <==> Performs(w, run, i, c, k.req, InspectStaging, NotMounted)
    ensures k.pc.result == Error(Internal) <==>
      Meets(w, run, i, c, k.req, Failed) || Performs(w, run, i, c, k.req, InspectStaging, NotExist)
    ensures k.pc.result in {Ok, Error(FailedPrecondition), Error(Internal)}
  {
    var e := ComesBy(w, run, i, c, k);
    var what := Visible(run[i - 1].node, k.req.staging);
    PushShows(run[i - 1].node, k.req.path, what);
    if e.Act? {
      PublishGoesOn(w, run, i, c, k.req, run[i - 1].calls[c].pc, e.outcome);
      assert Meets(w, run, i, c, k.req, e.outcome);
    }
    forall pc, o: Outcome | Performs(w, run, i, c, k.req, pc, o)
      ensures o.Failed? ==> k.pc.result == Error(Internal)
      ensures pc.InspectStaging? && o.NotExist? ==> k.pc.result == Error(Internal)
      ensures pc.InspectStaging? && o.NotMounted? ==> k.pc.result == Error(FailedPrecondition)
      ensures pc.Inspect? && o.Mounted? ==> k.pc.result == Ok
      ensures o.Succeeded? && run[i].node == Push(run[i - 1].node, k.req.path, what) ==> k.pc.result == Ok
    {
      PublishGoesOn(w, run, i, c, k.req, pc, o);
    }
  }

  /** A publish call about to bind has found its staging path mounted and has made its directory. */
  lemma PublishPrepares(w: World, run: seq<State>, i: nat, c: nat)
    requires IsRun(w, run) && i < |run| && c in run[i].calls
    requires run[i].calls[c].req.Publish? && run[i].calls[c].pc.Bind?
    ensures HasDone(w, run, i, c, run[i].calls[c].req, InspectStaging, Mounted)
    ensures HasDone(w, run, i, c, run[i].calls[c].req, MakeDirs, Succeeded)
  {
    var req := run[i].calls[c].req;
    var m, e := LastMove(w, run, i, c);
    assert Performs(w, run, m, c, req, MakeDirs, Succeeded);
    var p, f := LastMove(w, run, m - 1, c);
    var q, g := LastMove(w, run, p - 1, c);
    assert Performs(w, run, q, c, req, InspectStaging, Mounted);
  }

  // ---------------------------------------------------------------- unstage and unpublish

  /** What an unstage or unpublish call does after each system call. */
  lemma UnmountGoesOn(w: World, run: seq<State>, m: nat, c: nat, req: Request, pc: Pc, o: Outcome)
    requires Performs(w, run, m, c, req, pc, o) && (req.Unstage? || req.Unpublish?)
    ensures pc.Inspect? && o.Mounted? ==> Next(run, m, c) == Unmount
    ensures pc.Inspect? && (o.NotMounted? || o.NotExist?) ==>
      Next(run, m, c) == Leaving(Ok) && Stack(run[m].node, req.path) == []
    ensures pc.Unmount? && o.Succeeded? ==>
      && Next(run, m, c) == RemoveAll
      && |Stack(run[m - 1].node, req.path)| > 0
      && Stack(run[m].node, req.path) == Stack(run[m - 1].node, req.path)[..|Stack(run[m - 1].node, req.path)| - 1]
    ensures !pc.RemoveAll? && o.Failed? ==> Next(run, m, c) == Leaving(Error(Internal))
    ensures pc.RemoveAll? ==> Next(run, m, c) == Leaving(Ok)
    ensures pc in {Inspect, Unmount, RemoveAll}
  {
  }

  /** The call has just removed its directory, with whatever outcome, after an unmount that succeeded. */
  ghost predicate HasCleared(w: World, run: seq<State>, i: nat, c: nat, req: Request) {
    && (exists o :: Performs(w, run, i, c, req, RemoveAll, o))
    && HasDone(w, run, i, c, req, Unmount, Succeeded)
  }

  lemma RemovesAfterUnmount(w: World, run: seq<State>, i: nat, c: nat)
    requires IsRun(w, run) && i < |run| && c in run[i].calls && run[i].calls[c].pc.RemoveAll?
    ensures HasDone(w, run, i, c, run[i].calls[c].req, Unmount, Succeeded)
  {
    var m, e := LastMove(w, run, i, c);
    assert Performs(w, run, m, c, run[i].calls[c].req, Unmount, Succeeded);
  }

  /**
   When an unstage or unpublish call comes to its result, in any run, it succeeds exactly when it has
   found its path not mounted, or not there, or has unmounted it itself and tried to remove the
   directory; and else it fails, as internal, exactly when its inspection or unmount fails.
   */
  lemma UnmountEndsIff(w: World, run: seq<State>, i: nat, c: nat, k: Call)
    requires ComesTo(w, run, i, c, k) && (k.req.Unstage? || k.req.Unpublish?)
    ensures k.pc.result == Ok <==>
      || Performs(w, run, i, c, k.req, Inspect, NotMounted) || Performs(w, run, i, c, k.req, Inspect, NotExist)
      || HasCleared(w, run, i, c, k.req)
    ensures k.pc.result == Error(Internal) <==>
      Performs(w, run, i, c, k.req, Inspect, Failed) || Performs(w, run, i, c, k.req, Unmount, Failed)
    ensures k.pc.result in {Ok, Error(Internal)}
  {
    var e := ComesBy(w, run, i, c, k);
    if e.Act? {
      UnmountGoesOn(w, run, i, c, k.req, run[i - 1].calls[c].pc, e.outcome);
      if run[i - 1].calls[c].pc.RemoveAll? {
        RemovesAfterUnmount(w, run, i - 1, c);
        var m :| 0 < m <= i - 1 && Performs(w, run, m, c, k.req, Unmount, Succeeded);
        assert HasCleared(w, run, i, c, k.req);
      }
    }
    forall pc, o: Outcome | Performs(w, run, i, c, k.req, pc, o)
      ensures pc.Inspect? && (o.NotMounted? || o.NotExist?) ==> k.pc.result == Ok
      ensures pc.RemoveAll? ==> k.pc.result == Ok
      ensures !pc.RemoveAll? && o.Failed? ==> k.pc.result == Error(Internal)
    {
      UnmountGoesOn(w, run, i, c, k.req, pc, o);
    }
  }
}

/** What a call of the controller has heard and done on its way to where it stands. */
module ControllerHistory {
  import opened ControllerModel
  import opened ControllerLocks

  /** At step m call c, standing at pc, hears the reply r. */
  ghost predicate Hears(w: World, run: seq<State>, m: nat, c: nat, req: Request, pc: Pc, r: Reply) {
    && IsRun(w, run) && 0 < m < |run|
    && c in run[m - 1].calls && run[m - 1].calls[c] == Call(req, pc)
    && Exchanges(w, run[m - 1], run[m], c, r)
  }

  /** At step m call c enters, or is turned away. */
  ghost predicate Knocks(w: World, run: seq<State>, m: nat, c: nat, req: Request) {
    && IsRun(w, run) && 0 < m < |run|
    && c in run[m - 1].calls && run[m - 1].calls[c] == Call(req, Arrived)
    && Enters(w, run[m - 1], run[m], c)
  }

  /** Only a call's own steps move it. */
  lemma OwnStep(w: World, s: State, s': State, d: nat, e: Event, c: nat)
    requires StepBy(w, s, s', d, e) && c in s'.calls && !(c in s.calls && s.calls[c] == s'.calls[c])
    ensures d == c && !e.Land?
  {
  }

  /** The step at which a call came to where it stands. */
  lemma {:induction false} LastMove(w: World, run: seq<State>, i: nat, c: nat) returns (m: nat, e: Event)
    requires IsRun(w, run) && i < |run| && c in run[i].calls
    ensures 0 < m <= i && c in run[m].calls && run[m].calls[c] == run[i].calls[c]
    ensures StepBy(w, run[m - 1], run[m], c, e) && !e.Land?
    ensures !(c in run[m - 1].calls && run[m - 1].calls[c] == run[i].calls[c])
    decreases i
  {
    if c in run[i - 1].calls && run[i - 1].calls[c] == run[i].calls[c] {
      m, e := LastMove(w, run, i - 1, c);
    } else {
      assert StepAt(w, run, i);
      m := i;
      var d: nat;
      d, e :| StepBy(w, run[i - 1], run[i], d, e);
      OwnStep(w, run[i - 1], run[i], d, e, c);
    }
  }

  /** A call comes to a result by a reply it hears, or where it enters. */
  lemma ComesBy(w: World, run: seq<State>, i: nat, c: nat, k: Call) returns (e: Event)
    requires ComesTo(w, run, i, c, k)
    ensures StepBy(w, run[i - 1], run[i], c, e) && (e.Enter? || e.Exchange?)
    ensures c in run[i - 1].calls && run[i - 1].calls[c].req == k.req
    ensures e.Exchange? ==> Hears(w, run, i, c, k.req, run[i - 1].calls[c].pc, e.reply)
    ensures e.Enter? ==> Knocks(w, run, i, c, k.req)
  {
    assert StepAt(w, run, i);
    var d: nat;
    d, e :| StepBy(w, run[i - 1], run[i], d, e);
    OwnStep(w, run[i - 1], run[i], d, e, c);
  }

  /** What a call returns is what it came to under its lock, or it was turned away. */
  lemma ReturnsItsResult(w: World, run: seq<State>, i: nat, c: nat)
    requires IsRun(w, run) && i < |run| && c in run[i].calls && run[i].calls[c].pc.Returned?
    ensures var k := run[i].calls[c];
      exists m | 0 < m <= i :: ComesTo(w, run, m, c, Call(k.req, Leaving(k.pc.result))) || Knocks(w, run, m, c, k.req)
  {
    var k := run[i].calls[c];
    var m, e := LastMove(w, run, i, c);
    if e.Return? {
      var n, f := LastMove(w, run, m - 1, c);
      assert ComesTo(w, run, n, c, Call(k.req, Leaving(k.pc.result)));
    } else {
      assert Knocks(w, run, m, c, k.req);
    }
  }

  // ---------------------------------------------------------------- before the first reply

  /** What a call is about, as a string: a name for a new object, an id for one there is. */
  function Subject(req: Request): string {
    if req.CreateVolume? then req.name
    else if req.CreateSnapshot? then req.name
    else if req.DeleteSnapshot? then req.snapshotId
    else req.volumeId
  }

  lemma SubjectIsKey(req: Request)
    ensures Subject(req) == Key(req)
  {
  }

  /** Some argument is missing without which a request is refused. */
  predicate Incomplete(req: Request) {
    || Subject(req) == ""
    || (req.CreateVolume? && |req.caps| == 0)
    || (req.PublishVolume? && (req.nodeId == "" || !req.capability))
    || (req.ExpandVolume? && !(req.range.Some? && 0 < req.range.value.required))
    || (req.CreateSnapshot? && req.volumeId == "")
  }

  ghost predicate InFlight(s: State, c: nat) {
    c in s.calls && Holds(s.calls[c])
  }

  /** Some call in flight is about the string. */
  ghost predicate SomeoneAbout(s: State, subject: string) {
    exists d | d in s.calls :: Holds(s.calls[d]) && Subject(s.calls[d].req) == subject
  }

  /**
   A call is refused with an invalid argument exactly when it is incomplete, and else aborted exactly
   when some call in flight is about the same string.
   */
  lemma TurnedAwayIff(w: World, run: seq<State>, m: nat, c: nat, req: Request)
    requires Knocks(w, run, m, c, req)
    ensures var pc := run[m].calls[c].pc;
      && (pc == Returned(Error(InvalidArgument)) <==> Incomplete(req))
      && (pc == Returned(Error(Aborted)) <==>
            !Incomplete(req) && SomeoneAbout(run[m - 1], Subject(req)))
      && (pc.Returned? ==> pc.result.Error? && pc.result.code in {InvalidArgument, Aborted})
  {
    LocksInRun(w, run, m - 1);
    var s := run[m - 1];
    SubjectIsKey(req);
    forall d | InFlight(s, d) ensures Subject(s.calls[d].req) == Key(s.calls[d].req) {
      SubjectIsKey(s.calls[d].req);
    }
    if Key(req) in s.locks {
      assert SomeHolder(s, Key(req));
      var d :| d in s.calls && Holds(s.calls[d]) && Key(s.calls[d].req) == Key(req);
      assert Holds(s.calls[d]) && Subject(s.calls[d].req) == Subject(req);
    }
  }

  /** No two calls about one string are in flight, in any state of any run. */
  lemma OneAtATime(w: World, run: seq<State>, i: nat, c: nat, d: nat)
    requires IsRun(w, run) && i < |run| && c != d && InFlight(run[i], c) && InFlight(run[i], d)
    ensures Subject(run[i].calls[c].req) != Subject(run[i].calls[d].req)
  {
    LocksInRun(w, run, i);
    SubjectIsKey(run[i].calls[c].req);
    SubjectIsKey(run[i].calls[d].req);
  }

  /** What the driver answers without a backend. */
  predicate MockResult(req: Request, result: Result) {
    match req
    case CreateVolume(name, caps, range, _) =>
      if exists c | c in caps :: !c.Mount? then result == Error(InvalidArgument)
      else if ChosenSize(range).None? then result == Error(OutOfRange)
      else result == VolumeCreated("vol-" + name, ChosenSize(range).value)
    case PublishVolume(_, _, _) => result == Published("/dev/vdb")
    case ExpandVolume(_, range) => range.Some? && result == Expanded(range.value.required)
    case CreateSnapshot(name, source) => result == SnapshotCreated("snap-" + name, source, 10 * 0x4000_0000)
    case _ => result == Done
  }

  /**
   A call that gets its lock is answered at once exactly when there is no backend, or it is a
   CreateVolume for something else than mounts or with a size out of range; the backend is not
   asked for anything but what the call is for.
   */
  lemma AdmittedIff(w: World, run: seq<State>, m: nat, c: nat, req: Request)
    requires Knocks(w, run, m, c, req) && !run[m].calls[c].pc.Returned?
    ensures var pc := run[m].calls[c].pc;
      && (!w.client ==> pc.Leaving? && MockResult(req, pc.result))
      && (w.client ==>
           if req.CreateVolume? && exists c | c in req.caps :: !c.Mount? then pc == Leaving(Error(InvalidArgument))
           else if req.CreateVolume? && ChosenSize(req.range).None? then pc == Leaving(Error(OutOfRange))
           else if req.CreateVolume? && req.content.Some? then pc == VerifySource
           else if req.DeleteVolume? || req.UnpublishVolume? || req.DeleteSnapshot? then pc == Write(0)
           else pc == Lookup)
    ensures run[m].backend == run[m - 1].backend
  {
  }
}

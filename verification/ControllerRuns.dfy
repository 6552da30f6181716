/** Building concrete runs of the controller in which one call after the other is alone. */
module ControllerRuns {
  import opened ControllerModel

  ghost function Last(run: seq<State>): State
    requires run != []
  {
    run[|run| - 1]
  }

  /** Nobody holds a lock. */
  predicate Idle(s: State) {
    s.locks == {}
  }

  /** Call c alone has come to pc since the idle state `base`; the backend is unchanged. */
  function During(base: State, c: nat, req: Request, pc: Pc): State {
    State({Key(req)}, base.backend, base.calls[c := Call(req, pc)], base.underway)
  }

  ghost predicate Allowed(w: World, req: Request) {
    w.exactSizes ==> RequiresExact(req)
  }

  /** An idle start over the backend b. */
  lemma Fresh(w: World, b: Backend) returns (run: seq<State>)
    requires InBounds(w, b)
    ensures IsRun(w, run) && |run| == 1 && run[0] == State({}, b, map[], [])
  {
    run := [State({}, b, map[], [])];
  }

  /** Call c arrives and takes its lock. */
  lemma Begin(w: World, before: seq<State>, c: nat, req: Request) returns (run: seq<State>)
    requires IsRun(w, before) && Idle(Last(before)) && c !in Last(before).calls
    requires !Malformed(req) && Allowed(w, req)
    ensures IsRun(w, run) && before < run && Last(run) == During(Last(before), c, req, AfterLock(w, req))
    ensures |run| == |before| + 2 && c in run[|before|].calls && run[|before|].calls[c].pc.Arrived?
    ensures run[|before|].backend == Last(before).backend
  {
    var base := Last(before);
    PresentIsWithin(w, before);
    var s1 := base.(calls := base.calls[c := Call(req, Arrived)]);
    var s2 := During(base, c, req, AfterLock(w, req));
    Extend(w, before, s1, c, Arrive(req));
    assert s2.calls == s1.calls[c := Call(req, AfterLock(w, req))];
    Extend(w, before + [s1], s2, c, Enter);
    run := before + [s1] + [s2];
  }

  /** Call c reads. */
  lemma Read(w: World, before: seq<State>, base: State, c: nat, req: Request, pc: Pc, r: Reply) returns (run: seq<State>)
    requires IsRun(w, before) && Last(before) == During(base, c, req, pc)
    requires Talking(Call(req, pc)) && !pc.Write? && Answers(req, pc, r) && Reads(w, base.backend, req, pc, r)
    ensures IsRun(w, run) && before < run && Last(run) == During(base, c, req, AfterReply(req, pc, r))
    ensures |run| == |before| + 1
  {
    PresentIsWithin(w, before);
    var s, s' := During(base, c, req, pc), During(base, c, req, AfterReply(req, pc, r));
    assert s'.calls == s.calls[c := Call(req, AfterReply(req, pc, r))];
    assert Exchanges(w, s, s', c, r);
    Extend(w, before, s', c, Exchange(r));
    run := before + [s'];
  }

  /** Call c writes, with the effect b' and late' on the backend and on what is under way. */
  lemma WriteOnce(w: World, before: seq<State>, base: State, c: nat, req: Request, pc: Pc, r: Reply,
                  b': Backend, late': seq<Request>) returns (run: seq<State>)
    requires IsRun(w, before) && Last(before) == During(base, c, req, pc)
    requires Talking(Call(req, pc)) && pc.Write? && Answers(req, pc, r) && InBounds(w, b')
    requires Submits(w, base.backend, base.underway, b', late', req, r)
    ensures IsRun(w, run) && before < run && |run| == |before| + 1
    ensures Last(run) == During(base.(backend := b', underway := late'), c, req, AfterReply(req, pc, r))
  {
    PresentIsWithin(w, before);
    var s, s' := During(base, c, req, pc), During(base.(backend := b', underway := late'), c, req, AfterReply(req, pc, r));
    assert s'.calls == s.calls[c := Call(req, AfterReply(req, pc, r))];
    assert Exchanges(w, s, s', c, r);
    Extend(w, before, s', c, Exchange(r));
    run := before + [s'];
  }

  /** Call c releases its lock and returns. */
  lemma Finish(w: World, before: seq<State>, base: State, c: nat, req: Request, result: Result) returns (run: seq<State>)
    requires IsRun(w, before) && Last(before) == During(base, c, req, Leaving(result)) && Idle(base)
    ensures IsRun(w, run) && before < run && |run| == |before| + 1
    ensures Last(run) == base.(calls := base.calls[c := Call(req, Returned(result))])
  {
    PresentIsWithin(w, before);
    var s := Last(before);
    var s' := base.(calls := base.calls[c := Call(req, Returned(result))]);
    assert s'.calls == s.calls[c := Call(req, Returned(result))];
    assert s.locks - {Key(req)} == {};
    Extend(w, before, s', c, Return);
    run := before + [s'];
  }

  /** The only write under way takes effect. */
  lemma LandOnly(w: World, before: seq<State>, req: Request, b': Backend) returns (run: seq<State>)
    requires IsRun(w, before) && Last(before).underway == [req]
    requires Commits(w, Last(before).backend, b', req) && InBounds(w, b')
    ensures IsRun(w, run) && before < run && |run| == |before| + 1
    ensures Last(run) == Last(before).(backend := b', underway := [])
  {
    PresentIsWithin(w, before);
    var s := Last(before);
    var s' := s.(backend := b', underway := []);
    assert s.underway[..0] + s.underway[1..] == [];
    assert Lands(w, s, s', 0);
    Extend(w, before, s', 0, Land(0));
    run := before + [s'];
  }

  /**
   Call c, at its write, is left with a lost reply: it fails and returns, and its write stays under
   way.
   */
  lemma Abandon(w: World, before: seq<State>, base: State, c: nat, req: Request, pc: Pc) returns (run: seq<State>)
    requires IsRun(w, before) && Last(before) == During(base, c, req, pc) && Idle(base) && base.underway == []
    requires w.lateWrites && Talking(Call(req, pc)) && pc.Write?
    ensures IsRun(w, run) && before < run
    ensures Idle(Last(run)) && Last(run).backend == base.backend && Last(run).underway == [req]
    ensures Last(run).calls.Keys == base.calls.Keys + {c}
  {
    PresentIsWithin(w, before);
    run := WriteOnce(w, before, base, c, req, pc, Failure(""), base.backend, [req]);
    var result := AfterReply(req, pc, Failure("")).result;
    run := Finish(w, run, base.(underway := [req]), c, req, result);
  }
}

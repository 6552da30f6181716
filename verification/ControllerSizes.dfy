/** Expanding volumes: what the driver asks of the backend and what it reports. */
module ControllerSizes {
  import opened Options
  import opened WireSizes
  import opened ControllerModel
  import opened ControllerLocks
  import opened ControllerRuns

  /** A size that was read is the true one, and still will be when the EXPAND takes effect. */
  predicate Trusted(w: World) {
    w.sizedReads && w.exactSizes && !w.lateWrites
  }

  /** The bytes an expand call asks for. */
  function Asked(req: Request): int {
    if req.ExpandVolume? && req.range.Some? then req.range.value.required else 0
  }

  /** An EXPAND that is about to be issued asks for strictly more than the volume has. */
  predicate Fact(w: World, b: Backend, k: Call) {
    k.req.ExpandVolume? && k.pc.Write? && Trusted(w) ==>
      k.req.volumeId in b.volumes && b.volumes[k.req.volumeId].size < Asked(k.req)
  }

  predicate ExpandedResult(k: Call) {
    k.req.ExpandVolume? && k.req.range.Some? && (k.pc.Leaving? || k.pc.Returned?) && k.pc.result.Expanded?
  }

  /** A successful expand reports at least what was asked. */
  predicate ResultFact(w: World, k: Call) {
    ExpandedResult(k) && w.exactSizes ==> k.pc.result.bytes >= Asked(k.req)
  }

  ghost predicate Inv(w: World, s: State) {
    && LockInv(w, s)
    && Within(w, s)
    && forall c | c in s.calls :: Fact(w, s.backend, s.calls[c]) && ResultFact(w, s.calls[c])
  }

  /** No volume present before and after is smaller afterwards. */
  predicate NoneShrinks(b: Backend, b': Backend) {
    forall id | id in b.volumes && id in b'.volumes :: b.volumes[id].size <= b'.volumes[id].size
  }

  lemma WriteNeverShrinks(w: World, b: Backend, b': Backend, k: Call, r: Reply)
    requires k.pc.Write? && Answers(k.req, k.pc, r) && Writes(w, b, b', k.req, r)
    requires Trusted(w) && Fact(w, b, k)
    ensures NoneShrinks(b, b')
  {
  }

  /** A write under another key changes no size of the volume. */
  lemma OtherFact(w: World, b: Backend, b': Backend, req: Request, r: Reply, k: Call)
    requires Answers(req, Write(0), r) && Writes(w, b, b', req, r)
    requires Fact(w, b, k) && (Holds(k) ==> Key(k.req) != Key(req))
    ensures Fact(w, b', k)
  {
  }

  lemma OwnFact(w: World, s: State, s': State, c: nat, r: Reply)
    requires LockInv(w, s) && Within(w, s) && Within(w, s') && Exchanges(w, s, s', c, r)
    ensures Fact(w, s'.backend, s'.calls[c]) && ResultFact(w, s'.calls[c])
  {
    var k := s.calls[c];
    if k.req.ExpandVolume? && w.exactSizes {
      var id := k.req.volumeId;
      if id in s.backend.volumes {
        ExactUpTo2Pow53(s.backend.volumes[id].size);
      }
      if id in s'.backend.volumes {
        ExactUpTo2Pow53(s'.backend.volumes[id].size);
      }
    }
  }

  lemma ExchangeKeeps(w: World, s: State, s': State, c: nat, r: Reply)
    requires Inv(w, s) && Exchanges(w, s, s', c, r) && Within(w, s')
    ensures forall d | d in s'.calls :: Fact(w, s'.backend, s'.calls[d]) && ResultFact(w, s'.calls[d])
    ensures Trusted(w) ==> NoneShrinks(s.backend, s'.backend)
  {
    var k := s.calls[c];
    OwnFact(w, s, s', c, r);
    if k.pc.Write? {
      if Trusted(w) {
        WriteNeverShrinks(w, s.backend, s'.backend, k, r);
      }
      forall d | d in s'.calls && d != c
        ensures Fact(w, s'.backend, s'.calls[d]) && ResultFact(w, s'.calls[d])
      {
        OtherFact(w, s.backend, s'.backend, k.req, r, s.calls[d]);
      }
    }
  }

  /** The other steps leave the backend alone, unless a late write takes effect. */
  lemma QuietKeeps(w: World, s: State, s': State, c: nat, e: Event)
    requires Inv(w, s) && StepBy(w, s, s', c, e) && !e.Exchange?
    ensures forall d | d in s'.calls :: Fact(w, s'.backend, s'.calls[d]) && ResultFact(w, s'.calls[d])
    ensures Trusted(w) ==> s'.backend == s.backend
  {
    forall d | d in s'.calls ensures Fact(w, s'.backend, s'.calls[d]) && ResultFact(w, s'.calls[d]) {
      assert d in s.calls ==> Fact(w, s.backend, s.calls[d]) && ResultFact(w, s.calls[d]);
    }
  }

  lemma StepKeeps(w: World, s: State, s': State, c: nat, e: Event)
    requires Inv(w, s) && StepBy(w, s, s', c, e) && Within(w, s')
    ensures Inv(w, s')
    ensures Trusted(w) ==> NoneShrinks(s.backend, s'.backend)
  {
    StepKeepsLocks(w, s, s', c, e);
    if e.Exchange? {
      ExchangeKeeps(w, s, s', c, e.reply);
    } else {
      QuietKeeps(w, s, s', c, e);
    }
  }

  lemma {:induction false} InvInRun(w: World, run: seq<State>, i: nat)
    requires IsRun(w, run) && i < |run|
    ensures Inv(w, run[i])
    ensures Trusted(w) && i > 0 ==> NoneShrinks(run[i - 1].backend, run[i].backend)
  {
    if i > 0 {
      InvInRun(w, run, i - 1);
      assert StepAt(w, run, i);
      var c: nat, e :| StepBy(w, run[i - 1], run[i], c, e);
      StepKeeps(w, run[i - 1], run[i], c, e);
    }
  }

  // ---------------------------------------------------------------- what follows for runs

  /**
   With trusted reads and no late writes: an EXPAND is only ever about to be issued for strictly
   more than the volume has, and every success reports at least what was asked.
   */
  lemma ExpandOnlyGrows(w: World, run: seq<State>, i: nat, c: nat)
    requires IsRun(w, run) && i < |run| && Trusted(w) && c in run[i].calls
    ensures var k := run[i].calls[c];
      && (k.req.ExpandVolume? && k.pc.Write? ==>
            k.req.volumeId in run[i].backend.volumes
            && run[i].backend.volumes[k.req.volumeId].size < Asked(k.req))
      && (ExpandedResult(k) ==> k.pc.result.bytes >= Asked(k.req))
  {
    InvInRun(w, run, i);
    var s := run[i];
    assert Fact(w, s.backend, s.calls[c]) && ResultFact(w, s.calls[c]);
  }

  /** At the moment of its success, the volume has what the call asked for. */
  lemma LargeAtSuccess(w: World, run: seq<State>, i: nat, c: nat, k: Call)
    requires ComesTo(w, run, i, c, k) && ExpandedResult(k) && w.client && w.exactSizes
    ensures k.req.volumeId in run[i].backend.volumes
    ensures run[i].backend.volumes[k.req.volumeId].size >= Asked(k.req)
  {
    InvInRun(w, run, i - 1);
    assert StepAt(w, run, i);
    var d: nat, e :| StepBy(w, run[i - 1], run[i], d, e);
    SuccessStep(w, run[i - 1], run[i], d, e, c, k);
  }

  lemma SuccessStep(w: World, s: State, s': State, d: nat, e: Event, c: nat, k: Call)
    requires LockInv(w, s) && Within(w, s) && StepBy(w, s, s', d, e) && ExpandedResult(k) && k.pc.Leaving?
    requires c in s'.calls && s'.calls[c] == k && !(c in s.calls && s.calls[c] == k)
    requires w.client && w.exactSizes
    ensures k.req.volumeId in s'.backend.volumes && s'.backend.volumes[k.req.volumeId].size >= Asked(k.req)
  {
    if e.Exchange? && k.req.volumeId in s.backend.volumes {
      ExactUpTo2Pow53(s.backend.volumes[k.req.volumeId].size);
    }
  }

  /** While it is there, the volume keeps what it has. */
  lemma {:induction false} StaysLarge(w: World, run: seq<State>, i: nat, j: nat, id: string)
    requires IsRun(w, run) && Trusted(w) && i <= j < |run| && Throughout(run, i, j, id)
    ensures run[i].backend.volumes[id].size <= run[j].backend.volumes[id].size
  {
    if i < j {
      StaysLarge(w, run, i, j - 1, id);
      InvInRun(w, run, j);
    }
  }

  /** In every run of this world, no step makes a volume smaller. */
  ghost predicate NeverShrinks(w: World) {
    forall run: seq<State>, i: nat | IsRun(w, run) && 0 < i < |run| :: NoneShrinks(run[i - 1].backend, run[i].backend)
  }

  function Sized(size: nat): Backend {
    Backend(map["1" := Volume("a", size)], {}, map[])
  }

  function Expand1(asked: int): Request {
    ExpandVolume("1", Some(CapacityRange(asked, 0)))
  }

  /** An expand call gets as far as its EXPAND. */
  lemma UntilExpand(w: World, before: seq<State>, c: nat, asked: nat, r: Reply) returns (run: seq<State>)
    requires IsRun(w, before) && Idle(Last(before)) && c !in Last(before).calls && w.client
    requires 0 < asked && (w.exactSizes ==> asked <= TWO53)
    requires (r.VolumeInfo? || r.Failure?) && ReadsVolume(w, Last(before).backend, "1", r)
    requires AfterReply(Expand1(asked), Lookup, r) == Write(0)
    ensures IsRun(w, run) && before < run && Last(run) == During(Last(before), c, Expand1(asked), Write(0))
    ensures forall i | |before| <= i < |run| :: run[i].backend == Last(before).backend
  {
    var begun := Begin(w, before, c, Expand1(asked));
    run := Read(w, begun, Last(before), c, Expand1(asked), Lookup, r);
    assert run[|before|] == begun[|before|] && run[|before| + 1] == Last(begun);
  }

  lemma Shrinks(w: World, before: seq<State>, run: seq<State>, size: nat, size': nat)
    requires IsRun(w, run) && before != [] && before < run && |run| == |before| + 1
    requires Last(before).backend == Sized(size) && Last(run).backend == Sized(size') && size' < size
    ensures !NeverShrinks(w)
  {
    var i := |before|;
    assert run[i - 1] == Last(before) && run[i] == Last(run);
    assert "1" in run[i].backend.volumes;
    assert !NoneShrinks(run[i - 1].backend, run[i].backend);
  }

  /** One expand call that issues an EXPAND for less than the volume has. */
  lemma ShrinkingRun(w: World, size: nat, asked: nat, r: Reply)
    requires w.client && 0 < asked < size
    requires w.exactSizes ==> size <= TWO53
    requires (r.VolumeInfo? || r.Failure?) && ReadsVolume(w, Sized(size), "1", r)
    requires AfterReply(Expand1(asked), Lookup, r) == Write(0)
    ensures !NeverShrinks(w)
  {
    FewSnapshotsFit(Sized(size), {});
    FewSnapshotsFit(Sized(asked), {});
    var run := Fresh(w, Sized(size));
    var base := Last(run);
    run := UntilExpand(w, run, 0, asked, r);
    var before := run;
    assert Grows(Sized(size), Sized(asked), "1", asked);
    run := WriteOnce(w, run, base, 0, Expand1(asked), Write(0), Failure(""), Sized(asked), []);
    Shrinks(w, before, run, size, asked);
  }

  /** A failed read does not stop the call: it issues its EXPAND blindly. */
  lemma BlindExpandShrinks(w: World)
    requires w.client && !w.sizedReads
    ensures !NeverShrinks(w)
  {
    ShrinkingRun(w, 2, 1, Failure(""));
  }

  const TWO60 := 0x1000_0000_0000_0000

  lemma RoundsDown()
    ensures Float64(TWO60 + 127) == TWO60
  {
    assert TWO60 == 0x10_0000_0000_0000 * 256;
    assert Pow2(8) == 256;
    ExponentIs(TWO60 + 127, 0x10_0000_0000_0000, 8, 127);
  }

  /** Above 2^53 the reported size may be below the true one, and a request may lie between them. */
  lemma RoundedExpandShrinks(w: World)
    requires w.client && !w.exactSizes
    ensures !NeverShrinks(w)
  {
    RoundsDown();
    var size := TWO60 + 127;
    ShrinkingRun(w, size, TWO60 + 100, VolumeInfo("1", TWO60, "", ""));
  }

  /** An EXPAND to 2 whose reply is lost is still under way ... */
  lemma OneExpandUnderWay(w: World) returns (run: seq<State>)
    requires w.client && w.lateWrites
    ensures IsRun(w, run) && Idle(Last(run)) && Last(run).calls.Keys == {0}
    ensures Last(run).backend == Sized(1) && Last(run).underway == [Expand1(2)]
  {
    FewSnapshotsFit(Sized(1), {});
    ExactUpTo2Pow53(1);
    run := Fresh(w, Sized(1));
    var base := Last(run);
    run := UntilExpand(w, run, 0, 2, VolumeInfo("1", 1, "", ""));
    run := Abandon(w, run, base, 0, Expand1(2), Write(0));
  }

  /** ... when a later one is granted 3. */
  lemma ExpandedWithOneUnderWay(w: World) returns (run: seq<State>, base: State)
    requires w.client && w.lateWrites
    ensures IsRun(w, run) && Last(run).backend == Sized(3) && Last(run).underway == [Expand1(2)]
    ensures Idle(base) && base.calls.Keys == {0} && Last(run) == During(base, 1, Expand1(3), Leaving(Expanded(3)))
    ensures |run| > 1 && run[|run| - 2].calls == base.calls[1 := Call(Expand1(3), Write(0))]
  {
    FewSnapshotsFit(Sized(3), {});
    ExactUpTo2Pow53(1);
    run := OneExpandUnderWay(w);
    base := Last(run);
    run := UntilExpand(w, run, 1, 3, VolumeInfo("1", 1, "", ""));
    assert Grows(Sized(1), Sized(3), "1", 3);
    run := WriteOnce(w, run, base, 1, Expand1(3), Write(0), Accepted("", 0), Sized(3), [Expand1(2)]);
    base := base.(backend := Sized(3));
  }

  /** Then the first one takes effect. */
  lemma LateExpandShrinks(w: World)
    requires w.client && w.lateWrites
    ensures !NeverShrinks(w)
  {
    var before, _ := ExpandedWithOneUnderWay(w);
    FewSnapshotsFit(Sized(2), {});
    assert Grows(Sized(3), Sized(2), "1", 2);
    var run := LandOnly(w, before, Expand1(2), Sized(2));
    Shrinks(w, before, run, 3, 2);
  }

  /**
   No run makes a volume smaller if and only if reads by id succeed with a size, all sizes are at
   most 2^53 and no EXPAND takes effect after its call has returned (or there is no backend).
   */
  lemma NeverShrinksIff(w: World)
    ensures NeverShrinks(w) <==> !w.client || (w.sizedReads && w.exactSizes && !w.lateWrites)
  {
    if w.client && !w.sizedReads {
      BlindExpandShrinks(w);
    } else if w.client && !w.exactSizes {
      RoundedExpandShrinks(w);
    } else if w.client && w.lateWrites {
      LateExpandShrinks(w);
    } else {
      forall run: seq<State>, i: nat | IsRun(w, run) && 0 < i < |run|
        ensures NoneShrinks(run[i - 1].backend, run[i].backend)
      {
        InvInRun(w, run, i);
        if !w.client {
          IdleBackend(w, run, i);
        }
      }
    }
  }

  /** Without a client nothing reaches the backend. */
  lemma IdleBackend(w: World, run: seq<State>, i: nat)
    requires IsRun(w, run) && 0 < i < |run| && !w.client
    ensures run[i].backend == run[i - 1].backend
  {
    LocksInRun(w, run, i - 1);
    assert StepAt(w, run, i);
    var c: nat, e :| StepBy(w, run[i - 1], run[i], c, e);
  }
}

/** One name, one volume: what retried and concurrent CreateVolume calls leave in the backend. */
module ControllerNames {
  import opened Options
  import opened WireSizes
  import opened ControllerModel
  import opened ControllerLocks
  import opened ControllerRuns

  /** A lookup tells what will still be so when the CREATE takes effect. */
  predicate Trusted(w: World) {
    w.lookups && !w.lateWrites
  }

  /** A name that a CreateVolume call is about to create is not taken, if lookups can be trusted. */
  ghost predicate Fact(w: World, b: Backend, k: Call) {
    k.req.CreateVolume? && k.pc.Write? && Trusted(w) ==> !NameTaken(b, k.req.name)
  }

  predicate CreatedResult(k: Call) {
    k.req.CreateVolume? && (k.pc.Leaving? || k.pc.Returned?) && k.pc.result.VolumeCreated?
  }

  /** A successful CreateVolume reports the size it chose. */
  predicate ResultFact(k: Call) {
    CreatedResult(k) ==> ChosenSize(k.req.range) == Some(k.pc.result.bytes)
  }

  ghost predicate Facts(w: World, s: State) {
    forall c | c in s.calls :: Fact(w, s.backend, s.calls[c]) && ResultFact(s.calls[c])
  }

  ghost predicate Inv(w: World, s: State) {
    && LockInv(w, s)
    && (Trusted(w) || w.refusesDuplicates || !w.client ==> UniqueNames(s.backend))
    && Facts(w, s)
  }

  lemma OtherFact(w: World, b: Backend, b': Backend, req: Request, r: Reply, k: Call)
    requires Answers(req, Write(0), r) && Writes(w, b, b', req, r)
    requires Fact(w, b, k) && ResultFact(k)
    requires Holds(k) ==> Key(k.req) != Key(req)
    ensures Fact(w, b', k) && ResultFact(k)
  {
  }

  /** No size on the wire is negative, so a size that is reported at all is compared as it is. */
  lemma OwnFact(w: World, s: State, s': State, c: nat, r: Reply)
    requires LockInv(w, s) && Facts(w, s) && Exchanges(w, s, s', c, r)
    ensures Fact(w, s'.backend, s'.calls[c]) && ResultFact(s'.calls[c])
  {
    var k := s.calls[c];
    if k.req.CreateVolume? && k.pc.Write? && s'.backend != s.backend {
      assert Commits(w, s.backend, s'.backend, k.req);
      var id :| AddsVolume(s.backend, s'.backend, id, Volume(k.req.name, ChosenSize(k.req.range).value));
    }
  }

  lemma WriteKeepsUnique(w: World, b: Backend, b': Backend, k: Call)
    requires k.pc.Write? && Commits(w, b, b', k.req)
    requires UniqueNames(b) && Fact(w, b, k) && (k.req.CreateVolume? ==> Trusted(w) || w.refusesDuplicates)
    ensures UniqueNames(b')
  {
  }

  lemma ExchangeKeeps(w: World, s: State, s': State, c: nat, r: Reply)
    requires Inv(w, s) && Exchanges(w, s, s', c, r)
    ensures Trusted(w) || w.refusesDuplicates ==> UniqueNames(s'.backend)
    ensures Facts(w, s')
  {
    var k := s.calls[c];
    OwnFact(w, s, s', c, r);
    if k.pc.Write? {
      if (Trusted(w) || w.refusesDuplicates) && s'.backend != s.backend {
        WriteKeepsUnique(w, s.backend, s'.backend, k);
      }
      forall d | d in s'.calls && d != c
        ensures Fact(w, s'.backend, s'.calls[d]) && ResultFact(s'.calls[d])
      {
        OtherFact(w, s.backend, s'.backend, k.req, r, s.calls[d]);
      }
    }
  }

  /** A late write spares names where the backend looks after them. */
  lemma LandKeeps(w: World, s: State, s': State, i: nat)
    requires Inv(w, s) && Lands(w, s, s', i)
    ensures Trusted(w) || w.refusesDuplicates ==> UniqueNames(s'.backend)
    ensures Facts(w, s')
  {
    var req := s.underway[i];
    assert w.client && w.lateWrites;
    if s'.backend != s.backend && w.refusesDuplicates {
      WriteKeepsUnique(w, s.backend, s'.backend, Call(req, Write(0)));
    }
    forall d | d in s'.calls ensures Fact(w, s'.backend, s'.calls[d]) && ResultFact(s'.calls[d]) {
      assert ResultFact(s.calls[d]);
    }
  }

  /** A call that has just arrived, entered or returned; without a backend its result is made up. */
  lemma EnteredFact(w: World, s: State, s': State, c: nat, e: Event)
    requires LockInv(w, s) && Facts(w, s) && StepBy(w, s, s', c, e) && !e.Exchange? && !e.Land?
    ensures s'.backend == s.backend && s'.calls.Keys == s.calls.Keys + {c}
    ensures Fact(w, s'.backend, s'.calls[c]) && ResultFact(s'.calls[c])
    ensures forall d | d in s.calls && d != c :: s'.calls[d] == s.calls[d]
  {
  }

  /** The steps without the backend add no knowledge, except that a mock result is right. */
  lemma QuietKeeps(w: World, s: State, s': State, c: nat, e: Event)
    requires Inv(w, s) && StepBy(w, s, s', c, e) && !e.Exchange? && !e.Land?
    ensures s'.backend == s.backend && Facts(w, s')
  {
    EnteredFact(w, s, s', c, e);
  }

  lemma StepKeeps(w: World, s: State, s': State, c: nat, e: Event)
    requires Inv(w, s) && StepBy(w, s, s', c, e)
    ensures Inv(w, s')
  {
    StepKeepsLocks(w, s, s', c, e);
    if e.Exchange? {
      NeedsClient(w, s, c);
      ExchangeKeeps(w, s, s', c, e.reply);
    } else if e.Land? {
      LandKeeps(w, s, s', e.index);
    } else {
      QuietKeeps(w, s, s', c, e);
    }
  }

  lemma NeedsClient(w: World, s: State, c: nat)
    requires LockInv(w, s) && c in s.calls && Talking(s.calls[c])
    ensures w.client
  {
    assert Checked(w, s.calls[c]);
  }

  lemma {:induction false} InvInRun(w: World, run: seq<State>, i: nat)
    requires IsRun(w, run) && i < |run| && UniqueNames(run[0].backend)
    ensures Inv(w, run[i])
  {
    if i > 0 {
      InvInRun(w, run, i - 1);
      assert StepAt(w, run, i);
      var c: nat, e :| StepBy(w, run[i - 1], run[i], c, e);
      StepKeeps(w, run[i - 1], run[i], c, e);
    }
  }

  // ---------------------------------------------------------------- what follows for runs

  /** Every run of this world keeps names unique. */
  ghost predicate KeepsNamesUnique(w: World) {
    forall run: seq<State> | IsRun(w, run) && UniqueNames(run[0].backend) :: UniqueNames(run[|run| - 1].backend)
  }

  function Named(ids: set<string>): Backend {
    Backend(map id | id in ids :: Volume("a", DEFAULT_VOLUME_SIZE), {}, map[])
  }

  /** Leaving with a new volume of the default size. */
  function Success(id: string): Pc {
    Leaving(VolumeCreated(id, DEFAULT_VOLUME_SIZE))
  }

  /** A request for a volume "a", and the call's way to its CREATE over a lookup that finds nothing. */
  function Request1(): Request {
    CreateVolume("a", [Mount], None, None)
  }

  lemma UntilCreate(w: World, before: seq<State>, c: nat) returns (run: seq<State>)
    requires IsRun(w, before) && Idle(Last(before)) && c !in Last(before).calls && w.client
    requires w.lookups ==> !NameTaken(Last(before).backend, "a")
    ensures IsRun(w, run) && before < run && Last(run) == During(Last(before), c, Request1(), Write(0))
    ensures |run| == |before| + 3
    ensures forall i | |before| <= i < |run| :: run[i].backend == Last(before).backend
  {
    var begun := Begin(w, before, c, Request1());
    run := Read(w, begun, Last(before), c, Request1(), Lookup, Failure(""));
    assert run[|before| + 1] == Last(begun) && run[|before|] == begun[|before|];
  }

  /**
   The backend holds a volume "a"; the lookup of that name fails; the handler goes on to CREATE, and
   the backend now holds two.
   */
  lemma FailedLookupDuplicates(w: World)
    requires w.client && !w.lookups && !w.refusesDuplicates
    ensures !KeepsNamesUnique(w)
  {
    var b, b' := Named({"1"}), Named({"1", "2"});
    FewSnapshotsFit(b, {});
    FewSnapshotsFit(b', {});
    var run := Fresh(w, b);
    var base := Last(run);
    run := UntilCreate(w, run, 0);
    assert AddsVolume(b, b', "2", Volume("a", DEFAULT_VOLUME_SIZE));
    run := WriteOnce(w, run, base, 0, Request1(), Write(0), Failure(""), b', []);
    assert b'.volumes["1"].name == b'.volumes["2"].name;
  }

  /**
   A CREATE whose reply is lost is still under way when the call is repeated: the lookup finds
   nothing yet, and a second CREATE goes through.
   */
  lemma CreatedWithOneUnderWay(w: World) returns (run: seq<State>, base: State)
    requires w.client && w.lateWrites && !w.refusesDuplicates
    ensures IsRun(w, run) && run[0].backend == Named({}) && Last(run).backend == Named({"1"})
    ensures Last(run).underway == [Request1()]
    ensures Idle(base) && base.calls.Keys == {0} && Last(run) == During(base, 1, Request1(), Success("1"))
    ensures |run| > 1 && run[|run| - 2].calls == base.calls[1 := Call(Request1(), Write(0))]
  {
    var b, b' := Named({}), Named({"1"});
    FewSnapshotsFit(b, {});
    FewSnapshotsFit(b', {});
    run := Fresh(w, b);
    base := Last(run);
    run := UntilCreate(w, run, 0);
    run := Abandon(w, run, base, 0, Request1(), Write(0));
    base := Last(run);
    run := UntilCreate(w, run, 1);
    assert AddsVolume(b, b', "1", Volume("a", DEFAULT_VOLUME_SIZE));
    run := WriteOnce(w, run, base, 1, Request1(), Write(0), Accepted("1", 0), b', [Request1()]);
    base := base.(backend := b');
  }

  /** Then the first one takes effect. */
  lemma LateCreateDuplicates(w: World)
    requires w.client && w.lateWrites && !w.refusesDuplicates
    ensures !KeepsNamesUnique(w)
  {
    var run, _ := CreatedWithOneUnderWay(w);
    var b' := Named({"1", "2"});
    FewSnapshotsFit(b', {});
    assert AddsVolume(Named({"1"}), b', "2", Volume("a", DEFAULT_VOLUME_SIZE));
    run := LandOnly(w, run, Request1(), b');
    assert b'.volumes["1"].name == b'.volumes["2"].name;
  }

  /**
   Concurrent and retried CreateVolume calls leave at most one volume of a name in every run, even
   when a CREATE takes effect and its reply is lost, if and only if the backend refuses duplicates,
   or lookups by name do not fail and no CREATE takes effect after its call has returned (or there
   is no backend).
   */
  lemma NamesUniqueIff(w: World)
    ensures KeepsNamesUnique(w) <==> !w.client || w.refusesDuplicates || (w.lookups && !w.lateWrites)
  {
    if !w.client || w.refusesDuplicates || Trusted(w) {
      forall run: seq<State> | IsRun(w, run) && UniqueNames(run[0].backend) ensures UniqueNames(run[|run| - 1].backend) {
        InvInRun(w, run, |run| - 1);
      }
    } else if w.lookups {
      LateCreateDuplicates(w);
    } else {
      FailedLookupDuplicates(w);
    }
  }

  /**
   Every successful CreateVolume, whether it found, created or (without a backend) made up the
   volume, reports the size its request settles on, as long as its result is there to see.
   */
  lemma SuccessesReportTheirSize(w: World, run: seq<State>, i: nat, c: nat)
    requires IsRun(w, run) && i < |run| && UniqueNames(run[0].backend)
    requires c in run[i].calls && CreatedResult(run[i].calls[c])
    ensures ChosenSize(run[i].calls[c].req.range) == Some(run[i].calls[c].pc.result.bytes)
  {
    InvInRun(w, run, i);
  }

  // ---------------------------------------------------------------- one name, one result

  /** Call c, with call k, comes to a successful CreateVolume at step i. */
  ghost predicate Creates(w: World, run: seq<State>, i: nat, c: nat, k: Call) {
    ComesTo(w, run, i, c, k) && CreatedResult(k)
  }

  /** At the moment of its success, the backend holds the volume under the requested name. */
  lemma PresentAtSuccess(w: World, run: seq<State>, i: nat, c: nat, k: Call)
    requires Creates(w, run, i, c, k)
    ensures w.client ==> k.pc.result.id in run[i].backend.volumes
                         && run[i].backend.volumes[k.pc.result.id].name == k.req.name
    ensures !w.client ==> k.pc.result.id == "vol-" + k.req.name
  {
    LocksInRun(w, run, i - 1);
    assert StepAt(w, run, i);
    var d: nat, e :| StepBy(w, run[i - 1], run[i], d, e);
    SuccessStep(w, run[i - 1], run[i], d, e, c, k);
  }

  lemma SuccessStep(w: World, s: State, s': State, d: nat, e: Event, c: nat, k: Call)
    requires LockInv(w, s) && StepBy(w, s, s', d, e) && CreatedResult(k) && k.pc.Leaving?
    requires c in s'.calls && s'.calls[c] == k && !(c in s.calls && s.calls[c] == k)
    ensures w.client ==> k.pc.result.id in s'.backend.volumes
                         && s'.backend.volumes[k.pc.result.id].name == k.req.name
    ensures !w.client ==> k.pc.result.id == "vol-" + k.req.name
  {
    if e.Exchange? {
      NeedsClient(w, s, d);
      if s.calls[d].pc.Write? {
        var id :| AddsVolume(s.backend, s'.backend, id, Volume(k.req.name, ChosenSize(k.req.range).value));
      }
    }
  }

  /** No step renames a volume that stays. */
  lemma NameKept(w: World, s: State, s': State, c: nat, e: Event, id: string)
    requires StepBy(w, s, s', c, e) && id in s.backend.volumes && id in s'.backend.volumes
    ensures s'.backend.volumes[id].name == s.backend.volumes[id].name
  {
  }

  lemma {:induction false} NameStays(w: World, run: seq<State>, i: nat, j: nat, id: string)
    requires IsRun(w, run) && i <= j < |run| && Throughout(run, i, j, id)
    ensures run[j].backend.volumes[id].name == run[i].backend.volumes[id].name
  {
    if i < j {
      NameStays(w, run, i, j - 1, id);
      assert StepAt(w, run, j);
      var c: nat, e :| StepBy(w, run[j - 1], run[j], c, e);
      NameKept(w, run[j - 1], run[j], c, e, id);
    }
  }

  /**
   Two calls for one name succeed one after the other, and what the first one reported is in the
   backend all the time in between, whatever else is created or deleted.
   */
  ghost predicate Repeats(w: World, run: seq<State>, i: nat, c: nat, k: Call, j: nat, d: nat, l: Call) {
    && Creates(w, run, i, c, k) && Creates(w, run, j, d, l) && UniqueNames(run[0].backend)
    && k.req.name == l.req.name && i <= j && (w.client ==> Throughout(run, i, j, k.pc.result.id))
  }

  /** In every run, a repeated success reports the volume again. */
  ghost predicate SuccessesAgree(w: World) {
    forall run: seq<State>, i: nat, c: nat, k: Call, j: nat, d: nat, l: Call |
      Repeats(w, run, i, c, k, j, d, l) :: k.pc.result.id == l.pc.result.id
  }

  lemma SameVolume(w: World, run: seq<State>, i: nat, c: nat, k: Call, j: nat, d: nat, l: Call)
    requires Repeats(w, run, i, c, k, j, d, l) && (!w.client || Trusted(w) || w.refusesDuplicates)
    ensures k.pc.result.id == l.pc.result.id
  {
    PresentAtSuccess(w, run, i, c, k);
    PresentAtSuccess(w, run, j, d, l);
    if w.client {
      NameStays(w, run, i, j, k.pc.result.id);
      InvInRun(w, run, j);
    }
  }

  /** The call's success with a new volume, and its return. */
  lemma CreateAs(w: World, before: seq<State>, c: nat, ids: set<string>, id: string) returns (run: seq<State>)
    requires IsRun(w, before) && Idle(Last(before)) && c !in Last(before).calls && w.client && !w.refusesDuplicates
    requires Last(before).backend == Named(ids) && Last(before).underway == [] && id != "" && id !in ids
    requires w.lookups ==> !NameTaken(Named(ids), "a")
    ensures IsRun(w, run) && before < run && Idle(Last(run)) && Last(run).underway == []
    ensures Last(run).backend == Named(ids + {id}) && Last(run).calls.Keys == Last(before).calls.Keys + {c}
    ensures |run| == |before| + 5
    ensures forall i | |before| <= i < |run| :: ids <= run[i].backend.volumes.Keys
    ensures run[|run| - 2].backend == Named(ids + {id})
    ensures Creates(w, run, |run| - 2, c, Call(Request1(), Success(id)))
  {
    var b, b' := Named(ids), Named(ids + {id});
    var base := Last(before);
    FewSnapshotsFit(b', {});
    var asked := UntilCreate(w, before, c);
    assert AddsVolume(b, b', id, Volume("a", DEFAULT_VOLUME_SIZE));
    var written := WriteOnce(w, asked, base, c, Request1(), Write(0), Accepted(id, 0), b', []);
    run := Finish(w, written, base.(backend := b'), c, Request1(), VolumeCreated(id, DEFAULT_VOLUME_SIZE));
    assert run[|before| + 3] == Last(written) && run[|before| + 2] == Last(asked);
  }

  /** The first success still stands in a longer run. */
  lemma StillCreates(w: World, run: seq<State>, longer: seq<State>, i: nat, c: nat, k: Call)
    requires Creates(w, run, i, c, k) && IsRun(w, longer) && run <= longer
    ensures Creates(w, longer, i, c, k)
  {
    assert longer[i] == run[i] && longer[i - 1] == run[i - 1];
  }

  /** Two calls for one name whose lookups fail create a volume each. */
  lemma FailedLookupDisagrees(w: World)
    requires w.client && !w.lookups && !w.refusesDuplicates
    ensures !SuccessesAgree(w)
  {
    var k, l := Call(Request1(), Success("1")), Call(Request1(), Success("2"));
    FewSnapshotsFit(Named({}), {});
    var start := Fresh(w, Named({}));
    var once := CreateAs(w, start, 0, {}, "1");
    assert {} + {"1"} == {"1"};
    var twice := CreateAs(w, once, 1, {"1"}, "2");
    var i, j := |once| - 2, |twice| - 2;
    StillCreates(w, once, twice, i, 0, k);
    forall m | i <= m <= j ensures "1" in twice[m].backend.volumes {
      if m < |once| {
        assert twice[m] == once[m];
      }
    }
    assert Repeats(w, twice, i, 0, k, j, 1, l);
  }

  /** After a first success, and before the call returns, a late volume appears ... */
  lemma CreatedThenLanded(w: World) returns (once: seq<State>, later: seq<State>)
    requires w.client && w.lateWrites && !w.refusesDuplicates
    ensures once != [] && Creates(w, once, |once| - 1, 1, Call(Request1(), Success("1")))
    ensures once < later && once[0].backend == Named({}) && Last(once).backend == Named({"1"})
    ensures IsRun(w, later) && Idle(Last(later)) && 2 !in Last(later).calls
    ensures forall i | |once| <= i < |later| :: later[i].backend == Named({"1", "2"})
  {
    var b := Named({"1", "2"});
    FewSnapshotsFit(b, {});
    var base;
    once, base := CreatedWithOneUnderWay(w);
    assert AddsVolume(Named({"1"}), b, "2", Volume("a", DEFAULT_VOLUME_SIZE));
    var landed := LandOnly(w, once, Request1(), b);
    base := base.(backend := b, underway := []);
    later := Finish(w, landed, base, 1, Request1(), Success("1").result);
    assert later[|once|] == Last(landed);
  }

  /** ... and the next lookup finds that one. */
  lemma CreatedThenFound(w: World) returns (once: seq<State>, twice: seq<State>)
    requires w.client && w.lateWrites && !w.refusesDuplicates
    ensures once != [] && Creates(w, once, |once| - 1, 1, Call(Request1(), Success("1")))
    ensures once < twice && once[0].backend == Named({}) && Last(once).backend == Named({"1"})
    ensures Creates(w, twice, |twice| - 1, 2, Call(Request1(), Success("2")))
    ensures forall i | |once| <= i < |twice| :: twice[i].backend == Named({"1", "2"})
  {
    var later;
    once, later := CreatedThenLanded(w);
    var begun := Begin(w, later, 2, Request1());
    ExactUpTo2Pow53(DEFAULT_VOLUME_SIZE);
    var found := VolumeInfo("2", DEFAULT_VOLUME_SIZE, "", "");
    assert Describes(w, Named({"1", "2"}), "2", found);
    twice := Read(w, begun, Last(later), 2, Request1(), Lookup, found);
    forall i | |once| <= i < |twice| ensures twice[i].backend == Named({"1", "2"}) {
      if i < |later| {
        assert twice[i] == later[i];
      }
    }
  }

  lemma LateCreateDisagrees(w: World)
    requires w.client && w.lateWrites && !w.refusesDuplicates
    ensures !SuccessesAgree(w)
  {
    var k, l := Call(Request1(), Success("1")), Call(Request1(), Success("2"));
    var once, twice := CreatedThenFound(w);
    var i, j := |once| - 1, |twice| - 1;
    StillCreates(w, once, twice, i, 1, k);
    assert twice[i] == Last(once);
    assert Throughout(twice, i, j, "1");
    assert Repeats(w, twice, i, 1, k, j, 2, l);
  }

  /**
   A CreateVolume that succeeds again for a name whose volume has been there all the time reports
   the same volume, in every run, with any other volumes created and deleted meanwhile, if and only
   if the backend refuses duplicates, or lookups do not fail and no CREATE takes effect late (or
   there is no backend).
   */
  lemma SuccessesAgreeIff(w: World)
    ensures SuccessesAgree(w) <==> !w.client || w.refusesDuplicates || (w.lookups && !w.lateWrites)
  {
    if !w.client || w.refusesDuplicates || Trusted(w) {
      forall run: seq<State>, i: nat, c: nat, k: Call, j: nat, d: nat, l: Call | Repeats(w, run, i, c, k, j, d, l)
        ensures k.pc.result.id == l.pc.result.id
      {
        SameVolume(w, run, i, c, k, j, d, l);
      }
    } else if w.lookups {
      LateCreateDisagrees(w);
    } else {
      FailedLookupDisagrees(w);
    }
  }

  /**
   The size CreateVolume settles on is the larger of 1 GiB and what is required, or 10 GiB when
   nothing is; so it is at most 16 TiB, and with a positive limit at most the larger of the limit and
   1 GiB (the minimum is applied after the limit is checked). It refuses exactly when the size asked
   for exceeds the limit or 16 TiB.
   */
  lemma ChosenSizeBounds(range: Option<CapacityRange>)
    ensures var asked := if range.Some? && range.value.required > 0 then range.value.required else 10 * 0x4000_0000;
      && (ChosenSize(range).None? <==>
            (range.Some? && 0 < range.value.limit < asked) || asked > 16 * 1024 * 0x4000_0000)
      && (ChosenSize(range).Some? ==>
            var size := ChosenSize(range).value;
            && (size == asked >= 0x4000_0000 || size == 0x4000_0000 > asked)
            && size <= 16 * 1024 * 0x4000_0000
            && (range.Some? && range.value.limit > 0 ==>
                  size <= (if range.value.limit > 0x4000_0000 then range.value.limit else 0x4000_0000)))
  {
  }

  /**
   A positive limit is respected by the size CreateVolume settles on if and only if it is at least
   1 GiB, whatever else the range asks for.
   */
  lemma LimitRespectedIff(range: CapacityRange)
    requires range.limit > 0 && ChosenSize(Some(range)).Some?
    ensures ChosenSize(Some(range)).value <= range.limit <==> range.limit >= 0x4000_0000
  {
    ChosenSizeBounds(Some(range));
  }

  /** The other case is real: one byte of limit still yields a volume of 1 GiB. */
  lemma LimitBelowMinimum()
    ensures ChosenSize(Some(CapacityRange(1, 1))) == Some(MIN_VOLUME_SIZE)
  {
  }

  /**
   The comparison with an existing volume never reports a false mismatch: for a volume of a size the
   driver can have chosen, a reported size reaches the handler unchanged, so a repeated request
   finds its volume and any other size is rejected.
   */
  lemma NoFalseMismatch(w: World, b: Backend, req: Request, r: Reply)
    requires req.CreateVolume? && !Malformed(req) && ChosenSize(req.range).Some?
    requires Answers(req, Lookup, r) && r.VolumeInfo? && Reads(w, b, req, Lookup, r)
    requires r.size != 0 && b.volumes[r.id].size <= MAX_VOLUME_SIZE
    ensures AfterReply(req, Lookup, r)
         == Leaving(if b.volumes[r.id].size == ChosenSize(req.range).value
                    then VolumeCreated(r.id, b.volumes[r.id].size) else Error(AlreadyExists))
  {
    ExactUpTo2Pow53(b.volumes[r.id].size);
  }
}

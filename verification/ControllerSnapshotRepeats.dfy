/** One name and source, one result: what CreateSnapshot calls that succeed again report. */
module ControllerSnapshotRepeats {
  import opened ControllerModel
  import opened ControllerRuns
  import opened ControllerSnapshots

  /**
   Two calls for one name and source succeed one after the other, and what the first one reported is
   in the backend all the time in between, whatever else is taken or deleted.
   */
  ghost predicate Repeats(w: World, run: seq<State>, i: nat, c: nat, k: Call, j: nat, d: nat, l: Call) {
    && Takes(w, run, i, c, k) && Takes(w, run, j, d, l) && UniquePerSource(run[0].backend)
    && k.req == l.req && i <= j && (w.client ==> SnapshotThroughout(run, i, j, k.pc.result.id))
  }

  /** In every run, a repeated success reports the snapshot again. */
  ghost predicate SuccessesAgree(w: World) {
    forall run: seq<State>, i: nat, c: nat, k: Call, j: nat, d: nat, l: Call |
      Repeats(w, run, i, c, k, j, d, l) :: k.pc.result.id == l.pc.result.id
  }

  lemma SameSnapshot(w: World, run: seq<State>, i: nat, c: nat, k: Call, j: nat, d: nat, l: Call)
    requires Repeats(w, run, i, c, k, j, d, l) && KeepsPerSource(w)
    ensures k.pc.result.id == l.pc.result.id
  {
    HitsMatchTheirRequest(w, run, i, c, k);
    HitsMatchTheirRequest(w, run, j, d, l);
    if w.client {
      SnapshotStays(w, run, i, j, k.pc.result.id);
      InvInRun(w, run, j);
    }
  }

  /** The request of all calls below. */
  function Request1(): Request {
    CreateSnapshot("n", "v")
  }

  /** The first success still stands in a longer run. */
  lemma StillTakes(w: World, run: seq<State>, longer: seq<State>, i: nat, c: nat, k: Call)
    requires Takes(w, run, i, c, k) && IsRun(w, longer) && run <= longer
    ensures Takes(w, longer, i, c, k)
  {
    assert longer[i] == run[i] && longer[i - 1] == run[i - 1];
  }

  // ---------------------------------------------------------------- late writes

  function TwoNamesakes(): Backend {
    Taken(Taken(OneVolume(), "1", "n"), "2", "n")
  }

  /** After a first success, and before the call returns, a late snapshot appears ... */
  lemma TakenThenLanded(w: World) returns (once: seq<State>, later: seq<State>)
    requires w.client && w.lateWrites && !w.refusesDuplicates
    ensures once != [] && Takes(w, once, |once| - 1, 1, Call(Request1(), Success("1")))
    ensures once < later && once[0].backend == OneVolume() && "1" in Last(once).backend.snapshots
    ensures IsRun(w, later) && Idle(Last(later)) && 2 !in Last(later).calls
    ensures forall i | |once| <= i < |later| :: later[i].backend == TwoNamesakes()
  {
    FewSnapshotsFit(TwoNamesakes(), {"1", "2"});
    var base;
    once, base := TakenWithOneUnderWay(w);
    assert AddsSnapshot(Last(once).backend, TwoNamesakes(), "2", Snapshot("n", "v", 0));
    var landed := LandOnly(w, once, Request1(), TwoNamesakes());
    base := base.(backend := TwoNamesakes(), underway := []);
    later := Finish(w, landed, base, 1, Request1(), Success("1").result);
    assert later[|once|] == Last(landed);
  }

  /** ... and the next lookup finds that one. */
  lemma TakenThenFound(w: World) returns (once: seq<State>, twice: seq<State>)
    requires w.client && w.lateWrites && !w.refusesDuplicates
    ensures once != [] && Takes(w, once, |once| - 1, 1, Call(Request1(), Success("1")))
    ensures once < twice && once[0].backend == OneVolume() && "1" in Last(once).backend.snapshots
    ensures Takes(w, twice, |twice| - 1, 2, Call(Request1(), Success("2")))
    ensures forall i | |once| <= i < |twice| :: "1" in twice[i].backend.snapshots
  {
    var later;
    once, later := TakenThenLanded(w);
    var begun := Begin(w, later, 2, Request1());
    var found := SnapshotInfo(SnapshotEntry("2", "n", "v", 0));
    twice := Read(w, begun, Last(later), 2, Request1(), Lookup, found);
    forall i | |once| <= i < |twice| ensures twice[i].backend == TwoNamesakes() {
      if i < |later| {
        assert twice[i] == later[i];
      }
    }
  }

  lemma LateSnapshotDisagrees(w: World)
    requires w.client && w.lateWrites && !w.refusesDuplicates
    ensures !SuccessesAgree(w)
  {
    var k, l := Call(Request1(), Success("1")), Call(Request1(), Success("2"));
    var once, twice := TakenThenFound(w);
    var i, j := |once| - 1, |twice| - 1;
    StillTakes(w, once, twice, i, 1, k);
    assert twice[i] == Last(once);
    assert SnapshotThroughout(twice, i, j, "1");
    assert Repeats(w, twice, i, 1, k, j, 2, l);
  }

  // ---------------------------------------------------------------- listings that miss

  /** What a call is shown that goes on to CREATE. */
  ghost predicate Misses(w: World, b: Backend, page: Reply) {
    && "v" in b.volumes && b.volumes["v"].size == 0 && b.attachments == {}
    && Answers(Request1(), ListSnapshots, page) && Reads(w, b, Request1(), ListSnapshots, page)
    && (page.SnapshotPage? ==> FirstNamed(page.entries, "n").None?)
  }

  /** A call that sees neither lookup nor listing takes its snapshot and returns. */
  lemma TakeAs(w: World, before: seq<State>, c: nat, page: Reply, id: string) returns (run: seq<State>)
    requires IsRun(w, before) && Idle(Last(before)) && c !in Last(before).calls && Last(before).underway == []
    requires w.client && !w.snapshotLookups && !w.refusesDuplicates && Misses(w, Last(before).backend, page)
    requires id != "" && id !in Last(before).backend.snapshots && InBounds(w, Taken(Last(before).backend, id, "n"))
    ensures IsRun(w, run) && before < run && |run| >= |before| + 2
    ensures Last(run) == Last(before).(backend := Taken(Last(before).backend, id, "n"),
                                       calls := Last(before).calls[c := Call(Request1(), Returned(Success(id).result))])
    ensures forall i | |before| <= i < |run| :: Last(before).backend.snapshots.Keys <= run[i].backend.snapshots.Keys
    ensures run[|run| - 2].backend == Last(run).backend
    ensures Takes(w, run, |run| - 2, c, Call(Request1(), Success(id)))
  {
    var base, b := Last(before), Last(before).backend;
    var b' := Taken(b, id, "n");
    var asked := UntilSnapshot(w, before, c, "n", page);
    assert AddsSnapshot(b, b', id, Snapshot("n", "v", 0));
    var entry := SnapshotEntry(id, "n", "v", 0);
    var written := WriteOnce(w, asked, base, c, Request1(), Write(0), SnapshotInfo(entry), b', []);
    run := Finish(w, written, base.(backend := b'), c, Request1(), Success(id).result);
    assert run[|asked|] == Last(written) && run[|asked| - 1] == Last(asked);
    forall i | |before| <= i < |run| ensures b.snapshots.Keys <= run[i].backend.snapshots.Keys {
      if i < |asked| {
        assert run[i] == asked[i];
      }
    }
  }

  /** Two such calls in a row report different snapshots. */
  lemma TakenTwice(w: World, b: Backend, page: Reply, page': Reply)
    requires w.client && !w.snapshotLookups && !w.refusesDuplicates && UniquePerSource(b)
    requires "1" !in b.snapshots && "2" !in b.snapshots
    requires Misses(w, b, page) && Misses(w, Taken(b, "1", "n"), page')
    requires InBounds(w, b) && InBounds(w, Taken(b, "1", "n")) && InBounds(w, Taken(Taken(b, "1", "n"), "2", "n"))
    ensures !SuccessesAgree(w)
  {
    var k, l := Call(Request1(), Success("1")), Call(Request1(), Success("2"));
    var start := Fresh(w, b);
    var once := TakeAs(w, start, 0, page, "1");
    var twice := TakeAs(w, once, 1, page', "2");
    var i, j := |once| - 2, |twice| - 2;
    StillTakes(w, once, twice, i, 0, k);
    forall m | i <= m <= j ensures "1" in twice[m].backend.snapshots {
      if m < |once| {
        assert twice[m] == once[m];
      }
    }
    assert twice[0] == start[0];
    assert Repeats(w, twice, i, 0, k, j, 1, l);
  }

  lemma FailedListingDisagrees(w: World)
    requires w.client && !w.snapshotLookups && !w.refusesDuplicates && !w.snapshotLists
    ensures !SuccessesAgree(w)
  {
    var b := OneVolume();
    FewSnapshotsFit(b, {});
    FewSnapshotsFit(Taken(b, "1", "n"), {"1"});
    FewSnapshotsFit(Taken(Taken(b, "1", "n"), "2", "n"), {"1", "2"});
    TakenTwice(w, b, Failure(""), Failure(""));
  }

  lemma StockHidesName()
    ensures FirstNamed(StockPage(), "n").None?
  {
    forall i | 0 <= i < PAGE ensures StockPage()[i].name != "n" {
      assert Xs(i + 1)[0] == 'x';
    }
    NotOnPage(StockPage(), "n");
  }

  function Stocked(snapshots: map<string, Snapshot>): Backend {
    Backend(map["v" := Volume("a", 0)], {}, snapshots)
  }

  /** A page on which the name does not stand is one that misses it. */
  lemma ListingMisses(w: World, snapshots: map<string, Snapshot>)
    requires Lists(Stocked(snapshots), "v", StockPage())
    ensures Misses(w, Stocked(snapshots), SnapshotPage(StockPage()))
  {
    StockHidesName();
  }

  /** A backend with a hundred snapshots shows them all ... */
  lemma StockIsListed(stock: map<string, Snapshot>)
    requires IsStock(stock, PAGE)
    ensures Lists(Stocked(stock), "v", StockPage())
  {
    StockPageShows(stock, PAGE);
    AllOfStock(Stocked(stock), stock);
    forall id | id in stock ensures exists i | 0 <= i < PAGE :: StockPage()[i].id == id {
      assert StockPage()[|id| - 1].id == id;
    }
  }

  lemma AllOfStock(b: Backend, stock: map<string, Snapshot>)
    requires IsStock(stock, PAGE) && b.snapshots == stock
    ensures SnapshotsOf(b, "v") == stock.Keys
  {
  }

  /** ... and with one more it may still show the same ones. */
  lemma StockIsListedStill(stock: map<string, Snapshot>)
    requires IsStock(stock, PAGE) && "1" !in stock
    ensures Lists(Stocked(stock["1" := Snapshot("n", "v", 0)]), "v", StockPage())
  {
    var b := Stocked(stock["1" := Snapshot("n", "v", 0)]);
    StockPageShows(stock, PAGE);
    OneMoreThanStock(b, stock);
    forall i | 0 <= i < PAGE ensures DescribesSnapshot(b, StockPage()[i]) {
      assert StockPage()[i].id in stock;
    }
  }

  lemma OneMoreThanStock(b: Backend, stock: map<string, Snapshot>)
    requires IsStock(stock, PAGE) && "1" !in stock && b.snapshots == stock["1" := Snapshot("n", "v", 0)]
    ensures |SnapshotsOf(b, "v")| == PAGE + 1
  {
    assert SnapshotsOf(b, "v") == stock.Keys + {"1"};
  }

  /** The hundred and first snapshot is never shown. */
  lemma SecondPageDisagrees(w: World)
    requires w.client && !w.snapshotLookups && !w.refusesDuplicates && !w.pagesFit
    ensures !SuccessesAgree(w)
  {
    var stock := SomeStock(PAGE);
    var b, page := Stocked(stock), SnapshotPage(StockPage());
    NotInStock(stock, PAGE, "1");
    NotInStock(stock, PAGE, "2");
    StockIsListed(stock);
    ListingMisses(w, stock);
    StockIsListedStill(stock);
    ListingMisses(w, Taken(b, "1", "n").snapshots);
    TakenTwice(w, b, page, page);
  }

  /**
   A CreateSnapshot that succeeds again for a name and source whose snapshot has been there all the
   time reports the same snapshot, in every run, with any others taken and deleted meanwhile, if and
   only if the backend refuses duplicates, or no CREATE takes effect late and either lookups by name
   work or listings do and fit their page (or there is no backend).
   */
  lemma SuccessesAgreeIff(w: World)
    ensures SuccessesAgree(w) <==>
      || !w.client || w.refusesDuplicates
      || (!w.lateWrites && (w.snapshotLookups || (w.snapshotLists && w.pagesFit)))
  {
    if KeepsPerSource(w) {
      forall run: seq<State>, i: nat, c: nat, k: Call, j: nat, d: nat, l: Call | Repeats(w, run, i, c, k, j, d, l)
        ensures k.pc.result.id == l.pc.result.id
      {
        SameSnapshot(w, run, i, c, k, j, d, l);
      }
    } else if w.lateWrites {
      LateSnapshotDisagrees(w);
    } else if !w.snapshotLists {
      FailedListingDisagrees(w);
    } else {
      SecondPageDisagrees(w);
    }
  }
}

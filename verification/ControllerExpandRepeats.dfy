/** A successful expand is final: what repeating it, or asking for less, makes the driver do. */
module ControllerExpandRepeats {
  import opened WireSizes
  import opened Options
  import opened ControllerModel
  import opened ControllerLocks
  import opened ControllerRuns
  import opened ControllerSizes

  /**
   Call c has come to a successful expand at step i, the volume has been there ever since, and in
   state j call d is about to issue an EXPAND of the same volume.
   */
  ghost predicate Reissues(w: World, run: seq<State>, i: nat, c: nat, k: Call, j: nat, d: nat, l: Call) {
    && ComesTo(w, run, i, c, k) && ExpandedResult(k)
    && i <= j < |run| && Throughout(run, i, j, k.req.volumeId)
    && d in run[j].calls && run[j].calls[d] == l
    && l.req.ExpandVolume? && l.pc.Write? && l.req.volumeId == k.req.volumeId
  }

  /** In every run, after a success an EXPAND is only issued for strictly more. */
  ghost predicate SuccessIsFinal(w: World) {
    forall run: seq<State>, i: nat, c: nat, k: Call, j: nat, d: nat, l: Call |
      Reissues(w, run, i, c, k, j, d, l) :: Asked(l.req) > Asked(k.req)
  }

  lemma AsksForMore(w: World, run: seq<State>, i: nat, c: nat, k: Call, j: nat, d: nat, l: Call)
    requires Reissues(w, run, i, c, k, j, d, l) && (!w.client || Trusted(w))
    ensures Asked(l.req) > Asked(k.req)
  {
    LocksInRun(w, run, j);
    assert Checked(w, l);
    if w.client {
      LargeAtSuccess(w, run, i, c, k);
      StaysLarge(w, run, i, j, k.req.volumeId);
      InvInRun(w, run, j);
      assert Fact(w, run[j].backend, l);
    }
  }

  /** The first success still stands in a longer run, and so does the volume. */
  lemma StillExpands(w: World, once: seq<State>, twice: seq<State>, i: nat, c: nat, k: Call, d: nat, l: Call)
    requires ComesTo(w, once, i, c, k) && ExpandedResult(k) && IsRun(w, twice) && once <= twice
    requires forall m | i <= m < |twice| :: k.req.volumeId in twice[m].backend.volumes
    requires d in Last(twice).calls && Last(twice).calls[d] == l
    requires l.req.ExpandVolume? && l.pc.Write? && l.req.volumeId == k.req.volumeId && Asked(l.req) <= Asked(k.req)
    ensures !SuccessIsFinal(w)
  {
    assert twice[i] == once[i] && twice[i - 1] == once[i - 1];
    assert Reissues(w, twice, i, c, k, |twice| - 1, d, l);
  }

  /** Two calls for the same size, one after the other, both issue an EXPAND. */
  lemma ExpandedTwice(w: World, size: nat, asked: nat, size': nat, r: Reply, r': Reply)
    requires w.client && 0 < asked <= size' && (w.exactSizes ==> size <= TWO53 && size' <= TWO53)
    requires (r.VolumeInfo? || r.Failure?) && ReadsVolume(w, Sized(size), "1", r)
    requires (r'.VolumeInfo? || r'.Failure?) && ReadsVolume(w, Sized(size'), "1", r')
    requires AfterReply(Expand1(asked), Lookup, r) == Write(0) == AfterReply(Expand1(asked), Lookup, r')
    ensures !SuccessIsFinal(w)
  {
    var req, done := Expand1(asked), Leaving(Expanded(asked));
    FewSnapshotsFit(Sized(size), {});
    FewSnapshotsFit(Sized(size'), {});
    var start := Fresh(w, Sized(size));
    var asking := UntilExpand(w, start, 0, asked, r);
    assert Grows(Sized(size), Sized(size'), "1", asked);
    var once := WriteOnce(w, asking, Last(start), 0, req, Write(0), Accepted("", 0), Sized(size'), []);
    var i := |once| - 1;
    assert once[i - 1] == Last(asking);
    var finished := Finish(w, once, Last(start).(backend := Sized(size')), 0, req, Expanded(asked));
    var twice := UntilExpand(w, finished, 1, asked, r');
    forall m | i <= m < |twice| ensures "1" in twice[m].backend.volumes {
      if m < |finished| {
        assert twice[m] == finished[m];
      }
    }
    StillExpands(w, once, twice, i, 0, Call(req, done), 1, Call(req, Write(0)));
  }

  /** When the second read fails, the EXPAND is issued again, blindly. */
  lemma BlindExpandRepeats(w: World)
    requires w.client && !w.sizedReads
    ensures !SuccessIsFinal(w)
  {
    ExactUpTo2Pow53(1);
    var now := VolumeInfo("1", 1, "", "");
    ExpandedTwice(w, 1, 2, 2, now, Failure(""));
  }

  /** When the size is rounded down, the volume never seems large enough. */
  lemma RoundedExpandRepeats(w: World)
    requires w.client && !w.exactSizes
    ensures !SuccessIsFinal(w)
  {
    RoundsDown();
    var size, now := TWO60 + 127, VolumeInfo("1", TWO60, "", "");
    ExpandedTwice(w, size, TWO60 + 100, size, now, now);
  }

  /** When an abandoned EXPAND takes effect after the success, the volume is smaller again. */
  lemma LateExpandRepeats(w: World)
    requires w.client && w.lateWrites
    ensures !SuccessIsFinal(w)
  {
    var req := Expand1(3);
    var once, base := ExpandedWithOneUnderWay(w);
    var i := |once| - 1;
    FewSnapshotsFit(Sized(2), {});
    assert Grows(Sized(3), Sized(2), "1", 2);
    var landed := LandOnly(w, once, Expand1(2), Sized(2));
    base := base.(backend := Sized(2), underway := []);
    var finished := Finish(w, landed, base, 1, req, Expanded(3));
    ExactUpTo2Pow53(2);
    var twice := UntilExpand(w, finished, 2, 3, VolumeInfo("1", 2, "", ""));
    assert twice[i] == Last(once) && twice[i + 1] == Last(landed) && twice[i + 2] == Last(finished);
    forall m | i <= m < |twice| ensures "1" in twice[m].backend.volumes {
    }
    StillExpands(w, once, twice, i, 1, Call(req, Leaving(Expanded(3))), 2, Call(req, Write(0)));
  }

  /**
   A successful expand is final: as long as the volume is there, whatever else is deleted, no later
   call for that much or less gets as far as issuing an EXPAND, in every run, if and only if reads
   succeed with a size, sizes are at most 2^53 and no EXPAND takes effect late (or there is no
   backend).
   */
  lemma SuccessIsFinalIff(w: World)
    ensures SuccessIsFinal(w) <==> !w.client || (w.sizedReads && w.exactSizes && !w.lateWrites)
  {
    if w.client && !w.sizedReads {
      BlindExpandRepeats(w);
    } else if w.client && !w.exactSizes {
      RoundedExpandRepeats(w);
    } else if w.client && w.lateWrites {
      LateExpandRepeats(w);
    } else {
      forall run: seq<State>, i: nat, c: nat, k: Call, j: nat, d: nat, l: Call | Reissues(w, run, i, c, k, j, d, l)
        ensures Asked(l.req) > Asked(k.req)
      {
        AsksForMore(w, run, i, c, k, j, d, l);
      }
    }
  }
}

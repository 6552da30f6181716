/** What the controller's handlers answer, given what they hear from the backend. */
module ControllerOutcomes {
  import opened Options
  import opened GoStrings
  import opened ClientErrors
  import opened WireSizes
  import opened ControllerModel
  import opened ControllerLocks
  import opened ControllerRuns
  import opened ControllerHistory
  import Attachments = ControllerAttachments
  import Snapshots = ControllerSnapshots

  /** Where call c stands after step m. */
  function Next(run: seq<State>, m: nat, c: nat): Pc
    requires m < |run| && c in run[m].calls
  {
    run[m].calls[c].pc
  }

  /** A read that failed ends a call. */
  function Refusal(text: string): Pc {
    if NotFoundText(text) then Leaving(Error(NotFound)) else Leaving(Error(Internal))
  }

  // ---------------------------------------------------------------- ControllerPublishVolume

  /** What a publish call does upon each reply. */
  lemma PublishGoesOn(w: World, run: seq<State>, m: nat, c: nat, req: Request, pc: Pc, r: Reply)
    requires Hears(w, run, m, c, req, pc, r) && req.PublishVolume?
    ensures pc.Lookup? || pc.Write?
    ensures pc.Lookup? ==> run[m].backend == run[m - 1].backend
    ensures pc.Lookup? && r.Failure? ==> Next(run, m, c) == Refusal(r.text)
    ensures pc.Lookup? && r.VolumeInfo? && r.nodeId == req.nodeId ==> Next(run, m, c) == Leaving(Published(r.devicePath))
    ensures pc.Lookup? && r.VolumeInfo? && r.nodeId == "" ==> Next(run, m, c) == Write(0)
    ensures pc.Lookup? && r.VolumeInfo? && r.nodeId !in {"", req.nodeId} ==>
      Next(run, m, c) == Leaving(Error(FailedPrecondition))
    ensures pc.Write? ==>
      Next(run, m, c) == Leaving(if r.Accepted? then Published(r.value) else Error(Internal))
  {
  }

  /**
   With reads that succeed and no late writes, what a publish call's read of the volume leads to is
   decided by the backend alone: the volume is not there, or it is attached to the call's node (and
   the call succeeds with that attachment's path), to another one, or to none (and the call attaches
   it).
   */
  lemma PublishDecides(w: World, run: seq<State>, m: nat, c: nat, req: Request, r: Reply)
    requires Hears(w, run, m, c, req, Lookup, r) && req.PublishVolume?
    requires w.sizedReads && !w.lateWrites && AttachedOnce(run[0].backend)
    ensures var b, id, next := run[m].backend, req.volumeId, Next(run, m, c);
      && (next == Leaving(Error(NotFound)) <==> id !in b.volumes)
      && (next == Leaving(Published(PathOf(b, id, req.nodeId))) <==>
            id in b.volumes && (id, req.nodeId) in b.attachments)
      && (next == Leaving(Error(FailedPrecondition)) <==>
            id in b.volumes && Attachments.AttachedElsewhere(b, id, req.nodeId))
      && (next == Write(0) <==> id in b.volumes && !Attached(b, id))
  {
    PublishGoesOn(w, run, m, c, req, Lookup, r);
    LocksInRun(w, run, m - 1);
    assert Checked(w, run[m - 1].calls[c]);
    Attachments.InvInRun(w, run, m);
    var b, id := run[m].backend, req.volumeId;
    if r.VolumeInfo? && r.nodeId != "" {
      assert (id, r.nodeId) in b.attachments;
      assert forall n | (id, n) in b.attachments :: n == r.nodeId by {
        forall n | (id, n) in b.attachments ensures n == r.nodeId {
          assert (id, n) == (id, r.nodeId);
        }
      }
      assert Attached(b, id);
      assert Attachments.AttachedElsewhere(b, id, req.nodeId) <==> r.nodeId != req.nodeId;
    } else if r.VolumeInfo? {
      forall n ensures (id, n) !in b.attachments {
        assert (id, n) in b.attachments ==> (id, n).1 != "";
      }
    }
  }

  // ---------------------------------------------------------------- CreateVolume

  /** What a CreateVolume call does upon each reply. */
  lemma CreateGoesOn(w: World, run: seq<State>, m: nat, c: nat, req: Request, pc: Pc, r: Reply)
    requires Hears(w, run, m, c, req, pc, r) && req.CreateVolume?
    ensures pc.VerifySource? || pc.Lookup? || pc.Write?
    ensures !pc.Write? ==> run[m].backend == run[m - 1].backend
    ensures pc.VerifySource? ==> Next(run, m, c) == if r.Failure? then Refusal(r.text) else Lookup
    ensures ChosenSize(req.range).Some?
    ensures pc.Lookup? && !r.VolumeInfo? ==> Next(run, m, c) == Write(0)
    ensures pc.Lookup? && r.VolumeInfo? ==>
      Next(run, m, c) == Leaving(if r.size in {0, ChosenSize(req.range).value}
                                 then VolumeCreated(r.id, ChosenSize(req.range).value) else Error(AlreadyExists))
    ensures pc.Write? && r.Accepted? ==> Next(run, m, c) == Leaving(VolumeCreated(r.value, ChosenSize(req.range).value))
    ensures pc.Write? && r.Failure? ==>
      Next(run, m, c) == Leaving(Error(if AlreadyExistsText(r.text) then AlreadyExists else Internal))
  {
  }

  /** A restoring call that has come past the check of its snapshot. */
  predicate PastCheck(k: Call) {
    && k.req.CreateVolume? && k.req.content.Some?
    && (k.pc.Lookup? || k.pc.Write? || ((k.pc.Leaving? || k.pc.Returned?) && k.pc.result.VolumeCreated?))
  }

  /** The call has read the snapshot to restore from, and the read did not fail. */
  ghost predicate HasChecked(w: World, run: seq<State>, i: nat, c: nat, req: Request) {
    exists m, r | 0 < m <= i :: Hears(w, run, m, c, req, VerifySource, r) && !r.Failure?
  }

  /**
   In every run with a backend, a CreateVolume that restores a snapshot gets to its lookup, its
   CREATE or its success only after it has read that snapshot without a failure.
   */
  lemma {:induction false} SourceIsChecked(w: World, run: seq<State>, i: nat, c: nat)
    requires IsRun(w, run) && i < |run| && w.client && c in run[i].calls && PastCheck(run[i].calls[c])
    ensures HasChecked(w, run, i, c, run[i].calls[c].req)
    decreases i
  {
    var m, e := LastMove(w, run, i, c);
    var k := run[m - 1].calls[c];
    if k.pc.VerifySource? {
      assert Hears(w, run, m, c, k.req, VerifySource, e.reply) && !e.reply.Failure?;
    } else {
      SourceIsChecked(w, run, m - 1, c);
    }
  }

  /** In every run, a check that is passed has found the snapshot. */
  ghost predicate CheckFindsSource(w: World) {
    forall run: seq<State>, m: nat, c: nat, req: Request, r: Reply |
      Hears(w, run, m, c, req, VerifySource, r) && req.CreateVolume? && req.content.Some? && !r.Failure? ::
        req.content.value in run[m].backend.snapshots
  }

  /** An empty reply is no failure: the call goes on to restore a snapshot that is not there. */
  lemma EmptyReplyPasses(w: World)
    requires w.client && !w.sourceReads
    ensures !CheckFindsSource(w)
  {
    var req := CreateVolume("a", [Mount], None, Some("s"));
    var b := Backend(map[], {}, map[]);
    FewSnapshotsFit(b, {});
    var run := Fresh(w, b);
    var base := Last(run);
    run := Begin(w, run, 0, req);
    var checking := Last(run);
    run := Read(w, run, base, 0, req, VerifySource, Nothing);
    var m := |run| - 1;
    assert run[m - 1] == checking;
    assert run[m].calls == run[m - 1].calls[0 := Call(req, Lookup)];
    assert Hears(w, run, m, 0, req, VerifySource, Nothing);
  }

  /**
   The check finds out whether the snapshot is there if and only if the backend answers a read for
   one that is not with a failure (or there is no backend); it then refuses exactly the snapshots
   that are not there, as not found.
   */
  lemma CheckFindsSourceIff(w: World)
    ensures CheckFindsSource(w) <==> !w.client || w.sourceReads
    ensures w.sourceReads ==> forall run: seq<State>, m: nat, c: nat, req: Request, r: Reply |
      Hears(w, run, m, c, req, VerifySource, r) && req.CreateVolume? && req.content.Some? ::
        && c in run[m].calls
        && (run[m].calls[c].pc == Leaving(Error(NotFound)) <==> req.content.value !in run[m].backend.snapshots)
        && (run[m].calls[c].pc == Lookup <==> req.content.value in run[m].backend.snapshots)
  {
    if w.client && !w.sourceReads {
      EmptyReplyPasses(w);
    } else {
      forall run: seq<State>, m: nat, c: nat, req: Request, r: Reply |
        Hears(w, run, m, c, req, VerifySource, r) && req.CreateVolume? && req.content.Some? && !r.Failure?
        ensures req.content.value in run[m].backend.snapshots
      {
        HearingNeedsClient(w, run, m, c, req, VerifySource, r);
      }
    }
  }

  /** Without a backend nothing is heard. */
  lemma HearingNeedsClient(w: World, run: seq<State>, m: nat, c: nat, req: Request, pc: Pc, r: Reply)
    requires Hears(w, run, m, c, req, pc, r)
    ensures w.client
  {
    LocksInRun(w, run, m - 1);
    assert Checked(w, run[m - 1].calls[c]);
  }

  // ---------------------------------------------------------------- ControllerExpandVolume

  /** What an expand call does upon each reply. */
  lemma ExpandGoesOn(w: World, run: seq<State>, m: nat, c: nat, req: Request, pc: Pc, r: Reply)
    requires Hears(w, run, m, c, req, pc, r) && req.ExpandVolume?
    ensures pc.Lookup? || pc.Write?
    ensures req.range.Some?
    ensures pc.Lookup? ==> run[m].backend == run[m - 1].backend
    ensures pc.Lookup? && r.Failure? ==>
      Next(run, m, c) == if NotFoundText(r.text) then Leaving(Error(NotFound)) else Write(0)
    ensures pc.Lookup? && r.VolumeInfo? ==>
      Next(run, m, c) == if r.size >= req.range.value.required then Leaving(Expanded(r.size)) else Write(0)
    ensures pc.Write? && r.Accepted? ==>
      Next(run, m, c) == Leaving(Expanded(if r.reported == 0 then req.range.value.required else r.reported))
    ensures pc.Write? && r.Failure? ==>
      Next(run, m, c) == Leaving(Error(if Occurs("CannotExpandUnattachedVolume", r.text) then FailedPrecondition
                                       else Internal))
  {
  }

  /** The call's EXPAND has been accepted at step i by a reply that leaves the size out. */
  ghost predicate Unsized(w: World, run: seq<State>, i: nat, c: nat, req: Request) {
    exists r :: Hears(w, run, i, c, req, Write(0), r) && r.Accepted? && r.reported == 0
  }

  /**
   At the moment of its success, an expand call reports the volume's own size as it comes through a
   JSON number (so exactly, up to 2^53), or, after an EXPAND whose reply leaves it out, what was
   asked for.
   */
  lemma ExpandReportsTruth(w: World, run: seq<State>, i: nat, c: nat, k: Call)
    requires ComesTo(w, run, i, c, k) && k.req.ExpandVolume? && k.pc.result.Expanded? && w.client
    ensures k.req.volumeId in run[i].backend.volumes && k.req.range.Some?
    ensures var bytes, size := k.pc.result.bytes, run[i].backend.volumes[k.req.volumeId].size;
      && (bytes == Float64(size) || (Unsized(w, run, i, c, k.req) && bytes == k.req.range.value.required))
      && (w.exactSizes && !Unsized(w, run, i, c, k.req) ==> bytes == size)
  {
    var e := ComesBy(w, run, i, c, k);
    if e.Exchange? {
      var pc := run[i - 1].calls[c].pc;
      ExpandGoesOn(w, run, i, c, k.req, pc, e.reply);
      LocksInRun(w, run, i - 1);
      assert Checked(w, run[i - 1].calls[c]);
      WritesAtZero(w, run, i - 1, c);
      if pc.Write? && e.reply.reported == 0 {
        assert Unsized(w, run, i, c, k.req);
      }
      PresentBackendIsWithin(w, run, i);
      if w.exactSizes {
        ExactUpTo2Pow53(run[i].backend.volumes[k.req.volumeId].size);
      }
    }
  }

  lemma PresentBackendIsWithin(w: World, run: seq<State>, i: nat)
    requires IsRun(w, run) && 0 < i < |run|
    ensures Within(w, run[i])
  {
    assert StepAt(w, run, i);
  }

  /** Only snapshots remember a size on the way to their write. */
  lemma WritesAtZero(w: World, run: seq<State>, i: nat, c: nat)
    requires IsRun(w, run) && i < |run| && c in run[i].calls
    ensures run[i].calls[c].pc.Write? && !run[i].calls[c].req.CreateSnapshot? ==> run[i].calls[c].pc == Write(0)
  {
    var m, e := LastMove(w, run, i, c);
  }

  /** With known, exact sizes, a volume that is large enough makes the call succeed without a write. */
  lemma LargeEnoughIsLeftAlone(w: World, run: seq<State>, m: nat, c: nat, req: Request, r: Reply)
    requires Hears(w, run, m, c, req, Lookup, r) && req.ExpandVolume? && w.sizedReads && w.exactSizes
    requires req.volumeId in run[m - 1].backend.volumes
    requires req.range.Some? && run[m - 1].backend.volumes[req.volumeId].size >= req.range.value.required
    ensures Next(run, m, c) == Leaving(Expanded(run[m].backend.volumes[req.volumeId].size))
    ensures run[m].backend == run[m - 1].backend
  {
    ExpandGoesOn(w, run, m, c, req, Lookup, r);
    PresentBackendIsWithin(w, run, m);
    ExactUpTo2Pow53(run[m].backend.volumes[req.volumeId].size);
  }

  // ---------------------------------------------------------------- CreateSnapshot

  /** The page's first entry of that name is the one reported. */
  ghost predicate ReportsFirst(entries: seq<SnapshotEntry>, name: string, result: Result) {
    exists i | 0 <= i < |entries| ::
      && entries[i].name == name && (forall j | 0 <= j < i :: entries[j].name != name)
      && result == SnapshotCreated(entries[i].id, entries[i].source, entries[i].size)
  }

  lemma {:induction false} FirstIsReported(entries: seq<SnapshotEntry>, name: string)
    ensures FirstNamed(entries, name).None? <==> forall i | 0 <= i < |entries| :: entries[i].name != name
    ensures FirstNamed(entries, name).Some? ==>
      ReportsFirst(entries, name, SnapshotResult(FirstNamed(entries, name).value))
  {
    if entries != [] {
      FirstIsReported(entries[1..], name);
      assert forall i | 0 < i < |entries| :: entries[i] == entries[1..][i - 1];
      if entries[0].name != name && FirstNamed(entries, name).Some? {
        var result := SnapshotResult(FirstNamed(entries, name).value);
        var i :| 0 <= i < |entries[1..]| && entries[1..][i].name == name
          && (forall j | 0 <= j < i :: entries[1..][j].name != name)
          && result == SnapshotCreated(entries[1..][i].id, entries[1..][i].source, entries[1..][i].size);
        assert entries[i + 1] == entries[1..][i];
        assert forall j | 0 <= j < i + 1 :: entries[j].name != name;
      }
    }
  }

  /** What a CreateSnapshot call does upon each reply to a read. */
  lemma SnapshotReadsGoOn(w: World, run: seq<State>, m: nat, c: nat, req: Request, pc: Pc, r: Reply)
    requires Hears(w, run, m, c, req, pc, r) && req.CreateSnapshot? && !pc.Write?
    ensures pc.Lookup? || pc.ListSnapshots? || pc.ReadSource?
    ensures run[m].backend == run[m - 1].backend
    ensures pc.Lookup? && !r.SnapshotInfo? ==> Next(run, m, c) == ListSnapshots
    ensures pc.Lookup? && r.SnapshotInfo? ==>
      Next(run, m, c) == Leaving(if r.entry.source == req.volumeId
                                 then SnapshotCreated(r.entry.id, r.entry.source, r.entry.size) else Error(AlreadyExists))
    ensures pc.ListSnapshots? ==>
      if r.SnapshotPage? && exists i | 0 <= i < |r.entries| :: r.entries[i].name == req.name
      then Next(run, m, c).Leaving? && ReportsFirst(r.entries, req.name, Next(run, m, c).result)
      else Next(run, m, c) == ReadSource
    ensures pc.ReadSource? ==> Next(run, m, c) == if r.Failure? then Refusal(r.text) else Write(r.size)
  {
    if r.SnapshotPage? {
      FirstIsReported(r.entries, req.name);
    }
  }

  /** What it does upon the reply to its CREATE. */
  lemma SnapshotWriteGoesOn(w: World, run: seq<State>, m: nat, c: nat, req: Request, n: int, r: Reply)
    requires Hears(w, run, m, c, req, Write(n), r) && req.CreateSnapshot?
    ensures r.SnapshotInfo? ==>
      Next(run, m, c) == Leaving(SnapshotCreated(r.entry.id, r.entry.source, if r.entry.size == 0 then n else r.entry.size))
    ensures r.Failure? ==>
      Next(run, m, c) == Leaving(Error(if AlreadyExistsText(r.text) then AlreadyExists
                                       else if Occurs("VolumeInUse", r.text) || Occurs("VolumeNotReady", r.text)
                                       then FailedPrecondition else Internal))
  {
  }

  /** At step m the call reads its source volume and is told that size, a true one or 0. */
  ghost predicate ReadsSize(w: World, run: seq<State>, m: nat, c: nat, req: Request, n: int) {
    && (exists r :: Hears(w, run, m, c, req, ReadSource, r) && r.VolumeInfo? && r.size == n)
    && req.CreateSnapshot? && req.volumeId in run[m].backend.volumes
    && ReportsSize(w, run[m].backend.volumes[req.volumeId].size, n)
  }

  /** It has done so before or at step i. */
  ghost predicate HasRead(w: World, run: seq<State>, i: nat, c: nat, req: Request, n: int) {
    exists m | 0 < m <= i :: ReadsSize(w, run, m, c, req, n)
  }

  /** The size a call takes to its CREATE is the one its read of the source volume has reported. */
  lemma SizeIsRemembered(w: World, run: seq<State>, i: nat, c: nat)
    requires IsRun(w, run) && i < |run| && c in run[i].calls
    requires run[i].calls[c].req.CreateSnapshot? && run[i].calls[c].pc.Write?
    ensures HasRead(w, run, i, c, run[i].calls[c].req, run[i].calls[c].pc.sourceSize)
  {
    var m, e := LastMove(w, run, i, c);
    var k := run[m - 1].calls[c];
    assert e.Exchange? && k.pc.ReadSource?;
    assert Hears(w, run, m, c, k.req, ReadSource, e.reply);
    assert ReadsSize(w, run, m, c, k.req, e.reply.size);
  }

  /**
   At the moment of its success with a backend, a CreateSnapshot call reports the snapshot's own size
   as it comes through a JSON number. Where the reply leaves it out, a call that has found its
   snapshot reports 0, and one that has created it the size its read of the source volume reported.
   */
  lemma SnapshotReportsSize(w: World, run: seq<State>, i: nat, c: nat, k: Call)
    requires Snapshots.Takes(w, run, i, c, k) && w.client
    ensures k.pc.result.id in run[i].backend.snapshots && c in run[i - 1].calls
    ensures var bytes, size := k.pc.result.bytes, run[i].backend.snapshots[k.pc.result.id].size;
      || bytes == Float64(size)
      || (bytes == 0 && !run[i - 1].calls[c].pc.Write?)
      || (run[i - 1].calls[c].pc.Write? && HasRead(w, run, i, c, k.req, bytes))
  {
    Snapshots.HitsMatchTheirRequest(w, run, i, c, k);
    var e := ComesBy(w, run, i, c, k);
    if e.Exchange? {
      var pc := run[i - 1].calls[c].pc;
      if pc.Write? {
        SnapshotWriteGoesOn(w, run, i, c, k.req, pc.sourceSize, e.reply);
        SizeIsRemembered(w, run, i - 1, c);
      } else {
        SnapshotReadsGoOn(w, run, i, c, k.req, pc, e.reply);
      }
    }
  }

  // ---------------------------------------------------------------- the removals

  /** A removal succeeds when it is accepted or fails with a "not found" text, and else fails. */
  lemma RemovalGoesOn(w: World, run: seq<State>, m: nat, c: nat, req: Request, pc: Pc, r: Reply)
    requires Hears(w, run, m, c, req, pc, r) && Removes(req)
    ensures pc.Write?
    ensures Next(run, m, c) == Leaving(if r.Accepted? || NotFoundText(r.text) then Done else Error(Internal))
  {
    LocksInRun(w, run, m - 1);
  }
}

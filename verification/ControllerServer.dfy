/**
 The controller's handlers in the form of the source: straight-line methods over the shared lock
 table and the backend. Each one is proved to be a sequence of steps of the transition system in
 ControllerModel, with the other handlers' steps in between, and to return what its last step says.
 */
module ControllerHandlers {
  import opened Options
  import opened WireSizes
  import opened ClientErrors
  import opened GoStrings
  import opened ControllerModel
  import opened VolumeLockTable

  /** The entries describe the snapshots `ids` of the source, one each. */
  ghost predicate Page(b: Backend, source: string, entries: seq<SnapshotEntry>, ids: set<string>) {
    && |ids| == |entries|
    && (forall i | 0 <= i < |entries| ::
          DescribesSnapshot(b, entries[i]) && entries[i].source == source && entries[i].id in ids)
    && (forall i, j | 0 <= i < j < |entries| :: entries[i].id != entries[j].id)
    && forall id | id in ids :: exists i | 0 <= i < |entries| :: entries[i].id == id
  }

  lemma PageGrows(b: Backend, source: string, entries: seq<SnapshotEntry>, ids: set<string>, e: SnapshotEntry)
    requires Page(b, source, entries, ids) && DescribesSnapshot(b, e) && e.source == source && e.id !in ids
    ensures Page(b, source, entries + [e], ids + {e.id})
  {
    var longer := entries + [e];
    assert longer[|entries|] == e;
    forall id | id in ids + {e.id} ensures exists i | 0 <= i < |longer| :: longer[i].id == id {
      if id != e.id {
        var i :| 0 <= i < |entries| && entries[i].id == id;
        assert longer[i].id == id;
      }
    }
  }

  lemma PageIsListing(b: Backend, source: string, entries: seq<SnapshotEntry>, ids: set<string>, rest: set<string>)
    requires Page(b, source, entries, ids) && |ids| <= PAGE && rest !! ids
    requires rest + ids == SnapshotsOf(b, source)
    requires rest == {} || |ids| == PAGE
    ensures Lists(b, source, entries)
  {
    assert |rest + ids| == |rest| + |ids|;
    if rest == {} {
      assert rest + ids == ids;
    }
  }

  /** The sets of listed and remaining snapshots after one more has been listed. */
  lemma OneMoreListed(all: set<string>, rest: set<string>, listed: set<string>, id: string)
    requires rest !! listed && rest + listed == all && id in rest
    ensures rest - {id} !! listed + {id} && (rest - {id}) + (listed + {id}) == all
    ensures |listed + {id}| == |listed| + 1
  {
  }

  /** Up to 100 snapshots of a source, as a listing shows them. */
  method FirstPage(b: Backend, source: string) returns (entries: seq<SnapshotEntry>)
    ensures Lists(b, source, entries)
  {
    entries := [];
    var rest := set id | id in b.snapshots && b.snapshots[id].source == source;
    ghost var listed: set<string> := {};
    while |entries| < PAGE && rest != {}
      invariant rest !! listed && rest + listed == SnapshotsOf(b, source) && |listed| <= PAGE
      invariant Page(b, source, entries, listed)
      decreases rest
    {
      var id :| id in rest;
      var e := SnapshotEntry(id, b.snapshots[id].name, source, Float64(b.snapshots[id].size));
      PageGrows(b, source, entries, listed, e);
      OneMoreListed(SnapshotsOf(b, source), rest, listed, id);
      entries := entries + [e];
      rest := rest - {id};
      listed := listed + {id};
    }
    PageIsListing(b, source, entries, listed, rest);
  }

  class ControllerServer {
    const world: World
    const locks: VolumeLocks
    var backend: Backend

    /** The calls so far and the run they have made. */
    ghost var calls: map<nat, Call>
    ghost var run: seq<State>

    /** The writes that have failed and may still take effect. */
    ghost var underway: seq<Request>

    constructor (w: World, b: Backend)
      requires InBounds(w, b)
      ensures Valid() && world == w && backend == b && calls == map[] && underway == [] && fresh(locks)
    {
      world := w;
      backend := b;
      calls := map[];
      locks := new VolumeLocks();
      underway := [];
      run := [State({}, b, map[], [])];
    }

    ghost function Now(): State
      reads this, locks
    {
      State(locks.locks.Keys, backend, calls, underway)
    }

    /** What has happened is a run of the transition system, and it has led here. */
    ghost predicate Valid()
      reads this, locks
    {
      IsRun(world, run) && run[|run| - 1] == Now()
    }

    /** Call c stands at pc with this request. */
    ghost predicate At(c: nat, req: Request, pc: Pc)
      reads this
    {
      c in calls && calls[c] == Call(req, pc)
    }

    /** Appends the step of call c that led to the present state. */
    ghost method Record(c: nat, e: Event, req: Request, pc: Pc)
      requires IsRun(world, run)
      requires StepBy(world, run[|run| - 1], State(locks.locks.Keys, backend, calls[c := Call(req, pc)], underway), c, e)
      requires Within(world, State(locks.locks.Keys, backend, calls[c := Call(req, pc)], underway))
      modifies `calls, `run
      ensures calls == old(calls)[c := Call(req, pc)]
      ensures Valid() && old(run) <= run
    {
      calls := calls[c := Call(req, pc)];
      Extend(world, run, Now(), c, e);
      run := run + [Now()];
    }

    /**
     The other handlers make any number of steps. What a caller may rely on is the contract: the
     run goes on, and call c itself stays where it is. (No other handler needs to move, so the body
     is empty.)
     */
    method Interference(ghost c: nat)
      requires Valid() && c in calls
      modifies this, locks
      ensures Valid() && old(run) <= run
      ensures c in calls && calls[c] == old(calls[c])
      ensures InBounds(world, backend)
    {
      PresentIsWithin(world, run);
    }

    /** A request arrives. */
    ghost method Accept(c: nat, req: Request)
      requires Valid() && c !in calls
      requires world.exactSizes ==> RequiresExact(req)
      modifies `calls, `run
      ensures Valid() && old(run) <= run && At(c, req, Arrived)
    {
      PresentIsWithin(world, run);
      Record(c, Arrive(req), req, Arrived);
    }

    /** A malformed request is turned away. */
    ghost method Reject(c: nat, req: Request)
      requires Valid() && At(c, req, Arrived) && Malformed(req)
      modifies `calls, `run
      ensures Valid() && old(run) <= run && At(c, req, Returned(Error(InvalidArgument)))
    {
      PresentIsWithin(world, run);
      Record(c, Enter, req, Returned(Error(InvalidArgument)));
    }

    /** Takes the call's lock, or gives the call up. */
    method TakeLock(ghost c: nat, ghost req: Request, key: string) returns (acquired: bool)
      requires Valid() && At(c, req, Arrived) && !Malformed(req) && key == Key(req)
      modifies this, locks
      ensures Valid() && old(run) <= run
      ensures At(c, req, if acquired then AfterLock(world, req) else Returned(Error(Aborted)))
    {
      Interference(c);
      acquired := locks.TryAcquire(key);
      PresentIsWithin(world, run);
      Record(c, Enter, req, if acquired then AfterLock(world, req) else Returned(Error(Aborted)));
    }

    /** The deferred release, and the return. */
    method Finish(ghost c: nat, ghost req: Request, key: string, result: Result)
      requires Valid() && At(c, req, Leaving(result)) && key == Key(req)
      modifies this, locks
      ensures Valid() && old(run) <= run && At(c, req, Returned(result))
    {
      Interference(c);
      locks.Release(key);
      PresentIsWithin(world, run);
      Record(c, Return, req, Returned(result));
    }

    /** Records a read and moves the call on. */
    ghost method ReadDone(c: nat, req: Request, pc: Pc, r: Reply)
      requires Valid() && At(c, req, pc) && Talking(Call(req, pc)) && !pc.Write?
      requires Answers(req, pc, r) && Reads(world, backend, req, pc, r)
      modifies `calls, `run
      ensures Valid() && old(run) <= run && At(c, req, AfterReply(req, pc, r))
    {
      PresentIsWithin(world, run);
      Record(c, Exchange(r), req, AfterReply(req, pc, r));
    }

    /** Records a write that has changed the backend since the last recorded state. */
    ghost method WriteDone(c: nat, before: State, req: Request, pc: Pc, r: Reply)
      requires IsRun(world, run) && run[|run| - 1] == before
      requires before.locks == locks.locks.Keys && before.calls == calls && InBounds(world, backend)
      requires At(c, req, pc) && Talking(Call(req, pc)) && pc.Write?
      requires Answers(req, pc, r) && Submits(world, before.backend, before.underway, backend, underway, req, r)
      modifies `calls, `run
      ensures Valid() && old(run) <= run && At(c, req, AfterReply(req, pc, r))
    {
      PresentIsWithin(world, run);
      Record(c, Exchange(r), req, AfterReply(req, pc, r));
    }

    // -------------------------------------------------------------- reading from the backend
    // A caller knows the contracts only; the bodies are one backend that meets them.

    /** One node the volume is attached to, or the empty string. */
    method NodeOf(id: string) returns (node: string)
      ensures if node == "" then !Attached(backend, id) else (id, node) in backend.attachments
    {
      var places := set p | p in backend.attachments && p.0 == id && p.1 != "";
      if places == {} {
        assert forall n :: n != "" && (id, n) in backend.attachments ==> (id, n) in places;
        return "";
      }
      var p :| p in places;
      assert p == (id, p.1);
      return p.1;
    }

    /** GET_VOLUME by id; a reply without an id is turned into an error that says "not found". */
    method GetVolume(id: string) returns (r: Reply)
      ensures r.Failure? || r.VolumeInfo?
      ensures ReadsVolume(world, backend, id, r)
    {
      if id !in backend.volumes {
        var text := "volume " + id + " " + "not found" + "";
        OccursInside("not found", "volume " + id + " ", "");
        return Failure(text);
      }
      var node := NodeOf(id);
      return VolumeInfo(id, Float64(backend.volumes[id].size), node, PathOf(backend, id, node));
    }

    /** GET_VOLUME by name. */
    method GetVolumeByName(name: string) returns (r: Reply)
      ensures r.Failure? || r.Nothing? || r.VolumeInfo?
      ensures if r.VolumeInfo? then Describes(world, backend, r.id, r) && backend.volumes[r.id].name == name
              else world.lookups ==> !NameTaken(backend, name)
    {
      var ids := set id | id in backend.volumes && backend.volumes[id].name == name;
      if ids == {} {
        assert forall id :: id in backend.volumes && backend.volumes[id].name == name ==> id in ids;
        return Nothing;
      }
      var id :| id in ids;
      var node := NodeOf(id);
      return VolumeInfo(id, Float64(backend.volumes[id].size), node, PathOf(backend, id, node));
    }

    /** GET_SNAPSHOT by id. */
    method GetSnapshot(id: string) returns (r: Reply)
      ensures r.Failure? || r.Nothing? || r.SnapshotInfo?
      ensures ReadsContent(world, backend, id, r)
    {
      if id !in backend.snapshots {
        OccursInside("not found", "snapshot ", "");
        assert "snapshot not found" == "snapshot " + "not found" + "";
        return Failure("snapshot not found");
      }
      var s := backend.snapshots[id];
      return SnapshotInfo(SnapshotEntry(id, s.name, s.source, Float64(s.size)));
    }

    /** GET_SNAPSHOT by name. */
    method GetSnapshotByName(name: string) returns (r: Reply)
      ensures r.Failure? || r.Nothing? || r.SnapshotInfo?
      ensures if r.SnapshotInfo? then DescribesSnapshot(backend, r.entry) && r.entry.name == name
              else world.snapshotLookups ==> !SnapshotNameTaken(backend, name)
    {
      var ids := set id | id in backend.snapshots && backend.snapshots[id].name == name;
      if ids == {} {
        assert forall id :: id in backend.snapshots && backend.snapshots[id].name == name ==> id in ids;
        return Nothing;
      }
      var id :| id in ids;
      return SnapshotInfo(SnapshotEntry(id, name, backend.snapshots[id].source, Float64(backend.snapshots[id].size)));
    }

    /** LIST_SNAPSHOTS of one source: the first page. */
    method ListPage(source: string) returns (r: Reply)
      ensures r.Failure? || r.SnapshotPage?
      ensures if r.SnapshotPage? then Lists(backend, source, r.entries) else !world.snapshotLists
    {
      var entries := FirstPage(backend, source);
      return SnapshotPage(entries);
    }

    // -------------------------------------------------------------- writing to the backend
    // Each write may take effect and still report a failure, see Submits. The bodies stand for a
    // backend that is out of order; a caller knows the contracts only.

    ghost predicate Sent(before: Backend, late: seq<Request>, req: Request, r: Reply)
      reads this
    {
      && Answers(req, Write(0), r)
      && Submits(world, before, late, backend, underway, req, r)
      && InBounds(world, backend)
    }

    method CreateVolumeCall(ghost req: Request, name: string, capacityBytes: int) returns (r: Reply)
      requires req.CreateVolume? && req.name == name && ChosenSize(req.range) == Some(capacityBytes)
      requires InBounds(world, backend)
      modifies `backend, `underway
      ensures Sent(old(backend), old(underway), req, r)
    {
      return Failure("unavailable");
    }

    method DeleteVolumeCall(ghost req: Request, id: string) returns (r: Reply)
      requires req == Request.DeleteVolume(id) && InBounds(world, backend)
      modifies `backend, `underway
      ensures Sent(old(backend), old(underway), req, r)
    {
      PlainTextIsUnclassified("unavailable");
      return Failure("unavailable");
    }

    method AttachVolumeCall(ghost req: Request, id: string, node: string) returns (r: Reply)
      requires req.PublishVolume? && req.volumeId == id && req.nodeId == node && InBounds(world, backend)
      modifies `backend, `underway
      ensures Sent(old(backend), old(underway), req, r)
    {
      return Failure("unavailable");
    }

    method DetachVolumeCall(ghost req: Request, id: string, node: string) returns (r: Reply)
      requires req == UnpublishVolume(id, node) && InBounds(world, backend)
      modifies `backend, `underway
      ensures Sent(old(backend), old(underway), req, r)
    {
      PlainTextIsUnclassified("unavailable");
      return Failure("unavailable");
    }

    method ExpandVolumeCall(ghost req: Request, id: string, capacityBytes: int) returns (r: Reply)
      requires req.ExpandVolume? && req.volumeId == id && req.range.Some? && req.range.value.required == capacityBytes
      requires InBounds(world, backend)
      modifies `backend, `underway
      ensures Sent(old(backend), old(underway), req, r)
    {
      return Failure("unavailable");
    }

    method CreateSnapshotCall(ghost req: Request, name: string, source: string) returns (r: Reply)
      requires req == Request.CreateSnapshot(name, source) && InBounds(world, backend)
      modifies `backend, `underway
      ensures Sent(old(backend), old(underway), req, r)
    {
      return Failure("unavailable");
    }

    method DeleteSnapshotCall(ghost req: Request, id: string) returns (r: Reply)
      requires req == Request.DeleteSnapshot(id) && InBounds(world, backend)
      modifies `backend, `underway
      ensures Sent(old(backend), old(underway), req, r)
    {
      PlainTextIsUnclassified("unavailable");
      return Failure("unavailable");
    }

    // -------------------------------------------------------------- the handlers
    // Each handler checks its arguments, takes its lock, runs the part under the lock and gives the
    // lock up again on every way out.

    method CreateVolume(ghost c: nat, name: string, caps: seq<Capability>, range: Option<CapacityRange>,
                        content: Option<string>) returns (result: Result)
      requires Valid() && c !in calls
      modifies this, locks
      ensures Valid() && old(run) <= run
      ensures At(c, Request.CreateVolume(name, caps, range, content), Returned(result))
    {
      var req := Request.CreateVolume(name, caps, range, content);
      Accept(c, req);
      if |name| == 0 || |caps| == 0 {
        Reject(c, req);
        return Error(InvalidArgument);
      }
      var acquired := TakeLock(c, req, name);
      if !acquired {
        return Error(Aborted);
      }
      result := CreateVolumeLocked(c, req);
      Finish(c, req, name, result);
    }

    /** The size CreateVolume asks the backend for. */
    method SizeFor(range: Option<CapacityRange>) returns (size: Option<nat>)
      ensures size == ChosenSize(range)
    {
      var bytes: int := DEFAULT_VOLUME_SIZE;
      if range.Some? {
        if range.value.required > 0 {
          bytes := range.value.required;
        }
        if range.value.limit > 0 && bytes > range.value.limit {
          return None;
        }
      }
      if bytes < MIN_VOLUME_SIZE {
        bytes := MIN_VOLUME_SIZE;
      }
      if bytes > MAX_VOLUME_SIZE {
        return None;
      }
      return Some(bytes);
    }

    method MountOnly(caps: seq<Capability>) returns (ok: bool)
      ensures ok <==> !exists c | c in caps :: c != Mount
    {
      var i := 0;
      while i < |caps|
        invariant 0 <= i <= |caps|
        invariant forall j | 0 <= j < i :: caps[j] == Mount
      {
        if caps[i].Block? {
          assert caps[i] in caps;
          return false;
        }
        if !caps[i].Mount? {
          assert caps[i] in caps;
          return false;
        }
        i := i + 1;
      }
      return true;
    }

    method CreateVolumeLocked(ghost c: nat, req: Request) returns (result: Result)
      requires Valid() && req.CreateVolume? && !Malformed(req) && At(c, req, AfterLock(world, req))
      modifies this, locks
      ensures Valid() && old(run) <= run && At(c, req, Leaving(result))
    {
      var mountOnly := MountOnly(req.caps);
      if !mountOnly {
        return Error(InvalidArgument);
      }
      var chosen := SizeFor(req.range);
      if chosen.None? {
        return Error(OutOfRange);
      }
      var size := chosen.value;
      if !world.client {
        return VolumeCreated("vol-" + req.name, size);
      }
      if req.content.Some? {
        Interference(c);
        var snapshot := GetSnapshot(req.content.value);
        ReadDone(c, req, VerifySource, snapshot);
        if snapshot.Failure? {
          var notFound := IsNotFoundError(snapshot.text);
          return Error(if notFound then NotFound else Internal);
        }
      }
      result := FindOrCreateVolume(c, req, size);
    }

    method FindOrCreateVolume(ghost c: nat, req: Request, size: nat) returns (result: Result)
      requires Valid() && req.CreateVolume? && !Malformed(req) && At(c, req, Lookup)
      requires ChosenSize(req.range) == Some(size)
      modifies this, locks
      ensures Valid() && old(run) <= run && At(c, req, Leaving(result))
    {
      Interference(c);
      var existing := GetVolumeByName(req.name);
      ReadDone(c, req, Lookup, existing);
      if existing.VolumeInfo? {
        if existing.size > 0 && existing.size != size {
          return Error(AlreadyExists);
        }
        var capacityBytes := existing.size;
        if capacityBytes == 0 {
          capacityBytes := size;
        }
        return VolumeCreated(existing.id, capacityBytes);
      }
      result := CreateNewVolume(c, req, size);
    }

    method CreateNewVolume(ghost c: nat, req: Request, size: nat) returns (result: Result)
      requires Valid() && req.CreateVolume? && !Malformed(req) && At(c, req, Write(0))
      requires ChosenSize(req.range) == Some(size)
      modifies this, locks
      ensures Valid() && old(run) <= run && At(c, req, Leaving(result))
    {
      Interference(c);
      ghost var before := Now();
      var vol := CreateVolumeCall(req, req.name, size);
      WriteDone(c, before, req, Write(0), vol);
      if vol.Failure? {
        var exists_ := IsAlreadyExistsError(vol.text);
        return Error(if exists_ then AlreadyExists else Internal);
      }
      return VolumeCreated(vol.value, size);
    }

    method DeleteVolume(ghost c: nat, volumeID: string) returns (result: Result)
      requires Valid() && c !in calls
      modifies this, locks
      ensures Valid() && old(run) <= run
      ensures At(c, Request.DeleteVolume(volumeID), Returned(result))
    {
      ghost var req := Request.DeleteVolume(volumeID);
      Accept(c, req);
      if |volumeID| == 0 {
        Reject(c, req);
        return Error(InvalidArgument);
      }
      var acquired := TakeLock(c, req, volumeID);
      if !acquired {
        return Error(Aborted);
      }
      result := DeleteVolumeLocked(c, req, volumeID);
      Finish(c, req, volumeID, result);
    }

    method DeleteVolumeLocked(ghost c: nat, ghost req: Request, volumeID: string) returns (result: Result)
      requires Valid() && req == Request.DeleteVolume(volumeID) && !Malformed(req) && At(c, req, AfterLock(world, req))
      modifies this, locks
      ensures Valid() && old(run) <= run && At(c, req, Leaving(result))
    {
      if !world.client {
        return Done;
      }
      Interference(c);
      ghost var before := Now();
      var deleted := DeleteVolumeCall(req, volumeID);
      WriteDone(c, before, req, Write(0), deleted);
      result := Removed(deleted);
    }

    /** "Not found" counts as removed already. */
    method Removed(r: Reply) returns (result: Result)
      ensures result == RemovalResult(r)
    {
      if r.Failure? {
        var notFound := IsNotFoundError(r.text);
        if notFound {
          return Done;
        }
        return Error(Internal);
      }
      return Done;
    }

    method ControllerPublishVolume(ghost c: nat, volumeID: string, nodeID: string, capability: bool)
      returns (result: Result)
      requires Valid() && c !in calls
      modifies this, locks
      ensures Valid() && old(run) <= run
      ensures At(c, PublishVolume(volumeID, nodeID, capability), Returned(result))
    {
      var req := PublishVolume(volumeID, nodeID, capability);
      Accept(c, req);
      if |volumeID| == 0 || |nodeID| == 0 || !capability {
        Reject(c, req);
        return Error(InvalidArgument);
      }
      var acquired := TakeLock(c, req, volumeID);
      if !acquired {
        return Error(Aborted);
      }
      result := PublishLocked(c, req);
      Finish(c, req, volumeID, result);
    }

    method PublishLocked(ghost c: nat, req: Request) returns (result: Result)
      requires Valid() && req.PublishVolume? && !Malformed(req) && At(c, req, AfterLock(world, req))
      modifies this, locks
      ensures Valid() && old(run) <= run && At(c, req, Leaving(result))
    {
      if !world.client {
        return Published("/dev/vdb");
      }
      Interference(c);
      var vol := GetVolume(req.volumeId);
      ReadDone(c, req, Lookup, vol);
      if vol.Failure? {
        var notFound := IsNotFoundError(vol.text);
        return Error(if notFound then NotFound else Internal);
      }
      if vol.nodeId == req.nodeId {
        return Published(vol.devicePath);
      }
      if vol.nodeId != "" && vol.nodeId != req.nodeId {
        return Error(FailedPrecondition);
      }
      result := AttachTo(c, req);
    }

    method AttachTo(ghost c: nat, req: Request) returns (result: Result)
      requires Valid() && req.PublishVolume? && !Malformed(req) && At(c, req, Write(0))
      modifies this, locks
      ensures Valid() && old(run) <= run && At(c, req, Leaving(result))
    {
      Interference(c);
      ghost var before := Now();
      var attached := AttachVolumeCall(req, req.volumeId, req.nodeId);
      WriteDone(c, before, req, Write(0), attached);
      if attached.Failure? {
        return Error(Internal);
      }
      return Published(attached.value);
    }

    method ControllerUnpublishVolume(ghost c: nat, volumeID: string, nodeID: string) returns (result: Result)
      requires Valid() && c !in calls
      modifies this, locks
      ensures Valid() && old(run) <= run
      ensures At(c, UnpublishVolume(volumeID, nodeID), Returned(result))
    {
      ghost var req := UnpublishVolume(volumeID, nodeID);
      Accept(c, req);
      if |volumeID| == 0 {
        Reject(c, req);
        return Error(InvalidArgument);
      }
      var acquired := TakeLock(c, req, volumeID);
      if !acquired {
        return Error(Aborted);
      }
      result := UnpublishLocked(c, req, volumeID, nodeID);
      Finish(c, req, volumeID, result);
    }

    method UnpublishLocked(ghost c: nat, ghost req: Request, volumeID: string, nodeID: string) returns (result: Result)
      requires Valid() && req == UnpublishVolume(volumeID, nodeID) && !Malformed(req) && At(c, req, AfterLock(world, req))
      modifies this, locks
      ensures Valid() && old(run) <= run && At(c, req, Leaving(result))
    {
      if !world.client {
        return Done;
      }
      Interference(c);
      ghost var before := Now();
      var detached := DetachVolumeCall(req, volumeID, nodeID);
      WriteDone(c, before, req, Write(0), detached);
      result := Removed(detached);
    }

    method ControllerExpandVolume(ghost c: nat, volumeID: string, range: Option<CapacityRange>) returns (result: Result)
      requires Valid() && c !in calls
      requires world.exactSizes ==> RequiresExact(ExpandVolume(volumeID, range))
      modifies this, locks
      ensures Valid() && old(run) <= run
      ensures At(c, ExpandVolume(volumeID, range), Returned(result))
    {
      var req := ExpandVolume(volumeID, range);
      Accept(c, req);
      if |volumeID| == 0 || range.None? {
        Reject(c, req);
        return Error(InvalidArgument);
      }
      var newSize := range.value.required;
      if newSize <= 0 {
        Reject(c, req);
        return Error(InvalidArgument);
      }
      var acquired := TakeLock(c, req, volumeID);
      if !acquired {
        return Error(Aborted);
      }
      result := ExpandLocked(c, req, newSize);
      Finish(c, req, volumeID, result);
    }

    method ExpandLocked(ghost c: nat, req: Request, newSize: int) returns (result: Result)
      requires Valid() && req.ExpandVolume? && !Malformed(req) && At(c, req, AfterLock(world, req))
      requires newSize == req.range.value.required
      modifies this, locks
      ensures Valid() && old(run) <= run && At(c, req, Leaving(result))
    {
      if !world.client {
        return Expanded(newSize);
      }
      Interference(c);
      var vol := GetVolume(req.volumeId);
      ReadDone(c, req, Lookup, vol);
      if vol.Failure? {
        var notFound := IsNotFoundError(vol.text);
        if notFound {
          return Error(NotFound);
        }
        // any other failure: expand without knowing the present size
      } else if vol.size > 0 && vol.size >= newSize {
        return Expanded(vol.size);
      }
      result := GrowVolume(c, req, newSize);
    }

    method GrowVolume(ghost c: nat, req: Request, newSize: int) returns (result: Result)
      requires Valid() && req.ExpandVolume? && !Malformed(req) && At(c, req, Write(0))
      requires newSize == req.range.value.required
      modifies this, locks
      ensures Valid() && old(run) <= run && At(c, req, Leaving(result))
    {
      Interference(c);
      ghost var before := Now();
      var expanded := ExpandVolumeCall(req, req.volumeId, newSize);
      WriteDone(c, before, req, Write(0), expanded);
      if expanded.Failure? {
        if Occurs("CannotExpandUnattachedVolume", expanded.text) {
          return Error(FailedPrecondition);
        }
        return Error(Internal);
      }
      var capacityBytes := expanded.reported;
      if capacityBytes == 0 {
        capacityBytes := newSize;
      }
      return Expanded(capacityBytes);
    }

    method CreateSnapshot(ghost c: nat, name: string, sourceVolumeID: string) returns (result: Result)
      requires Valid() && c !in calls
      modifies this, locks
      ensures Valid() && old(run) <= run
      ensures At(c, Request.CreateSnapshot(name, sourceVolumeID), Returned(result))
    {
      var req := Request.CreateSnapshot(name, sourceVolumeID);
      Accept(c, req);
      if |name| == 0 || |sourceVolumeID| == 0 {
        Reject(c, req);
        return Error(InvalidArgument);
      }
      var acquired := TakeLock(c, req, name);
      if !acquired {
        return Error(Aborted);
      }
      result := CreateSnapshotLocked(c, req);
      Finish(c, req, name, result);
    }

    method CreateSnapshotLocked(ghost c: nat, req: Request) returns (result: Result)
      requires Valid() && req.CreateSnapshot? && !Malformed(req) && At(c, req, AfterLock(world, req))
      modifies this, locks
      ensures Valid() && old(run) <= run && At(c, req, Leaving(result))
    {
      if !world.client {
        return SnapshotCreated("snap-" + req.name, req.volumeId, DEFAULT_VOLUME_SIZE);
      }
      Interference(c);
      var existing := GetSnapshotByName(req.name);
      ReadDone(c, req, Lookup, existing);
      if existing.SnapshotInfo? {
        if existing.entry.source != req.volumeId {
          return Error(AlreadyExists);
        }
        return SnapshotResult(existing.entry);
      }
      Interference(c);
      var listed := ListPage(req.volumeId);
      ReadDone(c, req, ListSnapshots, listed);
      if listed.SnapshotPage? {
        var hit := FindNamed(listed.entries, req.name);
        if hit.Some? {
          return SnapshotResult(hit.value);
        }
      }
      result := TakeSnapshot(c, req);
    }

    /** The loop over the listed page. */
    method FindNamed(entries: seq<SnapshotEntry>, name: string) returns (hit: Option<SnapshotEntry>)
      ensures hit == FirstNamed(entries, name)
    {
      var i := 0;
      while i < |entries|
        invariant 0 <= i <= |entries|
        invariant FirstNamed(entries, name) == FirstNamed(entries[i..], name)
      {
        if entries[i].name == name {
          return Some(entries[i]);
        }
        assert entries[i..][1..] == entries[i + 1..];
        i := i + 1;
      }
      return None;
    }

    method TakeSnapshot(ghost c: nat, req: Request) returns (result: Result)
      requires Valid() && req.CreateSnapshot? && !Malformed(req) && At(c, req, ReadSource)
      modifies this, locks
      ensures Valid() && old(run) <= run && At(c, req, Leaving(result))
    {
      Interference(c);
      var vol := GetVolume(req.volumeId);
      ReadDone(c, req, ReadSource, vol);
      if vol.Failure? {
        var notFound := IsNotFoundError(vol.text);
        return Error(if notFound then NotFound else Internal);
      }
      result := CreateNewSnapshot(c, req, vol.size);
    }

    method CreateNewSnapshot(ghost c: nat, req: Request, sourceSize: int) returns (result: Result)
      requires Valid() && req.CreateSnapshot? && !Malformed(req) && At(c, req, Write(sourceSize))
      modifies this, locks
      ensures Valid() && old(run) <= run && At(c, req, Leaving(result))
    {
      Interference(c);
      ghost var before := Now();
      var snap := CreateSnapshotCall(req, req.name, req.volumeId);
      WriteDone(c, before, req, Write(sourceSize), snap);
      if snap.Failure? {
        var exists_ := IsAlreadyExistsError(snap.text);
        if exists_ {
          return Error(AlreadyExists);
        }
        if Occurs("VolumeInUse", snap.text) {
          return Error(FailedPrecondition);
        }
        if Occurs("VolumeNotReady", snap.text) {
          return Error(FailedPrecondition);
        }
        return Error(Internal);
      }
      var entry := snap.entry;
      if entry.size == 0 {
        entry := entry.(size := sourceSize);
      }
      return SnapshotResult(entry);
    }

    method DeleteSnapshot(ghost c: nat, snapshotID: string) returns (result: Result)
      requires Valid() && c !in calls
      modifies this, locks
      ensures Valid() && old(run) <= run
      ensures At(c, Request.DeleteSnapshot(snapshotID), Returned(result))
    {
      ghost var req := Request.DeleteSnapshot(snapshotID);
      Accept(c, req);
      if |snapshotID| == 0 {
        Reject(c, req);
        return Error(InvalidArgument);
      }
      var acquired := TakeLock(c, req, snapshotID);
      if !acquired {
        return Error(Aborted);
      }
      result := DeleteSnapshotLocked(c, req, snapshotID);
      Finish(c, req, snapshotID, result);
    }

    method DeleteSnapshotLocked(ghost c: nat, ghost req: Request, snapshotID: string) returns (result: Result)
      requires Valid() && req == Request.DeleteSnapshot(snapshotID) && !Malformed(req) && At(c, req, AfterLock(world, req))
      modifies this, locks
      ensures Valid() && old(run) <= run && At(c, req, Leaving(result))
    {
      if !world.client {
        return Done;
      }
      Interference(c);
      ghost var before := Now();
      var deleted := DeleteSnapshotCall(req, snapshotID);
      WriteDone(c, before, req, Write(0), deleted);
      result := Removed(deleted);
    }
  }
}

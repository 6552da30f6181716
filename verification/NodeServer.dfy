/**
 The node's handlers in the form of the source: straight-line methods over the shared lock table
 and the node. Each one is proved to be a sequence of steps of the transition system in NodeModel,
 with the steps of other handlers, late mounts and workloads in between.
 */
module NodeHandlers {
  import opened NodeModel
  import opened VolumeLockTable

  /** What blkid ends with: a type on its output, or an exit code. */
  datatype Blkid = Printed(fs: string) | Exited(code: nat)

  class NodeServer {
    const world: World
    const locks: VolumeLocks
    var node: Node

    ghost var calls: map<nat, Call>
    ghost var run: seq<State>

    constructor (w: World, n: Node)
      requires Init(w, State({}, n, map[]))
      ensures Valid() && world == w && node == n && calls == map[] && fresh(locks)
    {
      world := w;
      node := n;
      calls := map[];
      locks := new VolumeLocks();
      run := [State({}, n, map[])];
    }

    ghost function Now(): State
      reads this, locks
    {
      State(locks.locks.Keys, node, calls)
    }

    /** What has happened is a run of the transition system, and it has led here. */
    ghost predicate Valid()
      reads this, locks
    {
      IsRun(world, run) && run[|run| - 1] == Now()
    }

    ghost predicate At(c: nat, req: Request, pc: Pc)
      reads this
    {
      c in calls && calls[c] == Call(req, pc)
    }

    /** The request keeps to the orchestrator's promises. */
    ghost predicate Welcome(c: nat, req: Request)
      reads this
    {
      && c !in calls && Follows(world, req)
      && (world.serial ==> forall d | d in calls :: calls[d].pc.Returned? || calls[d].req.volume != req.volume)
    }

    ghost method Record(c: nat, e: Event, req: Request, pc: Pc)
      requires IsRun(world, run)
      requires StepBy(world, run[|run| - 1], State(locks.locks.Keys, node, calls[c := Call(req, pc)]), c, e)
      requires Within(world, State(locks.locks.Keys, node, calls[c := Call(req, pc)]))
      modifies `calls, `run
      ensures calls == old(calls)[c := Call(req, pc)]
      ensures Valid() && old(run) <= run
    {
      calls := calls[c := Call(req, pc)];
      Extend(world, run, Now(), c, e);
      run := run + [Now()];
    }

    /**
     Other handlers, late mounts and workloads make any number of steps. What a caller may rely on
     is the contract; nothing needs to happen, so the body is empty.
     */
    method Interference(ghost c: nat)
      requires Valid() && c in calls
      modifies this, locks
      ensures Valid() && old(run) <= run
      ensures c in calls && calls[c] == old(calls[c])
    {
    }

    ghost method Accept(c: nat, req: Request)
      requires Valid() && Welcome(c, req)
      modifies `calls, `run
      ensures Valid() && old(run) <= run && At(c, req, Arrived)
    {
      PresentIsWithin(world, run);
      Record(c, Arrive(req), req, Arrived);
    }

    ghost method Reject(c: nat, req: Request)
      requires Valid() && At(c, req, Arrived) && Malformed(req)
      modifies `calls, `run
      ensures Valid() && old(run) <= run && At(c, req, Returned(Error(InvalidArgument)))
    {
      PresentIsWithin(world, run);
      Record(c, Enter, req, Returned(Error(InvalidArgument)));
    }

    /** Takes the lock on "volume-path", or gives the call up. */
    method TakeLock(ghost c: nat, ghost req: Request, lockKey: string) returns (acquired: bool)
      requires Valid() && At(c, req, Arrived) && !Malformed(req) && lockKey == Key(req)
      modifies this, locks
      ensures Valid() && old(run) <= run
      ensures At(c, req, if acquired then AfterLock(req) else Returned(Error(Aborted)))
    {
      Interference(c);
      PresentIsWithin(world, run);
      acquired := locks.TryAcquire(lockKey);
      Record(c, Enter, req, if acquired then AfterLock(req) else Returned(Error(Aborted)));
    }

    /** The deferred release, and the return. */
    method Finish(ghost c: nat, ghost req: Request, lockKey: string, result: Result)
      requires Valid() && At(c, req, Leaving(result)) && lockKey == Key(req)
      modifies this, locks
      ensures Valid() && old(run) <= run && At(c, req, Returned(result))
    {
      Interference(c);
      PresentIsWithin(world, run);
      locks.Release(lockKey);
      Record(c, Return, req, Returned(result));
    }

    /** Records a system call and moves the handler on. */
    ghost method Did(c: nat, before: State, req: Request, pc: Pc, o: Outcome)
      requires IsRun(world, run) && run[|run| - 1] == before
      requires before.locks == locks.locks.Keys && before.calls == calls && At(c, req, pc)
      requires Fits(req, pc, o) && Effect(world, before.node, node, req, pc, o)
      modifies `calls, `run
      ensures Valid() && old(run) <= run && At(c, req, After(req, pc, o))
    {
      PresentIsWithin(world, run);
      Record(c, Act(o), req, After(req, pc, o));
    }

    // -------------------------------------------------------------- system calls
    // A caller knows the contracts only; the bodies are one system that meets them.

    method IsMountPoint(path: string) returns (o: Outcome)
      ensures o.Mounted? || o.NotMounted? || o.NotExist? || o.Failed?
      ensures Inspects(node, path, o)
    {
      if path in node.mounts && node.mounts[path] != [] {
        return Mounted;
      }
      return if path in node.dirs then NotMounted else NotExist;
    }

    method StatDevice(device: string) returns (o: Outcome)
      ensures o.Succeeded? || (o.NotExist? && device !in node.disks)
    {
      return if device in node.disks then Succeeded else NotExist;
    }

    method MkdirAll(ghost req: Request, path: string) returns (o: Outcome)
      requires (req.Stage? || req.Publish?) && req.path == path
      modifies `node
      ensures Fits(req, MakeDirs, o) && Effect(world, old(node), node, req, MakeDirs, o)
    {
      node := node.(dirs := node.dirs + {path});
      return Succeeded;
    }

    ghost function FsOf(device: string): string
      reads this
    {
      if device in node.disks then node.disks[device].fs else ""
    }

    /** blkid prints the type it finds; its exit code 2 means that it found none, or could not tell. */
    method RunBlkid(device: string) returns (b: Blkid)
      ensures b.Printed? ==> b.fs == FsOf(device)
      ensures b == Exited(2) && world.probes ==> FsOf(device) == ""
    {
      if device !in node.disks || node.disks[device].fs == "" {
        return Exited(2);
      }
      return Printed(node.disks[device].fs);
    }

    method GetDeviceFSType(device: string) returns (o: Outcome)
      ensures o.Filesystem? || o.Failed?
      ensures o.Filesystem? ==> o.fs == FsOf(device) || (!world.probes && o.fs == "")
    {
      var output := RunBlkid(device);
      if output.Exited? {
        if output.code == 2 {
          return Filesystem("");
        }
        return Failed;
      }
      return Filesystem(output.fs);
    }

    method RunMkfs(ghost req: Request, device: string, fsType: string) returns (o: Outcome)
      requires req.Stage? && req.device == device && FsType(req) == fsType
      modifies `node
      ensures Fits(req, Mkfs, o) && Effect(world, old(node), node, req, Mkfs, o)
    {
      if device !in node.disks {
        return Failed;
      }
      node := node.(disks := node.disks[device := Disk(fsType, {})]);
      return Succeeded;
    }

    /** WaitUntilTimeout around Mount: the mount's own result, or a time-out with the mount under way. */
    method MountWithTimeout(ghost req: Request, device: string, path: string) returns (o: Outcome)
      requires req.Stage? && req.device == device && req.path == path
      modifies `node
      ensures Fits(req, Mount, o) && Effect(world, old(node), node, req, Mount, o)
    {
      if world.late {
        // the race of the mount and the deadline is open
        var deadlineFirst: bool := *;
        if deadlineFirst {
          node := node.(pending := node.pending + [Pending(device, path)]);
          return TimedOut;
        }
      }
      if device in node.disks && path in node.dirs {
        node := Push(node, path, Device(device));
        return Succeeded;
      }
      return Failed;
    }

    method BindMount(ghost req: Request, staging: string, target: string) returns (o: Outcome)
      requires req.Publish? && req.staging == staging && req.path == target
      modifies `node
      ensures Fits(req, Bind, o) && Effect(world, old(node), node, req, Bind, o)
    {
      if target in node.dirs && (Stack(node, staging) != [] || staging in node.dirs) {
        node := Push(node, target, Visible(node, staging));
        var remounted: bool := *;
        return if remounted then Succeeded else Failed;
      }
      return Failed;
    }

    method RunUnmount(ghost req: Request, path: string) returns (o: Outcome)
      requires (req.Unstage? || req.Unpublish?) && req.path == path
      modifies `node
      ensures Fits(req, Unmount, o) && Effect(world, old(node), node, req, Unmount, o)
    {
      var stack := Stack(node, path);
      if stack == [] {
        return Failed;
      }
      node := node.(mounts := node.mounts[path := stack[..|stack| - 1]]);
      return Succeeded;
    }

    /** os.RemoveAll; its error is only logged. */
    method RunRemoveAll(ghost req: Request, path: string) returns (o: Outcome)
      requires (req.Unstage? || req.Unpublish?) && req.path == path
      modifies `node
      ensures Fits(req, RemoveAll, o) && Effect(world, old(node), node, req, RemoveAll, o)
    {
      node := node.(dirs := node.dirs - {path});
      return Succeeded;
    }

    // -------------------------------------------------------------- the handlers

    method NodeStageVolume(ghost c: nat, volumeID: string, stagingTargetPath: string, devicePath: string,
                           capability: bool, mountCap: bool, fsType: string) returns (result: Result)
      requires Valid() && Welcome(c, Stage(volumeID, stagingTargetPath, devicePath, capability, mountCap, fsType))
      modifies this, locks
      ensures Valid() && old(run) <= run
      ensures At(c, Stage(volumeID, stagingTargetPath, devicePath, capability, mountCap, fsType), Returned(result))
    {
      var req := Stage(volumeID, stagingTargetPath, devicePath, capability, mountCap, fsType);
      Accept(c, req);
      if |volumeID| == 0 || |stagingTargetPath| == 0 || !capability {
        Reject(c, req);
        return Error(InvalidArgument);
      }
      var lockKey := volumeID + "-" + stagingTargetPath;
      var acquired := TakeLock(c, req, lockKey);
      if !acquired {
        return Error(Aborted);
      }
      result := StageLocked(c, req);
      Finish(c, req, lockKey, result);
    }

    method StageLocked(ghost c: nat, req: Request) returns (result: Result)
      requires Valid() && req.Stage? && At(c, req, AfterLock(req))
      modifies this, locks
      ensures Valid() && old(run) <= run && At(c, req, Leaving(result))
    {
      if req.device == "" {
        return Error(InvalidArgument);
      }
      Interference(c);
      var stat := StatDevice(req.device);
      Did(c, Now(), req, FindDevice, stat);
      if stat.NotExist? {
        return Error(NotFound);
      }
      if !req.mountCap {
        return Error(InvalidArgument);
      }
      Interference(c);
      var mounted := IsMountPoint(req.path);
      Did(c, Now(), req, Inspect, mounted);
      if mounted.Failed? {
        return Error(Internal);
      }
      if mounted.Mounted? {
        return Ok;
      }
      result := FormatAndMount(c, req);
    }

    method FormatAndMount(ghost c: nat, req: Request) returns (result: Result)
      requires Valid() && req.Stage? && At(c, req, MakeDirs)
      modifies this, locks
      ensures Valid() && old(run) <= run && At(c, req, Leaving(result))
    {
      Interference(c);
      ghost var before := Now();
      var made := MkdirAll(req, req.path);
      Did(c, before, req, MakeDirs, made);
      if made.Failed? {
        return Error(Internal);
      }
      var formatted := Format(c, req, req.device, req.fsType);
      if !formatted {
        return Error(Internal);
      }
      result := MountDevice(c, req);
    }

    method MountDevice(ghost c: nat, req: Request) returns (result: Result)
      requires Valid() && req.Stage? && At(c, req, Mount)
      modifies this, locks
      ensures Valid() && old(run) <= run && At(c, req, Leaving(result))
    {
      Interference(c);
      ghost var before := Now();
      var mounted := MountWithTimeout(req, req.device, req.path);
      Did(c, before, req, Mount, mounted);
      if !mounted.Succeeded? {
        return Error(Internal);
      }
      return Ok;
    }

    /** Format of the mounter: probe, and make a filesystem only where there is none. */
    method Format(ghost c: nat, ghost req: Request, source: string, fsType: string) returns (ok: bool)
      requires Valid() && req.Stage? && At(c, req, Probe) && source == req.device && fsType == req.fsType
      modifies this, locks
      ensures Valid() && old(run) <= run
      ensures At(c, req, if ok then Mount else Leaving(Error(Internal)))
    {
      var fs := if fsType == "" then "ext4" else fsType;
      Interference(c);
      var existing := GetDeviceFSType(source);
      Did(c, Now(), req, Probe, existing);
      if existing.Failed? {
        return false;
      }
      if existing.fs != "" {
        return true;
      }
      Interference(c);
      ghost var before := Now();
      var made := RunMkfs(req, source, fs);
      Did(c, before, req, Mkfs, made);
      return made.Succeeded?;
    }

    method NodeUnstageVolume(ghost c: nat, volumeID: string, stagingTargetPath: string) returns (result: Result)
      requires Valid() && Welcome(c, Unstage(volumeID, stagingTargetPath))
      modifies this, locks
      ensures Valid() && old(run) <= run
      ensures At(c, Unstage(volumeID, stagingTargetPath), Returned(result))
    {
      var req := Unstage(volumeID, stagingTargetPath);
      Accept(c, req);
      if |volumeID| == 0 || |stagingTargetPath| == 0 {
        Reject(c, req);
        return Error(InvalidArgument);
      }
      var lockKey := volumeID + "-" + stagingTargetPath;
      var acquired := TakeLock(c, req, lockKey);
      if !acquired {
        return Error(Aborted);
      }
      result := UnmountLocked(c, req);
      Finish(c, req, lockKey, result);
    }

    /** The common part of unstage and unpublish: unmount, then remove the directory. */
    method UnmountLocked(ghost c: nat, req: Request) returns (result: Result)
      requires Valid() && (req.Unstage? || req.Unpublish?) && At(c, req, Inspect)
      modifies this, locks
      ensures Valid() && old(run) <= run && At(c, req, Leaving(result))
    {
      Interference(c);
      var mounted := IsMountPoint(req.path);
      Did(c, Now(), req, Inspect, mounted);
      if mounted.NotExist? {
        return Ok;
      }
      if mounted.Failed? {
        return Error(Internal);
      }
      if !mounted.Mounted? {
        return Ok;
      }
      result := UnmountAndRemove(c, req);
    }

    method UnmountAndRemove(ghost c: nat, req: Request) returns (result: Result)
      requires Valid() && (req.Unstage? || req.Unpublish?) && At(c, req, Unmount)
      modifies this, locks
      ensures Valid() && old(run) <= run && At(c, req, Leaving(result))
    {
      Interference(c);
      ghost var before := Now();
      var unmounted := RunUnmount(req, req.path);
      Did(c, before, req, Unmount, unmounted);
      if unmounted.Failed? {
        return Error(Internal);
      }
      Interference(c);
      before := Now();
      var removed := RunRemoveAll(req, req.path);
      Did(c, before, req, RemoveAll, removed);
      return Ok;
    }

    method NodePublishVolume(ghost c: nat, volumeID: string, targetPath: string, stagingTargetPath: string, capability: bool)
      returns (result: Result)
      requires Valid() && Welcome(c, Publish(volumeID, targetPath, stagingTargetPath, capability))
      modifies this, locks
      ensures Valid() && old(run) <= run
      ensures At(c, Publish(volumeID, targetPath, stagingTargetPath, capability), Returned(result))
    {
      var req := Publish(volumeID, targetPath, stagingTargetPath, capability);
      Accept(c, req);
      if |volumeID| == 0 || |targetPath| == 0 || |stagingTargetPath| == 0 || !capability {
        Reject(c, req);
        return Error(InvalidArgument);
      }
      var lockKey := volumeID + "-" + targetPath;
      var acquired := TakeLock(c, req, lockKey);
      if !acquired {
        return Error(Aborted);
      }
      result := PublishLocked(c, req);
      Finish(c, req, lockKey, result);
    }

    method PublishLocked(ghost c: nat, req: Request) returns (result: Result)
      requires Valid() && req.Publish? && At(c, req, InspectStaging)
      modifies this, locks
      ensures Valid() && old(run) <= run && At(c, req, Leaving(result))
    {
      Interference(c);
      var staged := IsMountPoint(req.staging);
      Did(c, Now(), req, InspectStaging, staged);
      if staged.Failed? || staged.NotExist? {
        return Error(Internal);
      }
      if !staged.Mounted? {
        return Error(FailedPrecondition);
      }
      Interference(c);
      var mounted := IsMountPoint(req.path);
      Did(c, Now(), req, Inspect, mounted);
      if mounted.Failed? {
        return Error(Internal);
      }
      if mounted.Mounted? {
        return Ok;
      }
      result := BindTarget(c, req);
    }

    method BindTarget(ghost c: nat, req: Request) returns (result: Result)
      requires Valid() && req.Publish? && At(c, req, MakeDirs)
      modifies this, locks
      ensures Valid() && old(run) <= run && At(c, req, Leaving(result))
    {
      Interference(c);
      ghost var before := Now();
      var made := MkdirAll(req, req.path);
      Did(c, before, req, MakeDirs, made);
      if made.Failed? {
        return Error(Internal);
      }
      Interference(c);
      before := Now();
      var bound := BindMount(req, req.staging, req.path);
      Did(c, before, req, Bind, bound);
      if bound.Failed? {
        return Error(Internal);
      }
      return Ok;
    }

    method NodeUnpublishVolume(ghost c: nat, volumeID: string, targetPath: string) returns (result: Result)
      requires Valid() && Welcome(c, Unpublish(volumeID, targetPath))
      modifies this, locks
      ensures Valid() && old(run) <= run
      ensures At(c, Unpublish(volumeID, targetPath), Returned(result))
    {
      var req := Unpublish(volumeID, targetPath);
      Accept(c, req);
      if |volumeID| == 0 || |targetPath| == 0 {
        Reject(c, req);
        return Error(InvalidArgument);
      }
      var lockKey := volumeID + "-" + targetPath;
      var acquired := TakeLock(c, req, lockKey);
      if !acquired {
        return Error(Aborted);
      }
      result := UnmountLocked(c, req);
      Finish(c, req, lockKey, result);
    }
  }
}

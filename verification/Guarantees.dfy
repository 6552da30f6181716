/** What the guarantees proved for runs say about the servers themselves, at any moment. */
module Guarantees {
  import Controller = ControllerModel
  import ControllerLocks
  import ControllerAttachments
  import ControllerNames
  import ControllerSizes
  import ControllerSnapshots
  import ControllerRemovals
  import opened ControllerHandlers
  import NodeModel
  import NodeLocks
  import NodeStacks
  import NodeData
  import NodeDevices
  import opened NodeHandlers

  /**
   Whatever handlers a controller has run or is running: its lock table holds the keys of the calls
   in flight; without late writes, no volume is attached to two nodes, and names are unique where
   lookups work.
   */
  lemma OfController(s: ControllerServer)
    requires s.Valid()
    ensures s.locks.locks.Keys == ControllerLocks.HeldKeys(s.Now())
    ensures !s.world.lateWrites && Controller.AttachedOnce(s.run[0].backend) ==> Controller.AttachedOnce(s.backend)
    ensures !s.world.lateWrites && s.world.lookups && Controller.UniqueNames(s.run[0].backend) ==>
      Controller.UniqueNames(s.backend)
  {
    var i := |s.run| - 1;
    ControllerLocks.LockTableIsHeldKeys(s.world, s.run, i);
    if !s.world.lateWrites && Controller.AttachedOnce(s.run[0].backend) {
      ControllerAttachments.InvInRun(s.world, s.run, i);
    }
    if Controller.UniqueNames(s.run[0].backend) {
      ControllerNames.InvInRun(s.world, s.run, i);
    }
  }

  /** Where reads can be trusted, no step a controller has seen has made a volume smaller. */
  lemma SizesOfController(s: ControllerServer, i: nat)
    requires s.Valid() && ControllerSizes.Trusted(s.world) && 0 < i < |s.run|
    ensures ControllerSizes.NoneShrinks(s.run[i - 1].backend, s.run[i].backend)
  {
    ControllerSizes.InvInRun(s.world, s.run, i);
  }

  /** Snapshot names stay unique, or unique per source, in the worlds that keep them so. */
  lemma SnapshotsOfController(s: ControllerServer)
    requires s.Valid()
    ensures ControllerSnapshots.KeepsNames(s.world) && Controller.UniqueSnapshotNames(s.run[0].backend) ==>
      Controller.UniqueSnapshotNames(s.backend)
    ensures ControllerSnapshots.KeepsPerSource(s.world) && Controller.UniquePerSource(s.run[0].backend) ==>
      Controller.UniquePerSource(s.backend)
  {
    ControllerSnapshots.InvInRun(s.world, s.run, |s.run| - 1);
  }

  /** Where removals can be trusted, an unpublish call about to return has its volume detached. */
  lemma RemovalsOfController(s: ControllerServer, c: nat)
    requires s.Valid() && ControllerRemovals.Trusted(s.world) && c in s.calls
    requires s.calls[c].req.UnpublishVolume? && s.calls[c].pc == Controller.Leaving(Controller.Done)
    ensures Controller.Gone(s.backend, s.calls[c].req)
  {
    ControllerRemovals.InvInRun(s.world, s.run, |s.run| - 1);
    assert ControllerRemovals.Fact(s.backend, s.calls[c]);
  }

  /**
   Whatever a node has run or is running: its lock table holds the keys of the calls in flight;
   where no mount can time out, no path carries two mounts; and where the world lets the driver be
   faithful, every path in use shows its own volume.
   */
  lemma OfNode(s: NodeServer)
    requires s.Valid()
    ensures s.locks.locks.Keys == NodeLocks.HeldKeys(s.Now())
    ensures !NodeModel.MayLand(s.world) ==> forall p :: |NodeModel.Stack(s.node, p)| <= 1
    ensures NodeDevices.Faithful(s.world) && NodeDevices.ShowsOwn(s.world, s.run[0].node) ==>
      NodeDevices.ShowsOwn(s.world, s.node)
  {
    var i := |s.run| - 1;
    NodeLocks.LockTableIsHeldKeys(s.world, s.run, i);
    if !NodeModel.MayLand(s.world) {
      NodeStacks.NoLateMountsNoStacks(s.world, s.run, i);
    }
    if NodeDevices.Faithful(s.world) && NodeDevices.ShowsOwn(s.world, s.run[0].node) {
      NodeDevices.InvInRun(s.world, s.run, i);
    }
  }

  /** In a safe world, no step a node has made has lost data, unless a workload's own. */
  lemma DataOfNode(s: NodeServer, i: nat, c: nat, e: NodeModel.Event)
    requires s.Valid() && NodeData.Safe(s.world) && NodeData.DriverStep(s.world, s.run, i, c, e)
    ensures NodeData.KeepsData(s.run[i - 1].node, s.run[i].node)
  {
    NodeData.DriverKeepsData(s.world);
  }
}

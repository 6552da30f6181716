/** The admission decision of the claim-resize webhook (cmd/pvc-expand-webhook/main.go). */
module ResizeWebhook {
  import opened Options

  const DRIVER := "vcloud.csi.vnetwork.dev"

  /** A persistent volume's CSI source. */
  datatype Csi = Csi(driver: string, volumeHandle: string)

  /** A VolumeAttachment: the persistent volume it names, if any, and whether it is attached. */
  datatype Attachment = Attachment(pvName: Option<string>, attached: bool)

  /** The cluster as the webhook can read it: `volumes` are the persistent volumes a Get returns. */
  datatype Cluster = Cluster(volumes: map<string, Option<Csi>>, attachments: Option<seq<Attachment>>)

  datatype Claim = Claim(size: int, bound: bool, volumeName: string)

  /** An object of None could not be decoded. */
  datatype Request = Request(kind: string, update: bool, oldClaim: Option<Claim>, newClaim: Option<Claim>)

  datatype Decision = Allowed | NotBound | NotAttached

  /** The attachment is in effect and its persistent volume resolves to this handle. */
  predicate Attaches(cluster: Cluster, a: Attachment, handle: string) {
    && a.attached
    && a.pvName.Some?
    && a.pvName.value in cluster.volumes
    && cluster.volumes[a.pvName.value].Some?
    && cluster.volumes[a.pvName.value].value.volumeHandle == handle
  }

  /** isVolumeAttached; None when the attachments cannot be listed. */
  method IsVolumeAttached(cluster: Cluster, volumeHandle: string) returns (attached: Option<bool>)
    ensures attached.None? <==> cluster.attachments.None?
    ensures attached.Some? ==>
      (attached.value <==> exists a | a in cluster.attachments.value :: Attaches(cluster, a, volumeHandle))
  {
    if cluster.attachments.None? {
      return None;
    }
    var items := cluster.attachments.value;
    var i := 0;
    while i < |items|
      invariant 0 <= i <= |items|
      invariant forall j | 0 <= j < i :: !Attaches(cluster, items[j], volumeHandle)
    {
      var va := items[i];
      i := i + 1;
      if va.pvName.Some? {
        if va.pvName.value !in cluster.volumes {
          continue;
        }
        var csi := cluster.volumes[va.pvName.value];
        if csi.Some? && csi.value.volumeHandle == volumeHandle {
          if va.attached {
            assert va in items && Attaches(cluster, va, volumeHandle);
            return Some(true);
          }
        }
      }
    }
    forall a | a in items ensures !Attaches(cluster, a, volumeHandle) {
      var j :| 0 <= j < |items| && items[j] == a;
    }
    return Some(false);
  }

  /** The request is a decodable claim update that asks for more storage. */
  predicate Grows(req: Request) {
    && req.kind == "PersistentVolumeClaim" && req.update
    && req.oldClaim.Some? && req.newClaim.Some?
    && req.newClaim.value.size > req.oldClaim.value.size
  }

  /** The old claim's volume resolves to this driver, and a listing shows it nowhere attached. */
  ghost predicate KnownDetached(cluster: Cluster, old_: Claim) {
    && old_.volumeName != ""
    && old_.volumeName in cluster.volumes
    && var csi := cluster.volumes[old_.volumeName];
    && csi.Some? && csi.value.driver == "vcloud.csi.vnetwork.dev"
    && cluster.attachments.Some?
    && forall a | a in cluster.attachments.value :: !Attaches(cluster, a, csi.value.volumeHandle)
  }

  /** validate: a resize is denied in exactly two cases, and everything unreadable is let through. */
  method Validate(cluster: Cluster, req: Request) returns (decision: Decision)
    ensures decision == NotBound <==> Grows(req) && !req.oldClaim.value.bound
    ensures decision == NotAttached <==>
      Grows(req) && req.oldClaim.value.bound && KnownDetached(cluster, req.oldClaim.value)
  {
    if req.kind != "PersistentVolumeClaim" || !req.update {
      return Allowed;
    }
    if req.oldClaim.None? {
      return Allowed;
    }
    if req.newClaim.None? {
      return Allowed;
    }
    var oldPVC, newPVC := req.oldClaim.value, req.newClaim.value;
    if newPVC.size <= oldPVC.size {
      return Allowed;
    }
    if !oldPVC.bound {
      return NotBound;
    }
    if oldPVC.volumeName == "" {
      return Allowed;
    }
    if oldPVC.volumeName !in cluster.volumes {
      return Allowed;
    }
    var csi := cluster.volumes[oldPVC.volumeName];
    if csi.None? || csi.value.driver != DRIVER {
      return Allowed;
    }
    var attached := IsVolumeAttached(cluster, csi.value.volumeHandle);
    if attached.None? {
      return Allowed;
    }
    if !attached.value {
      return NotAttached;
    }
    return Allowed;
  }

  /**
   The repository's documentation says the webhook covers bs.csi.vnetwork.dev, the name the released
   manifests install the driver under. The code compares with another name, so for a claim bound to
   a volume of that driver it never denies anything, attached or not.
   */
  method NeverDeniesReleasedDriver(cluster: Cluster, req: Request) returns (decision: Decision)
    requires Grows(req) && req.oldClaim.value.bound
    requires req.oldClaim.value.volumeName in cluster.volumes
    requires cluster.volumes[req.oldClaim.value.volumeName].Some?
    requires cluster.volumes[req.oldClaim.value.volumeName].value.driver == "bs.csi.vnetwork.dev"
    ensures decision == Allowed
  {
    decision := Validate(cluster, req);
  }
}

/**
 The node service (pkg/vcloud/nodeserver.go, with the mounter of pkg/vcloud/mounter.go and
 WaitUntilTimeout of pkg/vcloud/utils.go) as a transition system: any number of Stage, Unstage,
 Publish and Unpublish handlers run at once over one lock table and one node with its mounts, disks
 and directories. Every system call may fail. A mount that timed out may still land later, after its
 handler has given its lock up and returned.
 */
module NodeModel {

  // ---------------------------------------------------------------- the node

  /** What a mount shows: a device's filesystem, or a plain directory of the host. */
  datatype Shown = Device(device: string) | Directory

  /** A disk's filesystem type ("" for none) and the files on it. */
  datatype Disk = Disk(fs: string, files: set<string>)

  datatype Pending = Pending(device: string, path: string)

  /**
   Mounts are stacked per path, the last one visible. `pending` are the timed-out mounts that are
   still under way; `landed` counts, per path, those that went through after all.
   */
  datatype Node = Node(mounts: map<string, seq<Shown>>, disks: map<string, Disk>, dirs: set<string>,
                       pending: seq<Pending>, landed: map<string, nat>)

  function Stack(n: Node, path: string): seq<Shown> {
    if path in n.mounts then n.mounts[path] else []
  }

  function Landed(n: Node, path: string): nat {
    if path in n.landed then n.landed[path] else 0
  }

  function Push(n: Node, path: string, what: Shown): Node {
    n.(mounts := n.mounts[path := Stack(n, path) + [what]])
  }

  /** q lies below p in the directory tree; p may or may not end in a slash. */
  predicate Under(p: string, q: string) {
    p != q && (if p != "" && p[|p| - 1] == '/' then p else p + "/") <= q
  }

  /** The device is visible at path p or at a path below it. */
  predicate VisibleUnder(n: Node, p: string, device: string) {
    exists q | q in n.mounts ::
      (q == p || Under(p, q)) && n.mounts[q] != [] && n.mounts[q][|n.mounts[q]| - 1] == Device(device)
  }

  // ---------------------------------------------------------------- what the orchestrator keeps to

  /**
   `owner` gives the one volume a path is used for. The flags are further promises of the
   orchestrator or of the surroundings; the maps say what they refer to.
   */
  datatype World = World(
    owner: map<string, string>,
    device: map<string, string>,
    home: map<string, string>,
    ownDevice: bool,    // a volume is always staged from its own device
    oneHome: bool,      // a device is always staged at the same path
    serial: bool,       // one call in flight per volume
    late: bool,         // mounts may time out and land later
    probes: bool,       // a probe that does not fail sees the filesystem there is
    foreign: bool)      // other mounts may exist outside the paths in use

  // ---------------------------------------------------------------- requests

  datatype Request =
    | Stage(volume: string, path: string, device: string, capability: bool, mountCap: bool, fsType: string)
    | Unstage(volume: string, path: string)
    | Publish(volume: string, path: string, staging: string, capability: bool)
    | Unpublish(volume: string, path: string)

  datatype Code = InvalidArgument | Aborted | NotFound | FailedPrecondition | Internal
  datatype Result = Ok | Error(code: Code)

  function Key(req: Request): string {
    LockKey(req.volume, req.path)
  }

  function LockKey(volume: string, path: string): string {
    volume + "-" + path
  }

  predicate Malformed(req: Request) {
    || req.volume == "" || req.path == ""
    || (req.Stage? && !req.capability)
    || (req.Publish? && (req.staging == "" || !req.capability))
  }

  /** The promises about one request. */
  predicate Follows(w: World, req: Request) {
    && req.path in w.owner && w.owner[req.path] == req.volume
    && (req.Publish? ==> req.staging in w.owner && w.owner[req.staging] == req.volume)
    && (req.Stage? && req.device != "" ==>
          && (w.ownDevice ==> req.volume in w.device && w.device[req.volume] == req.device)
          && (w.oneHome ==> req.device in w.home && w.home[req.device] == req.path))
  }

  // ---------------------------------------------------------------- what can go wrong
  // Each of these can be told from a world alone: some calls that keep to its promises make it possible.

  /** The volume can be staged at this path from this device. */
  predicate MayStage(w: World, v: string, p: string, device: string) {
    v != "" && p != "" && device != "" && Follows(w, Stage(v, p, device, true, true, ""))
  }

  /** Some mount can time out. */
  ghost predicate MayLand(w: World) {
    w.late && exists v, p, device :: MayStage(w, v, p, device)
  }

  /** Some device that is staged can be taken for blank. */
  ghost predicate MayMisread(w: World) {
    !w.probes && exists v, p, device :: MayStage(w, v, p, device)
  }

  /** Some mount of others can lie below a path in use. */
  predicate MayShelter(w: World) {
    w.foreign && exists p | p in w.owner :: p != "" && w.owner[p] != ""
  }

  /** Some path in use lies below another. */
  predicate MayNest(w: World) {
    exists p, q | p in w.owner && q in w.owner :: Under(p, q) && p != "" && w.owner[p] != ""
  }

  /** Two calls at once can stage one device at two paths. */
  ghost predicate MayShare(w: World) {
    exists u, p, v, q, device :: MayShareAt(w, u, p, v, q, device)
  }

  predicate MayShareAt(w: World, u: string, p: string, v: string, q: string, device: string) {
    && MayStage(w, u, p, device) && MayStage(w, v, q, device)
    && p != q && LockKey(u, p) != LockKey(v, q) && (w.serial ==> u != v)
  }

  /** Some volume can be staged from a device that is not its own. */
  ghost predicate MayMisstage(w: World) {
    exists v, p, device :: MayStage(w, v, p, device) && !(v in w.device && w.device[v] == device)
  }

  /** Some volume can be published while another call of it is in flight. */
  ghost predicate MayOverlap(w: World) {
    !w.serial && exists v, t, p :: MayPublish(w, v, t, p)
  }

  /** A volume with a device can be published from one path to another. */
  predicate MayPublish(w: World, v: string, t: string, p: string) {
    v != "" && t != "" && p != "" && p != t && v in w.device && Follows(w, Publish(v, t, p, true))
  }

  // ---------------------------------------------------------------- the handlers

  datatype Pc =
    | Arrived
    | FindDevice          // Stage: is the device there?
    | InspectStaging      // Publish: is the staging path mounted?
    | Inspect             // is the call's own path mounted?
    | MakeDirs
    | Probe               // Stage: what filesystem is on the device?
    | Mkfs
    | Mount               // Stage: mount with a time-out
    | Bind                // Publish: bind the staging path to the target
    | Unmount
    | RemoveAll
    | Leaving(result: Result)
    | Returned(result: Result)

  function AfterLock(req: Request): Pc {
    match req
    case Stage(_, _, device, _, _, _) => if device == "" then Leaving(Error(InvalidArgument)) else FindDevice
    case Publish(_, _, _, _) => InspectStaging
    case _ => Inspect
  }

  /** What a system call reports. */
  datatype Outcome = Succeeded | Failed | Mounted | NotMounted | NotExist | TimedOut | Filesystem(fs: string)

  /** The outcomes a handler can see where it stands. */
  predicate Fits(req: Request, pc: Pc, o: Outcome) {
    match pc
    case FindDevice => req.Stage? && (o.Succeeded? || o.NotExist?)
    case InspectStaging => req.Publish? && (o.Mounted? || o.NotMounted? || o.NotExist? || o.Failed?)
    case Inspect => o.Mounted? || o.NotMounted? || o.NotExist? || o.Failed?
    case MakeDirs => (req.Stage? || req.Publish?) && (o.Succeeded? || o.Failed?)
    case Probe => req.Stage? && (o.Filesystem? || o.Failed?)
    case Mkfs => req.Stage? && (o.Succeeded? || o.Failed?)
    case Mount => req.Stage? && (o.Succeeded? || o.Failed? || o.TimedOut?)
    case Bind => req.Publish? && (o.Succeeded? || o.Failed?)
    case Unmount => (req.Unstage? || req.Unpublish?) && (o.Succeeded? || o.Failed?)
    case RemoveAll => (req.Unstage? || req.Unpublish?) && (o.Succeeded? || o.Failed?)
    case _ => false
  }

  /** How a handler continues. */
  function After(req: Request, pc: Pc, o: Outcome): (next: Pc)
    requires Fits(req, pc, o)
    ensures !next.Arrived? && !next.Returned?
  {
    if o.Failed? && !pc.RemoveAll? then Leaving(Error(Internal))
    else
      match pc
      case FindDevice =>
        if o.NotExist? then Leaving(Error(NotFound))
        else if !req.mountCap then Leaving(Error(InvalidArgument))
        else Inspect
      case InspectStaging =>
        if o.Mounted? then Inspect
        else Leaving(Error(if o.NotExist? then Internal else FailedPrecondition))
      case Inspect =>
        if req.Stage? || req.Publish? then (if o.Mounted? then Leaving(Ok) else MakeDirs)
        else (if o.Mounted? then Unmount else Leaving(Ok))
      case MakeDirs => if req.Stage? then Probe else Bind
      case Probe => if o.fs == "" then Mkfs else Mount
      case Mkfs => Mount
      case Mount => if o.TimedOut? then Leaving(Error(Internal)) else Leaving(Ok)
      case Bind => Leaving(Ok)
      case Unmount => RemoveAll
      case RemoveAll => Leaving(Ok)
      case _ => assert false; pc
  }

  // ---------------------------------------------------------------- what system calls do

  /** IsMountPoint is truthful unless it fails. */
  predicate Inspects(n: Node, path: string, o: Outcome) {
    match o
    case Mounted => Stack(n, path) != []
    case NotMounted => Stack(n, path) == [] && path in n.dirs
    case NotExist => Stack(n, path) == [] && path !in n.dirs
    case _ => o.Failed?
  }

  /** The type mkfs is asked for. */
  function FsType(req: Request): string
    requires req.Stage?
  {
    if req.fsType == "" then "ext4" else req.fsType
  }

  /** RemoveAll may delete anything on what is visible at or below the path, and directories there. */
  predicate RemovesBelow(n: Node, n': Node, path: string) {
    && n' == n.(disks := n'.disks, dirs := n'.dirs)
    && n'.dirs <= n.dirs && (forall q | q in n.dirs && q !in n'.dirs :: q == path || Under(path, q))
    && n'.disks.Keys == n.disks.Keys
    && forall d | d in n.disks ::
      n'.disks[d] == n.disks[d] || (VisibleUnder(n, path, d) && n'.disks[d].fs == n.disks[d].fs)
  }

  /** What a bind mount of the staging path shows. */
  function Visible(n: Node, path: string): Shown {
    var stack := Stack(n, path);
    if stack == [] then Directory else stack[|stack| - 1]
  }

  ghost predicate Effect(w: World, n: Node, n': Node, req: Request, pc: Pc, o: Outcome)
    requires Fits(req, pc, o)
  {
    match pc
    case FindDevice => n' == n && (o.NotExist? ==> req.device !in n.disks)
    case InspectStaging => n' == n && Inspects(n, req.staging, o)
    case Inspect => n' == n && Inspects(n, req.path, o)
    case MakeDirs =>
      n' == n.(dirs := n'.dirs) && n.dirs <= n'.dirs && (o.Succeeded? ==> req.path in n'.dirs)
    case Probe =>
      && n' == n
      && (o.Filesystem? ==>
            || o.fs == (if req.device in n.disks then n.disks[req.device].fs else "")
            || (!w.probes && o.fs == ""))
    case Mkfs =>
      if o.Succeeded? then
        req.device in n.disks && n' == n.(disks := n.disks[req.device := Disk(FsType(req), {})])
      else
        n' == n || (req.device in n.disks && n' == n.(disks := n.disks[req.device := Disk("", {})]))
    case Mount =>
      if o.Succeeded? then
        req.device in n.disks && req.path in n.dirs && n' == Push(n, req.path, Device(req.device))
      else if o.TimedOut? then
        w.late && n' == n.(pending := n.pending + [Pending(req.device, req.path)])
      else n' == n
    case Bind =>
      if o.Succeeded? then
        && req.path in n.dirs && (Stack(n, req.staging) != [] || req.staging in n.dirs)
        && n' == Push(n, req.path, Visible(n, req.staging))
      else
        // the bind may have gone through and only its remount failed
        || n' == n
        || (req.path in n.dirs && (Stack(n, req.staging) != [] || req.staging in n.dirs)
            && n' == Push(n, req.path, Visible(n, req.staging)))
    case Unmount =>
      if o.Succeeded? then
        var stack := Stack(n, req.path);
        stack != [] && n' == n.(mounts := n.mounts[req.path := stack[..|stack| - 1]])
      else n' == n
    case RemoveAll => RemovesBelow(n, n', req.path)
    case _ => false
  }

  /** A timed-out mount comes to its end: it lands on its path, or it fails. */
  predicate Lands(n: Node, n': Node, i: nat) {
    && i < |n.pending|
    && var p := n.pending[i];
    && var rest := n.(pending := n.pending[..i] + n.pending[i + 1..]);
    && (n' == rest
        || (p.device in n.disks && p.path in n.dirs
            && n' == Push(rest, p.path, Device(p.device)).(landed := n.landed[p.path := Landed(n, p.path) + 1])))
  }

  /** A workload changes the files of a disk that has a filesystem. */
  predicate Works(n: Node, n': Node, device: string) {
    && device in n.disks && n.disks[device].fs != "" && device in n'.disks
    && n' == n.(disks := n.disks[device := n.disks[device].(files := n'.disks[device].files)])
  }

  // ---------------------------------------------------------------- states and steps

  datatype Call = Call(req: Request, pc: Pc)

  predicate Holds(k: Call) {
    !k.pc.Arrived? && !k.pc.Returned?
  }

  datatype State = State(locks: set<string>, node: Node, calls: map<nat, Call>)

  datatype Event = Arrive(req: Request) | Enter | Act(outcome: Outcome) | Return | Land(index: nat) | Work(device: string)

  predicate Enters(s: State, s': State, c: nat) {
    && c in s.calls && s.calls[c].pc.Arrived?
    && var req := s.calls[c].req;
    && if Malformed(req) then
         s' == s.(calls := s.calls[c := Call(req, Returned(Error(InvalidArgument)))])
       else if Key(req) in s.locks then
         s' == s.(calls := s.calls[c := Call(req, Returned(Error(Aborted)))])
       else
         s' == s.(locks := s.locks + {Key(req)}, calls := s.calls[c := Call(req, AfterLock(req))])
  }

  ghost predicate Acts(w: World, s: State, s': State, c: nat, o: Outcome) {
    && c in s.calls && Fits(s.calls[c].req, s.calls[c].pc, o)
    && var k := s.calls[c];
    && Effect(w, s.node, s'.node, k.req, k.pc, o)
    && s' == State(s.locks, s'.node, s.calls[c := k.(pc := After(k.req, k.pc, o))])
  }

  predicate Returns(s: State, s': State, c: nat) {
    && c in s.calls && s.calls[c].pc.Leaving?
    && s' == s.(locks := s.locks - {Key(s.calls[c].req)},
                calls := s.calls[c := s.calls[c].(pc := Returned(s.calls[c].pc.result))])
  }

  ghost predicate StepBy(w: World, s: State, s': State, c: nat, e: Event) {
    match e
    case Arrive(req) => c !in s.calls && s' == s.(calls := s.calls[c := Call(req, Arrived)])
    case Enter => Enters(s, s', c)
    case Act(o) => Acts(w, s, s', c, o)
    case Return => Returns(s, s', c)
    case Land(i) => s' == s.(node := s'.node) && Lands(s.node, s'.node, i)
    case Work(d) => s' == s.(node := s'.node) && Works(s.node, s'.node, d)
  }

  /** What the orchestrator promises about the calls there are. */
  ghost predicate Within(w: World, s: State) {
    && (forall c | c in s.calls :: Follows(w, s.calls[c].req))
    && (w.serial ==> forall c, d | c in s.calls && d in s.calls && c != d
          && !s.calls[c].pc.Returned? && !s.calls[d].pc.Returned? :: s.calls[c].req.volume != s.calls[d].req.volume)
  }

  ghost predicate Next(w: World, s: State, s': State) {
    Within(w, s') && exists c, e :: StepBy(w, s, s', c, e)
  }

  /** At the start nothing is in flight, and each path carries at most one mount. */
  ghost predicate Init(w: World, s: State) {
    && s.locks == {} && s.calls == map[] && s.node.pending == [] && s.node.landed == map[]
    && (forall p | p in s.node.mounts :: (p in w.owner || w.foreign) && |s.node.mounts[p]| <= 1)
    && (forall d | d in s.node.disks && s.node.disks[d].fs == "" :: s.node.disks[d].files == {})
  }

  ghost predicate StepAt(w: World, run: seq<State>, i: nat)
    requires 0 < i < |run|
  {
    Next(w, run[i - 1], run[i])
  }

  ghost predicate IsRun(w: World, run: seq<State>) {
    && run != [] && Init(w, run[0])
    && forall i | 0 < i < |run| :: StepAt(w, run, i)
  }

  lemma Extend(w: World, run: seq<State>, s': State, c: nat, e: Event)
    requires IsRun(w, run) && Within(w, s') && StepBy(w, run[|run| - 1], s', c, e)
    ensures IsRun(w, run + [s'])
  {
    var longer := run + [s'];
    forall i | 0 < i < |longer| ensures StepAt(w, longer, i) {
      if i < |run| {
        assert StepAt(w, run, i);
      }
    }
  }

  lemma PresentIsWithin(w: World, run: seq<State>)
    requires IsRun(w, run)
    ensures Within(w, run[|run| - 1])
  {
    var last := |run| - 1;
    assert last > 0 ==> StepAt(w, run, last);
  }
}

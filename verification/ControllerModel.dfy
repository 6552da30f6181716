/**
 The controller service (pkg/vcloud/controllerserver.go) as a transition system: any number of
 handlers run at once over one lock table and one remote backend, each as a sequence of steps
 (arrive, take the lock, exchange requests and replies with the backend, release and return).

 The backend is weak on purpose: ATTACH adds a pair without looking, CREATE adds a record without
 looking, and any write may take effect while its reply is lost, in a world with late writes even
 after its handler has given up and returned. What holds in every run therefore comes from the
 driver's lock and checks. Assumptions: one controller process
 (deploy/kubernetes/controller.yaml:11), and a read that succeeds is truthful.
 */
module ControllerModel {
  import opened Options
  import opened GoStrings
  import opened ClientErrors
  import opened WireSizes

  // ---------------------------------------------------------------- the backend

  datatype Volume = Volume(name: string, size: nat)
  datatype Snapshot = Snapshot(name: string, source: string, size: nat)

  /**
   Volumes and snapshots by id; attachments are pairs of a volume id and a node id, and `paths` says
   under which device path the node sees the volume.
   */
  datatype Backend = Backend(volumes: map<string, Volume>,
                             attachments: set<(string, string)>,
                             snapshots: map<string, Snapshot>,
                             paths: map<(string, string), string> := map[])

  /** What a run may rely on. Every flag that is false makes the surroundings weaker. */
  datatype World = World(
    client: bool,             // the driver has credentials and talks to a backend
    lookups: bool,            // reading a volume by name never fails
    refusesDuplicates: bool,  // the backend rejects a CREATE whose name is taken
    sizedReads: bool,         // reading an existing volume by id succeeds and reports its size
    exactSizes: bool,         // no size in play exceeds 2^53
    sourceReads: bool,        // reading a snapshot by id finds it, or fails for want of it
    snapshotLookups: bool,    // reading a snapshot by name never fails
    snapshotLists: bool,      // listing the snapshots of a volume never fails ...
    pagesFit: bool,           // ... and no volume has more snapshots than fit one page
    honest: bool,             // a removal fails with a "not found" text only when nothing is left
    lateWrites: bool)         // a write that has failed may still take effect at any time later

  const PAGE := 100

  ghost function SnapshotsOf(b: Backend, source: string): set<string> {
    set id | id in b.snapshots && b.snapshots[id].source == source
  }

  ghost predicate PagesFit(b: Backend) {
    forall source {:trigger SnapshotsOf(b, source)} :: |SnapshotsOf(b, source)| <= PAGE
  }

  predicate SizesExact(b: Backend) {
    forall id | id in b.volumes :: b.volumes[id].size <= TWO53
  }

  predicate RequiresExact(req: Request) {
    req.ExpandVolume? && req.range.Some? ==> req.range.value.required <= TWO53
  }

  // ---------------------------------------------------------------- requests and results

  datatype Capability = Block | Mount | Unset

  datatype CapacityRange = CapacityRange(required: int, limit: int)

  datatype Request =
    | CreateVolume(name: string, caps: seq<Capability>, range: Option<CapacityRange>, content: Option<string>)
    | DeleteVolume(volumeId: string)
    | PublishVolume(volumeId: string, nodeId: string, capability: bool)
    | UnpublishVolume(volumeId: string, nodeId: string)
    | ExpandVolume(volumeId: string, range: Option<CapacityRange>)
    | CreateSnapshot(name: string, volumeId: string)
    | DeleteSnapshot(snapshotId: string)

  datatype Code = InvalidArgument | Aborted | OutOfRange | NotFound | AlreadyExists | FailedPrecondition | Internal

  datatype Result =
    | Error(code: Code)
    | Done
    | VolumeCreated(id: string, bytes: int)
    | Published(devicePath: string)
    | Expanded(bytes: int)
    | SnapshotCreated(id: string, source: string, bytes: int)

  /** The key of the lock a handler takes. */
  function Key(req: Request): string {
    match req
    case CreateVolume(name, _, _, _) => name
    case CreateSnapshot(name, _) => name
    case DeleteSnapshot(id) => id
    case DeleteVolume(id) => id
    case PublishVolume(id, _, _) => id
    case UnpublishVolume(id, _) => id
    case ExpandVolume(id, _) => id
  }

  // ---------------------------------------------------------------- the handlers' decisions

  const GIB := 0x4000_0000
  const MIN_VOLUME_SIZE := GIB
  const DEFAULT_VOLUME_SIZE := 10 * GIB
  const MAX_VOLUME_SIZE := 16 * 1024 * GIB

  /** The arguments a handler rejects before it takes the lock. */
  predicate Malformed(req: Request) {
    match req
    case CreateVolume(name, caps, _, _) => name == "" || caps == []
    case DeleteVolume(id) => id == ""
    case PublishVolume(id, node, capability) => id == "" || node == "" || !capability
    case UnpublishVolume(id, _) => id == ""
    case ExpandVolume(id, range) => id == "" || range.None? || range.value.required <= 0
    case CreateSnapshot(name, id) => name == "" || id == ""
    case DeleteSnapshot(id) => id == ""
  }

  /** The size CreateVolume settles on; None when it is out of range. */
  function ChosenSize(range: Option<CapacityRange>): Option<nat> {
    var size := if range.Some? && range.value.required > 0 then range.value.required else DEFAULT_VOLUME_SIZE;
    if range.Some? && range.value.limit > 0 && size > range.value.limit then None
    else if size < MIN_VOLUME_SIZE then Some(MIN_VOLUME_SIZE)
    else if size > MAX_VOLUME_SIZE then None
    else Some(size)
  }

  /** Where a handler stands. It holds its lock in every state but Arrived and Returned. */
  datatype Pc =
    | Arrived
    | VerifySource                  // CreateVolume: read the snapshot to restore from
    | Lookup                        // the first read
    | ListSnapshots                 // CreateSnapshot: the fallback listing
    | ReadSource                    // CreateSnapshot: read the source volume
    | Write(sourceSize: int)        // the one write; CreateSnapshot remembers its source's size
    | Leaving(result: Result)
    | Returned(result: Result)

  /** What happens between taking the lock and the first request to the backend. */
  function AfterLock(w: World, req: Request): Pc
    requires !Malformed(req)
  {
    match req
    case CreateVolume(name, caps, range, content) =>
      var size := ChosenSize(range);
      if exists c | c in caps :: c != Mount then Leaving(Error(InvalidArgument))
      else if size.None? then Leaving(Error(OutOfRange))
      else if !w.client then Leaving(VolumeCreated("vol-" + name, size.value))
      else if content.Some? then VerifySource
      else Lookup
    case PublishVolume(_, _, _) => if w.client then Lookup else Leaving(Published("/dev/vdb"))
    case ExpandVolume(_, range) => if w.client then Lookup else Leaving(Expanded(range.value.required))
    case CreateSnapshot(name, id) =>
      if w.client then Lookup else Leaving(SnapshotCreated("snap-" + name, id, DEFAULT_VOLUME_SIZE))
    case _ => if w.client then Write(0) else Leaving(Done)
  }

  datatype SnapshotEntry = SnapshotEntry(id: string, name: string, source: string, size: int)

  /** A reply as the client layer hands it to a handler. */
  datatype Reply =
    | Failure(text: string)
    | Nothing                                                         // no error, but nothing found
    | VolumeInfo(id: string, size: int, nodeId: string, devicePath: string)
    | SnapshotInfo(entry: SnapshotEntry)
    | SnapshotPage(entries: seq<SnapshotEntry>)
    | Accepted(value: string, reported: int)                          // a write's id, path or size

  /** The kinds of reply that can answer a handler's pending request. */
  predicate Answers(req: Request, pc: Pc, r: Reply) {
    match pc
    case VerifySource => req.CreateVolume? && (r.Failure? || r.Nothing? || r.SnapshotInfo?)
    case Lookup =>
      (match req
       case CreateVolume(_, _, _, _) => r.Failure? || r.Nothing? || r.VolumeInfo?
       case PublishVolume(_, _, _) => r.Failure? || r.VolumeInfo?
       case ExpandVolume(_, _) => r.Failure? || r.VolumeInfo?
       case CreateSnapshot(_, _) => r.Failure? || r.Nothing? || r.SnapshotInfo?
       case _ => false)
    case ListSnapshots => req.CreateSnapshot? && (r.Failure? || r.SnapshotPage?)
    case ReadSource => req.CreateSnapshot? && (r.Failure? || r.VolumeInfo?)
    case Write(_) => r.Failure? || (if req.CreateSnapshot? then r.SnapshotInfo? else r.Accepted?)
    case _ => false
  }

  function SnapshotResult(e: SnapshotEntry): Result {
    SnapshotCreated(e.id, e.source, e.size)
  }

  function FirstNamed(entries: seq<SnapshotEntry>, name: string): Option<SnapshotEntry> {
    if entries == [] then None
    else if entries[0].name == name then Some(entries[0])
    else FirstNamed(entries[1..], name)
  }

  function ReadFailure(text: string): Pc {
    Leaving(Error(if NotFoundText(text) then NotFound else Internal))
  }

  /** A DELETE or DETACH that fails with a text that looks like "not found" counts as done. */
  function RemovalResult(r: Reply): Result {
    if r.Failure? && !NotFoundText(r.text) then Error(Internal) else Done
  }

  /** How a handler continues after a reply. */
  function AfterReply(req: Request, pc: Pc, r: Reply): Pc
    requires !Malformed(req) && Answers(req, pc, r)
    requires req.CreateVolume? ==> ChosenSize(req.range).Some?
  {
    match pc
    case VerifySource => if r.Failure? then ReadFailure(r.text) else Lookup
    case Lookup =>
      (match req
       case CreateVolume(_, _, range, _) =>
         var size := ChosenSize(range).value;
         if !r.VolumeInfo? then Write(0)
         else if r.size > 0 && r.size != size then Leaving(Error(AlreadyExists))
         else Leaving(VolumeCreated(r.id, if r.size == 0 then size else r.size))
       case PublishVolume(_, node, _) =>
         if r.Failure? then ReadFailure(r.text)
         else if r.nodeId == node then Leaving(Published(r.devicePath))
         else if r.nodeId != "" then Leaving(Error(FailedPrecondition))
         else Write(0)
       case ExpandVolume(_, range) =>
         if r.Failure? then (if NotFoundText(r.text) then Leaving(Error(NotFound)) else Write(0))
         else if r.size > 0 && r.size >= range.value.required then Leaving(Expanded(r.size))
         else Write(0)
       case CreateSnapshot(_, id) =>
         if !r.SnapshotInfo? then ListSnapshots
         else if r.entry.source != id then Leaving(Error(AlreadyExists))
         else Leaving(SnapshotResult(r.entry))
       case _ => assert false; pc)
    case ListSnapshots =>
      var hit := if r.SnapshotPage? then FirstNamed(r.entries, req.name) else None;
      if hit.Some? then Leaving(SnapshotResult(hit.value)) else ReadSource
    case ReadSource => if r.Failure? then ReadFailure(r.text) else Write(r.size)
    case Write(sourceSize) =>
      Leaving(match req
              case CreateVolume(_, _, range, _) =>
                if r.Accepted? then VolumeCreated(r.value, ChosenSize(range).value)
                else Error(if AlreadyExistsText(r.text) then AlreadyExists else Internal)
              case PublishVolume(_, _, _) => if r.Accepted? then Published(r.value) else Error(Internal)
              case ExpandVolume(_, range) =>
                if r.Accepted? then Expanded(if r.reported == 0 then range.value.required else r.reported)
                else Error(if Occurs("CannotExpandUnattachedVolume", r.text) then FailedPrecondition else Internal)
              case CreateSnapshot(_, _) =>
                if r.SnapshotInfo? then
                  SnapshotResult(if r.entry.size == 0 then r.entry.(size := sourceSize) else r.entry)
                else if AlreadyExistsText(r.text) then Error(AlreadyExists)
                else if Occurs("VolumeInUse", r.text) || Occurs("VolumeNotReady", r.text) then Error(FailedPrecondition)
                else Error(Internal)
              case _ => RemovalResult(r))
    case _ => assert false; pc
  }

  // ---------------------------------------------------------------- the backend's replies

  /** A reported size: the true one as it comes through a JSON number, or 0 when it is left out. */
  predicate ReportsSize(w: World, size: nat, reported: int) {
    reported == Float64(size) || (reported == 0 && !w.sizedReads)
  }

  ghost predicate Attached(b: Backend, id: string) {
    exists n :: n != "" && (id, n) in b.attachments
  }

  function PathOf(b: Backend, id: string, node: string): string {
    if (id, node) in b.paths then b.paths[(id, node)] else ""
  }

  /** A truthful description of the volume with that id, and of one node it is attached to. */
  ghost predicate Describes(w: World, b: Backend, id: string, r: Reply) {
    && r.VolumeInfo? && r.id == id && id in b.volumes
    && ReportsSize(w, b.volumes[id].size, r.size)
    && (if r.nodeId == "" then !Attached(b, id)
        else (id, r.nodeId) in b.attachments && r.devicePath == PathOf(b, id, r.nodeId))
  }

  /** A truthful description of a snapshot; its size may be left out. */
  predicate DescribesSnapshot(b: Backend, e: SnapshotEntry) {
    && e.id in b.snapshots
    && e.name == b.snapshots[e.id].name && e.source == b.snapshots[e.id].source
    && (e.size == Float64(b.snapshots[e.id].size) || e.size == 0)
  }

  /** What is said about the snapshot with that id; nothing may be said without an error, too. */
  predicate ReadsContent(w: World, b: Backend, id: string, r: Reply) {
    && (r.SnapshotInfo? ==> r.entry.id == id && DescribesSnapshot(b, r.entry))
    && (w.sourceReads ==> if id in b.snapshots then r.SnapshotInfo? else r.Failure? && NotFoundText(r.text))
  }

  ghost predicate ReadsVolume(w: World, b: Backend, id: string, r: Reply) {
    if r.Failure? then w.sizedReads ==> id !in b.volumes && NotFoundText(r.text)
    else Describes(w, b, id, r)
  }

  predicate NameTaken(b: Backend, name: string) {
    exists id | id in b.volumes :: b.volumes[id].name == name
  }

  predicate SnapshotNameTaken(b: Backend, name: string) {
    exists id | id in b.snapshots :: b.snapshots[id].name == name
  }

  /** The page holds distinct snapshots of the source, and all of them when they fit. */
  ghost predicate Lists(b: Backend, source: string, entries: seq<SnapshotEntry>) {
    && (forall i | 0 <= i < |entries| :: DescribesSnapshot(b, entries[i]) && entries[i].source == source)
    && (forall i, j | 0 <= i < j < |entries| :: entries[i].id != entries[j].id)
    && (|SnapshotsOf(b, source)| > PAGE ==> |entries| == PAGE)
    && (|SnapshotsOf(b, source)| <= PAGE ==>
          forall id | id in SnapshotsOf(b, source) :: exists i | 0 <= i < |entries| :: entries[i].id == id)
  }

  /** The truthful replies to a read. */
  ghost predicate Reads(w: World, b: Backend, req: Request, pc: Pc, r: Reply) {
    match pc
    case VerifySource => req.CreateVolume? && req.content.Some? && ReadsContent(w, b, req.content.value, r)
    case Lookup =>
      (match req
       case CreateVolume(name, _, _, _) =>
         if r.VolumeInfo? then Describes(w, b, r.id, r) && b.volumes[r.id].name == name
         else w.lookups ==> !NameTaken(b, name)
       case CreateSnapshot(name, _) =>
         if r.SnapshotInfo? then DescribesSnapshot(b, r.entry) && r.entry.name == name
         else w.snapshotLookups ==> !SnapshotNameTaken(b, name)
       case PublishVolume(id, _, _) => ReadsVolume(w, b, id, r)
       case ExpandVolume(id, _) => ReadsVolume(w, b, id, r)
       case _ => false)
    case ListSnapshots =>
      if r.SnapshotPage? then req.CreateSnapshot? && Lists(b, req.volumeId, r.entries) else !w.snapshotLists
    case ReadSource => req.CreateSnapshot? && ReadsVolume(w, b, req.volumeId, r)
    case _ => true
  }

  // ---------------------------------------------------------------- the backend's writes

  ghost predicate AddsVolume(b: Backend, b': Backend, id: string, v: Volume) {
    id != "" && id !in b.volumes && b' == b.(volumes := b.volumes[id := v])
  }

  ghost predicate AddsSnapshot(b: Backend, b': Backend, id: string, s: Snapshot) {
    id != "" && id !in b.snapshots && b' == b.(snapshots := b.snapshots[id := s])
  }

  /** The node sees the volume, under some path. */
  predicate Attaches(b: Backend, b': Backend, id: string, node: string) {
    && (id, node) in b'.paths
    && b' == b.(attachments := b.attachments + {(id, node)}, paths := b.paths[(id, node) := b'.paths[(id, node)]])
  }

  /** Attachments may go, but only those of this volume. */
  predicate Detaches(b: Backend, b': Backend, id: string) {
    && b'.volumes == b.volumes && b'.snapshots == b.snapshots && b'.paths == b.paths
    && b'.attachments <= b.attachments
    && forall p | p in b.attachments && p.0 != id :: p in b'.attachments
  }

  /** The volume is granted some size of at least what was asked. */
  predicate Grows(b: Backend, b': Backend, id: string, required: int) {
    && id in b.volumes && id in b'.volumes
    && b'.volumes[id].size >= required
    && b' == b.(volumes := b.volumes[id := b.volumes[id].(size := b'.volumes[id].size)])
  }

  /** A write takes effect: whether its reply arrives is another matter. */
  ghost predicate Commits(w: World, b: Backend, b': Backend, req: Request) {
    match req
    case CreateVolume(name, _, range, _) =>
      && ChosenSize(range).Some?
      && (w.refusesDuplicates ==> !NameTaken(b, name))
      && exists id :: AddsVolume(b, b', id, Volume(name, ChosenSize(range).value))
    case DeleteVolume(id) => Detaches(b.(volumes := b.volumes - {id}), b', id)
    case PublishVolume(id, node, _) => Attaches(b, b', id, node)
    case UnpublishVolume(id, _) => Detaches(b, b', id)
    case ExpandVolume(id, range) => range.Some? && Grows(b, b', id, range.value.required)
    case CreateSnapshot(name, source) =>
      && (w.refusesDuplicates ==> !SnapshotNameTaken(b, name))
      && exists id, size :: AddsSnapshot(b, b', id, Snapshot(name, source, size))
    case DeleteSnapshot(id) => b' == b.(snapshots := b.snapshots - {id})
  }

  /** Requests that the backend may also accept without doing anything. */
  predicate Removes(req: Request) {
    req.DeleteVolume? || req.UnpublishVolume? || req.DeleteSnapshot?
  }

  /** Nothing is left of what a removal is to remove; detaching from no node in particular means from all. */
  ghost predicate Gone(b: Backend, req: Request) {
    match req
    case DeleteVolume(id) => id !in b.volumes
    case UnpublishVolume(id, node) => if node == "" then !Attached(b, id) else (id, node) !in b.attachments
    case DeleteSnapshot(id) => id !in b.snapshots
    case _ => false
  }

  /** A failed removal that counts as done because of its text has indeed nothing left to remove. */
  ghost predicate Honest(b: Backend, req: Request, r: Reply) {
    Removes(req) && r.Failure? && NotFoundText(r.text) ==> Gone(b, req)
  }

  /** What a successful reply to a write says about the state it left behind. */
  ghost predicate Confirms(w: World, b: Backend, b': Backend, req: Request, r: Reply)
    requires if req.CreateSnapshot? then r.SnapshotInfo? else r.Accepted?
  {
    match req
    case CreateVolume(_, _, _, _) => r.value !in b.volumes && r.value in b'.volumes
    case PublishVolume(id, node, _) => r.value != "" && r.value == PathOf(b', id, node)
    case ExpandVolume(id, _) =>
      id in b'.volumes && (r.reported == 0 || r.reported == Float64(b'.volumes[id].size))
    case CreateSnapshot(_, _) => r.entry.id !in b.snapshots && DescribesSnapshot(b', r.entry)
    case _ => Gone(b', req)
  }

  ghost predicate Writes(w: World, b: Backend, b': Backend, req: Request, r: Reply)
    requires r.Failure? || (if req.CreateSnapshot? then r.SnapshotInfo? else r.Accepted?)
  {
    if r.Failure? then b' == b || Commits(w, b, b', req)
    else (Commits(w, b, b', req) || (b' == b && Removes(req))) && Confirms(w, b, b', req, r)
  }

  // ---------------------------------------------------------------- states and steps

  datatype Call = Call(req: Request, pc: Pc)

  predicate Holds(k: Call) {
    !k.pc.Arrived? && !k.pc.Returned?
  }

  /** `underway` are the writes that have failed, as seen from here, and may still take effect. */
  datatype State = State(locks: set<string>, backend: Backend, calls: map<nat, Call>, underway: seq<Request>)

  datatype Event = Arrive(req: Request) | Enter | Exchange(reply: Reply) | Return | Land(index: nat)

  /** A handler that stands at its last step or has not entered is not talking to the backend. */
  predicate Talking(k: Call) {
    && Holds(k) && !k.pc.Leaving? && !Malformed(k.req)
    && (k.req.CreateVolume? ==> ChosenSize(k.req.range).Some?)
  }

  predicate Arrives(s: State, s': State, c: nat, req: Request) {
    c !in s.calls && s' == s.(calls := s.calls[c := Call(req, Arrived)])
  }

  /** Malformed requests and taken locks turn a call away; otherwise it takes its lock. */
  predicate Enters(w: World, s: State, s': State, c: nat) {
    && c in s.calls && s.calls[c].pc.Arrived?
    && var req := s.calls[c].req;
    && if Malformed(req) then
         s' == s.(calls := s.calls[c := Call(req, Returned(Error(InvalidArgument)))])
       else if Key(req) in s.locks then
         s' == s.(calls := s.calls[c := Call(req, Returned(Error(Aborted)))])
       else
         s' == s.(locks := s.locks + {Key(req)}, calls := s.calls[c := Call(req, AfterLock(w, req))])
  }

  /** A write and its reply; when the reply is lost, the write may also be left under way. */
  ghost predicate Submits(w: World, b: Backend, late: seq<Request>, b': Backend, late': seq<Request>, req: Request, r: Reply)
    requires r.Failure? || (if req.CreateSnapshot? then r.SnapshotInfo? else r.Accepted?)
  {
    && (w.honest ==> Honest(b', req, r))
    && (|| (Writes(w, b, b', req, r) && late' == late)
        || (w.lateWrites && r.Failure? && b' == b && late' == late + [req]))
  }

  ghost predicate Exchanges(w: World, s: State, s': State, c: nat, r: Reply) {
    && c in s.calls && Talking(s.calls[c])
    && var k := s.calls[c];
    && Answers(k.req, k.pc, r)
    && (if k.pc.Write? then Submits(w, s.backend, s.underway, s'.backend, s'.underway, k.req, r)
        else s'.backend == s.backend && s'.underway == s.underway && Reads(w, s.backend, k.req, k.pc, r))
    && s' == State(s.locks, s'.backend, s.calls[c := k.(pc := AfterReply(k.req, k.pc, r))], s'.underway)
  }

  /** A write under way comes to its end: it takes effect, or it never will. */
  ghost predicate Lands(w: World, s: State, s': State, i: nat) {
    && i < |s.underway|
    && s' == s.(backend := s'.backend, underway := s.underway[..i] + s.underway[i + 1..])
    && (s'.backend == s.backend || Commits(w, s.backend, s'.backend, s.underway[i]))
  }

  predicate Returns(s: State, s': State, c: nat) {
    && c in s.calls && s.calls[c].pc.Leaving?
    && s' == s.(locks := s.locks - {Key(s.calls[c].req)},
                calls := s.calls[c := s.calls[c].(pc := Returned(s.calls[c].pc.result))])
  }

  ghost predicate StepBy(w: World, s: State, s': State, c: nat, e: Event) {
    match e
    case Arrive(req) => Arrives(s, s', c, req)
    case Enter => Enters(w, s, s', c)
    case Exchange(r) => Exchanges(w, s, s', c, r)
    case Return => Returns(s, s', c)
    case Land(i) => Lands(w, s, s', i)
  }

  /** The bounds a world promises for its backend. */
  ghost predicate InBounds(w: World, b: Backend) {
    (w.exactSizes ==> SizesExact(b)) && (w.pagesFit ==> PagesFit(b))
  }

  /** The bounds a world promises for the states of its runs. */
  ghost predicate Within(w: World, s: State) {
    && InBounds(w, s.backend)
    && (w.exactSizes ==> forall c | c in s.calls :: RequiresExact(s.calls[c].req))
  }

  ghost predicate Next(w: World, s: State, s': State) {
    Within(w, s') && exists c, e :: StepBy(w, s, s', c, e)
  }

  ghost predicate UniqueNames(b: Backend) {
    forall id, id' | id in b.volumes && id' in b.volumes && b.volumes[id].name == b.volumes[id'].name :: id == id'
  }

  ghost predicate UniqueSnapshotNames(b: Backend) {
    forall id, id' | id in b.snapshots && id' in b.snapshots && b.snapshots[id].name == b.snapshots[id'].name :: id == id'
  }

  ghost predicate UniquePerSource(b: Backend) {
    forall id, id' | id in b.snapshots && id' in b.snapshots
      && b.snapshots[id].name == b.snapshots[id'].name && b.snapshots[id].source == b.snapshots[id'].source :: id == id'
  }

  /** Every attachment names a node, and no volume has two. */
  ghost predicate AttachedOnce(b: Backend) {
    && (forall p | p in b.attachments :: p.1 != "")
    && forall p, q | p in b.attachments && q in b.attachments && p.0 == q.0 :: p == q
  }

  /** A run starts with no calls and no locks, over any backend. */
  ghost predicate Init(w: World, s: State) {
    s.locks == {} && s.calls == map[] && s.underway == [] && Within(w, s)
  }

  ghost predicate StepAt(w: World, run: seq<State>, i: nat)
    requires 0 < i < |run|
  {
    Next(w, run[i - 1], run[i])
  }

  ghost predicate IsRun(w: World, run: seq<State>) {
    && run != [] && Init(w, run[0])
    && forall i | 0 < i < |run| :: StepAt(w, run, i)
  }

  /** Call c comes to its result at step i of the run. */
  ghost predicate ComesTo(w: World, run: seq<State>, i: nat, c: nat, k: Call) {
    && IsRun(w, run) && 0 < i < |run| && k.pc.Leaving?
    && c in run[i].calls && run[i].calls[c] == k
    && !(c in run[i - 1].calls && run[i - 1].calls[c] == k)
  }

  /** The volume is in the backend in every state from i to j. */
  ghost predicate Throughout(run: seq<State>, i: nat, j: nat, id: string)
    requires j < |run|
  {
    forall k | i <= k <= j :: id in run[k].backend.volumes
  }

  /** The snapshot is in the backend in every state from i to j. */
  ghost predicate SnapshotThroughout(run: seq<State>, i: nat, j: nat, id: string)
    requires j < |run|
  {
    forall k | i <= k <= j :: id in run[k].backend.snapshots
  }

  lemma Extend(w: World, run: seq<State>, s': State, c: nat, e: Event)
    requires IsRun(w, run) && Within(w, s') && StepBy(w, run[|run| - 1], s', c, e)
    ensures IsRun(w, run + [s'])
  {
    var longer := run + [s'];
    forall i | 0 < i < |longer| ensures StepAt(w, longer, i) {
      if i < |run| {
        assert StepAt(w, run, i);
      }
    }
  }

  /** The present state of a run is within the bounds of its world. */
  lemma PresentIsWithin(w: World, run: seq<State>)
    requires IsRun(w, run)
    ensures Within(w, run[|run| - 1])
  {
    var last := |run| - 1;
    assert last > 0 ==> StepAt(w, run, last);
  }

  /** A backend with few snapshots fits every page. */
  lemma FewSnapshotsFit(b: Backend, ids: set<string>)
    requires b.snapshots.Keys <= ids && |ids| <= PAGE
    ensures PagesFit(b)
  {
    forall source ensures |SnapshotsOf(b, source)| <= PAGE {
      SubsetIsSmaller(SnapshotsOf(b, source), ids);
    }
  }

  lemma SubsetIsSmaller(a: set<string>, b: set<string>)
    requires a <= b
    ensures |a| <= |b|
  {
    assert a + (b - a) == b;
  }
}

/**
 The client layer (pkg/vcloud/client/client.go): decoding the fields of a JSON reply, and the
 results the handlers get. It connects what a backend puts on the wire with the replies that the
 controller model calls truthful.
 */
module VcloudClient {
  import opened Options
  import opened GoStrings
  import opened ClientErrors
  import opened WireSizes
  import opened ControllerModel

  /** The JSON values that can stand in a reply's fields. */
  datatype Json = Str(s: string) | Num(n: int) | Bool(b: bool) | Null | Arr(items: seq<Json>) | Obj(fields: Fields)

  type Fields = map<string, Json>

  /** What an HTTP exchange ends with: a status and body, or no reply at all. */
  datatype Http = Response(status: nat, body: string, fields: Fields) | Broken(text: string)

  /** doRequest: only 200 is accepted. */
  datatype Answer = Answer(fields: Fields) | Failed(text: string)

  predicate HttpOk(h: Http) {
    h.Response? ==> 100 <= h.status < 1000
  }

  function DoRequest(h: Http): Answer
    requires HttpOk(h)
  {
    match h
    case Broken(text) => Failed(Wrapped("request failed", text))
    case Response(status, body, fields) =>
      if status != 200 then Failed(StatusError(status, body)) else Answer(fields)
  }

  // ---------------------------------------------------------------- decoding

  datatype VolumeFields = VolumeFields(id: string, name: string, sizeBytes: int, volumeType: string,
                                       devicePath: string, nodeId: string, snapshotId: string)

  datatype SnapshotFields = SnapshotFields(id: string, name: string, sourceVolumeId: string, sizeBytes: int,
                                           createdAt: int, readyToUse: bool)

  /** What the handlers' decisions depend on. */
  function EntryFrom(f: SnapshotFields): SnapshotEntry {
    SnapshotEntry(f.id, f.name, f.sourceVolumeId, f.sizeBytes)
  }

  function StrField(f: Fields, key: string): string {
    if key in f && f[key].Str? then f[key].s else ""
  }

  /** A number goes through a float64. */
  function NumField(f: Fields, key: string): int {
    if key in f && f[key].Num? then Float64(f[key].n) else 0
  }

  function BoolField(f: Fields, key: string): bool {
    key in f && f[key].Bool? && f[key].b
  }

  /** parseVolumeResponse: fields of another type, like missing ones, keep their zero values. */
  method ParseVolumeResponse(resp: Fields) returns (vol: VolumeFields)
    ensures vol == VolumeOf(resp)
  {
    vol := VolumeFields("", "", 0, "", "", "", "");
    if "id" in resp && resp["id"].Str? {
      vol := vol.(id := resp["id"].s);
    }
    if "name" in resp && resp["name"].Str? {
      vol := vol.(name := resp["name"].s);
    }
    if "capacity" in resp && resp["capacity"].Num? {
      vol := vol.(sizeBytes := Float64(resp["capacity"].n));
    }
    if "volumeType" in resp && resp["volumeType"].Str? {
      vol := vol.(volumeType := resp["volumeType"].s);
    }
    if "devicePath" in resp && resp["devicePath"].Str? {
      vol := vol.(devicePath := resp["devicePath"].s);
    }
    if "nodeId" in resp && resp["nodeId"].Str? {
      vol := vol.(nodeId := resp["nodeId"].s);
    }
    if "snapshotId" in resp && resp["snapshotId"].Str? {
      vol := vol.(snapshotId := resp["snapshotId"].s);
    }
  }

  function VolumeOf(f: Fields): VolumeFields {
    VolumeFields(StrField(f, "id"), StrField(f, "name"), NumField(f, "capacity"), StrField(f, "volumeType"),
                 StrField(f, "devicePath"), StrField(f, "nodeId"), StrField(f, "snapshotId"))
  }

  /** parseSnapshotResponse: without an id there is no snapshot, and no error either. */
  method ParseSnapshotResponse(resp: Fields) returns (found: Option<SnapshotFields>)
    ensures found == SnapshotOf(resp)
  {
    var snap := SnapshotFields("", "", "", 0, 0, false);
    if "id" in resp && resp["id"].Str? {
      snap := snap.(id := resp["id"].s);
    }
    if "name" in resp && resp["name"].Str? {
      snap := snap.(name := resp["name"].s);
    }
    if "sourceVolumeId" in resp && resp["sourceVolumeId"].Str? {
      snap := snap.(sourceVolumeId := resp["sourceVolumeId"].s);
    }
    if "sizeBytes" in resp && resp["sizeBytes"].Num? {
      snap := snap.(sizeBytes := Float64(resp["sizeBytes"].n));
    }
    if "createdAt" in resp && resp["createdAt"].Num? {
      snap := snap.(createdAt := Float64(resp["createdAt"].n));
    }
    if "readyToUse" in resp && resp["readyToUse"].Bool? {
      snap := snap.(readyToUse := resp["readyToUse"].b);
    }
    if snap.id == "" {
      return None;
    }
    return Some(snap);
  }

  function SnapshotOf(f: Fields): Option<SnapshotFields> {
    if StrField(f, "id") == "" then None
    else Some(SnapshotFields(StrField(f, "id"), StrField(f, "name"), StrField(f, "sourceVolumeId"),
                             NumField(f, "sizeBytes"), NumField(f, "createdAt"), BoolField(f, "readyToUse")))
  }

  /** The parsed entries of a list; None stands for the nil that an object without an id becomes. */
  function EntriesOf(items: seq<Json>): seq<Option<SnapshotFields>> {
    if items == [] then []
    else if items[0].Obj? then [SnapshotOf(items[0].fields)] + EntriesOf(items[1..])
    else EntriesOf(items[1..])
  }

  /** The loop of ListSnapshots: anything but an object is skipped. */
  method ParseSnapshotList(resp: Fields) returns (snapshots: seq<Option<SnapshotFields>>)
    ensures snapshots == ListOf(resp)
  {
    snapshots := [];
    if "snapshots" in resp && resp["snapshots"].Arr? {
      var data := resp["snapshots"].items;
      var i := 0;
      while i < |data|
        invariant 0 <= i <= |data|
        invariant snapshots + EntriesOf(data[i..]) == EntriesOf(data)
      {
        assert data[i..][1..] == data[i + 1..];
        if data[i].Obj? {
          var snap := ParseSnapshotResponse(data[i].fields);
          snapshots := snapshots + [snap];
        }
        i := i + 1;
      }
    }
  }

  function ListOf(f: Fields): seq<Option<SnapshotFields>> {
    if "snapshots" in f && f["snapshots"].Arr? then EntriesOf(f["snapshots"].items) else []
  }

  /** Every entry is there: the handler's loop over the page meets no nil. */
  ghost predicate NoNil(list: seq<Option<SnapshotFields>>) {
    forall i | 0 <= i < |list| :: list[i].Some?
  }

  /** A page without a nil is exactly one whose objects all carry an id. */
  lemma {:induction false} NoNilIff(items: seq<Json>)
    ensures NoNil(EntriesOf(items))
        <==> forall i | 0 <= i < |items| && items[i].Obj? :: StrField(items[i].fields, "id") != ""
  {
    if items != [] {
      var head, tail := items[0], EntriesOf(items[1..]);
      NoNilIff(items[1..]);
      forall i | 0 < i < |items| ensures items[i] == items[1..][i - 1] {
      }
      if head.Obj? {
        var list := [SnapshotOf(head.fields)] + tail;
        assert forall i | 0 <= i < |tail| :: list[i + 1] == tail[i];
        assert NoNil(list) <==> list[0].Some? && NoNil(tail);
      }
    }
  }

  /** What a backend writes about a volume; what it does not know it may leave out. */
  function EncodeVolume(v: VolumeFields): Fields {
    map["id" := Str(v.id), "name" := Str(v.name), "capacity" := Num(v.sizeBytes),
        "volumeType" := Str(v.volumeType), "devicePath" := Str(v.devicePath), "nodeId" := Str(v.nodeId),
        "snapshotId" := Str(v.snapshotId)]
  }

  function EncodeSnapshot(s: SnapshotFields): Fields {
    map["id" := Str(s.id), "name" := Str(s.name), "sourceVolumeId" := Str(s.sourceVolumeId),
        "sizeBytes" := Num(s.sizeBytes), "createdAt" := Num(s.createdAt), "readyToUse" := Bool(s.readyToUse)]
  }

  /** Decoding what was encoded gives it back exactly when a float64 holds the size. */
  lemma VolumeRoundTrip(v: VolumeFields)
    ensures VolumeOf(EncodeVolume(v)) == v.(sizeBytes := Float64(v.sizeBytes))
    ensures VolumeOf(EncodeVolume(v)) == v <==> Representable(v.sizeBytes)
  {
    ExactIffRepresentable(v.sizeBytes);
  }

  lemma SnapshotRoundTrip(s: SnapshotFields)
    requires s.id != ""
    ensures SnapshotOf(EncodeSnapshot(s)) == Some(s) <==> Representable(s.sizeBytes) && Representable(s.createdAt)
  {
    ExactIffRepresentable(s.sizeBytes);
    ExactIffRepresentable(s.createdAt);
  }

  // ---------------------------------------------------------------- the calls

  /** GetVolume, as the handlers see it. */
  function GetVolume(volumeID: string, h: Http): Reply
    requires HttpOk(h)
  {
    match DoRequest(h)
    case Failed(text) => Failure(Wrapped("failed to get volume", text))
    case Answer(fields) =>
      var vol := VolumeOf(fields);
      if vol.id == "" then Failure("volume " + volumeID + " not found")
      else VolumeInfo(vol.id, vol.sizeBytes, vol.nodeId, vol.devicePath)
  }

  /** GetVolumeByName: an empty reply means that there is no such volume. */
  function GetVolumeByName(h: Http): Reply
    requires HttpOk(h)
  {
    match DoRequest(h)
    case Failed(text) => Failure(text)
    case Answer(fields) =>
      var vol := VolumeOf(fields);
      if vol.id == "" then Nothing else VolumeInfo(vol.id, vol.sizeBytes, vol.nodeId, vol.devicePath)
  }

  /** The entries of a page without nils. */
  function Found(list: seq<Option<SnapshotFields>>): (entries: seq<SnapshotEntry>)
    requires NoNil(list)
    ensures |entries| == |list| && forall i | 0 <= i < |list| :: entries[i] == EntryFrom(list[i].value)
  {
    seq(|list|, i requires 0 <= i < |list| => EntryFrom(list[i].value))
  }

  /** ListSnapshots, for a page without nils; the handler does not look at the next token. */
  function ListSnapshots(h: Http): Reply
    requires HttpOk(h) && (DoRequest(h).Answer? ==> NoNil(ListOf(DoRequest(h).fields)))
  {
    match DoRequest(h)
    case Failed(text) => Failure(Wrapped("failed to list snapshots", text))
    case Answer(fields) => SnapshotPage(Found(ListOf(fields)))
  }

  /** GetSnapshotByName. */
  function GetSnapshotByName(h: Http): Reply
    requires HttpOk(h)
  {
    match DoRequest(h)
    case Failed(text) => Failure(text)
    case Answer(fields) => if SnapshotOf(fields).None? then Nothing else SnapshotInfo(EntryFrom(SnapshotOf(fields).value))
  }

  /** GetSnapshot: an empty reply is no error, and reads as nothing. */
  function GetSnapshot(h: Http): Reply
    requires HttpOk(h)
  {
    match DoRequest(h)
    case Failed(text) => Failure(Wrapped("failed to get snapshot", text))
    case Answer(fields) =>
      if SnapshotOf(fields).None? then Nothing else SnapshotInfo(EntryFrom(SnapshotOf(fields).value))
  }

  /** DeleteVolume, DetachVolume and DeleteSnapshot: only success or failure matters. */
  function Remove(what: string, h: Http): Reply
    requires HttpOk(h)
  {
    match DoRequest(h)
    case Failed(text) => Failure(Wrapped(what, text))
    case Answer(_) => Accepted("", 0)
  }

  /** ExpandVolume: a capacity the reply leaves out counts as the one asked for. */
  function ExpandVolume(newCapacityBytes: int, h: Http): Reply
    requires HttpOk(h)
  {
    match DoRequest(h)
    case Failed(text) => Failure(Wrapped("failed to expand volume", text))
    case Answer(fields) =>
      var size := NumField(fields, "capacity");
      Accepted("", if size == 0 then newCapacityBytes else size)
  }

  // ---------------------------------------------------------------- what reaches the handlers

  /** A body that encodes a volume of the backend and a node it is attached to. */
  ghost predicate Encodes(b: Backend, id: string, h: Http) {
    && h.Response? && h.status == 200 && id != "" && id in b.volumes
    && exists v :: EncodesAs(b, id, v, h.fields)
  }

  ghost predicate EncodesAs(b: Backend, id: string, v: VolumeFields, fields: Fields)
    requires id in b.volumes
  {
    && v.id == id && v.name == b.volumes[id].name && v.sizeBytes == b.volumes[id].size
    && (if v.nodeId == "" then !Attached(b, id)
        else (id, v.nodeId) in b.attachments && v.devicePath == PathOf(b, id, v.nodeId))
    && fields == EncodeVolume(v)
  }

  /** How a backend may say that there is nothing: a 404 with any body, or an object without an id. */
  predicate Denies(h: Http) {
    h.Response? && (h.status == 404 || (h.status == 200 && "id" !in h.fields))
  }

  /**
   The replies that the controller model lets a read by id return are what the client makes of
   truthful HTTP replies, in every world: an encoded volume, or a denial for an absent one.
   */
  lemma TruthfulReplies(w: World, b: Backend, id: string, h: Http)
    requires HttpOk(h)
    requires if id in b.volumes then Encodes(b, id, h) else Denies(h)
    ensures ReadsVolume(w, b, id, GetVolume(id, h))
  {
    if id in b.volumes {
      var v :| EncodesAs(b, id, v, h.fields);
    } else if h.status == 404 {
      StatusClassifiedIff(404, h.body);
      WrappingKeepsClass("failed to get volume", StatusError(404, h.body));
    } else {
      OccursInside("not found", "volume " + id + " ", "");
      assert "volume " + id + " not found" == "volume " + id + " " + "not found" + "";
    }
  }

  /** The same for a read by name: an encoded volume of that name, or a denial when there is none. */
  lemma TruthfulLookups(w: World, b: Backend, req: Request, h: Http, id: string)
    requires HttpOk(h) && req.CreateVolume?
    requires if NameTaken(b, req.name) then Encodes(b, id, h) && b.volumes[id].name == req.name else Denies(h)
    ensures Answers(req, Lookup, GetVolumeByName(h)) && Reads(w, b, req, Lookup, GetVolumeByName(h))
  {
    if NameTaken(b, req.name) {
      var v :| EncodesAs(b, id, v, h.fields);
    }
  }

  /** ... and for a snapshot by name. */
  lemma TruthfulSnapshotLookups(w: World, b: Backend, req: Request, h: Http, s: SnapshotFields)
    requires HttpOk(h) && req.CreateSnapshot? && h.Response?
    requires if SnapshotNameTaken(b, req.name)
             then h.status == 200 && Truly(b, s) && s.name == req.name && h.fields == EncodeSnapshot(s)
             else Denies(h)
    ensures Answers(req, Lookup, GetSnapshotByName(h)) && Reads(w, b, req, Lookup, GetSnapshotByName(h))
  {
    ExactUpTo2Pow53(0);
  }

  /** ... and for the snapshot to restore from: only a 404 says that it is not there. */
  lemma TruthfulContents(w: World, b: Backend, req: Request, h: Http, s: SnapshotFields)
    requires HttpOk(h) && req.CreateVolume? && req.content.Some? && h.Response?
    requires if req.content.value in b.snapshots
             then h.status == 200 && Truly(b, s) && s.id == req.content.value && h.fields == EncodeSnapshot(s)
             else h.status == 404
    ensures Answers(req, VerifySource, GetSnapshot(h)) && Reads(w, b, req, VerifySource, GetSnapshot(h))
  {
    ExactUpTo2Pow53(0);
    if req.content.value !in b.snapshots {
      StatusClassifiedIff(404, h.body);
      WrappingKeepsClass("failed to get snapshot", StatusError(404, h.body));
    }
  }

  /** The fields describe a snapshot of the backend. */
  predicate Truly(b: Backend, s: SnapshotFields) {
    && s.id != "" && s.id in b.snapshots
    && s.name == b.snapshots[s.id].name && s.sourceVolumeId == b.snapshots[s.id].source
    && (s.sizeBytes == b.snapshots[s.id].size || s.sizeBytes == 0)
  }

  function EncodeAll(page: seq<SnapshotFields>): seq<Json> {
    seq(|page|, i requires 0 <= i < |page| => Obj(EncodeSnapshot(page[i])))
  }

  /** What decoding makes of the fields. */
  function Received(s: SnapshotFields): SnapshotFields {
    s.(sizeBytes := Float64(s.sizeBytes), createdAt := Float64(s.createdAt))
  }

  lemma {:induction false} EntriesOfEncoded(page: seq<SnapshotFields>)
    requires forall i | 0 <= i < |page| :: page[i].id != ""
    ensures var list := EntriesOf(EncodeAll(page));
      && |list| == |page|
      && forall i | 0 <= i < |page| :: list[i] == Some(Received(page[i]))
  {
    if page != [] {
      EntriesOfEncoded(page[1..]);
      assert EncodeAll(page)[1..] == EncodeAll(page[1..]);
    }
  }

  /** A page: distinct snapshots of the source, all of them or as many as fit. */
  ghost predicate PageOf(b: Backend, source: string, page: seq<SnapshotFields>) {
    && (forall i | 0 <= i < |page| :: Truly(b, page[i]) && page[i].sourceVolumeId == source)
    && (forall i, j | 0 <= i < j < |page| :: page[i].id != page[j].id)
    && (|SnapshotsOf(b, source)| > PAGE ==> |page| == PAGE)
    && (|SnapshotsOf(b, source)| <= PAGE ==>
          forall id | id in SnapshotsOf(b, source) :: exists i | 0 <= i < |page| :: page[i].id == id)
  }

  /** ... and for a listing: the entries of an encoded page survive the append loop one by one. */
  lemma TruthfulListings(w: World, b: Backend, req: Request, h: Http, page: seq<SnapshotFields>)
    requires HttpOk(h) && req.CreateSnapshot? && h.Response? && h.status == 200 && PageOf(b, req.volumeId, page)
    requires "snapshots" in h.fields && h.fields["snapshots"] == Arr(EncodeAll(page))
    ensures NoNil(ListOf(h.fields))
    ensures Answers(req, Pc.ListSnapshots, ListSnapshots(h)) && Reads(w, b, req, Pc.ListSnapshots, ListSnapshots(h))
  {
    EntriesOfEncoded(page);
    ExactUpTo2Pow53(0);
    var entries := Found(ListOf(h.fields));
    forall i | 0 <= i < |page| ensures entries[i] == EntryFrom(Received(page[i])) {
    }
    forall id | id in SnapshotsOf(b, req.volumeId) && |SnapshotsOf(b, req.volumeId)| <= PAGE
      ensures exists i | 0 <= i < |entries| :: entries[i].id == id
    {
      var i :| 0 <= i < |page| && page[i].id == id;
      assert entries[i].id == id;
    }
  }

  /** The words the client puts in front of a failed removal. */
  predicate RemovalWords(what: string) {
    what in {"failed to delete volume", "failed to detach volume", "failed to delete snapshot"}
  }

  /** What a removal's HTTP reply says by its status or its body. */
  predicate SaysNotFound(h: Http) {
    if h.Response? then h.status == 404 || (h.status != 200 && NotFoundText(h.body)) else NotFoundText(h.text)
  }

  lemma RemovalWordsAreNeutral(what: string)
    requires RemovalWords(what)
    ensures !NotFoundText(what)
  {
    // none has a "4" or an "N"; two have no "n", and the third has no "u"
    if what == "failed to delete volume" {
      LacksAll(what, 0);
    } else if what == "failed to detach volume" {
      LacksAll(what, 0);
    } else {
      LacksAll(what, 6);
    }
  }

  lemma LacksAll(what: string, k: nat)
    requires '4' !in what && 'N' !in what && k < 9 && "not found"[k] !in what
    ensures !NotFoundText(what)
  {
    LacksCharacter("404", what, 0);
    LacksCharacter("Not Found", what, 0);
    LacksCharacter("not found", what, k);
  }

  /** A failed request reads like "not found" exactly when its status or body, or the transport, says so. */
  lemma FailureSaysNotFound(h: Http)
    requires HttpOk(h) && DoRequest(h).Failed?
    ensures NotFoundText(DoRequest(h).text) <==> SaysNotFound(h)
  {
    if h.Response? {
      StatusClassifiedIff(h.status, h.body);
    } else {
      LacksAll("request failed", 0);
      WrappingKeepsClass("request failed", h.text);
    }
  }

  /** A failed removal is classified by its status, its body and the words around them. */
  lemma RemovalClassifiedIff(what: string, h: Http)
    requires HttpOk(h)
    ensures var r := Remove(what, h);
      r.Failure? && NotFoundText(r.text) <==> DoRequest(h).Failed? && (SaysNotFound(h) || NotFoundText(what))
  {
    if DoRequest(h).Failed? {
      FailureSaysNotFound(h);
      WrappingKeepsClass(what, DoRequest(h).text);
    }
  }

  /**
   A DELETE or DETACH succeeds exactly when the backend answers with 200 or 404, or when the body of
   its answer, or without one the transport's error, reads like "not found" (the client's own words
   never do). Repeating it against an absent object that is answered with 404 does no harm.
   */
  lemma RemovalSucceedsIff(what: string, h: Http)
    requires HttpOk(h)
    ensures RemovalResult(Remove(what, h)) == Done
        <==> (h.Response? && h.status == 200) || SaysNotFound(h) || NotFoundText(what)
    ensures RemovalWords(what) ==> !NotFoundText(what)
  {
    RemovalClassifiedIff(what, h);
    if RemovalWords(what) {
      RemovalWordsAreNeutral(what);
    }
  }

  /**
   A read by id fails exactly when the request does or, for a volume, the reply carries no id; it
   reads like "not found" exactly when the status or the body says so, or there is no id.
   */
  lemma ReadsClassifiedIff(volumeID: string, h: Http)
    requires HttpOk(h)
    ensures var r, failed := GetVolume(volumeID, h), DoRequest(h).Failed?;
      && (r.Failure? <==> failed || StrField(DoRequest(h).fields, "id") == "")
      && (r.Failure? && NotFoundText(r.text) <==>
            if failed then SaysNotFound(h) else StrField(DoRequest(h).fields, "id") == "")
    ensures var r, failed := GetSnapshot(h), DoRequest(h).Failed?;
      && (r.Failure? <==> failed)
      && (r.Failure? && NotFoundText(r.text) <==> failed && SaysNotFound(h))
  {
    LacksAll("failed to get volume", 0);
    LacksAll("failed to get snapshot", 6);
    match DoRequest(h)
    case Failed(text) =>
      FailureSaysNotFound(h);
      WrappingKeepsClass("failed to get volume", text);
      WrappingKeepsClass("failed to get snapshot", text);
    case Answer(_) =>
      OccursInside("not found", "volume " + volumeID + " ", "");
      assert "volume " + volumeID + " not found" == "volume " + volumeID + " " + "not found" + "";
  }

  /** The promise of the controller model's honest worlds is one about HTTP replies. */
  lemma HonestReplies(b: Backend, req: Request, what: string, h: Http)
    requires HttpOk(h) && RemovalWords(what) && Removes(req)
    ensures Honest(b, req, Remove(what, h)) <==> (SaysNotFound(h) ==> Gone(b, req))
  {
    RemovalClassifiedIff(what, h);
    RemovalWordsAreNeutral(what);
  }

  /** The fallback of the client and that of the handler agree, so no success reports size 0. */
  lemma ExpandReportsSize(req: Request, pc: Pc, h: Http)
    requires HttpOk(h) && req.ExpandVolume? && !Malformed(req) && pc.Write?
    ensures var size := req.range.value.required;
      var next := AfterReply(req, pc, ExpandVolume(size, h));
      next.result.Expanded? <==> DoRequest(h).Answer?
    ensures var size := req.range.value.required;
      DoRequest(h).Answer? ==>
        AfterReply(req, pc, ExpandVolume(size, h))
          == Leaving(Expanded(if NumField(DoRequest(h).fields, "capacity") == 0 then size
                              else NumField(DoRequest(h).fields, "capacity")))
  {
  }
}

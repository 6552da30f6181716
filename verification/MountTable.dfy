/** Finding the device behind a mount point in the text of /proc/mounts (pkg/vcloud/nodeserver.go). */
module MountTable {
  import opened Options
  import opened GoStrings

  /** A line that names the mount point: at least two fields, the second one equal. */
  predicate Names(line: string, mountPoint: string) {
    var fields := Fields(line);
    |fields| >= 2 && fields[1] == mountPoint
  }

  /** getDeviceForMountPoint on the contents of the file. */
  method GetDeviceForMountPoint(data: string, mountPoint: string) returns (device: Option<string>)
    ensures device.None? ==> forall i | 0 <= i < |Split(data, '\n')| :: !Names(Split(data, '\n')[i], mountPoint)
    ensures device.Some? ==>
      exists i | 0 <= i < |Split(data, '\n')| ::
        && Names(Split(data, '\n')[i], mountPoint)
        && Fields(Split(data, '\n')[i])[0] == device.value
        && forall j | 0 <= j < i :: !Names(Split(data, '\n')[j], mountPoint)
    ensures device == FirstDevice(Split(data, '\n'), mountPoint)
  {
    var lines := Split(data, '\n');
    var i := 0;
    while i < |lines|
      invariant 0 <= i <= |lines|
      invariant forall j | 0 <= j < i :: !Names(lines[j], mountPoint)
      invariant FirstDevice(lines, mountPoint) == FirstDevice(lines[i..], mountPoint)
    {
      var fields := Fields(lines[i]);
      assert lines[i..][1..] == lines[i + 1..];
      if |fields| >= 2 && fields[1] == mountPoint {
        assert Names(lines[i], mountPoint);
        return Some(fields[0]);
      }
      i := i + 1;
    }
    return None;
  }

  function FirstDevice(lines: seq<string>, mountPoint: string): Option<string> {
    if lines == [] then None
    else if Names(lines[0], mountPoint) then Some(Fields(lines[0])[0])
    else FirstDevice(lines[1..], mountPoint)
  }

  // ---------------------------------------------------------------- rendered tables

  /** One mount as the kernel prints it; the further fields do not matter here. */
  datatype Mount = Mount(device: string, point: string, rest: string)

  predicate MountOk(m: Mount) {
    Word(m.device) && Word(m.point) && '\n' !in m.rest
  }

  ghost predicate TableOk(table: seq<Mount>) {
    forall i | 0 <= i < |table| :: MountOk(table[i])
  }

  function Line(m: Mount): string {
    m.device + " " + m.point + " " + m.rest
  }

  function Lines(table: seq<Mount>): seq<string> {
    if table == [] then [] else [Line(table[0])] + Lines(table[1..])
  }

  function Render(table: seq<Mount>): string {
    Terminated(Lines(table), '\n')
  }

  /** The device of the first mount at that point. */
  function First(table: seq<Mount>, mountPoint: string): Option<string> {
    if table == [] then None
    else if table[0].point == mountPoint then Some(table[0].device)
    else First(table[1..], mountPoint)
  }

  lemma FieldsSkip(rest: string)
    ensures Fields(" " + rest) == Fields(rest)
  {
    assert (" " + rest)[1..] == rest;
  }

  lemma LineFields(m: Mount)
    requires MountOk(m)
    ensures Fields(Line(m)) == [m.device] + ([m.point] + Fields(m.rest))
    ensures '\n' !in Line(m)
  {
    var behind := " " + m.rest;
    var tail := m.point + behind;
    assert Line(m) == m.device + (" " + tail);
    FieldsOfWord(m.device, " " + tail);
    FieldsSkip(tail);
    FieldsOfWord(m.point, behind);
    FieldsSkip(m.rest);
  }

  lemma LineNames(m: Mount, mountPoint: string)
    requires MountOk(m)
    ensures Names(Line(m), mountPoint) <==> m.point == mountPoint
    ensures Fields(Line(m))[0] == m.device
  {
    LineFields(m);
  }

  lemma {:induction false} FirstInLines(table: seq<Mount>, mountPoint: string)
    requires TableOk(table)
    ensures Pieces(Lines(table), '\n')
    ensures FirstDevice(Lines(table) + [""], mountPoint) == First(table, mountPoint)
  {
    if table == [] {
      assert ([] + [""])[1..] == [];
    } else {
      LineFields(table[0]);
      LineNames(table[0], mountPoint);
      FirstInLines(table[1..], mountPoint);
      assert (Lines(table) + [""])[1..] == Lines(table[1..]) + [""];
    }
  }

  /** On any rendered table, the lookup returns the device of the first mount at that point. */
  lemma FindsFirstMount(table: seq<Mount>, mountPoint: string)
    requires TableOk(table)
    ensures FirstDevice(Split(Render(table), '\n'), mountPoint) == First(table, mountPoint)
  {
    FirstInLines(table, mountPoint);
    SplitTerminated(Lines(table), '\n');
  }

  ghost predicate Distinct(table: seq<Mount>) {
    forall i, j | 0 <= i < j < |table| :: table[i].point != table[j].point
  }

  function ToMap(table: seq<Mount>): map<string, string> {
    if table == [] then map[] else ToMap(table[1..])[table[0].point := table[0].device]
  }

  lemma {:induction false} ToMapOf(table: seq<Mount>, mountPoint: string)
    ensures mountPoint in ToMap(table) <==> First(table, mountPoint).Some?
    ensures mountPoint in ToMap(table) ==> First(table, mountPoint) == Some(ToMap(table)[mountPoint])
    ensures mountPoint in ToMap(table) <==> exists i | 0 <= i < |table| :: table[i].point == mountPoint
  {
    if table != [] {
      ToMapOf(table[1..], mountPoint);
      if mountPoint in ToMap(table[1..]) {
        var i :| 0 <= i < |table[1..]| && table[1..][i].point == mountPoint;
        assert table[i + 1].point == mountPoint;
      } else if mountPoint in ToMap(table) {
        assert table[0].point == mountPoint;
      } else {
        forall i | 0 <= i < |table| ensures table[i].point != mountPoint {
          assert i > 0 ==> table[1..][i - 1] == table[i];
        }
      }
    }
  }

  lemma {:induction false} FirstAt(table: seq<Mount>, i: nat)
    requires i < |table| && Distinct(table)
    ensures First(table, table[i].point) == Some(table[i].device)
  {
    if i > 0 {
      FirstAt(table[1..], i - 1);
    }
  }

  /**
   When no two mounts share a point, the lookup is a map lookup: it fails exactly when nothing is
   mounted there, and every mount of the table is found.
   */
  lemma AgreesWithMap(table: seq<Mount>, mountPoint: string)
    requires TableOk(table) && Distinct(table)
    ensures var found := FirstDevice(Split(Render(table), '\n'), mountPoint);
      && (found.None? <==> mountPoint !in ToMap(table))
      && (found.Some? ==> found.value == ToMap(table)[mountPoint])
    ensures forall i | 0 <= i < |table| ::
      FirstDevice(Split(Render(table), '\n'), table[i].point) == Some(table[i].device)
  {
    FindsFirstMount(table, mountPoint);
    ToMapOf(table, mountPoint);
    forall i | 0 <= i < |table|
      ensures FirstDevice(Split(Render(table), '\n'), table[i].point) == Some(table[i].device)
    {
      FindsFirstMount(table, table[i].point);
      FirstAt(table, i);
    }
  }
}

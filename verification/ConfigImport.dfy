/** gateway/internal/api/configio.go: exporting the configuration and importing it again. */
module ConfigImport {
  import opened Common
  import opened Restore
  import Decode

  datatype Connection = Connection(
    name: string, protocol: string, iface: string, ipAddress: string, port: int, baudRate: int, dataBits: int,
    parity: string,
    stopBits: int, timeoutMs: int, retry: int, enabled: bool, nextDeviceDelayMs: int)

  datatype Device = Device(name: string, connectionId: int, slaveId: int, enabled: bool)

  datatype Point = Point(
    tagName: string, functionCode: int, address: int, dataType: string, byteOrder: string, wordOrder: string,
    scale: Float, offset: Float, unit: string, priority: string, enabled: bool)

  datatype PointRow = PointRow(deviceId: int, point: Point)

  /** Connections and data points are AUTOINCREMENT tables; a device gets one more than the largest id present. */
  datatype Tables = Tables(conns: Table<Connection>, devices: map<int, Device>, points: Table<PointRow>)

  datatype DeviceEntry = DeviceEntry(id: int, device: Device, points: seq<Entry<Point>>)

  datatype Payload = Payload(conns: seq<Entry<Connection>>, devices: seq<DeviceEntry>)

  // ---------------------------------------------------------------- validation

  predicate IsZero(f: Float) { f.bits == 0 || f.bits == 0x8000_0000_0000_0000 }

  predicate ValidConnection(c: Connection) {
    && c.name != ""
    && (c.protocol == "TCP" || c.protocol == "RTU")
    && (c.protocol == "TCP" ==> c.ipAddress != "" && 0 < c.port <= 65535)
    && (c.protocol == "RTU" ==>
        c.iface != "" && c.baudRate > 0 && (c.parity == "N" || c.parity == "E" || c.parity == "O"))
    && c.timeoutMs > 0 && c.retry >= 0 && c.nextDeviceDelayMs >= 0
  }

  predicate ValidDevice(d: Device) { d.name != "" && d.connectionId > 0 && 1 <= d.slaveId <= 247 }

  predicate ValidPoint(p: Point) {
    && p.tagName != "" && 1 <= p.functionCode <= 4 && Decode.ByteWidth(p.dataType).Some?
    && (p.priority == "CRITICAL" || p.priority == "HIGH" || p.priority == "NORMAL" || p.priority == "LOW"
       || p.priority == "")
    && !IsZero(p.scale)
  }

  predicate ValidEntry(e: DeviceEntry) {
    ValidDevice(e.device) && forall k :: 0 <= k < |e.points| ==> ValidPoint(e.points[k].value)
  }

  predicate ValidPayload(p: Payload) {
    && (forall k :: 0 <= k < |p.conns| ==> ValidConnection(p.conns[k].value))
    && (forall k :: 0 <= k < |p.devices| ==> ValidEntry(p.devices[k]))
  }

  // ---------------------------------------------------------------- the import

  function WithDefault(p: Point): Point {
    if p.priority == "" then p.(priority := "NORMAL") else p
  }

  /** UPDATE connection replaces every editable column. */
  function Replace(was: Connection, now: Connection): Connection { now }

  /** UPDATE datapoint replaces every editable column, and device_id is not one. */
  function KeepOwner(was: PointRow, now: PointRow): PointRow { PointRow(was.deviceId, now.point) }

  /** A device's points as the import hands them to the repository. */
  function Owned(points: seq<Entry<Point>>, deviceId: int): (r: seq<Entry<PointRow>>)
    ensures |r| == |points|
  {
    seq(|points|, k requires 0 <= k < |points| => Entry(points[k].id, PointRow(deviceId, WithDefault(points[k].value))))
  }

  /** connIDMap: exported connection id to the id it landed on. */
  function ConnIds(t: Table<Connection>, es: seq<Entry<Connection>>): map<int, int> {
    if es == [] then map[]
    else
      var n := |es| - 1;
      ConnIds(t, es[..n])[es[n].id := Target(Replay(t, es[..n], Replace), es[n].id)]
  }

  lemma ConnIdsNext(t: Table<Connection>, es: seq<Entry<Connection>>, e: Entry<Connection>)
    ensures ConnIds(t, es + [e]) == ConnIds(t, es)[e.id := Target(Replay(t, es, Replace), e.id)]
  {
    assert (es + [e])[..|es|] == es;
  }

  lemma OwnedNext(es: seq<Entry<Point>>, e: Entry<Point>, deviceId: int)
    ensures Owned(es + [e], deviceId) == Owned(es, deviceId) + [Entry(e.id, PointRow(deviceId, WithDefault(e.value)))]
  {}

  lemma SaveDevicesNext(db: Tables, connIds: map<int, int>, es: seq<DeviceEntry>, e: DeviceEntry)
    ensures SaveDevices(db, connIds, es + [e]) == SaveDevice(SaveDevices(db, connIds, es), connIds, e)
  {
    assert (es + [e])[..|es|] == es;
  }

  ghost function MaxId(ids: set<int>): (r: int)
    ensures forall id :: id in ids ==> id <= r
    ensures r == 0 || r in ids
    ensures r >= 0
  {
    if ids == {} then 0
    else
      NonEmpty(ids);
      var id :| id in ids;
      var rest := MaxId(ids - {id});
      assert forall other :: other in ids ==> other == id || other in ids - {id};
      if id > rest then id else rest
  }

  ghost function DeviceTarget(devices: map<int, Device>, id: int): int {
    if id != 0 && id in devices then id else MaxId(devices.Keys) + 1
  }

  /** One device and its points; a device whose connection was not imported is skipped. */
  ghost function SaveDevice(db: Tables, connIds: map<int, int>, e: DeviceEntry): Tables {
    if e.device.connectionId !in connIds then db
    else
      var d := e.device.(connectionId := connIds[e.device.connectionId]);
      var id := DeviceTarget(db.devices, e.id);
      db.(devices := db.devices[id := d], points := Replay(db.points, Owned(e.points, id), KeepOwner))
  }

  ghost function SaveDevices(db: Tables, connIds: map<int, int>, es: seq<DeviceEntry>): Tables {
    if es == [] then db
    else
      var n := |es| - 1;
      SaveDevice(SaveDevices(db, connIds, es[..n]), connIds, es[n])
  }

  ghost function Import(db: Tables, p: Payload): Tables {
    if !ValidPayload(p) then db
    else SaveDevices(db.(conns := Replay(db.conns, p.conns, Replace)), ConnIds(db.conns, p.conns), p.devices)
  }

  // ---------------------------------------------------------------- the export

  ghost predicate Consistent(db: Tables) {
    && (forall id :: id in db.conns.rows ==> 0 < id <= db.conns.last)
    && (forall id :: id in db.devices ==> 0 < id && db.devices[id].connectionId in db.conns.rows)
    && (forall id :: id in db.points.rows ==>
          0 < id <= db.points.last && db.points.rows[id].deviceId in db.devices
              && db.points.rows[id].point.priority != "")
  }

  predicate Listed<T(!new)>(es: seq<Entry<T>>, id: int) {
    exists k :: 0 <= k < |es| && es[k].id == id
  }

  predicate DeviceListed(es: seq<DeviceEntry>, id: int) {
    exists k :: 0 <= k < |es| && es[k].id == id
  }

  ghost predicate ListsConns(db: Tables, es: seq<Entry<Connection>>) {
    && Ascending(es)
    && (forall k :: 0 <= k < |es| ==> es[k].id in db.conns.rows && es[k].value == db.conns.rows[es[k].id])
    && (forall id :: id in db.conns.rows ==> Listed(es, id))
  }

  /** One exported device: its row, and its points by ascending id. */
  ghost predicate ListsDevice(db: Tables, e: DeviceEntry) {
    && e.id in db.devices && e.device == db.devices[e.id]
    && Ascending(e.points)
    && (forall k :: 0 <= k < |e.points| ==>
          e.points[k].id in db.points.rows && db.points.rows[e.points[k].id] == PointRow(e.id, e.points[k].value))
    && (forall id :: id in db.points.rows && db.points.rows[id].deviceId == e.id ==> Listed(e.points, id))
  }

  ghost predicate AscendingDevices(es: seq<DeviceEntry>) {
    && (forall k :: 0 <= k < |es| ==> es[k].id > 0)
    && (forall j, k :: 0 <= j < k < |es| ==> es[j].id < es[k].id)
  }

  ghost predicate IsExport(db: Tables, p: Payload) {
    && ListsConns(db, p.conns)
    && AscendingDevices(p.devices)
    && (forall k :: 0 <= k < |p.devices| ==> ListsDevice(db, p.devices[k]))
    && (forall id :: id in db.devices ==> DeviceListed(p.devices, id))
  }

  lemma ListedLast<T(!new)>(es: seq<Entry<T>>, id: int)
    requires es != []
    ensures var n := |es| - 1; Listed(es, id) <==> Listed(es[..n], id) || id == es[n].id
  {}

  // ---------------------------------------------------------------- importing one's own export

  lemma {:induction false} OwnConnIds(t: Table<Connection>, es: seq<Entry<Connection>>)
    requires forall k :: 0 <= k < |es| ==> Known(t, es[k].id) && es[k].value == t.rows[es[k].id]
    ensures forall id :: id in ConnIds(t, es) <==> Listed(es, id)
    ensures forall id :: id in ConnIds(t, es) ==> ConnIds(t, es)[id] == id
  {
    if es != [] {
      var n := |es| - 1;
      OwnConnIds(t, es[..n]);
      ReplaySame(t, es[..n], Replace);
      forall id ensures Listed(es, id) <==> Listed(es[..n], id) || id == es[n].id {
        ListedLast(es, id);
      }
    }
  }

  /** A device entry that says of its device and points what the tables say. */
  ghost predicate Agrees(db: Tables, e: DeviceEntry) {
    && e.id in db.devices && e.device == db.devices[e.id]
    && forall k :: 0 <= k < |e.points| ==>
         && e.points[k].id in db.points.rows
         && db.points.rows[e.points[k].id] == PointRow(e.id, e.points[k].value)
  }

  lemma OwnDevice(db: Tables, connIds: map<int, int>, e: DeviceEntry)
    requires Consistent(db) && Agrees(db, e)
    requires forall id :: id in connIds ==> connIds[id] == id
    ensures SaveDevice(db, connIds, e) == db
  {
    var es := Owned(e.points, e.id);
    forall k | 0 <= k < |es|
      ensures Known(db.points, es[k].id)
      ensures KeepOwner(db.points.rows[es[k].id], es[k].value) == db.points.rows[es[k].id]
    {
      assert e.points[k].id in db.points.rows;
    }
    ReplaySame(db.points, es, KeepOwner);
    assert db.devices[e.id := db.devices[e.id]] == db.devices;
  }

  lemma {:induction false} OwnDevices(db: Tables, connIds: map<int, int>, es: seq<DeviceEntry>)
    requires Consistent(db) && forall k :: 0 <= k < |es| ==> Agrees(db, es[k])
    requires forall id :: id in connIds ==> connIds[id] == id
    ensures SaveDevices(db, connIds, es) == db
  {
    if es != [] {
      OwnDevices(db, connIds, es[..|es| - 1]);
      OwnDevice(db, connIds, es[|es| - 1]);
    }
  }

  /** Every entry of the payload says what the tables already say. */
  ghost predicate Repeats(db: Tables, p: Payload) {
    && (forall k :: 0 <= k < |p.conns| ==>
          p.conns[k].id in db.conns.rows && p.conns[k].value == db.conns.rows[p.conns[k].id])
    && (forall k :: 0 <= k < |p.devices| ==> Agrees(db, p.devices[k]))
  }

  /** Importing any part of what the tables say leaves them as they were. */
  lemma RepeatChangesNothing(db: Tables, p: Payload)
    requires Consistent(db) && Repeats(db, p)
    ensures Import(db, p) == db
  {
    OwnConnIds(db.conns, p.conns);
    ReplaySame(db.conns, p.conns, Replace);
    OwnDevices(db, ConnIds(db.conns, p.conns), p.devices);
  }

  /** Importing a gateway's own export leaves its configuration as it was. */
  lemma OwnExportChangesNothing(db: Tables, p: Payload)
    requires Consistent(db) && IsExport(db, p)
    ensures Repeats(db, p) && Import(db, p) == db
  {
    forall k | 0 <= k < |p.devices| ensures Agrees(db, p.devices[k]) {
      assert ListsDevice(db, p.devices[k]);
    }
    RepeatChangesNothing(db, p);
  }

  // ---------------------------------------------------------------- restoring onto another gateway

  /** No configuration, but the tables may have been used: `lastConn` and `lastPoint` ids were given out. */
  function Emptied(lastConn: nat, lastPoint: nat): Tables {
    Tables(Table(map[], lastConn), map[], Table(map[], lastPoint))
  }

  /** All exported points in payload order, each under its device's place in the payload. */
  function AllPoints(es: seq<DeviceEntry>): seq<Entry<PointRow>> {
    if es == [] then []
    else
      var n := |es| - 1;
      AllPoints(es[..n]) + Owned(es[n].points, |es|)
  }

  /** How many points the first i devices have. */
  function PointsBefore(es: seq<DeviceEntry>, i: nat): nat
    requires i <= |es|
  {
    if i == 0 then 0 else PointsBefore(es, i - 1) + |es[i - 1].points|
  }

  lemma {:induction false} PointsBeforeFront(es: seq<DeviceEntry>, n: nat, i: nat)
    requires i <= n <= |es|
    ensures PointsBefore(es[..n], i) == PointsBefore(es, i)
  {
    if i > 0 {
      PointsBeforeFront(es, n, i - 1);
    }
  }

  /** Point j of the i-th device in its place: its exported id, the device's place, an empty priority made NORMAL. */
  lemma {:induction false} AllPointsAt(es: seq<DeviceEntry>, i: nat, j: nat)
    requires i < |es| && j < |es[i].points|
    ensures |AllPoints(es)| == PointsBefore(es, |es|) && PointsBefore(es, i) + j < |AllPoints(es)|
    ensures var e, p := AllPoints(es)[PointsBefore(es, i) + j], es[i].points[j];
            && e.id == p.id && e.value.deviceId == i + 1
            && e.value.point == p.value.(priority := if p.value.priority == "" then "NORMAL" else p.value.priority)
  {
    var n := |es| - 1;
    AllPointsLength(es[..n]);
    PointsBeforeFront(es, n, n);
    PointsBeforeFront(es, n, i);
    if i < n {
      AllPointsAt(es[..n], i, j);
    }
  }

  lemma {:induction false} AllPointsLength(es: seq<DeviceEntry>)
    ensures |AllPoints(es)| == PointsBefore(es, |es|)
  {
    if es != [] {
      AllPointsLength(es[..|es| - 1]);
      PointsBeforeFront(es, |es| - 1, |es| - 1);
    }
  }

  /** The devices numbered 1, 2, 3 in order, each on the copy of its connection. */
  function MovedDevices(es: seq<DeviceEntry>, connIds: map<int, int>): map<int, Device>
    requires forall k :: 0 <= k < |es| ==> es[k].device.connectionId in connIds
  {
    if es == [] then map[]
    else
      var n := |es| - 1;
      MovedDevices(es[..n], connIds)[|es| := es[n].device.(connectionId := connIds[es[n].device.connectionId])]
  }

  lemma {:induction false} MovedDevicesAre(es: seq<DeviceEntry>, connIds: map<int, int>)
    requires forall k :: 0 <= k < |es| ==> es[k].device.connectionId in connIds
    ensures var ds := MovedDevices(es, connIds);
            && (forall id :: id in ds <==> 0 < id <= |es|)
            && (forall k {:trigger es[k]} :: 0 <= k < |es| ==>
                ds[k + 1] == es[k].device.(connectionId := connIds[es[k].device.connectionId]))
  {
    if es != [] {
      var n := |es| - 1;
      MovedDevicesAre(es[..n], connIds);
      forall k | 0 <= k < n
        ensures MovedDevices(es[..n], connIds)[k + 1]
             == es[k].device.(connectionId := connIds[es[k].device.connectionId])
      {
        assert es[..n][k] == es[k];
      }
    }
  }

  lemma MaxOfFirst(ids: set<int>, n: nat)
    requires forall id :: id in ids <==> 0 < id <= n
    ensures MaxId(ids) == n
  {
    if n > 0 {
      assert n in ids;
    }
  }

  /** With rows 1 to n taken and a larger id exported, the device is created as n + 1. */
  lemma DeviceMoves(db: Tables, connIds: map<int, int>, e: DeviceEntry, n: nat)
    requires e.device.connectionId in connIds && e.id > n
    requires forall id :: id in db.devices <==> 0 < id <= n
    ensures SaveDevice(db, connIds, e)
         == Tables(db.conns, db.devices[n + 1 := e.device.(connectionId := connIds[e.device.connectionId])],
                   Replay(db.points, Owned(e.points, n + 1), KeepOwner))
  {
    MaxOfFirst(db.devices.Keys, n);
  }

  lemma {:induction false} DevicesMove(db: Tables, connIds: map<int, int>, es: seq<DeviceEntry>)
    requires db.devices == map[] && AscendingDevices(es)
    requires forall k :: 0 <= k < |es| ==> es[k].device.connectionId in connIds
    ensures SaveDevices(db, connIds, es)
         == Tables(db.conns, MovedDevices(es, connIds), Replay(db.points, AllPoints(es), KeepOwner))
  {
    hide Replay, SaveDevice;
    if es != [] {
      var n := |es| - 1;
      DevicesMove(db, connIds, es[..n]);
      MovedDevicesAre(es[..n], connIds);
      DeviceIdAtLeast(es, n);
      DeviceMoves(SaveDevices(db, connIds, es[..n]), connIds, es[n], n);
      ReplayAppend(db.points, AllPoints(es[..n]), Owned(es[n].points, n + 1), KeepOwner);
    } else {
      ReplayNothing(db.points, KeepOwner);
    }
  }

  lemma {:induction false} DeviceIdAtLeast(es: seq<DeviceEntry>, k: nat)
    requires AscendingDevices(es) && k < |es|
    ensures es[k].id >= k + 1
  {
    if k > 0 {
      DeviceIdAtLeast(es, k - 1);
    }
  }

  /** Where the k-th exported connection lands when all are created. */
  function Renumbering(es: seq<Entry<Connection>>, last: nat): map<int, int> {
    if es == [] then map[]
    else
      var n := |es| - 1;
      Renumbering(es[..n], last)[es[n].id := last + |es|]
  }

  lemma {:induction false} RenumberingIs(es: seq<Entry<Connection>>, last: nat)
    requires Ascending(es)
    ensures forall id :: id in Renumbering(es, last) <==> Listed(es, id)
    ensures forall k {:trigger es[k]} :: 0 <= k < |es| ==>
              es[k].id in Renumbering(es, last) && Renumbering(es, last)[es[k].id] == last + k + 1
  {
    if es != [] {
      var n := |es| - 1;
      var front := es[..n];
      RenumberingIs(front, last);
      forall id ensures Listed(es, id) <==> Listed(es[..n], id) || id == es[n].id {
        ListedLast(es, id);
      }
      forall k | 0 <= k < n
        ensures es[k].id in Renumbering(front, last) && Renumbering(front, last)[es[k].id] == last + k + 1
      {
        assert front[k] == es[k];
      }
    }
  }

  /** connIDMap after a restore without hits. */
  lemma {:induction false} FreshConnIds(last: nat, es: seq<Entry<Connection>>)
    requires !Hits(es, last)
    ensures ConnIds(Table(map[], last), es) == Renumbering(es, last)
  {
    hide Replay;
    if es != [] {
      var n := |es| - 1;
      NoHitBefore(es, last, n);
      FreshConnIds(last, es[..n]);
      ReplayFresh(last, es[..n], Replace);
      NumberedIs(es[..n], last);
      assert !(last < es[n].id <= last + n);
    }
  }

  lemma DeviceConnectionsListed(source: Tables, p: Payload)
    requires Consistent(source) && IsExport(source, p)
    ensures forall k :: 0 <= k < |p.devices| ==> Listed(p.conns, p.devices[k].device.connectionId)
  {}

  /** The copy a restore is meant to make of an exported configuration. */
  ghost predicate Copied(lastConn: nat, lastPoint: nat, p: Payload, db: Tables) {
    && (forall k :: 0 <= k < |p.devices| ==> p.devices[k].device.connectionId in Renumbering(p.conns, lastConn))
    && db.conns == Numbered(p.conns, lastConn)
    && db.devices == MovedDevices(p.devices, Renumbering(p.conns, lastConn))
    && db.points == Numbered(AllPoints(p.devices), lastPoint)
  }

  /** What the copy holds: the c-th connection under the c-th new id. */
  lemma CopiedConnection(lastConn: nat, lastPoint: nat, p: Payload, db: Tables, c: nat)
    requires Copied(lastConn, lastPoint, p, db) && c < |p.conns|
    ensures |db.conns.rows| == |p.conns| && lastConn + c + 1 in db.conns.rows
    ensures db.conns.rows[lastConn + c + 1] == p.conns[c].value
  {
    NumberedIs(p.conns, lastConn);
    NumberedSize(p.conns, lastConn);
    hide Renumbering, MovedDevices, Numbered;
    assert Numbered(p.conns, lastConn).rows[lastConn + c + 1] == p.conns[c].value;
  }

  /** The i-th device as device i, counted from one, on the copy of its connection. */
  lemma CopiedDevice(lastConn: nat, lastPoint: nat, p: Payload, db: Tables, c: nat, i: nat)
    requires Copied(lastConn, lastPoint, p, db) && Ascending(p.conns) && c < |p.conns| && i < |p.devices|
    requires p.devices[i].device.connectionId == p.conns[c].id
    ensures |db.devices| == |p.devices| && i + 1 in db.devices
    ensures db.devices[i + 1] == p.devices[i].device.(connectionId := lastConn + c + 1)
  {
    var ids := Renumbering(p.conns, lastConn);
    RenumberingIs(p.conns, lastConn);
    MovedDevicesAre(p.devices, ids);
    MovedSize(p.devices, ids);
    hide Renumbering, MovedDevices, Numbered;
    assert ids[p.conns[c].id] == lastConn + c + 1;
    assert MovedDevices(p.devices, ids)[i + 1] == p.devices[i].device.(connectionId := ids[p.conns[c].id]);
  }

  /** Every point, in export order, on the copy of its device, an empty priority made NORMAL. */
  lemma CopiedPoint(lastConn: nat, lastPoint: nat, p: Payload, db: Tables, i: nat, j: nat)
    requires Copied(lastConn, lastPoint, p, db) && i < |p.devices| && j < |p.devices[i].points|
    ensures |db.points.rows| == PointsBefore(p.devices, |p.devices|)
    ensures var id, point := lastPoint + PointsBefore(p.devices, i) + j + 1, p.devices[i].points[j].value;
            && id in db.points.rows && db.points.rows[id].deviceId == i + 1
            && db.points.rows[id].point == point.(priority := if point.priority == "" then "NORMAL" else point.priority)
  {
    var points := AllPoints(p.devices);
    AllPointsAt(p.devices, i, j);
    NumberedIs(points, lastPoint);
    NumberedSize(points, lastPoint);
    hide AllPoints, Renumbering, MovedDevices, Numbered;
    var k := PointsBefore(p.devices, i) + j;
    assert Numbered(points, lastPoint).rows[lastPoint + k + 1] == points[k].value;
  }

  lemma {:induction false} NumberedSize<T(!new)>(es: seq<Entry<T>>, last: nat)
    ensures |Numbered(es, last).rows| == |es|
  {
    if es != [] {
      NumberedSize(es[..|es| - 1], last);
      NumberedIs(es[..|es| - 1], last);
    }
  }

  lemma {:induction false} MovedSize(es: seq<DeviceEntry>, connIds: map<int, int>)
    requires forall k :: 0 <= k < |es| ==> es[k].device.connectionId in connIds
    ensures |MovedDevices(es, connIds)| == |es|
  {
    if es != [] {
      MovedSize(es[..|es| - 1], connIds);
      MovedDevicesAre(es[..|es| - 1], connIds);
    }
  }

  lemma {:induction false} DevicesLeaveConns(db: Tables, connIds: map<int, int>, es: seq<DeviceEntry>)
    ensures SaveDevices(db, connIds, es).conns == db.conns
  {
    if es != [] {
      DevicesLeaveConns(db, connIds, es[..|es| - 1]);
    }
  }

  /** Without a hit among the connections, everything but the points lands where it should. */
  lemma RestoreShape(source: Tables, p: Payload, lastConn: nat, lastPoint: nat)
    requires Consistent(source) && IsExport(source, p) && ValidPayload(p) && !Hits(p.conns, lastConn)
    ensures var ids := Renumbering(p.conns, lastConn);
            && (forall k :: 0 <= k < |p.devices| ==> p.devices[k].device.connectionId in ids)
            && Import(Emptied(lastConn, lastPoint), p)
            == Tables(Numbered(p.conns, lastConn), MovedDevices(p.devices, ids),
                      Replay(Table(map[], lastPoint), AllPoints(p.devices), KeepOwner))
  {
    var ids := Renumbering(p.conns, lastConn);
    RenumberingIs(p.conns, lastConn);
    DeviceConnectionsListed(source, p);
    FreshConnIds(lastConn, p.conns);
    ReplayFresh(lastConn, p.conns, Replace);
    DevicesMove(Emptied(lastConn, lastPoint).(conns := Numbered(p.conns, lastConn)), ids, p.devices);
  }

  /**
    Restoring an export onto a gateway without configuration makes the intended copy if and only if
    no connection and no data point carries an id that was just given to one before it.
  */
  lemma RestoreCopiesIff(source: Tables, p: Payload, lastConn: nat, lastPoint: nat)
    requires Consistent(source) && IsExport(source, p) && ValidPayload(p)
    ensures Copied(lastConn, lastPoint, p, Import(Emptied(lastConn, lastPoint), p))
       <==> !Hits(p.conns, lastConn) && !Hits(AllPoints(p.devices), lastPoint)
  {
    var empty := Emptied(lastConn, lastPoint);
    if Hits(p.conns, lastConn) {
      ReplayLoses(lastConn, p.conns, Replace);
      NumberedIs(p.conns, lastConn);
      DevicesLeaveConns(empty.(conns := Replay(empty.conns, p.conns, Replace)), ConnIds(empty.conns, p.conns),
          p.devices);
    } else {
      RestoreShape(source, p, lastConn, lastPoint);
      CopiesIff(lastPoint, AllPoints(p.devices), KeepOwner);
    }
  }

  /**
    On a database never used, connections and devices are always copied, renumbered in order; the
    data points are if and only if the k-th of them in the export has an id of at least k.
  */
  lemma NeverUsedCopies(source: Tables, p: Payload)
    requires Consistent(source) && IsExport(source, p) && ValidPayload(p)
    ensures var db := Import(Emptied(0, 0), p);
            var ids := Renumbering(p.conns, 0);
            && (forall k :: 0 <= k < |p.devices| ==> p.devices[k].device.connectionId in ids)
            && db.conns == Numbered(p.conns, 0)
            && db.devices == MovedDevices(p.devices, ids)
            && (Copied(0, 0, p, db) <==>
                forall k :: 0 <= k < |AllPoints(p.devices)| ==> AllPoints(p.devices)[k].id >= k + 1)
  {
    AscendingNeverHits(p.conns);
    RestoreShape(source, p, 0, 0);
    RestoreCopiesIff(source, p, 0, 0);
    PointIdsPositive(source, p.devices);
    var es := AllPoints(p.devices);
    if forall k :: 0 <= k < |es| ==> es[k].id >= k + 1 {
      assert !Hits(es, 0);
    } else {
      var k :| 0 <= k < |es| && es[k].id < k + 1;
      assert 0 < es[k].id <= 0 + k;
    }
  }

  /** In particular when the point ids ascend through the whole export. */
  lemma AscendingPointsCopy(source: Tables, p: Payload)
    requires Consistent(source) && IsExport(source, p) && ValidPayload(p) && Ascending(AllPoints(p.devices))
    ensures Copied(0, 0, p, Import(Emptied(0, 0), p))
  {
    forall k | 0 <= k < |AllPoints(p.devices)| ensures AllPoints(p.devices)[k].id >= k + 1 {
      AscendingAtLeast(AllPoints(p.devices), k);
    }
    NeverUsedCopies(source, p);
  }

  lemma {:induction false} PointIdsPositive(source: Tables, es: seq<DeviceEntry>)
    requires forall k :: 0 <= k < |es| ==> ListsDevice(source, es[k])
    ensures forall k :: 0 <= k < |AllPoints(es)| ==> AllPoints(es)[k].id > 0
  {
    if es != [] {
      PointIdsPositive(source, es[..|es| - 1]);
      assert ListsDevice(source, es[|es| - 1]);
    }
  }

  // ---------------------------------------------------------------- where it goes wrong

  /** Two devices; a point was added to the first after the second's: its points have ids 1 and 3. */
  function Interleaved(c: Connection, d1: Device, d2: Device, a: Point, b: Point, late: Point): Tables {
    Tables(Table(map[1 := c], 1), map[1 := d1, 2 := d2],
           Table(map[1 := PointRow(1, a), 2 := PointRow(2, b), 3 := PointRow(1, late)], 3))
  }

  function InterleavedExport(c: Connection, d1: Device, d2: Device, a: Point, b: Point, late: Point): Payload {
    Payload([Entry(1, c)], [DeviceEntry(1, d1, [Entry(1, a), Entry(3, late)]), DeviceEntry(2, d2, [Entry(2, b)])])
  }

  lemma InterleavedIsExported(c: Connection, d1: Device, d2: Device, a: Point, b: Point, late: Point)
    requires d1.connectionId == 1 && d2.connectionId == 1
    requires a.priority != "" && b.priority != "" && late.priority != ""
    ensures Consistent(Interleaved(c, d1, d2, a, b, late))
    ensures IsExport(Interleaved(c, d1, d2, a, b, late), InterleavedExport(c, d1, d2, a, b, late))
  {
    var p := InterleavedExport(c, d1, d2, a, b, late);
    var es1, es2 := p.devices[0].points, p.devices[1].points;
    assert p.conns[0].id == 1 && p.devices[0].id == 1 && p.devices[1].id == 2;
    assert es1[0].id == 1 && es1[1].id == 3 && es2[0].id == 2;
  }

  lemma InterleavedPoints(c: Connection, d1: Device, d2: Device, a: Point, b: Point, late: Point)
    requires a.priority != "" && b.priority != "" && late.priority != ""
    ensures AllPoints(InterleavedExport(c, d1, d2, a, b, late).devices)
         == [Entry(1, PointRow(1, a)), Entry(3, PointRow(1, late)), Entry(2, PointRow(2, b))]
  {
    var es := InterleavedExport(c, d1, d2, a, b, late).devices;
    var first := es[..1];
    assert first[..0] == [] && first[0] == es[0];
    assert AllPoints([]) == [];
    assert AllPoints(first) == Owned(es[0].points, 1) == [Entry(1, PointRow(1, a)), Entry(3, PointRow(1, late))];
    assert AllPoints(es) == AllPoints(first) + Owned(es[1].points, 2);
    assert Owned(es[1].points, 2) == [Entry(2, PointRow(2, b))];
  }

  /** Restoring it onto a new gateway loses the late point and puts the second device's point on the first. */
  lemma InterleavedIsLost(c: Connection, d1: Device, d2: Device, a: Point, b: Point, late: Point)
    requires d1.connectionId == 1 && d2.connectionId == 1
    requires a.priority != "" && b.priority != "" && late.priority != ""
    requires ValidPayload(InterleavedExport(c, d1, d2, a, b, late))
    ensures Consistent(Interleaved(c, d1, d2, a, b, late))
    ensures IsExport(Interleaved(c, d1, d2, a, b, late), InterleavedExport(c, d1, d2, a, b, late))
    ensures Import(Emptied(0, 0), InterleavedExport(c, d1, d2, a, b, late)).points.rows
              == map[1 := PointRow(1, a), 2 := PointRow(1, b)]
  {
    hide Import, Consistent, IsExport, ValidPayload, AllPoints, Replay;
    var p := InterleavedExport(c, d1, d2, a, b, late);
    InterleavedIsExported(c, d1, d2, a, b, late);
    AscendingNeverHits(p.conns);
    RestoreShape(Interleaved(c, d1, d2, a, b, late), p, 0, 0);
    InterleavedPoints(c, d1, d2, a, b, late);
    ReplayThree(Entry(1, PointRow(1, a)), Entry(3, PointRow(1, late)), Entry(2, PointRow(2, b)));
  }

  lemma ReplayThree(e1: Entry<PointRow>, e2: Entry<PointRow>, e3: Entry<PointRow>)
    ensures Replay(Table(map[], 0), [e1, e2, e3], KeepOwner)
         == Save(Save(Save(Table(map[], 0), e1, KeepOwner), e2, KeepOwner), e3, KeepOwner)
  {
    var es := [e1, e2, e3];
    assert es[..2] == [e1, e2] && [e1, e2][..1] == [e1] && [e1][..0] == [];
    ReplayNothing(Table(map[], 0), KeepOwner);
    assert Replay(Table(map[], 0), [e1], KeepOwner) == Save(Table(map[], 0), e1, KeepOwner);
    assert Replay(Table(map[], 0), [e1, e2], KeepOwner) == Save(Save(Table(map[], 0), e1, KeepOwner), e2, KeepOwner);
  }

  /** A gateway whose only connection was deleted still gives out id 2 next: restoring ids 1 and 2 keeps one of them. */
  lemma EmptiedGatewayLosesConnection(x: Entry<Connection>, y: Entry<Connection>)
    requires x.id == 1 && y.id == 2
    ensures Replay(Table(map[], 1), [x, y], Replace) == Table(map[2 := y.value], 2)
    ensures ConnIds(Table(map[], 1), [x, y]) == map[1 := 2, 2 := 2]
  {
    var t: Table<Connection> := Table(map[], 1);
    assert [x, y][..1] == [x] && [x][..0] == [];
    ReplayNothing(t, Replace);
    assert Replay(t, [x], Replace) == Table(map[2 := x.value], 2);
    assert ConnIds(t, []) == map[];
    assert ConnIds(t, [x]) == map[1 := 2];
  }
}

/** Importing over rows that are there already: what each of them holds afterwards. */
module ConfigUpdate {
  import opened Common
  import opened Restore
  import opened ConfigImport

  // ---------------------------------------------------------------- connections

  lemma {:induction false} ConnsAfter(db: Tables, p: Payload)
    requires ValidPayload(p)
    ensures Import(db, p).conns == Replay(db.conns, p.conns, Replace)
  {
    DevicesLeaveConns(db.(conns := Replay(db.conns, p.conns, Replace)), ConnIds(db.conns, p.conns), p.devices);
  }

  /** A connection that is there holds afterwards what the last entry with its id says. */
  lemma ImportUpdatesConnection(db: Tables, p: Payload, k: nat)
    requires Consistent(db) && ValidPayload(p) && k < |p.conns| && p.conns[k].id in db.conns.rows
    requires forall j :: k < j < |p.conns| ==> p.conns[j].id != p.conns[k].id
    ensures p.conns[k].id in Import(db, p).conns.rows
    ensures Import(db, p).conns.rows[p.conns[k].id] == p.conns[k].value
  {
    ConnsAfter(db, p);
    ReplayTouched(db.conns, p.conns, Replace, k);
  }

  /** A connection no entry names is left alone. */
  lemma ImportKeepsConnection(db: Tables, p: Payload, id: int)
    requires Consistent(db) && ValidPayload(p) && id in db.conns.rows
    requires forall k :: 0 <= k < |p.conns| ==> p.conns[k].id != id
    ensures id in Import(db, p).conns.rows && Import(db, p).conns.rows[id] == db.conns.rows[id]
  {
    ConnsAfter(db, p);
    ReplayUntouched(db.conns, p.conns, Replace, id);
  }

  /** An exported connection id that is there in the table stands for itself. */
  lemma {:induction false} LandsOnItself(t: Table<Connection>, es: seq<Entry<Connection>>, id: int)
    requires 0 < id <= t.last && id in t.rows
    ensures id in ConnIds(t, es) <==> Listed(es, id)
    ensures id in ConnIds(t, es) ==> ConnIds(t, es)[id] == id
  {
    if es != [] {
      var n := |es| - 1;
      LandsOnItself(t, es[..n], id);
      ListedLast(es, id);
      ReplayStays(t, es[..n], Replace, id, (_: Connection) => 0);
    }
  }

  // ---------------------------------------------------------------- devices

  lemma {:induction false} SaveDevicesSplit(db: Tables, connIds: map<int, int>, a: seq<DeviceEntry>,
                                            b: seq<DeviceEntry>)
    ensures SaveDevices(db, connIds, a + b) == SaveDevices(SaveDevices(db, connIds, a), connIds, b)
  {
    if b == [] {
      assert a + b == a;
    } else {
      var n := |b| - 1;
      assert (a + b)[..|a + b| - 1] == a + b[..n];
      SaveDevicesSplit(db, connIds, a, b[..n]);
    }
  }

  /** A device no entry names is left alone: a new device never takes its id. */
  lemma {:induction false} DeviceUntouched(db: Tables, connIds: map<int, int>, es: seq<DeviceEntry>, id: int)
    requires id in db.devices && forall k :: 0 <= k < |es| ==> es[k].id != id
    ensures var r := SaveDevices(db, connIds, es); id in r.devices && r.devices[id] == db.devices[id]
  {
    if es != [] {
      DeviceUntouched(db, connIds, es[..|es| - 1], id);
    }
  }

  lemma {:induction false} DeviceStays(db: Tables, connIds: map<int, int>, es: seq<DeviceEntry>, id: int)
    requires id in db.devices
    ensures id in SaveDevices(db, connIds, es).devices
  {
    if es != [] {
      DeviceStays(db, connIds, es[..|es| - 1], id);
    }
  }

  lemma DeviceTouched(db: Tables, connIds: map<int, int>, es: seq<DeviceEntry>, k: nat)
    requires k < |es| && es[k].id != 0 && es[k].id in db.devices && es[k].device.connectionId in connIds
    requires forall j :: k < j < |es| ==> es[j].id != es[k].id
    ensures var r := SaveDevices(db, connIds, es);
            && es[k].id in r.devices
            && r.devices[es[k].id] == es[k].device.(connectionId := connIds[es[k].device.connectionId])
  {
    var before := SaveDevices(db, connIds, es[..k]);
    DeviceStays(db, connIds, es[..k], es[k].id);
    SaveDevicesNext(db, connIds, es[..k], es[k]);
    var after := SaveDevice(before, connIds, es[k]);
    DeviceUntouched(after, connIds, es[k + 1..], es[k].id);
    assert es == es[..k] + [es[k]] + es[k + 1..];
    SaveDevicesSplit(db, connIds, es[..k] + [es[k]], es[k + 1..]);
  }

  /**
    A device that is there, on a connection of the payload, holds afterwards what the last entry with
    its id says, on the connection its own one landed on; a connection that was there is itself.
  */
  lemma ImportUpdatesDevice(db: Tables, p: Payload, k: nat)
    requires Consistent(db) && ValidPayload(p) && k < |p.devices| && p.devices[k].id in db.devices
    requires Listed(p.conns, p.devices[k].device.connectionId)
    requires forall j :: k < j < |p.devices| ==> p.devices[j].id != p.devices[k].id
    ensures var e, ids := p.devices[k], ConnIds(db.conns, p.conns);
            && e.id in Import(db, p).devices && e.device.connectionId in ids
            && Import(db, p).devices[e.id] == e.device.(connectionId := ids[e.device.connectionId])
            && (e.device.connectionId in db.conns.rows ==> Import(db, p).devices[e.id] == e.device)
  {
    var e := p.devices[k];
    AllListedLand(db.conns, p.conns, e.device.connectionId);
    if e.device.connectionId in db.conns.rows {
      LandsOnItself(db.conns, p.conns, e.device.connectionId);
    }
    DeviceTouched(db.(conns := Replay(db.conns, p.conns, Replace)), ConnIds(db.conns, p.conns), p.devices, k);
  }

  lemma {:induction false} AllListedLand(t: Table<Connection>, es: seq<Entry<Connection>>, id: int)
    requires Listed(es, id)
    ensures id in ConnIds(t, es)
  {
    var n := |es| - 1;
    ListedLast(es, id);
    if es[n].id != id {
      AllListedLand(t, es[..n], id);
    }
  }

  lemma ImportKeepsDevice(db: Tables, p: Payload, id: int)
    requires ValidPayload(p) && id in db.devices && forall k :: 0 <= k < |p.devices| ==> p.devices[k].id != id
    ensures id in Import(db, p).devices && Import(db, p).devices[id] == db.devices[id]
  {
    DeviceUntouched(db.(conns := Replay(db.conns, p.conns, Replace)), ConnIds(db.conns, p.conns), p.devices, id);
  }

  // ---------------------------------------------------------------- data points

  predicate Names(e: DeviceEntry, id: int) {
    exists j :: 0 <= j < |e.points| && e.points[j].id == id
  }

  lemma {:induction false} PointUntouched(db: Tables, connIds: map<int, int>, es: seq<DeviceEntry>, id: int)
    requires id in db.points.rows && id <= db.points.last && forall k :: 0 <= k < |es| ==> !Names(es[k], id)
    ensures var r := SaveDevices(db, connIds, es);
            && db.points.last <= r.points.last && id in r.points.rows
            && r.points.rows[id] == db.points.rows[id]
  {
    if es != [] {
      var n := |es| - 1;
      PointUntouched(db, connIds, es[..n], id);
      var before := SaveDevices(db, connIds, es[..n]);
      var own := Owned(es[n].points, DeviceTarget(before.devices, es[n].id));
      assert forall j :: 0 <= j < |own| ==> own[j].id == es[n].points[j].id;
      ReplayUntouched(before.points, own, KeepOwner, id);
    }
  }

  /** Whatever is imported, a data point that is there stays on its device. */
  lemma {:induction false} PointStays(db: Tables, connIds: map<int, int>, es: seq<DeviceEntry>, id: int)
    requires id in db.points.rows && id <= db.points.last
    ensures var r := SaveDevices(db, connIds, es);
            && db.points.last <= r.points.last && id in r.points.rows
            && r.points.rows[id].deviceId == db.points.rows[id].deviceId
  {
    if es != [] {
      var n := |es| - 1;
      PointStays(db, connIds, es[..n], id);
      var before := SaveDevices(db, connIds, es[..n]);
      var own := Owned(es[n].points, DeviceTarget(before.devices, es[n].id));
      ReplayStays(before.points, own, KeepOwner, id, (row: PointRow) => row.deviceId);
    }
  }

  /** The point as stored: an empty priority becomes NORMAL, everything else as given. */
  predicate StoredAs(row: Point, p: Point) {
    row == p.(priority := if p.priority == "" then "NORMAL" else p.priority)
  }

  lemma OnePointTouched(db: Tables, connIds: map<int, int>, e: DeviceEntry, j: nat)
    requires j < |e.points| && e.points[j].id != 0 && e.points[j].id in db.points.rows
              && e.points[j].id <= db.points.last
    requires e.device.connectionId in connIds && forall m :: j < m < |e.points| ==> e.points[m].id != e.points[j].id
    ensures var r, id := SaveDevice(db, connIds, e), e.points[j].id;
            && db.points.last <= r.points.last && id in r.points.rows
            && r.points.rows[id].deviceId == db.points.rows[id].deviceId
            && StoredAs(r.points.rows[id].point, e.points[j].value)
  {
    var own := Owned(e.points, DeviceTarget(db.devices, e.id));
    assert forall m :: 0 <= m < |own| ==> own[m].id == e.points[m].id;
    ReplayTouched(db.points, own, KeepOwner, j);
  }

  /**
    A data point that is there, given for a device on a connection of the payload, holds afterwards what
    the last entry with its id says, and stays on the device it was on.
  */
  lemma ImportUpdatesPoint(db: Tables, p: Payload, i: nat, j: nat)
    requires Consistent(db) && ValidPayload(p) && i < |p.devices| && j < |p.devices[i].points|
    requires Listed(p.conns, p.devices[i].device.connectionId) && p.devices[i].points[j].id in db.points.rows
    requires forall m :: j < m < |p.devices[i].points| ==> p.devices[i].points[m].id != p.devices[i].points[j].id
    requires forall k :: i < k < |p.devices| ==> !Names(p.devices[k], p.devices[i].points[j].id)
    ensures var id, after := p.devices[i].points[j].id, Import(db, p).points.rows;
            && id in after && after[id].deviceId == db.points.rows[id].deviceId
            && StoredAs(after[id].point, p.devices[i].points[j].value)
  {
    hide SaveDevice, SaveDevices, StoredAs, Names, Replay, ConnIds, Listed;
    var connIds, start := ConnIds(db.conns, p.conns), db.(conns := Replay(db.conns, p.conns, Replace));
    AllListedLand(db.conns, p.conns, p.devices[i].device.connectionId);
    PointTouched(start, connIds, p.devices, i, j);
  }

  lemma PointTouched(db: Tables, connIds: map<int, int>, es: seq<DeviceEntry>, i: nat, j: nat)
    requires i < |es| && j < |es[i].points| && es[i].device.connectionId in connIds
    requires var id := es[i].points[j].id; id != 0 && id in db.points.rows && id <= db.points.last
    requires forall m :: j < m < |es[i].points| ==> es[i].points[m].id != es[i].points[j].id
    requires forall k :: i < k < |es| ==> !Names(es[k], es[i].points[j].id)
    ensures var id, after := es[i].points[j].id, SaveDevices(db, connIds, es).points.rows;
            && id in after && after[id].deviceId == db.points.rows[id].deviceId
            && StoredAs(after[id].point, es[i].points[j].value)
  {
    hide SaveDevice, SaveDevices, StoredAs, Names;
    var e, id := es[i], es[i].points[j].id;
    PointStays(db, connIds, es[..i], id);
    SaveDevicesNext(db, connIds, es[..i], e);
    var before := SaveDevices(db, connIds, es[..i]);
    OnePointTouched(before, connIds, e, j);
    PointUntouched(SaveDevice(before, connIds, e), connIds, es[i + 1..], id);
    assert es == es[..i] + [e] + es[i + 1..];
    SaveDevicesSplit(db, connIds, es[..i] + [e], es[i + 1..]);
  }

  lemma ImportKeepsPoint(db: Tables, p: Payload, id: int)
    requires Consistent(db) && ValidPayload(p) && id in db.points.rows
    requires forall k :: 0 <= k < |p.devices| ==> !Names(p.devices[k], id)
    ensures id in Import(db, p).points.rows && Import(db, p).points.rows[id] == db.points.rows[id]
  {
    PointUntouched(db.(conns := Replay(db.conns, p.conns, Replace)), ConnIds(db.conns, p.conns), p.devices, id);
  }
}

/** The import and export handlers of gateway/internal/api/configio.go, over the three tables they update. */
module ConfigServer {
  import opened Common
  import opened Restore
  import C = ConfigImport
  import Decode

  // ---------------------------------------------------------------- what an import keeps

  lemma {:induction false} ConnIdsPoint(t: Table<C.Connection>, es: seq<Entry<C.Connection>>)
    requires forall id :: id in t.rows ==> 0 < id <= t.last
    ensures var r := Replay(t, es, C.Replace);
            && (forall id :: id in r.rows ==> 0 < id <= r.last)
            && t.rows.Keys <= r.rows.Keys
            && (forall id :: id in C.ConnIds(t, es) ==> C.ConnIds(t, es)[id] in r.rows)
  {
    if es != [] {
      ConnIdsPoint(t, es[..|es| - 1]);
    }
  }

  predicate GoodRow(row: C.PointRow, devices: set<int>) {
    row.deviceId in devices && row.point.priority != ""
  }

  lemma DeviceKeeps(db: C.Tables, connIds: map<int, int>, e: C.DeviceEntry)
    requires C.Consistent(db) && forall id :: id in connIds ==> connIds[id] in db.conns.rows
    ensures C.Consistent(C.SaveDevice(db, connIds, e))
  {
    if e.device.connectionId in connIds {
      var r := C.SaveDevice(db, connIds, e);
      var id := C.DeviceTarget(db.devices, e.id);
      var keys := db.devices.Keys + {id};
      assert r.devices.Keys == keys;
      ReplayKeeps(db.points, C.Owned(e.points, id), C.KeepOwner, row => GoodRow(row, keys));
    }
  }

  lemma {:induction false} DevicesKeep(db: C.Tables, connIds: map<int, int>, es: seq<C.DeviceEntry>)
    requires C.Consistent(db) && forall id :: id in connIds ==> connIds[id] in db.conns.rows
    ensures C.Consistent(C.SaveDevices(db, connIds, es))
  {
    if es != [] {
      var front := es[..|es| - 1];
      DevicesKeep(db, connIds, front);
      C.DevicesLeaveConns(db, connIds, front);
      DeviceKeeps(C.SaveDevices(db, connIds, front), connIds, es[|es| - 1]);
    }
  }

  /** Any payload leaves every device on a connection that exists and every data point on a device that exists. */
  lemma ImportKeepsConsistent(db: C.Tables, p: C.Payload)
    requires C.Consistent(db)
    ensures C.Consistent(C.Import(db, p))
  {
    ConnIdsPoint(db.conns, p.conns);
    DevicesKeep(db.(conns := Replay(db.conns, p.conns, C.Replace)), C.ConnIds(db.conns, p.conns), p.devices);
  }

  // ---------------------------------------------------------------- listing by id

  /** SELECT id ... ORDER BY id. */
  method SortedIds(ids: set<int>) returns (s: seq<int>)
    ensures forall id :: id in s <==> id in ids
    ensures forall j, k :: 0 <= j < k < |s| ==> s[j] < s[k]
  {
    s := [];
    var left := ids;
    while left != {}
      invariant left <= ids && forall id :: id in ids <==> id in left || id in s
      invariant forall j, k :: 0 <= j < k < |s| ==> s[j] < s[k]
      invariant forall id, k :: id in left && 0 <= k < |s| ==> s[k] < id
      decreases |left|
    {
      var least := Least(left);
      s := s + [least];
      left := left - {least};
    }
  }

  method Least(ids: set<int>) returns (least: int)
    requires ids != {}
    ensures least in ids && forall id :: id in ids ==> least <= id
  {
    least :| least in ids by { NonEmpty(ids); }
    var left := ids - {least};
    while left != {}
      invariant left <= ids && least in ids && forall id :: id in ids ==> least <= id || id in left
      decreases |left|
    {
      var id :| id in left by { NonEmpty(left); }
      left := left - {id};
      if id < least {
        least := id;
      }
    }
  }

  /** The largest id in use, 0 if none: the row id SQLite gives next is one more. */
  method Largest(ids: set<int>) returns (largest: int)
    ensures largest == C.MaxId(ids)
  {
    largest := 0;
    var left := ids;
    while left != {}
      invariant left <= ids && largest >= 0 && (largest == 0 || largest in ids)
      invariant forall id :: id in ids ==> id <= largest || id in left
      decreases |left|
    {
      var id :| id in left by { NonEmpty(left); }
      left := left - {id};
      if id > largest {
        largest := id;
      }
    }
  }

  /** Why an entry was refused or skipped. */
  datatype Problem =
    | BadConnection(name: string)
    | BadDevice(name: string)
    | BadPoint(name: string, tag: string)
    | UnknownConnection(name: string, connectionId: int)
    | SaveFailed(name: string)

  datatype Outcome = Outcome(
    connsCreated: nat, connsUpdated: nat, devicesCreated: nat, devicesUpdated: nat, pointsCreated: nat,
    pointsUpdated: nat, errors: seq<Problem>)

  /** Connection.Validate: the first complaint, if any. */
  method CheckConnection(c: C.Connection) returns (complaint: Option<string>)
    ensures complaint.None? <==> C.ValidConnection(c)
  {
    if c.name == "" {
      return Some("name is required");
    }
    if c.protocol == "TCP" {
      if c.ipAddress == "" {
        return Some("ip_address is required for TCP connections");
      }
      if c.port <= 0 || c.port > 65535 {
        return Some("port must be between 1 and 65535");
      }
    } else if c.protocol == "RTU" {
      if c.iface == "" {
        return Some("interface is required for RTU connections");
      }
      if c.baudRate <= 0 {
        return Some("baud_rate must be positive");
      }
      if c.parity != "N" && c.parity != "E" && c.parity != "O" {
        return Some("parity must be one of N, E, O");
      }
    } else {
      return Some("protocol must be RTU or TCP");
    }
    if c.timeoutMs <= 0 {
      return Some("timeout_ms must be positive");
    }
    if c.retry < 0 {
      return Some("retry must not be negative");
    }
    if c.nextDeviceDelayMs < 0 {
      return Some("next_device_delay_ms must not be negative");
    }
    return None;
  }

  /** Device.Validate. */
  method CheckDevice(d: C.Device) returns (complaint: Option<string>)
    ensures complaint.None? <==> C.ValidDevice(d)
  {
    if d.name == "" {
      return Some("name is required");
    }
    if d.connectionId <= 0 {
      return Some("connection_id is required");
    }
    if d.slaveId < 1 || d.slaveId > 247 {
      return Some("slave_id must be between 1 and 247");
    }
    return None;
  }

  /** DataPoint.Validate. */
  method CheckPoint(p: C.Point) returns (complaint: Option<string>)
    ensures complaint.None? <==> C.ValidPoint(p)
  {
    if p.tagName == "" {
      return Some("tag_name is required");
    }
    if p.functionCode != 1 && p.functionCode != 2 && p.functionCode != 3 && p.functionCode != 4 {
      return Some("function_code must be one of 1, 2, 3, 4");
    }
    if Decode.ByteWidth(p.dataType).None? {
      return Some("unknown data type");
    }
    var q := p.priority;
    if q != "CRITICAL" && q != "HIGH" && q != "NORMAL" && q != "LOW" && q != "" {
      return Some("priority must be one of CRITICAL, HIGH, NORMAL, LOW");
    }
    if p.scale.bits == 0 || p.scale.bits == 9_223_372_036_854_775_808 {
      return Some("scale must not be zero");
    }
    return None;
  }

  /** The first pass over the payload: one problem or more, unless every entry is valid. */
  method Validate(p: C.Payload) returns (errors: seq<Problem>)
    ensures errors == [] <==> C.ValidPayload(p)
  {
    errors := [];
    for i := 0 to |p.conns|
      invariant errors == [] <==> forall k :: 0 <= k < i ==> C.ValidConnection(p.conns[k].value)
    {
      var complaint := CheckConnection(p.conns[i].value);
      if complaint.Some? {
        errors := errors + [BadConnection(p.conns[i].value.name)];
      }
    }
    ghost var connsValid := forall k :: 0 <= k < |p.conns| ==> C.ValidConnection(p.conns[k].value);
    for i := 0 to |p.devices|
      invariant errors == [] <==> connsValid && forall k :: 0 <= k < i ==> C.ValidEntry(p.devices[k])
    {
      var e := p.devices[i];
      var complaint := CheckDevice(e.device);
      if complaint.Some? {
        errors := errors + [BadDevice(e.device.name)];
      } else {
        ghost var before := errors == [];
        for j := 0 to |e.points|
          invariant errors == [] <==> before && forall k :: 0 <= k < j ==> C.ValidPoint(e.points[k].value)
        {
          var problem := CheckPoint(e.points[j].value);
          if problem.Some? {
            errors := errors + [BadPoint(e.device.name, e.points[j].value.tagName)];
          }
        }
      }
    }
  }

  // ---------------------------------------------------------------- database failures

  /** Which saves the database refuses, by the entry's place in the payload (for a point: device, then point). */
  datatype Faults = Faults(conn: nat -> bool, device: nat -> bool, point: nat -> nat -> bool)

  function Kept<T(!new)>(es: seq<T>, fails: nat -> bool): seq<T> {
    if es == [] then []
    else
      var n := |es| - 1;
      Kept(es[..n], fails) + if fails(n) then [] else [es[n]]
  }

  function KeptDevices(es: seq<C.DeviceEntry>, f: Faults): seq<C.DeviceEntry> {
    if es == [] then []
    else
      var n := |es| - 1;
      KeptDevices(es[..n], f) + if f.device(n) then [] else [es[n].(points := Kept(es[n].points, f.point(n)))]
  }

  /** The payload without the entries whose save fails. */
  function Surviving(p: C.Payload, f: Faults): C.Payload {
    C.Payload(Kept(p.conns, f.conn), KeptDevices(p.devices, f))
  }

  lemma KeptNext<T(!new)>(es: seq<T>, fails: nat -> bool, i: nat)
    requires i < |es|
    ensures Kept(es[..i + 1], fails) == if fails(i) then Kept(es[..i], fails) else Kept(es[..i], fails) + [es[i]]
  {
    assert es[..i + 1][..i] == es[..i];
  }

  lemma KeptDevicesNext(es: seq<C.DeviceEntry>, f: Faults, i: nat)
    requires i < |es|
    ensures KeptDevices(es[..i + 1], f) == if f.device(i) then KeptDevices(es[..i], f)
            else KeptDevices(es[..i], f) + [es[i].(points := Kept(es[i].points, f.point(i)))]
  {
    assert es[..i + 1][..i] == es[..i];
  }

  lemma {:induction false} KeptAre<T(!new)>(es: seq<T>, fails: nat -> bool)
    ensures |Kept(es, fails)| <= |es| && forall e :: e in Kept(es, fails) ==> e in es
  {
    if es != [] {
      KeptAre(es[..|es| - 1], fails);
    }
  }

  lemma {:induction false} KeptDevicesAre(es: seq<C.DeviceEntry>, f: Faults)
    ensures forall e :: e in KeptDevices(es, f) ==> exists i :: 0 <= i < |es| && Reduces(es[i], e)
  {
    if es != [] {
      var n := |es| - 1;
      KeptDevicesAre(es[..n], f);
      forall e | e in KeptDevices(es, f) ensures exists i :: 0 <= i < |es| && Reduces(es[i], e) {
        if e in KeptDevices(es[..n], f) {
          var i :| 0 <= i < n && Reduces(es[..n][i], e);
          assert Reduces(es[i], e);
        } else {
          KeptAre(es[n].points, f.point(n));
          assert Reduces(es[n], e);
        }
      }
    }
  }

  /** The same device with some of its points. */
  ghost predicate Reduces(whole: C.DeviceEntry, e: C.DeviceEntry) {
    e.id == whole.id && e.device == whole.device && forall q :: q in e.points ==> q in whole.points
  }

  lemma SurvivingValid(p: C.Payload, f: Faults)
    requires C.ValidPayload(p)
    ensures C.ValidPayload(Surviving(p, f))
  {
    hide C.ValidConnection, C.ValidDevice, C.ValidPoint;
    KeptAre(p.conns, f.conn);
    KeptDevicesAre(p.devices, f);
    var q := Surviving(p, f);
    forall k | 0 <= k < |q.conns| ensures C.ValidConnection(q.conns[k].value) {
      assert q.conns[k] in p.conns;
    }
    forall k | 0 <= k < |q.devices| ensures C.ValidEntry(q.devices[k]) {
      assert q.devices[k] in q.devices;
      var i :| 0 <= i < |p.devices| && Reduces(p.devices[i], q.devices[k]);
      assert C.ValidEntry(p.devices[i]);
      forall j | 0 <= j < |q.devices[k].points| ensures C.ValidPoint(q.devices[k].points[j].value) {
        assert q.devices[k].points[j] in p.devices[i].points;
      }
    }
  }

  lemma SurvivingRepeats(db: C.Tables, p: C.Payload, f: Faults)
    requires C.Repeats(db, p)
    ensures C.Repeats(db, Surviving(p, f))
  {
    KeptAre(p.conns, f.conn);
    KeptDevicesAre(p.devices, f);
    var q := Surviving(p, f);
    forall k | 0 <= k < |q.conns|
      ensures q.conns[k].id in db.conns.rows && q.conns[k].value == db.conns.rows[q.conns[k].id]
    {
      assert q.conns[k] in p.conns;
    }
    forall k | 0 <= k < |q.devices| ensures C.Agrees(db, q.devices[k]) {
      assert q.devices[k] in q.devices;
      var i :| 0 <= i < |p.devices| && Reduces(p.devices[i], q.devices[k]);
      assert C.Agrees(db, p.devices[i]);
      forall j | 0 <= j < |q.devices[k].points| ensures q.devices[k].points[j] in p.devices[i].points {}
    }
  }

  /** The errors reported for the devices: one for each skipped or failed device, else one for each failed point. */
  function Refused(es: seq<C.DeviceEntry>, f: Faults, connIds: map<int, int>): nat {
    if es == [] then 0
    else
      var n := |es| - 1;
      KeptAre(es[n].points, f.point(n));
      Refused(es[..n], f, connIds) +
      if es[n].device.connectionId !in connIds || f.device(n) then 1
      else |es[n].points| - |Kept(es[n].points, f.point(n))|
  }

  /** How many devices of a payload are on a connection that was imported. */
  function Placed(es: seq<C.DeviceEntry>, connIds: map<int, int>): nat {
    if es == [] then 0
    else
      var n := |es| - 1;
      Placed(es[..n], connIds) + if es[n].device.connectionId in connIds then 1 else 0
  }

  /** How many data points those devices have. */
  function Offered(es: seq<C.DeviceEntry>, connIds: map<int, int>): nat {
    if es == [] then 0
    else
      var n := |es| - 1;
      Offered(es[..n], connIds) + if es[n].device.connectionId in connIds then |es[n].points| else 0
  }

  /** Nothing fails. */
  ghost predicate NoFaults(p: C.Payload, f: Faults) {
    && (forall k :: 0 <= k < |p.conns| ==> !f.conn(k))
    && (forall k :: 0 <= k < |p.devices| ==> Saves(p.devices[k], f, k))
  }

  /** The k-th device and all of its points are saved. */
  ghost predicate Saves(e: C.DeviceEntry, f: Faults, k: nat) {
    !f.device(k) && forall j :: 0 <= j < |e.points| ==> !f.point(k)(j)
  }

  lemma {:induction false} KeepsAll<T(!new)>(es: seq<T>, fails: nat -> bool)
    requires forall k :: 0 <= k < |es| ==> !fails(k)
    ensures Kept(es, fails) == es
  {
    if es != [] {
      KeepsAll(es[..|es| - 1], fails);
    }
  }

  lemma {:induction false} KeepsAllDevices(es: seq<C.DeviceEntry>, f: Faults)
    requires forall k :: 0 <= k < |es| ==> Saves(es[k], f, k)
    ensures KeptDevices(es, f) == es
  {
    hide Kept, Saves;
    if es != [] {
      var n := |es| - 1;
      var front, last := es[..n], es[n];
      assert forall k :: 0 <= k < n ==> front[k] == es[k];
      KeepsAllDevices(front, f);
      assert Saves(last, f, n);
      SavedWhole(last, f, n);
      assert KeptDevices(es, f) == KeptDevices(front, f) + [last];
    }
  }

  lemma SavedWhole(e: C.DeviceEntry, f: Faults, k: nat)
    requires Saves(e, f, k)
    ensures !f.device(k) && e.(points := Kept(e.points, f.point(k))) == e
  {
    KeepsAll(e.points, f.point(k));
  }

  /** Without failures the whole payload survives, and each device is either placed or reported, once. */
  lemma AllAccounted(p: C.Payload, f: Faults, connIds: map<int, int>)
    requires NoFaults(p, f)
    ensures Surviving(p, f) == p
    ensures Placed(p.devices, connIds) + Refused(p.devices, f, connIds) == |p.devices|
  {
    KeepsAll(p.conns, f.conn);
    KeepsAllDevices(p.devices, f);
    EachOnce(p.devices, f, connIds);
  }

  lemma {:induction false} EachOnce(es: seq<C.DeviceEntry>, f: Faults, connIds: map<int, int>)
    requires forall k :: 0 <= k < |es| ==> Saves(es[k], f, k)
    ensures Placed(es, connIds) + Refused(es, f, connIds) == |es|
  {
    if es != [] {
      var n := |es| - 1;
      assert forall k :: 0 <= k < n ==> es[..n][k] == es[k];
      EachOnce(es[..n], f, connIds);
      assert Saves(es[n], f, n);
      KeepsAll(es[n].points, f.point(n));
      hide Saves, Kept;
    }
  }

  class Server {
    var db: C.Tables

    constructor (db: C.Tables)
      requires C.Consistent(db)
      ensures this.db == db
    {
      this.db := db;
    }

    method ExportPoints(deviceId: int) returns (es: seq<Entry<C.Point>>)
      requires C.Consistent(db) && deviceId in db.devices
      ensures C.ListsDevice(db, C.DeviceEntry(deviceId, db.devices[deviceId], es))
    {
      var rows := db.points.rows;
      var ids := SortedIds(set id | id in rows && rows[id].deviceId == deviceId);
      es := [];
      for i := 0 to |ids|
        invariant |es| == i && forall k :: 0 <= k < i ==> ids[k] in rows && es[k] == Entry(ids[k], rows[ids[k]].point)
      {
        assert ids[i] in ids;
        es := es + [Entry(ids[i], rows[ids[i]].point)];
      }
      forall k | 0 <= k < |es| ensures ids[k] in rows && rows[ids[k]].deviceId == deviceId {
        assert ids[k] in ids;
      }
      forall id | id in rows && rows[id].deviceId == deviceId ensures C.Listed(es, id) {
        assert id in ids;
        var k :| 0 <= k < |ids| && ids[k] == id;
        assert es[k].id == id;
      }
    }

    /** Every consistent configuration has its export. */
    method Export() returns (p: C.Payload)
      requires C.Consistent(db)
      ensures C.IsExport(db, p)
    {
      var connIds := SortedIds(db.conns.rows.Keys);
      var conns := [];
      for i := 0 to |connIds|
        invariant |conns| == i && forall k :: 0 <= k < i ==>
                    connIds[k] in db.conns.rows && conns[k] == Entry(connIds[k], db.conns.rows[connIds[k]])
      {
        assert connIds[i] in connIds;
        conns := conns + [Entry(connIds[i], db.conns.rows[connIds[i]])];
      }
      forall id | id in db.conns.rows ensures C.Listed(conns, id) {
        assert id in connIds;
        var k :| 0 <= k < |connIds| && connIds[k] == id;
        assert conns[k].id == id;
      }
      var ids := SortedIds(db.devices.Keys);
      var devices: seq<C.DeviceEntry> := [];
      for i := 0 to |ids|
        invariant |devices| == i
        invariant forall k :: 0 <= k < i ==>
                    ids[k] in db.devices && devices[k].id == ids[k] && C.ListsDevice(db, devices[k])
      {
        assert ids[i] in ids;
        var points := ExportPoints(ids[i]);
        devices := devices + [C.DeviceEntry(ids[i], db.devices[ids[i]], points)];
      }
      forall id | id in db.devices ensures C.DeviceListed(devices, id) {
        assert id in ids;
        var k :| 0 <= k < |ids| && ids[k] == id;
        assert devices[k].id == id;
      }
      p := C.Payload(conns, devices);
    }

    method ImportConns(es: seq<Entry<C.Connection>>, fails: nat -> bool)
      returns (connIds: map<int, int>, created: nat, updated: nat, errors: seq<Problem>)
      modifies this
      ensures db == old(db).(conns := Replay(old(db).conns, Kept(es, fails), C.Replace))
      ensures connIds == C.ConnIds(old(db).conns, Kept(es, fails))
      ensures created + updated == |Kept(es, fails)| && created == db.conns.last - old(db).conns.last
      ensures |Kept(es, fails)| + |errors| == |es|
    {
      hide Kept, Replay, C.ConnIds;
      connIds, created, updated, errors := map[], 0, 0, [];
      NothingImported(db, fails);
      for i := 0 to |es|
        invariant db == old(db).(conns := Replay(old(db).conns, Kept(es[..i], fails), C.Replace))
        invariant connIds == C.ConnIds(old(db).conns, Kept(es[..i], fails))
        invariant created + updated == |Kept(es[..i], fails)| && created == db.conns.last - old(db).conns.last
        invariant |Kept(es[..i], fails)| + |errors| == i
      {
        KeptNext(es, fails, i);
        if fails(i) {
          errors := errors + [SaveFailed(es[i].value.name)];
        } else {
          ReplayNext(old(db).conns, Kept(es[..i], fails), es[i], C.Replace);
          C.ConnIdsNext(old(db).conns, Kept(es[..i], fails), es[i]);
          var id, isNew := SaveConn(es[i]);
          connIds := connIds[es[i].id := id];
          if isNew {
            created := created + 1;
          } else {
            updated := updated + 1;
          }
        }
      }
      assert es[..|es|] == es;
    }

    /** Get, then Update or Create. */
    method SaveConn(e: Entry<C.Connection>) returns (id: int, isNew: bool)
      modifies this
      ensures db == old(db).(conns := Save(old(db).conns, e, C.Replace))
      ensures id == Target(old(db).conns, e.id)
      ensures db.conns.last == old(db).conns.last + if isNew then 1 else 0
    {
      var t := db.conns;
      if e.id != 0 && e.id in t.rows {
        db := db.(conns := t.(rows := t.rows[e.id := e.value]));
        return e.id, false;
      }
      db := db.(conns := Table(t.rows[t.last + 1 := e.value], t.last + 1));
      return t.last + 1, true;
    }

    method ImportPoints(es: seq<Entry<C.Point>>, fails: nat -> bool, deviceId: int)
      returns (created: nat, updated: nat, errors: seq<Problem>)
      modifies this
      ensures db == old(db).(points := Replay(old(db).points, C.Owned(Kept(es, fails), deviceId), C.KeepOwner))
      ensures created + updated == |Kept(es, fails)| && created == db.points.last - old(db).points.last
      ensures |Kept(es, fails)| + |errors| == |es|
    {
      hide Kept, Replay, C.Owned;
      created, updated, errors := 0, 0, [];
      NoPoints(db, fails, deviceId);
      for i := 0 to |es|
        invariant db == old(db).(points := Replay(old(db).points, C.Owned(Kept(es[..i], fails), deviceId), C.KeepOwner))
        invariant created + updated == |Kept(es[..i], fails)| && created == db.points.last - old(db).points.last
        invariant |Kept(es[..i], fails)| + |errors| == i
      {
        KeptNext(es, fails, i);
        if fails(i) {
          errors := errors + [SaveFailed(es[i].value.tagName)];
        } else {
          ghost var before := Kept(es[..i], fails);
          var row := Entry(es[i].id, C.PointRow(deviceId, C.WithDefault(es[i].value)));
          C.OwnedNext(before, es[i], deviceId);
          ReplayNext(old(db).points, C.Owned(before, deviceId), row, C.KeepOwner);
          var isNew := SavePoint(row);
          if isNew {
            created := created + 1;
          } else {
            updated := updated + 1;
          }
        }
      }
      assert es[..|es|] == es;
    }

    /** Get, then Update, which leaves the owner alone, or Create. */
    method SavePoint(e: Entry<C.PointRow>) returns (isNew: bool)
      modifies this
      ensures db == old(db).(points := Save(old(db).points, e, C.KeepOwner))
      ensures db.points.last == old(db).points.last + if isNew then 1 else 0
    {
      var t := db.points;
      if e.id != 0 && e.id in t.rows {
        db := db.(points := t.(rows := t.rows[e.id := t.rows[e.id].(point := e.value.point)]));
        return false;
      }
      db := db.(points := Table(t.rows[t.last + 1 := e.value], t.last + 1));
      return true;
    }

    /** One device whose connection was imported and whose save goes through, and its points. */
    method ImportDevice(e: C.DeviceEntry, fails: nat -> bool, connIds: map<int, int>, before: Outcome)
        returns (o: Outcome)
      requires e.device.connectionId in connIds
      modifies this
      ensures db == C.SaveDevice(old(db), connIds, e.(points := Kept(e.points, fails)))
      ensures o.connsCreated == before.connsCreated && o.connsUpdated == before.connsUpdated
      ensures |o.errors| + |Kept(e.points, fails)| == |before.errors| + |e.points|
      ensures o.devicesCreated + o.devicesUpdated == before.devicesCreated + before.devicesUpdated + 1
      ensures o.devicesCreated - before.devicesCreated == |db.devices| - |old(db).devices|
      ensures o.pointsCreated + o.pointsUpdated == before.pointsCreated + before.pointsUpdated + |Kept(e.points, fails)|
      ensures o.pointsCreated - before.pointsCreated == db.points.last - old(db).points.last
    {
      hide Kept, Replay;
      o := before;
      var d := e.device.(connectionId := connIds[e.device.connectionId]);
      var id := e.id;
      if e.id != 0 && e.id in db.devices {
        o := o.(devicesUpdated := o.devicesUpdated + 1);
      } else {
        var largest := Largest(db.devices.Keys);
        id := largest + 1;
        assert id !in db.devices;
        o := o.(devicesCreated := o.devicesCreated + 1);
      }
      db := db.(devices := db.devices[id := d]);
      var created, updated, errors := ImportPoints(e.points, fails, id);
      o := o.(pointsCreated := o.pointsCreated + created, pointsUpdated := o.pointsUpdated + updated,
              errors := o.errors + errors);
    }

    method ImportDevices(es: seq<C.DeviceEntry>, f: Faults, connIds: map<int, int>, before: Outcome)
        returns (o: Outcome)
      modifies this
      ensures db == C.SaveDevices(old(db), connIds, KeptDevices(es, f))
      ensures o.connsCreated == before.connsCreated && o.connsUpdated == before.connsUpdated
      ensures |o.errors| == |before.errors| + Refused(es, f, connIds)
      ensures Tallied(before, o, KeptDevices(es, f), connIds)
      ensures o.devicesCreated - before.devicesCreated == |db.devices| - |old(db).devices|
      ensures o.pointsCreated - before.pointsCreated == db.points.last - old(db).points.last
    {
      hide C.SaveDevice, C.SaveDevices, Kept, KeptDevices, Refused, Placed, Offered;
      o := before;
      NoDevices(db, f, connIds);
      for i := 0 to |es|
        invariant db == C.SaveDevices(old(db), connIds, KeptDevices(es[..i], f))
        invariant o.connsCreated == before.connsCreated && o.connsUpdated == before.connsUpdated
        invariant |o.errors| == |before.errors| + Refused(es[..i], f, connIds)
        invariant Tallied(before, o, KeptDevices(es[..i], f), connIds)
        invariant o.devicesCreated - before.devicesCreated == |db.devices| - |old(db).devices|
        invariant o.pointsCreated - before.pointsCreated == db.points.last - old(db).points.last
      {
        var e := es[i];
        ghost var kept, reduced := KeptDevices(es[..i], f), e.(points := Kept(e.points, f.point(i)));
        KeptDevicesNext(es, f, i);
        RefusedNext(es, f, connIds, i);
        TallyNext(kept, reduced, connIds);
        C.SaveDevicesNext(old(db), connIds, kept, reduced);
        if e.device.connectionId !in connIds {
          SkippedChangesNothing(db, connIds, reduced);
          o := o.(errors := o.errors + [UnknownConnection(e.device.name, e.device.connectionId)]);
        } else if f.device(i) {
          o := o.(errors := o.errors + [SaveFailed(e.device.name)]);
        } else {
          o := ImportDevice(e, f.point(i), connIds, o);
        }
      }
      assert es[..|es|] == es;
    }

    /** importConfig: refused as a whole and without effect, or carried out but for the entries that fail. */
    method Import(p: C.Payload, f: Faults) returns (ok: bool, o: Outcome)
      requires C.Consistent(db)
      modifies this
      ensures ok == C.ValidPayload(p) && (!ok ==> db == old(db) && o.errors != [])
      ensures ok ==> db == C.Import(old(db), Surviving(p, f))
      ensures C.Consistent(db)
      ensures ok ==> o.connsCreated + o.connsUpdated == |Kept(p.conns, f.conn)|
      ensures ok ==> o.connsCreated == db.conns.last - old(db).conns.last
      ensures ok ==> o.devicesCreated == |db.devices| - |old(db).devices|
      ensures ok ==> o.pointsCreated == db.points.last - old(db).points.last
      ensures ok ==>
                var connIds := C.ConnIds(old(db).conns, Kept(p.conns, f.conn));
                && o.devicesCreated + o.devicesUpdated == Placed(KeptDevices(p.devices, f), connIds)
                && o.pointsCreated + o.pointsUpdated == Offered(KeptDevices(p.devices, f), connIds)
                && |o.errors| + |Kept(p.conns, f.conn)| == |p.conns| + Refused(p.devices, f, connIds)
    {
      hide C.ValidPayload, C.Consistent, Kept, KeptDevices, Replay, Refused, Placed, Offered;
      var errors := Validate(p);
      if errors != [] {
        return false, Outcome(0, 0, 0, 0, 0, 0, errors);
      }
      SurvivingValid(p, f);
      ImportKeepsConsistent(db, Surviving(p, f));
      var connIds, created, updated, problems := ImportConns(p.conns, f.conn);
      C.DevicesLeaveConns(db, connIds, KeptDevices(p.devices, f));
      o := ImportDevices(p.devices, f, connIds, Outcome(created, updated, 0, 0, 0, 0, problems));
      ok := true;
    }

    /** Taking a backup and restoring it at once is a no-op, whatever the database refuses. */
    method ExportThenImport(f: Faults) returns (ok: bool)
      requires C.Consistent(db)
      modifies this
      ensures db == old(db)
    {
      var p := Export();
      C.OwnExportChangesNothing(db, p);
      SurvivingRepeats(db, p, f);
      C.RepeatChangesNothing(db, Surviving(p, f));
      var o;
      ok, o := Import(p, f);
    }
  }

  /** The counts of devices and points have grown by what the given devices offer. */
  ghost predicate Tallied(before: Outcome, o: Outcome, es: seq<C.DeviceEntry>, connIds: map<int, int>) {
    && o.devicesCreated + o.devicesUpdated == before.devicesCreated + before.devicesUpdated + Placed(es, connIds)
    && o.pointsCreated + o.pointsUpdated == before.pointsCreated + before.pointsUpdated + Offered(es, connIds)
  }

  lemma NothingImported(db: C.Tables, fails: nat -> bool)
    ensures Kept<Entry<C.Connection>>([], fails) == [] && Replay(db.conns, [], C.Replace) == db.conns
    ensures C.ConnIds(db.conns, []) == map[]
  {}

  lemma NoPoints(db: C.Tables, fails: nat -> bool, deviceId: int)
    ensures Kept<Entry<C.Point>>([], fails) == [] && C.Owned([], deviceId) == []
    ensures Replay(db.points, [], C.KeepOwner) == db.points
  {}

  lemma NoDevices(db: C.Tables, f: Faults, connIds: map<int, int>)
    ensures KeptDevices([], f) == [] && C.SaveDevices(db, connIds, []) == db
    ensures Refused([], f, connIds) == Placed([], connIds) == Offered([], connIds) == 0
  {}

  lemma RefusedNext(es: seq<C.DeviceEntry>, f: Faults, connIds: map<int, int>, i: nat)
    requires i < |es|
    ensures |Kept(es[i].points, f.point(i))| <= |es[i].points|
    ensures Refused(es[..i + 1], f, connIds) == Refused(es[..i], f, connIds) +
              if es[i].device.connectionId !in connIds || f.device(i) then 1
              else |es[i].points| - |Kept(es[i].points, f.point(i))|
  {
    KeptAre(es[i].points, f.point(i));
    assert es[..i + 1][..i] == es[..i];
  }

  lemma TallyNext(es: seq<C.DeviceEntry>, e: C.DeviceEntry, connIds: map<int, int>)
    ensures Placed(es + [e], connIds) == Placed(es, connIds) + if e.device.connectionId in connIds then 1 else 0
    ensures Offered(es + [e], connIds)
              == Offered(es, connIds) + if e.device.connectionId in connIds then |e.points| else 0
  {
    assert (es + [e])[..|es|] == es;
  }

  lemma SkippedChangesNothing(db: C.Tables, connIds: map<int, int>, e: C.DeviceEntry)
    requires e.device.connectionId !in connIds
    ensures C.SaveDevice(db, connIds, e) == db
  {}
}

/** gateway/internal/acquisition/manager.go: keeping the running pollers in step with the configuration. */
module Manager {
  import opened Common

  /** Everything but the ids is an opaque token: Reload only compares it. */
  datatype Connection = Connection(id: int, settings: string)
  datatype Device = Device(id: int, connectionId: int, settings: string)
  datatype Point = Point(id: int, settings: string)

  datatype DeviceGroup = DeviceGroup(device: Device, points: seq<Point>)

  /** What one connection's poller runs with. */
  datatype Job = Job(conn: Connection, devices: seq<DeviceGroup>)

  /** The answers of the three repositories to one Reload; None is a database error. */
  datatype Snapshot = Snapshot(devices: Option<seq<Device>>, conns: Option<seq<Connection>>,
                               points: map<int, seq<Point>>)

  function ById(conns: seq<Connection>): map<int, Connection> {
    if conns == [] then map[]
    else
      var n := |conns| - 1;
      ById(conns[..n])[conns[n].id := conns[n]]
  }

  /** The jobs wanted for a list of enabled devices; a device whose connection is not enabled is paused. */
  function Jobs(devices: seq<Device>, conns: map<int, Connection>, points: map<int, seq<Point>>)
    : Option<map<int, Job>>
  {
    if devices == [] then Some(map[])
    else
      var n := |devices| - 1;
      var d := devices[n];
      match Jobs(devices[..n], conns, points)
      case None => None
      case Some(jobs) =>
        if d.connectionId !in conns then Some(jobs)
        else if d.id !in points then None
        else
          var c := conns[d.connectionId];
          var before := if c.id in jobs then jobs[c.id].devices else [];
          Some(jobs[c.id := Job(c, before + [DeviceGroup(d, points[d.id])])])
  }

  /** The configuration a snapshot asks for; None if any query failed. */
  function Wanted(s: Snapshot): Option<map<int, Job>> {
    if s.devices.None? || s.conns.None? then None
    else Jobs(s.devices.value, ById(s.conns.value), s.points)
  }

  function GroupsOf(devices: seq<Device>, id: int, points: map<int, seq<Point>>): seq<DeviceGroup> {
    if devices == [] then []
    else
      var n := |devices| - 1;
      var d := devices[n];
      GroupsOf(devices[..n], id, points) +
      if d.connectionId == id && d.id in points then [DeviceGroup(d, points[d.id])] else []
  }

  lemma {:induction false} ByIdKeys(conns: seq<Connection>)
    ensures forall id :: id in ById(conns) ==> ById(conns)[id].id == id && ById(conns)[id] in conns
    ensures forall c :: c in conns ==> c.id in ById(conns)
  {
    if conns != [] {
      ByIdKeys(conns[..|conns| - 1]);
      assert conns == conns[..|conns| - 1] + [conns[|conns| - 1]];
    }
  }

  predicate HasDevice(devices: seq<Device>, id: int) {
    exists k :: 0 <= k < |devices| && devices[k].connectionId == id
  }

  lemma HasDeviceLast(devices: seq<Device>, id: int)
    requires devices != []
    ensures var n := |devices| - 1;
            HasDevice(devices, id) <==> devices[n].connectionId == id || HasDevice(devices[..n], id)
  {}

  lemma {:induction false} JobsAre(devices: seq<Device>, conns: map<int, Connection>, points: map<int, seq<Point>>)
    requires forall id :: id in conns ==> conns[id].id == id
    requires Jobs(devices, conns, points).Some?
    ensures var jobs := Jobs(devices, conns, points).value;
            && (forall id :: id in jobs ==> id in conns && jobs[id] == Job(conns[id], GroupsOf(devices, id, points)))
            && (forall id :: id in jobs <==> id in conns && HasDevice(devices, id))
  {
    if devices != [] {
      var n := |devices| - 1;
      var d, front := devices[n], devices[..n];
      JobsAre(front, conns, points);
      var jobs := Jobs(devices, conns, points).value;
      forall id ensures HasDevice(devices, id) <==> d.connectionId == id || HasDevice(front, id) {
        HasDeviceLast(devices, id);
      }
      forall id | id !in Jobs(front, conns, points).value && id in conns ensures GroupsOf(front, id, points) == [] {
        assert !HasDevice(front, id);
        NoGroups(front, id, points);
      }
    }
  }

  lemma {:induction false} NoGroups(devices: seq<Device>, id: int, points: map<int, seq<Point>>)
    requires !HasDevice(devices, id)
    ensures GroupsOf(devices, id, points) == []
  {
    if devices != [] {
      HasDeviceLast(devices, id);
      NoGroups(devices[..|devices| - 1], id, points);
    }
  }

  /** `places` are, in order, exactly the places of the devices on connection id. */
  ghost predicate PlacesOf(devices: seq<Device>, id: int, places: seq<nat>) {
    && (forall j :: 0 <= j < |places| ==> places[j] < |devices| && devices[places[j]].connectionId == id)
    && (forall i, j :: 0 <= i < j < |places| ==> places[i] < places[j])
    && (forall k :: 0 <= k < |devices| && devices[k].connectionId == id ==> k in places)
  }

  lemma PlacesGrow(devices: seq<Device>, id: int, before: seq<nat>)
    requires devices != [] && PlacesOf(devices[..|devices| - 1], id, before)
    ensures var n := |devices| - 1;
            PlacesOf(devices, id, if devices[n].connectionId == id then before + [n] else before)
  {
    var n := |devices| - 1;
    var front := devices[..n];
    var places := if devices[n].connectionId == id then before + [n] else before;
    assert forall k :: 0 <= k < n ==> front[k] == devices[k];
    forall k | 0 <= k < |devices| && devices[k].connectionId == id ensures k in places {
      if k < n {
        assert front[k].connectionId == id;
        assert k in before;
      } else {
        assert places[|places| - 1] == k;
      }
    }
  }

  /** The groups are the devices at these places, each with its own points. */
  ghost predicate GroupsAt(devices: seq<Device>, points: map<int, seq<Point>>, places: seq<nat>,
                           groups: seq<DeviceGroup>) {
    && |groups| == |places|
    && forall j :: 0 <= j < |places| ==>
         && places[j] < |devices| && devices[places[j]].id in points
         && groups[j].device == devices[places[j]] && groups[j].points == points[devices[places[j]].id]
  }

  /** The points of every device on the connection could be read. */
  ghost predicate AllRead(devices: seq<Device>, id: int, points: map<int, seq<Point>>) {
    forall k :: 0 <= k < |devices| && devices[k].connectionId == id ==> devices[k].id in points
  }

  lemma AllReadFront(devices: seq<Device>, id: int, points: map<int, seq<Point>>)
    requires devices != [] && AllRead(devices, id, points)
    ensures var n := |devices| - 1;
            AllRead(devices[..n], id, points) && (devices[n].connectionId == id ==> devices[n].id in points)
  {}

  /** The device groups of a connection are its devices, all of them, in order, each with its own points. */
  lemma {:induction false} GroupsAre(devices: seq<Device>, id: int, points: map<int, seq<Point>>)
      returns (places: seq<nat>)
    requires AllRead(devices, id, points)
    ensures PlacesOf(devices, id, places) && GroupsAt(devices, points, places, GroupsOf(devices, id, points))
  {
    places := [];
    if devices == [] {
      return;
    } else {
      hide PlacesOf, GroupsAt, GroupsOf, AllRead;
      var n := |devices| - 1;
      AllReadFront(devices, id, points);
      var before := GroupsAre(devices[..n], id, points);
      PlacesGrow(devices, id, before);
      GroupsGrow(devices, points, before, GroupsOf(devices[..n], id, points));
      GroupsNext(devices, id, points);
      places := if devices[n].connectionId == id then before + [n] else before;
    }
  }

  lemma GroupsNext(devices: seq<Device>, id: int, points: map<int, seq<Point>>)
    requires devices != []
    ensures var n := |devices| - 1;
            var before := GroupsOf(devices[..n], id, points);
            GroupsOf(devices, id, points) ==
              if devices[n].connectionId == id && devices[n].id in points
              then before + [DeviceGroup(devices[n], points[devices[n].id])] else before
  {}

  lemma GroupsGrow(devices: seq<Device>, points: map<int, seq<Point>>, places: seq<nat>, groups: seq<DeviceGroup>)
    requires devices != [] && GroupsAt(devices[..|devices| - 1], points, places, groups)
    ensures GroupsAt(devices, points, places, groups)
    ensures var n := |devices| - 1;
            devices[n].id in points ==>
              GroupsAt(devices, points, places + [n], groups + [DeviceGroup(devices[n], points[devices[n].id])])
  {
    var n := |devices| - 1;
    forall j | 0 <= j < |places| ensures devices[..n][places[j]] == devices[places[j]] {}
  }

  /** Every device whose points could not be read fails the whole snapshot, so a job never lacks one. */
  lemma {:induction false} JobsHavePoints(devices: seq<Device>, conns: map<int, Connection>,
                                          points: map<int, seq<Point>>, k: nat)
    requires Jobs(devices, conns, points).Some? && k < |devices| && devices[k].connectionId in conns
    ensures devices[k].id in points
  {
    var n := |devices| - 1;
    if k < n {
      JobsHavePoints(devices[..n], conns, points, k);
    }
  }

  /** Wanted: one job per enabled connection that has an enabled device, with all of those devices in order. */
  lemma WantedIs(s: Snapshot)
    requires Wanted(s).Some?
    ensures var jobs := Wanted(s).value;
            && (forall id :: id in jobs <==>
                  (exists c :: c in s.conns.value && c.id == id) && HasDevice(s.devices.value, id))
            && (forall id :: id in jobs ==>
                  && jobs[id].conn in s.conns.value && jobs[id].conn.id == id
                  && jobs[id].devices == GroupsOf(s.devices.value, id, s.points))
  {
    ByIdKeys(s.conns.value);
    JobsAre(s.devices.value, ById(s.conns.value), s.points);
  }

  /** The job of a wanted connection has all of its devices, in order, each with its own points. */
  lemma JobIs(s: Snapshot, id: int) returns (places: seq<nat>)
    requires Wanted(s).Some? && id in Wanted(s).value
    ensures PlacesOf(s.devices.value, id, places)
    ensures GroupsAt(s.devices.value, s.points, places, Wanted(s).value[id].devices)
  {
    WantedIs(s);
    ByIdKeys(s.conns.value);
    JobsAre(s.devices.value, ById(s.conns.value), s.points);
    var devices := s.devices.value;
    forall k | 0 <= k < |devices| && devices[k].connectionId == id ensures devices[k].id in s.points {
      JobsHavePoints(devices, ById(s.conns.value), s.points, k);
    }
    places := GroupsAre(devices, id, s.points);
  }

  /** The first half of Reload: the loops that build the connections by id and then the wanted jobs. */
  method BuildWanted(s: Snapshot) returns (r: Option<map<int, Job>>)
    ensures r == Wanted(s)
  {
    if s.devices.None? || s.conns.None? {
      return None;
    }
    var devices, conns := s.devices.value, s.conns.value;
    var byId: map<int, Connection> := map[];
    for i := 0 to |conns|
      invariant byId == ById(conns[..i])
    {
      assert conns[..i + 1][..i] == conns[..i];
      byId := byId[conns[i].id := conns[i]];
    }
    assert conns[..|conns|] == conns && devices[..|devices|] == devices;
    var wanted: map<int, Job> := map[];
    for i := 0 to |devices|
      invariant Jobs(devices[..i], byId, s.points) == Some(wanted)
    {
      assert devices[..i + 1][..i] == devices[..i];
      var d := devices[i];
      if d.connectionId in byId {
        if d.id !in s.points {
          JobsStayFailed(devices, byId, s.points, i + 1);
          return None;
        }
        var conn := byId[d.connectionId];
        var before := if conn.id in wanted then wanted[conn.id].devices else [];
        wanted := wanted[conn.id := Job(conn, before + [DeviceGroup(d, s.points[d.id])])];
      }
    }
    return Some(wanted);
  }

  lemma {:induction false} JobsStayFailed(devices: seq<Device>, conns: map<int, Connection>,
                                          points: map<int, seq<Point>>, n: nat)
    requires n <= |devices| && Jobs(devices[..n], conns, points).None?
    ensures Jobs(devices, conns, points).None?
  {
    if n < |devices| {
      assert devices[..|devices| - 1][..n] == devices[..n];
      JobsStayFailed(devices[..|devices| - 1], conns, points, n);
    } else {
      assert devices[..n] == devices;
    }
  }

  // ---------------------------------------------------------------- the manager

  /** Every snapshot that could be read wants this very job for this connection. */
  predicate AlwaysWanted(series: seq<Snapshot>, id: int, job: Job) {
    forall k :: 0 <= k < |series| ==>
      var wanted := Wanted(series[k]);
      wanted.Some? ==> id in wanted.value && wanted.value[id] == job
  }

  /** A started poller is its place in the list of all pollers ever started. */
  datatype Running = Running(poller: nat, job: Job)

  class PollerManager {
    var running: map<int, Running>
    var started: seq<Job>
    var cancelled: set<nat>

    /** Not cancelled is exactly being in the running map, under one key, with the job it was started with. */
    ghost predicate Valid() reads this {
      && (forall id :: id in running ==>
            && running[id].poller < |started| && running[id].poller !in cancelled
            && started[running[id].poller] == running[id].job)
      && (forall id, other :: id in running && other in running && id != other ==>
          running[id].poller != running[other].poller)
      && (forall p :: 0 <= p < |started| && p !in cancelled ==> Runs(p))
    }

    ghost predicate Runs(p: nat) reads this {
      exists id :: id in running && running[id].poller == p
    }

    constructor ()
      ensures Valid() && running == map[] && started == []
    {
      running, started, cancelled := map[], [], {};
    }

    method Stop(id: int)
      requires Valid() && id in running
      modifies this
      ensures Valid()
      ensures running == old(running) - {id} && started == old(started)
                && cancelled == old(cancelled) + {old(running)[id].poller}
    {
      cancelled := cancelled + {running[id].poller};
      running := running - {id};
      forall p | 0 <= p < |started| && p !in cancelled ensures Runs(p) {
        assert old(Runs(p));
        var k :| k in old(running) && old(running)[k].poller == p;
        assert k in running;
      }
    }

    method Start(id: int, job: Job)
      requires Valid() && id !in running && forall p :: p in cancelled ==> p < |started|
      modifies this
      ensures Valid()
      ensures started == old(started) + [job] && cancelled == old(cancelled)
      ensures running == old(running)[id := Running(|old(started)|, job)]
    {
      running := running[id := Running(|started|, job)];
      started := started + [job];
      forall p | 0 <= p < |started| && p !in cancelled ensures Runs(p) {
        if p < |old(started)| {
          assert old(Runs(p));
          var k :| k in old(running) && old(running)[k].poller == p;
          assert k in running;
        } else {
          assert running[id].poller == p;
        }
      }
    }

    ghost predicate Bounded() reads this { forall p :: p in cancelled ==> p < |started| }

    /** The first loop: cancel whatever is no longer wanted as it is. */
    method StopStale(wanted: map<int, Job>)
      requires Valid() && Bounded()
      modifies this
      ensures Valid() && Bounded() && started == old(started)
      ensures forall id :: id in running <==> id in old(running) && id in wanted && old(running)[id].job == wanted[id]
      ensures forall id :: id in running ==> running[id] == old(running)[id]
    {
      var left := running.Keys;
      while left != {}
        invariant Valid() && Bounded() && started == old(started) && left <= old(running).Keys
        invariant forall id :: id in running <==>
                    id in old(running) && (id in left || (id in wanted && old(running)[id].job == wanted[id]))
        invariant forall id :: id in running ==> running[id] == old(running)[id]
        decreases |left|
      {
        var id: int :| id in left by { NonEmpty(left); }
        left := left - {id};
        if id !in wanted || running[id].job != wanted[id] {
          Stop(id);
        }
      }
    }

    /** The second loop: start whatever is wanted and not running. */
    method StartMissing(wanted: map<int, Job>)
      requires Valid() && Bounded()
      requires forall id :: id in running ==> id in wanted && running[id].job == wanted[id]
      modifies this
      ensures Valid() && Bounded()
      ensures running.Keys == wanted.Keys && forall id :: id in wanted ==> running[id].job == wanted[id]
      ensures forall id :: id in old(running) ==> running[id] == old(running)[id]
      ensures old(started) <= started
    {
      var left := wanted.Keys;
      while left != {}
        invariant Valid() && Bounded() && left <= wanted.Keys
        invariant forall id :: id in running ==> id in wanted && running[id].job == wanted[id]
        invariant forall id :: id in wanted ==> id in running || id in left
        invariant forall id :: id in old(running) ==> id in running && running[id] == old(running)[id]
        invariant old(started) <= started
        decreases |left|
      {
        var id: int :| id in left by { NonEmpty(left); }
        left := left - {id};
        if id !in running {
          Start(id, wanted[id]);
        }
      }
      assert forall id :: id in wanted <==> id in running;
    }

    /**
      Reload: after it the live pollers are exactly the wanted jobs, one per connection; a job that
      did not change keeps its poller; a failed query changes nothing.
    */
    method Reload(s: Snapshot) returns (ok: bool)
      requires Valid() && Bounded()
      modifies this
      ensures Valid() && Bounded() && ok == Wanted(s).Some?
      ensures !ok ==> running == old(running) && started == old(started) && cancelled == old(cancelled)
      ensures ok ==> running.Keys == Wanted(s).value.Keys
      ensures ok ==> forall id :: id in running ==> running[id].job == Wanted(s).value[id]
      ensures ok ==>
                forall id :: id in running && id in old(running) && old(running)[id].job == Wanted(s).value[id] ==>
                    running[id] == old(running)[id]
      ensures old(started) <= started
    {
      var wanted := BuildWanted(s);
      if wanted.None? {
        return false;
      }
      StopStale(wanted.value);
      StartMissing(wanted.value);
      return true;
    }

    /**
      Over any series of reloads, the pollers are those of the last one that succeeded, and a
      connection that is wanted unchanged all along keeps the poller it had.
    */
    method ReloadAll(series: seq<Snapshot>) returns (last: Option<nat>)
      requires Valid() && Bounded()
      modifies this
      ensures Valid() && Bounded()
      ensures last.None? ==> (forall k :: 0 <= k < |series| ==> Wanted(series[k]).None?) && running == old(running)
      ensures last.Some? ==>
                && last.value < |series| && Wanted(series[last.value]).Some?
                && (forall k :: last.value < k < |series| ==> Wanted(series[k]).None?)
                && running.Keys == Wanted(series[last.value]).value.Keys
                && forall id :: id in running ==> running[id].job == Wanted(series[last.value]).value[id]
      ensures forall id :: id in old(running) && AlwaysWanted(series, id, old(running)[id].job) ==>
                id in running && running[id] == old(running)[id]
    {
      last := None;
      for i := 0 to |series|
        invariant Valid() && Bounded()
        invariant last.None? ==> (forall k :: 0 <= k < i ==> Wanted(series[k]).None?) && running == old(running)
        invariant last.Some? ==>
                    && last.value < i && Wanted(series[last.value]).Some?
                    && (forall k :: last.value < k < i ==> Wanted(series[k]).None?)
                    && running.Keys == Wanted(series[last.value]).value.Keys
                    && forall id :: id in running ==> running[id].job == Wanted(series[last.value]).value[id]
        invariant forall id :: id in old(running) && AlwaysWanted(series, id, old(running)[id].job) ==>
                    id in running && running[id] == old(running)[id]
      {
        var ok := Reload(series[i]);
        if ok {
          last := Some(i);
        }
      }
    }
  }
}

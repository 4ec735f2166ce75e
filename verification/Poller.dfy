/** gateway/internal/acquisition/poller.go: one connection's endless round-robin scan. */
module Poller {
  import opened Common
  import opened Decode
  import opened BlockPlan
  import opened PlanFacts
  import opened BlockReads

  // ---------------------------------------------------------------- errors and qualities

  /** A transport error as QualityFromError inspects it; the message is in lower case. */
  datatype NetError = NetError(timeout: bool, closed: bool, dns: bool, message: string)

  predicate Mentions(message: string, phrase: string) {
    exists i :: 0 <= i <= |message| && phrase <= message[i..]
  }

  const OFFLINE_PHRASES := ["connection refused", "actively refused", "no route to host", "host unreachable",
                            "network unreachable", "broken pipe", "connection reset", "forcibly closed",
                            "device or resource busy", "no such device", "cannot find the file specified"]

  /** A failed read or connect is never GOOD. */
  function QualityFromError(e: NetError): (q: string)
    ensures q != GOOD
  {
    if e.timeout then "TIMEOUT"
    else if e.closed || e.dns then "DEVICE_OFFLINE"
    else if Mentions(e.message, "crc") then "CRC_ERROR"
    else if exists i :: 0 <= i < |OFFLINE_PHRASES| && Mentions(e.message, OFFLINE_PHRASES[i]) then "DEVICE_OFFLINE"
    else INVALID
  }

  /** The classification in the qualities' own names: a timeout first, then the offline kinds, a CRC error, the rest. */
  lemma QualityIs(e: NetError)
    ensures e.timeout ==> QualityFromError(e) == "TIMEOUT"
    ensures !e.timeout && (e.closed || e.dns) ==> QualityFromError(e) == "DEVICE_OFFLINE"
    ensures !e.timeout && !e.closed && !e.dns ==>
              var m := e.message;
              if Mentions(m, "crc") then QualityFromError(e) == "CRC_ERROR"
              else if (|| Mentions(m, "connection refused") || Mentions(m, "actively refused")
                       || Mentions(m, "no route to host") || Mentions(m, "host unreachable")
                       || Mentions(m, "network unreachable") || Mentions(m, "broken pipe")
                       || Mentions(m, "connection reset") || Mentions(m, "forcibly closed")
                       || Mentions(m, "device or resource busy") || Mentions(m, "no such device")
                       || Mentions(m, "cannot find the file specified"))
              then QualityFromError(e) == "DEVICE_OFFLINE"
              else QualityFromError(e) == "INVALID"
  {
    hide Mentions;
    var m, ps := e.message, OFFLINE_PHRASES;
    assert |ps| == 11;
    assert (exists i :: 0 <= i < |ps| && Mentions(m, ps[i])) <==>
           (|| Mentions(m, ps[0]) || Mentions(m, ps[1]) || Mentions(m, ps[2]) || Mentions(m, ps[3])
            || Mentions(m, ps[4]) || Mentions(m, ps[5]) || Mentions(m, ps[6]) || Mentions(m, ps[7])
            || Mentions(m, ps[8]) || Mentions(m, ps[9]) || Mentions(m, ps[10]));
  }

  // ---------------------------------------------------------------- the client

  datatype Reply = Answer(raw: seq<Byte>) | Failure(error: NetError)

  datatype Request = Request(slave: Byte, fc: Byte, start: Word, quantity: Word)

  /** The Modbus client: the unit id it is set to, and every request it has sent. */
  class Client {
    const replies: nat -> Reply
    const connects: nat -> Option<NetError>
    var slave: Byte
    var attempts: nat
    var requests: seq<Request>

    constructor (replies: nat -> Reply, connects: nat -> Option<NetError>)
      ensures this.replies == replies && this.connects == connects && requests == []
    {
      this.replies, this.connects := replies, connects;
      slave, attempts, requests := 0, 0, [];
    }

    method Connect() returns (error: Option<NetError>)
      modifies this
      ensures requests == old(requests) && slave == old(slave)
      ensures attempts == old(attempts) + 1 && error == connects(old(attempts))
    {
      error := connects(attempts);
      attempts := attempts + 1;
    }

    method SetUnitID(id: Byte)
      modifies this
      ensures slave == id && requests == old(requests) && attempts == old(attempts)
    {
      slave := id;
    }

    method Read(fc: Byte, start: Word, quantity: Word) returns (reply: Reply)
      modifies this
      ensures slave == old(slave) && requests == old(requests) + [Request(slave, fc, start, quantity)]
      ensures attempts == old(attempts) && reply == replies(|old(requests)|)
    {
      reply := replies(|requests|);
      requests := requests + [Request(slave, fc, start, quantity)];
    }
  }

  // ---------------------------------------------------------------- one device

  datatype Device = Device(id: int, slaveId: int, points: seq<DataPoint>)

  /** byte(SlaveID). */
  function UnitOf(d: Device): Byte { d.slaveId % 256 }

  datatype Emission = Emission(device: int, point: DataPoint, sample: Sample)

  function Bad(d: Device, p: DataPoint, quality: string): Emission { Emission(d.id, p, Sample(quality, None)) }

  /** What is emitted for one planned block, given the reply to its request. */
  function BlockEmissions(d: Device, b: ReadBlock, reply: Reply): seq<Emission> {
    seq(|b.points|, i requires 0 <= i < |b.points| =>
      match reply
      case Failure(e) => Bad(d, b.points[i], QualityFromError(e))
      case Answer(raw) => Emission(d.id, b.points[i], DecodeFromBlock(b.points[i], raw, b.start)))
  }

  function Emitted(es: seq<Emission>): seq<DataPoint> {
    seq(|es|, i requires 0 <= i < |es| => es[i].point)
  }

  /** Every reading is of device d and has a value exactly when its quality is GOOD. */
  ghost predicate Honest(es: seq<Emission>, d: Device) {
    forall i :: 0 <= i < |es| ==> es[i].device == d.id && (es[i].sample.value.Some? <==> es[i].sample.quality == GOOD)
  }

  lemma BlockEmissionsFacts(d: Device, b: ReadBlock, reply: Reply)
    ensures Emitted(BlockEmissions(d, b, reply)) == b.points && Honest(BlockEmissions(d, b, reply), d)
  {}

  function RequestFor(d: Device, b: ReadBlock): Request { Request(UnitOf(d), b.fc, b.start, b.quantity) }

  /** What is emitted for a list of blocks whose requests are numbered from `first`. */
  function AllEmissions(d: Device, blocks: seq<ReadBlock>, replies: nat -> Reply, first: nat): seq<Emission> {
    if blocks == [] then []
    else
      var n := |blocks| - 1;
      AllEmissions(d, blocks[..n], replies, first) + BlockEmissions(d, blocks[n], replies(first + n))
  }

  lemma {:induction false} AllEmissionsFacts(d: Device, blocks: seq<ReadBlock>, replies: nat -> Reply, first: nat)
    ensures Emitted(AllEmissions(d, blocks, replies, first)) == PointsOf(blocks)
    ensures Honest(AllEmissions(d, blocks, replies, first), d)
  {
    hide BlockEmissions;
    if blocks != [] {
      var n := |blocks| - 1;
      var before := AllEmissions(d, blocks[..n], replies, first);
      var last := BlockEmissions(d, blocks[n], replies(first + n));
      AllEmissionsFacts(d, blocks[..n], replies, first);
      BlockEmissionsFacts(d, blocks[n], replies(first + n));
      assert Emitted(before + last) == Emitted(before) + Emitted(last);
      PointsOfConcat(blocks[..n], [blocks[n]]);
      assert blocks == blocks[..n] + [blocks[n]];
      assert PointsOf([blocks[n]]) == blocks[n].points + PointsOf([]);
    }
  }

  /** readDevice: one request per planned block, and a reading for each of its points either way. */
  method ReadDevice(client: Client, d: Device) returns (readings: seq<Emission>, blocks: seq<ReadBlock>)
    requires client.slave == UnitOf(d)
    modifies client
    ensures Planned(d.points, blocks) && client.attempts == old(client.attempts)
    ensures |client.requests| == |old(client.requests)| + |blocks| && old(client.requests) <= client.requests
    ensures forall i :: 0 <= i < |blocks| ==> client.requests[|old(client.requests)| + i] == RequestFor(d, blocks[i])
    ensures readings == AllEmissions(d, blocks, client.replies, |old(client.requests)|)
  {
    hide Planned, BlockEmissions, UnitOf;
    blocks := PlanBlockReads(d.points);
    readings := [];
    for k := 0 to |blocks|
      invariant client.slave == UnitOf(d) && client.attempts == old(client.attempts)
      invariant |client.requests| == |old(client.requests)| + k && old(client.requests) <= client.requests
      invariant forall i :: 0 <= i < k ==> client.requests[|old(client.requests)| + i] == RequestFor(d, blocks[i])
      invariant readings == AllEmissions(d, blocks[..k], client.replies, |old(client.requests)|)
    {
      var b := blocks[k];
      assert blocks[..k + 1][..k] == blocks[..k];
      var reply := client.Read(b.fc, b.start, b.quantity);
      readings := readings + BlockEmissions(d, b, reply);
    }
    assert blocks[..|blocks|] == blocks;
  }

  // ---------------------------------------------------------------- the scan

  /** A turn of the scan: a failed connect, or one device read. */
  datatype Turn =
    | Offline(error: NetError, readings: seq<Emission>)
    | Visit(index: nat, first: nat, requests: seq<Request>, readings: seq<Emission>)

  /** How many data points the first k devices have. */
  function PointsBefore(devices: seq<Device>, k: nat): nat
    requires k <= |devices|
  {
    if k == 0 then 0 else PointsBefore(devices, k - 1) + |devices[k - 1].points|
  }

  /** The readings are one for each data point of each of the first k devices, in order, without a value. */
  ghost predicate AllBad(es: seq<Emission>, devices: seq<Device>, k: nat, quality: string)
    requires k <= |devices|
  {
    && |es| == PointsBefore(devices, k)
    && forall i, j :: 0 <= i < k && 0 <= j < |devices[i].points| ==> BadAt(es, devices, i, j, quality)
  }

  /** Point j of device i has its reading in its place. */
  ghost predicate BadAt(es: seq<Emission>, devices: seq<Device>, i: nat, j: nat, quality: string)
    requires i < |devices| && j < |devices[i].points|
  {
    var place := PointsBefore(devices, i) + j;
    && place < |es| && es[place].device == devices[i].id && es[place].point == devices[i].points[j]
    && es[place].sample.quality == quality && es[place].sample.value.None?
  }

  function AllRequests(turns: seq<Turn>): seq<Request> {
    if turns == [] then []
    else
      var n := |turns| - 1;
      AllRequests(turns[..n]) + if turns[n].Visit? then turns[n].requests else []
  }

  /** A failed connect reports each data point of each device once, without a value. */
  ghost predicate OfflineOk(t: Turn, devices: seq<Device>) {
    t.Offline? && AllBad(t.readings, devices, |devices|, QualityFromError(t.error))
  }

  /** The turn asks device d for these blocks and reports what the replies to those requests say. */
  ghost predicate Reads(t: Turn, d: Device, replies: nat -> Reply, blocks: seq<ReadBlock>) {
    && t.Visit?
    && Planned(d.points, blocks)
    && |t.requests| == |blocks| && (forall i :: 0 <= i < |blocks| ==> t.requests[i] == RequestFor(d, blocks[i]))
    && t.readings == AllEmissions(d, blocks, replies, t.first)
  }

  ghost predicate VisitOk(t: Turn, devices: seq<Device>, replies: nat -> Reply) {
    t.Visit? && t.index < |devices| && exists blocks :: Reads(t, devices[t.index], replies, blocks)
  }

  /**
    A device read addresses that device only, reports each of its known points exactly once, and a
    reading has a value if and only if its quality is GOOD.
  */
  lemma VisitReports(t: Turn, devices: seq<Device>, replies: nat -> Reply)
    requires VisitOk(t, devices, replies)
    ensures forall i :: 0 <= i < |t.requests| ==> t.requests[i].slave == devices[t.index].slaveId % 256
    ensures forall p :: multiset(Emitted(t.readings))[p] == if Known(p) then multiset(devices[t.index].points)[p] else 0
    ensures Honest(t.readings, devices[t.index])
  {
    var d := devices[t.index];
    var blocks: seq<ReadBlock> :| Reads(t, d, replies, blocks);
    hide Planned, KnownOnly, Known;
    AllEmissionsFacts(d, blocks, replies, t.first);
    PlanPartitions(d.points, blocks);
  }

  lemma {:induction false} FailedBlocks(d: Device, blocks: seq<ReadBlock>, replies: nat -> Reply, first: nat,
                                        e: NetError)
    requires forall k :: first <= k < first + |blocks| ==> replies(k) == Failure(e)
    ensures forall j :: 0 <= j < |AllEmissions(d, blocks, replies, first)| ==>
              AllEmissions(d, blocks, replies, first)[j].sample == Sample(QualityFromError(e), None)
  {
    if blocks != [] {
      FailedBlocks(d, blocks[..|blocks| - 1], replies, first, e);
    }
  }

  /** A device that fails every request with one error is reported with that error's quality, point by point. */
  lemma FailedVisitReports(t: Turn, devices: seq<Device>, replies: nat -> Reply, e: NetError)
    requires VisitOk(t, devices, replies)
    requires forall k :: t.first <= k < t.first + |t.requests| ==> replies(k) == Failure(e)
    ensures forall j :: 0 <= j < |t.readings| ==>
              t.readings[j].sample.quality == QualityFromError(e) && t.readings[j].sample.value.None?
  {
    hide QualityFromError, Planned;
    var d := devices[t.index];
    var blocks: seq<ReadBlock> :| Reads(t, d, replies, blocks);
    FailedBlocks(d, blocks, replies, t.first, e);
  }

  /** The registers behind each function code. */
  type Bank = Byte -> Registers

  /** The device answers every one of the turn's requests from its registers. */
  ghost predicate Answers(t: Turn, replies: nat -> Reply, bank: Bank)
    requires t.Visit?
  {
    forall i :: 0 <= i < |t.requests| ==>
      replies(t.first + i) == Answer(ReadRegisters(bank(t.requests[i].fc), t.requests[i].start, t.requests[i].quantity))
  }

  /** Reading e reports what a read of that point alone would. */
  ghost predicate AsDedicated(e: Emission, bank: Bank) {
    e.point.fc != 1 && e.point.fc != 2 ==> e.sample == DedicatedRead(e.point, bank(e.point.fc))
  }

  ghost predicate AllAsDedicated(es: seq<Emission>, bank: Bank) {
    forall j :: 0 <= j < |es| ==> AsDedicated(es[j], bank)
  }

  lemma BlockAsDedicated(d: Device, blocks: seq<ReadBlock>, k: nat, bank: Bank)
    requires Planned(d.points, blocks) && BatchedInSpace(d.points) && k < |blocks|
    ensures var b := blocks[k];
            var es := BlockEmissions(d, b, Answer(ReadRegisters(bank(b.fc), b.start, b.quantity)));
            AllAsDedicated(es, bank)
  {
    var b := blocks[k];
    PlanPartitions(d.points, blocks);
    assert Uniform(b);
    hide Planned, BatchedInSpace, DecodeFromBlock, DedicatedRead;
    if b.fc != 1 && b.fc != 2 {
      forall j | 0 <= j < |b.points|
        ensures DecodeFromBlock(b.points[j], ReadRegisters(bank(b.fc), b.start, b.quantity), b.start)
                  == DedicatedRead(b.points[j], bank(b.fc))
      {
        BlockReadsPreserveMeaning(d.points, blocks, k, b.points[j], bank(b.fc));
      }
    }
  }

  lemma {:induction false} BlocksAsDedicated(d: Device, blocks: seq<ReadBlock>, n: nat, replies: nat -> Reply,
                                             first: nat, bank: Bank)
    requires Planned(d.points, blocks) && BatchedInSpace(d.points) && n <= |blocks|
    requires forall i :: 0 <= i < n ==>
              replies(first + i) == Answer(ReadRegisters(bank(blocks[i].fc), blocks[i].start, blocks[i].quantity))
    ensures var es := AllEmissions(d, blocks[..n], replies, first);
            AllAsDedicated(es, bank)
  {
    hide Planned, BatchedInSpace, AsDedicated, BlockEmissions;
    if n > 0 {
      BlocksAsDedicated(d, blocks, n - 1, replies, first, bank);
      BlockAsDedicated(d, blocks, n - 1, bank);
      assert blocks[..n][..n - 1] == blocks[..n - 1];
      assert replies(first + (n - 1))
          == Answer(ReadRegisters(bank(blocks[n - 1].fc), blocks[n - 1].start, blocks[n - 1].quantity));
      assert AllEmissions(d, blocks[..n], replies, first)
          == AllEmissions(d, blocks[..n - 1], replies, first)
             + BlockEmissions(d, blocks[n - 1], replies(first + (n - 1)));
    }
  }

  /**
    End to end: if the device answers from its registers and no batched point reaches the top of the
    register space, a device read reports of every FC3/FC4 point what a read of that point alone would.
  */
  lemma VisitReadsAsDedicated(t: Turn, devices: seq<Device>, replies: nat -> Reply, bank: Bank)
    requires VisitOk(t, devices, replies) && BatchedInSpace(devices[t.index].points) && Answers(t, replies, bank)
    ensures AllAsDedicated(t.readings, bank)
  {
    hide Planned, BatchedInSpace, AllEmissions, AllAsDedicated, ReadRegisters, UnitOf;
    var d := devices[t.index];
    var blocks: seq<ReadBlock> :| Reads(t, d, replies, blocks);
    forall i | 0 <= i < |blocks|
      ensures replies(t.first + i) == Answer(ReadRegisters(bank(blocks[i].fc), blocks[i].start, blocks[i].quantity))
    {
      assert t.requests[i] == RequestFor(d, blocks[i]);
    }
    assert blocks[..|blocks|] == blocks;
    BlocksAsDedicated(d, blocks, |blocks|, replies, t.first, bank);
  }

  /** First `c` failed connects, one turn each, then a connect that succeeded and device reads only, in cyclic order. */
  ghost predicate ScanOk(turns: seq<Turn>, devices: seq<Device>, replies: nat -> Reply,
                         connects: nat -> Option<NetError>, c: nat) {
    && c <= |turns|
    && (forall i :: 0 <= i < c ==> OfflineOk(turns[i], devices) && connects(i) == Some(turns[i].error))
    && (c < |turns| ==> connects(c).None?)
    && (forall i :: c <= i < |turns| ==> VisitOk(turns[i], devices, replies))
    && (forall i :: c <= i < |turns| ==> InTurn(turns, devices, c, i))
  }

  /**
    Turn i reads the first device if it is the first read, else the one after turn i-1's; its
    requests follow all requests of the turns before.
  */
  ghost predicate InTurn(turns: seq<Turn>, devices: seq<Device>, c: nat, i: nat)
    requires c <= i < |turns|
  {
    && turns[i].Visit? && turns[i].first == |AllRequests(turns[..i])|
    && (i == c ==> turns[i].index == 0)
    && (i > c ==> turns[i - 1].Visit? && turns[i].index == Successor(turns[i - 1].index, |devices|))
  }

  /** The device after j, the first one after the last. */
  function Successor(j: nat, n: nat): nat { if j + 1 == n then 0 else j + 1 }

  /** Round robin: the k-th device read is of device k modulo their number, after so many full passes. */
  lemma {:induction false} RoundRobin(turns: seq<Turn>, devices: seq<Device>, replies: nat -> Reply,
                                      connects: nat -> Option<NetError>, c: nat, k: nat) returns (passes: nat)
    requires ScanOk(turns, devices, replies, connects, c) && c + k < |turns|
    ensures turns[c + k].Visit? && turns[c + k].index < |devices|
    ensures k == passes * |devices| + turns[c + k].index
  {
    hide OfflineOk, Reads, AllRequests;
    assert VisitOk(turns[c + k], devices, replies) && InTurn(turns, devices, c, c + k);
    passes := 0;
    if k > 0 {
      passes := RoundRobin(turns, devices, replies, connects, c, k - 1);
      if turns[c + k].index == 0 {
        passes := passes + 1;
        assert (passes - 1) * |devices| + |devices| == passes * |devices|;
      }
    }
  }

  /** The device whose turn is next. */
  function NextUp(turns: seq<Turn>, devices: seq<Device>, c: nat): nat {
    if c < |turns| && turns[|turns| - 1].Visit? then Successor(turns[|turns| - 1].index, |devices|) else 0
  }

  // ---------------------------------------------------------------- when the scan ends

  /** Context checks passed before a turn starts: the loop's own, and for a device read the one inside the pass. */
  function Lead(t: Turn): nat { if t.Visit? && t.index == 0 then 2 else 1 }

  /** Context checks in a whole turn: the waits after it check the context as well, a wait of zero does not. */
  function Checks(t: Turn, devices: seq<Device>, paced: bool): nat {
    Lead(t) + if t.Offline? then 1
              else (if |t.readings| > 0 && paced then 1 else 0) + (if t.index + 1 == |devices| then 1 else 0)
  }

  function AllChecks(turns: seq<Turn>, devices: seq<Device>, paced: bool): nat {
    if turns == [] then 0
    else
      var n := |turns| - 1;
      AllChecks(turns[..n], devices, paced) + Checks(turns[n], devices, paced)
  }

  /** Checks before the turn that would come next. */
  function NextLead(turns: seq<Turn>, devices: seq<Device>, connects: nat -> Option<NetError>, c: nat): nat {
    if c == |turns| && connects(c).Some? then 1
    else if NextUp(turns, devices, c) == 0 then 2 else 1
  }

  /**
    The scan ran exactly as long as the context lived: the last turn was started within the budget,
    and the next one would not have been.  Without devices a connection that is up has no turns.
  */
  ghost predicate SpentOk(turns: seq<Turn>, devices: seq<Device>, connects: nat -> Option<NetError>, c: nat,
                          paced: bool, budget: nat) {
    && Afforded(turns, devices, paced, budget)
    && (budget < AllChecks(turns, devices, paced) + NextLead(turns, devices, connects, c)
        || (devices == [] && c == |turns| && connects(c).None?))
  }

  lemma ChecksGrow(turns: seq<Turn>, devices: seq<Device>, paced: bool, t: Turn)
    ensures AllChecks(turns + [t], devices, paced) == AllChecks(turns, devices, paced) + Checks(t, devices, paced)
    ensures (turns + [t])[..|turns|] == turns
  {
    assert (turns + [t])[..|turns|] == turns;
  }

  // ---------------------------------------------------------------- the loops

  /** A failed connect: one reading for each data point of each device, in order, never GOOD and without a value. */
  method EmitAllOffline(devices: seq<Device>, error: NetError) returns (readings: seq<Emission>)
    ensures AllBad(readings, devices, |devices|, QualityFromError(error))
    ensures forall i :: 0 <= i < |readings| ==> readings[i].sample.quality != GOOD && readings[i].sample.value.None?
  {
    readings := [];
    var q := QualityFromError(error);
    for k := 0 to |devices|
      invariant AllBad(readings, devices, k, q)
      invariant forall i :: 0 <= i < |readings| ==> readings[i].sample == Sample(q, None)
    {
      var d := devices[k];
      ghost var before := readings;
      readings := readings + seq(|d.points|, j requires 0 <= j < |d.points| => Bad(d, d.points[j], q));
      forall i, j | 0 <= i < k + 1 && 0 <= j < |devices[i].points| ensures BadAt(readings, devices, i, j, q) {
        if i < k {
          assert BadAt(before, devices, i, j, q);
        }
      }
    }
  }

  method VisitDevice(client: Client, devices: seq<Device>, j: nat) returns (t: Turn)
    requires j < |devices|
    modifies client
    ensures VisitOk(t, devices, client.replies) && t.index == j && t.first == |old(client.requests)|
    ensures client.requests == old(client.requests) + t.requests && client.attempts == old(client.attempts)
  {
    client.SetUnitID(UnitOf(devices[j]));
    var first := |client.requests|;
    var readings, blocks := ReadDevice(client, devices[j]);
    t := Visit(j, first, client.requests[first..], readings);
    assert Reads(t, devices[j], client.replies, blocks);
  }

  lemma ScanGrows(turns: seq<Turn>, devices: seq<Device>, replies: nat -> Reply, connects: nat -> Option<NetError>,
                  c: nat, t: Turn)
    requires ScanOk(turns, devices, replies, connects, c)
    requires || (c == |turns| && OfflineOk(t, devices) && connects(c) == Some(t.error))
             || (&& VisitOk(t, devices, replies) && connects(c).None?
                 && t.index == NextUp(turns, devices, c) && t.first == |AllRequests(turns)|)
    ensures ScanOk(turns + [t], devices, replies, connects, if t.Offline? then c + 1 else c)
    ensures AllRequests(turns + [t]) == AllRequests(turns) + if t.Visit? then t.requests else []
  {
    hide OfflineOk, VisitOk;
    var longer := turns + [t];
    assert longer[..|turns|] == turns;
    Kinds(t, devices, replies);
    if t.Visit? {
      forall i | c <= i < |longer| ensures InTurn(longer, devices, c, i) {
        hide AllRequests;
        assert i < |turns| ==> longer[..i] == turns[..i];
        if i < |turns| {
          assert InTurn(turns, devices, c, i);
        } else if i > c {
          assert InTurn(turns, devices, c, i - 1);
          assert longer[i - 1] == turns[i - 1];
        }
      }
      assert ScanOk(longer, devices, replies, connects, c);
    } else {
      assert ScanOk(longer, devices, replies, connects, c + 1);
    }
  }

  lemma Kinds(t: Turn, devices: seq<Device>, replies: nat -> Reply)
    ensures OfflineOk(t, devices) ==> t.Offline?
    ensures VisitOk(t, devices, replies) ==> t.Visit? && devices != []
  {}

  /**
    runConnectionWithClient.  `budget` is how many context checks pass before the context is
    cancelled, `paced` whether the inter-device delay is positive (a zero delay checks nothing).
    Every failed connect has its turn and every turn before the first device read is one; every
    request ever sent is one of a device read's, in order; and the scan goes on until the budget
    is spent.
  */
  method RunConnection(client: Client, devices: seq<Device>, paced: bool, budget: nat)
      returns (turns: seq<Turn>, c: nat)
    requires client.requests == [] && client.attempts == 0
    modifies client
    ensures ScanOk(turns, devices, client.replies, client.connects, c)
    ensures client.attempts == c || (client.attempts == c + 1 && client.connects(c).None?)
    ensures client.requests == AllRequests(turns)
    ensures SpentOk(turns, devices, client.connects, c, paced, budget)
  {
    hide ScanOk, VisitOk, OfflineOk, AllRequests, AllChecks;
    turns, c := [], 0;
    EmptyScan(devices, client.replies, client.connects, paced);
    var left, connected := budget, false;
    while left > 0
      invariant left <= budget
      invariant ScanOk(turns, devices, client.replies, client.connects, c) && client.requests == AllRequests(turns)
      invariant c <= |turns| && (!connected ==> c == |turns| == client.attempts)
      invariant connected ==> client.attempts == c + 1 && client.connects(c).None?
      invariant connected && devices == [] ==> c == |turns|
      invariant NextUp(turns, devices, c) == 0
      invariant devices != [] || !connected ==> budget == left + AllChecks(turns, devices, paced)
      invariant Afforded(turns, devices, paced, budget)
      decreases left
    {
      ghost var outer := left;
      left := left - 1;
      if !connected {
        var error := client.Connect();
        if error.Some? {
          var readings := EmitAllOffline(devices, error.value);
          var t := Offline(error.value, readings);
          assert OfflineOk(t, devices) by { OfflineTurn(devices, error.value, readings); }
          ScanGrows(turns, devices, client.replies, client.connects, c, t);
          ChecksGrow(turns, devices, paced, t);
          turns, c := turns + [t], c + 1;
          if left == 0 {
            return;
          }
          left := left - 1;
          continue;
        }
        connected := true;
      }
      var j := 0;
      while j < |devices|
        invariant 0 <= j <= |devices| && left < outer
        invariant ScanOk(turns, devices, client.replies, client.connects, c) && client.requests == AllRequests(turns)
        invariant c <= |turns| && client.attempts == c + 1 && client.connects(c).None?
        invariant devices == [] ==> c == |turns|
        invariant NextUp(turns, devices, c) == if j == |devices| then 0 else j
        invariant j == 0 && devices != [] ==> budget == left + AllChecks(turns, devices, paced) + 1
        invariant 0 < j < |devices| ==> budget == left + AllChecks(turns, devices, paced)
        invariant 0 < j == |devices| ==> budget + 1 == left + AllChecks(turns, devices, paced)
        invariant Afforded(turns, devices, paced, budget)
        decreases |devices| - j
      {
        if left == 0 {
          return;
        }
        left := left - 1;
        var t := VisitDevice(client, devices, j);
        assert t.Visit? by { Kinds(t, devices, client.replies); }
        ScanGrows(turns, devices, client.replies, client.connects, c, t);
        ChecksGrow(turns, devices, paced, t);
        turns, j := turns + [t], j + 1;
        if |t.readings| > 0 && paced {
          if left == 0 {
            return;
          }
          left := left - 1;
        }
      }
      if left == 0 {
        return;
      }
      left := left - 1;
    }
  }

  /** The last turn was started within the budget. */
  ghost predicate Afforded(turns: seq<Turn>, devices: seq<Device>, paced: bool, budget: nat) {
    turns != [] ==> AllChecks(turns[..|turns| - 1], devices, paced) + Lead(turns[|turns| - 1]) <= budget
  }

  lemma EmptyScan(devices: seq<Device>, replies: nat -> Reply, connects: nat -> Option<NetError>, paced: bool)
    ensures ScanOk([], devices, replies, connects, 0) && AllRequests([]) == [] && AllChecks([], devices, paced) == 0
  {}

  lemma OfflineTurn(devices: seq<Device>, error: NetError, readings: seq<Emission>)
    requires AllBad(readings, devices, |devices|, QualityFromError(error))
    ensures OfflineOk(Offline(error, readings), devices)
  {}
}

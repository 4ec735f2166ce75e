/**
  Store and forward as one step system: the gateway process with its queue, the forwarder's
  batches, the MQTT adapter's pending map, a network that may lose, delay or repeat messages, and
  the server's deduplicating store.  Each repository call is one atomic step.
*/
module Delivery {
  import opened Common
  import opened Queue
  import opened Server

  /** A committed insert: the reading as handed in, and the sequence number it got. */
  datatype Commit = Commit(entry: Reading, seqId: int)

  /** What the server must end up holding for a committed reading. */
  function Expected(c: Commit): WireEntry {
    WireEntry(c.entry.gateway, c.seqId, c.entry.device, c.entry.datapoint, c.entry.value,
              c.entry.quality, CutMs(c.entry.eventNs), PriorityOrDefault(c.entry.priority))
  }

  datatype Ack = Ack(batch: nat, error: string)

  /** Where dispatchOnce stands with a fetched batch. */
  datatype Stage = Fetched | Waiting | Acked | Failed(error: string)

  datatype Flight = Flight(ids: seq<int>, entries: seq<WireEntry>, stage: Stage)

  datatype Process = Down | Booting | Running

  /**
    `own` are the gateway ids only this gateway uses.  `published` and `acks` hold every message
    ever put on the network: nothing is removed, so each may be delivered late, often or never.
    `log`, `retired`, `evicted`, `failures` and `dispatched` are history; row id n is the n-th
    commit of the log.
  */
  datatype World = World(
    own: set<string>,
    process: Process,
    db: Db,
    flights: map<nat, Flight>,
    used: set<nat>,
    pending: map<nat, Option<Ack>>,
    published: map<nat, seq<WireEntry>>,
    acks: set<Ack>,
    store: map<Key, WireEntry>,
    clock: int,
    log: seq<Commit>,
    retired: set<int>,
    evicted: set<int>,
    failures: map<int, seq<int>>,
    dispatched: seq<int>)

  datatype Step =
    | Boot(gateway: string)
    | StartForwarder(recovered: bool)
    | InsertReading(entry: Reading)
    | Fetch(batch: nat, now: int, limit: int, ids: seq<int>)
    | SendRefused(batch: nat)
    | Publish(batch: nat)
    | IngestMessage(batch: nat, count: nat)
    | Reject(batch: nat, error: string)
    | ForeignEntry(foreign: WireEntry)
    | DeliverAck(ack: Ack)
    | SendReturns(batch: nat)
    | SendTimesOut(batch: nat, error: string)
    | RecordSent(batch: nat, now: int, ok: bool)
    | RecordFailure(batch: nat, nows: seq<int>, ok: bool)
    | EvictRows(limit: int, ids: seq<int>)
    | Retire(cutoff: int)
    | Crash

  function Init(own: set<string>, clock: int): World {
    World(own, Down, Db(map[], 0, map[]), map[], {}, map[], map[], {}, map[], clock, [], {}, {}, map[], [])
  }

  ghost predicate Enabled(w: World, s: Step) {
    match s
    case Boot(g) => w.process == Down && g in w.own
    case StartForwarder(_) => w.process == Booting
    case InsertReading(_) => w.process != Down
    case Fetch(b, now, limit, ids) =>
      w.process == Running && b !in w.used && ids != [] && IsFetch(w.db, now, limit, ids)
    case SendRefused(b) => b in w.flights && w.flights[b].stage == Fetched
    case Publish(b) => b in w.flights && w.flights[b].stage == Fetched
    case IngestMessage(b, n) => b in w.published && n <= |w.published[b]|
    case Reject(b, error) => b in w.published && error != ""
    case ForeignEntry(e) => e.gateway !in w.own
    case DeliverAck(a) => a in w.acks
    case SendReturns(b) =>
      b in w.flights && w.flights[b].stage == Waiting && b in w.pending && w.pending[b].Some?
    case SendTimesOut(b, error) => b in w.flights && w.flights[b].stage == Waiting
    case RecordSent(b, _, _) => b in w.flights && w.flights[b].stage == Acked
    case RecordFailure(b, nows, _) =>
      b in w.flights && w.flights[b].stage.Failed? && |nows| == |w.flights[b].ids| > 0
    case EvictRows(limit, ids) => w.process != Down && IsEviction(w.db, limit, ids)
    case Retire(_) => w.process != Down
    case Crash => w.process != Down
  }

  function InStage(w: World, b: nat, stage: Stage): map<nat, Flight>
    requires b in w.flights
  {
    w.flights[b := w.flights[b].(stage := stage)]
  }

  function AfterInsert(w: World, e: Reading): World {
    if InsertSucceeds(w.db, e) then
      w.(db := Insert(w.db, e), log := w.log + [Commit(e, w.db.lastSeq[e.gateway] + 1)])
    else w
  }

  function AfterFetch(w: World, b: nat, now: int, ids: seq<int>): World
    requires forall i :: 0 <= i < |ids| ==> ids[i] in w.db.rows
  {
    w.(db := MarkSending(w.db, ids),
       flights := w.flights[b := Flight(ids, ToWireEntries(w.db.rows, ids), Fetched)],
       used := w.used + {b}, clock := now, dispatched := w.dispatched + ids)
  }

  function AfterIngest(w: World, b: nat, n: nat): World
    requires b in w.published && n <= |w.published[b]|
  {
    var stored := w.(store := Ingest(w.store, w.published[b][..n]));
    if n == |w.published[b]| then stored.(acks := w.acks + {Ack(b, "")}) else stored
  }

  /** handleAck: only a batch still waited for, and whose one-slot channel is empty, takes the ack. */
  function AfterAck(w: World, a: Ack): World {
    if a.batch in w.pending && w.pending[a.batch].None?
    then w.(pending := w.pending[a.batch := Some(a)]) else w
  }

  function FailuresOf(f: map<int, seq<int>>, id: int): seq<int> {
    if id in f then f[id] else []
  }

  function AddFailures(f: map<int, seq<int>>, ids: seq<int>, nows: seq<int>): map<int, seq<int>>
    requires |nows| == |ids|
  {
    if ids == [] then f
    else
      var n := |ids| - 1;
      var g := AddFailures(f, ids[..n], nows[..n]);
      g[ids[n] := FailuresOf(g, ids[n]) + [nows[n]]]
  }

  function Without<T>(m: map<nat, T>, b: nat): map<nat, T> { m - {b} }

  /** MarkFailed is all or nothing: one row evicted in flight rolls the whole batch back. */
  function AfterFailure(w: World, b: nat, nows: seq<int>, ok: bool): World
    requires b in w.flights && w.flights[b].stage.Failed? && |nows| == |w.flights[b].ids| > 0
  {
    var f := w.flights[b];
    var done := w.(flights := Without(w.flights, b), clock := nows[|nows| - 1]);
    if ok && FailRows(w.db.rows, f.ids, nows, f.stage.error).Some? then
      done.(db := MarkFailed(w.db, f.ids, nows, f.stage.error),
            failures := AddFailures(w.failures, f.ids, nows))
    else done
  }

  ghost function Apply(w: World, s: Step): World
    requires Enabled(w, s)
  {
    match s
    case Boot(g) => w.(process := Booting, db := Ensure(w.db, g))
    case StartForwarder(recovered) =>
      w.(process := Running, db := if recovered then RecoverSending(w.db) else w.db)
    case InsertReading(e) => AfterInsert(w, e)
    case Fetch(b, now, _, ids) => AfterFetch(w, b, now, ids)
    case SendRefused(b) => w.(flights := InStage(w, b, Failed("not connected")))
    case Publish(b) =>
      w.(flights := InStage(w, b, Waiting), pending := w.pending[b := None],
         published := w.published[b := w.flights[b].entries])
    case IngestMessage(b, n) => AfterIngest(w, b, n)
    case Reject(b, error) => w.(acks := w.acks + {Ack(b, error)})
    case ForeignEntry(e) => w.(store := Ingest(w.store, [e]))
    case DeliverAck(a) => AfterAck(w, a)
    case SendReturns(b) =>
      var a := w.pending[b].value;
      w.(flights := InStage(w, b, if a.error == "" then Acked else Failed(a.error)),
         pending := Without(w.pending, b))
    case SendTimesOut(b, error) =>
      w.(flights := InStage(w, b, Failed(error)), pending := Without(w.pending, b))
    case RecordSent(b, now, ok) =>
      w.(flights := Without(w.flights, b), clock := now,
         db := if ok then MarkSent(w.db, w.flights[b].ids, now) else w.db)
    case RecordFailure(b, nows, ok) => AfterFailure(w, b, nows, ok)
    case EvictRows(_, ids) =>
      w.(db := Evict(w.db, ids), evicted := w.evicted + (set id | id in ids))
    case Retire(cutoff) =>
      w.(db := DeleteSentOlderThan(w.db, cutoff), retired := w.retired + ExpiredIds(w.db.rows, cutoff))
    case Crash => w.(process := Down, flights := map[], pending := map[])
  }

  ghost predicate Next(w: World, s: Step, w': World) {
    Enabled(w, s) && w' == Apply(w, s)
  }

  /** A run from the empty gateway: states[0] is initial and steps[i] leads from states[i] to states[i+1]. */
  datatype Run = Run(states: seq<World>, steps: seq<Step>)

  ghost predicate IsRun(r: Run) {
    && |r.states| == |r.steps| + 1
    && r.states[0] == Init(r.states[0].own, r.states[0].clock)
    && forall i :: 0 <= i < |r.steps| ==> Next(r.states[i], r.steps[i], r.states[i + 1])
  }

  // ---------------------------------------------------------------- the invariant

  function Count(log: seq<Commit>, gateway: string): nat {
    if log == [] then 0
    else Count(log[..|log| - 1], gateway) + if log[|log| - 1].entry.gateway == gateway then 1 else 0
  }

  /** The k-th commit of a gateway has sequence number k, and its counter stands at the last one. */
  ghost predicate LogOk(log: seq<Commit>, lastSeq: map<string, int>, own: set<string>) {
    && (forall i :: 0 <= i < |log| ==>
          && log[i].entry.gateway in lastSeq
          && log[i].seqId == Count(log[..i], log[i].entry.gateway) + 1)
    && (forall g :: g in lastSeq ==> g in own && lastSeq[g] == Count(log, g))
  }

  /** Each row still carries the content of the commit it was made by. */
  ghost predicate RowsOk(rows: map<int, Row>, log: seq<Commit>) {
    forall id :: id in rows ==> 1 <= id <= |log| && ToWire(rows[id]) == Expected(log[id - 1])
  }

  /** Every commit is in exactly one of three places: queued, retired after delivery, evicted. */
  ghost predicate LedgerOk(queued: set<int>, retired: set<int>, evicted: set<int>,
                           log: seq<Commit>, store: map<Key, WireEntry>) {
    && queued !! retired && queued !! evicted && retired !! evicted
    && (forall id :: 1 <= id <= |log| ==> id in queued || id in retired || id in evicted)
    && (forall id :: id in queued ==> 1 <= id <= |log|)
    && (forall id :: id in retired ==> 1 <= id <= |log| && KeyOf(Expected(log[id - 1])) in store)
    && (forall id :: id in evicted ==> 1 <= id <= |log| && Expected(log[id - 1]).priority != CRITICAL)
  }

  ghost predicate Genuine(log: seq<Commit>, e: WireEntry) {
    exists i :: 0 <= i < |log| && e == Expected(log[i])
  }

  ghost predicate AllStored(store: map<Key, WireEntry>, entries: seq<WireEntry>) {
    forall i :: 0 <= i < |entries| ==> KeyOf(entries[i]) in store
  }

  /** The batch's entries are those of its rows' commits, and its surviving rows are all SENDING. */
  ghost predicate CargoOk(f: Flight, log: seq<Commit>, rows: map<int, Row>) {
    && f.ids != [] && Distinct(f.ids) && |f.entries| == |f.ids|
    && (forall i :: 0 <= i < |f.ids| ==>
          1 <= f.ids[i] <= |log| && f.entries[i] == Expected(log[f.ids[i] - 1]))
    && (forall i :: 0 <= i < |f.ids| && f.ids[i] in rows ==> rows[f.ids[i]].status == Sending)
  }

  ghost predicate StageOk(b: nat, f: Flight, waiting: set<nat>, published: map<nat, seq<WireEntry>>,
                          store: map<Key, WireEntry>) {
    && (f.stage.Fetched? ==> b !in published)
    && (f.stage.Waiting? ==> b in waiting && b in published && published[b] == f.entries)
    && (f.stage.Acked? ==> AllStored(store, f.entries))
  }

  ghost predicate Apart(f: Flight, g: Flight) {
    forall i, j :: 0 <= i < |f.ids| && 0 <= j < |g.ids| ==> f.ids[i] != g.ids[j]
  }

  ghost predicate CargosOk(flights: map<nat, Flight>, log: seq<Commit>, rows: map<int, Row>) {
    && (forall b :: b in flights ==> CargoOk(flights[b], log, rows))
    && (forall b, c :: b in flights && c in flights && b != c ==> Apart(flights[b], flights[c]))
  }

  ghost predicate StagesOk(flights: map<nat, Flight>, waiting: set<nat>, published: map<nat, seq<WireEntry>>,
                           store: map<Key, WireEntry>) {
    forall b :: b in flights ==> StageOk(b, flights[b], waiting, published, store)
  }

  /** Batch ids are fresh, and only committed readings are ever published. */
  ghost predicate PublishedOk(flights: map<nat, Flight>, published: map<nat, seq<WireEntry>>, used: set<nat>,
                              log: seq<Commit>) {
    && flights.Keys <= used
    && published.Keys <= used
    && (forall b, i :: b in published && 0 <= i < |published[b]| ==> Genuine(log, published[b][i]))
  }

  /** A positive ack exists only for a batch the server holds in full. */
  ghost predicate AcksOk(acks: set<Ack>, published: map<nat, seq<WireEntry>>, store: map<Key, WireEntry>) {
    forall a :: a in acks ==>
      a.batch in published && (a.error == "" ==> AllStored(store, published[a.batch]))
  }

  ghost predicate PendingOk(pending: map<nat, Option<Ack>>, flights: map<nat, Flight>, acks: set<Ack>) {
    forall b :: b in pending ==>
      && b in flights && flights[b].stage.Waiting?
      && (pending[b].Some? ==> pending[b].value in acks && pending[b].value.batch == b)
  }

  /** The store holds, under this gateway's keys, committed readings only. */
  ghost predicate StoreOk(store: map<Key, WireEntry>, log: seq<Commit>, own: set<string>) {
    forall k :: k in store && k.gateway in own ==> Genuine(log, store[k]) && KeyOf(store[k]) == k
  }

  ghost predicate SentOk(rows: map<int, Row>, store: map<Key, WireEntry>) {
    forall id :: id in rows && rows[id].status == Sent ==> RowKey(rows[id]) in store
  }

  ghost predicate Inv(w: World) {
    && (w.process != Running ==> w.flights == map[])
    && w.db.lastId == |w.log|
    && LogOk(w.log, w.db.lastSeq, w.own)
    && RowsOk(w.db.rows, w.log)
    && LedgerOk(w.db.rows.Keys, w.retired, w.evicted, w.log, w.store)
    && CargosOk(w.flights, w.log, w.db.rows)
    && StagesOk(w.flights, w.pending.Keys, w.published, w.store)
    && PublishedOk(w.flights, w.published, w.used, w.log)
    && AcksOk(w.acks, w.published, w.store)
    && PendingOk(w.pending, w.flights, w.acks)
    && StoreOk(w.store, w.log, w.own)
    && SentOk(w.db.rows, w.store)
  }

  // ---------------------------------------------------------------- counting sequence numbers

  lemma {:induction false} CountPrefix(log: seq<Commit>, m: nat, g: string)
    requires m <= |log|
    ensures Count(log[..m], g) <= Count(log, g)
  {
    if m < |log| {
      var front := log[..|log| - 1];
      CountPrefix(front, m, g);
      assert front[..m] == log[..m];
    } else {
      assert log[..m] == log;
    }
  }

  lemma {:induction false} CountOfUnknown(log: seq<Commit>, g: string, lastSeq: map<string, int>)
    requires g !in lastSeq && forall i :: 0 <= i < |log| ==> log[i].entry.gateway in lastSeq
    ensures Count(log, g) == 0
  {
    if log != [] {
      CountOfUnknown(log[..|log| - 1], g, lastSeq);
    }
  }

  /** Two different commits never share a key. */
  lemma CommitKeysDiffer(log: seq<Commit>, lastSeq: map<string, int>, own: set<string>, i: nat, j: nat)
    requires LogOk(log, lastSeq, own) && i < j < |log|
    ensures KeyOf(Expected(log[i])) != KeyOf(Expected(log[j]))
  {
    var g := log[j].entry.gateway;
    if log[i].entry.gateway == g {
      CountPrefix(log[..j], i + 1, g);
      assert log[..j][..i + 1] == log[..i + 1];
      assert log[..i + 1][..i] == log[..i];
    }
  }

  lemma SequenceBounded(log: seq<Commit>, lastSeq: map<string, int>, own: set<string>, i: nat)
    requires LogOk(log, lastSeq, own) && i < |log|
    ensures 1 <= log[i].seqId <= lastSeq[log[i].entry.gateway]
  {
    CountPrefix(log, i + 1, log[i].entry.gateway);
    assert log[..i + 1][..i] == log[..i];
  }

  /** The unique index never refuses an insert of a known gateway. */
  lemma InsertNeverConflicts(w: World, e: Reading)
    requires Inv(w)
    ensures InsertSucceeds(w.db, e) <==> e.gateway in w.db.lastSeq
  {
    if e.gateway in w.db.lastSeq {
      var key := Key(e.gateway, w.db.lastSeq[e.gateway] + 1);
      forall id | id in w.db.rows ensures RowKey(w.db.rows[id]) != key {
        SequenceBounded(w.log, w.db.lastSeq, w.own, id - 1);
        assert RowKey(w.db.rows[id]) == KeyOf(ToWire(w.db.rows[id]));
      }
    }
  }

  lemma GenuineGrows(log: seq<Commit>, c: Commit)
    ensures forall e :: Genuine(log, e) ==> Genuine(log + [c], e)
  {
    forall e | Genuine(log, e) ensures Genuine(log + [c], e) {
      var i :| 0 <= i < |log| && e == Expected(log[i]);
      assert (log + [c])[i] == log[i];
    }
  }

  // ---------------------------------------------------------------- each step keeps the invariant

  lemma LogGrows(log: seq<Commit>, lastSeq: map<string, int>, own: set<string>, e: Reading)
    requires LogOk(log, lastSeq, own) && e.gateway in lastSeq
    ensures LogOk(log + [Commit(e, lastSeq[e.gateway] + 1)], lastSeq[e.gateway := lastSeq[e.gateway] + 1], own)
  {
    var log' := log + [Commit(e, lastSeq[e.gateway] + 1)];
    assert log'[..|log|] == log;
    forall i | 0 <= i < |log| ensures log'[i] == log[i] && log'[..i] == log[..i] {}
  }

  lemma QueueGrows(rows: map<int, Row>, log: seq<Commit>, retired: set<int>, evicted: set<int>,
                   store: map<Key, WireEntry>, c: Commit)
    requires RowsOk(rows, log) && LedgerOk(rows.Keys, retired, evicted, log, store) && SentOk(rows, store)
    ensures var rows' := rows[|log| + 1 := NewRow(c.entry, c.seqId)];
            && RowsOk(rows', log + [c])
            && LedgerOk(rows'.Keys, retired, evicted, log + [c], store)
            && SentOk(rows', store)
  {}

  lemma CargosSurviveInsert(flights: map<nat, Flight>, log: seq<Commit>, rows: map<int, Row>, c: Commit)
    requires CargosOk(flights, log, rows)
    ensures CargosOk(flights, log + [c], rows[|log| + 1 := NewRow(c.entry, c.seqId)])
  {}

  lemma InsertKeeps(w: World, e: Reading)
    requires Inv(w) && w.process != Down
    ensures Inv(AfterInsert(w, e))
  {
    hide LogOk, RowsOk, LedgerOk, CargosOk, AcksOk, PendingOk, StagesOk, SentOk;
    if InsertSucceeds(w.db, e) {
      var c := Commit(e, w.db.lastSeq[e.gateway] + 1);
      LogGrows(w.log, w.db.lastSeq, w.own, e);
      GenuineGrows(w.log, c);
      QueueGrows(w.db.rows, w.log, w.retired, w.evicted, w.store, c);
      CargosSurviveInsert(w.flights, w.log, w.db.rows, c);
    }
  }

  lemma BootKeeps(w: World, g: string)
    requires Inv(w) && w.process == Down && g in w.own
    ensures Inv(Apply(w, Boot(g)))
  {
    if g !in w.db.lastSeq {
      CountOfUnknown(w.log, g, w.db.lastSeq);
    }
    assert LogOk(w.log, Ensure(w.db, g).lastSeq, w.own);
  }

  lemma RecoverKeeps(w: World, recovered: bool)
    requires Inv(w) && w.process == Booting
    ensures Inv(Apply(w, StartForwarder(recovered)))
  {}

  lemma FetchTakes(rows: map<int, Row>, now: int, limit: int, ids: seq<int>)
    requires IsTop(FetchKeys(rows, now), limit, ids)
    ensures Distinct(ids) && forall i :: 0 <= i < |ids| ==> ids[i] in rows && Eligible(rows[ids[i]], now)
  {}

  lemma CargosSurviveFetch(flights: map<nat, Flight>, log: seq<Commit>, db: Db, b: nat, ids: seq<int>)
    requires CargosOk(flights, log, db.rows) && RowsOk(db.rows, log) && b !in flights
    requires ids != [] && Distinct(ids)
    requires forall i :: 0 <= i < |ids| ==> ids[i] in db.rows && db.rows[ids[i]].status == Pending
    ensures CargosOk(flights[b := Flight(ids, ToWireEntries(db.rows, ids), Fetched)], log, MarkSending(db, ids).rows)
  {
    var f := Flight(ids, ToWireEntries(db.rows, ids), Fetched);
    var rows' := MarkSending(db, ids).rows;
    assert CargoOk(f, log, rows');
    forall c | c in flights
      ensures CargoOk(flights[c], log, rows') && Apart(flights[c], f) && Apart(f, flights[c])
    {
      assert CargoOk(flights[c], log, db.rows);
    }
  }

  lemma FetchKeeps(w: World, b: nat, now: int, limit: int, ids: seq<int>)
    requires Inv(w) && Enabled(w, Fetch(b, now, limit, ids))
    ensures Inv(AfterFetch(w, b, now, ids))
  {
    hide LogOk, LedgerOk, CargosOk, AcksOk, StoreOk, IsTop, FetchKeys;
    var rows' := MarkSending(w.db, ids).rows;
    FetchTakes(w.db.rows, now, limit, ids);
    CargosSurviveFetch(w.flights, w.log, w.db, b, ids);
    assert rows'.Keys == w.db.rows.Keys;
    assert RowsOk(rows', w.log) && SentOk(rows', w.store);
  }

  lemma CargosSurviveStage(flights: map<nat, Flight>, log: seq<Commit>, rows: map<int, Row>, b: nat, stage: Stage)
    requires CargosOk(flights, log, rows) && b in flights
    ensures CargosOk(flights[b := flights[b].(stage := stage)], log, rows)
  {}

  lemma CargoIsGenuine(f: Flight, log: seq<Commit>, rows: map<int, Row>)
    requires CargoOk(f, log, rows)
    ensures forall i :: 0 <= i < |f.entries| ==> Genuine(log, f.entries[i])
  {}

  lemma StagesSurvivePublish(flights: map<nat, Flight>, waiting: set<nat>, published: map<nat, seq<WireEntry>>,
                             store: map<Key, WireEntry>, acks: set<Ack>, b: nat)
    requires StagesOk(flights, waiting, published, store) && AcksOk(acks, published, store)
    requires b in flights && flights[b].stage.Fetched?
    ensures var published' := published[b := flights[b].entries];
            && StagesOk(flights[b := flights[b].(stage := Waiting)], waiting + {b}, published', store)
            && AcksOk(acks, published', store)
  {}

  lemma PublishedGrows(flights: map<nat, Flight>, published: map<nat, seq<WireEntry>>, used: set<nat>, log: seq<Commit>,
                       b: nat, stage: Stage)
    requires PublishedOk(flights, published, used, log) && b in flights
    requires forall i :: 0 <= i < |flights[b].entries| ==> Genuine(log, flights[b].entries[i])
    ensures PublishedOk(flights[b := flights[b].(stage := stage)], published[b := flights[b].entries], used, log)
  {}

  lemma PendingGains(pending: map<nat, Option<Ack>>, flights: map<nat, Flight>, acks: set<Ack>, b: nat)
    requires PendingOk(pending, flights, acks) && b in flights
    ensures PendingOk(pending[b := None], flights[b := flights[b].(stage := Waiting)], acks)
    ensures pending[b := None].Keys == pending.Keys + {b}
  {}

  lemma PublishKeeps(w: World, b: nat)
    requires Inv(w) && Enabled(w, Publish(b))
    ensures Inv(Apply(w, Publish(b)))
  {
    hide LogOk, RowsOk, LedgerOk, StagesOk, PublishedOk, AcksOk, StoreOk, SentOk, PendingOk, Genuine;
    assert CargoOk(w.flights[b], w.log, w.db.rows);
    hide CargosOk;
    CargosSurviveStage(w.flights, w.log, w.db.rows, b, Waiting);
    CargoIsGenuine(w.flights[b], w.log, w.db.rows);
    hide CargoOk;
    PublishedGrows(w.flights, w.published, w.used, w.log, b, Waiting);
    StagesSurvivePublish(w.flights, w.pending.Keys, w.published, w.store, w.acks, b);
    PendingGains(w.pending, w.flights, w.acks, b);
  }

  lemma StagesSurviveEnd(flights: map<nat, Flight>, pending: map<nat, Option<Ack>>,
                         published: map<nat, seq<WireEntry>>, store: map<Key, WireEntry>, acks: set<Ack>,
                         b: nat, stage: Stage)
    requires StagesOk(flights, pending.Keys, published, store) && PendingOk(pending, flights, acks)
    requires b in flights && StageOk(b, flights[b].(stage := stage), {}, published, store)
    ensures var flights' := flights[b := flights[b].(stage := stage)];
            && StagesOk(flights', Without(pending, b).Keys, published, store)
            && PendingOk(Without(pending, b), flights', acks)
  {}

  lemma SendEndsKeeps(w: World, b: nat, stage: Stage)
    requires Inv(w) && b in w.flights
    requires stage.Failed? || (stage.Acked? && AllStored(w.store, w.flights[b].entries))
    ensures Inv(w.(flights := InStage(w, b, stage), pending := Without(w.pending, b)))
  {
    hide LogOk, RowsOk, LedgerOk, CargosOk, StagesOk, AcksOk, PendingOk, StoreOk, SentOk;
    CargosSurviveStage(w.flights, w.log, w.db.rows, b, stage);
    StagesSurviveEnd(w.flights, w.pending, w.published, w.store, w.acks, b, stage);
  }

  /** Send reports success only for a batch the server holds in full. */
  lemma AckedMeansStored(w: World, b: nat)
    requires Inv(w) && Enabled(w, SendReturns(b)) && w.pending[b].value.error == ""
    ensures AllStored(w.store, w.flights[b].entries)
  {}

  lemma RefusedWasNotPending(w: World, b: nat)
    requires Inv(w) && Enabled(w, SendRefused(b))
    ensures Without(w.pending, b) == w.pending
  {}

  lemma StoreGrows(w: World, entries: seq<WireEntry>)
    requires Inv(w)
    requires forall e :: e in entries ==> Genuine(w.log, e) || e.gateway !in w.own
    ensures Inv(w.(store := Ingest(w.store, entries)))
    ensures AllStored(Ingest(w.store, entries), entries)
  {
    hide LogOk, RowsOk, CargosOk, PublishedOk, PendingOk;
    var store' := Ingest(w.store, entries);
    IngestFacts(w.store, entries);
    assert StagesOk(w.flights, w.pending.Keys, w.published, store') by {
      forall c | c in w.flights ensures StageOk(c, w.flights[c], w.pending.Keys, w.published, store') {
        assert StageOk(c, w.flights[c], w.pending.Keys, w.published, w.store);
      }
    }
    assert AcksOk(w.acks, w.published, store');
    assert StoreOk(store', w.log, w.own);
  }

  lemma IngestKeeps(w: World, b: nat, n: nat)
    requires Inv(w) && Enabled(w, IngestMessage(b, n))
    ensures Inv(AfterIngest(w, b, n))
  {
    hide LogOk, RowsOk, LedgerOk, CargosOk, StagesOk, StoreOk, SentOk;
    var part := w.published[b][..n];
    forall e | e in part ensures Genuine(w.log, e) {
      var i :| 0 <= i < n && part[i] == e;
      assert e == w.published[b][i];
    }
    StoreGrows(w, part);
    if n == |w.published[b]| {
      assert part == w.published[b];
      assert AcksOk(w.acks + {Ack(b, "")}, w.published, Ingest(w.store, part));
      assert PendingOk(w.pending, w.flights, w.acks + {Ack(b, "")});
    }
  }

  lemma AcksKeep(w: World, s: Step)
    requires Inv(w) && Enabled(w, s) && (s.Reject? || s.DeliverAck?)
    ensures Inv(Apply(w, s))
  {
    hide LogOk, RowsOk, LedgerOk, CargosOk, StagesOk, PublishedOk, StoreOk, SentOk;
    var w' := Apply(w, s);
    assert AcksOk(w'.acks, w'.published, w'.store);
    assert PendingOk(w'.pending, w'.flights, w'.acks);
    assert w'.pending.Keys == w.pending.Keys;
  }

  lemma CargosSurviveLanding(flights: map<nat, Flight>, log: seq<Commit>, rows: map<int, Row>, b: nat,
                             rows': map<int, Row>)
    requires CargosOk(flights, log, rows) && b in flights
    requires forall id :: id in rows' && id !in flights[b].ids ==> id in rows && rows'[id] == rows[id]
    ensures CargosOk(Without(flights, b), log, rows')
  {}

  lemma NetworkSurvivesLanding(w: World, b: nat)
    requires Inv(w) && b in w.flights && !w.flights[b].stage.Waiting?
    ensures StagesOk(Without(w.flights, b), w.pending.Keys, w.published, w.store)
    ensures PublishedOk(Without(w.flights, b), w.published, w.used, w.log)
    ensures PendingOk(w.pending, Without(w.flights, b), w.acks)
  {
    hide LogOk, RowsOk, LedgerOk, CargosOk, AcksOk, StoreOk, SentOk, StageOk;
  }

  /** Dropping a landed flight and rewriting only its own rows keeps everything but SentOk, which is given. */
  lemma LandingKeeps(w: World, w': World, b: nat)
    requires Inv(w) && b in w.flights && !w.flights[b].stage.Waiting?
    requires w' == w.(flights := Without(w.flights, b), clock := w'.clock, failures := w'.failures,
                      db := w.db.(rows := w'.db.rows))
    requires w'.db.rows.Keys == w.db.rows.Keys
    requires forall id :: id in w.db.rows ==> ToWire(w'.db.rows[id]) == ToWire(w.db.rows[id])
    requires forall id :: id in w.db.rows && id !in w.flights[b].ids ==> w'.db.rows[id] == w.db.rows[id]
    requires SentOk(w'.db.rows, w.store)
    ensures Inv(w')
  {
    hide LogOk, LedgerOk, CargosOk, StagesOk, PublishedOk, AcksOk, PendingOk, StoreOk, SentOk;
    CargosSurviveLanding(w.flights, w.log, w.db.rows, b, w'.db.rows);
    NetworkSurvivesLanding(w, b);
  }

  lemma RecordSentKeeps(w: World, b: nat, now: int, ok: bool)
    requires Inv(w) && Enabled(w, RecordSent(b, now, ok))
    ensures Inv(Apply(w, RecordSent(b, now, ok)))
  {
    hide LogOk, LedgerOk, PublishedOk, AcksOk, PendingOk, StoreOk;
    var w', f := Apply(w, RecordSent(b, now, ok)), w.flights[b];
    assert CargoOk(f, w.log, w.db.rows);
    assert StageOk(b, f, w.pending.Keys, w.published, w.store);
    forall id | id in w'.db.rows && w'.db.rows[id].status == Sent ensures RowKey(w'.db.rows[id]) in w.store {
      if ok && id in f.ids {
        var i :| 0 <= i < |f.ids| && f.ids[i] == id;
        assert KeyOf(f.entries[i]) == KeyOf(ToWire(w.db.rows[id]));
      } else {
        assert w'.db.rows[id] == w.db.rows[id];
      }
    }
    LandingKeeps(w, w', b);
  }

  lemma FailedRowsKeepContent(rows: map<int, Row>, ids: seq<int>, nows: seq<int>, error: string,
                              store: map<Key, WireEntry>)
    requires |nows| == |ids| && Distinct(ids) && SentOk(rows, store)
    requires FailRows(rows, ids, nows, error).Some?
    ensures var rows' := FailRows(rows, ids, nows, error).value;
            && rows'.Keys == rows.Keys && SentOk(rows', store)
            && (forall id :: id in rows ==> ToWire(rows'[id]) == ToWire(rows[id]))
            && (forall id :: id in rows && id !in ids ==> rows'[id] == rows[id])
  {}

  lemma RecordFailureKeeps(w: World, b: nat, nows: seq<int>, ok: bool)
    requires Inv(w) && Enabled(w, RecordFailure(b, nows, ok))
    ensures Inv(AfterFailure(w, b, nows, ok))
  {
    hide LogOk, RowsOk, LedgerOk, StagesOk, PublishedOk, AcksOk, PendingOk, StoreOk, SentOk, FailRows;
    var f := w.flights[b];
    assert CargoOk(f, w.log, w.db.rows);
    if ok && FailRows(w.db.rows, f.ids, nows, f.stage.error).Some? {
      FailedRowsKeepContent(w.db.rows, f.ids, nows, f.stage.error, w.store);
    }
    LandingKeeps(w, AfterFailure(w, b, nows, ok), b);
  }

  /** Deleting rows keeps the invariant as long as the ledger accounts for them. */
  lemma DeletionKeeps(w: World, w': World)
    requires Inv(w)
    requires w' == w.(db := w.db.(rows := w'.db.rows), retired := w'.retired, evicted := w'.evicted)
    requires w'.db.rows.Keys <= w.db.rows.Keys
    requires forall id :: id in w'.db.rows ==> w'.db.rows[id] == w.db.rows[id]
    requires LedgerOk(w'.db.rows.Keys, w'.retired, w'.evicted, w.log, w.store)
    ensures Inv(w')
  {}

  lemma EvictKeeps(w: World, limit: int, ids: seq<int>)
    requires Inv(w) && Enabled(w, EvictRows(limit, ids))
    ensures Inv(Apply(w, EvictRows(limit, ids)))
  {
    hide LogOk, CargosOk, StagesOk, PublishedOk, AcksOk, PendingOk, StoreOk, SentOk;
    var w' := Apply(w, EvictRows(limit, ids));
    forall id | id in ids ensures id in w.db.rows && Expected(w.log[id - 1]).priority != CRITICAL {
      assert id in EvictKeys(w.db.rows);
      assert ToWire(w.db.rows[id]) == Expected(w.log[id - 1]);
    }
    assert LedgerOk(w'.db.rows.Keys, w'.retired, w'.evicted, w.log, w.store);
    DeletionKeeps(w, w');
  }

  lemma RetireKeeps(w: World, cutoff: int)
    requires Inv(w) && w.process != Down
    ensures Inv(Apply(w, Retire(cutoff)))
  {
    hide LogOk, CargosOk, StagesOk, PublishedOk, AcksOk, PendingOk, StoreOk;
    var w' := Apply(w, Retire(cutoff));
    forall id | id in ExpiredIds(w.db.rows, cutoff) ensures KeyOf(Expected(w.log[id - 1])) in w.store {
      assert RowKey(w.db.rows[id]) == KeyOf(ToWire(w.db.rows[id]));
    }
    assert LedgerOk(w'.db.rows.Keys, w'.retired, w'.evicted, w.log, w.store);
    DeletionKeeps(w, w');
  }

  lemma CrashKeeps(w: World)
    requires Inv(w)
    ensures Inv(w.(process := Down, flights := map[], pending := map[]))
  {}

  /** Every step keeps the invariant. */
  lemma StepKeeps(w: World, s: Step, w': World)
    requires Inv(w) && Next(w, s, w')
    ensures Inv(w')
  {
    hide Inv;
    match s
    case Boot(g) => BootKeeps(w, g);
    case StartForwarder(recovered) => RecoverKeeps(w, recovered);
    case InsertReading(e) => InsertKeeps(w, e);
    case Fetch(b, now, limit, ids) => FetchKeeps(w, b, now, limit, ids);
    case SendRefused(b) =>
      RefusedWasNotPending(w, b);
      SendEndsKeeps(w, b, Failed("not connected"));
    case Publish(b) => PublishKeeps(w, b);
    case IngestMessage(b, n) => IngestKeeps(w, b, n);
    case Reject(b, error) => AcksKeep(w, s);
    case ForeignEntry(e) => StoreGrows(w, [e]);
    case DeliverAck(a) => AcksKeep(w, s);
    case SendReturns(b) =>
      if w.pending[b].value.error == "" {
        AckedMeansStored(w, b);
      }
      SendEndsKeeps(w, b, w'.flights[b].stage);
    case SendTimesOut(b, error) => SendEndsKeeps(w, b, Failed(error));
    case RecordSent(b, now, ok) => RecordSentKeeps(w, b, now, ok);
    case RecordFailure(b, nows, ok) => RecordFailureKeeps(w, b, nows, ok);
    case EvictRows(limit, ids) => EvictKeeps(w, limit, ids);
    case Retire(cutoff) => RetireKeeps(w, cutoff);
    case Crash => CrashKeeps(w);
  }

  /** The invariant holds at every point of every run. */
  lemma {:induction false} RunKeeps(r: Run, n: nat)
    requires IsRun(r) && n < |r.states|
    ensures Inv(r.states[n])
  {
    if n > 0 {
      RunKeeps(r, n - 1);
      StepKeeps(r.states[n - 1], r.steps[n - 1], r.states[n]);
    }
  }
}

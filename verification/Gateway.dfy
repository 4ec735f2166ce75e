/**
  The forwarder loop (gateway/internal/forwarder/forwarder.go) on the real queue repository, MQTT
  adapter and server store, with anything at all happening between its calls.  Beside the objects
  the ghost state of the delivery system is kept: every change to them is one of its steps.
*/
module Gateway {
  import opened Common
  import opened Queue
  import opened Server
  import opened QueueRepository
  import opened Delivery
  import opened Guarantees
  import opened Paths
  import opened Forwarder

  /** What may happen beside the forwarder: the poller, the sweepers, the server and the network. */
  datatype Event =
    | Inserted(entry: Reading)
    | Evicted(limit: int)
    | Retired(cutoff: int)
    | Arrived(batch: nat, failAt: Option<nat>)
    | Rejected(batch: nat, error: string)
    | Foreign(foreign: WireEntry)
    | Acknowledged(ack: Ack)

  /** The events that change the queue. */
  predicate TouchesQueue(e: Event) { e.Inserted? || e.Evicted? || e.Retired? }

  predicate Quiet(events: seq<Event>) {
    forall i :: 0 <= i < |events| ==> !TouchesQueue(events[i])
  }

  /** While the events happen, the batch reaches the server whole and then its ack comes back. */
  ghost predicate Served(events: seq<Event>, b: nat) {
    exists i, j :: 0 <= i < j < |events| && events[i] == Arrived(b, None) && events[j] == Acknowledged(Ack(b, ""))
  }

  /** An earlier event put this ack on the network. */
  ghost predicate AckedBefore(events: seq<Event>, k: nat, a: Ack)
    requires k < |events|
  {
    a.error == "" && exists i :: 0 <= i < k && events[i] == Arrived(a.batch, None)
  }

  /** The server rejects the batch at no time. */
  ghost predicate NeverRejected(events: seq<Event>, b: nat) {
    forall i :: 0 <= i < |events| && events[i].Rejected? ==> events[i].batch != b
  }

  /** Where a dispatch may be cut off by a crash. */
  datatype Death = AfterFetch | BeforeMark

  /**
    One turn of the loop: what happens while it waits for the ticker, between fetch and send, while
    Send waits, and between send and mark; and how the calls it makes turn out.  `gaveUp` is a
    timeout that wins over an ack that is there as well.
  */
  datatype Tick = Tick(
    now: int, fetchOk: bool, connected: bool, publishError: Option<string>, gaveUp: bool, markOk: bool,
    markNow: nat -> int, idle: seq<Event>, fetched: seq<Event>, waiting: seq<Event>, sent: seq<Event>,
    death: Option<Death>)

  predicate Undisturbed(t: Tick) {
    Quiet(t.fetched) && Quiet(t.waiting) && Quiet(t.sent) && t.death.None?
  }

  /** The forwarder is between two dispatches. */
  ghost predicate Idle(w: World) { w.process == Running && w.flights == map[] }

  /** What no event beside the forwarder changes. */
  ghost predicate Elsewhere(w: World, w': World) {
    && w'.own == w.own && w'.process == w.process && w'.flights == w.flights && w'.used == w.used
    && w'.published == w.published && w'.pending.Keys == w.pending.Keys
  }

  /** What an event adds to the acks on the network and to what the adapter has heard. */
  ghost predicate Progress(w: World, w': World, e: Event) {
    && w.acks <= w'.acks
    && (forall a :: a in w'.acks && a !in w.acks ==> a.error == "" || e == Rejected(a.batch, a.error))
    && (forall b :: b in w.pending && b in w'.pending && w.pending[b].Some? ==> w'.pending[b] == w.pending[b])
    && (e.Arrived? && e.batch in w.published && e.failAt.None? ==> Ack(e.batch, "") in w'.acks)
    && (e.Acknowledged? && e.ack in w.acks && e.ack.batch in w'.pending ==> w'.pending[e.ack.batch].Some?)
  }

  /** What event k has brought about and leaves behind. */
  ghost predicate Heard(w: World, events: seq<Event>, k: nat)
    requires k < |events|
  {
    match events[k]
    case Arrived(b, None) => b in w.published ==> Ack(b, "") in w.acks
    case Acknowledged(a) =>
      a.batch in w.pending && a.batch in w.published && AckedBefore(events, k, a) ==> w.pending[a.batch].Some?
    case _ => true
  }

  lemma HeardStays(w: World, w': World, e: Event, events: seq<Event>, k: nat)
    requires k < |events| && Heard(w, events, k) && Progress(w, w', e) && Elsewhere(w, w')
    ensures Heard(w', events, k)
  {
    hide AckedBefore;
  }

  lemma NowHeard(w: World, w': World, events: seq<Event>, k: nat)
    requires k < |events| && Progress(w, w', events[k]) && Elsewhere(w, w')
    requires forall i :: 0 <= i < k ==> Heard(w, events, i)
    ensures Heard(w', events, k)
  {
    if events[k].Acknowledged? && AckedBefore(events, k, events[k].ack) {
      var i :| 0 <= i < k && events[i] == Arrived(events[k].ack.batch, None);
      assert Heard(w, events, i);
    }
  }

  lemma QuietAt(events: seq<Event>, i: nat)
    requires i < |events|
    ensures Quiet(events) ==> !TouchesQueue(events[i])
  {}

  lemma ServedIsHeard(w: World, events: seq<Event>, b: nat)
    requires b in w.pending && b in w.published && Served(events, b)
    requires forall k :: 0 <= k < |events| ==> Heard(w, events, k)
    ensures w.pending[b].Some?
  {
    var i, j :| 0 <= i < j < |events| && events[i] == Arrived(b, None) && events[j] == Acknowledged(Ack(b, ""));
    assert AckedBefore(events, j, Ack(b, ""));
    assert Heard(w, events, j);
  }

  /** No ack goes away, and without a rejection every new one for a batch is positive. */
  ghost predicate AcksSound(w: World, w': World, events: seq<Event>) {
    && w.acks <= w'.acks
    && forall a :: a in w'.acks && a !in w.acks && NeverRejected(events, a.batch) ==> a.error == ""
  }

  lemma AcksSoundSelf(w: World, events: seq<Event>)
    ensures AcksSound(w, w, events)
  {}

  lemma AcksSoundNext(start: World, w: World, w': World, events: seq<Event>, i: nat)
    requires i < |events| && AcksSound(start, w, events) && Progress(w, w', events[i])
    ensures AcksSound(start, w', events)
  {}

  lemma NoAcksYet(w: World, b: nat)
    requires Inv(w) && b in w.flights && w.flights[b].stage == Fetched
    ensures forall a :: a in w.acks ==> a.batch != b
  {
    assert StageOk(b, w.flights[b], w.pending.Keys, w.published, w.store);
  }

  lemma HeardIsAnAck(w: World, b: nat)
    requires Inv(w) && b in w.pending && w.pending[b].Some?
    ensures w.pending[b].value in w.acks && w.pending[b].value.batch == b
  {}

  lemma WaitingIsPending(w: World, b: nat)
    requires Inv(w) && b in w.flights && w.flights[b].stage == Waiting
    ensures b in w.pending && b in w.published
  {
    assert StageOk(b, w.flights[b], w.pending.Keys, w.published, w.store);
  }

  lemma AckedIsStored(w: World, b: nat)
    requires Inv(w) && b in w.flights && w.flights[b].stage == Acked
    ensures AllStored(w.store, w.flights[b].entries)
  {
    assert StageOk(b, w.flights[b], w.pending.Keys, w.published, w.store);
  }

  lemma FlightHasRows(w: World, b: nat)
    requires Inv(w) && b in w.flights
    ensures w.process == Running && w.flights[b].ids != []
  {
    assert CargoOk(w.flights[b], w.log, w.db.rows);
  }

  lemma NothingMarked(db: Db)
    ensures MarkSending(db, []) == db
  {}

  lemma NotRunningIsIdle(w: World)
    requires Inv(w) && w.process != Running
    ensures w.flights == map[]
  {}

  /**
    How a dispatch leaves the rows of its batch that still exist: SENT after a success, PENDING with the
    error noted after a failure, and SENDING if the marking failed or a row of a failed batch is gone.
  */
  ghost predicate Settled(rows: map<int, Row>, ids: seq<int>, error: Option<string>, markOk: bool) {
    forall id :: id in ids && id in rows ==>
      if !markOk then rows[id].status == Sending
      else if error.None? then rows[id].status == Sent
      else if forall other :: other in ids ==> other in rows
      then rows[id].status == Pending && rows[id].lastError == error && rows[id].retryCount > 0
      else rows[id].status == Sending
  }

  lemma MarkSettles(w: World, b: nat, error: Option<string>, markOk: bool, now: int, nows: seq<int>)
    requires Inv(w) && b in w.flights && |nows| == |w.flights[b].ids|
    ensures var ids := w.flights[b].ids;
            var db := if !markOk then w.db
                      else if error.None? then MarkSent(w.db, ids, now) else MarkFailed(w.db, ids, nows, error.value);
            Settled(db.rows, ids, error, markOk)
  {
    hide Inv;
    var ids := w.flights[b].ids;
    FlightRowsSending(w, b);
    if markOk && error.Some? {
      FailRowsByRow(w.db.rows, ids, nows, error.value);
      hide FailRows;
      if forall other :: other in ids ==> other in w.db.rows {
        assert forall i :: 0 <= i < |ids| ==> ids[i] in w.db.rows by {
          forall i | 0 <= i < |ids| ensures ids[i] in w.db.rows { assert ids[i] in ids; }
        }
        forall id | id in ids ensures MarkFailed(w.db, ids, nows, error.value).rows[id].lastError == error {
          var i :| 0 <= i < |ids| && ids[i] == id;
        }
      } else {
        var gone :| gone in ids && gone !in w.db.rows;
      }
    }
  }

  /** A SENT row's reading is at the server, as the row has it. */
  lemma SentIsThere(w: World, id: int)
    requires Inv(w) && id in w.db.rows && w.db.rows[id].status == Sent
    ensures RowKey(w.db.rows[id]) in w.store && w.store[RowKey(w.db.rows[id])] == ToWire(w.db.rows[id])
  {
    assert RowKey(w.db.rows[id]) == KeyOf(ToWire(w.db.rows[id]));
    StoredIsExact(w, id - 1);
  }

  class Deployment {
    const repo: Repository
    const adapter: MqttAdapter
    const server: Store
    const batchSize: int
    const own: set<string>
    var published: map<nat, seq<WireEntry>>
    var acks: set<Ack>
    var nextBatch: nat
    ghost const start: World
    ghost var w: World

    /** The objects hold what the state of the delivery system says, and that state is reachable from the empty one. */
    ghost predicate Valid()
      reads this, repo, adapter, server
    {
      && server.Valid() && Inv(w) && start == Init(own, 0) && Reaches(start, w)
      && repo.Db() == w.db && adapter.pending == w.pending && Contents(server.readings) == w.store
      && published == w.published && acks == w.acks && own == w.own
      && (forall b :: b in w.used ==> b < nextBatch)
    }

    /** Nothing stored anywhere yet; a batch size of zero or less becomes 100. */
    constructor (own: set<string>, batchSize: int)
      ensures Valid() && w == start == Init(own, 0)
      ensures batchSize > 0 ==> this.batchSize == batchSize
      ensures batchSize <= 0 ==> this.batchSize == 100
      ensures fresh(repo) && fresh(adapter) && fresh(server)
    {
      repo := new Repository();
      adapter := new MqttAdapter();
      server := new Store();
      this.batchSize := if batchSize <= 0 then 100 else batchSize;
      this.own, published, acks, nextBatch := own, map[], {}, 0;
      start, w := Init(own, 0), Init(own, 0);
      new;
      ReachesSelf(w);
      assert Inv(w) by { InitKeeps(own, 0); }
    }

    // -------------------------------------------------------------- beside the forwarder

    method Happens(e: Event)
      requires Valid() && w.process != Down
      modifies this, repo, adapter, server
      ensures Valid() && Elsewhere(old(w), w) && nextBatch == old(nextBatch)
      ensures !TouchesQueue(e) ==> w.db == old(w.db)
      ensures Progress(old(w), w, e)
    {
      hide Valid;
      match e
      case Inserted(entry) => Insert(entry);
      case Evicted(limit) => Evict(limit);
      case Retired(cutoff) => Retire(cutoff);
      case Arrived(batch, failAt) => MessageArrives(batch, failAt);
      case Rejected(batch, error) => RejectionArrives(batch, error);
      case Foreign(entry) => ForeignArrives(entry);
      case Acknowledged(ack) => AckArrives(ack);
    }

    method Insert(entry: Reading)
      requires Valid() && w.process != Down
      modifies this, repo
      ensures Valid() && Elsewhere(old(w), w) && nextBatch == old(nextBatch)
      ensures Progress(old(w), w, Inserted(entry))
    {
      hide Inv, Reaches;
      StepOn(start, w, InsertReading(entry));
      var _ := repo.Insert(entry);
      w := Apply(w, InsertReading(entry));
    }

    method Evict(limit: int)
      requires Valid() && w.process != Down
      modifies this, repo
      ensures Valid() && Elsewhere(old(w), w) && nextBatch == old(nextBatch)
      ensures Progress(old(w), w, Evicted(limit))
    {
      hide Inv, Reaches, IsEviction;
      var _, ids := repo.EvictOldestNonCritical(limit);
      StepOn(start, w, EvictRows(limit, ids));
      w := Apply(w, EvictRows(limit, ids));
    }

    method Retire(cutoff: int)
      requires Valid() && w.process != Down
      modifies this, repo
      ensures Valid() && Elsewhere(old(w), w) && nextBatch == old(nextBatch)
      ensures Progress(old(w), w, Retired(cutoff))
    {
      hide Inv, Reaches, DeleteSentOlderThan, ExpiredIds;
      StepOn(start, w, Step.Retire(cutoff));
      var _ := repo.DeleteSentOlderThan(cutoff);
      w := Apply(w, Step.Retire(cutoff));
    }

    /** An ack on the network reaches the adapter. */
    method AckArrives(ack: Ack)
      requires Valid()
      modifies this, adapter
      ensures Valid() && Elsewhere(old(w), w) && nextBatch == old(nextBatch) && w.db == old(w.db)
      ensures Progress(old(w), w, Acknowledged(ack))
    {
      hide Inv, Reaches;
      if ack in acks {
        StepOn(start, w, DeliverAck(ack));
        adapter.HandleAck(ack);
        w := Apply(w, DeliverAck(ack));
        assert adapter.pending == w.pending;
      }
    }

    /** The server answers a batch with an error. */
    method RejectionArrives(batch: nat, error: string)
      requires Valid()
      modifies this
      ensures Valid() && Elsewhere(old(w), w) && nextBatch == old(nextBatch) && w.db == old(w.db)
      ensures Progress(old(w), w, Rejected(batch, error))
    {
      hide Inv, Reaches;
      if batch in published && error != "" {
        StepOn(start, w, Reject(batch, error));
        acks := acks + {Ack(batch, error)};
        w := Apply(w, Reject(batch, error));
      }
    }

    /** A published batch reaches the server, perhaps not for the first time; it acks what it stored in full. */
    method MessageArrives(batch: nat, failAt: Option<nat>)
      requires Valid()
      modifies this, server
      ensures Valid() && Elsewhere(old(w), w) && nextBatch == old(nextBatch) && w.db == old(w.db)
      ensures Progress(old(w), w, Arrived(batch, failAt))
    {
      hide Inv, Reaches, Ingest;
      if batch !in published {
        return;
      }
      var entries := published[batch];
      var ack := server.HandleMessage(Some(Batch(batch, entries)), failAt);
      ghost var n := if ack.Some? then |entries| else failAt.value;
      StepOn(start, w, IngestMessage(batch, n));
      if ack.Some? {
        acks := acks + {Ack(ack.value, "")};
      }
      w := Apply(w, IngestMessage(batch, n));
    }

    /** A reading of another gateway. */
    method ForeignArrives(entry: WireEntry)
      requires Valid()
      modifies this, server
      ensures Valid() && Elsewhere(old(w), w) && nextBatch == old(nextBatch) && w.db == old(w.db)
      ensures Progress(old(w), w, Foreign(entry))
    {
      hide Inv, Reaches, Ingest;
      if entry.gateway in own {
        return;
      }
      StepOn(start, w, ForeignEntry(entry));
      var _ := server.HandleMessage(Some(Batch(0, [entry])), None);
      assert [entry][..1] == [entry];
      w := Apply(w, ForeignEntry(entry));
    }

    method Disturb(events: seq<Event>)
      requires Valid() && w.process != Down
      modifies this, repo, adapter, server
      ensures Valid() && Elsewhere(old(w), w) && nextBatch == old(nextBatch)
      ensures Quiet(events) ==> w.db == old(w.db)
      ensures forall b :: b in w.pending && b in w.published && Served(events, b) ==> w.pending[b].Some?
      ensures AcksSound(old(w), w, events)
    {
      hide Valid, Quiet, Heard, Progress, AcksSound, Served;
      AcksSoundSelf(w, events);
      for i := 0 to |events|
        invariant Valid() && Elsewhere(old(w), w) && nextBatch == old(nextBatch)
        invariant Quiet(events) ==> w.db == old(w.db)
        invariant AcksSound(old(w), w, events)
        invariant forall k :: 0 <= k < i ==> Heard(w, events, k)
      {
        ghost var before := w;
        QuietAt(events, i);
        Happens(events[i]);
        AcksSoundNext(old(w), before, w, events, i);
        forall k | 0 <= k < i ensures Heard(w, events, k) {
          HeardStays(before, w, events[i], events, k);
        }
        NowHeard(before, w, events, i);
      }
      forall b | b in w.pending && b in w.published && Served(events, b) ensures w.pending[b].Some? {
        ServedIsHeard(w, events, b);
      }
    }

    // -------------------------------------------------------------- the forwarder

    /** The batch moves on to the given stage, and whatever else happened was elsewhere. */
    ghost predicate Staged(before: World, b: nat, stage: Stage)
      requires b in before.flights
      reads this
    {
      && w.flights == before.flights[b := before.flights[b].(stage := stage)]
      && w.process == before.process && w.used == before.used
    }

    /**
      Send: refused, or published and then answered, timed out or given up.  Success means that the
      server holds every entry of the batch.
    */
    method Send(b: nat, entries: seq<WireEntry>, t: Tick) returns (error: Option<string>)
      requires Valid() && b in w.flights && w.flights[b].stage == Fetched && w.flights[b].entries == entries
      modifies this, repo, adapter, server
      ensures Valid() && nextBatch == old(nextBatch)
      ensures Staged(old(w), b, if error.None? then Acked else Stage.Failed(error.value))
      ensures error.None? ==> AllStored(Contents(server.readings), entries)
      ensures error.None? ==> t.connected && t.publishError.None? && !t.gaveUp
      ensures error.Some? ==>
                || !t.connected || t.publishError.Some? || t.gaveUp
                || !Served(t.waiting, b) || !NeverRejected(t.waiting, b)
      ensures Quiet(t.waiting) ==> w.db == old(w.db)
    {
      hide Inv, Reaches, Served, NeverRejected, Quiet, AllStored;
      FlightHasRows(w, b);
      NoAcksYet(w, b);
      if !t.connected {
        StepOn(start, w, SendRefused(b));
        w := Apply(w, SendRefused(b));
        return Some("not connected");
      }
      Begin(b, entries);
      WaitingIsPending(w, b);
      Disturb(t.waiting);
      WaitingIsPending(w, b);
      if w.pending[b].Some? {
        HeardIsAnAck(w, b);
      }
      error := Finish(b, t);
      if error.None? {
        AckedIsStored(w, b);
      }
    }

    /** The batch id is registered and the batch published. */
    method Begin(b: nat, entries: seq<WireEntry>)
      requires Valid() && b in w.flights && w.flights[b].stage == Fetched && w.flights[b].entries == entries
      modifies this, adapter
      ensures Valid() && nextBatch == old(nextBatch) && w.db == old(w.db) && Staged(old(w), b, Waiting)
      ensures w.acks == old(w.acks)
    {
      hide Inv, Reaches;
      StepOn(start, w, Publish(b));
      adapter.Register(b);
      published := published[b := entries];
      w := Apply(w, Publish(b));
    }

    /** The wait is over: a failed publish, the answer that came first, or a timeout. */
    method Finish(b: nat, t: Tick) returns (error: Option<string>)
      requires Valid() && b in w.flights && w.flights[b].stage == Waiting
      modifies this, adapter
      ensures Valid() && nextBatch == old(nextBatch) && w.db == old(w.db)
      ensures Staged(old(w), b, if error.None? then Acked else Stage.Failed(error.value))
      ensures b in old(w.pending)
      ensures error.None? <==>
                && t.publishError.None? && !t.gaveUp
                && old(w.pending)[b].Some? && old(w.pending)[b].value.error == ""
    {
      hide Inv, Reaches;
      WaitingIsPending(w, b);
      var slot := adapter.Unregister(b);
      if t.publishError.None? && slot.Some? && !t.gaveUp {
        StepOn(start, w, SendReturns(b));
        w := Apply(w, SendReturns(b));
        return if slot.value.error == "" then None else Some(slot.value.error);
      }
      var reason := if t.publishError.Some? then t.publishError.value else "timed out waiting for ack";
      StepOn(start, w, SendTimesOut(b, reason));
      w := Apply(w, SendTimesOut(b, reason));
      return Some(reason);
    }

    /** FetchBatch, and the wire form of what it handed out. */
    method Fetch(t: Tick) returns (b: nat, ids: seq<int>, entries: seq<WireEntry>)
      requires Valid() && Idle(w)
      modifies this, repo
      ensures Valid() && IsFetch(old(w.db), t.now, batchSize, ids)
      ensures ids == [] ==> w == old(w)
      ensures ids != [] ==>
                && w.process == Running && w.flights == map[b := Flight(ids, entries, Fetched)]
                && w.db == MarkSending(old(w.db), ids)
    {
      hide Inv, Reaches, IsFetch, MarkSending;
      var batch;
      batch, ids := repo.FetchBatch(t.now, batchSize);
      b := nextBatch;
      entries := seq(|batch|, i requires 0 <= i < |batch| => ToWire(batch[i].row));
      if ids == [] {
        NothingMarked(w.db);
        return;
      }
      StepOn(start, w, Step.Fetch(b, t.now, batchSize, ids));
      assert entries == ToWireEntries(w.db.rows, ids);
      w := Apply(w, Step.Fetch(b, t.now, batchSize, ids));
      nextBatch := nextBatch + 1;
    }

    /** MarkSent or MarkFailed, which may itself fail. */
    method Mark(b: nat, ids: seq<int>, error: Option<string>, t: Tick)
      requires Valid() && w.process == Running && b in w.flights && w.flights.Keys == {b} && w.flights[b].ids == ids
      requires w.flights[b].stage == if error.None? then Acked else Stage.Failed(error.value)
      modifies this, repo
      ensures Valid() && Idle(w)
      ensures w.db == if !t.markOk then old(w.db)
                      else if error.None? then MarkSent(old(w.db), ids, t.markNow(0))
                      else MarkFailed(old(w.db), ids, Nows(t.markNow, |ids|), error.value)
      ensures Settled(w.db.rows, ids, error, t.markOk)
    {
      hide Inv, Reaches, MarkSent, FailRows, Settled;
      FlightHasRows(w, b);
      MarkSettles(w, b, error, t.markOk, t.markNow(0), Nows(t.markNow, |ids|));
      var nows := Nows(t.markNow, |ids|);
      if error.None? {
        StepOn(start, w, RecordSent(b, t.markNow(0), t.markOk));
        if t.markOk {
          repo.MarkSent(ids, t.markNow(0));
        }
        w := Apply(w, RecordSent(b, t.markNow(0), t.markOk));
      } else {
        StepOn(start, w, RecordFailure(b, nows, t.markOk));
        if t.markOk {
          var _ := repo.MarkFailed(ids, nows, error.value);
        }
        w := Apply(w, RecordFailure(b, nows, t.markOk));
      }
      assert w.flights == map[];
    }

    /**
      dispatchOnce: fetch, send and mark, with anything happening in between.  Every change is a step
      of the delivery system; undisturbed, the table changes as Dispatches says.
    */
    method DispatchOnce(t: Tick)
      returns (error: Option<string>, alive: bool, ghost ids: seq<int>)
      requires Valid() && Idle(w)
      modifies this, repo, adapter, server
      ensures Valid() && (Idle(w) || (w.process == Down && t.death.Some?)) && alive == (w.process == Running)
      ensures t.fetchOk ==> IsFetch(old(w.db), t.now, batchSize, ids)
      ensures t.fetchOk && alive && ids != [] ==> Settled(w.db.rows, ids, error, t.markOk)
      ensures Undisturbed(t) ==>
                Dispatches(old(w.db), w.db, Outcome(t.now, t.fetchOk, error, t.markOk, t.markNow), batchSize)
    {
      hide Valid, IsFetch, MarkSending, MarkSent, MarkFailed, AllStored, Quiet, Settled, Served, NeverRejected,
          AcksSound;
      error, alive, ids := None, true, [];
      if !t.fetchOk {
        return;
      }
      var b, fetched, entries := Fetch(t);
      ids := fetched;
      if fetched == [] {
        return;
      }
      Disturb(t.fetched);
      if t.death == Some(AfterFetch) {
        Crash();
        alive := false;
        return;
      }
      error := Send(b, entries, t);
      Disturb(t.sent);
      if t.death == Some(BeforeMark) {
        Crash();
        alive := false;
        return;
      }
      Mark(b, fetched, error, t);
    }

    /** The process dies: the adapter's memory is gone, the tables stay. */
    method Crash()
      requires Valid() && w.process != Down
      modifies this, adapter
      ensures Valid() && w.process == Down && w.db == old(w.db)
    {
      hide Inv, Reaches;
      StepOn(start, w, Step.Crash);
      adapter.Forget();
      w := Apply(w, Step.Crash);
    }

    /** EnsureGateway at startup. */
    method Boot(gateway: string)
      requires Valid() && w.process == Down && gateway in own
      modifies this, repo
      ensures Valid() && w.process == Booting && w.db == Ensure(old(w.db), gateway)
    {
      hide Inv, Reaches;
      StepOn(start, w, Step.Boot(gateway));
      repo.EnsureGateway(gateway);
      w := Apply(w, Step.Boot(gateway));
    }

    /** Recovery, once. */
    method Recover(ok: bool)
      requires Valid() && w.process == Booting
      modifies this, repo
      ensures Valid() && Idle(w) && w.db == if ok then RecoverSending(old(w.db)) else old(w.db)
    {
      hide Inv, Reaches;
      NotRunningIsIdle(w);
      StepOn(start, w, StartForwarder(ok));
      if ok {
        var _ := repo.RecoverSendingToPending();
      }
      w := Apply(w, StartForwarder(ok));
    }

    /**
      Run: recovery, then a dispatch per tick until a crash.  `trace` is the table after recovery and
      after each dispatch, `outcomes` how the dispatches went; undisturbed ticks are Dispatches.
    */
    method Run(recoverOk: bool, ticks: seq<Tick>)
      returns (alive: bool, ghost trace: seq<Db>, ghost outcomes: seq<Outcome>)
      requires Valid() && w.process == Booting
      modifies this, repo, adapter, server
      ensures Valid() && if alive then Idle(w) else w.process == Down
      ensures 0 < |trace| == |outcomes| + 1 <= |ticks| + 1 && w.db == trace[|outcomes|]
      ensures (forall i :: 0 <= i < |ticks| ==> ticks[i].death.None?) ==> |outcomes| == |ticks|
      ensures trace[0] == if recoverOk then RecoverSending(old(w.db)) else old(w.db)
      ensures forall i :: 0 <= i < |outcomes| && Undisturbed(ticks[i]) && Quiet(ticks[i].idle) ==>
                Dispatches(trace[i], trace[i + 1], outcomes[i], batchSize)
    {
      hide Valid, Dispatches, Quiet;
      Recover(recoverOk);
      alive, trace, outcomes := true, [w.db], [];
      for k := 0 to |ticks|
        invariant alive && Valid() && Idle(w) && |trace| == |outcomes| + 1 == k + 1 && w.db == trace[k]
        invariant trace[0] == if recoverOk then RecoverSending(old(w.db)) else old(w.db)
        invariant forall i :: 0 <= i < k && Undisturbed(ticks[i]) && Quiet(ticks[i].idle) ==>
                    Dispatches(trace[i], trace[i + 1], outcomes[i], batchSize)
      {
        var t := ticks[k];
        Disturb(t.idle);
        var error, lives, _ := DispatchOnce(t);
        alive := lives;
        trace := trace + [w.db];
        outcomes := outcomes + [Outcome(t.now, t.fetchOk, error, t.markOk, t.markNow)];
        if !alive {
          return;
        }
      }
    }

    /** What a reader of both tables sees, at any time: a SENT row is at the server with the same content. */
    lemma SentIsAtServer(id: int)
      requires Valid() && id in repo.rows && repo.rows[id].status == Sent
      ensures var stored := Contents(server.readings);
              RowKey(repo.rows[id]) in stored && stored[RowKey(repo.rows[id])] == ToWire(repo.rows[id])
    {
      SentIsThere(w, id);
    }

    /**
      Any number of lives of the process, each ended by a crash: the objects never leave what the
      delivery system allows, and every SENT row is at the server.
    */
    method Live(gateway: string, lives: seq<(bool, seq<Tick>)>)
      requires Valid() && w.process == Down && gateway in own
      modifies this, repo, adapter, server
      ensures Valid() && w.process == Down
      ensures forall id :: id in repo.rows && repo.rows[id].status == Sent ==>
                RowKey(repo.rows[id]) in Contents(server.readings)
                && Contents(server.readings)[RowKey(repo.rows[id])] == ToWire(repo.rows[id])
    {
      for k := 0 to |lives|
        invariant Valid() && w.process == Down
      {
        hide Valid;
        Boot(gateway);
        var alive, _, _ := Run(lives[k].0, lives[k].1);
        if alive {
          Crash();
        }
      }
      forall id | id in repo.rows && repo.rows[id].status == Sent
        ensures RowKey(repo.rows[id]) in Contents(server.readings)
        ensures Contents(server.readings)[RowKey(repo.rows[id])] == ToWire(repo.rows[id])
      {
        SentIsAtServer(id);
      }
    }
  }
}

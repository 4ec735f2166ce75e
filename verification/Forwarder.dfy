/**
  The MQTT adapter's batch-id/ack correlation (gateway/internal/forwarder/mqttadapter.go), what one
  undisturbed dispatch does to the queue, and how fast a backlog drains.
*/
module Forwarder {
  import opened Common
  import Q = Queue
  import opened QueueRepository
  import opened Delivery

  // ---------------------------------------------------------------- the adapter

  /** The first ack for `batch` among those arriving while Send waits. */
  function FirstAck(arrivals: seq<Ack>, batch: nat): Option<Ack> {
    if arrivals == [] then None
    else if arrivals[0].batch == batch then Some(arrivals[0])
    else FirstAck(arrivals[1..], batch)
  }

  /** What FirstAck finds: an arrival for the batch with none for it before; nothing only if there is none at all. */
  lemma {:induction false} FirstAckIs(arrivals: seq<Ack>, batch: nat) returns (i: nat)
    ensures FirstAck(arrivals, batch).Some? <==> exists k :: 0 <= k < |arrivals| && arrivals[k].batch == batch
    ensures FirstAck(arrivals, batch).Some? ==>
              && i < |arrivals| && FirstAck(arrivals, batch).value == arrivals[i] && arrivals[i].batch == batch
              && forall k :: 0 <= k < i ==> arrivals[k].batch != batch
  {
    i := 0;
    if arrivals != [] && arrivals[0].batch != batch {
      var rest := FirstAckIs(arrivals[1..], batch);
      i := rest + 1;
      if k :| 0 <= k < |arrivals| && arrivals[k].batch == batch {
        assert arrivals[1..][k - 1] == arrivals[k];
      }
    }
  }

  /** The channel of batch b holds an ack that names b and is among the arrivals. */
  predicate Answered(slot: Option<Ack>, b: nat, arrivals: seq<Ack>) {
    slot.Some? && slot.value in arrivals && slot.value.batch == b
  }

  class MqttAdapter {
    var pending: map<nat, Option<Ack>>

    constructor ()
      ensures pending == map[]
    {
      pending := map[];
    }

    /** Send registers its batch id before publishing. */
    method Register(batch: nat)
      modifies this
      ensures pending == old(pending)[batch := None]
    {
      pending := pending[batch := None];
    }

    /** Only a batch still waited for, whose one-slot channel is empty, takes the ack. */
    method HandleAck(a: Ack)
      modifies this
      ensures pending.Keys == old(pending.Keys)
      ensures forall b :: b in pending && b != a.batch ==> pending[b] == old(pending)[b]
      ensures a.batch in pending ==>
                pending[a.batch] == if old(pending)[a.batch].None? then Some(a) else old(pending)[a.batch]
    {
      if a.batch in pending && pending[a.batch].None? {
        pending := pending[a.batch := Some(a)];
      }
    }

    /** Send's deferred clean-up: what the channel holds by then, and the batch is forgotten. */
    method Unregister(batch: nat) returns (slot: Option<Ack>)
      requires batch in pending
      modifies this
      ensures slot == old(pending)[batch] && pending == old(pending) - {batch}
    {
      slot := pending[batch];
      pending := pending - {batch};
    }

    /** A process that starts has an empty map. */
    method Forget()
      modifies this
      ensures pending == map[]
    {
      pending := map[];
    }

    /**
      Send with a fresh batch id.  `arrivals` are the acks handled before the wait ends, for any
      batch and any number of times; Send succeeds exactly when the first of them naming this
      batch carries no error, leaves nothing of its own behind in the pending map, and any other
      batch there has at most gained an ack of its own.
    */
    method Send(batch: nat, connected: bool, publishError: Option<string>, arrivals: seq<Ack>)
      returns (error: Option<string>)
      requires batch !in pending
      modifies this
      ensures pending.Keys == old(pending.Keys)
      ensures forall b :: b in pending ==>
                pending[b] == old(pending)[b] || (old(pending)[b].None? && Answered(pending[b], b, arrivals))
      ensures error.None? <==>
                && connected && publishError.None?
                && FirstAck(arrivals, batch).Some? && FirstAck(arrivals, batch).value.error == ""
      ensures error.None? ==> Ack(batch, "") in arrivals
      ensures connected && publishError.None? && error.Some? && FirstAck(arrivals, batch).Some? ==>
                error.value == FirstAck(arrivals, batch).value.error
    {
      if !connected {
        return Some("not connected");
      }
      Register(batch);
      if publishError.Some? {
        var _ := Unregister(batch);
        return publishError;
      }
      var i := 0;
      while i < |arrivals| && pending[batch].None?
        invariant 0 <= i <= |arrivals| && pending.Keys == old(pending.Keys) + {batch}
        invariant pending[batch].None? ==> FirstAck(arrivals, batch) == FirstAck(arrivals[i..], batch)
        invariant pending[batch].Some? ==>
                    FirstAck(arrivals, batch) == pending[batch] && Answered(pending[batch], batch, arrivals)
        invariant forall b :: b in pending && b != batch ==>
                    pending[b] == old(pending)[b] || (old(pending)[b].None? && Answered(pending[b], b, arrivals))
      {
        assert arrivals[i..][1..] == arrivals[i + 1..];
        HandleAck(arrivals[i]);
        i := i + 1;
      }
      var answer := Unregister(batch);
      match answer
      case None => return Some("timed out waiting for ack");
      case Some(a) => return if a.error == "" then None else Some(a.error);
    }
  }

  // ---------------------------------------------------------------- one undisturbed dispatch

  /** What the clock, the database and Send answered during one dispatchOnce; marking reads the clock row by row. */
  datatype Outcome =
    Outcome(now: int, fetchOk: bool, sendError: Option<string>, markOk: bool, markNow: nat -> int)

  /** The clock readings MarkFailed makes for n rows. */
  function Nows(markNow: nat -> int, n: nat): (nows: seq<int>)
    ensures |nows| == n
  {
    seq(n, i requires 0 <= i < n => markNow(i))
  }

  /** The new table after a dispatchOnce that fetched `ids` and was not disturbed. */
  function AfterDispatch(db: Q.Db, ids: seq<int>, o: Outcome): Q.Db {
    var f := Q.MarkSending(db, ids);
    if ids == [] then db
    else if !o.markOk then f
    else match o.sendError
      case None => Q.MarkSent(f, ids, o.markNow(0))
      case Some(e) => Q.MarkFailed(f, ids, Nows(o.markNow, |ids|), e)
  }

  ghost predicate Dispatches(db: Q.Db, db': Q.Db, o: Outcome, limit: int) {
    if !o.fetchOk then db' == db
    else exists ids :: Q.IsFetch(db, o.now, limit, ids) && db' == AfterDispatch(db, ids, o)
  }

  // ---------------------------------------------------------------- draining a backlog

  function Undelivered(db: Q.Db): set<int> {
    set id | id in db.rows && db.rows[id].status != Q.Sent
  }

  /** Every undelivered row is PENDING and due by `time`, as after startup recovery. */
  ghost predicate AllDue(db: Q.Db, time: int) {
    forall id :: id in db.rows && db.rows[id].status != Q.Sent ==>
        db.rows[id].status == Q.Pending && db.rows[id].nextAttempt <= time
  }

  predicate Succeeds(o: Outcome, time: int) {
    o.fetchOk && o.sendError.None? && o.markOk && time <= o.now
  }

  function Max0(x: int): nat { if x < 0 then 0 else x }

  lemma DueRowsAreCandidates(db: Q.Db, now: int, time: int)
    requires AllDue(db, time) && time <= now
    ensures Q.FetchKeys(db.rows, now).Keys == Undelivered(db)
  {
    forall id | id in db.rows
      ensures id in Q.FetchKeys(db.rows, now) <==> db.rows[id].status != Q.Sent
    {
      assert Q.Eligible(db.rows[id], now) <==> db.rows[id].status != Q.Sent;
    }
  }

  lemma FetchSize(db: Q.Db, now: int, limit: int, ids: seq<int>, due: set<int>)
    requires limit > 0 && Q.IsFetch(db, now, limit, ids) && Q.FetchKeys(db.rows, now).Keys == due
    ensures (set id | id in ids) <= due && |set id | id in ids| == if |due| < limit then |due| else limit
  {
    var taken := set id | id in ids;
    var keys := Q.FetchKeys(db.rows, now);
    DistinctSize(ids);
    assert forall i :: 0 <= i < |ids| ==> ids[i] in keys.Keys;
    assert forall id :: id in taken ==> id in due;
    SubsetSize(taken, due);
    if |ids| < limit {
      assert forall id :: id in keys.Keys ==> id in ids;
      assert taken == due;
    }
  }

  lemma DeliveredRows(db: Q.Db, ids: seq<int>, o: Outcome)
    requires o.sendError.None? && o.markOk
    ensures var db' := AfterDispatch(db, ids, o);
            && db'.rows.Keys == db.rows.Keys
            && (forall id :: id in db.rows && id in ids ==> db'.rows[id].status == Q.Sent)
            && (forall id :: id in db.rows && id !in ids ==> db'.rows[id] == db.rows[id])
  {}

  /** One successful dispatch delivers exactly min(limit, backlog) rows and loses none. */
  lemma DispatchShrinks(db: Q.Db, db': Q.Db, o: Outcome, limit: int, time: int)
    requires limit > 0 && AllDue(db, time) && Succeeds(o, time) && Dispatches(db, db', o, limit)
    ensures AllDue(db', time) && db'.rows.Keys == db.rows.Keys
    ensures |Undelivered(db')| == Max0(|Undelivered(db)| - limit)
  {
    hide Q.IsFetch, Q.FetchKeys, AfterDispatch;
    var ids :| Q.IsFetch(db, o.now, limit, ids) && db' == AfterDispatch(db, ids, o);
    DueRowsAreCandidates(db, o.now, time);
    FetchSize(db, o.now, limit, ids, Undelivered(db));
    DeliveredRows(db, ids, o);
    forall id | id in db.rows
      ensures id in Undelivered(db') <==> id in Undelivered(db) && id !in ids
    {
      assert id in ids ==> db'.rows[id].status == Q.Sent;
    }
    assert Undelivered(db') == Undelivered(db) - (set id | id in ids);
  }

  lemma {:induction false} BacklogAfter(trace: seq<Q.Db>, outcomes: seq<Outcome>, limit: int, time: int, k: nat)
    requires limit > 0 && |trace| == |outcomes| + 1 && k <= |outcomes| && AllDue(trace[0], time)
    requires forall i :: 0 <= i < |outcomes| ==>
              Succeeds(outcomes[i], time) && Dispatches(trace[i], trace[i + 1], outcomes[i], limit)
    ensures AllDue(trace[k], time) && trace[k].rows.Keys == trace[0].rows.Keys
    ensures |Undelivered(trace[k])| == Max0(|Undelivered(trace[0])| - k * limit)
  {
    if k > 0 {
      BacklogAfter(trace, outcomes, limit, time, k - 1);
      DispatchShrinks(trace[k - 1], trace[k], outcomes[k - 1], limit, time);
      assert k * limit == (k - 1) * limit + limit;
    }
  }

  /** Startup recovery leaves no row SENDING. */
  lemma RecoveredIsDue(db: Q.Db, time: int)
    requires forall id :: id in db.rows && db.rows[id].status != Q.Sent ==> db.rows[id].nextAttempt <= time
    ensures AllDue(Q.RecoverSending(db), time) && Undelivered(Q.RecoverSending(db)) == Undelivered(db)
  {}

  /**
    After recovery, with sends and database calls succeeding once every next-attempt time has
    passed, n undelivered rows are all SENT after exactly ceil(n / limit) dispatches, not earlier.
  */
  lemma DrainsExactly(db: Q.Db, trace: seq<Q.Db>, outcomes: seq<Outcome>, limit: int, time: int, k: nat)
    requires limit > 0 && |trace| == |outcomes| + 1 && k <= |outcomes|
    requires forall id :: id in db.rows && db.rows[id].status != Q.Sent ==> db.rows[id].nextAttempt <= time
    requires trace[0] == Q.RecoverSending(db)
    requires forall i :: 0 <= i < |outcomes| ==>
              Succeeds(outcomes[i], time) && Dispatches(trace[i], trace[i + 1], outcomes[i], limit)
    ensures Undelivered(trace[k]) == {} <==> k >= (|Undelivered(db)| + limit - 1) / limit
    ensures trace[k].rows.Keys == db.rows.Keys
  {
    var n := |Undelivered(db)|;
    RecoveredIsDue(db, time);
    BacklogAfter(trace, outcomes, limit, time, k);
    CeilIsEnough(n, limit, k);
    assert Undelivered(trace[k]) == {} <==> |Undelivered(trace[k])| == 0;
  }

  lemma CeilIsEnough(n: nat, limit: int, k: nat)
    requires limit > 0
    ensures k * limit >= n <==> k >= (n + limit - 1) / limit
  {
    var c := (n + limit - 1) / limit;
    assert n <= c * limit && c * limit <= n + limit - 1;
    if k >= c {
      assert k * limit >= c * limit;
    } else {
      assert (k + 1) * limit <= c * limit;
    }
  }
}

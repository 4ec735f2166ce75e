/** What the delivery invariant means for every run: the promises of store and forward. */
module Guarantees {
  import opened Common
  import opened Queue
  import opened Server
  import opened Delivery

  /** Entry e is the committed reading, field by field, its time cut to the millisecond it falls in. */
  predicate Carries(e: WireEntry, c: Commit) {
    && e.gateway == c.entry.gateway && e.seqId == c.seqId
    && e.device == c.entry.device && e.datapoint == c.entry.datapoint
    && e.value == c.entry.value && e.quality == c.entry.quality
    && e.eventMs * 1_000_000 <= c.entry.eventNs < (e.eventMs + 1) * 1_000_000
    && e.priority == (if c.entry.priority == "" then "NORMAL" else c.entry.priority)
  }

  /** There is exactly one such entry. */
  lemma CarriesIffExpected(e: WireEntry, c: Commit)
    ensures Carries(e, c) <==> e == Expected(c)
  {
    CutIsFloor(c.entry.eventNs);
  }

  /** Two commits with the same key are the same commit. */
  lemma KeyNamesCommit(w: World, i: nat, j: nat)
    requires LogOk(w.log, w.db.lastSeq, w.own) && i < |w.log| && j < |w.log|
    requires KeyOf(Expected(w.log[i])) == KeyOf(Expected(w.log[j]))
    ensures i == j
  {
    if i < j {
      CommitKeysDiffer(w.log, w.db.lastSeq, w.own, i, j);
    } else if j < i {
      CommitKeysDiffer(w.log, w.db.lastSeq, w.own, j, i);
    }
  }

  /** If a commit's key is stored, what is stored is that commit, its event time cut to the millisecond. */
  lemma StoredIsExact(w: World, i: nat)
    requires Inv(w) && i < |w.log| && KeyOf(Expected(w.log[i])) in w.store
    ensures w.store[KeyOf(Expected(w.log[i]))] == Expected(w.log[i])
    ensures Carries(w.store[KeyOf(Expected(w.log[i]))], w.log[i])
  {
    CarriesIffExpected(Expected(w.log[i]), w.log[i]);
    var k := KeyOf(Expected(w.log[i]));
    assert k.gateway in w.own;
    var j :| 0 <= j < |w.log| && w.store[k] == Expected(w.log[j]);
    KeyNamesCommit(w, i, j);
  }

  /** A row that is SENT is on the server, with exactly the content of the reading inserted. */
  lemma SentMeansDelivered(r: Run, n: nat, id: int)
    requires IsRun(r) && n < |r.states|
    requires id in r.states[n].db.rows && r.states[n].db.rows[id].status == Sent
    ensures var w := r.states[n];
            && 1 <= id <= |w.log|
            && RowKey(w.db.rows[id]) in w.store
            && Carries(w.store[RowKey(w.db.rows[id])], w.log[id - 1])
  {
    var w := r.states[n];
    RunKeeps(r, n);
    assert RowKey(w.db.rows[id]) == KeyOf(ToWire(w.db.rows[id]));
    StoredIsExact(w, id - 1);
  }

  /** The k-th commit of a gateway carries sequence number k; numbers never repeat, across restarts and deletions. */
  lemma SequencesCountUp(r: Run, n: nat, i: nat)
    requires IsRun(r) && n < |r.states| && i < |r.states[n].log|
    ensures var log := r.states[n].log;
            && log[i].seqId == Count(log[..i], log[i].entry.gateway) + 1
            && forall j :: 0 <= j < |log| && j != i && log[j].entry.gateway == log[i].entry.gateway ==>
                log[j].seqId != log[i].seqId
  {
    var w := r.states[n];
    RunKeeps(r, n);
    forall j | 0 <= j < |w.log| && j != i && w.log[j].entry.gateway == w.log[i].entry.gateway
      ensures w.log[j].seqId != w.log[i].seqId
    {
      if w.log[j].seqId == w.log[i].seqId {
        KeyNamesCommit(w, i, j);
      }
    }
  }

  /** Inserting for a gateway that was set up always commits, with the next number. */
  lemma KnownGatewayInsertCommits(r: Run, n: nat)
    requires IsRun(r) && n < |r.steps| && r.steps[n].InsertReading?
    ensures var w, w', e := r.states[n], r.states[n + 1], r.steps[n].entry;
            if e.gateway in w.db.lastSeq
            then w'.log == w.log + [Commit(e, Count(w.log, e.gateway) + 1)] && |w'.log| in w'.db.rows
            else w' == w
  {
    RunKeeps(r, n);
    InsertNeverConflicts(r.states[n], r.steps[n].entry);
  }

  /** However often and in whatever batches a reading is sent, every copy on the wire is the same. */
  lemma RetransmissionsAgree(r: Run, n: nat, b: nat, i: nat, c: nat, j: nat)
    requires IsRun(r) && n < |r.states|
    requires b in r.states[n].published && i < |r.states[n].published[b]|
    requires c in r.states[n].published && j < |r.states[n].published[c]|
    requires KeyOf(r.states[n].published[b][i]) == KeyOf(r.states[n].published[c][j])
    ensures r.states[n].published[b][i] == r.states[n].published[c][j]
  {
    var w := r.states[n];
    RunKeeps(r, n);
    var x :| 0 <= x < |w.log| && w.published[b][i] == Expected(w.log[x]);
    var y :| 0 <= y < |w.log| && w.published[c][j] == Expected(w.log[y]);
    KeyNamesCommit(w, x, y);
  }

  /** Under this gateway's ids the server holds committed readings only, each unaltered. */
  lemma ServerHoldsCommitted(r: Run, n: nat, k: Key)
    requires IsRun(r) && n < |r.states|
    requires k in r.states[n].store && k.gateway in r.states[n].own
    ensures exists i :: 0 <= i < |r.states[n].log| && Carries(r.states[n].store[k], r.states[n].log[i])
    ensures r.states[n].store[k].gateway == k.gateway && r.states[n].store[k].seqId == k.seqId
  {
    RunKeeps(r, n);
    var i :| 0 <= i < |r.states[n].log| && r.states[n].store[k] == Expected(r.states[n].log[i]);
    CarriesIffExpected(r.states[n].store[k], r.states[n].log[i]);
  }

  /** Conservation: each committed reading is in exactly one of queue, retired, evicted. */
  lemma Conservation(r: Run, n: nat, id: int)
    requires IsRun(r) && n < |r.states| && 1 <= id <= |r.states[n].log|
    ensures var w := r.states[n];
            var c := w.log[id - 1];
            || (id in w.db.rows && id !in w.retired && id !in w.evicted && Carries(ToWire(w.db.rows[id]), c))
            || (id !in w.db.rows && id in w.retired && id !in w.evicted && KeyOf(Expected(c)) in w.store)
            || (id !in w.db.rows && id !in w.retired && id in w.evicted && c.entry.priority != "CRITICAL")
  {
    RunKeeps(r, n);
    CarriesIffExpected(Expected(r.states[n].log[id - 1]), r.states[n].log[id - 1]);
  }

  /** A CRITICAL reading that has left the queue is on the server, unaltered. */
  lemma CriticalNeverLost(r: Run, n: nat, id: int)
    requires IsRun(r) && n < |r.states| && 1 <= id <= |r.states[n].log|
    requires r.states[n].log[id - 1].entry.priority == "CRITICAL" && id !in r.states[n].db.rows
    ensures var w := r.states[n];
            var e := Expected(w.log[id - 1]);
            KeyOf(e) in w.store && Carries(w.store[KeyOf(e)], w.log[id - 1])
  {
    RunKeeps(r, n);
    Conservation(r, n, id);
    StoredIsExact(r.states[n], id - 1);
  }

  /** In-flight batches share no row, and every row of theirs still in the table is SENDING. */
  lemma FlightsAreApart(r: Run, n: nat, b: nat, c: nat)
    requires IsRun(r) && n < |r.states| && b in r.states[n].flights && c in r.states[n].flights
    ensures b != c ==> Apart(r.states[n].flights[b], r.states[n].flights[c])
    ensures forall id :: id in r.states[n].flights[b].ids && id in r.states[n].db.rows ==>
              r.states[n].db.rows[id].status == Sending
  {
    RunKeeps(r, n);
    assert CargoOk(r.states[n].flights[b], r.states[n].log, r.states[n].db.rows);
  }

  // ---------------------------------------------------------------- what lasts from step to step

  /** What no step ever does to the rows: a delivered row stays SENT, and a row id is never used again. */
  ghost predicate RowsLast(rows: map<int, Row>, rows': map<int, Row>, committed: nat) {
    && (forall id :: id in rows && rows[id].status == Sent && id in rows' ==> rows'[id].status == Sent)
    && (forall id :: id in rows' && id <= committed ==> id in rows)
  }

  ghost predicate StoreLasts(store: map<Key, WireEntry>, store': map<Key, WireEntry>) {
    forall k :: k in store ==> k in store' && store'[k] == store[k]
  }

  ghost predicate Lasting(w: World, w': World) {
    && w.own == w'.own
    && w.log <= w'.log
    && StoreLasts(w.store, w'.store)
    && RowsLast(w.db.rows, w'.db.rows, |w.log|)
  }

  lemma RowsInLog(w: World)
    requires Inv(w)
    ensures w.db.lastId == |w.log|
    ensures forall id :: id in w.db.rows ==> 1 <= id <= |w.log|
  {}

  lemma FlightRowsSending(w: World, b: nat)
    requires Inv(w) && b in w.flights
    ensures Distinct(w.flights[b].ids)
    ensures forall id :: id in w.flights[b].ids && id in w.db.rows ==> w.db.rows[id].status == Sending
  {}

  /**
    The queue state machine of the design: what step s may do to row id, which reads r before it
    and r' after it.  Only these steps touch a row, and each only from the status it expects.
  */
  ghost predicate Moves(w: World, s: Step, id: int, r: Row, r': Row)
    requires Enabled(w, s)
  {
    match s
    case Fetch(_, now, _, ids) =>
      if id in ids then Eligible(r, now) && r' == r.(status := Sending) else r' == r
    case RecordSent(b, now, ok) =>
      if ok && id in w.flights[b].ids
      then r.status == Sending && r' == r.(status := Sent, sentAt := Some(now))
      else r' == r
    case RecordFailure(b, nows, ok) =>
      var f := w.flights[b];
      if ok && id in f.ids && FailRows(w.db.rows, f.ids, nows, f.stage.error).Some? then
        && r.status == Sending
        && exists i :: 0 <= i < |f.ids| && f.ids[i] == id && r' == FailRow(r, nows[i], f.stage.error)
      else r' == r
    case StartForwarder(recovered) =>
      r' == if recovered && r.status == Sending then r.(status := Pending) else r
    case _ => r' == r
  }

  lemma FailureMoves(w: World, s: Step, id: int)
    requires Inv(w) && s.RecordFailure? && Enabled(w, s)
    ensures var w' := AfterFailure(w, s.batch, s.nows, s.ok);
            && w'.db.rows.Keys == w.db.rows.Keys
            && (id in w.db.rows ==> Moves(w, s, id, w.db.rows[id], w'.db.rows[id]))
  {
    hide Inv;
    var f := w.flights[s.batch];
    FlightRowsSending(w, s.batch);
    FailRowsByRow(w.db.rows, f.ids, s.nows, f.stage.error);
    hide FailRows;
    if id in f.ids {
      var i :| 0 <= i < |f.ids| && f.ids[i] == id;
    }
  }

  lemma FetchMoves(w: World, s: Step, id: int)
    requires s.Fetch? && Enabled(w, s) && id in w.db.rows
    ensures id in MarkSending(w.db, s.ids).rows && Moves(w, s, id, w.db.rows[id], MarkSending(w.db, s.ids).rows[id])
  {}

  /** The steps that are repository calls changing rows. */
  predicate ChangesRows(s: Step) {
    s.InsertReading? || s.Fetch? || s.RecordSent? || s.RecordFailure? || s.StartForwarder? || s.EvictRows? || s.Retire?
  }

  lemma QuietSteps(w: World, s: Step, w': World, id: int)
    requires Next(w, s, w') && !ChangesRows(s) && id in w'.db.rows
    ensures id in w.db.rows && Moves(w, s, id, w.db.rows[id], w'.db.rows[id])
  {
    hide IsTop, Ingest;
  }

  lemma PlainMoves(w: World, s: Step, w': World, id: int)
    requires Inv(w) && Next(w, s, w') && id in w'.db.rows
    requires s.RecordSent? || s.StartForwarder? || s.EvictRows? || s.Retire?
    ensures id in w.db.rows && Moves(w, s, id, w.db.rows[id], w'.db.rows[id])
  {
    hide Inv, IsEviction, Ingest;
    if s.RecordSent? {
      FlightRowsSending(w, s.batch);
    }
  }

  /** Every step moves every row along the state machine, and only Insert brings a row in, under a new id. */
  lemma RowsMove(w: World, s: Step, w': World, id: int)
    requires Inv(w) && Next(w, s, w') && id in w'.db.rows
    ensures if id in w.db.rows then Moves(w, s, id, w.db.rows[id], w'.db.rows[id])
            else && s.InsertReading? && id == |w.log| + 1 == |w'.log|
                 && w'.db.rows[id] == NewRow(s.entry, w'.log[id - 1].seqId)
  {
    RowsInLog(w);
    hide Inv, IsFetch, FailRows;
    if s.InsertReading? {
    } else {
      hide Moves;
      if !ChangesRows(s) {
        hide Next;
        QuietSteps(w, s, w', id);
      } else if s.RecordFailure? {
        FailureMoves(w, s, id);
      } else if s.Fetch? {
        FetchMoves(w, s, id);
      } else {
        hide Next;
        PlainMoves(w, s, w', id);
      }
    }
  }

  lemma StoreGrowsOnly(w: World, s: Step, w': World)
    requires Next(w, s, w')
    ensures w.own == w'.own && w.log <= w'.log && StoreLasts(w.store, w'.store)
  {
    hide IsFetch, IsEviction, Ingest, FailRows, MarkSending, MarkSent, RecoverSending, DeleteSentOlderThan, Evict,
      Ensure, Without, ExpiredIds, ToWireEntries;
    match s
    case IngestMessage(b, n) => IngestFacts(w.store, w.published[b][..n]);
    case ForeignEntry(e) => IngestFacts(w.store, [e]);
    case _ =>
  }

  lemma StepLasts(w: World, s: Step, w': World)
    requires Inv(w) && Next(w, s, w')
    ensures Lasting(w, w')
  {
    hide Inv, Apply, IsTop;
    StoreGrowsOnly(w, s, w');
    forall id | id in w'.db.rows
      ensures id in w.db.rows && w.db.rows[id].status == Sent ==> w'.db.rows[id].status == Sent
      ensures id <= |w.log| ==> id in w.db.rows
    {
      RowsMove(w, s, w', id);
    }
  }

  lemma LastingCompose(a: World, b: World, c: World)
    requires Lasting(a, b) && Lasting(b, c)
    requires forall id :: id in a.db.rows ==> id <= |a.log|
    ensures Lasting(a, c)
  {}

  /**
    Over any stretch of a run: history only grows, stored readings never change, SENT is final, no row
    id is reused.
  */
  lemma {:induction false} RunLasts(r: Run, m: nat, n: nat)
    requires IsRun(r) && m <= n < |r.states|
    ensures Lasting(r.states[m], r.states[n])
    decreases n - m
  {
    hide Next, Inv;
    if m < n {
      RunLasts(r, m, n - 1);
      RunKeeps(r, n - 1);
      StepLasts(r.states[n - 1], r.steps[n - 1], r.states[n]);
      RunKeeps(r, m);
      RowsInLog(r.states[m]);
      LastingCompose(r.states[m], r.states[n - 1], r.states[n]);
    }
  }
}

/** First in, first out within a priority, across all batches of a run. */
module DispatchOrder {
  import opened Common
  import opened Queue
  import opened Server
  import opened Delivery
  import opened Guarantees

  /** A run of one gateway in which no failure is recorded and the process does not crash. */
  ghost predicate Smooth(r: Run, gateway: string)
    requires IsRun(r)
  {
    && r.states[0].own == {gateway}
    && forall i :: 0 <= i < |r.steps| ==> !r.steps[i].RecordFailure? && r.steps[i] != Crash
  }

  function Rank(log: seq<Commit>, id: int): int {
    if 1 <= id <= |log| then FetchRank(Expected(log[id - 1]).priority) else -1
  }

  /** If a and b have the same priority, a comes first. */
  predicate Ahead(log: seq<Commit>, a: int, b: int) {
    Rank(log, a) == Rank(log, b) ==> a < b
  }

  lemma {:induction false} CountOfOnly(log: seq<Commit>, g: string)
    requires forall i :: 0 <= i < |log| ==> log[i].entry.gateway == g
    ensures Count(log, g) == |log|
  {
    if log != [] {
      CountOfOnly(log[..|log| - 1], g);
    }
  }

  /** With one gateway, row ids and sequence numbers coincide. */
  lemma SequenceIsId(w: World, g: string, id: int)
    requires Inv(w) && w.own == {g} && 1 <= id <= |w.log|
    ensures w.log[id - 1].seqId == id
    ensures id in w.db.rows ==> w.db.rows[id].seqId == id && FetchRank(w.db.rows[id].priority) == Rank(w.log, id)
  {
    hide LedgerOk, CargosOk, StagesOk, PublishedOk, AcksOk, PendingOk, StoreOk, SentOk;
    assert forall i :: 0 <= i < |w.log| ==> w.log[i].entry.gateway in w.db.lastSeq;
    CountOfOnly(w.log[..id - 1], g);
    if id in w.db.rows {
      assert ToWire(w.db.rows[id]) == Expected(w.log[id - 1]);
    }
  }

  ghost predicate Quiet(process: Process, rows: map<int, Row>, dispatched: seq<int>) {
    && (forall id :: id in rows ==> rows[id].nextAttempt == 0)
    && (process != Running ==> dispatched == [] && forall id :: id in rows ==> rows[id].status == Pending)
  }

  ghost predicate IsWaiting(rows: map<int, Row>, id: int) {
    id in rows && rows[id].status == Pending
  }

  /** Rows already dispatched, in order, and all of them ahead of the rows still waiting. */
  ghost predicate InOrder(rows: map<int, Row>, log: seq<Commit>, dispatched: seq<int>) {
    && (forall i :: 0 <= i < |dispatched| ==> 1 <= dispatched[i] <= |log|)
    && (forall i, j :: 0 <= i < j < |dispatched| ==> Ahead(log, dispatched[i], dispatched[j]))
    && (forall i, id :: 0 <= i < |dispatched| && IsWaiting(rows, id) ==> Ahead(log, dispatched[i], id))
  }

  ghost predicate Ordered(w: World) {
    Quiet(w.process, w.db.rows, w.dispatched) && InOrder(w.db.rows, w.log, w.dispatched)
  }

  /** A fetched batch is sorted, and nothing it left behind in a priority precedes what it took. */
  ghost predicate GoodBatch(rows: map<int, Row>, log: seq<Commit>, ids: seq<int>) {
    && (forall i :: 0 <= i < |ids| ==> IsWaiting(rows, ids[i]) && 1 <= ids[i] <= |log|)
    && (forall i, j :: 0 <= i < j < |ids| ==> Ahead(log, ids[i], ids[j]))
    && (forall i, id :: 0 <= i < |ids| && IsWaiting(rows, id) && id !in ids ==> Ahead(log, ids[i], id))
  }

  lemma FetchedIsGood(w: World, g: string, now: int, limit: int, ids: seq<int>)
    requires Inv(w) && w.own == {g} && IsFetch(w.db, now, limit, ids)
    requires forall id :: id in w.db.rows ==> w.db.rows[id].nextAttempt == 0
    ensures GoodBatch(w.db.rows, w.log, ids)
  {
    hide Inv;
    RowsInLog(w);
    FetchTakes(w.db.rows, now, limit, ids);
    var keys := FetchKeys(w.db.rows, now);
    forall id | id in w.db.rows
      ensures w.db.rows[id].seqId == id && FetchRank(w.db.rows[id].priority) == Rank(w.log, id)
    {
      SequenceIsId(w, g, id);
    }
    hide Rank;
    forall i, j | 0 <= i < j < |ids| ensures Ahead(w.log, ids[i], ids[j]) {
      assert !Before(keys[ids[j]], keys[ids[i]]);
    }
    forall i, id | 0 <= i < |ids| && IsWaiting(w.db.rows, id) && id !in ids ensures Ahead(w.log, ids[i], id) {
      assert w.db.rows[ids[i]].nextAttempt == 0 && w.db.rows[id].nextAttempt == 0;
      assert Eligible(w.db.rows[id], now);
      assert !Before(keys[id], keys[ids[i]]);
    }
  }

  lemma BatchExtendsOrder(rows: map<int, Row>, rows': map<int, Row>, log: seq<Commit>, dispatched: seq<int>,
                          ids: seq<int>)
    requires InOrder(rows, log, dispatched) && GoodBatch(rows, log, ids)
    requires forall id :: IsWaiting(rows', id) ==> IsWaiting(rows, id) && id !in ids
    ensures InOrder(rows', log, dispatched + ids)
  {}

  lemma FetchKeepsOrder(w: World, s: Step, g: string)
    requires Inv(w) && Ordered(w) && w.own == {g} && s.Fetch? && Enabled(w, s)
    ensures Ordered(AfterFetch(w, s.batch, s.now, s.ids))
  {
    hide Inv, IsTop;
    FetchedIsGood(w, g, s.now, s.limit, s.ids);
    var rows' := MarkSending(w.db, s.ids).rows;
    hide InOrder, GoodBatch;
    BatchExtendsOrder(w.db.rows, rows', w.log, w.dispatched, s.ids);
    assert Quiet(w.process, rows', w.dispatched + s.ids);
  }

  lemma NewcomerIsLast(rows: map<int, Row>, log: seq<Commit>, dispatched: seq<int>, c: Commit, r: Row)
    requires InOrder(rows, log, dispatched) && forall id :: id in rows ==> 1 <= id <= |log|
    ensures InOrder(rows[|log| + 1 := r], log + [c], dispatched)
  {
    var log' := log + [c];
    forall id | 1 <= id <= |log| ensures Rank(log', id) == Rank(log, id) {}
    forall i, id | 0 <= i < |dispatched| && IsWaiting(rows[|log| + 1 := r], id) ensures Ahead(log', dispatched[i], id) {
      if id != |log| + 1 {
        assert IsWaiting(rows, id);
        assert Ahead(log, dispatched[i], id);
      }
    }
    forall i, j | 0 <= i < j < |dispatched| ensures Ahead(log', dispatched[i], dispatched[j]) {
      assert Ahead(log, dispatched[i], dispatched[j]);
    }
  }

  lemma InsertKeepsOrder(w: World, e: Reading)
    requires Inv(w) && Ordered(w) && w.process != Down
    ensures Ordered(AfterInsert(w, e))
  {
    hide Inv, InOrder;
    RowsInLog(w);
    if InsertSucceeds(w.db, e) {
      var seqId := w.db.lastSeq[e.gateway] + 1;
      NewcomerIsLast(w.db.rows, w.log, w.dispatched, Commit(e, seqId), NewRow(e, seqId));
    }
  }

  /** A step other than Insert, Fetch, a recorded failure or a crash touches neither log nor dispatch order. */
  lemma OrderUntouched(w: World, s: Step, w': World)
    requires Next(w, s, w') && !s.InsertReading? && !s.Fetch? && !s.RecordFailure? && s != Crash
    ensures w'.log == w.log && w'.dispatched == w.dispatched
    ensures w'.process != Running ==> w.process != Running
    ensures w.process != Running ==> !s.RecordSent? || s.batch in w.flights
    ensures s.StartForwarder? ==> w.process == Booting
  {
    hide IsTop, FetchKeys, EvictKeys, Ingest;
    match s
    case _ =>
  }

  lemma OtherStepsKeepOrder(w: World, s: Step, w': World)
    requires Inv(w) && Ordered(w) && Next(w, s, w')
    requires !s.InsertReading? && !s.Fetch? && !s.RecordFailure? && s != Crash
    ensures Ordered(w')
  {
    assert w.process != Running ==> w.flights == map[];
    OrderUntouched(w, s, w');
    hide Inv, Apply, IsTop, Ahead;
    forall id | id in w'.db.rows
      ensures id in w.db.rows && w'.db.rows[id].nextAttempt == w.db.rows[id].nextAttempt
      ensures w'.db.rows[id].status == Pending ==> w.db.rows[id].status == Pending
      ensures w.process != Running ==> w'.db.rows[id].status == w.db.rows[id].status
    {
      RowsMove(w, s, w', id);
    }
    hide Next;
    assert Quiet(w'.process, w'.db.rows, w'.dispatched);
    BatchExtendsOrder(w.db.rows, w'.db.rows, w.log, w.dispatched, []);
    assert w.dispatched + [] == w'.dispatched;
  }

  lemma {:induction false} RunInOrder(r: Run, g: string, n: nat)
    requires IsRun(r) && Smooth(r, g) && n < |r.states|
    ensures Ordered(r.states[n]) && r.states[n].own == {g}
  {
    hide Apply, Inv, Ordered, IsTop;
    if n == 0 {
      assert Ordered(Init(r.states[0].own, r.states[0].clock)) by { InitOrdered(r.states[0].own, r.states[0].clock); }
    } else {
      var w, s, w' := r.states[n - 1], r.steps[n - 1], r.states[n];
      RunInOrder(r, g, n - 1);
      RunKeeps(r, n - 1);
      RunLasts(r, n - 1, n);
      assert Next(w, s, w');
      StepInOrder(w, s, w', g);
    }
  }

  lemma InitOrdered(own: set<string>, clock: int)
    ensures Ordered(Init(own, clock))
  {}

  lemma StepInOrder(w: World, s: Step, w': World, g: string)
    requires Inv(w) && Ordered(w) && w.own == {g} && Next(w, s, w') && !s.RecordFailure? && s != Crash
    ensures Ordered(w')
  {
    hide Inv, Ordered, IsTop;
    if s.InsertReading? {
      InsertKeepsOrder(w, s.entry);
    } else if s.Fetch? {
      FetchKeepsOrder(w, s, g);
    } else {
      OtherStepsKeepOrder(w, s, w');
    }
  }

  /**
    In any run of one gateway without recorded failures or crashes, rows of one priority are
    dispatched in strictly increasing sequence order, whatever inserts and evictions interleave.
  */
  lemma SentInSequence(r: Run, g: string, n: nat, i: nat, j: nat)
    requires IsRun(r) && Smooth(r, g) && n < |r.states| && i < j < |r.states[n].dispatched|
    ensures var w := r.states[n];
            var a, b := w.dispatched[i], w.dispatched[j];
            && 1 <= a <= |w.log| && 1 <= b <= |w.log|
            && (Rank(w.log, a) == Rank(w.log, b) ==> w.log[a - 1].seqId < w.log[b - 1].seqId)
            && (w.log[a - 1].entry.priority == w.log[b - 1].entry.priority ==> w.log[a - 1].seqId < w.log[b - 1].seqId)
  {
    hide Next, Inv;
    var w := r.states[n];
    RunInOrder(r, g, n);
    RunKeeps(r, n);
    assert Ahead(w.log, w.dispatched[i], w.dispatched[j]);
    SequenceIsId(w, g, w.dispatched[i]);
    SequenceIsId(w, g, w.dispatched[j]);
  }
}

/** Rows left SENDING with nobody working on them: how they come about, how long they last, what frees them. */
module Stranding {
  import opened Common
  import opened Queue
  import opened Server
  import opened Delivery
  import opened Guarantees

  /** SENDING, but no dispatch is working on it. */
  ghost predicate Stranded(w: World, id: int) {
    && w.process == Running
    && id in w.db.rows && w.db.rows[id].status == Sending
    && forall b :: b in w.flights ==> id !in w.flights[b].ids
  }

  /** A row of the batch was evicted since it was fetched. */
  ghost predicate LostOne(w: World, b: nat)
    requires b in w.flights
  {
    exists gone :: gone in w.flights[b].ids && gone !in w.db.rows
  }

  /** What strands row id: a marking that does not go through, or a start whose recovery failed. */
  ghost predicate Strands(w: World, s: Step, id: int)
    requires Enabled(w, s)
  {
    match s
    case RecordFailure(b, _, ok) => id in w.flights[b].ids && (!ok || LostOne(w, b))
    case RecordSent(b, _, ok) => id in w.flights[b].ids && !ok
    case StartForwarder(recovered) => !recovered && id in w.db.rows && w.db.rows[id].status == Sending
    case _ => false
  }

  lemma OnlyFlight(w: World, b: nat, id: int)
    requires Inv(w) && b in w.flights && id in w.flights[b].ids
    ensures w.process == Running
    ensures forall c :: c in w.flights && c != b ==> id !in w.flights[c].ids
  {}

  lemma NoFlightsBefore(w: World)
    requires Inv(w) && w.process != Running
    ensures w.flights == map[]
  {}

  /** Only a crash ends the process. */
  lemma StaysRunning(w: World, s: Step, w': World)
    requires Next(w, s, w') && w.process == Running && s != Crash
    ensures w'.process == Running
  {
    hide IsFetch, IsEviction, Ingest, FailRows, MarkSending, MarkSent, RecoverSending, DeleteSentOlderThan, Evict,
      Ensure, ExpiredIds, ToWireEntries;
  }

  /** Only starting the forwarder makes the process run. */
  lemma StartsRunning(w: World, s: Step, w': World)
    requires Next(w, s, w') && w.process != Running && w'.process == Running
    ensures s.StartForwarder?
  {
    hide IsFetch, IsEviction, Ingest, FailRows, MarkSending, MarkSent, RecoverSending, DeleteSentOlderThan, Evict,
      Ensure, ExpiredIds, ToWireEntries;
  }

  /** A step adds to the in-flight rows only what it fetches. */
  lemma FlightsGain(w: World, s: Step, w': World, b: nat)
    requires Next(w, s, w') && b in w'.flights
    ensures || (b in w.flights && w'.flights[b].ids == w.flights[b].ids)
            || (s.Fetch? && b == s.batch && w'.flights[b].ids == s.ids)
  {
    hide IsFetch, IsEviction, Ingest, FailRows, MarkSending, MarkSent, RecoverSending, DeleteSentOlderThan, Evict,
      Ensure, ExpiredIds, ToWireEntries;
    match s
    case _ =>
  }

  /** A batch stays in flight until its outcome is recorded or the process crashes. */
  lemma FlightsStay(w: World, s: Step, w': World, b: nat)
    requires Next(w, s, w') && b in w.flights && b in w.used && s != Crash
    requires !((s.RecordSent? || s.RecordFailure?) && s.batch == b)
    ensures b in w'.flights && w'.flights[b].ids == w.flights[b].ids
  {
    hide IsFetch, IsEviction, Ingest, FailRows, MarkSending, MarkSent, RecoverSending, DeleteSentOlderThan, Evict,
      Ensure, ExpiredIds, ToWireEntries;
    match s
    case _ =>
  }

  lemma FlightsUsed(w: World, b: nat)
    requires Inv(w) && b in w.flights
    ensures b in w.used
  {
    hide LogOk, RowsOk, LedgerOk, CargosOk, StagesOk, AcksOk, PendingOk, StoreOk, SentOk;
  }

  /** RecordFailure, exactly: a surviving row of the batch is stranded iff the call failed or a row of it is gone. */
  lemma FailureStrandsIff(w: World, b: nat, nows: seq<int>, ok: bool, id: int)
    requires Inv(w) && Enabled(w, RecordFailure(b, nows, ok)) && id in w.flights[b].ids && id in w.db.rows
    ensures Stranded(Apply(w, RecordFailure(b, nows, ok)), id) <==> !ok || LostOne(w, b)
  {
    hide Inv;
    var f := w.flights[b];
    FlightRowsSending(w, b);
    OnlyFlight(w, b, id);
    FailRowsByRow(w.db.rows, f.ids, nows, f.stage.error);
    hide FailRows;
    if !LostOne(w, b) {
      forall i | 0 <= i < |f.ids| ensures f.ids[i] in w.db.rows {
        assert f.ids[i] in f.ids;
      }
    }
    var i :| 0 <= i < |f.ids| && f.ids[i] == id;
  }

  /** RecordSent, exactly: a surviving row of the batch is stranded iff the call failed. */
  lemma SentStrandsIff(w: World, b: nat, now: int, ok: bool, id: int)
    requires Inv(w) && Enabled(w, RecordSent(b, now, ok)) && id in w.flights[b].ids && id in w.db.rows
    ensures Stranded(Apply(w, RecordSent(b, now, ok)), id) <==> !ok
  {
    hide Inv;
    FlightRowsSending(w, b);
    OnlyFlight(w, b, id);
  }

  lemma StartStrandsIff(w: World, recovered: bool, id: int)
    requires Inv(w) && Enabled(w, StartForwarder(recovered)) && id in w.db.rows
    ensures Stranded(Apply(w, StartForwarder(recovered)), id) <==> !recovered && w.db.rows[id].status == Sending
  {
    hide Inv;
    NoFlightsBefore(w);
  }

  /** Any other step leaves a row that was looked after looked after. */
  lemma OthersDoNotStrand(w: World, s: Step, w': World, id: int)
    requires Inv(w) && Next(w, s, w') && id in w.db.rows && id in w'.db.rows && !Stranded(w, id)
    requires !s.StartForwarder?
    requires (s.RecordSent? || s.RecordFailure?) ==> id !in w.flights[s.batch].ids
    ensures !Stranded(w', id)
  {
    hide Inv, Apply, IsFetch;
    RowsMove(w, s, w', id);
    if w.process != Running {
      if w'.process == Running {
        StartsRunning(w, s, w');
      }
    } else if s == Crash {
      assert w'.process == Down by { CrashIsDown(w, w'); }
    } else if w.db.rows[id].status == Sending {
      var b :| b in w.flights && id in w.flights[b].ids;
      FlightsUsed(w, b);
      FlightsStay(w, s, w', b);
    } else if w'.db.rows[id].status == Sending {
      assert s.Fetch? && id in s.ids;
      FetchedFlies(w, s, w');
    }
  }

  lemma CrashIsDown(w: World, w': World)
    requires Next(w, Crash, w')
    ensures w'.process == Down
  {}

  lemma FetchedFlies(w: World, s: Step, w': World)
    requires Next(w, s, w') && s.Fetch?
    ensures s.batch in w'.flights && w'.flights[s.batch].ids == s.ids
  {}

  /**
    The exact account: in every reachable state, a step strands a row that was not stranded if and
    only if it is a RecordFailure that fails or finds a row of the batch evicted, a RecordSent that
    fails, or a start without recovery, and the row is one it concerns.
  */
  lemma StepStrandsIff(w: World, s: Step, w': World, id: int)
    requires Inv(w) && Next(w, s, w') && id in w.db.rows && id in w'.db.rows && !Stranded(w, id)
    ensures Stranded(w', id) <==> Strands(w, s, id)
  {
    hide Inv, Apply, Stranded, LostOne, IsFetch;
    if s.StartForwarder? {
      StartStrandsIff(w, s.recovered, id);
    } else if s.RecordFailure? && id in w.flights[s.batch].ids {
      FailureStrandsIff(w, s.batch, s.nows, s.ok, id);
    } else if s.RecordSent? && id in w.flights[s.batch].ids {
      SentStrandsIff(w, s.batch, s.now, s.ok, id);
    } else {
      OthersDoNotStrand(w, s, w', id);
    }
  }

  /** The same over runs: when a row of a failed batch was evicted in flight, every surviving row is stranded. */
  lemma RollbackStrands(r: Run, n: nat, gone: int, id: int)
    requires IsRun(r) && n < |r.steps| && r.steps[n].RecordFailure? && r.steps[n].batch in r.states[n].flights
    requires var f := r.states[n].flights[r.steps[n].batch];
             gone in f.ids && gone !in r.states[n].db.rows && id in f.ids && id in r.states[n].db.rows
    ensures Stranded(r.states[n + 1], id)
  {
    hide Inv;
    var w, s := r.states[n], r.steps[n];
    assert Next(w, s, r.states[n + 1]);
    RunKeeps(r, n);
    assert LostOne(w, s.batch);
    FailureStrandsIff(w, s.batch, s.nows, s.ok, id);
  }

  // ---------------------------------------------------------------- how long it lasts

  lemma StepLeavesStranded(w: World, s: Step, w': World, id: int)
    requires Inv(w) && Next(w, s, w') && Stranded(w, id) && s != Crash && id in w'.db.rows
    ensures Stranded(w', id)
  {
    hide Inv, Apply;
    RowsMove(w, s, w', id);
    forall b | b in w'.flights ensures id !in w'.flights[b].ids {
      FlightsGain(w, s, w', b);
    }
    StaysRunning(w, s, w');
  }

  lemma StillThere(r: Run, m: nat, n: nat, id: int)
    requires IsRun(r) && m < n < |r.states| && id in r.states[m].db.rows && id in r.states[n].db.rows
    ensures id in r.states[n - 1].db.rows
  {
    hide Next, Inv;
    RunKeeps(r, m);
    RowsInLog(r.states[m]);
    RunLasts(r, m, n - 1);
    RunLasts(r, n - 1, n);
  }

  /** A stranded row is sent no more until the process restarts: it stays as it is, or is evicted. */
  lemma {:induction false} StrandedUntilRestart(r: Run, m: nat, n: nat, id: int)
    requires IsRun(r) && m <= n < |r.states| && Stranded(r.states[m], id)
    requires forall i :: m <= i < n ==> r.steps[i] != Crash
    ensures id in r.states[n].db.rows ==> Stranded(r.states[n], id)
    decreases n - m
  {
    hide Next, Inv;
    if m < n && id in r.states[n].db.rows {
      StillThere(r, m, n, id);
      StrandedUntilRestart(r, m, n - 1, id);
      RunKeeps(r, n - 1);
      StepLeavesStranded(r.states[n - 1], r.steps[n - 1], r.states[n], id);
    }
  }

  /** A restart whose recovery succeeds frees every stranded row: PENDING again, nothing else changed. */
  lemma RestartFrees(r: Run, n: nat, gateway: string, id: int)
    requires IsRun(r) && n + 3 < |r.states| && id in r.states[n].db.rows && r.states[n].db.rows[id].status == Sending
    requires r.steps[n] == Crash && r.steps[n + 1] == Boot(gateway) && r.steps[n + 2] == StartForwarder(true)
    ensures id in r.states[n + 3].db.rows
    ensures r.states[n + 3].db.rows[id] == r.states[n].db.rows[id].(status := Pending)
    ensures !Stranded(r.states[n + 3], id)
  {
    assert Next(r.states[n], Crash, r.states[n + 1]);
    assert Next(r.states[n + 1], Boot(gateway), r.states[n + 2]);
    assert Next(r.states[n + 2], StartForwarder(true), r.states[n + 3]);
  }

  // ---------------------------------------------------------------- a run that gets there

  /** The readings of the example: one NORMAL, one LOW, of the same gateway. */
  ghost predicate Example(g: string, a: Reading, b: Reading) {
    a.gateway == b.gateway == g && a.priority == "NORMAL" && b.priority == "LOW"
  }

  /** Booted, recovered, and the two readings inserted. */
  lemma TwoInserted(g: string, a: Reading, b: Reading) returns (r: Run)
    requires Example(g, a, b)
    ensures IsRun(r) && |r.steps| == 4
    ensures var w := r.states[4];
            && w.process == Running && w.used == {} && w.flights == map[]
            && w.db.rows == map[1 := NewRow(a, 1), 2 := NewRow(b, 2)]
  {
    var w0 := Init({g}, 0);
    var s0, s1, s2, s3 := Boot(g), StartForwarder(true), InsertReading(a), InsertReading(b);
    var w1 := Apply(w0, s0);
    var w2 := Apply(w1, s1);
    var w3 := Apply(w2, s2);
    var w4 := Apply(w3, s3);
    r := Run([w0, w1, w2, w3, w4], [s0, s1, s2, s3]);
  }

  lemma BothAreFetched(db: Db, a: Reading, b: Reading, now: nat)
    requires Example(a.gateway, a, b) && db.rows == map[1 := NewRow(a, 1), 2 := NewRow(b, 2)]
    ensures IsFetch(db, now, 2, [1, 2])
  {
    var keys := FetchKeys(db.rows, now);
    assert keys.Keys == {1, 2};
    assert keys[1] == SortKey(2, 1) && keys[2] == SortKey(3, 2);
  }

  lemma LowIsEvicted(db: Db, x: Row, y: Row)
    requires db.rows == map[1 := x, 2 := y] && x.priority == "NORMAL" && y.priority == "LOW"
    ensures IsEviction(db, 1, [2])
  {
    var keys := EvictKeys(db.rows);
    assert keys.Keys == {1, 2};
    assert keys[1] == SortKey(1, x.eventMs) && keys[2] == SortKey(0, y.eventMs);
  }

  lemma FetchBoth(w: World, a: Reading, b: Reading, now: nat) returns (w': World)
    requires Example(a.gateway, a, b) && w.process == Running && w.used == {} && w.flights == map[]
    requires w.db.rows == map[1 := NewRow(a, 1), 2 := NewRow(b, 2)]
    ensures Next(w, Fetch(0, now, 2, [1, 2]), w') && w'.process == Running
    ensures 0 in w'.flights && w'.flights[0].ids == [1, 2] && w'.flights[0].stage == Fetched
    ensures w'.db.rows.Keys == {1, 2} && w'.db.rows[1].priority == "NORMAL" && w'.db.rows[2].priority == "LOW"
  {
    hide IsFetch;
    assert 1 in w.db.rows && 2 in w.db.rows;
    BothAreFetched(w.db, a, b, now);
    w' := AfterFetch(w, 0, now, [1, 2]);
  }

  lemma EvictLow(w: World) returns (w': World)
    requires w.process == Running && w.db.rows.Keys == {1, 2}
    requires w.db.rows[1].priority == "NORMAL" && w.db.rows[2].priority == "LOW"
    ensures Next(w, EvictRows(1, [2]), w') && w'.db.rows.Keys == {1} && w'.flights == w.flights
  {
    hide IsEviction;
    assert w.db.rows == map[1 := w.db.rows[1], 2 := w.db.rows[2]];
    LowIsEvicted(w.db, w.db.rows[1], w.db.rows[2]);
    w' := Apply(w, EvictRows(1, [2]));
    assert w'.db.rows.Keys == w.db.rows.Keys - {2};
  }

  /** Both are fetched, the LOW one is evicted, the send is refused and the failure recorded. */
  lemma LosesOne(w4: World, a: Reading, b: Reading, now: nat) returns (w5: World, w6: World, w7: World, w8: World)
    requires Example(a.gateway, a, b) && w4.process == Running && w4.used == {} && w4.flights == map[]
    requires w4.db.rows == map[1 := NewRow(a, 1), 2 := NewRow(b, 2)]
    ensures Next(w4, Fetch(0, now, 2, [1, 2]), w5)
    ensures Next(w5, EvictRows(1, [2]), w6)
    ensures Next(w6, SendRefused(0), w7) && 0 in w7.flights && w7.flights[0].ids == [1, 2] && w7.db.rows.Keys == {1}
    ensures Next(w7, RecordFailure(0, [now, now], true), w8)
  {
    hide IsFetch, IsEviction, FailRows, AfterFetch, Evict;
    w5 := FetchBoth(w4, a, b, now);
    w6 := EvictLow(w5);
    w7 := Apply(w6, SendRefused(0));
    w8 := Apply(w7, RecordFailure(0, [now, now], true));
  }

  /** A run from the empty gateway that ends with row 1 stranded, every database call having succeeded. */
  lemma StrandingRun(g: string, a: Reading, b: Reading, now: nat) returns (r: Run)
    requires Example(g, a, b)
    ensures IsRun(r) && |r.steps| == 8 && r.steps[7] == RecordFailure(0, [now, now], true)
    ensures Stranded(r.states[8], 1)
  {
    hide Next, Stranded;
    var q := TwoInserted(g, a, b);
    var w5, w6, w7, w8 := LosesOne(q.states[4], a, b, now);
    var steps := [Fetch(0, now, 2, [1, 2]), EvictRows(1, [2]), SendRefused(0), RecordFailure(0, [now, now], true)];
    r := Run(q.states + [w5, w6, w7, w8], q.steps + steps);
    forall i | 0 <= i < 8 ensures Next(r.states[i], r.steps[i], r.states[i + 1]) {
      if i < 4 {
        assert Next(q.states[i], q.steps[i], q.states[i + 1]);
      }
    }
    assert 2 in [1, 2] && 1 in [1, 2];
    RollbackStrands(r, 7, 2, 1);
  }
}

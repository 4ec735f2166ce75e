/** The backoff schedule over whole runs, crashes included. */
module RetryRuns {
  import opened Common
  import opened Backoff
  import opened Queue
  import opened Delivery
  import opened Guarantees

  /** The clock readings of a step do not go back. */
  ghost predicate Forward(w: World, s: Step) {
    match s
    case Fetch(_, now, _, _) => now >= w.clock
    case RecordSent(_, now, _) => now >= w.clock
    case RecordFailure(_, nows, _) =>
      && (forall i :: 0 <= i < |nows| ==> nows[i] >= w.clock)
      && (forall i, j :: 0 <= i < j < |nows| ==> nows[i] <= nows[j])
    case _ => true
  }

  ghost predicate ClockNeverGoesBack(r: Run)
    requires IsRun(r)
  {
    forall i :: 0 <= i < |r.steps| ==> Forward(r.states[i], r.steps[i])
  }

  lemma {:induction false} AddFailuresOf(f: map<int, seq<int>>, ids: seq<int>, nows: seq<int>, id: int)
    requires |nows| == |ids| && Distinct(ids)
    ensures forall i :: 0 <= i < |ids| && ids[i] == id ==>
              FailuresOf(AddFailures(f, ids, nows), id) == FailuresOf(f, id) + [nows[i]]
    ensures id !in ids ==> FailuresOf(AddFailures(f, ids, nows), id) == FailuresOf(f, id)
  {
    if ids != [] {
      var n := |ids| - 1;
      AddFailuresOf(f, ids[..n], nows[..n], id);
      assert forall i :: 0 <= i < n ==> ids[..n][i] == ids[i];
      assert ids[n] !in ids[..n];
    }
  }

  /** Failures of one row, each at least its backoff after the one before, none in the future. */
  ghost predicate Spaced(f: seq<int>, clock: int) {
    && (forall k :: 0 <= k < |f| - 1 ==> f[k] + BackoffMs(k + 1) <= f[k + 1])
    && (f != [] ==> f[|f| - 1] <= clock)
  }

  /** The row's retry bookkeeping agrees with its recorded failures. */
  ghost predicate RowPaced(r: Row, f: seq<int>, clock: int) {
    && (f != [] ==> r.nextAttempt == f[|f| - 1] + BackoffMs(|f|))
    && (r.status == Sending ==> r.nextAttempt <= clock)
  }

  ghost predicate Counted(w: World) {
    && (forall id :: id > |w.log| ==> FailuresOf(w.failures, id) == [])
    && (forall id :: id in w.db.rows ==> w.db.rows[id].retryCount == |FailuresOf(w.failures, id)|)
  }

  ghost predicate Paced(w: World) {
    && (forall id :: Spaced(FailuresOf(w.failures, id), w.clock))
    && (forall id :: id in w.db.rows ==> RowPaced(w.db.rows[id], FailuresOf(w.failures, id), w.clock))
  }

  /** One failure was recorded for row id by this step. */
  ghost predicate Failed(w: World, s: Step, w': World, id: int) {
    && id in w.db.rows && w.db.rows[id].status == Sending && id in w'.db.rows
    && exists i, error :: s.RecordFailure? && 0 <= i < |s.nows|
         && FailuresOf(w'.failures, id) == FailuresOf(w.failures, id) + [s.nows[i]]
         && w'.db.rows[id] == FailRow(w.db.rows[id], s.nows[i], error)
  }

  /** No failure was recorded for row id by this step, and its retry columns stand. */
  ghost predicate Untouched(w: World, s: Step, w': World, id: int) {
    && FailuresOf(w'.failures, id) == FailuresOf(w.failures, id)
    && (id in w'.db.rows && id in w.db.rows ==>
          var r, r' := w.db.rows[id], w'.db.rows[id];
          && r'.retryCount == r.retryCount && r'.nextAttempt == r.nextAttempt
          && (r'.status == Sending ==> r.status == Sending || (s.Fetch? && r.nextAttempt <= s.now)))
    && (id in w'.db.rows && id !in w.db.rows ==>
          id == |w.log| + 1 == |w'.log| && w'.db.rows[id].retryCount == 0 && w'.db.rows[id].status == Pending)
  }

  lemma OnlyFailuresRecord(w: World, s: Step, w': World)
    requires Next(w, s, w') && !s.RecordFailure?
    ensures w'.failures == w.failures
  {}

  lemma FailureOutcome(w: World, s: Step, w': World)
    requires Next(w, s, w') && s.RecordFailure?
    ensures var f := w.flights[s.batch];
            var t := FailRows(w.db.rows, f.ids, s.nows, f.stage.error);
            || (t.Some? && w'.db.rows == t.value && w'.failures == AddFailures(w.failures, f.ids, s.nows))
            || (w'.db.rows == w.db.rows && w'.failures == w.failures)
  {}

  lemma FailureRecords(w: World, s: Step, w': World, id: int)
    requires Inv(w) && Next(w, s, w') && s.RecordFailure?
    ensures Failed(w, s, w', id) || Untouched(w, s, w', id)
  {
    hide Inv, Apply, FailRows, AddFailures, FailRow, IsTop;
    var f := w.flights[s.batch];
    FailureOutcome(w, s, w');
    FlightRowsSending(w, s.batch);
    FailRowsByRow(w.db.rows, f.ids, s.nows, f.stage.error);
    AddFailuresOf(w.failures, f.ids, s.nows, id);
    if id in f.ids {
      var i :| 0 <= i < |f.ids| && f.ids[i] == id;
      if w'.failures != w.failures {
        assert w'.db.rows[id] == FailRow(w.db.rows[id], s.nows[i], f.stage.error);
        assert Failed(w, s, w', id);
      }
    }
  }

  lemma StepRecords(w: World, s: Step, w': World, id: int)
    requires Inv(w) && Next(w, s, w')
    ensures Failed(w, s, w', id) || Untouched(w, s, w', id)
  {
    hide Inv, Apply;
    if s.RecordFailure? {
      FailureRecords(w, s, w', id);
    } else {
      OnlyFailuresRecord(w, s, w');
      if id in w'.db.rows {
        RowsMove(w, s, w', id);
      }
    }
  }

  lemma ClockMoves(w: World, s: Step, w': World)
    requires Next(w, s, w') && Forward(w, s)
    ensures w.clock <= w'.clock
    ensures s.RecordFailure? ==> forall i :: 0 <= i < |s.nows| ==> w.clock <= s.nows[i] <= w'.clock
    ensures s.Fetch? ==> w'.clock == s.now
  {}

  lemma StepCounts(w: World, s: Step, w': World)
    requires Inv(w) && Next(w, s, w') && Counted(w)
    ensures Counted(w')
  {
    hide Inv, Next;
    StepLasts(w, s, w');
    RowsInLog(w);
    forall id ensures id > |w'.log| ==> FailuresOf(w'.failures, id) == [] {
      StepRecords(w, s, w', id);
    }
    forall id | id in w'.db.rows ensures w'.db.rows[id].retryCount == |FailuresOf(w'.failures, id)| {
      StepRecords(w, s, w', id);
    }
  }

  lemma FailurePaces(r: Row, f: seq<int>, now: int, error: string, clock: int, clock': int)
    requires Spaced(f, clock) && RowPaced(r, f, clock) && r.status == Sending && r.retryCount == |f|
    requires clock <= now <= clock'
    ensures Spaced(f + [now], clock') && RowPaced(FailRow(r, now, error), f + [now], clock')
  {}

  lemma StepPacesRow(w: World, s: Step, w': World, id: int)
    requires Inv(w) && Next(w, s, w') && Counted(w) && Paced(w) && Forward(w, s)
    ensures Spaced(FailuresOf(w'.failures, id), w'.clock)
    ensures id in w'.db.rows ==> RowPaced(w'.db.rows[id], FailuresOf(w'.failures, id), w'.clock)
  {
    hide Inv, Next;
    ClockMoves(w, s, w');
    StepRecords(w, s, w', id);
    var f := FailuresOf(w.failures, id);
    assert Spaced(f, w.clock);
    if Failed(w, s, w', id) {
      var i, error :| 0 <= i < |s.nows| && FailuresOf(w'.failures, id) == f + [s.nows[i]]
                      && w'.db.rows[id] == FailRow(w.db.rows[id], s.nows[i], error);
      FailurePaces(w.db.rows[id], f, s.nows[i], error, w.clock, w'.clock);
    }
  }

  lemma StepPaces(w: World, s: Step, w': World)
    requires Inv(w) && Next(w, s, w') && Counted(w) && Paced(w) && Forward(w, s)
    ensures Paced(w')
  {
    hide Inv, Next, Spaced, RowPaced;
    forall id
      ensures Spaced(FailuresOf(w'.failures, id), w'.clock)
      ensures id in w'.db.rows ==> RowPaced(w'.db.rows[id], FailuresOf(w'.failures, id), w'.clock)
    {
      StepPacesRow(w, s, w', id);
    }
  }

  /** retry_count is the number of recorded failures, whatever the clock does. */
  lemma {:induction false} RunCounts(r: Run, n: nat)
    requires IsRun(r) && n < |r.states|
    ensures Counted(r.states[n])
  {
    hide Next, Inv;
    if n > 0 {
      RunCounts(r, n - 1);
      RunKeeps(r, n - 1);
      StepCounts(r.states[n - 1], r.steps[n - 1], r.states[n]);
    }
  }

  lemma {:induction false} RunPaces(r: Run, n: nat)
    requires IsRun(r) && ClockNeverGoesBack(r) && n < |r.states|
    ensures Paced(r.states[n])
  {
    hide Next, Inv;
    if n > 0 {
      RunPaces(r, n - 1);
      RunCounts(r, n - 1);
      RunKeeps(r, n - 1);
      StepPaces(r.states[n - 1], r.steps[n - 1], r.states[n]);
    }
  }

  lemma {:induction false} SpacingAddsUp(f: seq<int>, clock: int, k: nat)
    requires Spaced(f, clock) && k < |f|
    ensures f[k] - f[0] >= TotalBackoffMs(k)
  {
    if k > 0 {
      SpacingAddsUp(f, clock, k - 1);
    }
  }

  /**
    With a clock that never goes back, the first and the (k+1)-th failure of a row are at least the
    first k backoffs apart: 2^k - 1 seconds up to k = 6, then 63 + 60 (k - 6) seconds.
  */
  lemma FailuresKeepTheirDistance(r: Run, n: nat, id: int, k: nat)
    requires IsRun(r) && ClockNeverGoesBack(r) && n < |r.states|
    requires k < |FailuresOf(r.states[n].failures, id)|
    ensures var f := FailuresOf(r.states[n].failures, id);
            && f[k] - f[0] >= TotalBackoffMs(k)
            && (k <= 6 ==> f[k] - f[0] >= (Pow2(k) - 1) * 1000)
            && (k >= 6 ==> f[k] - f[0] >= (63 + 60 * (k - 6)) * 1000)
  {
    hide Next, Inv;
    RunPaces(r, n);
    SpacingAddsUp(FailuresOf(r.states[n].failures, id), r.states[n].clock, k);
    TotalBackoffClosedForm(k);
  }
}

/**
  The data_queue table as a value, and every repository call on it as a function of that value.
  gateway/internal/queue/queue.go, dispatch.go and storagepolicy.go.  Times are milliseconds:
  the columns hold fixed-width texts cut to the millisecond, and module Timestamps proves that
  comparing those texts is comparing these numbers.
*/
module Queue {
  import opened Common
  import opened Backoff

  const NS_PER_MS := 1_000_000
  const CRITICAL := "CRITICAL"

  datatype Status = Pending | Sending | Sent

  /** What a caller hands to Insert; the event time is in nanoseconds. */
  datatype Reading = Reading(gateway: string, device: int, datapoint: int, value: Option<Float>,
                             quality: string, eventNs: int, priority: string)

  datatype Row = Row(gateway: string, seqId: int, device: int, datapoint: int, value: Option<Float>,
                     quality: string, eventMs: int, priority: string,
                     status: Status, retryCount: nat, nextAttempt: int,
                     sentAt: Option<int>, lastError: Option<string>)

  /** The content sent to the server; (gateway, seqId) is the idempotency key. */
  datatype WireEntry = WireEntry(gateway: string, seqId: int, device: int, datapoint: int,
                                 value: Option<Float>, quality: string, eventMs: int, priority: string)

  datatype Key = Key(gateway: string, seqId: int)

  /** lastId is SQLite's AUTOINCREMENT counter, lastSeq the gateway table's last_sequence column. */
  datatype Db = Db(rows: map<int, Row>, lastId: nat, lastSeq: map<string, int>)

  function KeyOf(e: WireEntry): Key { Key(e.gateway, e.seqId) }

  function RowKey(r: Row): Key { Key(r.gateway, r.seqId) }

  function ToWire(r: Row): WireEntry {
    WireEntry(r.gateway, r.seqId, r.device, r.datapoint, r.value, r.quality, r.eventMs, r.priority)
  }

  /** toWireEntries: one entry per row, in order. */
  function ToWireEntries(rows: map<int, Row>, ids: seq<int>): (wire: seq<WireEntry>)
    requires forall i :: 0 <= i < |ids| ==> ids[i] in rows
  {
    seq(|ids|, i requires 0 <= i < |ids| => ToWire(rows[ids[i]]))
  }

  function CutMs(ns: int): int { ns / NS_PER_MS }

  function PriorityOrDefault(p: string): string { if p == "" then "NORMAL" else p }

  function FetchRank(priority: string): int {
    if priority == "CRITICAL" then 0 else if priority == "HIGH" then 1
    else if priority == "NORMAL" then 2 else if priority == "LOW" then 3 else 4
  }

  function EvictRank(priority: string): int {
    if priority == "LOW" then 0 else if priority == "NORMAL" then 1
    else if priority == "HIGH" then 2 else 3
  }

  // ---------------------------------------------------------------- ORDER BY ... LIMIT

  datatype SortKey = SortKey(major: int, minor: int)

  predicate Before(a: SortKey, b: SortKey) {
    a.major < b.major || (a.major == b.major && a.minor < b.minor)
  }

  /**
    `ids` is one possible answer of SELECT id ... ORDER BY key LIMIT limit: ties may fall either
    way, a negative limit is no limit.
  */
  ghost predicate IsTop(keys: map<int, SortKey>, limit: int, ids: seq<int>) {
    && Distinct(ids)
    && (forall i :: 0 <= i < |ids| ==> ids[i] in keys)
    && (forall i, j :: 0 <= i < j < |ids| ==> !Before(keys[ids[j]], keys[ids[i]]))
    && (forall id, i :: id in keys && id !in ids && 0 <= i < |ids| ==> !Before(keys[id], keys[ids[i]]))
    && (limit >= 0 ==> |ids| <= limit)
    && ((limit < 0 || |ids| < limit) ==> forall id :: id in keys ==> id in ids)
  }

  predicate Eligible(r: Row, now: int) {
    r.status == Pending && r.nextAttempt <= now
  }

  function FetchKeys(rows: map<int, Row>, now: int): map<int, SortKey> {
    map id | id in rows && Eligible(rows[id], now) :: SortKey(FetchRank(rows[id].priority), rows[id].seqId)
  }

  function EvictKeys(rows: map<int, Row>): map<int, SortKey> {
    map id | id in rows && rows[id].priority != CRITICAL :: SortKey(EvictRank(rows[id].priority), rows[id].eventMs)
  }

  /** The row ids FetchBatch(limit) may take at time `now`, in dispatch order. */
  ghost predicate IsFetch(db: Db, now: int, limit: int, ids: seq<int>) {
    IsTop(FetchKeys(db.rows, now), limit, ids)
  }

  /** The row ids EvictOldestNonCritical(limit) may delete. */
  ghost predicate IsEviction(db: Db, limit: int, ids: seq<int>) {
    IsTop(EvictKeys(db.rows), limit, ids)
  }

  // ---------------------------------------------------------------- repository calls

  /** EnsureGateway: the counter starts at zero and survives every later start. */
  function Ensure(db: Db, gateway: string): Db {
    if gateway in db.lastSeq then db else db.(lastSeq := db.lastSeq[gateway := 0])
  }

  function NewRow(e: Reading, seqId: int): Row {
    Row(e.gateway, seqId, e.device, e.datapoint, e.value, e.quality, CutMs(e.eventNs),
        PriorityOrDefault(e.priority), Pending, 0, 0, None, None)
  }

  /** The unique index on (gateway_id, sequence_id) refuses the insert. */
  predicate Conflicts(rows: map<int, Row>, key: Key) {
    exists id :: id in rows && RowKey(rows[id]) == key
  }

  predicate InsertSucceeds(db: Db, e: Reading) {
    e.gateway in db.lastSeq && !Conflicts(db.rows, Key(e.gateway, db.lastSeq[e.gateway] + 1))
  }

  /** Insert: one transaction, so a refused insert leaves the counter alone as well. */
  function Insert(db: Db, e: Reading): Db {
    if InsertSucceeds(db, e) then
      var seqId := db.lastSeq[e.gateway] + 1;
      Db(db.rows[db.lastId + 1 := NewRow(e, seqId)], db.lastId + 1, db.lastSeq[e.gateway := seqId])
    else db
  }

  function MarkSending(db: Db, ids: seq<int>): Db {
    db.(rows := map id | id in db.rows ::
                  if id in ids then db.rows[id].(status := Sending) else db.rows[id])
  }

  /** MarkSent: by id alone, whatever the row's status; ids that are gone are skipped. */
  function MarkSent(db: Db, ids: seq<int>, now: int): Db {
    db.(rows := map id | id in db.rows ::
                  if id in ids then db.rows[id].(status := Sent, sentAt := Some(now)) else db.rows[id])
  }

  function FailRow(r: Row, now: int, error: string): Row {
    r.(status := Pending, retryCount := r.retryCount + 1, lastError := Some(error),
       nextAttempt := now + BackoffMs(r.retryCount + 1))
  }

  /**
    MarkFailed's loop inside its transaction: None when some id has no row, which rolls everything
    back.  The clock is read once per id, so `nows` has one reading for each.
  */
  function FailRows(rows: map<int, Row>, ids: seq<int>, nows: seq<int>, error: string): Option<map<int, Row>>
    requires |nows| == |ids|
  {
    if ids == [] then Some(rows)
    else
      var n := |ids| - 1;
      match FailRows(rows, ids[..n], nows[..n], error)
      case None => None
      case Some(t) => if ids[n] in t then Some(t[ids[n] := FailRow(t[ids[n]], nows[n], error)]) else None
  }

  function MarkFailed(db: Db, ids: seq<int>, nows: seq<int>, error: string): Db
    requires |nows| == |ids|
  {
    match FailRows(db.rows, ids, nows, error)
    case None => db
    case Some(rows) => db.(rows := rows)
  }

  function RecoverSending(db: Db): Db {
    db.(rows := map id | id in db.rows ::
                  if db.rows[id].status == Sending then db.rows[id].(status := Pending) else db.rows[id])
  }

  predicate Expired(r: Row, cutoff: int) {
    r.status == Sent && r.sentAt.Some? && r.sentAt.value < cutoff
  }

  function ExpiredIds(rows: map<int, Row>, cutoff: int): set<int> {
    set id | id in rows && Expired(rows[id], cutoff)
  }

  function DeleteSentOlderThan(db: Db, cutoff: int): Db {
    db.(rows := db.rows - ExpiredIds(db.rows, cutoff))
  }

  function Evict(db: Db, ids: seq<int>): Db {
    db.(rows := db.rows - (set id | id in ids))
  }

  // ---------------------------------------------------------------- what the calls do, row by row

  /**
    MarkFailed on distinct ids: it goes through exactly when every id still has its row; then each
    of those rows is failed once with its own clock reading and every other row is untouched.
  */
  lemma {:induction false} FailRowsByRow(rows: map<int, Row>, ids: seq<int>, nows: seq<int>, error: string)
    requires |nows| == |ids| && Distinct(ids)
    ensures FailRows(rows, ids, nows, error).Some? <==> forall i :: 0 <= i < |ids| ==> ids[i] in rows
    ensures FailRows(rows, ids, nows, error).Some? ==>
              var t := FailRows(rows, ids, nows, error).value;
              && t.Keys == rows.Keys
              && (forall i :: 0 <= i < |ids| ==> t[ids[i]] == FailRow(rows[ids[i]], nows[i], error))
              && (forall id :: id in rows && id !in ids ==> t[id] == rows[id])
  {
    if ids != [] {
      var n := |ids| - 1;
      FailRowsByRow(rows, ids[..n], nows[..n], error);
      assert forall i :: 0 <= i < n ==> ids[..n][i] == ids[i];
      assert ids[n] !in ids[..n];
      if FailRows(rows, ids[..n], nows[..n], error).Some? {
        var t := FailRows(rows, ids[..n], nows[..n], error).value;
        if ids[n] in t {
          var u := t[ids[n] := FailRow(t[ids[n]], nows[n], error)];
          assert FailRows(rows, ids, nows, error) == Some(u);
          assert u.Keys == rows.Keys;
          forall id | id in rows && id !in ids ensures u[id] == rows[id] {
            assert id !in ids[..n];
          }
        }
      } else {
        assert !forall i :: 0 <= i < n ==> ids[i] in rows;
      }
    }
  }

  // ---------------------------------------------------------------- what the calls mean, in plain terms

  /** A time is cut to the millisecond it falls in. */
  lemma CutIsFloor(ns: int)
    ensures CutMs(ns) * 1_000_000 <= ns < (CutMs(ns) + 1) * 1_000_000
  {}

  /** The row a reading becomes: its content, the number it was given, PENDING, never failed, due since 1970. */
  lemma NewRowIs(e: Reading, seqId: int)
    ensures var r := NewRow(e, seqId);
            && r.gateway == e.gateway && r.seqId == seqId && r.device == e.device && r.datapoint == e.datapoint
            && r.value == e.value && r.quality == e.quality
            && r.eventMs * 1_000_000 <= e.eventNs < (r.eventMs + 1) * 1_000_000
            && r.priority == (if e.priority == "" then "NORMAL" else e.priority)
            && r.status == Pending && r.retryCount == 0 && r.nextAttempt == 0 && r.sentAt.None? && r.lastError.None?
  {
    CutIsFloor(e.eventNs);
  }

  /** The row after a failure: one more retry, the error noted, due again 1, 2, 4, 8, 16, 32 and then 60 s later. */
  lemma FailRowIs(r: Row, now: int, error: string)
    ensures var f := FailRow(r, now, error);
            && ToWire(f) == ToWire(r) && f.sentAt == r.sentAt
            && f.status == Pending && f.retryCount == r.retryCount + 1 && f.lastError == Some(error)
            && (r.retryCount < 6 ==> f.nextAttempt == now + Pow2(r.retryCount) * 1000)
            && (r.retryCount >= 6 ==> f.nextAttempt == now + 60_000)
  {
    assert Pow2(3) == 8 && Pow2(6) == 64;
  }

  /** Taken in dispatch order: id is left behind or comes after position i. */
  predicate ComesAfter(ids: seq<int>, i: nat, id: int)
    requires i < |ids|
  {
    id !in ids || exists j :: i < j < |ids| && ids[j] == id
  }

  predicate Unranked(priority: string) {
    priority != "CRITICAL" && priority != "HIGH" && priority != "NORMAL" && priority != "LOW"
  }

  lemma FetchRanks(p: string)
    ensures FetchRank(p) == 0 <==> p == "CRITICAL"
    ensures FetchRank(p) == 1 <==> p == "HIGH"
    ensures FetchRank(p) == 2 <==> p == "NORMAL"
    ensures FetchRank(p) == 3 <==> p == "LOW"
    ensures FetchRank(p) == 4 <==> Unranked(p)
    ensures 0 <= FetchRank(p) <= 4
  {}

  lemma EvictRanks(p: string)
    ensures EvictRank(p) == 0 <==> p == "LOW"
    ensures EvictRank(p) == 1 <==> p == "NORMAL"
    ensures EvictRank(p) == 2 <==> p == "HIGH"
    ensures EvictRank(p) == 3 <==> p == "CRITICAL" || Unranked(p)
    ensures 0 <= EvictRank(p) <= 3
  {}

  /**
    Dispatch order in the priorities' own names: nothing waits behind a less urgent row, and within
    one priority lower sequence numbers go first.
  */
  lemma FetchOrder(db: Db, now: int, limit: int, ids: seq<int>, i: nat, id: int)
    requires IsFetch(db, now, limit, ids) && i < |ids|
    requires id in db.rows && db.rows[id].status == Pending && db.rows[id].nextAttempt <= now && ComesAfter(ids, i, id)
    ensures ids[i] in db.rows && db.rows[ids[i]].status == Pending && db.rows[ids[i]].nextAttempt <= now
    ensures var first, later := db.rows[ids[i]].priority, db.rows[id].priority;
            && (later == "CRITICAL" ==> first == "CRITICAL")
            && (later == "HIGH" ==> first == "CRITICAL" || first == "HIGH")
            && (later == "NORMAL" ==> first == "CRITICAL" || first == "HIGH" || first == "NORMAL")
            && (later == "LOW" ==> !Unranked(first))
            && (later == first ==> db.rows[ids[i]].seqId <= db.rows[id].seqId)
            && (Unranked(later) && Unranked(first) ==> db.rows[ids[i]].seqId <= db.rows[id].seqId)
  {
    hide FetchRank;
    var keys := FetchKeys(db.rows, now);
    assert Eligible(db.rows[id], now) && id in keys && ids[i] in keys && Eligible(db.rows[ids[i]], now);
    assert !Before(keys[id], keys[ids[i]]) by {
      if id in ids {
        var j :| i < j < |ids| && ids[j] == id;
      }
    }
    hide IsFetch;
    FetchRanks(db.rows[id].priority);
    FetchRanks(db.rows[ids[i]].priority);
  }

  /** A batch is as large as the limit and the due rows allow, and takes no row twice. */
  lemma FetchComplete(db: Db, now: int, limit: int, ids: seq<int>, id: int)
    requires IsFetch(db, now, limit, ids)
    ensures Distinct(ids) && (limit >= 0 ==> |ids| <= limit)
    ensures id in db.rows && db.rows[id].status == Pending && db.rows[id].nextAttempt <= now && id !in ids ==>
              limit >= 0 && |ids| == limit
  {
    assert id in db.rows && Eligible(db.rows[id], now) ==> id in FetchKeys(db.rows, now);
  }

  /**
    Eviction order in the priorities' own names: never a CRITICAL row, LOW before NORMAL before HIGH
    before any other, and within one priority the oldest event first.
  */
  lemma EvictOrder(db: Db, limit: int, ids: seq<int>, i: nat, id: int)
    requires IsEviction(db, limit, ids) && i < |ids|
    requires id in db.rows && db.rows[id].priority != "CRITICAL" && id !in ids
    ensures ids[i] in db.rows && db.rows[ids[i]].priority != "CRITICAL"
    ensures var gone, kept := db.rows[ids[i]].priority, db.rows[id].priority;
            && (kept == "LOW" ==> gone == "LOW")
            && (kept == "NORMAL" ==> gone == "LOW" || gone == "NORMAL")
            && (kept == "HIGH" ==> gone == "LOW" || gone == "NORMAL" || gone == "HIGH")
            && (kept == gone ==> db.rows[ids[i]].eventMs <= db.rows[id].eventMs)
            && (Unranked(kept) && Unranked(gone) ==> db.rows[ids[i]].eventMs <= db.rows[id].eventMs)
  {
    hide EvictRank;
    var keys := EvictKeys(db.rows);
    assert id in keys && ids[i] in keys;
    assert !Before(keys[id], keys[ids[i]]);
    hide IsEviction;
    EvictRanks(db.rows[id].priority);
    EvictRanks(db.rows[ids[i]].priority);
  }

  /** What an eviction removes: non-CRITICAL rows only, no more than the limit, and all of them if there are fewer. */
  lemma EvictTakes(db: Db, limit: int, ids: seq<int>, id: int)
    requires IsEviction(db, limit, ids)
    ensures Distinct(ids) && (limit >= 0 ==> |ids| <= limit)
    ensures id in Evict(db, ids).rows <==> id in db.rows && id !in ids
    ensures id in ids ==> id in db.rows && db.rows[id].priority != "CRITICAL"
    ensures (limit < 0 || |ids| < limit) && id in db.rows && db.rows[id].priority != "CRITICAL" ==> id in ids
  {
    assert id in db.rows && db.rows[id].priority != "CRITICAL" ==> id in EvictKeys(db.rows);
    assert id in ids ==> id in EvictKeys(db.rows);
  }

  /** Retention: a row goes if and only if it is SENT and was sent before the cutoff; the others stay as they are. */
  lemma RetiredIff(db: Db, cutoff: int, id: int)
    ensures var after := DeleteSentOlderThan(db, cutoff).rows;
            && (id in after ==> id in db.rows && after[id] == db.rows[id])
            && (id in db.rows ==>
                  (id !in after <==>
                   db.rows[id].status == Sent && db.rows[id].sentAt.Some? && db.rows[id].sentAt.value < cutoff))
  {}
}

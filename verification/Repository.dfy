/** The queue repository as the object whose methods update the table in place. */
module QueueRepository {
  import opened Common
  import Q = Queue

  /** A fetched row, as handed to the forwarder. */
  datatype Dispatch = Dispatch(id: int, row: Q.Row)

  /** One entry of `candidates` with none before it in the order. */
  method First(keys: map<int, Q.SortKey>, candidates: set<int>) returns (best: int)
    requires candidates != {} && candidates <= keys.Keys
    ensures best in candidates
    ensures forall id :: id in candidates ==> !Q.Before(keys[id], keys[best])
  {
    assert exists id :: id in candidates by { NonEmpty(candidates); }
    best :| best in candidates;
    var rest := candidates - {best};
    while rest != {}
      invariant rest <= candidates && best in candidates
      invariant forall id :: id in candidates && id !in rest ==> !Q.Before(keys[id], keys[best])
      decreases |rest|
    {
      assert exists id :: id in rest by { NonEmpty(rest); }
      var id :| id in rest;
      if Q.Before(keys[id], keys[best]) {
        best := id;
      }
      rest := rest - {id};
    }
  }

  /** SELECT id ... ORDER BY key LIMIT limit. */
  method SelectTop(keys: map<int, Q.SortKey>, limit: int) returns (ids: seq<int>)
    ensures Q.IsTop(keys, limit, ids)
  {
    ids := [];
    var left := keys.Keys;
    while left != {} && (limit < 0 || |ids| < limit)
      invariant Distinct(ids) && left <= keys.Keys
      invariant forall id :: id in keys ==> (id in left <==> id !in ids)
      invariant forall i :: 0 <= i < |ids| ==> ids[i] in keys
      invariant forall i, j :: 0 <= i < j < |ids| ==> !Q.Before(keys[ids[j]], keys[ids[i]])
      invariant forall id, i :: id in left && 0 <= i < |ids| ==> !Q.Before(keys[id], keys[ids[i]])
      invariant limit >= 0 ==> |ids| <= limit
      decreases |left|
    {
      var id := First(keys, left);
      ids := ids + [id];
      left := left - {id};
    }
  }

  class Repository {
    var rows: map<int, Q.Row>
    var lastId: nat
    var lastSeq: map<string, int>

    ghost function Db(): Q.Db reads this { Q.Db(rows, lastId, lastSeq) }

    constructor ()
      ensures Db() == Q.Db(map[], 0, map[])
    {
      rows, lastId, lastSeq := map[], 0, map[];
    }

    method EnsureGateway(id: string)
      modifies this
      ensures Db() == Q.Ensure(old(Db()), id)
    {
      if id !in lastSeq {
        lastSeq := lastSeq[id := 0];
      }
    }

    /** Assigns the next sequence number and stores the row, or changes nothing at all. */
    method Insert(e: Q.Reading) returns (r: Result<Dispatch>)
      modifies this
      ensures Db() == Q.Insert(old(Db()), e)
      ensures r.Ok? <==> Q.InsertSucceeds(old(Db()), e)
      ensures r.Ok? ==> r.value.id == old(lastId) + 1 && r.value.row == Q.NewRow(e, old(lastSeq)[e.gateway] + 1)
    {
      if e.gateway !in lastSeq {
        return Err("assign sequence");
      }
      var seqId := lastSeq[e.gateway] + 1;
      if Q.Conflicts(rows, Q.Key(e.gateway, seqId)) {
        return Err("insert data_queue row");
      }
      lastSeq := lastSeq[e.gateway := seqId];
      lastId := lastId + 1;
      rows := rows[lastId := Q.NewRow(e, seqId)];
      return Ok(Dispatch(lastId, rows[lastId]));
    }

    /** Takes the highest-ranked due rows, marks them SENDING and hands them out. */
    method FetchBatch(now: int, limit: int) returns (batch: seq<Dispatch>, ids: seq<int>)
      modifies this
      ensures Q.IsFetch(old(Db()), now, limit, ids)
      ensures Db() == Q.MarkSending(old(Db()), ids)
      ensures |batch| == |ids| && forall i :: 0 <= i < |ids| ==>
                ids[i] in old(rows) && batch[i] == Dispatch(ids[i], old(rows)[ids[i]].(status := Q.Sending))
    {
      ids := SelectTop(Q.FetchKeys(rows, now), limit);
      batch := [];
      for i := 0 to |ids|
        invariant rows == old(rows) && |batch| == i
        invariant forall k :: 0 <= k < i ==>
                    ids[k] in rows && batch[k] == Dispatch(ids[k], rows[ids[k]].(status := Q.Sending))
      {
        assert ids[i] in Q.FetchKeys(rows, now);
        batch := batch + [Dispatch(ids[i], rows[ids[i]].(status := Q.Sending))];
      }
      rows := map id | id in rows :: if id in ids then rows[id].(status := Q.Sending) else rows[id];
    }

    method MarkSent(ids: seq<int>, now: int)
      modifies this
      ensures Db() == Q.MarkSent(old(Db()), ids, now)
    {
      if |ids| == 0 {
        assert Q.MarkSent(Db(), ids, now).rows == rows;
        return;
      }
      rows := map id | id in rows ::
        if id in ids then rows[id].(status := Q.Sent, sentAt := Some(now)) else rows[id];
    }

    /** One transaction over all ids: a missing row rolls everything back. */
    method MarkFailed(ids: seq<int>, nows: seq<int>, error: string) returns (ok: bool)
      requires |nows| == |ids|
      modifies this
      ensures ok <==> Q.FailRows(old(rows), ids, nows, error).Some?
      ensures Db() == Q.MarkFailed(old(Db()), ids, nows, error)
    {
      var t := rows;
      for i := 0 to |ids|
        invariant rows == old(rows)
        invariant Q.FailRows(rows, ids[..i], nows[..i], error) == Some(t)
      {
        assert ids[..i + 1][..i] == ids[..i] && nows[..i + 1][..i] == nows[..i];
        if ids[i] !in t {
          RollsBack(rows, ids, nows, error, i + 1);
          return false;
        }
        t := t[ids[i] := Q.FailRow(t[ids[i]], nows[i], error)];
      }
      assert ids[..|ids|] == ids && nows[..|ids|] == nows;
      rows := t;
      return true;
    }

    method RecoverSendingToPending() returns (n: nat)
      modifies this
      ensures Db() == Q.RecoverSending(old(Db()))
      ensures n == |set id | id in old(rows) && old(rows)[id].status == Q.Sending|
    {
      n := |set id | id in rows && rows[id].status == Q.Sending|;
      rows := map id | id in rows ::
        if rows[id].status == Q.Sending then rows[id].(status := Q.Pending) else rows[id];
    }

    method DeleteSentOlderThan(cutoff: int) returns (n: nat)
      modifies this
      ensures Db() == Q.DeleteSentOlderThan(old(Db()), cutoff)
      ensures |rows| == |old(rows)| - n
    {
      var expired := Q.ExpiredIds(rows, cutoff);
      n := |expired|;
      ghost var before := rows;
      rows := rows - expired;
      assert rows.Keys == before.Keys - expired;
    }

    method EvictOldestNonCritical(limit: int) returns (n: nat, ids: seq<int>)
      modifies this
      ensures Q.IsEviction(old(Db()), limit, ids)
      ensures Db() == Q.Evict(old(Db()), ids)
      ensures n == |ids| && |rows| == |old(rows)| - n
    {
      ids := SelectTop(Q.EvictKeys(rows), limit);
      ghost var before := rows;
      rows := rows - (set id | id in ids);
      n := |ids|;
      DistinctSize(ids);
      assert (set id | id in ids) <= before.Keys;
      assert rows.Keys == before.Keys - (set id | id in ids);
    }
  }

  /** Once an id of a prefix has no row, the whole loop comes to nothing. */
  lemma {:induction false} RollsBack(rows: map<int, Q.Row>, ids: seq<int>, nows: seq<int>, error: string, k: nat)
    requires |nows| == |ids| && k <= |ids| && Q.FailRows(rows, ids[..k], nows[..k], error).None?
    ensures Q.FailRows(rows, ids, nows, error).None?
  {
    if k == |ids| {
      assert ids[..k] == ids && nows[..k] == nows;
    } else {
      var n := |ids| - 1;
      assert ids[..n][..k] == ids[..k] && nows[..n][..k] == nows[..k];
      RollsBack(rows, ids[..n], nows[..n], error, k);
    }
  }
}

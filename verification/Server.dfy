/**
  The receiving side: internal-server/store.go (ingest), internal-server/consumer.go
  (handleMessage) and the in-memory simulator of gateway/cmd/server-sim/main.go.
*/
module Server {
  import opened Common
  import opened Queue

  /** INSERT ... ON CONFLICT DO NOTHING for each entry in turn. */
  function Ingest(store: map<Key, WireEntry>, entries: seq<WireEntry>): map<Key, WireEntry> {
    if entries == [] then store
    else
      var n := |entries| - 1;
      var s := Ingest(store, entries[..n]);
      if KeyOf(entries[n]) in s then s else s[KeyOf(entries[n]) := entries[n]]
  }

  /**
    Ingest never changes what is stored, stores every key of the batch, and anything new is an
    entry of the batch under its own key.
  */
  lemma {:induction false} IngestFacts(store: map<Key, WireEntry>, entries: seq<WireEntry>)
    ensures forall k :: k in store ==> k in Ingest(store, entries) && Ingest(store, entries)[k] == store[k]
    ensures forall i :: 0 <= i < |entries| ==> KeyOf(entries[i]) in Ingest(store, entries)
    ensures forall k :: k in Ingest(store, entries) && k !in store ==>
                          Ingest(store, entries)[k] in entries && KeyOf(Ingest(store, entries)[k]) == k
  {
    if entries != [] {
      var n := |entries| - 1;
      IngestFacts(store, entries[..n]);
      assert entries == entries[..n] + [entries[n]];
      forall i | 0 <= i < |entries| ensures KeyOf(entries[i]) in Ingest(store, entries) {
        if i < n {
          assert entries[..n][i] == entries[i];
        }
      }
    }
  }

  /** Replaying a batch, or any part of it, on a store that already took it changes nothing. */
  lemma {:induction false} IngestIdempotent(store: map<Key, WireEntry>, entries: seq<WireEntry>)
    requires forall i :: 0 <= i < |entries| ==> KeyOf(entries[i]) in store
    ensures Ingest(store, entries) == store
  {
    if entries != [] {
      var n := |entries| - 1;
      assert forall i :: 0 <= i < n ==> entries[..n][i] == entries[i];
      IngestIdempotent(store, entries[..n]);
    }
  }

  /** An ingest cut short after k entries and retried in full ends where one clean ingest ends. */
  lemma {:induction false} CutShortThenRetried(store: map<Key, WireEntry>, entries: seq<WireEntry>, k: nat)
    requires k <= |entries|
    ensures Ingest(Ingest(store, entries[..k]), entries) == Ingest(store, entries)
  {
    var partial := Ingest(store, entries[..k]);
    IngestFacts(store, entries[..k]);
    assert forall i :: 0 <= i < k ==> entries[..k][i] == entries[i];
    IngestIdempotent(partial, entries[..k]);
    IngestSplit(store, entries, k);
    IngestSplit(partial, entries, k);
  }

  lemma {:induction false} IngestSplit(store: map<Key, WireEntry>, entries: seq<WireEntry>, k: nat)
    requires k <= |entries|
    ensures Ingest(store, entries) == Ingest(Ingest(store, entries[..k]), entries[k..])
  {
    if k == |entries| {
      assert entries[..k] == entries && entries[k..] == [];
    } else {
      var n := |entries| - 1;
      IngestSplit(store, entries[..n], k);
      assert entries[..n][..k] == entries[..k];
      assert entries[..n][k..] == entries[k..][..n - k];
      assert entries[k..][n - k] == entries[n];
    }
  }

  function KeysIn(table: seq<WireEntry>): set<Key> {
    set i | 0 <= i < |table| :: KeyOf(table[i])
  }

  function Contents(table: seq<WireEntry>): map<Key, WireEntry> {
    if table == [] then map[]
    else
      var n := |table| - 1;
      Contents(table[..n])[KeyOf(table[n]) := table[n]]
  }

  lemma {:induction false} ContentsKeys(table: seq<WireEntry>)
    ensures Contents(table).Keys == KeysIn(table)
  {
    if table != [] {
      var n := |table| - 1;
      ContentsKeys(table[..n]);
      assert KeysIn(table) == KeysIn(table[..n]) + {KeyOf(table[n])} by {
        forall k | k in KeysIn(table) ensures k in KeysIn(table[..n]) + {KeyOf(table[n])} {
          var i :| 0 <= i < |table| && KeyOf(table[i]) == k;
          if i < n { assert table[..n][i] == table[i]; }
        }
        forall k | k in KeysIn(table[..n]) ensures k in KeysIn(table) {
          var i :| 0 <= i < n && KeyOf(table[..n][i]) == k;
          assert table[i] == table[..n][i];
        }
      }
    }
  }

  /** Under each key of a table without duplicates stands the entry that has it. */
  lemma {:induction false} ContentsAre(table: seq<WireEntry>, i: nat)
    requires i < |table| && forall j, k :: 0 <= j < k < |table| ==> KeyOf(table[j]) != KeyOf(table[k])
    ensures KeyOf(table[i]) in Contents(table) && Contents(table)[KeyOf(table[i])] == table[i]
  {
    var n := |table| - 1;
    if i < n {
      assert table[..n][i] == table[i];
      ContentsAre(table[..n], i);
    }
  }

  /** A message as the consumer decodes it. */
  datatype Batch = Batch(id: nat, entries: seq<WireEntry>)

  /** The readings table with its UNIQUE (gateway_id, sequence_id) constraint. */
  class Store {
    var readings: seq<WireEntry>

    ghost predicate Valid() reads this {
      forall i, j :: 0 <= i < j < |readings| ==> KeyOf(readings[i]) != KeyOf(readings[j])
    }

    constructor ()
      ensures Valid() && readings == []
    {
      readings := [];
    }

    /**
      ingest: entries are inserted one statement at a time.  `failAt` is the position whose
      statement fails, if any; the entries before it stay inserted.
    */
    method IngestBatch(entries: seq<WireEntry>, failAt: Option<nat>)
      returns (accepted: nat, duplicates: nat, ok: bool)
      requires Valid()
      modifies this
      ensures Valid()
      ensures ok <==> failAt.None? || failAt.value >= |entries|
      ensures var done := if ok then |entries| else failAt.value;
              && accepted + duplicates == done
              && Contents(readings) == Ingest(old(Contents(readings)), entries[..done])
      ensures old(readings) <= readings && |readings| == |old(readings)| + accepted
    {
      accepted, duplicates, ok := 0, 0, true;
      var i := 0;
      assert entries[..0] == [];
      while i < |entries|
        invariant 0 <= i <= |entries|
        invariant Valid() && accepted + duplicates == i
        invariant failAt.Some? ==> i <= failAt.value
        invariant Contents(readings) == Ingest(old(Contents(readings)), entries[..i])
        invariant old(readings) <= readings && |readings| == |old(readings)| + accepted
      {
        if failAt == Some(i) {
          ok := false;
          return;
        }
        ContentsKeys(readings);
        assert entries[..i + 1][..i] == entries[..i];
        if KeyOf(entries[i]) in KeysIn(readings) {
          duplicates := duplicates + 1;
        } else {
          ghost var before := readings;
          readings := readings + [entries[i]];
          assert readings[..|readings| - 1] == before;
          forall a, b | 0 <= a < b < |readings| ensures KeyOf(readings[a]) != KeyOf(readings[b]) {
            assert readings[a] == before[a];
          }
          accepted := accepted + 1;
        }
        i := i + 1;
      }
      assert entries[..i] == entries;
    }

    /**
      handleMessage on a payload that may be malformed (None): an ack goes out exactly when the
      whole batch went in.
    */
    method HandleMessage(batch: Option<Batch>, failAt: Option<nat>) returns (ack: Option<nat>)
      requires Valid()
      modifies this
      ensures Valid()
      ensures ack.Some? <==> batch.Some? && (failAt.None? || failAt.value >= |batch.value.entries|)
      ensures ack.Some? ==>
                ack.value == batch.value.id && forall e :: e in batch.value.entries ==> KeyOf(e) in Contents(readings)
      ensures batch.None? ==> readings == old(readings)
      ensures batch.Some? ==>
                var done := if ack.Some? then |batch.value.entries| else failAt.value;
                Contents(readings) == Ingest(old(Contents(readings)), batch.value.entries[..done])
      ensures forall k :: k in old(Contents(readings)) ==>
                            k in Contents(readings) && Contents(readings)[k] == old(Contents(readings))[k]
    {
      if batch.None? {
        return None;
      }
      var entries := batch.value.entries;
      var _, _, ok := IngestBatch(entries, failAt);
      ghost var done := if ok then |entries| else failAt.value;
      IngestFacts(old(Contents(readings)), entries[..done]);
      if ok {
        assert entries[..done] == entries;
      }
      ack := if ok then Some(batch.value.id) else None;
    }
  }

  /** server-sim: a `seen` map and a `received` list kept side by side. */
  class SimStore {
    var seen: map<Key, WireEntry>
    var received: seq<WireEntry>

    ghost predicate Valid() reads this {
      && seen == Contents(received)
      && forall i, j :: 0 <= i < j < |received| ==> KeyOf(received[i]) != KeyOf(received[j])
    }

    constructor ()
      ensures Valid() && received == []
    {
      seen, received := map[], [];
    }

    /** The simulator and the production store accept exactly the same entries. */
    method IngestBatch(entries: seq<WireEntry>) returns (accepted: nat, duplicates: nat)
      requires Valid()
      modifies this
      ensures Valid()
      ensures accepted + duplicates == |entries|
      ensures seen == Ingest(old(seen), entries)
      ensures old(received) <= received && |received| == |old(received)| + accepted
    {
      accepted, duplicates := 0, 0;
      var i := 0;
      assert entries[..0] == [];
      while i < |entries|
        invariant 0 <= i <= |entries|
        invariant Valid() && accepted + duplicates == i
        invariant seen == Ingest(old(seen), entries[..i])
        invariant old(received) <= received && |received| == |old(received)| + accepted
      {
        assert entries[..i + 1][..i] == entries[..i];
        var k := KeyOf(entries[i]);
        if k in seen {
          duplicates := duplicates + 1;
        } else {
          ContentsKeys(received);
          ghost var before := received;
          seen := seen[k := entries[i]];
          received := received + [entries[i]];
          assert received[..|received| - 1] == before;
          forall a, b | 0 <= a < b < |received| ensures KeyOf(received[a]) != KeyOf(received[b]) {
            assert received[a] == before[a];
            assert KeyOf(before[a]) in KeysIn(before);
          }
          accepted := accepted + 1;
        }
        i := i + 1;
      }
      assert entries[..i] == entries;
    }
  }
}

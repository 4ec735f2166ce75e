/** Restoring exported rows into a table that matches them by id. */
module Restore {

  /** A table with AUTOINCREMENT: `last` is the largest id ever given out. */
  datatype Table<T> = Table(rows: map<int, T>, last: nat)

  datatype Entry<T> = Entry(id: int, value: T)

  predicate Known<T>(t: Table<T>, id: int) { id != 0 && id in t.rows }

  /** The row an entry lands on: its own id if that row exists, else a new one. */
  function Target<T>(t: Table<T>, id: int): int {
    if Known(t, id) then id else t.last + 1
  }

  /** Update the row with the entry's id, or create one; `merge` says what an update keeps. */
  function Save<T(!new)>(t: Table<T>, e: Entry<T>, merge: (T, T) -> T): Table<T> {
    if Known(t, e.id) then t.(rows := t.rows[e.id := merge(t.rows[e.id], e.value)])
    else Table(t.rows[t.last + 1 := e.value], t.last + 1)
  }

  function Replay<T(!new)>(t: Table<T>, es: seq<Entry<T>>, merge: (T, T) -> T): Table<T> {
    if es == [] then t
    else
      var n := |es| - 1;
      Save(Replay(t, es[..n], merge), es[n], merge)
  }

  /** Some entry carries the id that an entry before it was given: it overwrites that row. */
  predicate Hits<T(!new)>(es: seq<Entry<T>>, last: nat) {
    exists k :: 0 <= k < |es| && last < es[k].id <= last + k
  }

  /** Every entry, in order, under the next free id. */
  function Numbered<T(!new)>(es: seq<Entry<T>>, last: nat): Table<T> {
    if es == [] then Table(map[], last)
    else
      var n := |es| - 1;
      Table(Numbered(es[..n], last).rows[last + |es| := es[n].value], last + |es|)
  }

  lemma {:induction false} NumberedIs<T(!new)>(es: seq<Entry<T>>, last: nat)
    ensures var t := Numbered(es, last);
            && t.last == last + |es|
            && (forall id :: id in t.rows <==> last < id <= last + |es|)
            && (forall k {:trigger es[k]} :: 0 <= k < |es| ==> t.rows[last + k + 1] == es[k].value)
  {
    if es != [] {
      var n := |es| - 1;
      NumberedIs(es[..n], last);
      forall k | 0 <= k < n ensures Numbered(es[..n], last).rows[last + k + 1] == es[k].value {
        assert es[..n][k] == es[k];
      }
    }
  }

  lemma ReplayNothing<T(!new)>(t: Table<T>, merge: (T, T) -> T)
    ensures Replay(t, [], merge) == t
  {}

  lemma ReplayNext<T(!new)>(t: Table<T>, es: seq<Entry<T>>, e: Entry<T>, merge: (T, T) -> T)
    ensures Replay(t, es + [e], merge) == Save(Replay(t, es, merge), e, merge)
  {
    assert (es + [e])[..|es|] == es;
  }

  lemma {:induction false} ReplayAppend<T(!new)>(t: Table<T>, a: seq<Entry<T>>, b: seq<Entry<T>>, merge: (T, T) -> T)
    ensures Replay(t, a + b, merge) == Replay(Replay(t, a, merge), b, merge)
  {
    if b == [] {
      assert a + b == a;
    } else {
      var n := |b| - 1;
      assert (a + b)[..|a| + n] == a + b[..n];
      ReplayAppend(t, a, b[..n], merge);
    }
  }

  /** Entries that say what the table already says change nothing. */
  lemma {:induction false} ReplaySame<T(!new)>(t: Table<T>, es: seq<Entry<T>>, merge: (T, T) -> T)
    requires forall k :: 0 <= k < |es| ==>
              Known(t, es[k].id) && merge(t.rows[es[k].id], es[k].value) == t.rows[es[k].id]
    ensures Replay(t, es, merge) == t
  {
    if es != [] {
      var n := |es| - 1;
      ReplaySame(t, es[..n], merge);
      var id := es[n].id;
      assert t.rows[id := t.rows[id]] == t.rows;
    }
  }

  /** Into an empty table without a hit, every entry is created in order. */
  lemma {:induction false} ReplayFresh<T(!new)>(last: nat, es: seq<Entry<T>>, merge: (T, T) -> T)
    requires !Hits(es, last)
    ensures Replay(Table(map[], last), es, merge) == Numbered(es, last)
  {
    if es != [] {
      var n := |es| - 1;
      var front := es[..n];
      NoHitBefore(es, last, n);
      ReplayFresh(last, front, merge);
      NumberedIs(front, last);
      assert !(last < es[n].id <= last + n);
    }
  }

  lemma NoHitBefore<T(!new)>(es: seq<Entry<T>>, last: nat, n: nat)
    requires !Hits(es, last) && n <= |es|
    ensures !Hits(es[..n], last)
  {}

  /** However it goes, ids are given out without gaps and never more of them than entries. */
  lemma {:induction false} ReplayBounds<T(!new)>(last: nat, es: seq<Entry<T>>, merge: (T, T) -> T)
    ensures var r := Replay(Table(map[], last), es, merge);
            last <= r.last <= last + |es| && forall id :: id in r.rows <==> last < id <= r.last
  {
    if es != [] {
      ReplayBounds(last, es[..|es| - 1], merge);
    }
  }

  /** A hit costs a row: fewer are created than there are entries. */
  lemma {:induction false} ReplayLoses<T(!new)>(last: nat, es: seq<Entry<T>>, merge: (T, T) -> T)
    requires Hits(es, last)
    ensures Replay(Table(map[], last), es, merge).last < last + |es|
  {
    var n := |es| - 1;
    var front := es[..n];
    ReplayBounds(last, front, merge);
    if Hits(front, last) {
      ReplayLoses(last, front, merge);
    } else {
      ReplayFresh(last, front, merge);
      NumberedIs(front, last);
      forall k | 0 <= k < n ensures !(last < es[k].id <= last + k) {
        assert front[k] == es[k];
      }
    }
  }

  /** Restoring into an empty table copies it, entry by entry in order, if and only if nothing is hit. */
  lemma CopiesIff<T(!new)>(last: nat, es: seq<Entry<T>>, merge: (T, T) -> T)
    ensures Replay(Table(map[], last), es, merge) == Numbered(es, last) <==> !Hits(es, last)
  {
    if Hits(es, last) {
      ReplayLoses(last, es, merge);
    } else {
      ReplayFresh(last, es, merge);
    }
  }

  ghost predicate Ascending<T(!new)>(es: seq<Entry<T>>) {
    && (forall k :: 0 <= k < |es| ==> es[k].id > 0)
    && (forall j, k :: 0 <= j < k < |es| ==> es[j].id < es[k].id)
  }

  /** The k-th of ascending positive ids is at least k, so into a table never used nothing is hit. */
  lemma {:induction false} AscendingAtLeast<T(!new)>(es: seq<Entry<T>>, k: nat)
    requires Ascending(es) && k < |es|
    ensures es[k].id >= k + 1
  {
    if k > 0 {
      AscendingAtLeast(es, k - 1);
    }
  }

  lemma AscendingNeverHits<T(!new)>(es: seq<Entry<T>>)
    requires Ascending(es)
    ensures !Hits(es, 0)
  {
    forall k | 0 <= k < |es| ensures es[k].id >= k + 1 {
      AscendingAtLeast(es, k);
    }
  }

  /** What holds of every row and every entry, and survives merging, holds of every row afterwards; rows stay. */
  lemma {:induction false} ReplayKeeps<T(!new)>(t: Table<T>, es: seq<Entry<T>>, merge: (T, T) -> T, good: T -> bool)
    requires forall id :: id in t.rows ==> 0 < id <= t.last && good(t.rows[id])
    requires forall k :: 0 <= k < |es| ==> good(es[k].value)
    requires forall was, now :: good(was) && good(now) ==> good(merge(was, now))
    ensures var r := Replay(t, es, merge);
            && (forall id :: id in r.rows ==> 0 < id <= r.last && good(r.rows[id]))
            && t.rows.Keys <= r.rows.Keys
  {
    if es != [] {
      ReplayKeeps(t, es[..|es| - 1], merge, good);
    }
  }

  // ---------------------------------------------------------------- rows that are there already

  /** A row no entry names stays as it is: new rows never take its id. */
  lemma {:induction false} ReplayUntouched<T(!new)>(t: Table<T>, es: seq<Entry<T>>, merge: (T, T) -> T, id: int)
    requires id in t.rows && id <= t.last && forall k :: 0 <= k < |es| ==> es[k].id != id
    ensures var r := Replay(t, es, merge); t.last <= r.last && id in r.rows && r.rows[id] == t.rows[id]
  {
    if es != [] {
      ReplayUntouched(t, es[..|es| - 1], merge, id);
    }
  }

  /** A row that is there stays there, and what updates keep of it stays the same. */
  lemma {:induction false} ReplayStays<T(!new), K>(t: Table<T>, es: seq<Entry<T>>, merge: (T, T) -> T, id: int,
                                                   kept: T -> K)
    requires id in t.rows && id <= t.last && forall was, now :: kept(merge(was, now)) == kept(was)
    ensures var r := Replay(t, es, merge); t.last <= r.last && id in r.rows && kept(r.rows[id]) == kept(t.rows[id])
  {
    if es != [] {
      ReplayStays(t, es[..|es| - 1], merge, id, kept);
    }
  }

  /** The last entry to name a row that was there decides what it holds, merged with what it held at first. */
  lemma {:induction false} ReplayTouched<T(!new)>(t: Table<T>, es: seq<Entry<T>>, merge: (T, T) -> T, k: nat)
    requires k < |es| && es[k].id != 0 && es[k].id in t.rows && es[k].id <= t.last
    requires forall j :: k < j < |es| ==> es[j].id != es[k].id
    requires forall a, b, c :: merge(merge(a, b), c) == merge(a, c)
    ensures var r := Replay(t, es, merge);
            && t.last <= r.last && es[k].id in r.rows
            && r.rows[es[k].id] == merge(t.rows[es[k].id], es[k].value)
  {
    var n, id := |es| - 1, es[k].id;
    var front := es[..n];
    if k < n {
      assert front[k] == es[k] && forall j :: k < j < n ==> front[j] == es[j];
      ReplayTouched(t, front, merge, k);
    } else {
      EarlierEntry(t, front, merge, id);
    }
  }

  /** Before the last naming entry, the row holds what it held at first, merged at most once. */
  lemma {:induction false} EarlierEntry<T(!new)>(t: Table<T>, es: seq<Entry<T>>, merge: (T, T) -> T, id: int)
    requires id in t.rows && id <= t.last && forall a, b, c :: merge(merge(a, b), c) == merge(a, c)
    ensures var r := Replay(t, es, merge);
            && t.last <= r.last && id in r.rows
            && forall v :: merge(r.rows[id], v) == merge(t.rows[id], v)
  {
    if es != [] {
      EarlierEntry(t, es[..|es| - 1], merge, id);
    }
  }
}

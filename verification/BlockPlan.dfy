/**
  gateway/internal/acquisition/blockplan.go: which Modbus reads cover a device's data points.
  Register arithmetic is uint16 and wraps; limits are those of sections 6.3 and 6.4 of the MODBUS
  Application Protocol Specification V1.1b3.
*/
module BlockPlan {
  import opened Common
  import opened Decode

  const MAX_REGISTERS := 125
  const MAX_GAP := 8
  const COILS := 1
  const DISCRETE_INPUTS := 2

  type Word = n: nat | n < 65536

  /** uint16 arithmetic. */
  function Wrap(n: int): Word { n % 65536 }

  datatype DataPoint = DataPoint(id: int, tag: string, fc: Byte, address: Word, dataType: string, byteOrder: string,
                                 scale: Float, offset: Float, unit: string, priority: string)

  datatype ReadBlock = ReadBlock(fc: Byte, start: Word, quantity: Word, points: seq<DataPoint>)

  predicate Known(p: DataPoint) { RegisterCount(p.dataType).Some? }

  /** Registers the point occupies. */
  function Width(p: DataPoint): (w: nat)
    requires Known(p)
    ensures 1 <= w <= 4
  {
    RegisterCount(p.dataType).value
  }

  predicate AllKnown(ps: seq<DataPoint>) { forall i :: 0 <= i < |ps| ==> Known(ps[i]) }

  predicate SortedByAddress(ps: seq<DataPoint>) {
    forall i, j :: 0 <= i < j < |ps| ==> ps[i].address <= ps[j].address
  }

  // ---------------------------------------------------------------- the merge, as a function

  function NewBlock(fc: Byte, p: DataPoint): (b: ReadBlock)
    requires Known(p)
    ensures b.fc == fc && b.points == [p]
  {
    ReadBlock(fc, p.address, Width(p), [p])
  }

  predicate WithinGap(b: ReadBlock, address: Word) {
    address <= Wrap(b.start + b.quantity + MAX_GAP)
  }

  /** The merge test, all of it in wrapping arithmetic. */
  predicate Fits(b: ReadBlock, p: DataPoint)
    requires Known(p)
  {
    && WithinGap(b, p.address)
    && Wrap(Wrap(p.address + Width(p)) - b.start) <= MAX_REGISTERS
  }

  function Extend(b: ReadBlock, p: DataPoint): (r: ReadBlock)
    requires Known(p)
    ensures r.fc == b.fc && r.start == b.start && r.points == b.points + [p]
  {
    var end := Wrap(p.address + Width(p));
    b.(quantity := if end > Wrap(b.start + b.quantity) then Wrap(end - b.start) else b.quantity,
       points := b.points + [p])
  }

  function MergeFrom(pending: ReadBlock, ps: seq<DataPoint>): seq<ReadBlock>
    requires AllKnown(ps)
    decreases |ps|
  {
    if ps == [] then [pending]
    else if Fits(pending, ps[0]) then MergeFrom(Extend(pending, ps[0]), ps[1..])
    else [pending] + MergeFrom(NewBlock(pending.fc, ps[0]), ps[1..])
  }

  /** The blocks of one function code's sorted, known points. */
  function Merge(fc: Byte, ps: seq<DataPoint>): seq<ReadBlock>
    requires AllKnown(ps)
  {
    if ps == [] then [] else MergeFrom(NewBlock(fc, ps[0]), ps[1..])
  }

  /** Coils and discrete inputs stay one point to a block. */
  function Singles(fc: Byte, ps: seq<DataPoint>): seq<ReadBlock>
    requires AllKnown(ps)
  {
    seq(|ps|, i requires 0 <= i < |ps| => NewBlock(fc, ps[i]))
  }

  predicate BitPacked(fc: Byte) { fc == COILS || fc == DISCRETE_INPUTS }

  function BlocksFor(fc: Byte, ps: seq<DataPoint>): seq<ReadBlock>
    requires AllKnown(ps)
  {
    if BitPacked(fc) then Singles(fc, ps) else Merge(fc, ps)
  }

  // ---------------------------------------------------------------- the plan

  function KnownOnly(ps: seq<DataPoint>): (ks: seq<DataPoint>)
    ensures AllKnown(ks)
  {
    if ps == [] then []
    else
      var n := |ps| - 1;
      if Known(ps[n]) then KnownOnly(ps[..n]) + [ps[n]] else KnownOnly(ps[..n])
  }

  /** One function code's share of the plan: its known points in the order they were merged. */
  datatype Part = Part(fc: Byte, points: seq<DataPoint>)

  ghost predicate PartOk(t: Part) {
    && AllKnown(t.points)
    && (forall i :: 0 <= i < |t.points| ==> t.points[i].fc == t.fc)
    && (!BitPacked(t.fc) ==> SortedByAddress(t.points))
  }

  ghost predicate PartsOk(parts: seq<Part>) {
    && (forall i :: 0 <= i < |parts| ==> PartOk(parts[i]))
    && (forall i, j :: 0 <= i < j < |parts| ==> parts[i].fc != parts[j].fc)
  }

  ghost function PartPoints(parts: seq<Part>): multiset<DataPoint> {
    if parts == [] then multiset{} else PartPoints(parts[..|parts| - 1]) + multiset(parts[|parts| - 1].points)
  }

  ghost function PartBlocks(parts: seq<Part>): seq<ReadBlock>
    requires PartsOk(parts)
  {
    if parts == [] then []
    else
      var n := |parts| - 1;
      PartBlocks(parts[..n]) + BlocksFor(parts[n].fc, parts[n].points)
  }

  /**
    The blocks are those of the known points grouped by function code; the groups come in any
    order, as do points of equal address within a group.
  */
  ghost predicate IsPlan(dps: seq<DataPoint>, parts: seq<Part>, blocks: seq<ReadBlock>) {
    && PartsOk(parts)
    && PartPoints(parts) == multiset(KnownOnly(dps))
    && blocks == PartBlocks(parts)
  }

  /** The blocks planBlockReads may return. */
  ghost predicate Planned(dps: seq<DataPoint>, blocks: seq<ReadBlock>) {
    exists parts :: IsPlan(dps, parts, blocks)
  }

  // ---------------------------------------------------------------- planBlockReads

  method InsertByAddress(sorted: seq<DataPoint>, p: DataPoint) returns (r: seq<DataPoint>)
    requires SortedByAddress(sorted)
    ensures multiset(r) == multiset(sorted) + multiset{p} && SortedByAddress(r)
  {
    var k := |sorted|;
    while k > 0 && sorted[k - 1].address > p.address
      invariant 0 <= k <= |sorted|
      invariant forall j :: k <= j < |sorted| ==> sorted[j].address > p.address
    {
      k := k - 1;
    }
    InsertionPoint(sorted, p, k);
    r := sorted[..k] + [p] + sorted[k..];
  }

  lemma InsertionPoint(sorted: seq<DataPoint>, p: DataPoint, k: nat)
    requires SortedByAddress(sorted) && k <= |sorted|
    requires forall j :: k <= j < |sorted| ==> sorted[j].address > p.address
    requires k > 0 ==> sorted[k - 1].address <= p.address
    ensures multiset(sorted[..k] + [p] + sorted[k..]) == multiset(sorted) + multiset{p}
    ensures SortedByAddress(sorted[..k] + [p] + sorted[k..])
  {
    InsertedSorted(sorted, p, k);
    InsertedCounts(sorted[..k], sorted[k..], p);
    assert sorted == sorted[..k] + sorted[k..];
  }

  lemma InsertedCounts<T>(a: seq<T>, b: seq<T>, x: T)
    ensures multiset(a + [x] + b) == multiset(a + b) + multiset{x}
  {}

  lemma InsertedSorted(sorted: seq<DataPoint>, p: DataPoint, k: nat)
    requires SortedByAddress(sorted) && k <= |sorted|
    requires forall j :: k <= j < |sorted| ==> sorted[j].address > p.address
    requires k > 0 ==> sorted[k - 1].address <= p.address
    ensures SortedByAddress(sorted[..k] + [p] + sorted[k..])
  {}

  /** sort.Slice by register address: sorted, a permutation, ties anyhow. */
  method SortByAddress(group: seq<DataPoint>) returns (sorted: seq<DataPoint>)
    ensures multiset(sorted) == multiset(group) && SortedByAddress(sorted)
  {
    sorted := [];
    for i := 0 to |group|
      invariant multiset(sorted) == multiset(group[..i]) && SortedByAddress(sorted)
    {
      assert group[..i + 1] == group[..i] + [group[i]];
      sorted := InsertByAddress(sorted, group[i]);
    }
    assert group[..|group|] == group;
  }

  lemma KnownOnlyStep(ps: seq<DataPoint>, i: nat)
    requires i < |ps|
    ensures KnownOnly(ps[..i + 1]) == if Known(ps[i]) then KnownOnly(ps[..i]) + [ps[i]] else KnownOnly(ps[..i])
  {
    assert ps[..i + 1][..i] == ps[..i];
  }

  /** The loop's state: finished blocks, and the one still being built. */
  datatype Merging = Merging(done: seq<ReadBlock>, pending: Option<ReadBlock>)

  function Step(fc: Byte, m: Merging, p: DataPoint): Merging
    requires Known(p)
  {
    match m.pending
    case None => Merging(m.done, Some(NewBlock(fc, p)))
    case Some(b) =>
      if Fits(b, p) then Merging(m.done, Some(Extend(b, p))) else Merging(m.done + [b], Some(NewBlock(fc, p)))
  }

  function Fold(fc: Byte, ps: seq<DataPoint>): Merging
    requires AllKnown(ps)
  {
    if ps == [] then Merging([], None) else Step(fc, Fold(fc, ps[..|ps| - 1]), ps[|ps| - 1])
  }

  /** What the loop has built, followed by merging the points to come, is the whole merge. */
  lemma {:induction false} FoldThenRest(fc: Byte, ps: seq<DataPoint>, rest: seq<DataPoint>)
    requires AllKnown(ps) && AllKnown(rest) && ps != []
    ensures var m := Fold(fc, ps);
            && m.pending.Some? && m.pending.value.fc == fc
            && Merge(fc, ps + rest) == m.done + MergeFrom(m.pending.value, rest)
  {
    hide Fits, Extend, NewBlock, Known;
    var n := |ps| - 1;
    var front, p := ps[..n], ps[n];
    if n == 0 {
      assert (ps + rest)[1..] == rest;
    } else {
      var more := [p] + rest;
      FoldThenRest(fc, front, more);
      assert front + more == ps + rest;
      assert more[1..] == rest;
      var m := Fold(fc, front);
      assert m.done + ([m.pending.value] + MergeFrom(NewBlock(fc, p), rest))
          == m.done + [m.pending.value] + MergeFrom(NewBlock(fc, p), rest);
    }
  }

  /** The loop over one sorted group: `pending` is finished only when the next point does not fit. */
  method MergeGroup(fc: Byte, group: seq<DataPoint>) returns (blocks: seq<ReadBlock>)
    ensures blocks == Merge(fc, KnownOnly(group))
  {
    hide Fits, Extend, NewBlock, Known, Merge;
    blocks := [];
    var pending: Option<ReadBlock> := None;
    for i := 0 to |group|
      invariant Merging(blocks, pending) == Fold(fc, KnownOnly(group[..i]))
    {
      var p := group[i];
      KnownOnlyStep(group, i);
      if !Known(p) {
        continue;
      }
      assert (KnownOnly(group[..i]) + [p])[..|KnownOnly(group[..i])|] == KnownOnly(group[..i]);
      if pending.Some? && Fits(pending.value, p) {
        pending := Some(Extend(pending.value, p));
        continue;
      }
      if pending.Some? {
        blocks := blocks + [pending.value];
      }
      pending := Some(NewBlock(fc, p));
    }
    assert group[..|group|] == group;
    MergeIsFold(fc, KnownOnly(group));
    if pending.Some? {
      blocks := blocks + [pending.value];
    }
  }

  lemma MergeIsFold(fc: Byte, ps: seq<DataPoint>)
    requires AllKnown(ps)
    ensures var m := Fold(fc, ps);
            Merge(fc, ps) == m.done + if m.pending.Some? then [m.pending.value] else []
  {
    if ps != [] {
      FoldThenRest(fc, ps, []);
      assert ps + [] == ps;
    }
  }

  method SingleBlocks(fc: Byte, group: seq<DataPoint>) returns (blocks: seq<ReadBlock>)
    ensures blocks == Singles(fc, KnownOnly(group))
  {
    blocks := [];
    for i := 0 to |group|
      invariant blocks == Singles(fc, KnownOnly(group[..i]))
    {
      KnownOnlyStep(group, i);
      if Known(group[i]) {
        blocks := blocks + [NewBlock(fc, group[i])];
      }
    }
    assert group[..|group|] == group;
  }

  // ---------------------------------------------------------------- counting points through the grouping

  function OfCode(ps: seq<DataPoint>, fc: Byte): seq<DataPoint> {
    if ps == [] then []
    else
      var n := |ps| - 1;
      if ps[n].fc == fc then OfCode(ps[..n], fc) + [ps[n]] else OfCode(ps[..n], fc)
  }

  lemma {:induction false} KnownCount(ps: seq<DataPoint>, p: DataPoint)
    ensures multiset(KnownOnly(ps))[p] == if Known(p) then multiset(ps)[p] else 0
  {
    if ps != [] {
      var n := |ps| - 1;
      KnownCount(ps[..n], p);
      assert ps == ps[..n] + [ps[n]];
    }
  }

  lemma {:induction false} CodeCount(ps: seq<DataPoint>, fc: Byte, p: DataPoint)
    ensures multiset(OfCode(ps, fc))[p] == if p.fc == fc then multiset(ps)[p] else 0
  {
    if ps != [] {
      var n := |ps| - 1;
      CodeCount(ps[..n], fc, p);
      assert ps == ps[..n] + [ps[n]];
    }
  }

  lemma {:induction false} KnownOnlyFacts(ps: seq<DataPoint>)
    ensures forall p :: p in KnownOnly(ps) ==> p in ps
    ensures SortedByAddress(ps) ==> SortedByAddress(KnownOnly(ps))
  {
    if ps != [] {
      var n := |ps| - 1;
      KnownOnlyFacts(ps[..n]);
      var front := KnownOnly(ps[..n]);
      if SortedByAddress(ps) {
        forall i | 0 <= i < |front| ensures front[i].address <= ps[n].address {
          assert front[i] in ps[..n];
        }
      }
    }
  }

  /** A group's arranged points count the known data points of its code, and only those. */
  lemma GroupCounts(dps: seq<DataPoint>, fc: Byte, arranged: seq<DataPoint>, p: DataPoint)
    requires multiset(arranged) == multiset(OfCode(dps, fc))
    ensures multiset(KnownOnly(arranged))[p] == if p.fc == fc then multiset(KnownOnly(dps))[p] else 0
  {
    KnownCount(arranged, p);
    CodeCount(dps, fc, p);
    KnownCount(dps, p);
  }

  lemma GroupIsPart(dps: seq<DataPoint>, fc: Byte, arranged: seq<DataPoint>)
    requires multiset(arranged) == multiset(OfCode(dps, fc))
    requires !BitPacked(fc) ==> SortedByAddress(arranged)
    ensures PartOk(Part(fc, KnownOnly(arranged)))
  {
    var ks := KnownOnly(arranged);
    KnownOnlyFacts(arranged);
    forall i | 0 <= i < |ks| ensures ks[i].fc == fc {
      assert multiset(ks)[ks[i]] > 0;
      GroupCounts(dps, fc, arranged, ks[i]);
    }
  }

  lemma AddPart(parts: seq<Part>, t: Part)
    requires PartsOk(parts) && PartOk(t) && forall i :: 0 <= i < |parts| ==> parts[i].fc != t.fc
    ensures PartsOk(parts + [t])
    ensures PartPoints(parts + [t]) == PartPoints(parts) + multiset(t.points)
    ensures PartBlocks(parts + [t]) == PartBlocks(parts) + BlocksFor(t.fc, t.points)
  {}

  method GroupByCode(dps: seq<DataPoint>) returns (byFC: map<Byte, seq<DataPoint>>)
    ensures forall fc :: fc in byFC ==> byFC[fc] == OfCode(dps, fc)
    ensures forall i :: 0 <= i < |dps| ==> dps[i].fc in byFC
  {
    byFC := map[];
    for i := 0 to |dps|
      invariant forall fc: Byte :: if fc in byFC then byFC[fc] == OfCode(dps[..i], fc) else OfCode(dps[..i], fc) == []
      invariant forall k :: 0 <= k < i ==> dps[k].fc in byFC
    {
      assert dps[..i + 1][..i] == dps[..i];
      var fc := dps[i].fc;
      byFC := byFC[fc := (if fc in byFC then byFC[fc] else []) + [dps[i]]];
    }
    assert dps[..|dps|] == dps;
  }

  /** One function code: coils and discrete inputs one by one, anything else sorted and merged. */
  method PlanGroup(ghost dps: seq<DataPoint>, fc: Byte, group: seq<DataPoint>)
      returns (blocks: seq<ReadBlock>, ghost t: Part)
    requires group == OfCode(dps, fc)
    ensures t.fc == fc && PartOk(t) && blocks == BlocksFor(fc, t.points)
    ensures forall p :: multiset(t.points)[p] == if p.fc == fc then multiset(KnownOnly(dps))[p] else 0
  {
    hide OfCode, Singles, Merge, SortedByAddress;
    var arranged := group;
    if BitPacked(fc) {
      blocks := SingleBlocks(fc, group);
    } else {
      arranged := SortByAddress(group);
      blocks := MergeGroup(fc, arranged);
    }
    t := Part(fc, KnownOnly(arranged));
    GroupIsPart(dps, fc, arranged);
    forall p ensures multiset(t.points)[p] == if p.fc == fc then multiset(KnownOnly(dps))[p] else 0 {
      GroupCounts(dps, fc, arranged, p);
    }
  }

  /** planBlockReads: groups in any order, each sorted and merged, or left one by one. */
  method PlanBlockReads(dps: seq<DataPoint>) returns (blocks: seq<ReadBlock>)
    ensures Planned(dps, blocks)
  {
    hide OfCode, BlocksFor, KnownOnly, PartOk, PartBlocks, PartPoints;
    var byFC := GroupByCode(dps);
    ghost var parts: seq<Part> := [];
    blocks := [];
    NoParts();
    var left := byFC.Keys;
    while left != {}
      invariant left <= byFC.Keys && PartsOk(parts) && blocks == PartBlocks(parts)
      invariant forall i :: 0 <= i < |parts| ==> parts[i].fc in byFC && parts[i].fc !in left
      invariant forall p :: PartPoints(parts)[p] ==
                  if p.fc in byFC && p.fc !in left then multiset(KnownOnly(dps))[p] else 0
      decreases |left|
    {
      var fc :| fc in left;
      var more, t := PlanGroup(dps, fc, byFC[fc]);
      AddPart(parts, t);
      blocks, parts, left := blocks + more, parts + [t], left - {fc};
    }
    forall p ensures PartPoints(parts)[p] == multiset(KnownOnly(dps))[p] {
      if multiset(KnownOnly(dps))[p] > 0 {
        KnownCount(dps, p);
        assert p in dps;
      }
    }
    assert IsPlan(dps, parts, blocks);
  }

  lemma NoParts()
    ensures PartsOk([]) && PartBlocks([]) == [] && PartPoints([]) == multiset{}
  {}
}

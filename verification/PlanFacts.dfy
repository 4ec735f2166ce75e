/** What a block plan guarantees: partition, containment, fewest blocks, and unchanged readings. */
module PlanFacts {
  import opened Decode
  import opened BlockPlan

  // ---------------------------------------------------------------- partition

  function PointsOf(blocks: seq<ReadBlock>): seq<DataPoint> {
    if blocks == [] then [] else blocks[0].points + PointsOf(blocks[1..])
  }

  lemma {:induction false} PointsOfConcat(a: seq<ReadBlock>, b: seq<ReadBlock>)
    ensures PointsOf(a + b) == PointsOf(a) + PointsOf(b)
  {
    if a == [] {
      assert a + b == b;
    } else {
      assert (a + b)[1..] == a[1..] + b;
      PointsOfConcat(a[1..], b);
    }
  }

  ghost predicate Uniform(b: ReadBlock) {
    b.points != [] && forall i :: 0 <= i < |b.points| ==> b.points[i].fc == b.fc
  }

  ghost predicate AllUniform(blocks: seq<ReadBlock>, fc: Byte) {
    forall i :: 0 <= i < |blocks| ==> Uniform(blocks[i]) && blocks[i].fc == fc
  }

  /** Merging loses no point, adds none and keeps their order. */
  lemma {:induction false} MergePoints(pending: ReadBlock, ps: seq<DataPoint>)
    requires AllKnown(ps)
    ensures PointsOf(MergeFrom(pending, ps)) == pending.points + ps
    ensures Uniform(pending) && (forall i :: 0 <= i < |ps| ==> ps[i].fc == pending.fc) ==>
              AllUniform(MergeFrom(pending, ps), pending.fc)
    decreases |ps|
  {
    hide Fits, Extend, NewBlock, Known;
    if ps == [] {
      assert PointsOf([pending]) == pending.points + PointsOf([]);
    } else if Fits(pending, ps[0]) {
      MergePoints(Extend(pending, ps[0]), ps[1..]);
      assert pending.points + [ps[0]] + ps[1..] == pending.points + ps;
    } else {
      var rest := MergeFrom(NewBlock(pending.fc, ps[0]), ps[1..]);
      MergePoints(NewBlock(pending.fc, ps[0]), ps[1..]);
      assert ([pending] + rest)[1..] == rest;
      assert [ps[0]] + ps[1..] == ps;
    }
  }

  lemma {:induction false} SinglesPoints(fc: Byte, ps: seq<DataPoint>)
    requires AllKnown(ps)
    ensures PointsOf(Singles(fc, ps)) == ps
  {
    hide NewBlock, Known;
    if ps != [] {
      assert Singles(fc, ps)[1..] == Singles(fc, ps[1..]);
      SinglesPoints(fc, ps[1..]);
      assert [ps[0]] + ps[1..] == ps;
    }
  }

  lemma PartKeepsPoints(t: Part)
    requires PartOk(t)
    ensures PointsOf(BlocksFor(t.fc, t.points)) == t.points && AllUniform(BlocksFor(t.fc, t.points), t.fc)
  {
    if BitPacked(t.fc) {
      SinglesPoints(t.fc, t.points);
    } else if t.points != [] {
      MergePoints(NewBlock(t.fc, t.points[0]), t.points[1..]);
      assert [t.points[0]] + t.points[1..] == t.points;
    }
  }

  lemma {:induction false} PartsKeepPoints(parts: seq<Part>)
    requires PartsOk(parts)
    ensures multiset(PointsOf(PartBlocks(parts))) == PartPoints(parts)
    ensures forall i :: 0 <= i < |PartBlocks(parts)| ==> Uniform(PartBlocks(parts)[i])
  {
    if parts != [] {
      var n := |parts| - 1;
      assert PartOk(parts[n]) && AllKnown(parts[n].points);
      hide PartOk, BlocksFor;
      PartsKeepPoints(parts[..n]);
      PartKeepsPoints(parts[n]);
      PointsOfConcat(PartBlocks(parts[..n]), BlocksFor(parts[n].fc, parts[n].points));
    }
  }

  /**
    The plan partitions the points: over all blocks together each known data point occurs exactly
    as often as it was given, unknown ones never, and a block holds points of its own code only.
  */
  lemma PlanPartitions(dps: seq<DataPoint>, blocks: seq<ReadBlock>)
    requires Planned(dps, blocks)
    ensures multiset(PointsOf(blocks)) == multiset(KnownOnly(dps))
    ensures forall p :: multiset(PointsOf(blocks))[p] == if Known(p) then multiset(dps)[p] else 0
    ensures forall i :: 0 <= i < |blocks| ==> Uniform(blocks[i])
  {
    var parts :| IsPlan(dps, parts, blocks);
    PartsKeepPoints(parts);
    forall p ensures multiset(KnownOnly(dps))[p] == if Known(p) then multiset(dps)[p] else 0 {
      KnownCount(dps, p);
    }
  }

  lemma {:induction false} OneBlockCounts(blocks: seq<ReadBlock>, i: nat, p: DataPoint)
    requires i < |blocks| && p in blocks[i].points
    ensures multiset(PointsOf(blocks))[p] >= 1
  {
    if i > 0 {
      OneBlockCounts(blocks[1..], i - 1, p);
    }
  }

  lemma {:induction false} TwoBlocksCountTwice(blocks: seq<ReadBlock>, i: nat, j: nat, p: DataPoint)
    requires i < j < |blocks| && p in blocks[i].points && p in blocks[j].points
    ensures multiset(PointsOf(blocks))[p] >= 2
  {
    if i == 0 {
      OneBlockCounts(blocks[1..], j - 1, p);
    } else {
      TwoBlocksCountTwice(blocks[1..], i - 1, j - 1, p);
    }
  }

  lemma {:induction false} SomeBlockHas(blocks: seq<ReadBlock>, p: DataPoint) returns (i: nat)
    requires p in PointsOf(blocks)
    ensures i < |blocks| && p in blocks[i].points
  {
    if p in blocks[0].points {
      i := 0;
    } else {
      var k := SomeBlockHas(blocks[1..], p);
      i := k + 1;
    }
  }

  /** A known data point given once lies in exactly one block, and that block has its function code. */
  lemma InExactlyOneBlock(dps: seq<DataPoint>, blocks: seq<ReadBlock>, p: DataPoint) returns (i: nat)
    requires Planned(dps, blocks) && Known(p) && multiset(dps)[p] == 1
    ensures i < |blocks| && p in blocks[i].points && blocks[i].fc == p.fc
    ensures forall j :: 0 <= j < |blocks| && j != i ==> p !in blocks[j].points
  {
    PlanPartitions(dps, blocks);
    KnownCount(dps, p);
    assert p in multiset(PointsOf(blocks));
    i := SomeBlockHas(blocks, p);
    forall j | 0 <= j < |blocks| && j != i ensures p !in blocks[j].points {
      if p in blocks[j].points {
        TwoBlocksCountTwice(blocks, if i < j then i else j, if i < j then j else i, p);
      }
    }
    assert Uniform(blocks[i]);
  }

  // ---------------------------------------------------------------- containment

  function End(p: DataPoint): nat
    requires Known(p)
  {
    p.address + Width(p)
  }

  /** The end does not wrap. */
  predicate InSpace(p: DataPoint)
    requires Known(p)
  {
    End(p) <= 65535
  }

  predicate Contains(b: ReadBlock, p: DataPoint)
    requires Known(p)
  {
    b.start <= p.address && End(p) <= b.start + b.quantity
  }

  function MaxEnd(ps: seq<DataPoint>): nat
    requires AllKnown(ps) && ps != []
  {
    var n := |ps| - 1;
    if n == 0 then End(ps[0])
    else if End(ps[n]) > MaxEnd(ps[..n]) then End(ps[n]) else MaxEnd(ps[..n])
  }

  /** A legal request reaching from its first point exactly to the furthest end of its points. */
  ghost predicate BlockOk(b: ReadBlock) {
    && b.points != [] && AllKnown(b.points)
    && 1 <= b.quantity <= 125
    && b.start == b.points[0].address
    && b.start + b.quantity == MaxEnd(b.points) <= 65535
    && forall i :: 0 <= i < |b.points| ==> Contains(b, b.points[i])
  }

  lemma NoWrap(n: int)
    ensures 0 <= n < 65536 ==> Wrap(n) == n
  {}

  lemma ExtendReach(b: ReadBlock, p: DataPoint)
    requires Known(p) && InSpace(p) && b.start <= p.address && Fits(b, p)
    requires 1 <= b.quantity <= MAX_REGISTERS && b.start + b.quantity <= 65535
    ensures var q := Extend(b, p).quantity;
            && b.start + q == (if End(p) > b.start + b.quantity then End(p) else b.start + b.quantity)
            && 1 <= q <= MAX_REGISTERS
  {
    hide Width, Known, Wrap;
    NoWrap(End(p));
    NoWrap(End(p) - b.start);
    NoWrap(b.start + b.quantity);
  }

  lemma ExtendOk(b: ReadBlock, p: DataPoint)
    requires BlockOk(b) && Known(p) && InSpace(p) && b.start <= p.address && Fits(b, p)
    ensures BlockOk(Extend(b, p))
  {
    ExtendReach(b, p);
    hide Extend, Fits, Width;
    var r := Extend(b, p);
    assert r.points[..|r.points| - 1] == b.points;
    assert MaxEnd(r.points) == if End(p) > MaxEnd(b.points) then End(p) else MaxEnd(b.points);
    forall i | 0 <= i < |r.points| ensures Known(r.points[i]) && Contains(r, r.points[i]) {
      if i < |b.points| {
        assert Contains(b, b.points[i]);
      }
    }
  }

  predicate AllInSpace(ps: seq<DataPoint>)
    requires AllKnown(ps)
  {
    forall i :: 0 <= i < |ps| ==> InSpace(ps[i])
  }

  lemma NewBlockOk(fc: Byte, p: DataPoint)
    requires Known(p) && InSpace(p)
    ensures BlockOk(NewBlock(fc, p))
  {}

  lemma {:induction false} MergeOk(pending: ReadBlock, ps: seq<DataPoint>)
    requires BlockOk(pending) && AllKnown(ps) && AllInSpace(ps) && SortedByAddress(ps)
    requires ps != [] ==> pending.start <= ps[0].address
    ensures forall i :: 0 <= i < |MergeFrom(pending, ps)| ==> BlockOk(MergeFrom(pending, ps)[i])
    decreases |ps|
  {
    hide BlockOk, Fits, Extend, NewBlock, InSpace, Known;
    if ps != [] {
      if Fits(pending, ps[0]) {
        ExtendOk(pending, ps[0]);
        MergeOk(Extend(pending, ps[0]), ps[1..]);
      } else {
        NewBlockOk(pending.fc, ps[0]);
        NewBlockStart(pending.fc, ps[0]);
        MergeOk(NewBlock(pending.fc, ps[0]), ps[1..]);
      }
    }
  }

  lemma NewBlockStart(fc: Byte, p: DataPoint)
    requires Known(p)
    ensures NewBlock(fc, p).start == p.address
  {}

  /** Every known point of the device that is batched stays clear of the top of the register space. */
  ghost predicate BatchedInSpace(dps: seq<DataPoint>) {
    forall i :: 0 <= i < |dps| && Known(dps[i]) && dps[i].fc != 1 && dps[i].fc != 2 ==> InSpace(dps[i])
  }

  /** A block of the plan comes from one part. */
  lemma {:induction false} FromPart(parts: seq<Part>, i: nat) returns (k: nat, j: nat)
    requires PartsOk(parts) && i < |PartBlocks(parts)|
    ensures k < |parts| && PartOk(parts[k]) && j < |BlocksFor(parts[k].fc, parts[k].points)|
    ensures PartBlocks(parts)[i] == BlocksFor(parts[k].fc, parts[k].points)[j]
  {
    hide BlocksFor, PartOk;
    var n := |parts| - 1;
    var before := PartBlocks(parts[..n]);
    if i < |before| {
      k, j := FromPart(parts[..n], i);
    } else {
      assert PartOk(parts[n]);
      k, j := n, i - |before|;
    }
  }

  lemma {:induction false} InPart(parts: seq<Part>, k: nat, p: DataPoint)
    requires k < |parts| && p in parts[k].points
    ensures p in PartPoints(parts)
  {
    var n := |parts| - 1;
    if k < n {
      InPart(parts[..n], k, p);
    } else {
      assert p in multiset(parts[n].points);
    }
  }

  lemma PartContains(t: Part)
    requires PartOk(t) && !BitPacked(t.fc) && AllInSpace(t.points)
    ensures forall i :: 0 <= i < |BlocksFor(t.fc, t.points)| ==> BlockOk(BlocksFor(t.fc, t.points)[i])
  {
    hide BlockOk;
    if t.points != [] {
      NewBlockOk(t.fc, t.points[0]);
      MergeOk(NewBlock(t.fc, t.points[0]), t.points[1..]);
    }
  }

  /** FC3 and FC4 blocks ask for 1 to 125 registers and wholly contain each of their points. */
  lemma PlanContains(dps: seq<DataPoint>, blocks: seq<ReadBlock>, i: nat)
    requires Planned(dps, blocks) && BatchedInSpace(dps) && i < |blocks| && blocks[i].fc != 1 && blocks[i].fc != 2
    ensures BlockOk(blocks[i])
  {
    var parts :| IsPlan(dps, parts, blocks);
    var k, j := FromPart(parts, i);
    var t := parts[k];
    PartKeepsPoints(t);
    hide BlockOk, BlocksFor, PartPoints, PartBlocks;
    assert t.fc == blocks[i].fc;
    forall m | 0 <= m < |t.points| ensures InSpace(t.points[m]) {
      InPart(parts, k, t.points[m]);
      KnownCount(dps, t.points[m]);
      assert t.points[m] in dps;
    }
    PartContains(t);
  }

  /** Coils and discrete inputs, function codes 1 and 2: one point to a block, which asks for that point. */
  lemma BitsStaySingle(dps: seq<DataPoint>, blocks: seq<ReadBlock>, i: nat)
    requires Planned(dps, blocks) && i < |blocks| && (blocks[i].fc == 1 || blocks[i].fc == 2)
    ensures |blocks[i].points| == 1 && Known(blocks[i].points[0])
    ensures blocks[i].start == blocks[i].points[0].address && blocks[i].quantity == Width(blocks[i].points[0])
  {
    var parts :| IsPlan(dps, parts, blocks);
    var k, j := FromPart(parts, i);
    var t: Part := parts[k];
    PartKeepsPoints(t);
    assert t.fc == blocks[i].fc;
  }

  // ---------------------------------------------------------------- with points at the very top

  /**
    What holds of every block even if points reach past the last register: a block of one point asks
    for that point; a block of several starts with one whose end does not wrap, ends below the top
    and contains every point of it whose end does not wrap.
  */
  ghost predicate BlockShape(b: ReadBlock) {
    && b.points != [] && AllKnown(b.points) && b.start == b.points[0].address
    && (forall i :: 0 <= i < |b.points| ==> b.start <= b.points[i].address)
    && 1 <= b.quantity <= 125
    && if |b.points| == 1 then b.quantity == Width(b.points[0]) else
       && InSpace(b.points[0]) && b.start + b.quantity <= 65535
       && forall i :: 0 <= i < |b.points| && InSpace(b.points[i]) ==> Contains(b, b.points[i])
  }

  /** Nothing fits a block whose end wraps, and only a point whose end does not wrap moves the block's end. */
  lemma ExtendTop(b: ReadBlock, p: DataPoint)
    requires Known(p) && b.start <= p.address && Fits(b, p) && 1 <= b.quantity <= MAX_REGISTERS
    ensures b.start + b.quantity <= 65535
    ensures var q := Extend(b, p).quantity;
            && b.quantity <= q <= MAX_REGISTERS && b.start + q <= 65535
            && (InSpace(p) ==> End(p) <= b.start + q)
            && (!InSpace(p) ==> q == b.quantity)
  {
    hide Width, Known, Wrap;
    NoWrap(End(p));
    NoWrap(End(p) - b.start);
    NoWrap(b.start + b.quantity);
    NoWrap(b.start + b.quantity + MAX_GAP);
    WrapsOver(End(p));
    WrapsOver(b.start + b.quantity);
    WrapsOver(b.start + b.quantity + MAX_GAP);
    WrapsUnder(End(p) - 65536 - b.start);
  }

  lemma WrapsOver(n: int)
    ensures 65536 <= n < 131072 ==> Wrap(n) == n - 65536
  {}

  lemma WrapsUnder(n: int)
    ensures -65536 <= n < 0 ==> Wrap(n) == n + 65536
  {}

  lemma ShapeExtends(b: ReadBlock, p: DataPoint)
    requires BlockShape(b) && Known(p) && b.start <= p.address && Fits(b, p)
    ensures BlockShape(Extend(b, p))
  {
    ExtendTop(b, p);
    hide Extend, Fits, Width;
    var r := Extend(b, p);
    forall i | 0 <= i < |r.points|
      ensures Known(r.points[i]) && r.start <= r.points[i].address
      ensures InSpace(r.points[i]) ==> Contains(r, r.points[i])
    {
      if i < |b.points| {
        assert r.points[i] == b.points[i];
      }
    }
  }

  lemma {:induction false} MergeShape(pending: ReadBlock, ps: seq<DataPoint>)
    requires BlockShape(pending) && AllKnown(ps) && SortedByAddress(ps)
    requires ps != [] ==> pending.start <= ps[0].address
    ensures forall i :: 0 <= i < |MergeFrom(pending, ps)| ==> BlockShape(MergeFrom(pending, ps)[i])
    decreases |ps|
  {
    hide BlockShape, Fits, Extend, NewBlock, Known;
    if ps != [] {
      if Fits(pending, ps[0]) {
        ShapeExtends(pending, ps[0]);
        MergeShape(Extend(pending, ps[0]), ps[1..]);
      } else {
        NewBlockShape(pending.fc, ps[0]);
        NewBlockStart(pending.fc, ps[0]);
        MergeShape(NewBlock(pending.fc, ps[0]), ps[1..]);
      }
    }
  }

  lemma NewBlockShape(fc: Byte, p: DataPoint)
    requires Known(p)
    ensures BlockShape(NewBlock(fc, p))
  {}

  lemma PartShape(t: Part)
    requires PartOk(t) && !BitPacked(t.fc)
    ensures forall i :: 0 <= i < |BlocksFor(t.fc, t.points)| ==> BlockShape(BlocksFor(t.fc, t.points)[i])
  {
    hide BlockShape;
    if t.points != [] {
      NewBlockShape(t.fc, t.points[0]);
      NewBlockStart(t.fc, t.points[0]);
      MergeShape(NewBlock(t.fc, t.points[0]), t.points[1..]);
    }
  }

  lemma PlanShape(dps: seq<DataPoint>, blocks: seq<ReadBlock>, i: nat)
    requires Planned(dps, blocks) && i < |blocks| && blocks[i].fc != 1 && blocks[i].fc != 2
    ensures BlockShape(blocks[i])
  {
    var parts :| IsPlan(dps, parts, blocks);
    var k, j := FromPart(parts, i);
    PartKeepsPoints(parts[k]);
    hide BlockShape, BlocksFor;
    PartShape(parts[k]);
  }

  /**
    In any plan, a point of an FC3 or FC4 block is contained in it iff it is its first point or its end
    does not wrap.
  */
  lemma PlanContainsIff(dps: seq<DataPoint>, blocks: seq<ReadBlock>, i: nat, k: nat)
    requires Planned(dps, blocks) && i < |blocks| && blocks[i].fc != 1 && blocks[i].fc != 2 && k < |blocks[i].points|
    ensures 1 <= blocks[i].quantity <= 125 && Known(blocks[i].points[k])
    ensures blocks[i].start <= blocks[i].points[k].address
    ensures Contains(blocks[i], blocks[i].points[k]) <==> k == 0 || InSpace(blocks[i].points[k])
  {
    PlanShape(dps, blocks, i);
    hide Planned;
  }

  /** A point merged into a block is contained in it if and only if its end does not wrap. */
  lemma MergedContainedIff(b: ReadBlock, p: DataPoint)
    requires Known(p) && Fits(b, p) && b.start <= p.address && 1 <= b.quantity <= MAX_REGISTERS
    ensures Contains(Extend(b, p), p) <==> InSpace(p)
  {
    ExtendTop(b, p);
    hide Extend, Fits, Width;
  }

  predicate TrulyNear(b: ReadBlock, address: Word) { address <= b.start + b.quantity + 8 }

  /** The wrapped gap test is the true one for every later address if and only if block end plus gap does not wrap. */
  lemma GapTestExactIff(b: ReadBlock)
    requires b.start + b.quantity <= 65535
    ensures b.start + b.quantity + 8 <= 65535 <==>
              forall a: Word :: b.start <= a ==> (WithinGap(b, a) <==> TrulyNear(b, a))
  {
    if b.start + b.quantity + MAX_GAP > 65535 {
      var top: Word := 65535;
      assert TrulyNear(b, top) && !WithinGap(b, top);
    }
  }
}

/** The greedy merge uses the fewest blocks among all cuts of the sorted list into legal runs. */
module PlanMinimal {
  import opened Decode
  import opened BlockPlan
  import opened PlanFacts

  /** Far enough from the top of the register space that no test wraps. */
  predicate Roomy(ps: seq<DataPoint>)
    requires AllKnown(ps)
  {
    forall i :: 0 <= i < |ps| ==> End(ps[i]) + MAX_GAP <= 65535
  }

  /** All ends below the top, and all but the last point's far enough below it. */
  predicate RoomyButLast(ps: seq<DataPoint>)
    requires AllKnown(ps)
  {
    AllInSpace(ps) && forall i :: 0 <= i < |ps| - 1 ==> End(ps[i]) + MAX_GAP <= 65535
  }

  /**
    Point p may join the run before it: at most 8 registers beyond what is covered, and within the 125
    registers of one request.
  */
  predicate Joins(run: seq<DataPoint>, p: DataPoint)
    requires AllKnown(run) && run != [] && Known(p)
  {
    p.address <= MaxEnd(run) + 8 && End(p) - run[0].address <= 125
  }

  ghost predicate LegalRun(run: seq<DataPoint>)
    requires AllKnown(run)
  {
    run != [] && forall k :: 1 <= k < |run| ==> Joins(run[..k], run[k])
  }

  function Flatten(runs: seq<seq<DataPoint>>): seq<DataPoint> {
    if runs == [] then [] else runs[0] + Flatten(runs[1..])
  }

  /** Consecutive legal runs that together are the whole list. */
  ghost predicate IsCut(runs: seq<seq<DataPoint>>, ps: seq<DataPoint>) {
    && Flatten(runs) == ps
    && forall i :: 0 <= i < |runs| ==> AllKnown(runs[i]) && LegalRun(runs[i])
  }

  /** Away from the top, the merge test is the legality test. */
  lemma FitsIsJoins(b: ReadBlock, p: DataPoint)
    requires BlockOk(b) && Known(p) && b.start <= p.address
    requires InSpace(p) && MaxEnd(b.points) + MAX_GAP <= 65535
    ensures Fits(b, p) <==> Joins(b.points, p)
  {
    hide MaxEnd, Width;
  }

  /** How many points of ps the pending block takes before the first cut. */
  function Taken(b: ReadBlock, ps: seq<DataPoint>): (n: nat)
    requires AllKnown(ps)
    ensures n <= |ps|
    decreases |ps|
  {
    if ps == [] || !Fits(b, ps[0]) then 0 else 1 + Taken(Extend(b, ps[0]), ps[1..])
  }

  /** One block, then the merge of everything after the cut. */
  lemma {:induction false} MergeCuts(b: ReadBlock, ps: seq<DataPoint>)
    requires AllKnown(ps)
    ensures var blocks, n := MergeFrom(b, ps), Taken(b, ps);
            && blocks != [] && blocks[0].points == b.points + ps[..n] && blocks[0].start == b.start
            && blocks[1..] == Merge(b.fc, ps[n..])
    decreases |ps|
  {
    hide Fits, Extend, NewBlock, Known;
    if ps != [] && Fits(b, ps[0]) {
      var c := Extend(b, ps[0]);
      MergeCuts(c, ps[1..]);
      var n := Taken(c, ps[1..]);
      assert ps[1..][n..] == ps[n + 1..];
      assert b.points + [ps[0]] + ps[1..][..n] == b.points + ps[..n + 1];
    } else {
      assert ps[0..] == ps;
    }
  }

  lemma {:induction false} MaxEndBounds(ps: seq<DataPoint>, i: nat)
    requires AllKnown(ps) && i < |ps|
    ensures End(ps[i]) <= MaxEnd(ps)
  {
    var n := |ps| - 1;
    if i < n {
      MaxEndBounds(ps[..n], i);
    }
  }

  lemma {:induction false} MaxEndBelow(ps: seq<DataPoint>, bound: int)
    requires AllKnown(ps) && ps != [] && forall i :: 0 <= i < |ps| ==> End(ps[i]) <= bound
    ensures MaxEnd(ps) <= bound
  {
    var n := |ps| - 1;
    if n > 0 {
      MaxEndBelow(ps[..n], bound);
    }
  }

  /**
    From a pending block holding the points of `run`, followed by `ps`: where greedy cuts, the next
    point cannot join all that precedes it in the block.
  */
  lemma {:induction false} CutPointCannotJoin(b: ReadBlock, ps: seq<DataPoint>)
    requires BlockOk(b) && AllKnown(ps) && RoomyButLast(ps) && SortedByAddress(ps)
    requires ps != [] ==> b.start <= ps[0].address && Roomy(b.points)
    ensures var n := Taken(b, ps);
            AllKnown(b.points + ps[..n]) && (n < |ps| ==> !Joins(b.points + ps[..n], ps[n]))
    decreases |ps|
  {
    hide Joins, MaxEnd, Extend, Known, Width, End;
    if ps == [] {
    } else {
      FirstPointJoins(b, ps[0]);
      hide BlockOk;
      if Fits(b, ps[0]) {
        hide Fits;
        var c := Extend(b, ps[0]);
        CutPointCannotJoin(c, ps[1..]);
        var m := Taken(c, ps[1..]);
        assert c.points + ps[1..][..m] == b.points + ps[..m + 1];
      } else {
        assert b.points + ps[..0] == b.points;
      }
    }
  }

  /** All that greedy takes lies within the span of the block's first register. */
  lemma {:induction false} TakenSpan(b: ReadBlock, ps: seq<DataPoint>)
    requires BlockOk(b) && AllKnown(ps) && RoomyButLast(ps) && SortedByAddress(ps)
    requires ps != [] ==> b.start <= ps[0].address && Roomy(b.points)
    ensures forall i :: 0 <= i < Taken(b, ps) ==> End(ps[i]) <= b.start + MAX_REGISTERS
    decreases |ps|
  {
    hide Joins, MaxEnd, Extend, Known, Width, End, BlockOk;
    if ps != [] {
      FirstPointJoins(b, ps[0]);
      if Fits(b, ps[0]) {
        hide Fits;
        TakenSpan(Extend(b, ps[0]), ps[1..]);
        forall i | 1 <= i < Taken(b, ps) ensures End(ps[i]) <= b.start + MAX_REGISTERS {
          assert ps[i] == ps[1..][i - 1];
        }
      }
    }
  }

  /** One step of greedy on a legal pending block: it takes the point exactly if the point joins the block. */
  lemma FirstPointJoins(b: ReadBlock, p: DataPoint)
    requires BlockOk(b) && Known(p) && b.start <= p.address && InSpace(p) && Roomy(b.points)
    ensures b.points != [] && AllKnown(b.points) && (Fits(b, p) <==> Joins(b.points, p))
    ensures Fits(b, p) ==> BlockOk(Extend(b, p)) && End(p) <= b.start + MAX_REGISTERS
    ensures Fits(b, p) && End(p) + MAX_GAP <= 65535 ==> Roomy(Extend(b, p).points)
  {
    MaxEndBelow(b.points, 65535 - MAX_GAP);
    FitsIsJoins(b, p);
    if Fits(b, p) {
      ExtendOk(b, p);
      JoinSpan(b, p);
    }
  }

  lemma JoinSpan(b: ReadBlock, p: DataPoint)
    requires BlockOk(b) && Known(p) && Joins(b.points, p)
    ensures End(p) <= b.start + MAX_REGISTERS
  {}

  lemma LegalPrefixJoins(ps: seq<DataPoint>, run: seq<DataPoint>, g: nat)
    requires AllKnown(ps) && AllKnown(run) && LegalRun(run) && run <= ps && 0 < g < |run|
    ensures Joins(ps[..g], ps[g])
  {
    assert run[..g] == ps[..g] && run[g] == ps[g];
  }

  /** A run opening the list cannot reach past the greedy cut. */
  lemma RunEndsByCut(ps: seq<DataPoint>, run: seq<DataPoint>, g: nat)
    requires AllKnown(ps) && AllKnown(run) && LegalRun(run) && run <= ps
    requires 0 < g < |ps| && !Joins(ps[..g], ps[g])
    ensures |run| <= g
  {
    if |run| > g {
      LegalPrefixJoins(ps, run, g);
    }
  }

  /** The point at a cut ends beyond every point before it. */
  lemma CutPointEndsLast(ps: seq<DataPoint>, g: nat, i: nat)
    requires AllKnown(ps) && 0 < g < |ps| && i < g && !Joins(ps[..g], ps[g])
    requires forall k :: 0 <= k < g ==> End(ps[k]) <= ps[0].address + MAX_REGISTERS
    ensures End(ps[i]) < End(ps[g])
  {
    MaxEndBounds(ps[..g], i);
    assert ps[..g][i] == ps[i] && ps[..g][0] == ps[0];
  }

  /** Dropping leading points that all end before y[0] leaves the covered reach unchanged. */
  lemma {:induction false} ReachRestarts(x: seq<DataPoint>, y: seq<DataPoint>)
    requires AllKnown(x) && AllKnown(y) && y != []
    requires forall i :: 0 <= i < |x| ==> End(x[i]) < End(y[0])
    ensures AllKnown(x + y) && MaxEnd(x + y) == MaxEnd(y)
  {
    var n := |y| - 1;
    assert (x + y)[..|x + y| - 1] == x + y[..n];
    if n == 0 {
      if x != [] {
        assert x + y[..0] == x;
        MaxEndBelow(x, End(y[0]));
      } else {
        assert x + y == y;
      }
    } else {
      ReachRestarts(x, y[..n]);
    }
  }

  lemma RestartJoins(run: seq<DataPoint>, g: nat, k: nat)
    requires AllKnown(run) && SortedByAddress(run) && 1 <= k && g + k < |run| && Joins(run[..g + k], run[g + k])
    requires forall i :: 0 <= i < g ==> End(run[i]) < End(run[g])
    ensures Joins(run[g..][..k], run[g..][k])
  {
    var x, y := run[..g], run[g..][..k];
    assert x + y == run[..g + k] && y[0] == run[g];
    assert run[g..][k] == run[g + k];
    ReachRestarts(x, y);
    assert run[..g + k][0] == run[0];
    assert run[0].address <= run[g].address;
  }

  /** Any rival run stays legal when restarted at a point that ends beyond all it drops. */
  lemma RestartLegal(run: seq<DataPoint>, g: nat)
    requires AllKnown(run) && LegalRun(run) && SortedByAddress(run) && g < |run|
    requires forall i :: 0 <= i < g ==> End(run[i]) < End(run[g])
    ensures AllKnown(run[g..]) && LegalRun(run[g..])
  {
    hide Joins, SortedByAddress, Known, End;
    forall k | 1 <= k < |run[g..]| ensures Joins(run[g..][..k], run[g..][k]) {
      RestartJoins(run, g, k);
    }
  }

  /** A cut restricted to the points from g on. */
  function DropPoints(runs: seq<seq<DataPoint>>, g: nat): seq<seq<DataPoint>> {
    if runs == [] || g == 0 then runs
    else if g >= |runs[0]| then DropPoints(runs[1..], g - |runs[0]|)
    else [runs[0][g..]] + runs[1..]
  }

  lemma {:induction false} DropPointsIsCut(runs: seq<seq<DataPoint>>, ps: seq<DataPoint>, g: nat)
    requires AllKnown(ps) && SortedByAddress(ps) && IsCut(runs, ps) && g < |ps|
    requires forall i :: 0 <= i < g ==> End(ps[i]) < End(ps[g])
    ensures IsCut(DropPoints(runs, g), ps[g..])
    ensures |DropPoints(runs, g)| <= |runs|
  {
    hide Joins, LegalRun, MaxEnd;
    if g == 0 {
      assert ps[0..] == ps;
    } else {
      var first, rest := runs[0], runs[1..];
      assert ps[..|first|] == first && ps[|first|..] == Flatten(rest);
      if g >= |first| {
        var qs := ps[|first|..];
        assert IsCut(rest, qs);
        assert qs[g - |first|] == ps[g] && qs[g - |first|..] == ps[g..];
        DropPointsIsCut(rest, qs, g - |first|);
      } else {
        assert forall i :: 0 <= i < |first| ==> first[i] == ps[i];
        assert SortedByAddress(first);
        RestartLegal(first, g);
        var tail := [first[g..]] + rest;
        assert tail[1..] == rest;
        assert first[g..] + Flatten(rest) == ps[g..];
        assert forall i :: 1 <= i < |tail| ==> tail[i] == rest[i - 1];
      }
    }
  }

  /** The first greedy block of a non-empty list: its length, and why it stops there. */
  lemma FirstBlock(fc: Byte, ps: seq<DataPoint>) returns (g: nat)
    requires AllKnown(ps) && RoomyButLast(ps) && SortedByAddress(ps) && ps != []
    ensures 0 < g <= |ps|
    ensures Merge(fc, ps) != [] && Merge(fc, ps)[0].points == ps[..g] && Merge(fc, ps)[1..] == Merge(fc, ps[g..])
    ensures g < |ps| ==> !Joins(ps[..g], ps[g])
    ensures forall i :: 0 <= i < g ==> End(ps[i]) <= ps[0].address + MAX_REGISTERS
  {
    var b := NewBlock(fc, ps[0]);
    NewBlockOk(fc, ps[0]);
    NewBlockStart(fc, ps[0]);
    assert ps[1..] != [] ==> Roomy(b.points);
    hide Fits, Extend, Joins, MaxEnd, MergeFrom, Taken, BlockOk, NewBlock, Known, End;
    var n := Taken(b, ps[1..]);
    g := n + 1;
    CutPointCannotJoin(b, ps[1..]);
    TakenSpan(b, ps[1..]);
    MergeCuts(b, ps[1..]);
    assert End(ps[0]) <= ps[0].address + MAX_REGISTERS by { OnePointSpans(ps[0]); }
    forall i | 1 <= i < g ensures End(ps[i]) <= ps[0].address + MAX_REGISTERS {
      assert ps[i] == ps[1..][i - 1];
    }
    assert b.points + ps[1..][..n] == ps[..g];
    assert ps[1..][n..] == ps[g..];
  }

  lemma OnePointSpans(p: DataPoint)
    requires Known(p)
    ensures End(p) <= p.address + MAX_REGISTERS
  {}

  /** The points of the last block of a merge. */
  function LastRun(fc: Byte, ps: seq<DataPoint>): seq<DataPoint>
    requires AllKnown(ps)
  {
    var blocks := Merge(fc, ps);
    if blocks == [] then [] else blocks[|blocks| - 1].points
  }

  /**
    Whatever follows the list, any cut of the whole spends on the list, before its last greedy block,
    at least the runs greedy spends: what is left of the cut is a cut of that block and what follows.
  */
  lemma {:induction false} GreedySpendsLeast(fc: Byte, ps: seq<DataPoint>, more: seq<DataPoint>,
                                             runs: seq<seq<DataPoint>>)
      returns (rest: seq<seq<DataPoint>>)
    requires AllKnown(ps) && AllKnown(more) && RoomyButLast(ps) && ps != [] && SortedByAddress(ps + more)
    requires IsCut(runs, ps + more)
    ensures IsCut(rest, LastRun(fc, ps) + more) && |Merge(fc, ps)| + |rest| <= |runs| + 1
    decreases |ps|
  {
    hide Merge, IsCut, Joins, End, Known;
    var all := ps + more;
    FrontSorted(ps, more);
    var g := FirstBlock(fc, ps);
    if g == |ps| {
      assert ps[g..] == [] && ps[..g] == ps;
      NothingMerged(fc);
      rest := runs;
    } else {
      assert all[..g] == ps[..g] && all[g..] == ps[g..] + more && all[g] == ps[g];
      assert forall i :: 0 <= i < g ==> all[i] == ps[i];
      DropFirstRun(all, runs, g);
      SomethingMerged(fc, ps[g..]);
      rest := GreedySpendsLeast(fc, ps[g..], more, DropPoints(runs, g));
    }
  }

  lemma FrontSorted(ps: seq<DataPoint>, more: seq<DataPoint>)
    requires SortedByAddress(ps + more)
    ensures SortedByAddress(ps)
    ensures forall g :: 0 <= g <= |ps| ==> SortedByAddress(ps[g..] + more)
  {
    var all := ps + more;
    assert forall i :: 0 <= i < |ps| ==> all[i] == ps[i];
    forall g | 0 <= g <= |ps| ensures SortedByAddress(ps[g..] + more) {
      assert ps[g..] + more == all[g..];
    }
  }

  /** From a cut's restriction to what follows the greedy cut, at least one run is gone. */
  lemma DropFirstRun(all: seq<DataPoint>, runs: seq<seq<DataPoint>>, g: nat)
    requires AllKnown(all) && SortedByAddress(all) && IsCut(runs, all) && 0 < g < |all| && !Joins(all[..g], all[g])
    requires forall i :: 0 <= i < g ==> End(all[i]) <= all[0].address + MAX_REGISTERS
    ensures IsCut(DropPoints(runs, g), all[g..]) && |DropPoints(runs, g)| < |runs|
  {
    assert runs != [] && runs[0] <= all;
    RunEndsByCut(all, runs[0], g);
    forall i | 0 <= i < g ensures End(all[i]) < End(all[g]) {
      CutPointEndsLast(all, g, i);
    }
    DropPointsIsCut(runs, all, g);
    FirstRunDropped(runs, g);
  }

  lemma NothingMerged(fc: Byte)
    ensures Merge(fc, []) == []
  {}

  lemma SomethingMerged(fc: Byte, ps: seq<DataPoint>)
    requires AllKnown(ps) && ps != []
    ensures Merge(fc, ps) != []
  {
    MergeCuts(NewBlock(fc, ps[0]), ps[1..]);
  }

  /**
    No cut of an address-sorted list into consecutive runs that obey the gap and span rules has
    fewer runs than the greedy merge has blocks, as long as only the last point is near the top.
  */
  lemma GreedyIsMinimal(fc: Byte, ps: seq<DataPoint>, runs: seq<seq<DataPoint>>)
    requires AllKnown(ps) && RoomyButLast(ps) && SortedByAddress(ps) && IsCut(runs, ps)
    ensures |Merge(fc, ps)| <= |runs|
  {
    if ps != [] {
      assert ps + [] == ps;
      var rest := GreedySpendsLeast(fc, ps, [], runs);
      LastRunNotEmpty(fc, ps);
      assert rest != [];
    }
  }

  lemma LastRunNotEmpty(fc: Byte, ps: seq<DataPoint>)
    requires AllKnown(ps) && ps != []
    ensures LastRun(fc, ps) != []
  {
    SomethingMerged(fc, ps);
    MergeNotEmpty(NewBlock(fc, ps[0]), ps[1..]);
  }

  lemma {:induction false} MergeNotEmpty(b: ReadBlock, ps: seq<DataPoint>)
    requires AllKnown(ps) && b.points != []
    ensures forall i :: 0 <= i < |MergeFrom(b, ps)| ==> MergeFrom(b, ps)[i].points != []
    decreases |ps|
  {
    hide Fits, Known;
    if ps != [] {
      MergeNotEmpty(if Fits(b, ps[0]) then Extend(b, ps[0]) else NewBlock(b.fc, ps[0]), ps[1..]);
    }
  }

  lemma {:induction false} FirstRunDropped(runs: seq<seq<DataPoint>>, g: nat)
    requires runs != [] && 0 < |runs[0]| <= g
    ensures |DropPoints(runs, g)| < |runs|
  {
    DropNotLonger(runs[1..], g - |runs[0]|);
  }

  lemma {:induction false} DropNotLonger(runs: seq<seq<DataPoint>>, g: nat)
    ensures |DropPoints(runs, g)| <= |runs|
  {
    if runs != [] && g >= |runs[0]| && g > 0 {
      DropNotLonger(runs[1..], g - |runs[0]|);
    }
  }

  // ---------------------------------------------------------------- the greedy cut is legal, and the plan uses it

  function Runs(blocks: seq<ReadBlock>): seq<seq<DataPoint>> {
    if blocks == [] then [] else [blocks[0].points] + Runs(blocks[1..])
  }

  lemma {:induction false} RunsFlatten(blocks: seq<ReadBlock>)
    ensures |Runs(blocks)| == |blocks| && Flatten(Runs(blocks)) == PointsOf(blocks)
    ensures forall i :: 0 <= i < |blocks| ==> Runs(blocks)[i] == blocks[i].points
  {
    if blocks != [] {
      RunsFlatten(blocks[1..]);
      assert Runs(blocks)[1..] == Runs(blocks[1..]);
    }
  }

  lemma LegalRunGrows(run: seq<DataPoint>, p: DataPoint)
    requires AllKnown(run) && LegalRun(run) && Known(p) && Joins(run, p)
    ensures AllKnown(run + [p]) && LegalRun(run + [p])
  {
    hide Joins;
    var longer := run + [p];
    forall k | 1 <= k < |longer| ensures Joins(longer[..k], longer[k]) {
      assert longer[..k] == run[..k];
      if k == |run| {
        assert run[..k] == run;
      }
    }
  }

  ghost predicate LegalBlock(b: ReadBlock) { AllKnown(b.points) && LegalRun(b.points) }

  /** Even where the gap test wraps, what fits joins: a wrapped test only ever refuses. */
  lemma FitsMeansJoins(b: ReadBlock, p: DataPoint)
    requires BlockOk(b) && Known(p) && InSpace(p) && b.start <= p.address && Fits(b, p)
    ensures Joins(b.points, p) && MaxEnd(b.points) + MAX_GAP <= 65535
  {
    hide MaxEnd, Width;
  }

  lemma {:induction false} MergeIsLegal(b: ReadBlock, ps: seq<DataPoint>)
    requires BlockOk(b) && LegalBlock(b)
    requires AllKnown(ps) && AllInSpace(ps) && SortedByAddress(ps) && (ps != [] ==> b.start <= ps[0].address)
    ensures forall i :: 0 <= i < |MergeFrom(b, ps)| ==> LegalBlock(MergeFrom(b, ps)[i])
    decreases |ps|
  {
    hide LegalRun, Joins, Fits, Extend, NewBlock;
    if ps != [] {
      var p := ps[0];
      if Fits(b, p) {
        FitsMeansJoins(b, p);
        LegalRunGrows(b.points, p);
        ExtendOk(b, p);
        MergeIsLegal(Extend(b, p), ps[1..]);
      } else {
        FreshBlock(b.fc, p);
        MergeIsLegal(NewBlock(b.fc, p), ps[1..]);
      }
    }
  }

  lemma FreshBlock(fc: Byte, p: DataPoint)
    requires Known(p) && InSpace(p)
    ensures var b := NewBlock(fc, p);
            BlockOk(b) && LegalBlock(b) && b.start == p.address
  {}

  /** The merge is itself a legal cut, near the top as well. */
  lemma GreedyIsCut(fc: Byte, ps: seq<DataPoint>)
    requires AllKnown(ps) && AllInSpace(ps) && SortedByAddress(ps)
    ensures IsCut(Runs(Merge(fc, ps)), ps) && |Runs(Merge(fc, ps))| == |Merge(fc, ps)|
  {
    RunsFlatten(Merge(fc, ps));
    if ps != [] {
      var b := NewBlock(fc, ps[0]);
      FreshBlock(fc, ps[0]);
      hide NewBlock, LegalRun, Joins, BlockOk;
      MergePoints(b, ps[1..]);
      assert [ps[0]] + ps[1..] == ps;
      MergeIsLegal(b, ps[1..]);
      assert forall i :: 0 <= i < |Merge(fc, ps)| ==> LegalBlock(Merge(fc, ps)[i]);
    }
  }

  function CountCode(blocks: seq<ReadBlock>, fc: Byte): nat {
    if blocks == [] then 0
    else CountCode(blocks[..|blocks| - 1], fc) + if blocks[|blocks| - 1].fc == fc then 1 else 0
  }

  lemma {:induction false} CountCodeAppend(a: seq<ReadBlock>, b: seq<ReadBlock>, fc: Byte, same: bool)
    requires forall i :: 0 <= i < |b| ==> (b[i].fc == fc <==> same)
    ensures CountCode(a + b, fc) == CountCode(a, fc) + if same then |b| else 0
  {
    if b == [] {
      assert a + b == a;
    } else {
      var n := |b| - 1;
      assert (a + b)[..|a + b| - 1] == a + b[..n];
      CountCodeAppend(a, b[..n], fc, same);
    }
  }

  lemma FrontOk(parts: seq<Part>)
    requires PartsOk(parts) && parts != []
    ensures var n := |parts| - 1; PartsOk(parts[..n]) && forall i :: 0 <= i < n ==> parts[i].fc != parts[n].fc
  {}

  lemma {:induction false} NoneOfCode(parts: seq<Part>, fc: Byte)
    requires PartsOk(parts) && forall i :: 0 <= i < |parts| ==> parts[i].fc != fc
    ensures CountCode(PartBlocks(parts), fc) == 0
  {
    if parts != [] {
      var n := |parts| - 1;
      hide PartOk, Known, BlocksFor, CountCode, PartBlocks;
      FrontOk(parts);
      NoneOfCode(parts[..n], fc);
      PartCounts(parts, fc);
    }
  }

  lemma PartCounts(parts: seq<Part>, fc: Byte)
    requires PartsOk(parts) && parts != []
    ensures var n := |parts| - 1;
            var own := BlocksFor(parts[n].fc, parts[n].points);
            CountCode(PartBlocks(parts), fc) == CountCode(PartBlocks(parts[..n]), fc) +
              if parts[n].fc == fc then |own| else 0
  {
    var n := |parts| - 1;
    assert PartOk(parts[n]);
    hide BlocksFor, PartOk, Known, BitPacked, Uniform;
    PartKeepsPoints(parts[n]);
    CountCodeAppend(PartBlocks(parts[..n]), BlocksFor(parts[n].fc, parts[n].points), fc, parts[n].fc == fc);
  }

  lemma {:induction false} BlocksOfCode(parts: seq<Part>, k: nat)
    requires PartsOk(parts) && k < |parts|
    ensures CountCode(PartBlocks(parts), parts[k].fc) == |BlocksFor(parts[k].fc, parts[k].points)|
  {
    var n := |parts| - 1;
    hide BlocksFor, PartsOk, PartOk, Known, CountCode, PartBlocks;
    FrontOk(parts);
    PartCounts(parts, parts[k].fc);
    if k == n {
      NoneOfCode(parts[..n], parts[k].fc);
    } else {
      BlocksOfCode(parts[..n], k);
    }
  }

  /** For each batched function code, no legal cut of its sorted points needs fewer requests than the plan makes. */
  lemma PlanIsMinimal(dps: seq<DataPoint>, parts: seq<Part>, blocks: seq<ReadBlock>, k: nat, runs: seq<seq<DataPoint>>)
    requires IsPlan(dps, parts, blocks) && k < |parts| && parts[k].fc != 1 && parts[k].fc != 2 && PartOk(parts[k])
    requires RoomyButLast(parts[k].points) && IsCut(runs, parts[k].points)
    ensures CountCode(blocks, parts[k].fc) <= |runs|
  {
    BlocksOfCode(parts, k);
    GreedyIsMinimal(parts[k].fc, parts[k].points, runs);
  }
}

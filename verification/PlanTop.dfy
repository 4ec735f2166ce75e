/** Whether the plan stays minimal at the top of the register space, where the gap test wraps. */
module PlanTop {
  import opened Decode
  import opened BlockPlan
  import opened PlanFacts
  import opened PlanMinimal

  /** The end plus the gap leaves the register space: a block that reaches this far takes no more points. */
  predicate High(p: DataPoint)
    requires Known(p)
  {
    End(p) + 8 > 65535
  }

  /** The place of the first high point, or the length of the list. */
  function FirstHigh(ps: seq<DataPoint>): (k: nat)
    requires AllKnown(ps)
    ensures k <= |ps| && (k < |ps| ==> High(ps[k])) && forall i :: 0 <= i < k ==> !High(ps[i])
  {
    if ps == [] || High(ps[0]) then 0 else 1 + FirstHigh(ps[1..])
  }

  ghost predicate Minimal(fc: Byte, ps: seq<DataPoint>)
    requires AllKnown(ps)
  {
    forall runs :: IsCut(runs, ps) ==> |Merge(fc, ps)| <= |runs|
  }

  /**
    Nothing follows the first high point; or what follows it makes one legal run of its own in which
    at most the last point is high, and that last point lies beyond the span of the block that holds
    the first high point, so that a second block was needed anyway.
  */
  ghost predicate TopAllows(fc: Byte, ps: seq<DataPoint>)
    requires AllKnown(ps)
  {
    var k := FirstHigh(ps);
    k + 1 >= |ps|
    || var more := ps[k + 1..];
       && LegalRun(more) && RoomyButLast(more)
       && BeyondSpan(LastRun(fc, ps[..k + 1]), more[|more| - 1])
  }

  predicate BeyondSpan(run: seq<DataPoint>, p: DataPoint)
    requires Known(p)
  {
    run != [] && End(p) > run[0].address + 125
  }

  // ---------------------------------------------------------------- a block with a high point is closed

  lemma HighIsClosed(b: ReadBlock, p: DataPoint)
    requires BlockOk(b) && MaxEnd(b.points) + MAX_GAP > 65535 && Known(p) && b.start <= p.address
    ensures !Fits(b, p)
  {
    hide MaxEnd, Width, Wrap, Known;
    WrapsOver(b.start + b.quantity + MAX_GAP);
  }

  /** If the last block of a merge does not take the next point, the merge goes on from that point afresh. */
  lemma {:induction false} MergeAppend(b: ReadBlock, ps: seq<DataPoint>, more: seq<DataPoint>)
    requires AllKnown(ps) && AllKnown(more) && more != []
    requires var blocks := MergeFrom(b, ps); blocks != [] && !Fits(blocks[|blocks| - 1], more[0])
    ensures MergeFrom(b, ps + more) == MergeFrom(b, ps) + Merge(b.fc, more)
    decreases |ps|
  {
    hide Fits, Extend, NewBlock, Known;
    if ps == [] {
      assert ps + more == more;
    } else {
      assert (ps + more)[0] == ps[0] && (ps + more)[1..] == ps[1..] + more;
      if Fits(b, ps[0]) {
        MergeAppend(Extend(b, ps[0]), ps[1..], more);
      } else {
        var c := NewBlock(b.fc, ps[0]);
        SomethingFrom(c, ps[1..]);
        MergeAppend(c, ps[1..], more);
        assert [b] + MergeFrom(c, ps[1..]) + Merge(b.fc, more) == [b] + (MergeFrom(c, ps[1..]) + Merge(b.fc, more));
      }
    }
  }

  lemma SomethingFrom(b: ReadBlock, ps: seq<DataPoint>)
    requires AllKnown(ps)
    ensures MergeFrom(b, ps) != []
  {
    MergeCuts(b, ps);
  }

  /** The last block ends with the last point and starts no later than any later address. */
  lemma {:induction false} LastBlockFacts(b: ReadBlock, ps: seq<DataPoint>, bound: int)
    requires AllKnown(ps) && b.points != [] && b.start <= bound && forall i :: 0 <= i < |ps| ==> ps[i].address <= bound
    ensures var blocks := MergeFrom(b, ps);
            && blocks != [] && blocks[|blocks| - 1].points != []
            && var last := blocks[|blocks| - 1];
               last.points[|last.points| - 1] == (b.points + ps)[|b.points + ps| - 1] && last.start <= bound
    decreases |ps|
  {
    hide Fits, Known;
    if ps != [] {
      var c := if Fits(b, ps[0]) then Extend(b, ps[0]) else NewBlock(b.fc, ps[0]);
      LastBlockFacts(c, ps[1..], bound);
    }
  }

  /** The last block of a merge that ends with a high point: legal, reaching to the top, starting at its first point. */
  lemma HighLastBlock(fc: Byte, ps: seq<DataPoint>, bound: int) returns (b: ReadBlock)
    requires AllKnown(ps) && AllInSpace(ps) && SortedByAddress(ps) && ps != [] && High(ps[|ps| - 1])
    requires ps[|ps| - 1].address <= bound
    ensures Merge(fc, ps) != [] && b == Merge(fc, ps)[|Merge(fc, ps)| - 1] && b.points == LastRun(fc, ps)
    ensures BlockOk(b) && b.start <= bound && MaxEnd(b.points) + MAX_GAP > 65535
  {
    hide MaxEnd, Fits, Width, BlockOk, Known, MergeFrom, High;
    MergedOk(fc, ps);
    MergedLast(fc, ps, bound);
    var blocks := Merge(fc, ps);
    b := blocks[|blocks| - 1];
    assert BlockOk(b) && b.points[|b.points| - 1] == ps[|ps| - 1];
    ReachesTop(b);
  }

  lemma MergedOk(fc: Byte, ps: seq<DataPoint>)
    requires AllKnown(ps) && AllInSpace(ps) && SortedByAddress(ps)
    ensures forall i :: 0 <= i < |Merge(fc, ps)| ==> BlockOk(Merge(fc, ps)[i])
  {
    if ps != [] {
      NewBlockOk(fc, ps[0]);
      NewBlockStart(fc, ps[0]);
      hide BlockOk, NewBlock, MergeFrom, Known, InSpace;
      MergeOk(NewBlock(fc, ps[0]), ps[1..]);
    }
  }

  lemma MergedLast(fc: Byte, ps: seq<DataPoint>, bound: int)
    requires AllKnown(ps) && SortedByAddress(ps) && ps != [] && ps[|ps| - 1].address <= bound
    ensures var blocks := Merge(fc, ps);
            && blocks != [] && blocks[|blocks| - 1].points != []
            && var last := blocks[|blocks| - 1];
               last.points[|last.points| - 1] == ps[|ps| - 1] && last.start <= bound
  {
    var first := NewBlock(fc, ps[0]);
    NewBlockStart(fc, ps[0]);
    hide NewBlock, MergeFrom, Known;
    forall i | 0 <= i < |ps| ensures ps[i].address <= bound {
      assert i < |ps| - 1 ==> ps[i].address <= ps[|ps| - 1].address;
    }
    LastBlockFacts(first, ps[1..], bound);
    assert [ps[0]] + ps[1..] == ps;
  }

  lemma ReachesTop(b: ReadBlock)
    requires BlockOk(b) && High(b.points[|b.points| - 1])
    ensures MaxEnd(b.points) + MAX_GAP > 65535
  {
    MaxEndBounds(b.points, |b.points| - 1);
  }

  /** At a high point the merge falls apart into the merges of what ends there and what follows. */
  lemma MergeSplits(fc: Byte, ps: seq<DataPoint>, more: seq<DataPoint>)
    requires AllKnown(ps) && AllKnown(more) && AllInSpace(ps) && SortedByAddress(ps + more)
    requires ps != [] && more != [] && High(ps[|ps| - 1])
    ensures Merge(fc, ps + more) == Merge(fc, ps) + Merge(fc, more)
  {
    hide Fits, MergeFrom, BlockOk, MaxEnd, NewBlock, Known, High, InSpace, LastRun;
    FrontSorted(ps, more);
    var all := ps + more;
    assert all[|ps| - 1] == ps[|ps| - 1] && all[|ps|] == more[0];
    var b := HighLastBlock(fc, ps, more[0].address);
    HighIsClosed(b, more[0]);
    hide SortedByAddress, AllInSpace;
    assert all[0] == ps[0] && all[1..] == ps[1..] + more;
    MergeAppend(NewBlock(fc, ps[0]), ps[1..], more);
  }

  // ---------------------------------------------------------------- rival cuts at the top

  lemma HighRunTakes(run: seq<DataPoint>, p: DataPoint)
    requires AllKnown(run) && LegalRun(run) && MaxEnd(run) + MAX_GAP > 65535
    requires Known(p) && InSpace(p) && !BeyondSpan(run, p)
    ensures AllKnown(run + [p]) && LegalRun(run + [p]) && MaxEnd(run + [p]) + MAX_GAP > 65535
    ensures run != [] && (run + [p])[0] == run[0]
  {
    assert (run + [p])[..|run|] == run;
    assert Joins(run, p);
    LegalRunGrows(run, p);
  }

  /** To a run with a high point anything later within the span may be added. */
  lemma {:induction false} HighRunGrows(run: seq<DataPoint>, more: seq<DataPoint>)
    requires AllKnown(run) && LegalRun(run) && MaxEnd(run) + MAX_GAP > 65535
    requires AllKnown(more) && AllInSpace(more)
    requires forall i :: 0 <= i < |more| ==> !BeyondSpan(run, more[i])
    ensures AllKnown(run + more) && LegalRun(run + more)
    decreases |more|
  {
    hide LegalRun, Known, MaxEnd, End;
    if more == [] {
      assert run + more == run;
    } else {
      HighRunTakes(run, more[0]);
      HighRunGrows(run + [more[0]], more[1..]);
      assert run + [more[0]] + more[1..] == run + more;
    }
  }

  lemma {:induction false} FlattenAppend(a: seq<seq<DataPoint>>, b: seq<seq<DataPoint>>)
    ensures Flatten(a + b) == Flatten(a) + Flatten(b)
  {
    if a == [] {
      assert a + b == b;
    } else {
      assert (a + b)[1..] == a[1..] + b;
      FlattenAppend(a[1..], b);
    }
  }

  lemma FlattenOne(a: seq<DataPoint>)
    ensures Flatten([a]) == a
  {
    assert [a][1..] == [] && Flatten([]) == [];
  }

  lemma FlattenTwo(a: seq<DataPoint>, b: seq<DataPoint>)
    ensures Flatten([a, b]) == a + b
  {
    FlattenOne(b);
    assert [a, b][1..] == [b];
  }

  lemma FlattenLast(runs: seq<seq<DataPoint>>)
    requires runs != []
    ensures Flatten(runs) == Flatten(runs[..|runs| - 1]) + runs[|runs| - 1]
  {
    var n := |runs| - 1;
    FlattenAppend(runs[..n], [runs[n]]);
    FlattenOne(runs[n]);
    assert runs == runs[..n] + [runs[n]];
  }

  /** Replacing the last run of a cut by legal runs that continue it. */
  lemma Continue(runs: seq<seq<DataPoint>>, ps: seq<DataPoint>, tail: seq<seq<DataPoint>>, more: seq<DataPoint>)
    requires IsCut(runs, ps) && runs != [] && Flatten(tail) == runs[|runs| - 1] + more
    requires forall i :: 0 <= i < |tail| ==> AllKnown(tail[i]) && LegalRun(tail[i])
    ensures IsCut(runs[..|runs| - 1] + tail, ps + more)
  {
    hide LegalRun, AllKnown, Flatten;
    LegalAppend(runs, |runs| - 1, tail);
    ContinueFlat(runs, tail, more);
  }

  lemma ContinueFlat(runs: seq<seq<DataPoint>>, tail: seq<seq<DataPoint>>, more: seq<DataPoint>)
    requires runs != [] && Flatten(tail) == runs[|runs| - 1] + more
    ensures Flatten(runs[..|runs| - 1] + tail) == Flatten(runs) + more
  {
    hide Flatten;
    var n := |runs| - 1;
    var front, last := Flatten(runs[..n]), runs[n];
    FlattenLast(runs);
    FlattenAppend(runs[..n], tail);
    assert front + (last + more) == front + last + more;
  }

  lemma LegalAppend(runs: seq<seq<DataPoint>>, n: nat, tail: seq<seq<DataPoint>>)
    requires n <= |runs| && forall i :: 0 <= i < |runs| ==> AllKnown(runs[i]) && LegalRun(runs[i])
    requires forall i :: 0 <= i < |tail| ==> AllKnown(tail[i]) && LegalRun(tail[i])
    ensures forall i :: 0 <= i < |runs[..n] + tail| ==>
              AllKnown((runs[..n] + tail)[i]) && LegalRun((runs[..n] + tail)[i])
  {
    hide LegalRun, AllKnown;
  }

  lemma GreedyEndsWith(fc: Byte, ps: seq<DataPoint>)
    requires AllKnown(ps) && AllInSpace(ps) && SortedByAddress(ps) && ps != []
    ensures var runs := Runs(Merge(fc, ps));
            && IsCut(runs, ps) && |runs| == |Merge(fc, ps)| > 0 && runs[|runs| - 1] == LastRun(fc, ps)
            && AllKnown(LastRun(fc, ps)) && LegalRun(LastRun(fc, ps))
  {
    hide Merge, LegalRun, Known;
    GreedyIsCut(fc, ps);
    SomethingMerged(fc, ps);
    RunsFlatten(Merge(fc, ps));
  }

  /** If all that follows is within the span, it could have joined the block that was closed. */
  lemma AllCouldJoin(fc: Byte, ps: seq<DataPoint>, more: seq<DataPoint>) returns (runs: seq<seq<DataPoint>>)
    requires AllKnown(ps) && AllKnown(more) && AllInSpace(ps) && AllInSpace(more) && SortedByAddress(ps)
    requires ps != [] && High(ps[|ps| - 1])
    requires forall i :: 0 <= i < |more| ==> !BeyondSpan(LastRun(fc, ps), more[i])
    ensures IsCut(runs, ps + more) && |runs| == |Merge(fc, ps)|
  {
    var b := HighLastBlock(fc, ps, ps[|ps| - 1].address);
    GreedyEndsWith(fc, ps);
    hide Merge, LegalRun, Known, LastRun, MaxEnd, BlockOk, BeyondSpan;
    var last, greedy := LastRun(fc, ps), Runs(Merge(fc, ps));
    HighRunGrows(last, more);
    FlattenOne(last + more);
    Continue(greedy, ps, [last + more], more);
    runs := greedy[..|greedy| - 1] + [last + more];
  }

  /** If point c is the first beyond the span, one more run is enough for it and all that follow. */
  lemma OneMoreIsEnough(fc: Byte, ps: seq<DataPoint>, more: seq<DataPoint>, c: nat) returns (runs: seq<seq<DataPoint>>)
    requires AllKnown(ps) && AllKnown(more) && AllInSpace(ps) && AllInSpace(more) && SortedByAddress(ps + more)
    requires ps != [] && High(ps[|ps| - 1]) && c < |more|
    requires BeyondSpan(LastRun(fc, ps), more[c]) && forall i :: 0 <= i < c ==> !BeyondSpan(LastRun(fc, ps), more[i])
    ensures IsCut(runs, ps + more) && |runs| == |Merge(fc, ps)| + 1
  {
    hide Merge, LegalRun, Known, MaxEnd, BlockOk, BeyondSpan, IsCut;
    FrontSorted(ps, more);
    var b := HighLastBlock(fc, ps, ps[|ps| - 1].address);
    GreedyEndsWith(fc, ps);
    SecondRun(b, ps, more, c);
    hide LastRun, AllInSpace;
    var last, greedy := LastRun(fc, ps), Runs(Merge(fc, ps));
    assert AllInSpace(more[..c]) by { SomeInSpace(more, c); }
    HighRunGrows(last, more[..c]);
    FlattenTwo(last + more[..c], more[c..]);
    assert last + more[..c] + more[c..] == last + more;
    Continue(greedy, ps, [last + more[..c], more[c..]], more);
    runs := greedy[..|greedy| - 1] + [last + more[..c], more[c..]];
  }

  lemma SomeInSpace(ps: seq<DataPoint>, n: nat)
    requires AllKnown(ps) && AllInSpace(ps) && n <= |ps|
    ensures AllInSpace(ps[..n])
  {}

  lemma SecondRun(b: ReadBlock, ps: seq<DataPoint>, more: seq<DataPoint>, c: nat)
    requires AllKnown(ps) && AllKnown(more) && AllInSpace(more) && SortedByAddress(ps + more)
    requires ps != [] && High(ps[|ps| - 1]) && c < |more|
    requires BlockOk(b) && MaxEnd(b.points) + MAX_GAP > 65535 && BeyondSpan(b.points, more[c])
    ensures AllKnown(more[c..]) && LegalRun(more[c..])
  {
    var p, q, rest := ps[|ps| - 1], more[c], more[c + 1..];
    assert (ps + more)[|ps| - 1] == p && (ps + more)[|ps| + c] == q;
    assert High(q) && q.address >= 65524;
    assert more[c..] == [q] + rest;
    forall i | 0 <= i < |rest| ensures !BeyondSpan([q], rest[i]) {
      assert rest[i] == more[c + 1 + i];
    }
    HighRunGrows([q], rest);
  }

  // ---------------------------------------------------------------- when what follows is one block

  lemma {:induction false} LegalRunSpans(run: seq<DataPoint>, i: nat)
    requires AllKnown(run) && LegalRun(run) && 0 < i < |run|
    ensures !BeyondSpan(run, run[i])
  {
    assert Joins(run[..i], run[i]);
  }

  /** A point after a high one starts another block. */
  lemma HighEndsBlock(fc: Byte, ps: seq<DataPoint>)
    requires AllKnown(ps) && AllInSpace(ps) && SortedByAddress(ps) && FirstHigh(ps) + 1 < |ps|
    ensures |Merge(fc, ps)| > 1
  {
    hide Merge, Known, High, InSpace, FirstHigh;
    var k := FirstHigh(ps);
    var front, more := ps[..k + 1], ps[k + 1..];
    assert front + more == ps;
    MergeSplits(fc, front, more);
    SomethingMerged(fc, front);
    SomethingMerged(fc, more);
  }

  /** Greedy makes one block of a list at the top iff it is a legal run in which at most the last point is high. */
  lemma OneBlockIff(fc: Byte, ps: seq<DataPoint>)
    requires AllKnown(ps) && AllInSpace(ps) && SortedByAddress(ps) && ps != []
    ensures |Merge(fc, ps)| == 1 <==> LegalRun(ps) && RoomyButLast(ps)
  {
    hide Merge, LegalRun, LastRun, Known, End;
    GreedyEndsWith(fc, ps);
    if LegalRun(ps) && RoomyButLast(ps) {
      FlattenOne(ps);
      GreedyIsMinimal(fc, ps, [ps]);
    }
    if |Merge(fc, ps)| == 1 {
      var runs := Runs(Merge(fc, ps));
      FlattenOne(runs[0]);
      assert runs == [runs[0]];
      if FirstHigh(ps) + 1 < |ps| {
        HighEndsBlock(fc, ps);
      } else {
        LowButLast(ps);
      }
    }
  }

  lemma LowButLast(ps: seq<DataPoint>)
    requires AllKnown(ps) && AllInSpace(ps) && FirstHigh(ps) + 1 >= |ps|
    ensures RoomyButLast(ps)
  {}

  // ---------------------------------------------------------------- the exact condition

  /** What is known on both sides of the first high point. */
  ghost predicate SplitHigh(ps: seq<DataPoint>, more: seq<DataPoint>) {
    && AllKnown(ps) && AllKnown(more) && AllInSpace(ps) && AllInSpace(more) && SortedByAddress(ps + more)
    && RoomyButLast(ps) && ps != [] && more != [] && High(ps[|ps| - 1])
  }

  lemma SplitMerge(fc: Byte, ps: seq<DataPoint>, more: seq<DataPoint>)
    requires SplitHigh(ps, more)
    ensures AllKnown(ps) && AllKnown(more) && AllKnown(ps + more)
    ensures |Merge(fc, ps + more)| == |Merge(fc, ps)| + |Merge(fc, more)| && |Merge(fc, more)| > 0
    ensures |Merge(fc, more)| == 1 <==> LegalRun(more) && RoomyButLast(more)
  {
    hide Merge, LegalRun, Known, High, InSpace;
    MoreSorted(ps, more);
    MergeSplits(fc, ps, more);
    SomethingMerged(fc, more);
    OneBlockIff(fc, more);
  }

  lemma NotMinimalIfAllJoin(fc: Byte, ps: seq<DataPoint>, more: seq<DataPoint>)
    requires SplitHigh(ps, more) && forall i :: 0 <= i < |more| ==> !BeyondSpan(LastRun(fc, ps), more[i])
    ensures AllKnown(ps + more) && !Minimal(fc, ps + more)
  {
    SplitMerge(fc, ps, more);
    hide Merge, LegalRun, Known, LastRun, IsCut, BeyondSpan, High, InSpace;
    FrontSorted(ps, more);
    var runs := AllCouldJoin(fc, ps, more);
  }

  lemma NotMinimalIfTwoMore(fc: Byte, ps: seq<DataPoint>, more: seq<DataPoint>, c: nat)
    requires SplitHigh(ps, more) && c < |more| && BeyondSpan(LastRun(fc, ps), more[c]) && |Merge(fc, more)| > 1
    requires forall i :: 0 <= i < c ==> !BeyondSpan(LastRun(fc, ps), more[i])
    ensures AllKnown(ps + more) && !Minimal(fc, ps + more)
  {
    SplitMerge(fc, ps, more);
    hide Merge, LegalRun, Known, LastRun, IsCut, BeyondSpan, High, InSpace;
    var runs := OneMoreIsEnough(fc, ps, more, c);
  }

  lemma MinimalIfOneMore(fc: Byte, ps: seq<DataPoint>, more: seq<DataPoint>)
    requires SplitHigh(ps, more) && BeyondSpan(LastRun(fc, ps), more[|more| - 1]) && |Merge(fc, more)| == 1
    ensures AllKnown(ps + more) && Minimal(fc, ps + more)
  {
    SplitMerge(fc, ps, more);
    hide Merge, LegalRun, Known, LastRun, IsCut, BeyondSpan, High, InSpace;
    forall runs | IsCut(runs, ps + more) ensures |Merge(fc, ps + more)| <= |runs| {
      TwoNeeded(fc, ps, more, runs);
    }
  }

  /** With something after the first high point, split there. */
  lemma TopMinimalIff(fc: Byte, ps: seq<DataPoint>, more: seq<DataPoint>)
    requires SplitHigh(ps, more)
    ensures AllKnown(ps) && AllKnown(more) && AllKnown(ps + more)
    ensures Minimal(fc, ps + more) <==>
              LegalRun(more) && RoomyButLast(more) && BeyondSpan(LastRun(fc, ps), more[|more| - 1])
  {
    hide Merge, LegalRun, LastRun, Known, BeyondSpan, Minimal, RoomyButLast, SortedByAddress, High, InSpace;
    SplitMerge(fc, ps, more);
    var last := LastRun(fc, ps);
    if c: nat :| c < |more| && BeyondSpan(last, more[c]) && forall i :: 0 <= i < c ==> !BeyondSpan(last, more[i]) {
      if |Merge(fc, more)| > 1 {
        NotMinimalIfTwoMore(fc, ps, more, c);
      } else {
        FrontSorted(ps, more);
        OnlyLastBeyond(fc, ps, more, c);
        MinimalIfOneMore(fc, ps, more);
      }
    } else {
      assert forall i :: 0 <= i < |more| ==> !BeyondSpan(last, more[i]) by { NoneBeyond(last, more, |more|); }
      NotMinimalIfAllJoin(fc, ps, more);
    }
  }

  lemma MoreSorted(ps: seq<DataPoint>, more: seq<DataPoint>)
    requires SortedByAddress(ps + more)
    ensures SortedByAddress(more)
  {
    assert forall i :: 0 <= i < |more| ==> more[i] == (ps + more)[|ps| + i];
  }

  lemma {:induction false} NoneBeyond(run: seq<DataPoint>, more: seq<DataPoint>, n: nat)
    requires AllKnown(more) && n <= |more|
    requires !exists c: nat :: c < |more| && BeyondSpan(run, more[c]) &&
               forall i :: 0 <= i < c ==> !BeyondSpan(run, more[i])
    ensures forall i :: 0 <= i < n ==> !BeyondSpan(run, more[i])
  {
    if n > 0 {
      NoneBeyond(run, more, n - 1);
    }
  }

  /** In a run with at most its last point high, only that one can be beyond the span of a block with a high point. */
  lemma OnlyLastBeyond(fc: Byte, ps: seq<DataPoint>, more: seq<DataPoint>, c: nat)
    requires AllKnown(ps) && AllKnown(more) && AllInSpace(ps) && SortedByAddress(ps) && ps != [] && High(ps[|ps| - 1])
    requires RoomyButLast(more) && c < |more| && BeyondSpan(LastRun(fc, ps), more[c])
    ensures c == |more| - 1
  {
    var b := HighLastBlock(fc, ps, ps[|ps| - 1].address);
    hide MaxEnd, Merge, LastRun;
  }

  /** If the last point is beyond the span of the closed block, every cut needs another run for it. */
  lemma TwoNeeded(fc: Byte, ps: seq<DataPoint>, more: seq<DataPoint>, runs: seq<seq<DataPoint>>)
    requires AllKnown(ps) && AllKnown(more) && SortedByAddress(ps + more)
    requires RoomyButLast(ps) && ps != [] && more != [] && BeyondSpan(LastRun(fc, ps), more[|more| - 1])
    requires IsCut(runs, ps + more)
    ensures |Merge(fc, ps)| + 1 <= |runs|
  {
    var rest := GreedySpendsLeast(fc, ps, more, runs);
    hide Merge, LastRun;
    var last := LastRun(fc, ps);
    assert rest != [];
    if |rest| == 1 {
      assert Flatten(rest) == rest[0] + Flatten(rest[1..]) && rest[1..] == [];
      assert rest[0] == last + more;
      LegalRunSpans(rest[0], |rest[0]| - 1);
    }
  }

  /**
    For every address-sorted list of points that end below the top: the greedy merge uses the fewest
    blocks if and only if the top allows it.
  */
  lemma MinimalIff(fc: Byte, ps: seq<DataPoint>)
    requires AllKnown(ps) && AllInSpace(ps) && SortedByAddress(ps)
    ensures Minimal(fc, ps) <==> TopAllows(fc, ps)
  {
    hide Merge, IsCut, LegalRun, LastRun, BeyondSpan, Known, SplitHigh, High, InSpace, RoomyButLast;
    var k := FirstHigh(ps);
    if k + 1 >= |ps| {
      LowButLast(ps);
      forall runs | IsCut(runs, ps) ensures |Merge(fc, ps)| <= |runs| {
        GreedyIsMinimal(fc, ps, runs);
      }
    } else {
      SplitAtFirst(ps, k);
      hide Minimal, FirstHigh;
      TopMinimalIff(fc, ps[..k + 1], ps[k + 1..]);
      assert ps[..k + 1] + ps[k + 1..] == ps;
    }
  }

  lemma SplitAtFirst(ps: seq<DataPoint>, k: nat)
    requires AllKnown(ps) && AllInSpace(ps) && SortedByAddress(ps) && k == FirstHigh(ps) && k + 1 < |ps|
    ensures SplitHigh(ps[..k + 1], ps[k + 1..])
  {
    hide Known, Width, FirstHigh;
    assert ps[..k + 1] + ps[k + 1..] == ps;
  }

  /** The same for each batched function code of a whole plan. */
  lemma PlanMinimalIff(dps: seq<DataPoint>, parts: seq<Part>, blocks: seq<ReadBlock>, k: nat)
    requires IsPlan(dps, parts, blocks) && k < |parts| && parts[k].fc != 1 && parts[k].fc != 2 && PartOk(parts[k])
    requires AllInSpace(parts[k].points)
    ensures (forall runs :: IsCut(runs, parts[k].points) ==> CountCode(blocks, parts[k].fc) <= |runs|)
       <==> TopAllows(parts[k].fc, parts[k].points)
  {
    BlocksOfCode(parts, k);
    hide TopAllows, IsCut;
    MinimalIff(parts[k].fc, parts[k].points);
  }

  /** It does not for two adjacent registers eight below the top: they are read one by one. */
  lemma AdjacentNotMerged(p: DataPoint, q: DataPoint)
    requires p.dataType == q.dataType == "UINT16" && p.address == 65527 && q.address == 65528
    ensures Known(p) && Known(q) && |Merge(3, [p, q])| == 2 && IsCut([[p, q]], [p, q])
  {
    assert [p, q][1..] == [q] && [q][1..] == [];
    var b, c := NewBlock(3, p), NewBlock(3, q);
    assert !Fits(b, q);
    assert MergeFrom(c, []) == [c];
    assert MergeFrom(b, [q]) == [b] + MergeFrom(c, []);
    assert [p, q][..1] == [p];
    assert Joins([p], q);
    assert Flatten([[p, q]]) == [p, q] + Flatten([[p, q]][1..]) && [[p, q]][1..] == [];
  }
}

/**
  Reading through a shared block gives what a dedicated read gives:
  gateway/internal/acquisition/poller.go (decodeAndEmit) against gateway/internal/api/test.go
  (testDataPointRead).
*/
module BlockReads {
  import opened Common
  import opened Decode
  import opened BlockPlan
  import opened PlanFacts

  /** raw * scale + offset, left as a term: floating point is opaque here. */
  datatype Scaled = Scaled(number: Number, scale: Float, offset: Float)

  const GOOD := "GOOD"
  const INVALID := "INVALID"

  /** What a reading reports: a quality, and a value exactly when it is GOOD. */
  datatype Sample = Sample(quality: string, value: Option<Scaled>)

  /** One function code's register contents. */
  type Registers = nat -> Word

  /** The reply bytes of a successful read: each register high byte first. */
  function ReadRegisters(regs: Registers, start: nat, quantity: nat): (raw: seq<Byte>)
    ensures |raw| == 2 * quantity
  {
    seq(2 * quantity, i requires 0 <= i < 2 * quantity =>
      if i % 2 == 0 then regs(start + i / 2) / 256 else regs(start + i / 2) % 256)
  }

  function FromNumber(r: Result<Number>, p: DataPoint): Sample {
    match r
    case Err(_) => Sample(INVALID, None)
    case Ok(n) => Sample(GOOD, Some(Scaled(n, p.scale, p.offset)))
  }

  /** decodeAndEmit: slice the point's own bytes out of the block's reply. */
  function DecodeFromBlock(p: DataPoint, raw: seq<Byte>, blockStart: Word): Sample {
    match ByteWidth(p.dataType)
    case None => Sample(INVALID, None)
    case Some(width) =>
      var offset := Wrap(p.address - blockStart) * 2;
      if offset + width > |raw| then Sample(INVALID, None)
      else FromNumber(DecodeRaw(raw[offset..offset + width], p.dataType, p.byteOrder), p)
  }

  /** testDataPointRead on a device that answers: a request for this point alone. */
  function DedicatedRead(p: DataPoint, regs: Registers): Sample {
    match RegisterCount(p.dataType)
    case None => Sample(INVALID, None)
    case Some(qty) => FromNumber(DecodeRaw(ReadRegisters(regs, p.address, qty), p.dataType, p.byteOrder), p)
  }

  lemma SliceOfReply(regs: Registers, start: nat, quantity: nat, address: nat, width: nat)
    requires start <= address && address + width <= start + quantity
    ensures var o := 2 * (address - start);
            ReadRegisters(regs, start, quantity)[o..o + 2 * width] == ReadRegisters(regs, address, width)
  {
    var o := 2 * (address - start);
    var slice := ReadRegisters(regs, start, quantity)[o..o + 2 * width];
    forall i | 0 <= i < 2 * width ensures slice[i] == ReadRegisters(regs, address, width)[i] {
      assert (o + i) / 2 == address - start + i / 2 && (o + i) % 2 == i % 2;
    }
  }

  lemma ContainedReadsAlike(b: ReadBlock, p: DataPoint, regs: Registers)
    requires Known(p) && Contains(b, p)
    ensures DecodeFromBlock(p, ReadRegisters(regs, b.start, b.quantity), b.start) == DedicatedRead(p, regs)
  {
    SliceOfReply(regs, b.start, b.quantity, p.address, Width(p));
  }

  /**
    For any register contents, every known point of a planned FC3/FC4 block gets from the block's
    reply the value and quality a read of its own would give, byte-order errors included.
  */
  lemma BlockReadsPreserveMeaning(dps: seq<DataPoint>, blocks: seq<ReadBlock>, i: nat, p: DataPoint, regs: Registers)
    requires Planned(dps, blocks) && BatchedInSpace(dps) && i < |blocks| && blocks[i].fc != 1 && blocks[i].fc != 2
              && p in blocks[i].points
    ensures DecodeFromBlock(p, ReadRegisters(regs, blocks[i].start, blocks[i].quantity), blocks[i].start)
              == DedicatedRead(p, regs)
  {
    PlanContains(dps, blocks, i);
    var k :| 0 <= k < |blocks[i].points| && blocks[i].points[k] == p;
    assert Contains(blocks[i], blocks[i].points[k]);
    ContainedReadsAlike(blocks[i], p, regs);
  }

  /** A value is reported if and only if the quality is GOOD. */
  lemma ValueIffGood(p: DataPoint, raw: seq<Byte>, blockStart: Word)
    ensures DecodeFromBlock(p, raw, blockStart).value.Some? <==> DecodeFromBlock(p, raw, blockStart).quality == GOOD
  {}

  /**
    Without that margin it fails: a point on the last register, merged behind one nine registers
    below, is reported INVALID by the block read although a read of its own succeeds.
  */
  lemma LastRegisterIsLost(p: DataPoint, q: DataPoint, regs: Registers)
    requires p.fc == q.fc == 3 && p.dataType == q.dataType == "UINT16" && p.byteOrder == q.byteOrder == ""
    requires p.address == 65526 && q.address == 65535
    ensures Known(p) && Known(q) && Merge(3, [p, q]) == [ReadBlock(3, 65526, 1, [p, q])]
    ensures DecodeFromBlock(q, ReadRegisters(regs, 65526, 1), 65526).quality == INVALID
    ensures DedicatedRead(q, regs).quality == GOOD
  {
    assert [p, q][1..] == [q] && [q][1..] == [];
    var b := NewBlock(3, p);
    assert Fits(b, q);
    assert Extend(b, q) == ReadBlock(3, 65526, 1, [p, q]);
    assert MergeFrom(b, [q]) == MergeFrom(Extend(b, q), []);
  }

  lemma BeyondIsInvalid(b: ReadBlock, p: DataPoint, regs: Registers)
    requires Known(p) && b.start <= p.address && !Contains(b, p)
    ensures DecodeFromBlock(p, ReadRegisters(regs, b.start, b.quantity), b.start).quality == INVALID
  {}

  /**
    The exact condition, for every plan and any register contents: a point of an FC3 or FC4 block that
    a read of its own gets right is right in the block if and only if it is the block's first point or
    its end does not wrap.
  */
  lemma PlanReadsAlikeIff(dps: seq<DataPoint>, blocks: seq<ReadBlock>, i: nat, k: nat, regs: Registers)
    requires Planned(dps, blocks) && i < |blocks| && blocks[i].fc != 1 && blocks[i].fc != 2 && k < |blocks[i].points|
    requires DedicatedRead(blocks[i].points[k], regs).quality == GOOD
    ensures Known(blocks[i].points[k])
    ensures var b, p := blocks[i], blocks[i].points[k];
            (DecodeFromBlock(p, ReadRegisters(regs, b.start, b.quantity), b.start) == DedicatedRead(p, regs)
             <==> k == 0 || InSpace(p))
  {
    hide DecodeFromBlock, DedicatedRead, Contains, Planned;
    var b, p := blocks[i], blocks[i].points[k];
    PlanContainsIff(dps, blocks, i, k);
    if Contains(b, p) {
      ContainedReadsAlike(b, p, regs);
    } else {
      BeyondIsInvalid(b, p, regs);
    }
  }

  // ---------------------------------------------------------------- in plain terms

  /** A good reading is the decoded number with the point's own scale and offset; any error makes it INVALID. */
  lemma SampleIs(r: Result<Number>, p: DataPoint)
    ensures r.Ok? ==> FromNumber(r, p) == Sample("GOOD", Some(Scaled(r.value, p.scale, p.offset)))
    ensures r.Err? ==> FromNumber(r, p) == Sample("INVALID", None)
  {}

  /**
    A read of its own reports the register at the point's address, or the two registers from there, the
    first one high.
  */
  lemma DedicatedReadIs(p: DataPoint, regs: Registers)
    requires p.byteOrder == ""
    ensures p.dataType == "UINT16" ==>
              DedicatedRead(p, regs) == Sample("GOOD", Some(Scaled(Int(regs(p.address)), p.scale, p.offset)))
    ensures p.dataType == "UINT32" ==>
              DedicatedRead(p, regs)
              == Sample("GOOD", Some(Scaled(Int(regs(p.address) * 65536 + regs(p.address + 1)), p.scale, p.offset)))
  {
    if p.dataType == "UINT16" {
      DecodeShort(ReadRegisters(regs, p.address, 1));
    } else if p.dataType == "UINT32" {
      DecodeLong(ReadRegisters(regs, p.address, 2));
    }
  }
}

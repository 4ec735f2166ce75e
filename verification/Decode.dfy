/** gateway/internal/modbus/decode.go: data types, byte orders, and register bytes to numbers. */
module Decode {
  import opened Common

  type Byte = n: nat | n < 256

  /** A decoded value: an exact integer, or the bit pattern of a float. */
  datatype Number = Int(value: int) | Float32(bits: nat) | Float64(bits: nat)

  function ByteWidth(dataType: string): Option<nat> {
    if dataType == "INT16" || dataType == "UINT16" then Some(2)
    else if dataType == "INT32" || dataType == "UINT32" || dataType == "FLOAT32" then Some(4)
    else if dataType == "FLOAT64" then Some(8)
    else None
  }

  function RegisterCount(dataType: string): (n: Option<nat>)
    ensures n.Some? <==> ByteWidth(dataType).Some?
    ensures n.Some? ==> 1 <= n.value <= 4 && ByteWidth(dataType).value == 2 * n.value
  {
    match ByteWidth(dataType)
    case None => None
    case Some(w) => Some(w / 2)
  }

  /** The input position a byte-order letter names. */
  function Pos(c: char): int { c as int - 'A' as int }

  predicate LettersInRange(order: string, w: nat) {
    forall i :: 0 <= i < |order| ==> 0 <= Pos(order[i]) < w
  }

  /** out[i] = raw[position of the i-th letter]; the empty order is the natural one. */
  function Reorder(raw: seq<Byte>, order: string): Result<seq<Byte>> {
    if order == "" then Ok(raw)
    else if |order| != |raw| then Err("byte order does not match value width")
    else if !LettersInRange(order, |raw|) then Err("invalid byte order character")
    else Ok(seq(|raw|, i requires 0 <= i < |raw| => raw[Pos(order[i])]))
  }

  method ReorderBytes(raw: seq<Byte>, order: string) returns (r: Result<seq<Byte>>)
    ensures r == Reorder(raw, order)
  {
    if order == "" {
      return Ok(raw);
    }
    if |order| != |raw| {
      return Err("byte order does not match value width");
    }
    var out := new Byte[|raw|];
    for i := 0 to |order|
      invariant forall k :: 0 <= k < i ==> 0 <= Pos(order[k]) < |raw| && out[k] == raw[Pos(order[k])]
    {
      var pos := Pos(order[i]);
      if pos < 0 || pos >= |raw| {
        return Err("invalid byte order character");
      }
      out[i] := raw[pos];
    }
    assert out[..] == Reorder(raw, order).value;
    return Ok(out[..]);
  }

  function BigEndian(b: seq<Byte>): nat {
    if b == [] then 0 else 256 * BigEndian(b[..|b| - 1]) + b[|b| - 1]
  }

  /** Two's complement: n as a signed number of the given modulus. */
  function Signed(n: nat, modulus: nat): int { if 2 * n >= modulus then n - modulus else n }

  function Interpret(n: nat, dataType: string): Result<Number> {
    if dataType == "INT16" then Ok(Int(Signed(n, 0x1_0000)))
    else if dataType == "UINT16" then Ok(Int(n))
    else if dataType == "INT32" then Ok(Int(Signed(n, 0x1_0000_0000)))
    else if dataType == "UINT32" then Ok(Int(n))
    else if dataType == "FLOAT32" then Ok(Float32(n))
    else if dataType == "FLOAT64" then Ok(Float64(n))
    else Err("unknown data type")
  }

  function DecodeRaw(raw: seq<Byte>, dataType: string, order: string): Result<Number> {
    match ByteWidth(dataType)
    case None => Err("unknown data type")
    case Some(w) =>
      if |raw| != w then Err("wrong number of raw bytes")
      else match Reorder(raw, order)
        case Err(e) => Err(e)
        case Ok(ordered) => Interpret(BigEndian(ordered), dataType)
  }

  method DecodeValue(raw: seq<Byte>, dataType: string, order: string) returns (r: Result<Number>)
    ensures r == DecodeRaw(raw, dataType, order)
  {
    var width := ByteWidth(dataType);
    if width.None? {
      return Err("unknown data type");
    }
    if |raw| != width.value {
      return Err("wrong number of raw bytes");
    }
    var ordered := ReorderBytes(raw, order);
    if ordered.Err? {
      return Err(ordered.error);
    }
    var b: seq<Byte>, v: nat := ordered.value, 0;
    for i := 0 to |b|
      invariant v == BigEndian(b[..i])
    {
      assert b[..i + 1][..i] == b[..i];
      v := 256 * v + b[i];
    }
    assert b[..|b|] == b;
    return Interpret(v, dataType);
  }

  // ---------------------------------------------------------------- byte orders are bijections

  /** The order uses each of the first w letters once. */
  ghost predicate IsPermutation(order: string, w: nat) {
    |order| == w && LettersInRange(order, w) && Distinct(order)
  }

  ghost predicate Uses(order: string, k: int) {
    exists i :: 0 <= i < |order| && Pos(order[i]) == k
  }

  ghost predicate EveryLetterUsed(order: string, w: nat) {
    forall k :: 0 <= k < w ==> Uses(order, k)
  }

  function Numbers(w: nat): (s: set<int>)
    ensures |s| == w && forall k :: k in s <==> 0 <= k < w
  {
    if w == 0 then {} else Numbers(w - 1) + {w - 1}
  }

  function Positions(order: string): seq<int> { seq(|order|, i requires 0 <= i < |order| => Pos(order[i])) }

  /** Using no letter twice, an order of length w uses all w of them. */
  lemma PermutationUsesAll(order: string, w: nat)
    requires IsPermutation(order, w)
    ensures EveryLetterUsed(order, w)
  {
    var p := Positions(order);
    var used := set x | x in p;
    assert Distinct(p);
    DistinctSize(p);
    SubsetSize(used, Numbers(w));
    forall k | 0 <= k < w ensures Uses(order, k) {
      assert k in Numbers(w);
      assert k in used;
      var i :| 0 <= i < |p| && p[i] == k;
      assert Pos(order[i]) == k;
    }
  }

  ghost function IndexOf(order: string, k: nat): (i: nat)
    requires Uses(order, k)
    ensures i < |order| && Pos(order[i]) == k
  {
    var n := |order| - 1;
    if Pos(order[n]) == k then n
    else
      assert Uses(order[..n], k) by {
        var i :| 0 <= i < |order| && Pos(order[i]) == k;
        assert order[..n][i] == order[i];
      }
      IndexOf(order[..n], k)
  }

  function Letter(k: nat): char
    requires k < 256
  {
    'A' + k as char
  }

  /** The order that undoes `order`. */
  ghost function Inverse(order: string): string
    requires |order| < 256 && EveryLetterUsed(order, |order|)
  {
    seq(|order|, k requires 0 <= k < |order| => Letter(IndexOf(order, k)))
  }

  lemma InverseIsPermutation(order: string, w: nat)
    requires w < 256 && IsPermutation(order, w)
    ensures EveryLetterUsed(order, w) && IsPermutation(Inverse(order), w)
    ensures forall k :: 0 <= k < w ==> Pos(order[Pos(Inverse(order)[k])]) == k
    ensures forall i :: 0 <= i < w ==> Pos(Inverse(order)[Pos(order[i])]) == i
  {
    PermutationUsesAll(order, w);
    var inv := Inverse(order);
    forall k | 0 <= k < w ensures Pos(inv[k]) == IndexOf(order, k) {}
  }

  /** Reordering by an order and then by its inverse, either way round, gives the bytes back. */
  lemma ReorderUndone(raw: seq<Byte>, order: string)
    requires |raw| < 256 && IsPermutation(order, |raw|)
    ensures EveryLetterUsed(order, |order|)
    ensures var inv := Inverse(order);
            && Reorder(raw, order).Ok? && Reorder(raw, inv).Ok?
            && Reorder(Reorder(raw, order).value, inv) == Ok(raw)
            && Reorder(Reorder(raw, inv).value, order) == Ok(raw)
  {
    var w := |raw|;
    InverseIsPermutation(order, w);
    hide Inverse;
    if w > 0 {
      var inv := Inverse(order);
      var x, y := Reorder(raw, order).value, Reorder(raw, inv).value;
      assert Reorder(x, inv).value == raw;
      assert Reorder(y, order).value == raw;
    }
  }

  ghost predicate NoTwoAlike(order: string, w: nat) {
    forall a: seq<Byte>, b: seq<Byte> :: |a| == |b| == w && Reorder(a, order) == Reorder(b, order) ==> a == b
  }

  lemma LosesUnusedByte(order: string, w: nat, k: nat)
    requires |order| == w > 0 && LettersInRange(order, w)
    requires k < w && forall i :: 0 <= i < w ==> Pos(order[i]) != k
    ensures !NoTwoAlike(order, w)
  {
    var a: seq<Byte> := seq(w, _ => 0);
    var b: seq<Byte> := a[k := 1];
    assert Reorder(a, order).value == Reorder(b, order).value;
    assert a[k] != b[k];
  }

  lemma KeepsEveryByte(order: string, w: nat, a: seq<Byte>, b: seq<Byte>)
    requires |order| == w > 0 && LettersInRange(order, w) && EveryLetterUsed(order, w)
    requires |a| == |b| == w && Reorder(a, order) == Reorder(b, order)
    ensures a == b
  {
    forall k | 0 <= k < w ensures a[k] == b[k] {
      assert Uses(order, k);
      var i :| 0 <= i < |order| && Pos(order[i]) == k;
      assert Reorder(a, order).value[i] == Reorder(b, order).value[i];
    }
  }

  /** An accepted byte order loses nothing if and only if it uses every letter. */
  lemma LosslessIffEveryLetterUsed(order: string, w: nat)
    requires |order| == w > 0 && LettersInRange(order, w)
    ensures NoTwoAlike(order, w) <==> EveryLetterUsed(order, w)
  {
    if EveryLetterUsed(order, w) {
      forall a: seq<Byte>, b: seq<Byte> | |a| == |b| == w && Reorder(a, order) == Reorder(b, order) ensures a == b {
        KeepsEveryByte(order, w, a, b);
      }
    } else {
      var k :| 0 <= k < w && !Uses(order, k);
      LosesUnusedByte(order, w, k);
    }
  }

  // ---------------------------------------------------------------- integers survive the trip

  function Pow256(w: nat): nat { if w == 0 then 1 else 256 * Pow256(w - 1) }

  function ToBytes(n: nat, w: nat): (b: seq<Byte>)
    ensures |b| == w
  {
    if w == 0 then [] else ToBytes(n / 256, w - 1) + [n % 256]
  }

  lemma {:induction false} BigEndianToBytes(n: nat, w: nat)
    requires n < Pow256(w)
    ensures BigEndian(ToBytes(n, w)) == n
  {
    if w > 0 {
      BigEndianToBytes(n / 256, w - 1);
      assert ToBytes(n, w)[..w - 1] == ToBytes(n / 256, w - 1);
    }
  }

  predicate IsInteger(dataType: string) {
    dataType == "INT16" || dataType == "UINT16" || dataType == "INT32" || dataType == "UINT32"
  }

  predicate InRange(v: int, dataType: string) {
    if dataType == "INT16" then -0x8000 <= v < 0x8000
    else if dataType == "UINT16" then 0 <= v < 0x1_0000
    else if dataType == "INT32" then -0x8000_0000 <= v < 0x8000_0000
    else 0 <= v < 0x1_0000_0000
  }

  /** The register bytes a device using `order` sends for the integer v. */
  ghost function Encode(v: int, dataType: string, order: string): seq<Byte>
    requires IsInteger(dataType) && InRange(v, dataType) && |order| == ByteWidth(dataType).value
    requires EveryLetterUsed(order, |order|)
  {
    var w := ByteWidth(dataType).value;
    var bytes := ToBytes(if v < 0 then v + Pow256(w) else v, w);
    match Reorder(bytes, Inverse(order))
    case Ok(b) => b
    case Err(_) => bytes
  }

  lemma InterpretSigned(v: int, dataType: string)
    requires IsInteger(dataType) && InRange(v, dataType)
    ensures var m := Pow256(ByteWidth(dataType).value);
            var n := if v < 0 then v + m else v;
            0 <= n < m && Interpret(n, dataType) == Ok(Int(v))
  {}

  /** Every 16- or 32-bit integer, in every byte order, decodes to itself. */
  lemma IntegerRoundTrip(v: int, dataType: string, order: string)
    requires IsInteger(dataType) && InRange(v, dataType) && IsPermutation(order, ByteWidth(dataType).value)
    ensures EveryLetterUsed(order, |order|)
    ensures DecodeRaw(Encode(v, dataType, order), dataType, order) == Ok(Int(v))
  {
    var w := ByteWidth(dataType).value;
    var n := if v < 0 then v + Pow256(w) else v;
    InterpretSigned(v, dataType);
    hide Interpret, Pow256;
    BigEndianToBytes(n, w);
    hide BigEndian;
    ReorderUndone(ToBytes(n, w), order);
    ReorderLength(ToBytes(n, w), Inverse(order));
    hide Inverse, Reorder, ToBytes;
    assert Encode(v, dataType, order) == Reorder(ToBytes(n, w), Inverse(order)).value;
  }

  lemma ReorderLength(raw: seq<Byte>, order: string)
    ensures Reorder(raw, order).Ok? ==> |Reorder(raw, order).value| == |raw|
  {}

  // ---------------------------------------------------------------- in plain terms

  /** The six known types and their sizes; anything else is unknown. */
  lemma WidthIs(t: string)
    ensures ByteWidth(t) == Some(2) <==> t == "INT16" || t == "UINT16"
    ensures ByteWidth(t) == Some(4) <==> t == "INT32" || t == "UINT32" || t == "FLOAT32"
    ensures ByteWidth(t) == Some(8) <==> t == "FLOAT64"
    ensures ByteWidth(t).Some? ==> ByteWidth(t).value in {2, 4, 8} && RegisterCount(t) == Some(ByteWidth(t).value / 2)
    ensures ByteWidth(t).None? ==> RegisterCount(t).None?
  {}

  /** Letter A names the first byte of the value, B the second, and so on; a wrong length or letter is an error. */
  lemma ReorderIs(raw: seq<Byte>, order: string)
    ensures Reorder(raw, "") == Ok(raw)
    ensures order != "" ==>
              (Reorder(raw, order).Ok? <==>
               |order| == |raw| && forall i :: 0 <= i < |order| ==> 65 <= order[i] as int < 65 + |raw|)
    ensures order != "" && Reorder(raw, order).Ok? ==>
              var out := Reorder(raw, order).value;
              |out| == |raw| && forall i :: 0 <= i < |raw| ==> out[i] == raw[order[i] as int - 65]
  {
    if order != "" && |order| == |raw| {
      if forall i :: 0 <= i < |order| ==> 65 <= order[i] as int < 65 + |raw| {
        assert LettersInRange(order, |raw|);
      } else {
        var i :| 0 <= i < |order| && !(65 <= order[i] as int < 65 + |raw|);
        assert !(0 <= Pos(order[i]) < |raw|);
      }
    }
  }

  lemma {:induction false} BigEndian2(b: seq<Byte>)
    requires |b| == 2
    ensures BigEndian(b) == b[0] as int * 256 + b[1] as int
  {
    assert b[..1][..0] == [];
    assert BigEndian(b[..1]) == b[0];
  }

  /** The two halves of a number of 2 w bytes. */
  lemma {:induction false} BigEndianSplit(a: seq<Byte>, b: seq<Byte>)
    ensures BigEndian(a + b) == BigEndian(a) * Pow256(|b|) + BigEndian(b)
  {
    if b == [] {
      assert a + b == a;
    } else {
      var n := |b| - 1;
      BigEndianSplit(a, b[..n]);
      assert (a + b)[..|a + b| - 1] == a + b[..n];
      assert Pow256(|b|) == 256 * Pow256(n);
    }
  }

  lemma BigEndian4(b: seq<Byte>)
    requires |b| == 4
    ensures BigEndian(b) == (b[0] as int * 256 + b[1] as int) * 65536 + (b[2] as int * 256 + b[3] as int)
  {
    assert b == b[..2] + b[2..];
    BigEndianSplit(b[..2], b[2..]);
    BigEndian2(b[..2]);
    BigEndian2(b[2..]);
    assert Pow256(2) == 65536;
  }

  /** What the register bytes mean, high byte first: 16 bits. */
  lemma DecodeShort(raw: seq<Byte>)
    requires |raw| == 2
    ensures var n := raw[0] as int * 256 + raw[1] as int;
            && DecodeRaw(raw, "UINT16", "") == Ok(Int(n))
            && DecodeRaw(raw, "INT16", "") == Ok(Int(if raw[0] < 128 then n else n - 65536))
  {
    BigEndian2(raw);
  }

  /** 32 bits. */
  lemma DecodeLong(raw: seq<Byte>)
    requires |raw| == 4
    ensures var n := (raw[0] as int * 256 + raw[1] as int) * 65536 + (raw[2] as int * 256 + raw[3] as int);
            && DecodeRaw(raw, "UINT32", "") == Ok(Int(n))
            && DecodeRaw(raw, "INT32", "") == Ok(Int(if raw[0] < 128 then n else n - 4294967296))
            && DecodeRaw(raw, "FLOAT32", "") == Ok(Float32(n))
  {
    BigEndian4(raw);
  }

  /** 64 bits. */
  lemma DecodeDouble(raw: seq<Byte>)
    requires |raw| == 8
    ensures DecodeRaw(raw, "FLOAT64", "") == Ok(Float64(BigEndian(raw[..4]) * 4294967296 + BigEndian(raw[4..])))
  {
    assert raw == raw[..4] + raw[4..];
    BigEndianSplit(raw[..4], raw[4..]);
    assert Pow256(4) == 4294967296;
  }

  /**
    With a byte order, the value is that of the reordered bytes; it is refused exactly for a bad type, size
    or order.
  */
  lemma DecodeOrders(raw: seq<Byte>, dataType: string, order: string)
    ensures DecodeRaw(raw, dataType, order).Ok? <==>
              ByteWidth(dataType) == Some(|raw|) && Reorder(raw, order).Ok?
    ensures DecodeRaw(raw, dataType, order).Ok? ==>
              DecodeRaw(raw, dataType, order) == DecodeRaw(Reorder(raw, order).value, dataType, "")
  {
    ReorderIs(raw, order);
    hide Reorder, BigEndian;
    if Reorder(raw, order).Ok? {
      ReorderIs(Reorder(raw, order).value, "");
      ReorderLength(raw, order);
    }
  }
}

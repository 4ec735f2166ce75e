/** gateway/internal/time/ntp.go: the clock offset of one SNTP exchange, in Go's fixed-width arithmetic. */
module Ntp {
  import opened Common
  import D = Decode

  const SECOND: int := 1_000_000_000
  const TWO32: int := 0x1_0000_0000
  const TWO63: int := 0x8000_0000_0000_0000
  const TWO64: int := 0x1_0000_0000_0000_0000

  /** One NTP era, 1900 to 2036, in nanoseconds: what a 32-bit count of seconds can tell apart. */
  const ERA: int := TWO32 * SECOND

  predicate FitsInt64(x: int) { -TWO63 <= x < TWO63 }

  function Wrap64(x: int): (r: int)
    ensures FitsInt64(r)
    ensures FitsInt64(x) ==> r == x
  {
    (x + TWO63) % TWO64 - TWO63
  }

  /** time.Time.Sub: the difference, held to the limits of a Duration. */
  function Sub(a: int, b: int): (r: int)
    ensures FitsInt64(r)
  {
    if a - b < -TWO63 then -TWO63 else if a - b >= TWO63 then TWO63 - 1 else a - b
  }

  /** Go's division by two, toward zero. */
  function Halve(x: int): (r: int)
    ensures x >= 0 ==> 2 * r <= x <= 2 * r + 1
    ensures x <= 0 ==> 2 * r - 1 <= x <= 2 * r
  {
    if x >= 0 then x / 2 else -(-x / 2)
  }

  /** The two halves of a wire timestamp read as one 64-bit number. */
  lemma BigEndian8(b: seq<D.Byte>)
    requires |b| == 8
    ensures D.BigEndian(b) == D.BigEndian(b[..4]) * TWO32 + D.BigEndian(b[4..])
    ensures D.BigEndian(b[..4]) < TWO32 && D.BigEndian(b[4..]) < TWO32
  {
    assert b == b[..4] + b[4..];
    D.BigEndianSplit(b[..4], b[4..]);
    D.BigEndian4(b[..4]);
    D.BigEndian4(b[4..]);
    assert D.Pow256(4) == TWO32;
  }

  /** ntpTimestampToTime: nanoseconds since 1900, through int64 and uint64. */
  function TimestampToTime(b: seq<D.Byte>): int
    requires |b| == 8
  {
    var secs := D.BigEndian(b[..4]);
    var frac := D.BigEndian(b[4..]);
    Wrap64(Wrap64(secs * SECOND) + Wrap64(frac * SECOND % TWO64 / TWO32))
  }

  /** What queryNTP makes of the first n bytes of a reply and its two local readings. */
  function Offset(resp: seq<D.Byte>, n: nat, t1: int, t4: int): Result<int>
    requires |resp| == 48
  {
    if n < 48 then Err("short ntp response")
    else if resp[0] % 8 != 4 then Err("unexpected ntp mode")
    else if resp[1] == 0 then Err("kiss-of-death")
    else
      var t2 := TimestampToTime(resp[32..40]);
      var t3 := TimestampToTime(resp[40..48]);
      Ok(Halve(Wrap64(Sub(t2, t1) + Sub(t3, t4))))
  }

  /** A reply is refused exactly if it is short, not from a server, or a kiss-of-death. */
  lemma RefusedIff(resp: seq<D.Byte>, n: nat, t1: int, t4: int)
    requires |resp| == 48
    ensures Offset(resp, n, t1, t4).Err? <==> n < 48 || resp[0] % 8 != 4 || resp[1] == 0
  {}

  predicate FirstEra(t: int) { 0 <= t < ERA }

  /** Reading a wire timestamp never overflows and loses less than a nanosecond. */
  lemma TimestampIsFloor(b: seq<D.Byte>)
    requires |b| == 8
    ensures FirstEra(TimestampToTime(b))
    ensures TimestampToTime(b) * TWO32 <= D.BigEndian(b) * SECOND < (TimestampToTime(b) + 1) * TWO32
  {
    BigEndian8(b);
    var secs, frac := D.BigEndian(b[..4]), D.BigEndian(b[4..]);
    assert 0 <= secs * SECOND <= (TWO32 - 1) * SECOND;
    assert 0 <= frac * SECOND < TWO64;
    var part := frac * SECOND / TWO32;
    assert part * TWO32 <= frac * SECOND < (part + 1) * TWO32;
    assert TimestampToTime(b) == secs * SECOND + part;
  }

  /** The sum whose half is returned, over the integers. */
  function Sum(resp: seq<D.Byte>, t1: int, t4: int): int
    requires |resp| == 48
  {
    TimestampToTime(resp[32..40]) - t1 + (TimestampToTime(resp[40..48]) - t4)
  }

  predicate Accepted(resp: seq<D.Byte>) {
    |resp| == 48 && resp[0] % 8 == 4 && resp[1] != 0
  }

  /** A local reading before the year 2172, in the first or the second era. */
  predicate TwoEras(t: int) { 0 <= t < 2 * ERA }

  /** Until 2172 the two differences fit, and only their sum can leave int64, downwards, where it wraps around. */
  lemma OffsetOfSum(resp: seq<D.Byte>, t1: int, t4: int)
    requires Accepted(resp) && TwoEras(t1) && TwoEras(t4)
    ensures var sum := Sum(resp, t1, t4);
            && sum < TWO63
            && Offset(resp, 48, t1, t4) == Ok(Halve(if FitsInt64(sum) then sum else sum + TWO64))
  {
    TimestampIsFloor(resp[32..40]);
    TimestampIsFloor(resp[40..48]);
    var sum := Sum(resp, t1, t4);
    assert -2 * TWO63 <= sum;
    if !FitsInt64(sum) {
      assert FitsInt64(sum + TWO64);
      WrapsOnce(sum);
    }
  }

  lemma WrapsOnce(x: int)
    requires FitsInt64(x + TWO64)
    ensures Wrap64(x) == x + TWO64
  {
    assert (x + TWO63) % TWO64 == x + TWO64 + TWO63 by { RemainderOf(x + TWO63, -1, x + TWO64 + TWO63); }
  }

  /**
    For local readings in the first era no intermediate value leaves int64, whatever the wire holds:
    the fixed-width formula is the formula over the integers.
  */
  lemma NoOverflow(resp: seq<D.Byte>, t1: int, t4: int)
    requires Accepted(resp) && FirstEra(t1) && FirstEra(t4)
    ensures var t2, t3 := TimestampToTime(resp[32..40]), TimestampToTime(resp[40..48]);
            && FitsInt64(t2 - t1) && FitsInt64(t3 - t4) && FitsInt64(Sum(resp, t1, t4))
            && Offset(resp, 48, t1, t4) == Ok(Halve(Sum(resp, t1, t4)))
  {
    TimestampIsFloor(resp[32..40]);
    TimestampIsFloor(resp[40..48]);
  }

  // ---------------------------------------------------------------- against true time

  function ToReal(x: int): real { x as real }

  /** The 64-bit timestamp a server puts on the wire when its clock shows s: cut to 2^-32 s, era dropped. */
  function Stamp(s: real): int {
    (s * 4294967296.0 / 1000000000.0).Floor % TWO64
  }

  /** One exchange in true time: clock readings, the network's two delays and the clocks' true difference. */
  datatype Exchange = Exchange(
    sent: real, received: real, answered: real, arrived: real, theta: real, out: real, back: real)

  predicate InEra(s: real, era: int) { ToReal(era * ERA) <= s < ToReal((era + 1) * ERA) }

  /** The gateway's clock is in the first or second era, the server's in the given one. */
  predicate Happens(x: Exchange, era: int) {
    && x.received == x.sent + x.out + x.theta
    && x.arrived == x.answered - x.theta + x.back
    && (InEra(x.sent, 0) || InEra(x.sent, 1)) && (InEra(x.arrived, 0) || InEra(x.arrived, 1))
    && InEra(x.received, era) && InEra(x.answered, era)
    && x.out >= 0.0 && x.back >= 0.0
  }

  /** A reply that carries this exchange's stamps. */
  predicate Carries(resp: seq<D.Byte>, x: Exchange) {
    && Accepted(resp)
    && D.BigEndian(resp[32..40]) == Stamp(x.received)
    && D.BigEndian(resp[40..48]) == Stamp(x.answered)
  }

  /** The decoded stamp is the server's clock within its era, less than 1.25 ns low. */
  lemma StampDecodes(b: seq<D.Byte>, s: real, era: int)
    requires |b| == 8 && InEra(s, era) && D.BigEndian(b) == Stamp(s)
    ensures s - ToReal(era * ERA) - 1.25 < ToReal(TimestampToTime(b)) <= s - ToReal(era * ERA)
  {
    var r := s - ToReal(era * ERA);
    var ticks := (s * 4294967296.0 / 1000000000.0).Floor;
    var within := (r * 4294967296.0 / 1000000000.0).Floor;
    assert r * 4294967296.0 / 1000000000.0 == s * 4294967296.0 / 1000000000.0 - ToReal(era * TWO64);
    assert within == ticks - era * TWO64;
    assert 0 <= within < TWO64;
    RemainderOf(ticks, era, within);
    assert D.BigEndian(b) == within;
    TimestampIsFloor(b);
  }

  lemma RemainderOf(x: int, q: int, r: int)
    requires x == q * TWO64 + r && 0 <= r < TWO64
    ensures x % TWO64 == r
  {}

  /**
    What the formula would give without rounding: the clocks' difference as the wire shows it, skewed by
    the delays.
  */
  function Ideal(x: Exchange, era: int): real {
    x.theta - ToReal(era * ERA) + (x.out - x.back) / 2.0
  }

  /** Half the integer sum is the ideal value within 1.25 ns. */
  lemma SumIs(resp: seq<D.Byte>, x: Exchange, era: int)
    requires Happens(x, era) && Carries(resp, x)
    ensures TwoEras(x.sent.Floor) && TwoEras(x.arrived.Floor)
    ensures -2.5 < ToReal(Sum(resp, x.sent.Floor, x.arrived.Floor)) - 2.0 * Ideal(x, era) < 2.0
  {
    var t1, t4 := x.sent.Floor, x.arrived.Floor;
    var b2, b3 := resp[32..40], resp[40..48];
    StampDecodes(b2, x.received, era);
    StampDecodes(b3, x.answered, era);
    var t2, t3 := TimestampToTime(b2), TimestampToTime(b3);
    assert ToReal(Sum(resp, t1, t4)) == ToReal(t2) - ToReal(t1) + ToReal(t3) - ToReal(t4);
    assert x.received - x.sent + (x.answered - x.arrived) == 2.0 * x.theta + x.out - x.back;
  }

  lemma HalveIs(x: int)
    ensures -1.0 <= 2.0 * ToReal(Halve(x)) - ToReal(x) <= 1.0
  {}

  /**
    The computed offset is the true difference of the clocks (less a whole era for each era the
    server is ahead) plus half the difference of the delays, within two nanoseconds; if the sum
    leaves int64, it is another 2^63 ns too high.
  */
  lemma OffsetIs(resp: seq<D.Byte>, x: Exchange, era: int)
    requires Happens(x, era) && Carries(resp, x)
    ensures var t1, t4 := x.sent.Floor, x.arrived.Floor;
            var r := Offset(resp, 48, t1, t4);
            var wrapped := if FitsInt64(Sum(resp, t1, t4)) then 0 else TWO63;
            r.Ok? && -2.0 < ToReal(r.value) - (Ideal(x, era) + ToReal(wrapped)) < 2.0
  {
    hide Happens, Carries, Ideal, Offset, Sum, Halve;
    SumIs(resp, x, era);
    assert Accepted(resp) by { CarriesIsAccepted(resp, x); }
    OffsetOfSum(resp, x.sent.Floor, x.arrived.Floor);
    var sum := Sum(resp, x.sent.Floor, x.arrived.Floor);
    HalveIs(sum);
    HalveIs(sum + TWO64);
    assert ToReal(sum + TWO64) == ToReal(sum) + 2.0 * ToReal(TWO63);
  }

  lemma CarriesIsAccepted(resp: seq<D.Byte>, x: Exchange)
    requires Carries(resp, x)
    ensures Accepted(resp)
  {}

  /** The result is wrong by at most half the round trip's network delay plus two nanoseconds. */
  predicate Accurate(r: Result<int>, x: Exchange) {
    r.Ok? && -(x.out + x.back) / 2.0 - 2.0 < ToReal(r.value) - x.theta < (x.out + x.back) / 2.0 + 2.0
  }

  /** Accuracy: with gateway and server in the first era, for all delays. */
  lemma OffsetIsAccurate(resp: seq<D.Byte>, x: Exchange)
    requires Happens(x, 0) && Carries(resp, x) && InEra(x.sent, 0) && InEra(x.arrived, 0)
    ensures Accurate(Offset(resp, 48, x.sent.Floor, x.arrived.Floor), x)
  {
    NoOverflow(resp, x.sent.Floor, x.arrived.Floor);
    OffsetIs(resp, x, 0);
  }

  /**
    Until 2172 and for delays under fifteen years: the bound holds if and only if the server's clock
    is in the first era and the sum of the differences fits int64.  The gateway's own era does not matter.
  */
  lemma AccurateIffServerInFirstEra(resp: seq<D.Byte>, x: Exchange, era: int)
    requires Happens(x, era) && Carries(resp, x)
    requires x.out + x.back < 500_000_000_000_000_000.0
    ensures Accurate(Offset(resp, 48, x.sent.Floor, x.arrived.Floor), x)
       <==> era == 0 && Sum(resp, x.sent.Floor, x.arrived.Floor) >= -9_223_372_036_854_775_808
  {
    OffsetIs(resp, x, era);
    SumIs(resp, x, era);
    OffsetOfSum(resp, x.sent.Floor, x.arrived.Floor);
    var wrapped := if FitsInt64(Sum(resp, x.sent.Floor, x.arrived.Floor)) then 0 else TWO63;
    hide Offset, Sum, Carries;
    EraIsNoWrap(era, wrapped);
    assert ToReal(wrapped) - ToReal(era * ERA) == ToReal(wrapped - era * ERA);
  }

  /** No number of eras makes up for a sum that wrapped: 2^63 ns is 2.147 eras. */
  lemma EraIsNoWrap(era: int, wrapped: int)
    requires wrapped == 0 || wrapped == TWO63
    ensures (era == 0 && wrapped == 0) || wrapped - era * ERA >= 600_000_000_000_000_000
              || wrapped - era * ERA <= -600_000_000_000_000_000
  {
    if era <= 2 {
      assert era * ERA <= 2 * ERA;
    } else {
      assert era * ERA >= 3 * ERA;
    }
  }

  /** The sum fits as long as the gateway's clock is not 146 years ahead of what the wire shows. */
  lemma SumFitsIfClose(resp: seq<D.Byte>, x: Exchange, era: int)
    requires Happens(x, era) && Carries(resp, x) && Ideal(x, era) >= -4_611_686_018_427_387_900.0
    ensures FitsInt64(Sum(resp, x.sent.Floor, x.arrived.Floor))
  {
    SumIs(resp, x, era);
    OffsetOfSum(resp, x.sent.Floor, x.arrived.Floor);
  }

  /**
    After 2036: gateway and server agree to the nanosecond and the network is instant, and still the
    gateway computes that it is a whole era, 136 years, ahead.
  */
  lemma BothInSecondEra(resp: seq<D.Byte>, x: Exchange)
    requires Carries(resp, x)
    requires x == Exchange(ToReal(ERA), ToReal(ERA), ToReal(ERA), ToReal(ERA), 0.0, 0.0, 0.0)
    ensures var r := Offset(resp, 48, x.sent.Floor, x.arrived.Floor);
            r.Ok? && -ERA - 2 < r.value < -ERA + 2 && !Accurate(r, x)
  {
    assert Happens(x, 1);
    SumFitsIfClose(resp, x, 1);
    OffsetIs(resp, x, 1);
  }
}

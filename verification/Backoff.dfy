/** gateway/internal/queue/backoff.go: the retry schedule 1, 2, 4, 8, 16, 32, 60, 60, ... seconds. */
module Backoff {

  const SECOND_MS := 1000
  const MAX_BACKOFF_MS := 60 * SECOND_MS

  function Pow2(n: nat): (p: nat)
    ensures p >= 1
  {
    if n == 0 then 1 else 2 * Pow2(n - 1)
  }

  /** The delay before the next attempt, in milliseconds, after failure number `retryCount`. */
  function BackoffMs(retryCount: int): (d: nat)
    ensures SECOND_MS <= d <= MAX_BACKOFF_MS
  {
    var n := if retryCount < 1 then 1 else retryCount;
    var shift := n - 1;
    if shift > 6 then MAX_BACKOFF_MS
    else
      var d := Pow2(shift) * SECOND_MS;
      if d > MAX_BACKOFF_MS then MAX_BACKOFF_MS else d
  }

  /** Total delay imposed by failures 1 to n. */
  function TotalBackoffMs(n: nat): (t: nat) {
    if n == 0 then 0 else TotalBackoffMs(n - 1) + BackoffMs(n)
  }

  /** The schedule in closed form: doubling for six failures, then a flat minute each. */
  lemma {:induction false} TotalBackoffClosedForm(n: nat)
    ensures n <= 6 ==> TotalBackoffMs(n) == (Pow2(n) - 1) * 1000
    ensures n >= 6 ==> TotalBackoffMs(n) == (63 + 60 * (n - 6)) * 1000
  {
    assert Pow2(3) == 8;
    assert Pow2(6) == 64;
    if n > 0 {
      TotalBackoffClosedForm(n - 1);
      if n <= 6 {
        assert Pow2(4) == 16 && Pow2(5) == 32;
        assert Pow2(n) == 2 * Pow2(n - 1);
        assert n == 1 || n == 2 || n == 3 || n == 4 || n == 5 || n == 6;
      }
    }
  }

  /** The delay never shrinks from one failure to the next and never exceeds the cap. */
  lemma BackoffMonotone(m: int, n: int)
    requires m <= n
    ensures 1000 <= BackoffMs(m) <= BackoffMs(n) <= 60_000
  {
    if 1 <= n <= 7 {
      assert Pow2(3) == 8;
      assert Pow2(6) == 64;
    }
  }
}

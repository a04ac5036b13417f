// The waits between reconnect attempts: double, up to a cap, in int64
// nanoseconds.
module Backoff {
  import opened Arithmetic

  const HALF: int := 0x8000_0000_0000_0000
  const SECOND: int := 1_000_000_000

  // A time.Duration holds 64 bits.
  function Wrap(x: int): int {
    (x + HALF) % (2 * HALF) - HALF
  }

  function ExpBackoff(current: int, max: int): int {
    if current <= 0 then (if max > 0 then max else SECOND)
    else
      var next := Wrap(current * 2);
      if max > 0 && next > max then max else next
  }

  // One step: a wait that is not positive becomes the cap, or a second without a
  // cap; any other doubles, wrapping in int64, and stays at or below the cap.
  lemma NextWait(current: int, max: int)
    ensures current <= 0 ==> ExpBackoff(current, max) == if max > 0 then max else 1_000_000_000
    ensures 0 < current < 0x4000_0000_0000_0000 ==>
              ExpBackoff(current, max) == if max > 0 && 2 * current > max then max else 2 * current
    ensures 0x4000_0000_0000_0000 <= current < 0x8000_0000_0000_0000 ==>
              ExpBackoff(current, max) == 2 * current - 0x1_0000_0000_0000_0000
  {
  }

  // The wait after the k-th consecutive failure, counting from 0.
  function WaitAfter(initial: int, max: int, k: nat): int {
    if k == 0 then initial else ExpBackoff(WaitAfter(initial, max, k - 1), max)
  }

  function Capped(initial: int, max: int, k: nat): int {
    if initial * Pow2(k) <= max then initial * Pow2(k) else max
  }

  // Below the point where doubling leaves int64, the k-th wait is exactly
  // min(initial * 2^k, max).
  lemma {:induction false} WaitsDoubleUpToMax(initial: int, max: int, k: nat)
    requires 0 < initial <= max < HALF / 2
    ensures WaitAfter(initial, max, k) == Capped(initial, max, k)
  {
    if k > 0 {
      WaitsDoubleUpToMax(initial, max, k - 1);
      Positive(initial, k - 1);
      DoubleOnce(initial * Pow2(k - 1), max);
      TimesPow2Step(initial, k - 1);
    }
  }

  lemma DoubleOnce(x: int, max: int)
    requires 0 < x && 0 < max < HALF / 2
    ensures ExpBackoff(if x <= max then x else max, max) == if 2 * x <= max then 2 * x else max
  {
  }

  lemma Positive(initial: int, k: nat)
    requires 0 < initial
    ensures initial * Pow2(k) >= initial
  {
  }

  // And only there: from 2^62 ns on some wait comes out differently.
  lemma WaitsDoubleExactlyBelowHalf(initial: int, max: int)
    requires 0 < initial <= max < HALF
    ensures (forall k: nat :: WaitAfter(initial, max, k) == Capped(initial, max, k)) <==> max < HALF / 2
  {
    if max < HALF / 2 {
      forall k: nat ensures WaitAfter(initial, max, k) == Capped(initial, max, k) {
        WaitsDoubleUpToMax(initial, max, k);
      }
    } else {
      Pow2Of62();
      AtLeastPow2(initial, 62);
      var k := Overflows(initial, max, 62);
      assert WaitAfter(initial, max, k) != Capped(initial, max, k);
    }
  }

  lemma {:induction false} AtLeastPow2(initial: int, k: nat)
    requires 0 < initial
    ensures initial * Pow2(k) >= Pow2(k)
  {
    if k > 0 {
      AtLeastPow2(initial, k - 1);
      TimesPow2Step(initial, k - 1);
    }
  }

  lemma Pow2Of62()
    ensures Pow2(62) == HALF / 2
  {
    Pow2Of32();
    Pow2Add(32, 32);
    Pow2Add(62, 2);
    assert Pow2(2) == 4;
  }

  lemma Pow2Of32()
    ensures Pow2(32) == 0x1_0000_0000
  {
    assert Pow2(8) == 0x100;
    Pow2Add(8, 8);
    Pow2Add(16, 16);
  }

  // Once the capped value is at least 2^62, the next wait overflows.
  lemma {:induction false} Overflows(initial: int, max: int, n: nat) returns (k: nat)
    requires 0 < initial <= max && HALF / 2 <= max < HALF
    requires initial * Pow2(n) >= HALF / 2
    ensures WaitAfter(initial, max, k) != Capped(initial, max, k)
  {
    if WaitAfter(initial, max, n) != Capped(initial, max, n) {
      k := n;
    } else {
      k := n + 1;
      var w := WaitAfter(initial, max, n);
      assert HALF / 2 <= w < HALF;
      assert Wrap(w * 2) == w * 2 - 2 * HALF < 0;
      TimesPow2Step(initial, n);
    }
  }
}

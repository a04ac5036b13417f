// Division facts the solver does not find by itself.
module Arithmetic {

  function Pow2(n: nat): (r: nat)
    ensures r > 0
  {
    if n == 0 then 1 else 2 * Pow2(n - 1)
  }

  lemma DropRemainder(a: nat, block: nat)
    requires block > 0
    ensures a - a % block >= 0 && (a - a % block) % block == 0
    ensures (a - a % block) / block == a / block
  {
    var q := a / block;
    assert a - a % block == q * block;
    DivideProduct(q, 0, block);
  }

  lemma DivideProduct(q: nat, r: nat, block: nat)
    requires r < block
    ensures (q * block + r) / block == q && (q * block + r) % block == r
  {
    var n := q * block + r;
    QuotientUnique(n / block, n % block, q, r, block);
  }

  lemma QuotientUnique(q: int, r: nat, q': int, r': nat, block: nat)
    requires r < block && r' < block
    requires q * block + r == q' * block + r'
    ensures q == q' && r == r'
  {
    var d := q - q';
    assert d * block == q * block - q' * block == r' - r;
    if d != 0 {
      NonzeroMultiple(d, block);
    }
  }

  lemma NonzeroMultiple(d: int, block: int)
    requires d != 0 && block >= 0
    ensures d > 0 ==> d * block >= block
    ensures d < 0 ==> d * block <= -block
  {
    var k := if d > 0 then d - 1 else -d - 1;
    Product(k, block);
    assert d > 0 ==> d * block == k * block + block;
    assert d < 0 ==> -d * block == k * block + block;
  }

  lemma Product(k: nat, block: nat)
    ensures k * block >= 0
  {
  }

  // Numbers less than n apart fall into different residues.
  lemma ResiduesDiffer(x: nat, y: nat, n: nat)
    requires x < y < x + n
    ensures x % n != y % n
  {
    if x % n == y % n {
      var q, q' := x / n, y / n;
      assert (q' - q) * n == y - x by {
        assert x == q * n + x % n && y == q' * n + y % n;
      }
      if q' != q {
        NonzeroMultiple(q' - q, n);
      }
    }
  }

  lemma ResidueShift(a: int, q: int, n: nat)
    requires n > 0
    ensures (a - q * n) % n == a % n
  {
    var b := a - q * n;
    assert a == (a / n) * n + a % n && b == (b / n) * n + b % n;
    assert (a / n - q) * n == (a / n) * n - q * n;
    QuotientUnique(a / n - q, a % n, b / n, b % n, n);
  }

  lemma DivideMonotone(a: nat, b: nat, n: nat)
    requires n > 0 && a <= b
    ensures a / n <= b / n
  {
    var d := b / n - a / n;
    assert a == (a / n) * n + a % n && b == (b / n) * n + b % n;
    assert d * n == (b / n) * n - (a / n) * n;
    if d != 0 {
      NonzeroMultiple(d, n);
    }
  }

  lemma DivideShift(a: nat, k: nat, n: nat)
    requires n > 0
    ensures (a + k * n) / n == a / n + k
  {
    assert a == (a / n) * n + a % n;
    assert (a / n + k) * n == (a / n) * n + k * n;
    DivideProduct(a / n + k, a % n, n);
  }

  lemma {:induction false} Pow2Add(a: nat, b: nat)
    ensures Pow2(a + b) == Pow2(a) * Pow2(b)
  {
    if a > 0 {
      Pow2Add(a - 1, b);
      assert Pow2(a) * Pow2(b) == 2 * (Pow2(a - 1) * Pow2(b));
    }
  }

  lemma TimesPow2Step(x: int, k: nat)
    ensures x * Pow2(k + 1) == 2 * (x * Pow2(k))
  {
    Scale(x, Pow2(k));
  }

  lemma Scale(x: int, p: int)
    ensures x * (2 * p) == 2 * (x * p)
  {
  }

  lemma NextResidue(a: nat, n: nat)
    requires n > 0
    ensures (a + 1) % n == (a % n + 1) % n
  {
    ResidueShift(a + 1, a / n, n);
    assert a == (a / n) * n + a % n;
  }

  // From `from`, k steps round a circle of n come to a place at most k steps on.
  lemma StepsOn(from: nat, k: nat, n: nat)
    requires n > 0
    ensures ((from + k) % n - from) % n <= k
  {
    var q := (from + k) / n;
    assert from + k == q * n + (from + k) % n;
    ResidueShift(k, q, n);
    assert k == (k / n) * n + k % n;
    Product(k / n, n);
  }

  lemma StepsReach(from: nat, a: nat, n: nat)
    requires a < n
    ensures (from + (a - from) % n) % n == a
  {
    var q := (a - from) / n;
    assert a - from == q * n + (a - from) % n;
    ResidueShift(a, q, n);
    DivideProduct(0, a, n);
  }
}

/** Powers of two, masking and remainders: the arithmetic shared by the index computations. */
module Arith {

  /** Bitwise conjunction of two unsigned numbers, one bit at a time. */
  function And(a: nat, b: nat): (r: nat)
    ensures r <= a && r <= b
  {
    if a == 0 || b == 0 then 0 else (a % 2) * (b % 2) + 2 * And(a / 2, b / 2)
  }

  predicate IsPow2(n: nat) {
    n == 1 || (n > 1 && n % 2 == 0 && IsPow2(n / 2))
  }

  function Max(a: int, b: int): int {
    if a < b then b else a
  }

  function Min(a: int, b: int): int {
    if a < b then a else b
  }

  /** Masking with one less than a power of two is the remainder. */
  lemma {:induction false} AndMask(x: nat, n: nat)
    requires IsPow2(n)
    ensures And(x, n - 1) == x % n
  {
    if n == 1 {
    } else if x == 0 {
    } else {
      var h := n / 2;
      assert (n - 1) / 2 == h - 1 && (n - 1) % 2 == 1;
      AndMask(x / 2, h);
      assert And(x, n - 1) == x % 2 + 2 * ((x / 2) % h);
      ModDouble(x / 2, h, x % 2);
    }
  }

  lemma ModDouble(y: nat, h: nat, b: nat)
    requires h > 0 && b < 2
    ensures (2 * y + b) % (2 * h) == 2 * (y % h) + b
  {
    var q, r := y / h, y % h;
    assert y == q * h + r;
    assert 2 * y + b == q * (2 * h) + (2 * r + b);
    ModUnique(2 * y + b, 2 * h, q, 2 * r + b);
  }

  lemma MulGap(a: int, b: int, n: nat)
    requires a < b
    ensures a * n + n <= b * n
  {
    var d: nat := b - a - 1;
    assert d * n >= 0;
    assert (a + 1 + d) * n == a * n + n + d * n;
  }

  /** Quotient and remainder are determined by x == q * n + r. */
  lemma ModUnique(x: nat, n: nat, q: nat, r: nat)
    requires n > 0 && r < n && x == q * n + r
    ensures x % n == r && x / n == q
  {
    DivUnique(x / n, x % n, q, r, n);
  }

  lemma DivUnique(q1: int, r1: nat, q2: int, r2: nat, n: nat)
    requires r1 < n && r2 < n && q1 * n + r1 == q2 * n + r2
    ensures q1 == q2 && r1 == r2
  {
    if q1 < q2 {
      MulGap(q1, q2, n);
    } else if q2 < q1 {
      MulGap(q2, q1, n);
    }
  }

  /** Two positions in a window no longer than the ring fall on different slots. */
  lemma ModDistinct(a: nat, b: nat, n: nat)
    requires 0 < b - a < n
    ensures a % n != b % n
  {
    if a % n == b % n {
      assert 0 * n + (b - a) == (b / n - a / n) * n + 0;
      DivUnique(0, b - a, b / n - a / n, 0, n);
    }
  }

  lemma ModShift(a: nat, n: nat)
    requires n > 0
    ensures (a + n) % n == a % n
  {
    assert a + n == (a / n + 1) * n + a % n;
    ModUnique(a + n, n, a / n + 1, a % n);
  }

  /** Among powers of two the next larger one is at least the double. */
  lemma {:induction false} Pow2Gap(a: nat, b: nat)
    requires IsPow2(a) && IsPow2(b) && a < b
    ensures 2 * a <= b
  {
    if a > 1 {
      Pow2Gap(a / 2, b / 2);
    }
  }

  /** The smallest power of two that is at least v (for v at least 1). */
  function RoundUpPow2(v: nat): (r: nat)
    ensures IsPow2(r) && v <= r
    ensures v >= 1 ==> r < 2 * v
  {
    if v <= 1 then 1 else 2 * RoundUpPow2((v + 1) / 2)
  }

  /** Rounding up is to the one power of two that is less than twice as large. */
  lemma RoundUpIs(v: nat, p: nat)
    requires v >= 1 && IsPow2(p) && v <= p < 2 * v
    ensures RoundUpPow2(v) == p
  {
    var r := RoundUpPow2(v);
    if r < p {
      Pow2Gap(r, p);
    } else if p < r {
      Pow2Gap(p, r);
    }
  }

  lemma {:induction false} Pow2Times(a: nat, b: nat)
    requires IsPow2(a) && IsPow2(b)
    ensures IsPow2(a * b)
  {
    if a > 1 {
      Pow2Times(a / 2, b);
      assert a * b == 2 * ((a / 2) * b);
    }
  }
}

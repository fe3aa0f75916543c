/** Sixteen four-bit counters packed in one unsigned 64-bit word, as numbers. */
module Nibbles {
  import opened Arith

  const WORD_LIMIT: nat := 0x1_0000_0000_0000_0000
  const RESET_MASK: nat := 0x7777_7777_7777_7777
  const ONE_MASK: nat := 0x1111_1111_1111_1111

  type Word = w: nat | w < WORD_LIMIT

  function Pow16(j: nat): (p: nat)
    ensures p > 0
  {
    if j == 0 then 1 else 16 * Pow16(j - 1)
  }

  /** Counter j of a word. */
  function Nibble(w: nat, j: nat): (d: nat)
    ensures d < 16
  {
    if j == 0 then w % 16 else Nibble(w / 16, j - 1)
  }

  /** The sum of the first n counters. */
  function NibbleSum(w: nat, n: nat): nat {
    if n == 0 then 0 else w % 16 + NibbleSum(w / 16, n - 1)
  }

  /** Reading a counter by shifting and masking. */
  lemma {:induction false} NibbleRead(w: nat, j: nat)
    ensures Nibble(w, j) == (w / Pow16(j)) % 16
  {
    if j > 0 {
      NibbleRead(w / 16, j - 1);
      DivDiv(w, 16, Pow16(j - 1));
    }
  }

  lemma DivDiv(w: nat, a: nat, b: nat)
    requires a > 0 && b > 0
    ensures a * b > 0 && (w / a) / b == w / (a * b)
  {
    var q, r := w / a, w % a;
    var q2, r2 := q / b, q % b;
    assert w == q * a + r && q == q2 * b + r2;
    assert w == q2 * (a * b) + (r2 * a + r);
    MulGap(r2, b, a);
    ModUnique(w, a * b, q2, r2 * a + r);
  }

  /** Adding one to a counter that is not full changes that counter and no other. */
  lemma {:induction false} NibbleIncrement(w: nat, j: nat, k: nat)
    requires Nibble(w, j) < 15
    ensures Nibble(w + Pow16(j), k) == Nibble(w, k) + if k == j then 1 else 0
  {
    if j == 0 {
      assert (w + 1) / 16 == w / 16 && (w + 1) % 16 == w % 16 + 1;
    } else {
      var p := Pow16(j - 1);
      assert (w + 16 * p) / 16 == w / 16 + p && (w + 16 * p) % 16 == w % 16;
      if k > 0 {
        NibbleIncrement(w / 16, j - 1, k - 1);
      }
    }
  }

  lemma {:induction false} SumIncrement(w: nat, j: nat, n: nat)
    requires j < n && Nibble(w, j) < 15
    ensures NibbleSum(w + Pow16(j), n) == NibbleSum(w, n) + 1
  {
    if j == 0 {
      assert (w + 1) / 16 == w / 16 && (w + 1) % 16 == w % 16 + 1;
    } else {
      var p := Pow16(j - 1);
      assert (w + 16 * p) / 16 == w / 16 + p && (w + 16 * p) % 16 == w % 16;
      SumIncrement(w / 16, j - 1, n - 1);
    }
  }

  /** The sum stays within the word. */
  lemma {:induction false} IncrementFits(w: nat, j: nat, n: nat)
    requires j < n && w < Pow16(n) && Nibble(w, j) < 15
    ensures w + Pow16(j) < Pow16(n)
  {
    if j > 0 {
      IncrementFits(w / 16, j - 1, n - 1);
    }
  }

  // ---------- Masks ----------

  lemma AndDouble(a: nat, b: nat, d: nat)
    requires d < 2
    ensures And(a, 2 * b + d) == 2 * And(a / 2, b) + (a % 2) * d
  {
    assert (2 * b + d) / 2 == b && (2 * b + d) % 2 == d;
    if a == 0 || 2 * b + d == 0 {
      assert And(a / 2, b) == 0;
    }
  }

  /** Bitwise conjunction works on the nibbles separately. */
  lemma AndNibble(a: nat, b: nat, c: nat)
    requires c < 16
    ensures And(a, 16 * b + c) == 16 * And(a / 16, b) + And(a % 16, c)
  {
    hide And, Low;
    AndLow(a, b, c);
    AndLow(a % 16, 0, c);
    AndZero((a % 16) / 16);
    assert a == 16 * (a / 16) + a % 16;
    LowDigit(a / 16, a % 16, c);
  }

  /** The conjunction of the last four bits. */
  function Low(a: nat, c: nat): nat {
    Bit(a, c) + 2 * Bit(a / 2, c / 2) + 4 * Bit(a / 4, c / 4) + 8 * Bit(a / 8, c / 8)
  }

  function Bit(a: nat, c: nat): nat {
    (a % 2) * (c % 2)
  }

  lemma LowDigit(q: nat, m: nat, c: nat)
    ensures Low(16 * q + m, c) == Low(m, c)
  {
    hide Bit;
    BitShift(q, 1, m, c);
    BitShift(q, 2, m, c / 2);
    BitShift(q, 4, m, c / 4);
    BitShift(q, 8, m, c / 8);
  }

  /** The last four bits do not depend on the rest. */
  lemma BitShift(q: nat, p: nat, m: nat, c: nat)
    requires p == 1 || p == 2 || p == 4 || p == 8
    ensures Bit((16 * q + m) / p, c) == Bit(m / p, c)
  {
    hide Bit;
    var h := if p == 1 then 8 else if p == 2 then 4 else if p == 4 then 2 else 1;
    assert 16 * q + m == (2 * h * q + m / p) * p + m % p;
    ModUnique(16 * q + m, p, 2 * h * q + m / p, m % p);
    var half, bit := m / p / 2, (m / p) % 2;
    assert 2 * h * q + m / p == (h * q + half) * 2 + bit;
    ModUnique(2 * h * q + m / p, 2, h * q + half, bit);
    BitSame((16 * q + m) / p, m / p, c);
  }

  lemma BitSame(a: nat, b: nat, c: nat)
    requires a % 2 == b % 2
    ensures Bit(a, c) == Bit(b, c)
  {
  }

  lemma AndBit(a: nat, c: nat)
    ensures And(a, c) == 2 * And(a / 2, c / 2) + Bit(a, c)
  {
    AndDouble(a, c / 2, c % 2);
  }

  lemma AndLow(a: nat, b: nat, c: nat)
    requires c < 16
    ensures And(a, 16 * b + c) == 16 * And(a / 16, b) + Low(a, c)
  {
    hide And, Bit;
    var e := 16 * b + c;
    assert (a / 2) / 2 == a / 4 && (a / 4) / 2 == a / 8 && (a / 8) / 2 == a / 16;
    assert e / 2 == 8 * b + c / 2 && e / 4 == 4 * b + c / 4 && e / 8 == 2 * b + c / 8 && (e / 8) / 2 == b;
    assert (e / 2) / 2 == e / 4 && (e / 4) / 2 == e / 8;
    AndBit(a, e);
    AndBit(a / 2, e / 2);
    AndBit(a / 4, e / 4);
    AndBit(a / 8, e / 8);
    BitLow(a, e, c);
    BitLow(a / 2, e / 2, c / 2);
    BitLow(a / 4, e / 4, c / 4);
    BitLow(a / 8, e / 8, c / 8);
  }

  lemma BitLow(a: nat, e: nat, c: nat)
    requires e % 2 == c % 2
    ensures Bit(a, e) == Bit(a, c)
  {
  }

  lemma AndZero(a: nat)
    ensures And(a, 0) == 0
  {
  }

  /** A counter is full exactly when masking it out of the word gives the mask. */
  lemma {:induction false} MaskTest(w: nat, j: nat)
    ensures And(w, 15 * Pow16(j)) == 15 * Pow16(j) <==> Nibble(w, j) == 15
  {
    if j == 0 {
      AndNibble(w, 0, 15);
      AndFifteen(w % 16);
    } else {
      AndNibble(w, 15 * Pow16(j - 1), 0);
      MaskTest(w / 16, j - 1);
    }
  }

  lemma AndFifteen(d: nat)
    requires d < 16
    ensures And(d, 15) == d && And(d, 7) == d % 8 && And(d, 1) == d % 2
  {
    hide And;
    assert IsPow2(16) && IsPow2(8) && IsPow2(2);
    AndMask(d, 16);
    AndMask(d, 8);
    AndMask(d, 2);
  }

  // ---------- Halving ----------

  function Repeated(d: nat, n: nat): nat {
    if n == 0 then 0 else 16 * Repeated(d, n - 1) + d
  }

  lemma MasksRepeat()
    ensures Repeated(7, 16) == RESET_MASK && Repeated(1, 16) == ONE_MASK && Pow16(16) == WORD_LIMIT
  {
    assert Repeated(7, 8) == 0x7777_7777 && Repeated(1, 8) == 0x1111_1111 && Pow16(8) == 0x1_0000_0000;
  }

  function OnesCount(w: nat): nat {
    if w == 0 then 0 else w % 2 + OnesCount(w / 2)
  }

  /** One shift and one mask halve every counter of the word independently. */
  lemma {:induction false} HalveNibbles(w: nat, n: nat, k: nat)
    requires k < n
    ensures Nibble(And(w / 2, Repeated(7, n)), k) == Nibble(w, k) / 2
  {
    HalveStep(w, n);
    if k > 0 {
      HalveNibbles(w / 16, n - 1, k - 1);
    }
  }

  lemma HalveStep(w: nat, n: nat)
    requires n > 0
    ensures And(w / 2, Repeated(7, n)) % 16 == (w % 16) / 2
    ensures And(w / 2, Repeated(7, n)) / 16 == And((w / 16) / 2, Repeated(7, n - 1))
  {
    hide And;
    AndNibble(w / 2, Repeated(7, n - 1), 7);
    AndFifteen((w / 2) % 16);
    HalveDigit(w);
  }

  lemma HalveDigit(w: nat)
    ensures (w / 2) / 16 == (w / 16) / 2 && ((w / 2) % 16) % 8 == (w % 16) / 2
  {
    var q, r := w / 16, w % 16;
    assert w / 2 == 8 * q + r / 2;
  }

  /** What halving loses are the odd counters, which the count of masked bits finds. */
  lemma {:induction false} HalveSum(w: nat, n: nat)
    ensures 2 * NibbleSum(And(w / 2, Repeated(7, n)), n) + OnesCount(And(w, Repeated(1, n))) == NibbleSum(w, n)
  {
    hide And, OnesCount;
    if n == 0 {
      AndZero(w);
      OnesZero();
    } else {
      HalveStep(w, n);
      HalveSum(w / 16, n - 1);
      OddStep(w, n);
    }
  }

  lemma OnesZero()
    ensures OnesCount(0) == 0
  {
  }

  lemma OddStep(w: nat, n: nat)
    requires n > 0
    ensures OnesCount(And(w, Repeated(1, n))) == OnesCount(And(w / 16, Repeated(1, n - 1))) + (w % 16) % 2
  {
    hide And, OnesCount;
    AndNibble(w, Repeated(1, n - 1), 1);
    AndFifteen(w % 16);
    OnesNibble(And(w / 16, Repeated(1, n - 1)), (w % 16) % 2);
  }

  lemma OnesNibble(a: nat, d: nat)
    requires d < 2
    ensures OnesCount(16 * a + d) == OnesCount(a) + d
  {
    hide OnesCount;
    OnesDouble(8 * a, d);
    OnesDouble(4 * a, 0);
    OnesDouble(2 * a, 0);
    OnesDouble(a, 0);
  }

  lemma OnesDouble(a: nat, d: nat)
    requires d < 2
    ensures OnesCount(2 * a + d) == OnesCount(a) + d
  {
    assert (2 * a + d) / 2 == a && (2 * a + d) % 2 == d;
  }
}

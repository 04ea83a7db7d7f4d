/** Powers of two, bits, and the facts about products and quotients that modules share. */
module Arithmetic {

  lemma {:induction false} Scale(i: nat, x: nat, y: nat)
    ensures x < y ==> i * x + i <= i * y
    decreases y
  {
    if x < y {
      assert i * y == i * (y - 1) + i;
      Scale(i, x, y - 1);
    }
  }

  /** Quotient and remainder are the only pair there is. */
  lemma Division(m: nat, i: nat, q: nat, r: nat)
    requires i > 0 && r < i && m == i * q + r
    ensures m / i == q && m % i == r
  {
    Scale(i, m / i, q);
    Scale(i, q, m / i);
  }

  function Pow2(n: nat): (p: nat)
    ensures p > 0
  {
    if n == 0 then 1 else 2 * Pow2(n - 1)
  }

  /** Bit `i` of a number. */
  predicate BitSet(v: nat, i: nat) { v / Pow2(i) % 2 == 1 }

  /** Cutting a number at a power of two leaves its upper bits where they were. */
  lemma {:induction false} UpperBit(high: nat, low: nat, k: nat, i: nat)
    requires low < Pow2(k) && i >= k
    ensures BitSet(high * Pow2(k) + low, i) <==> BitSet(high, i - k)
    decreases i
  {
    hide BitSet;
    if k > 0 {
      HalfOf(high, low, k);
      Halved(high * Pow2(k) + low, i);
      UpperBit(high, low / 2, k - 1, i - 1);
    } else {
      assert low == 0 && high * Pow2(0) == high;
    }
  }

  /** Halving the whole halves the part below the cut. */
  lemma HalfOf(high: nat, low: nat, k: nat)
    requires k > 0
    ensures (high * Pow2(k) + low) / 2 == high * Pow2(k - 1) + low / 2 && (high * Pow2(k) + low) % 2 == low % 2
  {
    var p := Pow2(k - 1);
    Twice(high, p);
    Division(high * Pow2(k) + low, 2, high * p + low / 2, low % 2);
  }

  lemma Twice(h: nat, p: nat)
    ensures h * (2 * p) == 2 * (h * p)
  {
  }

  /** And its lower bits what the low part has. */
  lemma {:induction false} LowerBit(high: nat, low: nat, k: nat, i: nat)
    requires low < Pow2(k) && i < k
    ensures BitSet(high * Pow2(k) + low, i) <==> BitSet(low, i)
    decreases i
  {
    HalfOf(high, low, k);
    if i > 0 {
      hide BitSet;
      Halved(high * Pow2(k) + low, i);
      Halved(low, i);
      LowerBit(high, low / 2, k - 1, i - 1);
    } else {
      LowestBit(high * Pow2(k) + low);
      LowestBit(low);
    }
  }

  lemma LowestBit(v: nat)
    ensures BitSet(v, 0) <==> v % 2 == 1
  {
  }

  lemma Halved(v: nat, i: nat)
    requires i > 0
    ensures BitSet(v, i) <==> BitSet(v / 2, i - 1)
  {
    var p, q := Pow2(i - 1), v / 2;
    Division(q, p, q / p, q % p);
    assert v == 2 * (p * (q / p) + q % p) + v % 2 == (2 * p) * (q / p) + (2 * (q % p) + v % 2);
    Division(v, 2 * p, q / p, 2 * (q % p) + v % 2);
  }
}

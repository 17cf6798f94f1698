/** Powers of two, single bits and the bit-reversal permutation the
    transform's first pass applies, with the facts the transform needs:
    the reversal stays in range and undoes itself. */
module Bits {

  function Pow2(t: nat): (r: nat)
    ensures 0 < r
  {
    if t == 0 then 1 else 2 * Pow2(t - 1)
  }

  /** `(x >> t) & 1`. */
  function Bit(x: nat, t: nat): (r: nat)
    ensures r < 2
  {
    if t == 0 then x % 2 else Bit(x / 2, t - 1)
  }

  /** The value of `j` after `b` rounds of `j = (j << 1) | ((i >> bit) & 1)`
      for `bit = 0 .. b-1`: the low `b` bits of `i` in reverse order. The
      shifted value is even, so the `|` is an addition. */
  function Reverse(i: nat, b: nat): nat {
    if b == 0 then 0 else 2 * Reverse(i, b - 1) + Bit(i, b - 1)
  }

  /** `n` is `2^levels` for a whole `levels` (`Math.log2(n)` is exact). */
  predicate IsPow2(n: nat)
    decreases n
  {
    if n <= 1 then n == 1 else n % 2 == 0 && IsPow2(n / 2)
  }

  /** Exact base-2 logarithm of a power of two. */
  function Log2(n: nat): (t: nat)
    requires IsPow2(n)
    ensures Pow2(t) == n
    decreases n
  {
    if n == 1 then 0 else 1 + Log2(n / 2)
  }

  /** Every `2^t` is a power of two with logarithm `t`. */
  lemma {:induction false} Pow2IsPow2(t: nat)
    ensures IsPow2(Pow2(t))
    ensures Log2(Pow2(t)) == t
  {
    if t > 0 {
      Pow2IsPow2(t - 1);
      assert Pow2(t) / 2 == Pow2(t - 1);
    }
  }

  lemma {:induction false} Pow2Mono(s: nat, t: nat)
    requires s <= t
    ensures Pow2(s) <= Pow2(t)
    ensures s < t ==> 2 * Pow2(s) <= Pow2(t)
  {
    if s < t {
      Pow2Mono(s, t - 1);
    }
  }

  /** Powers of two are ordered as their exponents are. */
  lemma Pow2Below(s: nat, t: nat)
    requires Pow2(s) <= Pow2(t)
    ensures s <= t
  {
    if t < s {
      Pow2Mono(t, s);
    }
  }

  /** Powers of two determine their exponents. */
  lemma Pow2Injective(s: nat, t: nat)
    requires Pow2(s) == Pow2(t)
    ensures s == t
  {
    if s < t {
      Pow2Mono(s, t);
    } else if t < s {
      Pow2Mono(t, s);
    }
  }

  /** A power of two not exceeding another divides it exactly. */
  lemma {:induction false} Pow2Divides(s: nat, t: nat)
    requires s <= t
    ensures Pow2(t) % Pow2(s) == 0
    ensures Pow2(t) / Pow2(s) == Pow2(t - s)
  {
    if s < t {
      Pow2Divides(s, t - 1);
      MulDiv(Pow2(t - 1 - s) * 2, Pow2(s));
      assert Pow2(t) == Pow2(t - 1 - s) * 2 * Pow2(s);
    } else {
      MulDiv(1, Pow2(s));
    }
  }

  /** `2^a · 2^b = 2^(a+b)`. */
  lemma {:induction false} Pow2Add(a: nat, b: nat)
    ensures Pow2(a) * Pow2(b) == Pow2(a + b)
  {
    if a > 0 {
      Pow2Add(a - 1, b);
      assert Pow2(a) * Pow2(b) == 2 * (Pow2(a - 1) * Pow2(b));
    }
  }

  lemma MulBound(s: int, k: int)
    requires 0 < s && 0 < k
    ensures s <= s * k
  {
  }

  /** Euclidean division of `m * size + r` recovers the block and offset. */
  lemma DivModBlock(m: nat, size: nat, r: nat)
    requires 0 < size && r < size
    ensures (m * size + r) / size == m
    ensures (m * size + r) % size == r
  {
    var x := m * size + r;
    var q := x / size;
    assert x == size * q + x % size;
    if q > m {
      MulBound(size, q - m);
    } else if q < m {
      MulBound(size, m - q);
    }
  }

  lemma MulDiv(m: nat, size: nat)
    requires 0 < size
    ensures (m * size) / size == m && (m * size) % size == 0
  {
    DivModBlock(m, size, 0);
  }

  /** Appending a low bit shifts the existing bits up by one place. */
  lemma BitOfDouble(y: nat, c: nat, t: nat)
    requires c < 2
    ensures Bit(2 * y + c, 0) == c
    ensures Bit(2 * y + c, t + 1) == Bit(y, t)
  {
    assert (2 * y + c) / 2 == y;
  }

  lemma {:induction false} ReverseBound(i: nat, b: nat)
    ensures Reverse(i, b) < Pow2(b)
  {
    if b > 0 {
      ReverseBound(i, b - 1);
    }
  }

  /** Bit `t` of the reversal is bit `b-1-t` of the original. */
  lemma {:induction false} ReverseBit(i: nat, b: nat, t: nat)
    requires t < b
    ensures Bit(Reverse(i, b), t) == Bit(i, b - 1 - t)
  {
    BitOfDouble(Reverse(i, b - 1), Bit(i, b - 1), if t == 0 then 0 else t - 1);
    if t > 0 {
      ReverseBit(i, b - 1, t - 1);
    }
  }

  /** Two numbers below `2^b` that agree on their low `b` bits are equal. */
  lemma {:induction false} BitsDetermine(x: nat, y: nat, b: nat)
    requires x < Pow2(b) && y < Pow2(b)
    requires forall t :: 0 <= t < b ==> Bit(x, t) == Bit(y, t)
    ensures x == y
  {
    if b > 0 {
      assert Bit(x, 0) == Bit(y, 0);
      forall t | 0 <= t < b - 1
        ensures Bit(x / 2, t) == Bit(y / 2, t)
      {
        assert Bit(x, t + 1) == Bit(y, t + 1);
      }
      BitsDetermine(x / 2, y / 2, b - 1);
    }
  }

  /** Reversing the low `b` bits twice gives back any `i < 2^b`. */
  lemma ReverseInvolution(i: nat, b: nat)
    requires i < Pow2(b)
    ensures Reverse(Reverse(i, b), b) == i
  {
    var j := Reverse(i, b);
    forall t | 0 <= t < b
      ensures Bit(Reverse(j, b), t) == Bit(i, t)
    {
      ReverseBit(j, b, t);
      ReverseBit(i, b, b - 1 - t);
    }
    ReverseBound(i, b);
    ReverseBound(j, b);
    BitsDetermine(Reverse(j, b), i, b);
  }
}

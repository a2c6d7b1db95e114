/** Bitwise AND on natural numbers, and what a prefix mask does to a number. */
module Bits {

  function Pow2(k: nat): (r: nat)
    ensures r >= 1
  {
    if k == 0 then 1 else 2 * Pow2(k - 1)
  }

  function And(x: nat, y: nat): nat
    decreases x
  {
    if x == 0 then 0 else 2 * And(x / 2, y / 2) + if x % 2 == 1 && y % 2 == 1 then 1 else 0
  }

  lemma {:induction false} Pow2Add(a: nat, b: nat)
    ensures Pow2(a + b) == Pow2(a) * Pow2(b)
  {
    if a > 0 {
      Pow2Add(a - 1, b);
      assert 2 * (Pow2(a - 1) * Pow2(b)) == (2 * Pow2(a - 1)) * Pow2(b);
    }
  }

  lemma Pow2Small()
    ensures Pow2(1) == 2 && Pow2(2) == 4 && Pow2(3) == 8 && Pow2(4) == 16
    ensures Pow2(5) == 32 && Pow2(6) == 64 && Pow2(7) == 128 && Pow2(8) == 256
  {
  }

  lemma {:induction false} Pow2Grows(a: nat, b: nat)
    requires a < b
    ensures Pow2(a) < Pow2(b)
  {
    if a > 0 {
      Pow2Grows(a - 1, b - 1);
    }
  }

  lemma Scale(m: int, d: nat, size: nat)
    ensures (m + d) * size == m * size + d * size && d * size >= 0
  {
  }

  /** Multiples of size step over one another. */
  lemma StepOver(m: int, n: int, size: nat)
    requires size > 0
    ensures m < n ==> m * size + size <= n * size
    ensures m >= n ==> m * size >= n * size
  {
    if m < n {
      Scale(m + 1, n - m - 1, size);
    } else {
      Scale(n, m - n, size);
    }
  }

  lemma DivMod(x: int, m: nat, q: int, r: int)
    requires m > 0 && x == q * m + r && 0 <= r < m
    ensures x / m == q && x % m == r
  {
    assert x == (x / m) * m + x % m;
    StepOver(x / m, q, m);
    StepOver(q, x / m, m);
  }

  /** The remainder by a multiple of m, from the remainder of the quotient. */
  lemma ModProduct(x: nat, a: nat, m: nat)
    requires a > 0 && m > 0
    ensures a * m > 0 && x % (a * m) == (x / a) % m * a + x % a
  {
    var q := x / a;
    var r := q % m * a + x % a;
    assert q == (q / m) * m + q % m;
    assert x == q * a + x % a;
    assert q * a == (q / m) * m * a + q % m * a;
    assert (q / m) * m * a == (q / m) * (a * m);
    assert x == (q / m) * (a * m) + r;
    assert 0 <= q % m <= m - 1;
    assert q % m * a <= (m - 1) * a;
    assert (m - 1) * a + a == a * m;
    DivMod(x, a * m, q / m, r);
  }

  lemma {:induction false} AndOnes(x: nat, w: nat)
    requires x < Pow2(w)
    ensures And(x, Pow2(w) - 1) == x
  {
    if x > 0 {
      DivMod(Pow2(w) - 1, 2, Pow2(w - 1) - 1, 1);
      AndOnes(x / 2, w - 1);
    }
  }

  /** Masking off the low k of w bits rounds down to a multiple of 2^k. */
  lemma {:induction false} AndMask(x: nat, w: nat, k: nat)
    requires k <= w && x < Pow2(w)
    ensures Pow2(k) <= Pow2(w)
    ensures And(x, Pow2(w) - Pow2(k)) == x - x % Pow2(k)
  {
    if k == 0 {
      AndOnes(x, w);
    } else {
      AndMask(x / 2, w - 1, k - 1);
      var mask := Pow2(w) - Pow2(k);
      DivMod(mask, 2, Pow2(w - 1) - Pow2(k - 1), 0);
      ModProduct(x, 2, Pow2(k - 1));
    }
  }

  lemma HalfOfSum(y: nat, half: nat)
    ensures (y + 2 * half) / 2 == y / 2 + half && (y + 2 * half) % 2 == y % 2
  {
  }

  lemma TwiceHalf(z: nat, half: nat)
    ensures z * (2 * half) == 2 * (z * half)
  {
  }

  /** Bits of the mask above those of x do not matter. */
  lemma {:induction false} AndLowBits(x: nat, y: nat, z: nat, w: nat)
    requires x < Pow2(w)
    ensures And(x, y + z * Pow2(w)) == And(x, y)
  {
    if x > 0 {
      var half := z * Pow2(w - 1);
      assert x / 2 < Pow2(w - 1) && z * Pow2(w) == 2 * half by {
        TwiceHalf(z, Pow2(w - 1));
      }
      AndLowBits(x / 2, y / 2, z, w - 1);
      hide Pow2;
      HalfOfSum(y, half);
    }
  }
}

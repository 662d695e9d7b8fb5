/** Powers of two, as the shifts `1 << n`, `x << n` and `x >> n` use them. */
module Pow2Math {

  function Pow2(n: nat): (r: nat)
    ensures r > 0
  {
    if n == 0 then 1 else 2 * Pow2(n - 1)
  }

  lemma {:induction false} Pow2Add(a: nat, b: nat)
    ensures Pow2(a + b) == Pow2(a) * Pow2(b)
    decreases a
  {
    if a > 0 {
      Pow2Add(a - 1, b);
      assert Pow2(a + b) == 2 * Pow2(a - 1 + b);
      assert 2 * (Pow2(a - 1) * Pow2(b)) == (2 * Pow2(a - 1)) * Pow2(b);
    }
  }

  lemma {:induction false} Pow2Mono(a: nat, b: nat)
    requires a <= b
    ensures Pow2(a) <= Pow2(b)
    decreases b
  {
    if a < b { Pow2Mono(a, b - 1); }
  }

  lemma MulStep(a: nat, b: nat, d: nat)
    requires a < b
    ensures a * d + d <= b * d
  {
    assert b * d == (b - a - 1) * d + (a * d + d);
  }

  lemma EuclidUnique(q: nat, r: nat, p: nat, s: nat, d: nat)
    requires r < d && s < d && q * d + r == p * d + s
    ensures q == p && r == s
  {
    if p < q {
      MulStep(p, q, d);
    } else if q < p {
      MulStep(q, p, d);
    }
  }

  /** Quotient and remainder are determined by q * d + r with r < d. */
  lemma DivMod(q: nat, r: nat, d: nat)
    requires r < d
    ensures (q * d + r) / d == q && (q * d + r) % d == r
  {
    var x := q * d + r;
    EuclidUnique(x / d, x % d, q, r, d);
  }

  /** Adding a multiple of d. */
  lemma AddMultiple(a: nat, x: nat, d: nat)
    requires d > 0 && a % d == 0
    ensures (a + x) / d == a / d + x / d && (a + x) % d == x % d
  {
    Split(a, d);
    Split(x, d);
    SumOfMultiples(a / d, x / d, x % d, d);
  }

  lemma Split(x: nat, d: nat)
    requires d > 0
    ensures x == x / d * d + x % d && x % d < d
  {
  }

  lemma SumOfMultiples(p: nat, q: nat, r: nat, d: nat)
    requires r < d
    ensures (p * d + (q * d + r)) / d == p + q && (p * d + (q * d + r)) % d == r
  {
    assert p * d + (q * d + r) == (p + q) * d + r;
    DivMod(p + q, r, d);
  }

  lemma DivMono(x: nat, y: nat, d: nat)
    requires d > 0 && x <= y
    ensures x / d <= y / d
  {
    if y / d < x / d { MulStep(y / d, x / d, d); }
  }

  /** Reducing modulo a multiple of n first changes nothing modulo n. */
  lemma ModMod(x: nat, n: nat, k: nat)
    requires n > 0 && k > 0
    ensures n * k > 0 && (x % (n * k)) % n == x % n
  {
    MulStep(0, k, n);
    var y, q := x % (n * k), x / (n * k);
    Split(x, n * k);
    Split(y, n);
    MulSwap(q, n, k);
    SumOfMultiples(q * k, y / n, y % n, n);
  }

  lemma MulSwap(q: nat, n: nat, k: nat)
    ensures q * (n * k) == (q * k) * n
  {
  }

  lemma MulBelow(q: nat, k: nat, r: nat, d: nat)
    requires q < k && r < d
    ensures q * d + r < k * d
  {
    MulStep(q, k, d);
  }

  lemma DivBelow(x: nat, k: nat, d: nat)
    requires d > 0 && x < k * d
    ensures x / d < k && x == x / d * d + x % d
  {
    if k < x / d {
      MulStep(k, x / d, d);
    }
  }

  const WORD: nat := 0x1_0000_0000_0000_0000

  /** Arithmetic of machine words. */
  function Wrap(x: int): nat { x % WORD }

  lemma Pow2Word()
    ensures Pow2(64) == WORD
  {
    assert Pow2(8) == 256;
    Pow2Add(8, 8);
    Pow2Add(16, 16);
    Pow2Add(32, 32);
  }

  /** A power of two no larger than a machine word divides it. */
  lemma DividesWord(e: nat) returns (k: nat)
    requires e <= 64
    ensures k > 0 && Pow2(e) * k == WORD
  {
    hide Pow2;
    Pow2Word();
    Pow2Add(e, 64 - e);
    k := Pow2(64 - e);
  }
}

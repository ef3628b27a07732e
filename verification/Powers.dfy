/** Facts about products that the solver does not find in the middle of a proof. */
module Arithmetic {

  lemma {:induction false} MulMono(a: int, b: int, p: nat)
    requires a <= b
    ensures a * p <= b * p
  {
  }
}

/** Powers of two and the floor of the binary logarithm. */
module Powers {

  function Pow2(n: nat): (r: nat)
    ensures r >= 1
  {
    if n == 0 then 1 else 2 * Pow2(n - 1)
  }

  /** The number of times a positive number can be halved before it reaches one. */
  function Log2(n: nat): (r: nat)
    requires n > 0
  {
    if n < 2 then 0 else 1 + Log2(n / 2)
  }

  lemma {:induction false} Log2Bounds(n: nat)
    requires n > 0
    ensures Pow2(Log2(n)) <= n < 2 * Pow2(Log2(n))
  {
    if n >= 2 {
      Log2Bounds(n / 2);
    }
  }

  lemma {:induction false} Pow2Monotone(a: nat, b: nat)
    requires a <= b
    ensures Pow2(a) <= Pow2(b)
    decreases b - a
  {
    if a < b {
      Pow2Monotone(a, b - 1);
    }
  }

  lemma {:induction false} Pow2Four(n: nat)
    ensures Pow2(n + 4) == 16 * Pow2(n)
  {
    assert Pow2(n + 4) == 2 * Pow2(n + 3) == 4 * Pow2(n + 2) == 8 * Pow2(n + 1);
  }

  lemma {:induction false} Pow2Eight(n: nat)
    ensures Pow2(n + 8) == 256 * Pow2(n)
  {
    Pow2Four(n);
    Pow2Four(n + 4);
  }

  lemma {:induction false} Pow2Sixteen(n: nat)
    ensures Pow2(n + 16) == 0x1_0000 * Pow2(n)
  {
    Pow2Eight(n);
    Pow2Eight(n + 8);
  }

  lemma {:induction false} Pow2ThirtyTwo(n: nat)
    ensures Pow2(n + 32) == 0x1_0000_0000 * Pow2(n)
  {
    Pow2Sixteen(n);
    Pow2Sixteen(n + 16);
  }

  /** The powers that stand just below the 32-bit and the 64-bit word. */
  lemma {:induction false} Pow2Of31(n: nat)
    requires n == 31
    ensures Pow2(n) == 0x8000_0000
  {
    Pow2Sixteen(n - 16);
    Pow2Eight(n - 24);
    Pow2Four(n - 28);
    assert Pow2(n - 28) == 8;
  }

  lemma {:induction false} Pow2Of63(n: nat)
    requires n == 63
    ensures Pow2(n) == 0x8000_0000_0000_0000
  {
    Pow2ThirtyTwo(n - 32);
    Pow2Of31(n - 32);
  }

  lemma {:induction false} Pow2Less(a: nat, b: nat)
    requires Pow2(a) < Pow2(b)
    ensures a < b
  {
    if b <= a {
      Pow2Monotone(b, a);
    }
  }

  lemma {:induction false} Log2AtLeast(n: nat, k: nat)
    requires n >= Pow2(k)
    ensures n > 0 && Log2(n) >= k
  {
    Log2Bounds(n);
    if Log2(n) < k {
      Pow2Monotone(Log2(n) + 1, k);
    }
  }

  lemma {:induction false} Pow2Add(a: nat, b: nat)
    ensures Pow2(a + b) == Pow2(a) * Pow2(b)
  {
    if a > 0 {
      Pow2Add(a - 1, b);
      assert Pow2(a + b) == 2 * Pow2(a - 1 + b);
      assert Pow2(a) * Pow2(b) == 2 * (Pow2(a - 1) * Pow2(b));
    }
  }
}

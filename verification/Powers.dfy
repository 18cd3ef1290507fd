/** Powers of two, remainders, and 64-bit integers as numbers. */
module Powers {

  function Pow2(n: nat): (r: nat)
    ensures r > 0
  {
    if n == 0 then 1 else 2 * Pow2(n - 1)
  }

  const TWO63: int := 0x8000_0000_0000_0000
  const TWO64: int := 0x1_0000_0000_0000_0000

  lemma {:induction false} Pow2Add(m: nat, n: nat)
    ensures Pow2(m + n) == Pow2(m) * Pow2(n)
    decreases n
  {
    if n > 0 {
      Pow2Add(m, n - 1);
      assert Pow2(m) * (2 * Pow2(n - 1)) == 2 * (Pow2(m) * Pow2(n - 1));
    }
  }

  lemma {:induction false} Pow2Grows(m: nat, n: nat)
    requires m <= n
    ensures Pow2(m) <= Pow2(n)
    decreases n
  {
    if m < n { Pow2Grows(m, n - 1); }
  }

  lemma Pow2Is64()
    ensures Pow2(63) == TWO63 && Pow2(64) == TWO64
  {
    assert Pow2(4) == 16;
    Pow2Add(4, 4);
    Pow2Add(8, 8);
    Pow2Add(16, 16);
    Pow2Add(32, 32);
    assert Pow2(64) == 2 * Pow2(63);
  }

  lemma Multiple(k: int, p: int)
    requires p > 0 && k != 0
    ensures k * p >= p || k * p <= -p
  {
  }

  /** Quotient and remainder are what they have to be. */
  lemma DivModUnique(x: int, p: int, q: int, r: int)
    requires p > 0 && x == q * p + r && 0 <= r < p
    ensures x / p == q && x % p == r
  {
    var d := x / p - q;
    assert x == (x / p) * p + x % p;
    assert d * p == (x / p) * p - q * p;
    if d != 0 { Multiple(d, p); }
  }

  lemma Split(x: int, p: int)
    requires p > 0
    ensures x == (x / p) * p + x % p && 0 <= x % p < p
  {
  }

  /** The remainder modulo a divisor does not see the multiple. */
  lemma ModProduct(x: int, p: int, k: int)
    requires p > 0 && k > 0 && p * k > 0
    ensures (x % (p * k)) % p == x % p
  {
    var q, r := x / (p * k), x % (p * k);
    Split(x, p * k);
    Split(r, p);
    Gather(q, k, p, r / p);
    DivModUnique(x, p, q * k + r / p, r % p);
  }

  lemma Gather(q: int, k: int, p: int, s: int)
    ensures q * (p * k) + s * p == (q * k + s) * p
  {
  }

  lemma ModMod(x: int, m: nat, n: nat)
    requires m <= n
    ensures (x % Pow2(n)) % Pow2(m) == x % Pow2(m)
  {
    Pow2Add(m, n - m);
    ModProduct(x, Pow2(m), Pow2(n - m));
  }

  // -------------------------------------------------------------- 64-bit integers

  predicate IsU64(x: int) { 0 <= x < TWO64 }
  predicate IsI64(x: int) { -TWO63 <= x < TWO63 }

  /** The number an unsigned 64-bit register holds after `x` was stored in it. */
  function ToU64(x: int): (u: nat)
    ensures IsU64(u) && (IsU64(x) ==> u == x)
  {
    x % TWO64
  }

  /** The same for a signed register, in two's complement. */
  function ToI64(x: int): (i: int)
    ensures IsI64(i) && (IsI64(x) ==> i == x)
  {
    var u := x % TWO64;
    if u < TWO63 then u else u - TWO64
  }
}

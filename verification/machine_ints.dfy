/**
 Fixed-width integers of the C++ program, modelled on unbounded `int`.

 Every narrowing `static_cast` and every unsigned subtraction the model needs is written
 out here as an explicit reduction modulo a power of two, and two's complement is
 spelled out for the signed fields that the binary formats store.
 */
module MachineInts {

  const TWO_7: int := 0x80
  const TWO_8: int := 0x100
  const TWO_15: int := 0x8000
  const TWO_16: int := 0x1_0000
  const TWO_31: int := 0x8000_0000
  const TWO_32: int := 0x1_0000_0000
  const TWO_63: int := 0x8000_0000_0000_0000
  const TWO_64: int := 0x1_0000_0000_0000_0000

  predicate IsU8(x: int) { 0 <= x < TWO_8 }
  predicate IsU16(x: int) { 0 <= x < TWO_16 }
  predicate IsU32(x: int) { 0 <= x < TWO_32 }
  predicate IsI8(x: int) { -TWO_7 <= x < TWO_7 }
  predicate IsI16(x: int) { -TWO_15 <= x < TWO_15 }
  predicate IsI32(x: int) { -TWO_31 <= x < TWO_31 }
  predicate IsI64(x: int) { -TWO_63 <= x < TWO_63 }

  /** Conversion to an unsigned type of `bits` bits: the representative of x modulo 2^bits. */
  function Wrap(x: int, modulus: int): (r: int)
    requires modulus > 0
    ensures 0 <= r < modulus
    ensures 0 <= x < modulus ==> r == x
    ensures (x - r) % modulus == 0
  {
    var r := x % modulus;
    DivModUnique(x - r, modulus, x / modulus, 0);
    r
  }

  /** `static_cast<std::uint8_t>` */
  function ToU8(x: int): (r: int)
    ensures IsU8(r) && (IsU8(x) ==> r == x) && (x - r) % TWO_8 == 0
  {
    Wrap(x, TWO_8)
  }

  /** `static_cast<std::uint16_t>` */
  function ToU16(x: int): (r: int)
    ensures IsU16(r) && (IsU16(x) ==> r == x) && (x - r) % TWO_16 == 0
  {
    Wrap(x, TWO_16)
  }

  /** `static_cast<std::uint32_t>`, and the result of uint32 arithmetic */
  function ToU32(x: int): (r: int)
    ensures IsU32(r) && (IsU32(x) ==> r == x) && (x - r) % TWO_32 == 0
  {
    Wrap(x, TWO_32)
  }

  /** `static_cast<std::int16_t>` (two's complement wrap-around, as C++20 defines it) */
  function ToI16(x: int): (r: int)
    ensures IsI16(r) && (IsI16(x) ==> r == x) && (x - r) % TWO_16 == 0
  {
    Wrap(x + TWO_15, TWO_16) - TWO_15
  }

  /** `static_cast<std::int32_t>` */
  function ToI32(x: int): (r: int)
    ensures IsI32(r) && (IsI32(x) ==> r == x) && (x - r) % TWO_32 == 0
  {
    Wrap(x + TWO_31, TWO_32) - TWO_31
  }

  /** The unsigned bit pattern of a signed value of the given width (two's complement). */
  function Unsigned(x: int, modulus: int): (u: int)
    requires modulus > 1 && modulus % 2 == 0
    requires -(modulus / 2) <= x < modulus / 2
    ensures 0 <= u < modulus && (u - x) % modulus == 0
  {
    if x < 0 then x + modulus else x
  }

  /** The signed value of an unsigned bit pattern of the given width (two's complement). */
  function Signed(u: int, modulus: int): (x: int)
    requires modulus > 1 && modulus % 2 == 0
    requires 0 <= u < modulus
    ensures -(modulus / 2) <= x < modulus / 2 && (u - x) % modulus == 0
  {
    if u >= modulus / 2 then u - modulus else u
  }

  lemma SignedUnsigned(x: int, modulus: int)
    requires modulus > 1 && modulus % 2 == 0
    requires -(modulus / 2) <= x < modulus / 2
    ensures Signed(Unsigned(x, modulus), modulus) == x
  {
  }

  function Pow2(n: nat): (p: nat)
    ensures p >= 1
  {
    if n == 0 then 1 else 2 * Pow2(n - 1)
  }

  lemma {:induction false} Pow2Add(a: nat, b: nat)
    ensures Pow2(a + b) == Pow2(a) * Pow2(b)
  {
    if a > 0 {
      Pow2Add(a - 1, b);
    }
  }

  lemma Pow2Values()
    ensures Pow2(6) == 64 && Pow2(8) == TWO_8 && Pow2(16) == TWO_16
    ensures Pow2(32) == TWO_32 && Pow2(64) == TWO_64
  {
    assert Pow2(2) == 4;
    assert Pow2(4) == 16;
    assert Pow2(6) == 64;
    assert Pow2(8) == 256;
    Pow2Add(8, 8);
    Pow2Add(16, 16);
    Pow2Add(32, 32);
  }

  /** Bitwise AND of two non-negative integers, bit by bit from the least significant. */
  function BitAnd(a: nat, b: nat): nat
  {
    if a == 0 then 0 else 2 * BitAnd(a / 2, b / 2) + (a % 2) * (b % 2)
  }

  lemma {:induction false} AndZero(a: nat)
    ensures BitAnd(a, 0) == 0
  {
    if a != 0 {
      AndZero(a / 2);
    }
  }

  /** Bit `k` of `a` is set. */
  predicate BitSet(a: nat, k: nat)
  {
    (a / Pow2(k)) % 2 == 1
  }

  lemma {:induction false} AndAllOnes(u: nat, n: nat)
    requires u < Pow2(n)
    ensures BitAnd(u, Pow2(n) - 1) == u
  {
    if u != 0 {
      assert n > 0;
      var m := Pow2(n) - 1;
      assert m / 2 == Pow2(n - 1) - 1 && m % 2 == 1;
      AndAllOnes(u / 2, n - 1);
    }
  }

  lemma ModPow2Step(u: nat, k: nat)
    requires k > 0
    ensures u % Pow2(k) == 2 * ((u / 2) % Pow2(k - 1)) + u % 2
  {
    var p := Pow2(k - 1);
    var q := (u / 2) / p;
    var r := (u / 2) % p;
    assert u / 2 == q * p + r;
    assert u == q * (2 * p) + (2 * r + u % 2);
    assert 0 <= 2 * r + u % 2 < 2 * p;
    DivModUnique(u, 2 * p, q, 2 * r + u % 2);
  }

  /** Euclidean division is determined by quotient and remainder. */
  lemma DivModUnique(a: int, m: int, q: int, r: int)
    requires m > 0 && 0 <= r < m && a == q * m + r
    ensures a % m == r && a / m == q
  {
    var q' := a / m;
    var r' := a % m;
    assert a == q' * m + r';
    var d := q' - q;
    assert d * m == r - r' by {
      assert d * m == q' * m - q * m;
    }
    if d > 0 {
      MulAtLeast(d, m);
    } else if d < 0 {
      MulAtLeast(-d, m);
    }
  }

  lemma MulAtLeast(d: int, m: int)
    requires d >= 1 && m > 0
    ensures d * m >= m
  {
    assert d * m == (d - 1) * m + m;
    assert (d - 1) * m >= 0;
  }

  lemma Pow2Monotone(k: nat, n: nat)
    requires k <= n
    ensures Pow2(k) <= Pow2(n)
  {
  }

  lemma AndEvenMask(u: nat, m: nat)
    requires u != 0 && m % 2 == 0
    ensures BitAnd(u, m) == 2 * BitAnd(u / 2, m / 2)
  {
  }

  lemma HighMaskHalf(n: nat, k: nat)
    requires 1 <= k <= n
    ensures Pow2(k) <= Pow2(n) && Pow2(k - 1) <= Pow2(n - 1)
    ensures (Pow2(n) - Pow2(k)) % 2 == 0
    ensures (Pow2(n) - Pow2(k)) / 2 == Pow2(n - 1) - Pow2(k - 1)
  {
    Pow2Monotone(k, n);
    Pow2Monotone(k - 1, n - 1);
  }

  /**
   Clearing the low `k` bits of a `n`-bit pattern with the mask `2^n - 2^k`
   (the bit pattern of `-2^k` in two's complement) subtracts its residue modulo `2^k`.
   */
  lemma {:induction false} AndHighMask(u: nat, n: nat, k: nat)
    requires k <= n && u < Pow2(n)
    ensures Pow2(k) <= Pow2(n) && BitAnd(u, Pow2(n) - Pow2(k)) == u - u % Pow2(k)
  {
    if k == 0 {
      AndAllOnes(u, n);
      Pow2Monotone(k, n);
      assert Pow2(k) == 1;
      assert u % 1 == 0;
    } else if u == 0 {
      Pow2Monotone(k, n);
    } else {
      HalfBelow(u, n);
      AndHighMask(u / 2, n - 1, k - 1);
      AndHighMaskStep(u, n, k);
    }
  }

  lemma HalfBelow(u: nat, n: nat)
    requires 1 <= n && u < Pow2(n)
    ensures u / 2 < Pow2(n - 1) && Pow2(n - 1) <= Pow2(n)
  {
  }

  lemma AndHighMaskStep(u: nat, n: nat, k: nat)
    requires 1 <= k <= n && u != 0
    requires Pow2(k - 1) <= Pow2(n - 1)
    requires BitAnd(u / 2, Pow2(n - 1) - Pow2(k - 1)) == u / 2 - (u / 2) % Pow2(k - 1)
    ensures Pow2(k) <= Pow2(n) && BitAnd(u, Pow2(n) - Pow2(k)) == u - u % Pow2(k)
  {
    HighMaskHalf(n, k);
    var h := u / 2;
    AndEvenMask(u, Pow2(n) - Pow2(k));
    ModPow2Step(u, k);
    LinearStep(u, h, u % 2, h % Pow2(k - 1), u % Pow2(k), BitAnd(u, Pow2(n) - Pow2(k)));
  }

  lemma LinearStep(u: int, h: int, b: int, low: int, res: int, and: int)
    requires and == 2 * (h - low) && res == 2 * low + b && u == 2 * h + b
    ensures and == u - res
  {
  }
}

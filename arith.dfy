/** Exact powers, modular exponentiation (Python's three-argument `pow`)
    and the congruence facts the commitment scheme's correctness rests on. */
module ModArith {

  /** b raised to the e-th power, over the unbounded integers. */
  function Pow(b: int, e: nat): int
    decreases e
  {
    if e == 0 then 1 else b * Pow(b, e - 1)
  }

  /** `pow(b, e, m)` for a positive modulus and a non-negative exponent. */
  function ModPow(b: int, e: nat, m: int): (r: int)
    requires m > 0
    ensures 0 <= r < m
    decreases e
  {
    if e == 0 then 1 % m else (b * ModPow(b, e - 1, m)) % m
  }

  // ---------------------------------------------------------------------
  // Division with remainder

  lemma MulBound(k: int, m: int)
    requires m > 0
    ensures k >= 1 ==> k * m >= m
    ensures k <= -1 ==> k * m <= -m
  {
    assert k * m - m == (k - 1) * m;
    assert k * m + m == (k + 1) * m;
  }

  lemma MulNonNegative(x: int, y: int)
    requires x >= 0 && y >= 0
    ensures x * y >= 0
  {
  }

  lemma ModUnique(a: int, m: int, d: int, r: int)
    requires m > 0 && 0 <= r < m && a == d * m + r
    ensures a % m == r && a / m == d
  {
    var d', r' := a / m, a % m;
    assert (d - d') * m == r' - r;
    MulBound(d - d', m);
  }

  lemma ModAddMultiple(k: int, z: int, m: int)
    requires m > 0
    ensures (k * m + z) % m == z % m
  {
    assert z == (z / m) * m + z % m;
    assert k * m + z == (k + z / m) * m + z % m;
    ModUnique(k * m + z, m, k + z / m, z % m);
  }

  lemma ModOfMod(x: int, m: int)
    requires m > 0
    ensures (x % m) % m == x % m
  {
    ModUnique(x % m, m, 0, x % m);
  }

  lemma ModSmall(x: int, m: int)
    requires 0 <= x < m
    ensures x % m == x
  {
    ModUnique(x, m, 0, x);
  }

  lemma MulModRight(a: int, x: int, m: int)
    requires m > 0
    ensures (a * (x % m)) % m == (a * x) % m
  {
    var k := x / m;
    assert x == k * m + x % m;
    assert a * x == (a * k) * m + a * (x % m);
    ModAddMultiple(a * k, a * (x % m), m);
  }

  lemma MulMod(x: int, y: int, m: int)
    requires m > 0
    ensures (x * y) % m == ((x % m) * (y % m)) % m
  {
    MulModRight(x, y, m);
    MulModRight(y % m, x, m);
    assert (y % m) * (x % m) == (x % m) * (y % m);
    assert (y % m) * x == x * (y % m);
  }

  lemma AddMod(x: int, y: int, m: int)
    requires m > 0
    ensures (x + y) % m == ((x % m) + y) % m
  {
    assert x == (x / m) * m + x % m;
    assert x + y == (x / m) * m + ((x % m) + y);
    ModAddMultiple(x / m, (x % m) + y, m);
  }

  // ---------------------------------------------------------------------
  // Exact powers

  lemma {:induction false} PowAdd(b: int, e1: nat, e2: nat)
    ensures Pow(b, e1 + e2) == Pow(b, e1) * Pow(b, e2)
    decreases e1
  {
    if e1 > 0 {
      PowAdd(b, e1 - 1, e2);
      assert Pow(b, e1 + e2) == b * Pow(b, e1 - 1 + e2);
      assert b * (Pow(b, e1 - 1) * Pow(b, e2)) == (b * Pow(b, e1 - 1)) * Pow(b, e2);
    }
  }

  lemma {:induction false} PowMul(b: int, e1: nat, e2: nat)
    ensures Pow(b, e1 * e2) == Pow(Pow(b, e1), e2)
    decreases e2
  {
    if e2 > 0 {
      PowMul(b, e1, e2 - 1);
      assert e1 * e2 == e1 + e1 * (e2 - 1);
      PowAdd(b, e1, e1 * (e2 - 1));
    }
  }

  lemma MulSwapMiddle(a: int, b: int, x: int, y: int)
    ensures (a * b) * (x * y) == (a * x) * (b * y)
  {
  }

  lemma {:induction false} PowProduct(a: int, b: int, e: nat)
    ensures Pow(a * b, e) == Pow(a, e) * Pow(b, e)
    decreases e
  {
    if e > 0 {
      PowProduct(a, b, e - 1);
      var x, y := Pow(a, e - 1), Pow(b, e - 1);
      calc {
        Pow(a * b, e);
        (a * b) * Pow(a * b, e - 1);
        (a * b) * (x * y);
        { MulSwapMiddle(a, b, x, y); }
        (a * x) * (b * y);
        Pow(a, e) * Pow(b, e);
      }
    }
  }

  lemma {:induction false} PowModBase(x: int, k: nat, m: int)
    requires m > 0
    ensures Pow(x % m, k) % m == Pow(x, k) % m
    decreases k
  {
    if k > 0 {
      PowModBase(x, k - 1, m);
      calc {
        Pow(x % m, k) % m;
        ((x % m) * Pow(x % m, k - 1)) % m;
        { MulModRight(x % m, Pow(x % m, k - 1), m); }
        ((x % m) * (Pow(x % m, k - 1) % m)) % m;
        ((x % m) * (Pow(x, k - 1) % m)) % m;
        { MulModRight(x % m, Pow(x, k - 1), m); }
        ((x % m) * Pow(x, k - 1)) % m;
        { MulModRight(Pow(x, k - 1), x, m); }
        (Pow(x, k - 1) * x) % m;
        Pow(x, k) % m;
      }
    }
  }

  // ---------------------------------------------------------------------
  // Modular exponentiation

  /** The recursive `ModPow` computes the exact power reduced once. */
  lemma {:induction false} ModPowIsPowMod(b: int, e: nat, m: int)
    requires m > 0
    ensures ModPow(b, e, m) == Pow(b, e) % m
    decreases e
  {
    if e > 0 {
      ModPowIsPowMod(b, e - 1, m);
      MulModRight(b, Pow(b, e - 1), m);
    }
  }

  /** `pow(b, e1 + e2, m) == pow(b, e1, m) * pow(b, e2, m) mod m`. */
  lemma ModPowAdd(b: int, e1: nat, e2: nat, m: int)
    requires m > 0
    ensures ModPow(b, e1 + e2, m) == (ModPow(b, e1, m) * ModPow(b, e2, m)) % m
  {
    ModPowIsPowMod(b, e1 + e2, m);
    ModPowIsPowMod(b, e1, m);
    ModPowIsPowMod(b, e2, m);
    PowAdd(b, e1, e2);
    MulMod(Pow(b, e1), Pow(b, e2), m);
  }

  /** `pow(b, e1 * e2, m) == pow(pow(b, e1, m), e2, m)`. */
  lemma ModPowMul(b: int, e1: nat, e2: nat, m: int)
    requires m > 0
    ensures ModPow(b, e1 * e2, m) == ModPow(ModPow(b, e1, m), e2, m)
  {
    ModPowIsPowMod(b, e1 * e2, m);
    ModPowIsPowMod(b, e1, m);
    ModPowIsPowMod(ModPow(b, e1, m), e2, m);
    PowMul(b, e1, e2);
    PowModBase(Pow(b, e1), e2, m);
  }

  /** The base may be reduced before exponentiation. */
  lemma ModPowBase(b: int, e: nat, m: int)
    requires m > 0
    ensures ModPow(b % m, e, m) == ModPow(b, e, m)
  {
    ModPowIsPowMod(b % m, e, m);
    ModPowIsPowMod(b, e, m);
    PowModBase(b, e, m);
  }

  /** `pow(a * b, e, m) == pow(a, e, m) * pow(b, e, m) mod m`. */
  lemma ModPowProduct(a: int, b: int, e: nat, m: int)
    requires m > 0
    ensures ModPow(a * b, e, m) == (ModPow(a, e, m) * ModPow(b, e, m)) % m
  {
    ModPowIsPowMod(a * b, e, m);
    ModPowIsPowMod(a, e, m);
    ModPowIsPowMod(b, e, m);
    PowProduct(a, b, e);
    MulMod(Pow(a, e), Pow(b, e), m);
  }

  /** Any power of a residue-one base is one. */
  lemma {:induction false} ModPowOfOne(x: int, k: nat, m: int)
    requires m > 1 && x % m == 1
    ensures ModPow(x, k, m) == 1
    decreases k
  {
    if k > 0 {
      ModPowOfOne(x, k - 1, m);
      MulMod(x, 1, m);
      ModSmall(1, m);
    } else {
      ModSmall(1, m);
    }
  }

  /** If b has order dividing n modulo m, exponents only matter modulo n. */
  lemma ExponentModOrder(b: int, e: nat, n: nat, m: int)
    requires m > 1 && n > 0 && ModPow(b, n, m) == 1
    ensures ModPow(b, e, m) == ModPow(b, e % n, m)
  {
    var k: nat := e / n;
    var rest: nat := e % n;
    assert e == n * k + rest;
    ModPowAdd(b, n * k, rest, m);
    ModPowMul(b, n, k, m);
    assert ModPow(b, n * k, m) == ModPow(1, k, m);
    ModSmall(1, m);
    ModPowOfOne(1, k, m);
    var r := ModPow(b, rest, m);
    assert ModPow(b, e, m) == (1 * r) % m;
    ModSmall(r, m);
  }

  /** Multiplying two powers of b adds their exponents modulo the order of b. */
  lemma CombinedExponent(b: int, e1: nat, e2: nat, n: nat, m: int)
    requires m > 1 && n > 0 && ModPow(b, n, m) == 1
    ensures (ModPow(b, e1, m) * ModPow(b, e2, m)) % m == ModPow(b, (e1 + e2) % n, m)
  {
    ModPowAdd(b, e1, e2, m);
    ExponentModOrder(b, e1 + e2, n, m);
  }

  /** Exponents congruent modulo the order give the same power. */
  lemma ExponentsCongruent(b: int, e1: nat, e2: nat, n: nat, m: int)
    requires m > 1 && n > 0 && ModPow(b, n, m) == 1
    requires e1 % n == e2 % n
    ensures ModPow(b, e1, m) == ModPow(b, e2, m)
  {
    ExponentModOrder(b, e1, n, m);
    ExponentModOrder(b, e2, n, m);
  }

  /** Multiplying by 2n - 1 negates a residue modulo n. */
  lemma MulTwiceMinusOne(x: int, n: int)
    requires n > 0
    ensures (x * (2 * n - 1)) % n == (-x) % n
  {
    assert x * (2 * n - 1) == (2 * x) * n - x;
    ModAddMultiple(2 * x, -x, n);
  }

  /** Reordering four factors under one modulus. */
  lemma MulModShuffle(a: int, b: int, c: int, d: int, m: int)
    requires m > 0
    ensures (((a * b) % m) * ((c * d) % m)) % m == (((a * c) % m) * ((b * d) % m)) % m
  {
    MulMod(a * b, c * d, m);
    MulMod(a * c, b * d, m);
    assert (a * b) * (c * d) == (a * c) * (b * d);
  }
}

/** Pedersen commitments `g^m * h^r mod p` over a safe-prime group, their
    homomorphic aggregation, a Fiat-Shamir Schnorr proof of knowledge of an
    opening, and the hex wire forms of all three. */
module Pedersen {
  import opened Wrappers
  import opened ModArith
  import opened Encoding

  /** SHA-256 (FIPS 180-4) as a map from input bytes to digest bytes; its
      internals are not modelled, so every operation that hashes takes it. */
  type Hash = seq<byte> -> seq<byte>

  /** `CommitmentParameters`: modulus, subgroup order and two generators. */
  datatype Params = Params(p: nat, q: nat, g: nat, h: nat)

  datatype Commitment = Commitment(value: nat)

  datatype Opening = Opening(randomness: nat)

  /** A proof `(t, s_m, s_r)` of knowledge of an opening. */
  datatype Proof = Proof(t: nat, responseM: nat, responseR: nat)

  /** The serialised proof: the three fields as hex strings. */
  datatype ProofHex = ProofHex(t: string, responseM: string, responseR: string)

  /** What the arithmetic needs to be defined: Python raises on a zero modulus. */
  predicate WellFormed(pp: Params)
  {
    pp.p > 1 && pp.q > 0
  }

  /** The group facts the source takes for granted of its parameters: p is
      an odd (safe) prime with q = (p - 1) / 2, and g and h lie in the
      subgroup of order q. */
  predicate ValidParams(pp: Params)
  {
    && pp.p > 2 && pp.p % 2 == 1 && pp.q == (pp.p - 1) / 2 && pp.q >= 2
    && ModPow(pp.g, pp.q, pp.p) == 1
    && ModPow(pp.h, pp.q, pp.p) == 1
  }

  lemma ValidIsWellFormed(pp: Params)
    requires ValidParams(pp)
    ensures WellFormed(pp)
  {
  }

  // ---------------------------------------------------------------------
  // Group parameters

  /** `int(_P_HEX, 16)` as the source writes it: 192 hex digits. */
  const SourcePrime: nat := 0xFFFFFFFF_FFFFFFFF_C90FDAA2_2168C234_C4C6628B_80DC1CD1_29024E08_8A67CC74_020BBEA6_3B139B22_514A0879_8E3404DD_EF9519B3_CD3A431B_302B0A6D_F25F1437_4FE1356D_6D51C245_E485B576_625E7EC6_F44C42E9_A63A3620_FFFFFFFF_FFFFFFFF

  /** The 2048-bit MODP prime of section 3 of RFC 3526 (group 14), which the
      source's comment and docstring name. */
  const Rfc3526Prime: nat := 0xFFFFFFFF_FFFFFFFF_C90FDAA2_2168C234_C4C6628B_80DC1CD1_29024E08_8A67CC74_020BBEA6_3B139B22_514A0879_8E3404DD_EF9519B3_CD3A431B_302B0A6D_F25F1437_4FE1356D_6D51C245_E485B576_625E7EC6_F44C42E9_A637ED6B_0BFF5CB6_F406B7ED_EE386BFB_5A899FA5_AE9F2411_7C4B1FE6_49286651_ECE45B3D_C2007CB8_A163BF05_98DA4836_1C55D39A_69163FA8_FD24CF5F_83655D23_DCA3AD96_1C62F356_208552BB_9ED52907_7096966D_670C354E_4ABC9804_F1746C08_CA18217C_32905E46_2E36CE3B_E39E772C_180E8603_9B2783A2_EC07A28F_B5C55DF0_6F4C52C9_DE2BCBF6_95581718_3995497C_EA956AE5_15D22618_98FA0510_15728E5A_8AACAA68_FFFFFFFF_FFFFFFFF

  /** Seed of the second generator: the ASCII bytes of
      "pedersen-h-generator". */
  const GeneratorLabel: seq<byte> := [112, 101, 100, 101, 114, 115, 101, 110, 45, 104, 45, 103, 101, 110, 101, 114, 97, 116, 111, 114]

  /** Python refuses `attempt.to_bytes(4, "big")` from this attempt on. */
  const AttemptLimit: nat := 0x1_0000_0000

  /** The 4-byte big-endian encoding of an attempt counter. */
  function AttemptBytes(attempt: nat): (bs: seq<byte>)
    requires attempt < AttemptLimit
    ensures |bs| == 4 && BytesToNat(bs) == attempt
  {
    assert Pow(256, 4) == AttemptLimit;
    NatToBytesValue(attempt, 4);
    NatToBytes(attempt, 4)
  }

  /** The scalar one round of `_hash_to_scalar` derives. */
  function AttemptScalar(sha: Hash, seed: seq<byte>, attempt: nat, q: nat): nat
    requires attempt < AttemptLimit && q > 0
  {
    BytesToNat(sha(seed + AttemptBytes(attempt))) % q
  }

  /** The scalar of every attempt, as one function of the counter. */
  function Attempts(sha: Hash, seed: seq<byte>, q: nat): nat -> nat
    requires q > 0
  {
    (a: nat) => if a < AttemptLimit then AttemptScalar(sha, seed, a, q) else 0
  }

  /** The first non-zero value of `f` from `attempt` on, or None when it is
      zero everywhere up to the 4-byte counter limit. */
  function ScalarFrom(f: nat -> nat, attempt: nat): Option<nat>
    requires attempt <= AttemptLimit
    decreases AttemptLimit - attempt
  {
    if attempt == AttemptLimit then None
    else if f(attempt) != 0 then Some(f(attempt))
    else ScalarFrom(f, attempt + 1)
  }

  /** What `_hash_to_scalar` returns. */
  function HashToScalarSpec(sha: Hash, seed: seq<byte>, q: nat): Option<nat>
    requires q > 0
  {
    ScalarFrom(Attempts(sha, seed, q), 0)
  }

  /** `_hash_to_scalar`: hash the seed with a growing counter until the
      digest is non-zero modulo q. Where Python would overflow the 4-byte
      counter the result is None. */
  method HashToScalar(sha: Hash, seed: seq<byte>, q: nat) returns (r: Option<nat>)
    requires q > 0
    ensures r == HashToScalarSpec(sha, seed, q)
    ensures r.Some? ==> 1 <= r.value < q
  {
    var attempt := 0;
    while attempt < AttemptLimit
      invariant 0 <= attempt <= AttemptLimit
      invariant HashToScalarSpec(sha, seed, q) == ScalarFrom(Attempts(sha, seed, q), attempt)
      decreases AttemptLimit - attempt
    {
      var digest := sha(seed + AttemptBytes(attempt));
      var scalar := BytesToNat(digest) % q;
      if scalar != 0 {
        return Some(scalar);
      }
      attempt := attempt + 1;
    }
    return None;
  }

  /** The scalar derived is the first non-zero attempt, and there is none
      only when every attempt the counter allows gives zero. */
  lemma {:induction false} ScalarFromIsFirst(f: nat -> nat, attempt: nat)
    requires attempt <= AttemptLimit
    ensures ScalarFrom(f, attempt).Some? ==>
              var k := ScalarFrom(f, attempt).value;
              k != 0 && exists a :: attempt <= a < AttemptLimit && k == f(a)
                                    && forall b :: attempt <= b < a ==> f(b) == 0
    ensures ScalarFrom(f, attempt).None? ==> forall a :: attempt <= a < AttemptLimit ==> f(a) == 0
    decreases AttemptLimit - attempt
  {
    if attempt < AttemptLimit && f(attempt) == 0 {
      ScalarFromIsFirst(f, attempt + 1);
      if ScalarFrom(f, attempt).Some? {
        var a :| attempt + 1 <= a < AttemptLimit && ScalarFrom(f, attempt).value == f(a)
                 && forall b :: attempt + 1 <= b < a ==> f(b) == 0;
        assert forall b :: attempt <= b < a ==> f(b) == 0;
      }
    }
  }

  /** `_hash_to_scalar` in terms of the individual attempts. */
  lemma HashToScalarIsFirstAttempt(sha: Hash, seed: seq<byte>, q: nat)
    requires q > 0
    ensures HashToScalarSpec(sha, seed, q).Some? ==>
              exists a :: 0 <= a < AttemptLimit
                          && HashToScalarSpec(sha, seed, q).value == AttemptScalar(sha, seed, a, q) != 0
                          && forall b :: 0 <= b < a ==> AttemptScalar(sha, seed, b, q) == 0
    ensures HashToScalarSpec(sha, seed, q).None? ==>
              forall a :: 0 <= a < AttemptLimit ==> AttemptScalar(sha, seed, a, q) == 0
  {
    var f := Attempts(sha, seed, q);
    ScalarFromIsFirst(f, 0);
    assert forall a :: 0 <= a < AttemptLimit ==> f(a) == AttemptScalar(sha, seed, a, q);
  }

  /** The body of `default_parameters` over a given modulus: q = (p - 1) / 2,
      g = 2 and h = g^k mod p for k derived from a fixed label. */
  method DeriveParameters(sha: Hash, p: nat) returns (pp: Option<Params>)
    requires p > 2
    ensures pp.Some? ==> pp.value.p == p && pp.value.q == (p - 1) / 2 && pp.value.g == 2
    ensures pp.Some? ==> exists k :: 1 <= k < pp.value.q && pp.value.h == ModPow(2, k, p)
    ensures pp.None? <==> HashToScalarSpec(sha, GeneratorLabel, (p - 1) / 2).None?
    ensures pp.Some? ==> pp.value.h == ModPow(2, HashToScalarSpec(sha, GeneratorLabel, (p - 1) / 2).value, p)
    ensures pp.Some? && ModPow(2, pp.value.q, p) == 1 && p % 2 == 1 && pp.value.q >= 2 ==> ValidParams(pp.value)
  {
    var q := (p - 1) / 2;
    var k := HashToScalar(sha, GeneratorLabel, q);
    if k.None? {
      return None;
    }
    var h := ModPow(2, k.value, p);
    pp := Some(Params(p, q, 2, h));
    if ModPow(2, q, p) == 1 {
      DerivedGeneratorInSubgroup(2, k.value, q, p);
    }
  }

  /** `default_parameters` as the source writes it: over `SourcePrime`, a
      768-bit modulus (see `SourcePrimeIs768Bit`). */
  method DefaultParametersAsWritten(sha: Hash) returns (pp: Option<Params>)
    ensures pp.Some? ==> pp.value.p == SourcePrime && BitLength(pp.value.p) == 768
    ensures pp.Some? ==> pp.value.q == (SourcePrime - 1) / 2 && pp.value.g == 2
  {
    SourcePrimeIs768Bit();
    pp := DeriveParameters(sha, SourcePrime);
  }

  /** `default_parameters` over the 2048-bit RFC 3526 group its
      documentation names. */
  method DefaultParameters(sha: Hash) returns (pp: Option<Params>)
    ensures pp.Some? ==> pp.value.p == Rfc3526Prime && BitLength(pp.value.p) == 2048
    ensures pp.Some? ==> pp.value.q == (Rfc3526Prime - 1) / 2 && pp.value.g == 2
    ensures pp.Some? ==> exists k :: 1 <= k < pp.value.q && pp.value.h == ModPow(2, k, pp.value.p)
    ensures pp.Some? && ModPow(2, pp.value.q, pp.value.p) == 1 ==> ValidParams(pp.value)
  {
    Rfc3526PrimeIs2048Bit();
    pp := DeriveParameters(sha, Rfc3526Prime);
  }

  /** A power of g lies in every subgroup g lies in; this is why only the
      order of g = 2 has to be taken on trust. */
  lemma DerivedGeneratorInSubgroup(g: nat, k: nat, q: nat, p: nat)
    requires p > 1 && ModPow(g, q, p) == 1
    ensures ModPow(ModPow(g, k, p), q, p) == 1
  {
    ModPowMul(g, k, q, p);
    ModPowMul(g, q, k, p);
    assert k * q == q * k;
    ModSmall(1, p);
    ModPowOfOne(1, k, p);
  }

  lemma {:induction false} BitLengthFromBounds(n: nat, k: nat)
    requires k >= 1 && Pow(2, k) <= 2 * n && n < Pow(2, k)
    ensures BitLength(n) == k
    decreases k
  {
    if k > 1 {
      assert Pow(2, k) == 2 * Pow(2, k - 1);
      BitLengthFromBounds(n / 2, k - 1);
    }
  }

  /** One squaring step: from 2^e = x to 2^(2e) = x * x. */
  lemma SquarePower(e: nat, x: int)
    requires Pow(2, e) == x
    ensures Pow(2, e + e) == x * x
  {
    PowAdd(2, e, e);
  }

  /** Both prime bounds come by repeated squaring from a small power of two,
      each step with its value written out. */
  lemma SourcePrimeBounds(k: nat)
    requires k == 768
    ensures Pow(2, k) <= 2 * SourcePrime && SourcePrime < Pow(2, k)
  {
    var e := k / 256;
    assert Pow(2, 3) == 8;
    SquarePower(e, 8);
    e := e + e;
    SquarePower(e, 64);
    e := e + e;
    SquarePower(e, 4096);
    e := e + e;
    SquarePower(e, 16777216);
    e := e + e;
    SquarePower(e, 0x10000_00000000);
    e := e + e;
    SquarePower(e, 0x1_00000000_00000000_00000000);
    e := e + e;
    SquarePower(e, 0x1_00000000_00000000_00000000_00000000_00000000_00000000);
    e := e + e;
    SquarePower(e, 0x1_00000000_00000000_00000000_00000000_00000000_00000000_00000000_00000000_00000000_00000000_00000000_00000000);
    e := e + e;
    assert e == k;
  }

  /** The prime the source uses has 768 bits, so its group elements travel
      as 96 bytes: it is the prime of section 6.1 of RFC 2409, not the
      2048-bit group of RFC 3526 its comment announces. */
  lemma SourcePrimeIs768Bit()
    ensures BitLength(SourcePrime) == 768
    ensures (BitLength(SourcePrime) + 7) / 8 == 96
  {
    var k := 768;
    SourcePrimeBounds(k);
    BitLengthFromBounds(SourcePrime, k);
  }

  lemma Rfc3526PrimeBounds(k: nat)
    requires k == 2048
    ensures Pow(2, k) <= 2 * Rfc3526Prime && Rfc3526Prime < Pow(2, k)
  {
    var e := k / 2048;
    assert Pow(2, 1) == 2;
    SquarePower(e, 2);
    e := e + e;
    SquarePower(e, 4);
    e := e + e;
    SquarePower(e, 16);
    e := e + e;
    SquarePower(e, 256);
    e := e + e;
    SquarePower(e, 65536);
    e := e + e;
    SquarePower(e, 0x1_00000000);
    e := e + e;
    SquarePower(e, 0x1_00000000_00000000);
    e := e + e;
    SquarePower(e, 0x1_00000000_00000000_00000000_00000000);
    e := e + e;
    SquarePower(e, 0x1_00000000_00000000_00000000_00000000_00000000_00000000_00000000_00000000);
    e := e + e;
    SquarePower(e, 0x1_00000000_00000000_00000000_00000000_00000000_00000000_00000000_00000000_00000000_00000000_00000000_00000000_00000000_00000000_00000000_00000000);
    e := e + e;
    SquarePower(e, 0x1_00000000_00000000_00000000_00000000_00000000_00000000_00000000_00000000_00000000_00000000_00000000_00000000_00000000_00000000_00000000_00000000_00000000_00000000_00000000_00000000_00000000_00000000_00000000_00000000_00000000_00000000_00000000_00000000_00000000_00000000_00000000_00000000);
    e := e + e;
    assert e == k;
  }

  /** The RFC 3526 group-14 prime, the group the docstring of
      `default_parameters` names, has 2048 bits, so its group elements
      travel as 256 bytes. */
  lemma Rfc3526PrimeIs2048Bit()
    ensures BitLength(Rfc3526Prime) == 2048
    ensures (BitLength(Rfc3526Prime) + 7) / 8 == 256
  {
    var k := 2048;
    Rfc3526PrimeBounds(k);
    BitLengthFromBounds(Rfc3526Prime, k);
  }

  // ---------------------------------------------------------------------
  // Sampling

  /** The first non-zero draw: `random_scalar` retries `randbelow(q)`
      until it is not zero. */
  function FirstNonZero(draws: seq<nat>): Option<nat>
  {
    if draws == [] then None
    else if draws[0] != 0 then Some(draws[0])
    else FirstNonZero(draws[1..])
  }

  lemma {:induction false} FirstNonZeroIsFirst(draws: seq<nat>)
    ensures FirstNonZero(draws).Some? <==> exists i :: 0 <= i < |draws| && draws[i] != 0
    ensures FirstNonZero(draws).Some? ==>
              exists i :: 0 <= i < |draws| && draws[i] == FirstNonZero(draws).value != 0
                          && forall j :: 0 <= j < i ==> draws[j] == 0
  {
    if draws != [] && draws[0] == 0 {
      FirstNonZeroIsFirst(draws[1..]);
      if FirstNonZero(draws).Some? {
        var i :| 0 <= i < |draws[1..]| && draws[1..][i] == FirstNonZero(draws[1..]).value != 0
                 && forall j :: 0 <= j < i ==> draws[1..][j] == 0;
        assert draws[i + 1] == FirstNonZero(draws).value;
      } else {
        forall i | 0 <= i < |draws| ensures draws[i] == 0 {
          if i > 0 { assert draws[i] == draws[1..][i - 1]; }
        }
      }
    }
  }

  /** `random_scalar`: `draws` are the successive results of
      `secrets.randbelow(q)`; None when all of them were zero. */
  method RandomScalar(pp: Params, draws: seq<nat>) returns (k: Option<nat>)
    requires forall i :: 0 <= i < |draws| ==> draws[i] < pp.q
    ensures k == FirstNonZero(draws)
    ensures k.Some? ==> 1 <= k.value < pp.q
  {
    var i := 0;
    while i < |draws|
      invariant 0 <= i <= |draws|
      invariant FirstNonZero(draws) == FirstNonZero(draws[i..])
    {
      assert draws[i..][1..] == draws[i + 1..];
      if draws[i] != 0 {
        return Some(draws[i]);
      }
      i := i + 1;
    }
    return None;
  }

  // ---------------------------------------------------------------------
  // Commitments

  /** `commit` with its randomness given: the message is reduced modulo q. */
  function Commit(pp: Params, message: int, randomness: nat): (r: (Commitment, Opening))
    requires WellFormed(pp)
    ensures r.1 == Opening(randomness)
    ensures r.0.value < pp.p
    ensures Verify(pp, r.0, message, r.1)
  {
    var value := (ModPow(pp.g, message % pp.q, pp.p) * ModPow(pp.h, randomness, pp.p)) % pp.p;
    ModOfMod(ModPow(pp.g, message % pp.q, pp.p) * ModPow(pp.h, randomness, pp.p), pp.p);
    (Commitment(value), Opening(randomness))
  }

  /** `commit` without randomness: the opening is the scalar `random_scalar`
      drew. */
  method CommitSampled(pp: Params, message: int, draws: seq<nat>) returns (r: Option<(Commitment, Opening)>)
    requires WellFormed(pp)
    requires forall i :: 0 <= i < |draws| ==> draws[i] < pp.q
    ensures r.Some? <==> FirstNonZero(draws).Some?
    ensures r.Some? ==> r.value == Commit(pp, message, FirstNonZero(draws).value)
    ensures r.Some? ==> 1 <= r.value.1.randomness < pp.q && Verify(pp, r.value.0, message, r.value.1)
  {
    var k := RandomScalar(pp, draws);
    if k.None? {
      return None;
    }
    return Some(Commit(pp, message, k.value));
  }

  /** `verify`: does the commitment open to `message` with `opening`? */
  predicate Verify(pp: Params, c: Commitment, message: int, opening: Opening)
    requires WellFormed(pp)
  {
    c.value % pp.p == (ModPow(pp.g, message % pp.q, pp.p) * ModPow(pp.h, opening.randomness, pp.p)) % pp.p
  }

  /** Verification sees the message and the randomness only modulo q. */
  lemma VerifyModuloOrder(pp: Params, c: Commitment, m1: int, m2: int, o1: Opening, o2: Opening)
    requires ValidParams(pp)
    requires m1 % pp.q == m2 % pp.q && o1.randomness % pp.q == o2.randomness % pp.q
    ensures Verify(pp, c, m1, o1) == Verify(pp, c, m2, o2)
  {
    ExponentsCongruent(pp.h, o1.randomness, o2.randomness, pp.q, pp.p);
  }

  // ---------------------------------------------------------------------
  // Aggregation

  /** What `add_commitments` folds: the running product modulo p, from 1. */
  function Aggregate(pp: Params, cs: seq<Commitment>): Commitment
    requires WellFormed(pp)
    decreases |cs|
  {
    if cs == [] then Commitment(1)
    else Commitment((Aggregate(pp, cs[..|cs| - 1]).value * cs[|cs| - 1].value) % pp.p)
  }

  /** What `add_messages` folds: the running sum modulo q, from 0. */
  function MessageSum(pp: Params, ms: seq<int>): int
    requires WellFormed(pp)
    decreases |ms|
  {
    if ms == [] then 0 else (MessageSum(pp, ms[..|ms| - 1]) + ms[|ms| - 1]) % pp.q
  }

  /** What `add_openings` folds: the running sum of randomness modulo q. */
  function OpeningSum(pp: Params, os: seq<Opening>): Opening
    requires WellFormed(pp)
    decreases |os|
  {
    if os == [] then Opening(0)
    else Opening((OpeningSum(pp, os[..|os| - 1]).randomness + os[|os| - 1].randomness) % pp.q)
  }

  /** `add_commitments`. */
  method AddCommitments(pp: Params, cs: seq<Commitment>) returns (r: Commitment)
    requires WellFormed(pp)
    ensures r == Aggregate(pp, cs)
    ensures r.value < pp.p
    ensures cs == [] ==> r.value == 1
  {
    var acc := 1;
    for i := 0 to |cs|
      invariant acc == Aggregate(pp, cs[..i]).value
      invariant acc < pp.p
    {
      assert cs[..i + 1][..i] == cs[..i];
      acc := (acc * cs[i].value) % pp.p;
    }
    assert cs[..|cs|] == cs;
    return Commitment(acc);
  }

  /** `add_messages`. */
  method AddMessages(pp: Params, ms: seq<int>) returns (total: int)
    requires WellFormed(pp)
    ensures total == MessageSum(pp, ms)
    ensures 0 <= total < pp.q
  {
    total := 0;
    for i := 0 to |ms|
      invariant total == MessageSum(pp, ms[..i])
      invariant 0 <= total < pp.q
    {
      assert ms[..i + 1][..i] == ms[..i];
      total := (total + ms[i]) % pp.q;
    }
    assert ms[..|ms|] == ms;
  }

  /** `add_openings`. */
  method AddOpenings(pp: Params, os: seq<Opening>) returns (r: Opening)
    requires WellFormed(pp)
    ensures r == OpeningSum(pp, os)
    ensures r.randomness < pp.q
  {
    var total := 0;
    for i := 0 to |os|
      invariant total == OpeningSum(pp, os[..i]).randomness
      invariant 0 <= total < pp.q
    {
      assert os[..i + 1][..i] == os[..i];
      total := (total + os[i].randomness) % pp.q;
    }
    assert os[..|os|] == os;
    return Opening(total);
  }

  /** Two powers of one generator combine to the power of the summed
      exponent, reduced modulo the order. */
  lemma CombinePowers(pp: Params, b: nat, e1: nat, e2: nat, e: nat)
    requires ValidParams(pp) && ModPow(b, pp.q, pp.p) == 1
    requires e == (e1 + e2) % pp.q
    ensures (ModPow(b, e1, pp.p) * ModPow(b, e2, pp.p)) % pp.p == ModPow(b, e, pp.p)
  {
    CombinedExponent(b, e1, e2, pp.q, pp.p);
  }

  /** One step of the homomorphism: multiplying commitments adds openings. */
  lemma MultiplyOpenings(pp: Params, a: Commitment, ma: int, ra: nat, c: Commitment, mc: int, rc: nat)
    requires ValidParams(pp)
    requires Verify(pp, a, ma, Opening(ra)) && Verify(pp, c, mc, Opening(rc))
    ensures Verify(pp, Commitment((a.value * c.value) % pp.p), (ma + mc) % pp.q, Opening((ra + rc) % pp.q))
  {
    var p, q, g, h := pp.p, pp.q, pp.g, pp.h;
    var ga, ha := ModPow(g, ma % q, p), ModPow(h, ra, p);
    var gc, hc := ModPow(g, mc % q, p), ModPow(h, rc, p);
    var m := (ma + mc) % q;
    var r := (ra + rc) % q;
    calc {
      ((a.value * c.value) % p) % p;
      { ModOfMod(a.value * c.value, p); }
      (a.value * c.value) % p;
      { MulMod(a.value, c.value, p); }
      ((a.value % p) * (c.value % p)) % p;
      (((ga * ha) % p) * ((gc * hc) % p)) % p;
      { MulModShuffle(ga, ha, gc, hc, p); }
      (((ga * gc) % p) * ((ha * hc) % p)) % p;
      { AddMod(ma, mc, q);
        assert (ma + mc) % q == (ma % q + mc) % q;
        AddMod(mc, ma % q, q);
        assert (ma % q + mc) % q == (ma % q + mc % q) % q;
        CombinePowers(pp, g, ma % q, mc % q, m);
        CombinePowers(pp, h, ra, rc, r); }
      (ModPow(g, m, p) * ModPow(h, r, p)) % p;
      { ModOfMod(ma + mc, q); }
      (ModPow(g, m % q, p) * ModPow(h, r, p)) % p;
    }
  }

  /** The empty product is a commitment to 0 with randomness 0. */
  lemma EmptyAggregateOpens(pp: Params)
    requires ValidParams(pp)
    ensures Verify(pp, Aggregate(pp, []), MessageSum(pp, []), OpeningSum(pp, []))
  {
    assert Aggregate(pp, []) == Commitment(1);
    assert MessageSum(pp, []) == 0 && OpeningSum(pp, []) == Opening(0);
    ModSmall(1, pp.p);
    assert ModPow(pp.g, 0, pp.p) == 1;
    assert ModPow(pp.h, 0, pp.p) == 1;
  }

  /** Homomorphism: commitments that open to (m_i, r_i) aggregate to a
      commitment that opens to the summed messages and summed openings. */
  lemma {:induction false} AggregateOpens(pp: Params, cs: seq<Commitment>, ms: seq<int>, os: seq<Opening>)
    requires ValidParams(pp)
    requires |cs| == |ms| == |os|
    requires forall i :: 0 <= i < |cs| ==> Verify(pp, cs[i], ms[i], os[i])
    ensures Verify(pp, Aggregate(pp, cs), MessageSum(pp, ms), OpeningSum(pp, os))
    decreases |cs|
  {
    var n := |cs|;
    if n == 0 {
      EmptyAggregateOpens(pp);
    } else {
      var cs', ms', os' := cs[..n - 1], ms[..n - 1], os[..n - 1];
      assert forall i :: 0 <= i < n - 1 ==> cs'[i] == cs[i] && ms'[i] == ms[i] && os'[i] == os[i];
      AggregateOpens(pp, cs', ms', os');
      var a := Aggregate(pp, cs');
      var ma := MessageSum(pp, ms');
      var ra := OpeningSum(pp, os').randomness;
      var c, mc, rc := cs[n - 1], ms[n - 1], os[n - 1].randomness;
      assert os[n - 1] == Opening(rc);
      assert Aggregate(pp, cs) == Commitment((a.value * c.value) % pp.p);
      assert MessageSum(pp, ms) == (ma + mc) % pp.q;
      assert OpeningSum(pp, os) == Opening((ra + rc) % pp.q);
      MultiplyOpenings(pp, a, ma, ra, c, mc, rc);
    }
  }

  /** The two-commitment instance: `add_commitments([commit(m1, r1),
      commit(m2, r2)])` opens to `add_messages([m1, m2])` with
      `add_openings([r1, r2])`. */
  lemma Homomorphism(pp: Params, m1: int, r1: nat, m2: int, r2: nat)
    requires ValidParams(pp)
    ensures var (c1, o1) := Commit(pp, m1, r1);
            var (c2, o2) := Commit(pp, m2, r2);
            Verify(pp, Aggregate(pp, [c1, c2]), MessageSum(pp, [m1, m2]), OpeningSum(pp, [o1, o2]))
  {
    var (c1, o1) := Commit(pp, m1, r1);
    var (c2, o2) := Commit(pp, m2, r2);
    AggregateOpens(pp, [c1, c2], [m1, m2], [o1, o2]);
  }

  /** `negate_commitment`: the inverse by Fermat's exponent p - 2. */
  function NegateCommitment(pp: Params, c: Commitment): Commitment
    requires WellFormed(pp)
  {
    Commitment(ModPow(c.value, pp.p - 2, pp.p))
  }

  /** `commitment_difference`: `add_commitments([left, negate(right)])`. */
  function CommitmentDifference(pp: Params, left: Commitment, right: Commitment): Commitment
    requires WellFormed(pp)
  {
    Aggregate(pp, [left, NegateCommitment(pp, right)])
  }

  /** Raising to p - 2 = 2q - 1 negates an exponent modulo q. */
  /** A safe prime is twice its subgroup order plus one. */
  lemma SafePrimeShape(pp: Params)
    requires ValidParams(pp)
    ensures pp.p == 2 * pp.q + 1
  {
    var p := pp.p;
    assert (p - 1) % 2 == 0 by {
      AddMod(p, -1, 2);
      assert (p - 1) % 2 == (1 + -1) % 2;
    }
  }

  /** Multiplying by p - 2 = 2q - 1 negates an exponent modulo q. */
  lemma NegatedExponent(pp: Params, a: nat)
    requires ValidParams(pp)
    ensures (a * (pp.p - 2)) % pp.q == (-(a as int)) % pp.q
  {
    SafePrimeShape(pp);
    assert pp.p - 2 == 2 * pp.q - 1;
    MulTwiceMinusOne(a, pp.q);
  }

  /** The power of a commitment to e opens to the exponent times the opening. */
  lemma PowerOfOpened(pp: Params, c: Commitment, m: nat, r: nat, e: nat)
    requires ValidParams(pp)
    requires c.value % pp.p == (ModPow(pp.g, m, pp.p) * ModPow(pp.h, r, pp.p)) % pp.p
    ensures ModPow(c.value, e, pp.p) == (ModPow(pp.g, m * e, pp.p) * ModPow(pp.h, r * e, pp.p)) % pp.p
  {
    var p := pp.p;
    var me: nat, re: nat := m * e, r * e;
    var gm, hr := ModPow(pp.g, m, p), ModPow(pp.h, r, p);
    calc {
      ModPow(c.value, e, p);
      { ModPowBase(c.value, e, p); }
      ModPow(c.value % p, e, p);
      ModPow((gm * hr) % p, e, p);
      { ModPowBase(gm * hr, e, p); }
      ModPow(gm * hr, e, p);
      { ModPowProduct(gm, hr, e, p); }
      (ModPow(gm, e, p) * ModPow(hr, e, p)) % p;
      { ModPowMul(pp.g, m, e, p); ModPowMul(pp.h, r, e, p); }
      (ModPow(pp.g, me, p) * ModPow(pp.h, re, p)) % p;
    }
  }

  /** `(-m) mod q` depends only on `m mod q`. */
  lemma NegateModulo(m: int, q: nat)
    requires q > 0
    ensures (-(m % q)) % q == (-m) % q
  {
    assert -m == -(m / q) * q + -(m % q);
    ModAddMultiple(-(m / q), -(m % q), q);
  }

  /** `add_commitments` of two commitments. */
  lemma AggregatePair(pp: Params, a: Commitment, b: Commitment)
    requires WellFormed(pp)
    ensures Aggregate(pp, [a, b]) == Commitment(((a.value % pp.p) * b.value) % pp.p)
  {
    assert [a, b][..1] == [a];
    assert [a][..0] == [];
    assert Aggregate(pp, [a]) == Commitment((1 * a.value) % pp.p);
  }

  /** Raising a subgroup power to p - 2 negates its exponent. */
  lemma NegatedPower(pp: Params, b: nat, x: nat, e: nat)
    requires ValidParams(pp) && ModPow(b, pp.q, pp.p) == 1
    requires e == x * (pp.p - 2)
    ensures ModPow(b, e, pp.p) == ModPow(b, (-(x as int)) % pp.q, pp.p)
  {
    ExponentModOrder(b, e, pp.q, pp.p);
    NegatedExponent(pp, x);
  }

  /** `negate_commitment(C)` opens to `-m` with randomness `-r mod q`
      whenever C opens to m with r. */
  lemma NegationOpens(pp: Params, c: Commitment, m: int, o: Opening)
    requires ValidParams(pp)
    requires Verify(pp, c, m, o)
    ensures Verify(pp, NegateCommitment(pp, c), -m, Opening((-(o.randomness as int)) % pp.q))
  {
    var p, q, g, h := pp.p, pp.q, pp.g, pp.h;
    var a: nat, r: nat := m % q, o.randomness;
    var k: nat := p - 2;
    MulNonNegative(a, k);
    MulNonNegative(r, k);
    var ea: nat, er: nat := a * k, r * k;
    var neg := NegateCommitment(pp, c);
    calc {
      neg.value % p;
      { ModSmall(neg.value, p); }
      ModPow(c.value, k, p);
      { PowerOfOpened(pp, c, a, r, k); }
      (ModPow(g, ea, p) * ModPow(h, er, p)) % p;
      { NegatedPower(pp, g, a, ea); NegatedPower(pp, h, r, er); }
      (ModPow(g, (-(a as int)) % q, p) * ModPow(h, (-(r as int)) % q, p)) % p;
      { NegateModulo(m, q); }
      (ModPow(g, (-m) % q, p) * ModPow(h, (-(r as int)) % q, p)) % p;
    }
  }

  /** `commitment_difference(C1, C2)` opens to `m1 - m2` with randomness
      `r1 - r2` modulo q. */
  lemma DifferenceOpens(pp: Params, c1: Commitment, m1: int, o1: Opening, c2: Commitment, m2: int, o2: Opening)
    requires ValidParams(pp)
    requires Verify(pp, c1, m1, o1) && Verify(pp, c2, m2, o2)
    ensures Verify(pp, CommitmentDifference(pp, c1, c2), m1 - m2, Opening((o1.randomness as int - o2.randomness) % pp.q))
  {
    var p, q := pp.p, pp.q;
    var neg := NegateCommitment(pp, c2);
    var r1, nr2 := o1.randomness, (-(o2.randomness as int)) % q;
    NegationOpens(pp, c2, m2, o2);
    var first := Commitment(c1.value % p);
    AggregatePair(pp, c1, neg);
    ModOfMod(c1.value, p);
    assert Verify(pp, first, m1, o1);
    MultiplyOpenings(pp, first, m1, r1, neg, -m2, nr2);
    ModOfMod(m1 - m2, q);
    AddMod(-(o2.randomness as int), r1, q);
    ModOfMod(r1 as int - o2.randomness, q);
    VerifyModuloOrder(pp, CommitmentDifference(pp, c1, c2), (m1 + -m2) % q, m1 - m2,
                      Opening((r1 + nr2) % q), Opening((r1 as int - o2.randomness) % q));
  }

  /** `negate_commitment` really inverts: a commitment that opens, times
      its negation, is 1 modulo p. */
  lemma NegationIsInverse(pp: Params, c: Commitment, m: int, o: Opening)
    requires ValidParams(pp)
    requires Verify(pp, c, m, o)
    ensures (c.value * NegateCommitment(pp, c).value) % pp.p == 1
  {
    var p, q := pp.p, pp.q;
    var r: nat := o.randomness;
    var nr: nat := (-(r as int)) % q;
    var neg := NegateCommitment(pp, c);
    var product := Commitment((c.value * neg.value) % p);
    NegationOpens(pp, c, m, o);
    MultiplyOpenings(pp, c, m, r, neg, -m, nr);
    assert Verify(pp, product, (m + -m) % q, Opening((r + nr) % q));
    assert (r + nr) % q == 0 by {
      AddMod(-(r as int), r, q);
    }
    assert Verify(pp, product, 0, Opening(0));
    ModSmall(1, p);
    assert ModPow(pp.g, 0, p) == 1 && ModPow(pp.h, 0, p) == 1;
    ModOfMod(c.value * neg.value, p);
  }

  /** `commitment_difference(L, R)` added back to R gives L (modulo p)
      whenever R opens: the difference is the subtraction it names. */
  lemma DifferenceCancels(pp: Params, left: Commitment, right: Commitment, m: int, o: Opening)
    requires ValidParams(pp)
    requires Verify(pp, right, m, o)
    ensures Aggregate(pp, [CommitmentDifference(pp, left, right), right]).value == left.value % pp.p
  {
    var p := pp.p;
    var l := left.value % p;
    var neg := NegateCommitment(pp, right).value;
    var diff := CommitmentDifference(pp, left, right);
    AggregatePair(pp, left, NegateCommitment(pp, right));
    assert diff.value == (l * neg) % p;
    AggregatePair(pp, diff, right);
    ModSmall(diff.value, p);
    NegationIsInverse(pp, right, m, o);
    calc {
      Aggregate(pp, [diff, right]).value;
      (diff.value * right.value) % p;
      { assert diff.value * right.value == right.value * ((l * neg) % p); }
      (right.value * ((l * neg) % p)) % p;
      { MulModRight(right.value, l * neg, p); }
      (right.value * (l * neg)) % p;
      { assert right.value * (l * neg) == l * (right.value * neg); }
      (l * (right.value * neg)) % p;
      { MulModRight(l, right.value * neg, p); }
      (l * ((right.value * neg) % p)) % p;
      { ModOfMod(left.value, p); }
      l;
    }
  }

  /** `verify` accepts exactly the commitments congruent, modulo p, to
      the one `commit` computes from the message and the randomness. */
  lemma VerifyIsRecommit(pp: Params, c: Commitment, m: int, o: Opening)
    requires WellFormed(pp)
    ensures Verify(pp, c, m, o) <==> c.value % pp.p == Commit(pp, m, o.randomness).0.value
  {
  }

  // ---------------------------------------------------------------------
  // Proof of knowledge of an opening

  /** `_PROOF_DOMAIN_SEPARATOR`: the ASCII bytes of
      "pedersen/opening-proof/v1". */
  const DomainSeparator: seq<byte> := [112, 101, 100, 101, 114, 115, 101, 110, 47, 111, 112, 101, 110, 105, 110, 103, 45, 112, 114, 111, 111, 102, 47, 118, 49]

  /** `_commitment_byte_length`: bytes needed for an element below p. */
  function ElementLength(pp: Params): nat
  {
    (BitLength(pp.p) + 7) / 8
  }

  /** The bytes `_compute_challenge` hashes: the domain separator, the
      context, then the commitment and t reduced modulo p, each padded to
      the element length. */
  function ChallengeInput(pp: Params, c: Commitment, t: nat, context: seq<byte>): seq<byte>
    requires WellFormed(pp)
  {
    DomainSeparator + context
      + NatToBytes(c.value % pp.p, ElementLength(pp)) + NatToBytes(t % pp.p, ElementLength(pp))
  }

  /** The hashed bytes hold the commitment and t as element-length
      big-endian numbers that read back as their residues modulo p, so
      `to_bytes` never overflows. */
  lemma ChallengeElementsDecode(pp: Params, c: Commitment, t: nat, context: seq<byte>)
    requires WellFormed(pp)
    ensures var n := |DomainSeparator + context|;
            var len := ElementLength(pp);
            var bs := ChallengeInput(pp, c, t, context);
            && |bs| == n + 2 * len
            && bs[..n] == DomainSeparator + context
            && BytesToNat(bs[n..n + len]) == c.value % pp.p
            && BytesToNat(bs[n + len..]) == t % pp.p
  {
    var len := ElementLength(pp);
    ElementRoundTrip(pp, c.value % pp.p);
    ElementRoundTrip(pp, t % pp.p);
    SlicesOfThree(DomainSeparator + context, NatToBytes(c.value % pp.p, len), NatToBytes(t % pp.p, len));
  }

  /** A residue modulo p fits in the element length and reads back. */
  lemma ElementRoundTrip(pp: Params, v: nat)
    requires WellFormed(pp) && v < pp.p
    ensures BytesToNat(NatToBytes(v, ElementLength(pp))) == v
  {
    FitsInByteLength(v, pp.p);
    NatToBytesValue(v, ElementLength(pp));
  }

  lemma SlicesOfThree<T>(a: seq<T>, b: seq<T>, c: seq<T>)
    ensures (a + b + c)[..|a|] == a
    ensures (a + b + c)[|a|..|a| + |b|] == b
    ensures (a + b + c)[|a| + |b|..] == c
  {
  }

  /** `_compute_challenge`: the digest modulo q, with 0 replaced by 1. */
  function ComputeChallenge(pp: Params, sha: Hash, c: Commitment, t: nat, context: seq<byte>): (ch: nat)
    requires WellFormed(pp)
    ensures ch != 0
    ensures pp.q > 1 ==> ch < pp.q
  {
    var digest := sha(ChallengeInput(pp, c, t, context));
    var challenge := BytesToNat(digest) % pp.q;
    if challenge == 0 then 1 else challenge
  }

  /** `prove_opening` with its two nonces w_m, w_r given (the source draws
      them with `random_scalar`). */
  function ProveOpening(pp: Params, sha: Hash, message: int, opening: Opening, c: Commitment,
                        context: seq<byte>, wm: nat, wr: nat): (proof: Proof)
    requires WellFormed(pp)
    ensures proof.t < pp.p && proof.responseM < pp.q && proof.responseR < pp.q
  {
    var t := (ModPow(pp.g, wm, pp.p) * ModPow(pp.h, wr, pp.p)) % pp.p;
    var challenge := ComputeChallenge(pp, sha, c, t, context);
    var m := message % pp.q;
    Proof(t, (wm + challenge * m) % pp.q, (wr + challenge * opening.randomness) % pp.q)
  }

  /** `verify_opening_proof`: g^s_m h^s_r == t * C^c (mod p). */
  predicate VerifyOpeningProof(pp: Params, sha: Hash, c: Commitment, proof: Proof, context: seq<byte>)
    requires WellFormed(pp)
  {
    var challenge := ComputeChallenge(pp, sha, c, proof.t, context);
    (ModPow(pp.g, proof.responseM, pp.p) * ModPow(pp.h, proof.responseR, pp.p)) % pp.p
      == (proof.t * ModPow(c.value % pp.p, challenge, pp.p)) % pp.p
  }

  /** A response `w + c * x mod q` exponentiates to `b^w * (b^x)^c`. */
  lemma ResponsePower(pp: Params, b: nat, w: nat, x: nat, ch: nat)
    requires ValidParams(pp) && ModPow(b, pp.q, pp.p) == 1
    ensures ModPow(b, (w + ch * x) % pp.q, pp.p) == (ModPow(b, w, pp.p) * ModPow(b, x * ch, pp.p)) % pp.p
  {
    var p, q := pp.p, pp.q;
    var k: nat := x * ch;
    assert ch * x == k;
    var sum: nat := w + k;
    ExponentModOrder(b, sum, q, p);
    ModPowAdd(b, w, k, p);
  }

  /** Completeness: an honest proof for an opening of C verifies against C
      under the same context and the same hash. */
  lemma ProofCompleteness(pp: Params, sha: Hash, c: Commitment, message: int, opening: Opening,
                          context: seq<byte>, wm: nat, wr: nat)
    requires ValidParams(pp)
    requires Verify(pp, c, message, opening)
    ensures VerifyOpeningProof(pp, sha, c, ProveOpening(pp, sha, message, opening, c, context, wm, wr), context)
  {
    var p, q, g, h := pp.p, pp.q, pp.g, pp.h;
    var proof := ProveOpening(pp, sha, message, opening, c, context, wm, wr);
    var m: nat, r := message % q, opening.randomness;
    var ch := ComputeChallenge(pp, sha, c, proof.t, context);
    MulNonNegative(m, ch);
    MulNonNegative(r, ch);
    var mc: nat, rc: nat := m * ch, r * ch;
    var gw, hw := ModPow(g, wm, p), ModPow(h, wr, p);
    var gc, hc := ModPow(g, mc, p), ModPow(h, rc, p);
    ResponsePower(pp, g, wm, m, ch);
    ResponsePower(pp, h, wr, r, ch);
    PowerOfOpened(pp, c, m, r, ch);
    ModPowBase(c.value, ch, p);
    calc {
      (ModPow(g, proof.responseM, p) * ModPow(h, proof.responseR, p)) % p;
      (((gw * gc) % p) * ((hw * hc) % p)) % p;
      { MulModShuffle(gw, hw, gc, hc, p); }
      (((gw * hw) % p) * ((gc * hc) % p)) % p;
      (proof.t * ModPow(c.value % p, ch, p)) % p;
    }
  }

  // ---------------------------------------------------------------------
  // Hex wire forms

  /** `serialize_commitment`. */
  function SerializeCommitment(c: Commitment): (s: string)
    ensures DeserializeCommitment(s) == Some(c)
  {
    HexRoundTrip(c.value);
    Hex(c.value)
  }

  /** `deserialize_commitment`; None where `int(_, 16)` raises. */
  function DeserializeCommitment(s: string): Option<Commitment>
  {
    match FromHex(s)
    case None => None
    case Some(v) => Some(Commitment(v))
  }

  /** `serialize_opening`. */
  function SerializeOpening(o: Opening): (s: string)
    ensures DeserializeOpening(s) == Some(o)
  {
    HexRoundTrip(o.randomness);
    Hex(o.randomness)
  }

  /** `deserialize_opening`. */
  function DeserializeOpening(s: string): Option<Opening>
  {
    match FromHex(s)
    case None => None
    case Some(v) => Some(Opening(v))
  }

  /** `serialize_proof`. */
  function SerializeProof(proof: Proof): (wire: ProofHex)
    ensures DeserializeProof(wire) == Some(proof)
  {
    HexRoundTrip(proof.t);
    HexRoundTrip(proof.responseM);
    HexRoundTrip(proof.responseR);
    ProofHex(Hex(proof.t), Hex(proof.responseM), Hex(proof.responseR))
  }

  /** `deserialize_proof`. */
  function DeserializeProof(wire: ProofHex): Option<Proof>
  {
    match (FromHex(wire.t), FromHex(wire.responseM), FromHex(wire.responseR))
    case (Some(t), Some(sm), Some(sr)) => Some(Proof(t, sm, sr))
    case _ => None
  }
}

/**
 * The SRP-6 arithmetic of `AuthenticateBot` (RFC 2945, with the multiplier
 * k = 3 of the WoW variant): the private exponent the client derives from
 * `getRandomBytes`, the public value A, and the premaster secret
 * S = ((B + k·(N − g^x mod N)) mod N)^(a + u·x) mod N. Big numbers are
 * unbounded naturals; `BigNumber::ModExp` and `operator%` are stated over
 * `Pow`, with OpenSSL's failure on a zero modulus leaving the result 0.
 */
module Srp {
  import opened Bytes
  import opened Wrappers

  /** The SRP-6 multiplier the client uses (`BigNumber k(3)`). */
  const K: nat := 3

  /** b to the power e. */
  function Pow(b: int, e: nat): int
    decreases e
  {
    if e == 0 then 1 else b * Pow(b, e - 1)
  }

  /** `BigNumber::operator%`: the remainder of a division by n; a zero modulus gives 0. */
  function Mod(x: nat, n: nat): (r: nat)
    ensures n > 0 ==> r < n && r == x % n
    ensures n == 0 ==> r == 0
  {
    if n == 0 then 0 else x % n
  }

  /** `BigNumber::ModExp`: b^e mod n, in [0, n); a zero modulus gives 0. */
  function ModExp(b: nat, e: nat, n: nat): (r: nat)
    ensures n > 0 ==> r < n && r == Pow(b, e) % n
    ensures n == 0 ==> r == 0
  {
    if n == 0 then 0 else Pow(b, e) % n
  }

  // ---------------------------------------------------------------------------
  // Modular arithmetic

  /** Euclidean division is unique. */
  lemma DivModUnique(z: int, q: int, r: int, n: int)
    requires n > 0 && 0 <= r < n && z == q * n + r
    ensures z % n == r && z / n == q
  {
    var d := q - z / n;
    assert z == (z / n) * n + z % n;
    Distrib(q, - (z / n), n);
    assert d * n == z % n - r;
    SmallMultiple(d, n);
  }

  /** The only multiple of n strictly between −n and n is 0. */
  lemma SmallMultiple(d: int, n: int)
    requires n > 0 && -n < d * n < n
    ensures d == 0
  {
    if d >= 1 {
      Distrib(d - 1, 1, n);
      NonNegMul(d - 1, n);
    } else if d <= -1 {
      Distrib(-d - 1, 1, n);
      NonNegMul(-d - 1, n);
    }
  }

  lemma NegMul(a: int, n: int)
    ensures (- a) * n == - (a * n)
  {
  }

  lemma NonNegMul(a: int, b: int)
    requires a >= 0 && b >= 0
    ensures a * b >= 0
  {
  }

  lemma Euclid(z: int, n: int)
    requires n > 0
    ensures z == (z / n) * n + z % n && 0 <= z % n < n
  {
  }

  lemma Distrib(a: int, b: int, n: int)
    ensures (a + b) * n == a * n + b * n
  {
  }

  lemma Assoc(c: int, q: int, n: int)
    ensures (c * q) * n == c * (q * n)
  {
  }

  /** A remainder is its own remainder. */
  lemma ModOfMod(z: int, n: int)
    requires n > 0
    ensures (z % n) % n == z % n
  {
    DivModUnique(z % n, 0, z % n, n);
  }

  /** Adding a multiple of n does not change the remainder. */
  lemma ModAddMultiple(x: int, k: int, n: int)
    requires n > 0
    ensures (x + k * n) % n == x % n
  {
    var q, r := x / n, x % n;
    assert x == q * n + r;
    Distrib(q, k, n);
    DivModUnique(x + k * n, q + k, r, n);
  }

  lemma Swap(a: int, b: int, c: int)
    ensures (a * b) * c == (a * c) * b
  {
  }

  /** Replacing the left factor by its remainder keeps the product's remainder. */
  lemma ModMulLeft(x: int, y: int, n: int)
    requires n > 0
    ensures (x * y) % n == ((x % n) * y) % n
  {
    var qx, rx := x / n, x % n;
    Euclid(x, n);
    Distrib(qx * n, rx, y);
    Swap(qx, n, y);
    assert x * y == rx * y + (qx * y) * n;
    ModAddMultiple(rx * y, qx * y, n);
  }

  /** A product's remainder depends only on the factors' remainders. */
  lemma ModMul(x: int, y: int, n: int)
    requires n > 0
    ensures (x * y) % n == ((x % n) * (y % n)) % n
  {
    ModMulLeft(x, y, n);
    ModMulLeft(y, x % n, n);
    assert y * (x % n) == (x % n) * y;
    assert (y % n) * (x % n) == (x % n) * (y % n);
  }

  /** Congruent factors give congruent products. */
  lemma MulCong(x: int, x': int, y: int, y': int, n: int)
    requires n > 0 && x % n == x' % n && y % n == y' % n
    ensures (x * y) % n == (x' * y') % n
  {
    ModMul(x, y, n);
    ModMul(x', y', n);
  }

  /** A power's remainder depends only on the base's remainder. */
  lemma {:induction false} PowMod(b: int, e: nat, n: int)
    requires n > 0
    ensures Pow(b, e) % n == Pow(b % n, e) % n
    decreases e
  {
    if e > 0 {
      PowMod(b, e - 1, n);
      ModOfMod(b, n);
      MulCong(b, b % n, Pow(b, e - 1), Pow(b % n, e - 1), n);
    }
  }

  /** Congruent bases give congruent powers. */
  lemma PowCong(b: int, b': int, e: nat, n: int)
    requires n > 0 && b % n == b' % n
    ensures Pow(b, e) % n == Pow(b', e) % n
  {
    PowMod(b, e, n);
    PowMod(b', e, n);
  }

  lemma {:induction false} PowAdd(b: int, e1: nat, e2: nat)
    ensures Pow(b, e1 + e2) == Pow(b, e1) * Pow(b, e2)
    decreases e1
  {
    if e1 > 0 {
      PowAdd(b, e1 - 1, e2);
      assert Pow(b, e1 + e2) == b * Pow(b, e1 - 1 + e2);
    }
  }

  lemma {:induction false} PowMul(b: int, e1: nat, e2: nat)
    ensures Pow(Pow(b, e1), e2) == Pow(b, e1 * e2)
    decreases e2
  {
    if e2 > 0 {
      PowMul(b, e1, e2 - 1);
      PowAdd(b, e1, e1 * (e2 - 1));
      assert e1 + e1 * (e2 - 1) == e1 * e2;
    }
  }

  // ---------------------------------------------------------------------------
  // The premaster secret

  /** S as `AuthenticateBot` computes it from B, g, N, x, a and u. */
  function ClientSecret(b: nat, g: nat, n: nat, x: nat, a: nat, u: nat): (s: nat)
    ensures n > 0 ==> s < n
  {
    ModExp(Mod(b + K * (n - ModExp(g, x, n)), n), a + u * x, n)
  }

  /** The base the client raises is congruent to B − k·g^x modulo N. */
  lemma BaseCong(b: nat, g: nat, n: nat, x: nat)
    requires n > 0
    ensures Mod(b + K * (n - ModExp(g, x, n)), n) % n == (b - K * Pow(g, x)) % n
  {
    var p := Pow(g, x);
    var qp := p / n;
    var v := ModExp(g, x, n);
    assert p == qp * n + v;
    var z := b + K * (n - v);
    Distrib(K, K * qp, n);
    Assoc(K, qp, n);
    assert z == (b - K * p) + (K + K * qp) * n;
    ModAddMultiple(b - K * p, K + K * qp, n);
    ModOfMod(z, n);
  }

  /**
   * The client's S is (B − k·g^x)^(a + u·x) mod N, the SRP-6 client formula
   * of RFC 5054 section 2.6 with k = 3.
   */
  lemma ClientSecretFormula(b: nat, g: nat, n: nat, x: nat, a: nat, u: nat)
    requires n > 0
    ensures ClientSecret(b, g, n, x, a, u) == Pow(b - K * Pow(g, x), a + u * x) % n
  {
    var base := Mod(b + K * (n - ModExp(g, x, n)), n);
    BaseCong(b, g, n, x);
    PowCong(base, b - K * Pow(g, x), a + u * x, n);
  }

  /** What a server with private value b' sends as B for the verifier v = g^x mod N. */
  function ServerPublic(g: nat, n: nat, x: nat, b': nat): nat
  {
    Mod(K * ModExp(g, x, n) + ModExp(g, b', n), n)
  }

  /** The server's S: (A · v^u)^b' mod N. */
  function ServerSecret(g: nat, n: nat, x: nat, b': nat, A: nat, u: nat): nat
  {
    ModExp(Mod(A * ModExp(ModExp(g, x, n), u, n), n), b', n)
  }

  /** B − k·g^x is congruent to g^b' when B is what an honest server sends. */
  lemma HonestBase(g: nat, n: nat, x: nat, b': nat)
    requires n > 0
    ensures (ServerPublic(g, n, x, b') - K * Pow(g, x)) % n == Pow(g, b') % n
  {
    var p, q := Pow(g, x), Pow(g, b');
    var v, w := ModExp(g, x, n), ModExp(g, b', n);
    var qp := p / n;
    Euclid(p, n);
    var t := K * v + w;
    var qt := t / n;
    var bb := ServerPublic(g, n, x, b');
    Euclid(t, n);
    NegMul(qt, n);
    ModAddMultiple(t - K * p, - qt, n);
    Assoc(K, qp, n);
    NegMul(K * qp, n);
    ModAddMultiple(w, - (K * qp), n);
    ModOfMod(q, n);
  }

  /** A · v^u is congruent to g^(a + u·x) when A = g^a mod N and v = g^x mod N. */
  lemma HonestProduct(g: nat, n: nat, x: nat, a: nat, u: nat)
    requires n > 0
    ensures Mod(ModExp(g, a, n) * ModExp(ModExp(g, x, n), u, n), n) % n == Pow(g, a + u * x) % n
  {
    var A, v := ModExp(g, a, n), ModExp(g, x, n);
    var vu := ModExp(v, u, n);
    ModOfMod(Pow(g, x), n);
    PowCong(v, Pow(g, x), u, n);
    PowMul(g, x, u);
    ModOfMod(Pow(v, u), n);
    assert vu % n == Pow(g, x * u) % n;
    ModOfMod(Pow(g, a), n);
    assert A % n == Pow(g, a) % n;
    MulCong(A, Pow(g, a), vu, Pow(g, x * u), n);
    PowAdd(g, a, x * u);
    assert x * u == u * x;
    ModOfMod(A * vu, n);
  }

  /**
   * SRP-6 agreement: when B comes from an honest server (B = k·v + g^b'),
   * the client's S equals the server's (A · v^u)^b', so both ends derive the
   * same session key. Both are g^((a + u·x)·b') mod N.
   */
  lemma SharedSecret(g: nat, n: nat, x: nat, a: nat, b': nat, u: nat)
    requires n > 0
    ensures ClientSecret(ServerPublic(g, n, x, b'), g, n, x, a, u)
         == ServerSecret(g, n, x, b', ModExp(g, a, n), u)
  {
    var e := a + u * x;
    var bb := ServerPublic(g, n, x, b');
    ClientSecretFormula(bb, g, n, x, a, u);
    HonestBase(g, n, x, b');
    PowCong(bb - K * Pow(g, x), Pow(g, b'), e, n);
    PowMul(g, b', e);
    var base := Mod(ModExp(g, a, n) * ModExp(ModExp(g, x, n), u, n), n);
    HonestProduct(g, n, x, a, u);
    PowCong(base, Pow(g, e), b', n);
    PowMul(g, e, b');
    assert b' * e == e * b';
  }

  // ---------------------------------------------------------------------------
  // The private exponent and A

  /** `getRandomBytes<T>()`: byte i is i, truncated to eight bits. */
  function RandomBytes(t: nat): (r: seq<byte>)
    ensures |r| == t && forall i :: 0 <= i < t ==> r[i] as int == i % 256
  {
    seq(t, i requires 0 <= i < t => (i % 256) as byte)
  }

  /** `getRandomBytes<T>()`, as the loop that fills the array. */
  method GetRandomBytes(t: nat) returns (arr: array<byte>)
    ensures fresh(arr) && arr[..] == RandomBytes(t)
  {
    arr := new byte[t];
    var i := 0;
    while i < t
      invariant 0 <= i <= t
      invariant forall j :: 0 <= j < i ==> arr[j] as int == j % 256
    {
      arr[i] := (i % 256) as byte;
      i := i + 1;
    }
  }

  /** The private exponent a: the 19 bytes 0, 1, …, 18 read as a little-endian number. */
  function PrivateExponent(): nat
  {
    FromLE(RandomBytes(ExponentLength))
  }

  /** How many random bytes make up the private exponent. */
  const ExponentLength: nat := 19

  /** The client seed of the world session: the 4 bytes 0, 1, 2, 3 as a 32-bit word. */
  function OurSeed(): nat
  {
    FromLE(RandomBytes(4))
  }

  /** The private exponent is positive: its second byte is 1. */
  lemma PrivateExponentPositive()
    ensures PrivateExponent() > 0
  {
    var r := RandomBytes(19);
    assert FromLE(r[1..]) == r[1..][0] as nat + 256 * FromLE(r[1..][1..]);
    assert r[1..][0] == 1;
  }

  /** The client seed is always 0x03020100. */
  lemma OurSeedValue()
    ensures OurSeed() == 0x0302_0100
  {
    var s := RandomBytes(4);
    assert s == [0, 1, 2, 3];
    assert FromLE([3]) == 3;
    assert [2, 3][1..] == [3];
    assert FromLE([2, 3]) == 2 + 256 * 3;
    assert [1, 2, 3][1..] == [2, 3];
    assert FromLE([1, 2, 3]) == 1 + 256 * (2 + 256 * 3);
    assert [0, 1, 2, 3][1..] == [1, 2, 3];
  }

  /**
   * The do-while of `AuthenticateBot` as written, for at most `rounds`
   * passes: each pass takes a from `getRandomBytes` and A = g^a mod N, and
   * the loop repeats while A mod N is zero. Since a is the same on every
   * pass, a loop that does not exit after the first pass never does.
   */
  method ChooseAAsWritten(g: nat, n: nat, rounds: nat) returns (r: Option<(nat, nat)>)
    requires rounds > 0
    ensures r.Some? <==> ModExp(ModExp(g, PrivateExponent(), n), 1, n) != 0
    ensures r.Some? ==> r.value == (PrivateExponent(), ModExp(g, PrivateExponent(), n))
  {
    var i := 0;
    r := None;
    while i < rounds
      invariant 0 <= i <= rounds
      invariant r.None? <==> i == 0 || ModExp(ModExp(g, PrivateExponent(), n), 1, n) == 0
      invariant r.Some? ==> r.value == (PrivateExponent(), ModExp(g, PrivateExponent(), n))
      invariant r.Some? ==> i == rounds
    {
      var bytes := GetRandomBytes(19);
      var a := FromLE(bytes[..]);
      var A := ModExp(g, a, n);
      i := i + 1;
      if ModExp(A, 1, n) != 0 {
        r := Some((a, A));
        i := rounds;
      }
    }
  }

  /** A generator that is 0 modulo N (or a modulus of 0 or 1) keeps A at 0 for every positive exponent. */
  lemma ZeroGeneratorStalls(g: nat, n: nat, a: nat)
    requires a > 0 && (n <= 1 || g % n == 0)
    ensures ModExp(ModExp(g, a, n), 1, n) == 0
  {
    if n > 1 {
      PowMod(g, a, n);
      assert Pow(0, a) == 0 * Pow(0, a - 1);
      ModPowOne(ModExp(g, a, n), n);
    }
  }

  /** `A.ModExp(1, N)` is A itself for A below N. */
  lemma ModPowOne(A: nat, n: nat)
    requires A < n
    ensures ModExp(A, 1, n) == A
  {
    assert Pow(A, 1) == A * Pow(A, 0);
  }

  /** The loop with the exit it evidently needs: an error when A would be 0. */
  function ChooseA(g: nat, n: nat): (r: Result<(nat, nat)>)
    ensures r.Success? <==> ModExp(g, PrivateExponent(), n) != 0
    ensures r.Success? ==> r.value.0 == PrivateExponent() && r.value.1 == ModExp(g, PrivateExponent(), n) && 0 < r.value.1 < n
  {
    var a := PrivateExponent();
    var A := ModExp(g, a, n);
    if A == 0 then Failure("A mod N is zero") else Success((a, A))
  }

  /** Where the loop as written exits, it yields what `ChooseA` yields; where it stalls, `ChooseA` fails. */
  lemma ChooseAAgrees(g: nat, n: nat)
    ensures ChooseA(g, n).Success? <==> ModExp(ModExp(g, PrivateExponent(), n), 1, n) != 0
  {
    var A := ModExp(g, PrivateExponent(), n);
    if n > 0 {
      ModPowOne(A, n);
    }
  }
}

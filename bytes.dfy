/**
 * Bytes and the little-endian encodings of unsigned integers that a `memcpy`
 * of a fixed-width integer produces on the little-endian targets the client
 * runs on, plus the ASCII upper-casing that `std::toupper` applies per byte.
 */
module Bytes {
  newtype byte = x: int | 0 <= x < 256

  /** 256 to the power n: the number of values an n-byte integer can hold. */
  function Pow256(n: nat): (r: nat)
    ensures r >= 1
  {
    if n == 0 then 1 else 256 * Pow256(n - 1)
  }

  const U8: nat := 0x100
  const U16: nat := 0x1_0000
  const U32: nat := 0x1_0000_0000
  const U64: nat := 0x1_0000_0000_0000_0000

  lemma Pow256Widths()
    ensures Pow256(1) == U8 && Pow256(2) == U16 && Pow256(4) == U32 && Pow256(8) == U64
  {
    assert Pow256(2) == 256 * 256;
    assert Pow256(4) == 256 * 256 * Pow256(2);
    assert Pow256(8) == 256 * 256 * 256 * 256 * Pow256(4);
  }

  /** The n low-order bytes of v, least significant first. */
  function LE(v: nat, n: nat): (r: seq<byte>)
    ensures |r| == n
  {
    if n == 0 then [] else [(v % 256) as byte] + LE(v / 256, n - 1)
  }

  /** The unsigned integer whose little-endian bytes are s. */
  function FromLE(s: seq<byte>): (r: nat)
  {
    if |s| == 0 then 0 else s[0] as nat + 256 * FromLE(s[1..])
  }

  /** n zero bytes, as `resize` appends them. */
  function Zeros(n: nat): (r: seq<byte>)
    ensures |r| == n && forall i :: 0 <= i < n ==> r[i] == 0
  {
    seq(n, _ => 0)
  }

  lemma DivBound(v: nat, p: nat)
    requires v < 256 * p
    ensures v / 256 < p
  {
  }

  lemma {:induction false} FromLEBound(s: seq<byte>)
    ensures FromLE(s) < Pow256(|s|)
  {
    if |s| > 0 {
      FromLEBound(s[1..]);
      var t := FromLE(s[1..]);
      assert t + 1 <= Pow256(|s| - 1);
      assert 256 * (t + 1) <= 256 * Pow256(|s| - 1);
    }
  }

  /** Decoding the n-byte encoding of a value that fits in n bytes gives the value back. */
  lemma {:induction false} FromLEofLE(v: nat, n: nat)
    requires v < Pow256(n)
    ensures FromLE(LE(v, n)) == v
  {
    if n > 0 {
      DivBound(v, Pow256(n - 1));
      FromLEofLE(v / 256, n - 1);
      var e := LE(v, n);
      assert e[0] as nat == v % 256;
      assert e[1..] == LE(v / 256, n - 1);
    }
  }

  /** Encoding a decoded byte string with its own width gives the bytes back. */
  lemma {:induction false} LEofFromLE(s: seq<byte>)
    ensures LE(FromLE(s), |s|) == s
  {
    if |s| > 0 {
      LEofFromLE(s[1..]);
      var t := FromLE(s[1..]);
      var v := s[0] as nat + 256 * t;
      assert v % 256 == s[0] as nat;
      assert v / 256 == t;
    }
  }

  /** Two values below 256^n with the same n-byte encoding are equal. */
  lemma LEInjective(v: nat, w: nat, n: nat)
    requires v < Pow256(n) && w < Pow256(n) && LE(v, n) == LE(w, n)
    ensures v == w
  {
    FromLEofLE(v, n);
    FromLEofLE(w, n);
  }

  lemma MulDistrib(x: nat, p: nat, y: nat)
    ensures 256 * (x + p * y) == 256 * x + (256 * p) * y
  {
  }

  /** Decoding is compositional: the bytes after the first |a| weigh 256^|a|. */
  lemma {:induction false} FromLESplit(a: seq<byte>, b: seq<byte>)
    ensures FromLE(a + b) == FromLE(a) + Pow256(|a|) * FromLE(b)
  {
    if |a| == 0 {
      assert a + b == b;
    } else {
      var ab := a + b;
      assert ab[1..] == a[1..] + b;
      assert ab[0] == a[0];
      FromLESplit(a[1..], b);
      var x, y, p := FromLE(a[1..]), FromLE(b), Pow256(|a| - 1);
      assert FromLE(ab[1..]) == x + p * y;
      assert FromLE(ab) == a[0] as nat + 256 * (x + p * y);
      MulDistrib(x, p, y);
      assert FromLE(a) == a[0] as nat + 256 * x;
      assert Pow256(|a|) == 256 * p;
    }
  }

  /** `std::toupper` on one byte in the "C" locale. */
  function UpperByte(c: byte): (r: byte)
  {
    if 'a' as byte <= c <= 'z' as byte then c - 32 else c
  }

  /** `std::transform(..., std::toupper)` over a whole string. */
  function Upper(s: seq<byte>): (r: seq<byte>)
    ensures |r| == |s|
    ensures forall i :: 0 <= i < |s| ==> r[i] == UpperByte(s[i])
  {
    seq(|s|, i requires 0 <= i < |s| => UpperByte(s[i]))
  }

  /** Upper-casing is idempotent: no byte it produces is a lower-case letter. */
  lemma UpperIdempotent(s: seq<byte>)
    ensures Upper(Upper(s)) == Upper(s)
  {
  }

  /** The bytes of a character string whose characters are all below 256. */
  function Latin1(s: string): (r: seq<byte>)
    requires forall i :: 0 <= i < |s| ==> s[i] as int < 256
    ensures |r| == |s|
    ensures forall i :: 0 <= i < |s| ==> r[i] as int == s[i] as int
  {
    seq(|s|, i requires 0 <= i < |s| => s[i] as int as byte)
  }

  /** Bitwise exclusive or of the k low bits of a and b. */
  function XorBits(a: nat, b: nat, k: nat): (r: nat)
    ensures r < Pow2(k)
  {
    if k == 0 then 0 else (a % 2 + b % 2) % 2 + 2 * XorBits(a / 2, b / 2, k - 1)
  }

  /** Exclusive or with the same key twice is the identity on k-bit values. */
  lemma {:induction false} XorBitsInvolutive(a: nat, b: nat, k: nat)
    requires a < Pow2(k)
    ensures XorBits(XorBits(a, b, k), b, k) == a
  {
    if k > 0 {
      var x := XorBits(a, b, k);
      var low := (a % 2 + b % 2) % 2;
      var rest := XorBits(a / 2, b / 2, k - 1);
      assert x == low + 2 * rest;
      Halves(low, rest);
      assert (low + b % 2) % 2 == a % 2;
      assert a / 2 < Pow2(k - 1);
      XorBitsInvolutive(a / 2, b / 2, k - 1);
      assert XorBits(x, b, k) == a % 2 + 2 * (a / 2);
    }
  }

  lemma Halves(low: nat, rest: nat)
    requires low < 2
    ensures (low + 2 * rest) % 2 == low && (low + 2 * rest) / 2 == rest
  {
  }

  /** Bitwise exclusive or of two bytes. */
  function XorByte(a: byte, b: byte): (r: byte)
  {
    assert Pow2(8) == 256;
    XorBits(a as nat, b as nat, 8) as byte
  }

  /** Exclusive or with the same key byte twice is the identity. */
  lemma XorByteInvolutive(a: byte, k: byte)
    ensures XorByte(XorByte(a, k), k) == a
  {
    assert Pow2(8) == 256;
    XorBitsInvolutive(a as nat, k as nat, 8);
  }

  function Pow2(i: nat): (r: nat)
    ensures r >= 1
  {
    if i == 0 then 1 else 2 * Pow2(i - 1)
  }

  /** Pow2 outgrows its exponent. */
  lemma {:induction false} Pow2Exceeds(i: nat)
    ensures i < Pow2(i)
  {
    if i > 0 {
      Pow2Exceeds(i - 1);
    }
  }

  /** Bit i of v, least significant first, as `(v & (1 << i)) != 0` tests it. */
  function BitOf(v: nat, i: nat): (r: bool)
  {
    if i == 0 then v % 2 == 1 else BitOf(v / 2, i - 1)
  }

  /** The number whose bit i is bits[i]. */
  function BitsToNat(bits: seq<bool>): (r: nat)
  {
    if |bits| == 0 then 0 else (if bits[0] then 1 else 0) + 2 * BitsToNat(bits[1..])
  }

  lemma {:induction false} BitsToNatBound(bits: seq<bool>)
    ensures BitsToNat(bits) < Pow2(|bits|)
  {
    if |bits| > 0 {
      BitsToNatBound(bits[1..]);
    }
  }

  /** Reading bit i of a number built from a bit list returns the listed bit. */
  lemma {:induction false} BitOfBitsToNat(bits: seq<bool>, i: nat)
    requires i < |bits|
    ensures BitOf(BitsToNat(bits), i) == bits[i]
  {
    var c := if bits[0] then 1 else 0;
    var v := BitsToNat(bits);
    assert v == c + 2 * BitsToNat(bits[1..]);
    assert v / 2 == BitsToNat(bits[1..]);
    if i > 0 {
      BitOfBitsToNat(bits[1..], i - 1);
    }
  }

  /** Bitwise or of the k low bits of a and b. */
  function OrBits(a: nat, b: nat, k: nat): nat
  {
    if k == 0 then 0 else (if a % 2 == 1 || b % 2 == 1 then 1 else 0) + 2 * OrBits(a / 2, b / 2, k - 1)
  }

  /** Bitwise and of the k low bits of a and b. */
  function AndBits(a: nat, b: nat, k: nat): nat
  {
    if k == 0 then 0 else (if a % 2 == 1 && b % 2 == 1 then 1 else 0) + 2 * AndBits(a / 2, b / 2, k - 1)
  }

  /** A value shifted left by s bits shares no set bit with a value below 2^s. */
  lemma {:induction false} AndShiftedZero(x: nat, b: nat, s: nat, k: nat)
    requires b < Pow2(s)
    ensures AndBits(x * Pow2(s), b, k) == 0
  {
    if k > 0 {
      if s == 0 {
        AndZero(x, k);
      } else {
        assert x * Pow2(s) == 2 * (x * Pow2(s - 1));
        AndShiftedZero(x, b / 2, s - 1, k - 1);
      }
    }
  }

  lemma {:induction false} AndZero(a: nat, k: nat)
    ensures AndBits(a, 0, k) == 0
  {
    if k > 0 {
      AndZero(a / 2, k - 1);
    }
  }

  /** The truth value of the k-bit `a | b`: it is non-zero when a or b has a set bit below k. */
  predicate OrTruth(a: nat, b: nat, k: nat)
  {
    a % Pow2(k) != 0 || b % Pow2(k) != 0
  }

  /** The bitwise definition and the truth value agree. */
  lemma {:induction false} OrBitsTruth(a: nat, b: nat, k: nat)
    ensures OrBits(a, b, k) != 0 <==> OrTruth(a, b, k)
  {
    if k > 0 {
      OrBitsTruth(a / 2, b / 2, k - 1);
      ModPow2Step(a, k);
      ModPow2Step(b, k);
    }
  }

  /** The k low bits of v are its lowest bit and the k - 1 low bits of v / 2. */
  lemma ModPow2Step(v: nat, k: nat)
    requires k > 0
    ensures v % Pow2(k) == v % 2 + 2 * ((v / 2) % Pow2(k - 1))
  {
    var p := Pow2(k - 1);
    var h := v / 2;
    var q, r := h / p, h % p;
    assert h == p * q + r;
    assert v == 2 * h + v % 2;
    MulAssoc2(p, q);
    assert v == (2 * p) * q + (2 * r + v % 2);
    ModUnique(v, 2 * p, q, 2 * r + v % 2);
  }

  lemma MulAssoc2(p: nat, q: nat)
    ensures 2 * (p * q) == (2 * p) * q
  {
  }

  /** Division with remainder is unique. */
  lemma ModUnique(v: nat, d: nat, q: nat, r: nat)
    requires d > 0 && v == d * q + r && r < d
    ensures v % d == r
  {
    var q', r' := v / d, v % d;
    assert v == d * q' + r';
    MulStep(d, q, q');
    MulStep(d, q', q);
  }

  lemma MulStep(d: nat, a: nat, b: nat)
    ensures a < b ==> d * a + d <= d * b
  {
    if a < b {
      var k: nat := b - a - 1;
      assert b == a + 1 + k;
      assert d * b == d * a + d + d * k;
      assert d * k >= 0;
    }
  }

  lemma {:induction false} Pow2Add(a: nat, b: nat)
    ensures Pow2(a + b) == Pow2(a) * Pow2(b)
  {
    if a > 0 {
      Pow2Add(a - 1, b);
    }
  }

  lemma Pow2Widths()
    ensures Pow2(8) == 0x100 && Pow2(16) == 0x1_0000 && Pow2(32) == 0x1_0000_0000
  {
    assert Pow2(8) == 0x100;
    Pow2Add(8, 8);
    Pow2Add(16, 16);
  }

  /** A slice of a suffix is a slice of the whole. */
  lemma SliceOfDrop<T>(s: seq<T>, p: nat, i: nat, j: nat)
    requires i <= j && p + j <= |s|
    ensures s[p..][i..j] == s[p + i..p + j]
  {
  }

  /** The middle part of x + (y + z). */
  lemma MiddleOfConcat<T>(x: seq<T>, y: seq<T>, z: seq<T>)
    ensures (x + (y + z))[|x|..|x| + |y|] == y
  {
  }

  /** Appending to a concatenation appends to its second part. */
  lemma AppendAssoc<T>(a: seq<T>, b: seq<T>, c: seq<T>)
    ensures (a + b) + c == a + (b + c)
  {
  }

  /** A slice inside the first part of a concatenation. */
  lemma SliceLeft<T>(x: seq<T>, y: seq<T>, i: nat, j: nat)
    requires i <= j <= |x|
    ensures (x + y)[i..j] == x[i..j]
  {
  }

  /** A slice inside the second part of a concatenation. */
  lemma SliceRight<T>(x: seq<T>, y: seq<T>, i: nat, j: nat)
    requires |x| <= i <= j <= |x| + |y|
    ensures (x + y)[i..j] == y[i - |x|..j - |x|]
  {
  }

  /** A non-empty sequence is its head followed by its tail. */
  lemma ConsSplit<T>(s: seq<T>)
    requires s != []
    ensures [s[0]] + s[1..] == s
  {
  }
}

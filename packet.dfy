/**
 * The packet buffer shared by world and auth packets: a byte vector `m_data`
 * with a read cursor `m_read_ctr`, typed little-endian reads and writes, the
 * 6-byte world header (2-byte big-endian size, 4-byte opcode), `Prepare`'s
 * size patch and header encryption, and packed GUIDs.
 */
module Packet {
  import opened Bytes
  import opened Cipher

  /** `WorldPacket` or `AuthPacket`: they differ only in where the payload starts. */
  datatype Kind = World | Auth

  /** Where `Reset` puts the cursor: after the 6 header bytes of a world packet, at 0 for an auth packet. */
  function HeaderSize(k: Kind): (r: nat)
    ensures r == 6 || r == 0
  {
    match k
    case World => 6
    case Auth => 0
  }

  /** The position of the first NUL in s. */
  function FirstZero(s: seq<byte>): (i: nat)
    requires 0 in s
    ensures i < |s| && s[i] == 0 && 0 !in s[..i]
  {
    if s[0] == 0 then 0 else 1 + FirstZero(s[1..])
  }

  /** The big-endian bytes of the 16-bit size field that `Prepare` writes. */
  function SizeField(dataLen: int): (r: seq<byte>)
    ensures |r| == 2
  {
    var size := (dataLen - 2) % U16;
    [(size / 256) as byte, (size % 256) as byte]
  }

  /** Reading the size field back big-endian gives |data| - 2, modulo 2^16. */
  lemma SizeFieldValue(dataLen: int)
    ensures SizeField(dataLen)[0] as int * 256 + SizeField(dataLen)[1] as int == (dataLen - 2) % U16
    ensures 2 <= dataLen < U16 + 2 ==> SizeField(dataLen)[0] as int * 256 + SizeField(dataLen)[1] as int == dataLen - 2
  {
  }

  /** Bits i..7 of a packed-GUID mask: how many GUID bytes follow for them. */
  function PackedLen(mask: byte, i: nat): (n: nat)
    requires i <= 8
    ensures n <= 8 - i
    decreases 8 - i
  {
    if i == 8 then 0 else (if BitOf(mask as nat, i) then 1 else 0) + PackedLen(mask, i + 1)
  }

  /** Byte b at position i of a little-endian number: b * 256^i. */
  function Weight(b: byte, i: nat): nat
  {
    b as nat * Pow256(i)
  }

  /**
   * The part of a packed GUID that bits i..7 of the mask denote: for each set
   * bit j, in ascending order, the next byte of bs shifted left by 8*j.
   */
  function PackedValue(mask: byte, bs: seq<byte>, i: nat): (v: nat)
    requires i <= 8 && PackedLen(mask, i) <= |bs|
    decreases 8 - i
  {
    if i == 8 then 0
    else if BitOf(mask as nat, i) then Weight(bs[0], i) + PackedValue(mask, bs[1..], i + 1)
    else PackedValue(mask, bs, i + 1)
  }

  /** The mask of a GUID's packed form: bit i is set iff byte i of the GUID is not zero. */
  function GuidMask(guid: nat): (m: byte)
    requires guid < U64
  {
    var b := LE(guid, 8);
    BitsToNatBound(seq(8, i requires 0 <= i < 8 => b[i] != 0));
    assert Pow2(8) == 256;
    BitsToNat(seq(8, i requires 0 <= i < 8 => b[i] != 0)) as byte
  }

  /** The non-zero bytes of b from index i on, in order. */
  function NonZeroFrom(b: seq<byte>, i: nat): (r: seq<byte>)
    requires i <= |b|
    ensures |r| <= |b| - i
    decreases |b| - i
  {
    if i == |b| then [] else (if b[i] != 0 then [b[i]] else []) + NonZeroFrom(b, i + 1)
  }

  /** The packed form of a GUID: its mask byte followed by its non-zero bytes. */
  function PackGuid(guid: nat): (r: seq<byte>)
    requires guid < U64
  {
    [GuidMask(guid)] + NonZeroFrom(LE(guid, 8), 0)
  }

  /** Σ b[j] * 256^j over j >= i. */
  function WeightedFrom(b: seq<byte>, i: nat): (v: nat)
    requires i <= |b|
    decreases |b| - i
  {
    if i == |b| then 0 else Weight(b[i], i) + WeightedFrom(b, i + 1)
  }

  lemma {:induction false} WeightedFromLE(b: seq<byte>, i: nat)
    requires i <= |b|
    ensures WeightedFrom(b, i) == Pow256(i) * FromLE(b[i..])
    decreases |b| - i
  {
    if i < |b| {
      WeightedFromLE(b, i + 1);
      assert b[i..][1..] == b[i + 1..];
      var p, x, y := Pow256(i), b[i] as nat, FromLE(b[i + 1..]);
      assert FromLE(b[i..]) == x + 256 * y;
      assert Pow256(i + 1) == 256 * p;
      MulSplit(p, x, y);
    }
  }

  lemma MulSplit(p: nat, x: nat, y: nat)
    ensures p * (x + 256 * y) == x * p + (256 * p) * y
  {
  }

  lemma {:induction false} PackedValueOfGuid(b: seq<byte>, mask: byte, i: nat)
    requires |b| == 8 && i <= 8
    requires forall j :: 0 <= j < 8 ==> (BitOf(mask as nat, j) <==> b[j] != 0)
    ensures PackedLen(mask, i) == |NonZeroFrom(b, i)|
    ensures PackedValue(mask, NonZeroFrom(b, i), i) == WeightedFrom(b, i)
    decreases 8 - i
  {
    if i < 8 {
      PackedValueOfGuid(b, mask, i + 1);
      if b[i] != 0 {
        assert NonZeroFrom(b, i) == [b[i]] + NonZeroFrom(b, i + 1);
        assert NonZeroFrom(b, i)[1..] == NonZeroFrom(b, i + 1);
      } else {
        assert NonZeroFrom(b, i) == NonZeroFrom(b, i + 1);
      }
    }
  }

  /** Unpacking the packed form of a GUID gives the GUID back, consuming every byte written. */
  lemma PackedGuidRoundTrip(guid: nat)
    requires guid < U64
    ensures var p := PackGuid(guid);
      PackedLen(p[0], 0) == |p| - 1 && PackedValue(p[0], p[1..], 0) == guid
  {
    var b := LE(guid, 8);
    var bits := seq(8, i requires 0 <= i < 8 => b[i] != 0);
    var mask := GuidMask(guid);
    forall j | 0 <= j < 8
      ensures BitOf(mask as nat, j) <==> b[j] != 0
    {
      BitOfBitsToNat(bits, j);
    }
    PackedValueOfGuid(b, mask, 0);
    WeightedFromLE(b, 0);
    Pow256Widths();
    FromLEofLE(guid, 8);
    assert b[0..] == b;
    assert PackGuid(guid)[1..] == NonZeroFrom(b, 0);
  }

  /** A zero mask carries no bytes and denotes GUID 0; GUID 0 packs to the single byte 0. */
  lemma PackedZero()
    ensures PackedLen(0, 0) == 0 && PackedValue(0, [], 0) == 0
    ensures PackGuid(0) == [0]
  {
    assert forall i :: 0 <= i <= 8 ==> PackedLen(0, i) == 0 by {
      forall i | 0 <= i <= 8 ensures PackedLen(0, i) == 0 {
        ZeroMaskLen(i);
      }
    }
    ZeroMaskValue(0);
    var b := LE(0, 8);
    assert forall j :: 0 <= j < 8 ==> b[j] == 0 by {
      LEZero(8);
    }
    ZeroNonZeroFrom(b, 0);
    var bits := seq(8, i requires 0 <= i < 8 => b[i] != 0);
    assert bits == seq(8, _ => false);
    BitsToNatFalse(8);
  }

  lemma {:induction false} ZeroMaskLen(i: nat)
    requires i <= 8
    ensures PackedLen(0, i) == 0
    decreases 8 - i
  {
    if i < 8 {
      ZeroBit(i);
      ZeroMaskLen(i + 1);
    }
  }

  lemma {:induction false} ZeroMaskValue(i: nat)
    requires i <= 8
    ensures PackedLen(0, i) == 0 && PackedValue(0, [], i) == 0
    decreases 8 - i
  {
    ZeroMaskLen(i);
    if i < 8 {
      ZeroBit(i);
      ZeroMaskValue(i + 1);
    }
  }

  lemma {:induction false} ZeroBit(i: nat)
    ensures !BitOf(0, i)
  {
    if i > 0 {
      ZeroBit(i - 1);
    }
  }

  lemma {:induction false} LEZero(n: nat)
    ensures forall j :: 0 <= j < n ==> LE(0, n)[j] == 0
  {
    if n > 0 {
      LEZero(n - 1);
    }
  }

  lemma {:induction false} ZeroNonZeroFrom(b: seq<byte>, i: nat)
    requires i <= |b| && forall j :: i <= j < |b| ==> b[j] == 0
    ensures NonZeroFrom(b, i) == []
    decreases |b| - i
  {
    if i < |b| {
      ZeroNonZeroFrom(b, i + 1);
    }
  }

  lemma {:induction false} BitsToNatFalse(n: nat)
    ensures BitsToNat(seq(n, _ => false)) == 0
  {
    if n > 0 {
      assert seq(n, _ => false)[1..] == seq(n - 1, _ => false);
      BitsToNatFalse(n - 1);
    }
  }

  class Packet {
    /** `m_data`. */
    var data: seq<byte>
    /** `m_read_ctr`. */
    var ctr: nat
    const kind: Kind

    /** `WorldPacket(Opcodes)`: a zero size field, the opcode in bytes 2..5, the cursor after the header. */
    constructor WithOpcode(opcode: nat)
      requires opcode < U32
      ensures kind == World && data == [0, 0] + LE(opcode, 4) && ctr == 6
    {
      kind := World;
      data := [0, 0] + LE(opcode, 4);
      ctr := 6;
    }

    /** `WorldPacket(vector)` and `AuthPacket(vector)`: the given bytes, the cursor at the payload start. */
    constructor OfBytes(k: Kind, bytes: seq<byte>)
      ensures kind == k && data == bytes && ctr == HeaderSize(k)
    {
      kind := k;
      data := bytes;
      ctr := HeaderSize(k);
    }

    /** `AuthPacket(size_t)`: an empty auth packet; the size is only a capacity hint. */
    constructor EmptyAuth()
      ensures kind == Auth && data == [] && ctr == 0
    {
      kind := Auth;
      data := [];
      ctr := 0;
    }

    /** `Read<T>` for an unsigned T of n bytes: the n bytes at the cursor, little-endian. */
    method Read(n: nat) returns (v: nat)
      requires ctr + n <= |data|
      modifies this
      ensures v == FromLE(old(data)[old(ctr)..old(ctr) + n]) && v < Pow256(n)
      ensures ctr == old(ctr) + n && data == old(data)
    {
      v := FromLE(data[ctr..ctr + n]);
      FromLEBound(data[ctr..ctr + n]);
      ctr := ctr + n;
    }

    /** `ReadBytes(n)`: the n bytes at the cursor. */
    method ReadBytes(n: nat) returns (s: seq<byte>)
      requires ctr + n <= |data|
      modifies this
      ensures s == old(data)[old(ctr)..old(ctr) + n]
      ensures ctr == old(ctr) + n && data == old(data)
    {
      s := data[ctr..ctr + n];
      ctr := ctr + n;
    }

    /** `ReadString(n)`: the same n bytes as `ReadBytes`, as a string. */
    method ReadString(n: nat) returns (s: seq<byte>)
      requires ctr + n <= |data|
      modifies this
      ensures s == old(data)[old(ctr)..old(ctr) + n]
      ensures ctr == old(ctr) + n && data == old(data)
    {
      s := ReadBytes(n);
    }

    /**
     * `ReadCString`, as written: it scans from index 0 of the buffer, not from
     * the cursor, and advances the cursor by the length of what it found,
     * without counting the terminating NUL.
     */
    method ReadCString() returns (s: seq<byte>)
      requires 0 in data
      modifies this
      ensures 0 !in s && |s| < |data| && data[|s|] == 0 && s == data[..|s|]
      ensures ctr == old(ctr) + |s| && data == old(data)
    {
      s := [];
      var i := 0;
      while data[i] != 0
        invariant 0 <= i < |data| && s == data[..i] && 0 !in s
        invariant 0 in data[i..]
        decreases |data| - i
      {
        assert data[i..] == [data[i]] + data[i + 1..];
        s := s + [data[i]];
        i := i + 1;
      }
      ctr := ctr + |s|;
    }

    /** The reader the C-string fields evidently need: from the cursor, consuming the NUL. */
    method ReadCStringAtCursor() returns (s: seq<byte>)
      requires ctr <= |data| && 0 in data[ctr..]
      modifies this
      ensures 0 !in s && old(ctr) + |s| < |data| && data[old(ctr) + |s|] == 0
      ensures s == data[old(ctr)..old(ctr) + |s|]
      ensures ctr == old(ctr) + |s| + 1 && data == old(data)
    {
      s := [];
      var i := ctr;
      while data[i] != 0
        invariant ctr <= i < |data| && s == data[ctr..i] && 0 !in s
        invariant 0 in data[i..]
        decreases |data| - i
      {
        assert data[i..] == [data[i]] + data[i + 1..];
        s := s + [data[i]];
        i := i + 1;
      }
      ctr := i + 1;
    }

    /** `Write<T>(v)` for an unsigned T of n bytes: appends v's n bytes, little-endian. */
    method Write(n: nat, v: nat)
      requires v < Pow256(n)
      modifies this
      ensures data == old(data) + LE(v, n) && ctr == old(ctr)
    {
      data := data + LE(v, n);
    }

    /** `WriteBytes(container)`: appends the bytes. */
    method WriteBytes(s: seq<byte>)
      modifies this
      ensures data == old(data) + s && ctr == old(ctr)
    {
      data := data + s;
    }

    /** `WriteString(s)`: appends the string's bytes, with no length and no terminator. */
    method WriteString(s: seq<byte>)
      modifies this
      ensures data == old(data) + s && ctr == old(ctr)
    {
      WriteBytes(s);
    }

    /** `WriteCString(s)`: appends the string's bytes and one NUL. */
    method WriteCString(s: seq<byte>)
      modifies this
      ensures data == old(data) + s + [0] && ctr == old(ctr)
    {
      WriteString(s);
      data := data + [0];
    }

    /** `WritePadding(n)`: appends n zero bytes. */
    method WritePadding(n: nat)
      requires n < U32
      modifies this
      ensures data == old(data) + Zeros(n) && ctr == old(ctr)
    {
      data := data + Zeros(n);
    }

    /**
     * `WritePackedGUID(guid)`: declared for world packets but defined nowhere
     * in the repository; the model supplies the inverse of `ReadPackedGUID`.
     */
    method WritePackedGUID(guid: nat)
      requires guid < U64
      modifies this
      ensures data == old(data) + PackGuid(guid) && ctr == old(ctr)
    {
      WriteBytes(PackGuid(guid));
    }

    /** `Reset`: back to the start of the payload. */
    method Reset()
      modifies this
      ensures ctr == HeaderSize(kind) && data == old(data)
    {
      ctr := HeaderSize(kind);
    }

    /** `Seek(offset)`: to an offset from the start of the payload, in 32-bit arithmetic. */
    method Seek(offset: nat)
      requires offset < U32
      modifies this
      ensures ctr == (offset + HeaderSize(kind)) % U32 && data == old(data)
    {
      ctr := (offset + HeaderSize(kind)) % U32;
    }

    /** `GetOpcode`: the 32-bit opcode in bytes 2..5 of a world packet. */
    function GetOpcode(): (op: nat)
      reads this`data
      requires kind == World && |data| >= 6
      ensures op < U32
    {
      Pow256Widths();
      FromLEBound(data[2..6]);
      FromLE(data[2..6])
    }

    /** `SetOpcode`: overwrites bytes 2..5 and nothing else. */
    method SetOpcode(opcode: nat)
      requires kind == World && |data| >= 6 && opcode < U32
      modifies this
      ensures |data| == |old(data)| && data[..2] == old(data)[..2] && data[6..] == old(data)[6..]
      ensures GetOpcode() == opcode && ctr == old(ctr)
    {
      data := data[..2] + LE(opcode, 4) + data[6..];
      assert data[2..6] == LE(opcode, 4);
      Pow256Widths();
      FromLEofLE(opcode, 4);
    }

    /** `GetPayloadSize`: |data| - 6 as a 16-bit value. */
    function GetPayloadSize(): (n: nat)
      reads this
      requires kind == World
      ensures n < U16
      ensures 6 <= |data| < 6 + U16 ==> n == |data| - 6
    {
      (|data| - 6) % U16
    }

    /**
     * `Prepare`: writes |data| - 2 big-endian into bytes 0..1 and, when the
     * bot has an encrypt cipher, passes exactly the 6 header bytes through it.
     */
    method Prepare(enc: Arc4?)
      requires kind == World && |data| >= 6
      modifies this, enc
      ensures enc == null ==> data == SizeField(|old(data)|) + old(data)[2..]
      ensures enc != null ==> data == Apply(enc.keystream, old(enc.pos), SizeField(|old(data)|) + old(data)[2..6]) + old(data)[6..]
      ensures enc != null ==> enc.pos == old(enc.pos) + 6
      ensures |data| == |old(data)| && data[6..] == old(data)[6..] && ctr == old(ctr)
    {
      data := SizeField(|data|) + data[2..];
      if enc != null {
        var header := enc.UpdateData(data[..6]);
        data := header + data[6..];
      }
    }

    /**
     * `ReadPackedGUID`: a mask byte, then one byte for each set bit in
     * ascending order; a zero mask yields GUID 0 after consuming the mask alone.
     */
    method ReadPackedGUID() returns (guid: nat)
      requires kind == World
      requires ctr < |data| && ctr + 1 + PackedLen(data[ctr], 0) <= |data|
      modifies this
      ensures guid == PackedValue(old(data)[old(ctr)], old(data)[old(ctr) + 1..], 0)
      ensures ctr == old(ctr) + 1 + PackedLen(old(data)[old(ctr)], 0) && data == old(data)
    {
      var k;
      guid, k := Unpack(data[ctr], data[ctr + 1..]);
      ctr := ctr + 1 + k;
    }
  }

  /** The loop of `ReadPackedGUID` over the mask bits and the bytes after the mask. */
  method Unpack(mask: byte, bs: seq<byte>) returns (guid: nat, k: nat)
    requires PackedLen(mask, 0) <= |bs|
    ensures guid == PackedValue(mask, bs, 0) && k == PackedLen(mask, 0)
  {
    guid, k := 0, 0;
    var i := 0;
    while i < 8
      invariant 0 <= i <= 8 && k + PackedLen(mask, i) == PackedLen(mask, 0)
      invariant PackedValue(mask, bs, 0) == guid + PackedValue(mask, bs[k..], i)
    {
      var rest := bs[k..];
      PackedStep(mask, rest, i);
      if BitOf(mask as nat, i) {
        assert rest[1..] == bs[k + 1..];
        guid, k := guid + Weight(rest[0], i), k + 1;
      }
      i := i + 1;
    }
  }

  /** One step of unpacking: bit i either takes the next byte at weight 256^i or is skipped. */
  lemma PackedStep(mask: byte, bs: seq<byte>, i: nat)
    requires i < 8 && PackedLen(mask, i) <= |bs|
    ensures BitOf(mask as nat, i) ==>
      |bs| > 0 && PackedLen(mask, i) == 1 + PackedLen(mask, i + 1) &&
      PackedValue(mask, bs, i) == Weight(bs[0], i) + PackedValue(mask, bs[1..], i + 1)
    ensures !BitOf(mask as nat, i) ==>
      PackedLen(mask, i) == PackedLen(mask, i + 1) && PackedValue(mask, bs, i) == PackedValue(mask, bs, i + 1)
  {
  }

  lemma {:induction false} ZeroValueAny(bs: seq<byte>, i: nat)
    requires i <= 8
    ensures PackedLen(0, i) == 0 && PackedValue(0, bs, i) == 0
    decreases 8 - i
  {
    ZeroMaskLen(i);
    if i < 8 {
      ZeroBit(i);
      ZeroValueAny(bs, i + 1);
    }
  }

  /**
   * Round trip of `Write<T>` and `Read<T>`: the n bytes that a write appends,
   * read back from where the buffer used to end, decode to the value written.
   */
  lemma ReadAfterWrite(data: seq<byte>, n: nat, v: nat)
    requires v < Pow256(n)
    ensures FromLE((data + LE(v, n))[|data|..|data| + n]) == v
  {
    assert (data + LE(v, n))[|data|..|data| + n] == LE(v, n);
    FromLEofLE(v, n);
  }

  /** A C string written with `WriteCString` at the cursor is what the cursor reader returns. */
  lemma CStringRoundTrip(data: seq<byte>, s: seq<byte>)
    requires 0 !in s
    ensures var d := data + s + [0];
      0 in d[|data|..] && FirstZero(d[|data|..]) == |s| && d[|data|..|data| + |s|] == s
  {
    var d := data + s + [0];
    assert d[|data|..] == s + [0];
    FirstZeroOf(s);
  }

  lemma {:induction false} FirstZeroOf(s: seq<byte>)
    requires 0 !in s
    ensures FirstZero(s + [0]) == |s|
  {
    if |s| > 0 {
      assert (s + [0])[1..] == s[1..] + [0];
      assert 0 !in s[1..] by {
        assert forall x :: x in s[1..] ==> x in s;
      }
      FirstZeroOf(s[1..]);
    }
  }

  /**
   * The as-written `ReadCString` ignores the cursor: in the buffer
   * "A\0BC\0" with the cursor at the second string, it yields "A" where the
   * string written there was "BC", and the cursor lands on 'C', not after the NUL.
   */
  lemma ReadCStringIgnoresCursor()
    ensures var data: seq<byte> := [0x41, 0, 0x42, 0x43, 0];
      FirstZero(data) == 1 && data[..FirstZero(data)] == [0x41]
      && FirstZero(data[2..]) == 2 && data[2..2 + FirstZero(data[2..])] == [0x42, 0x43]
  {
    var data: seq<byte> := [0x41, 0, 0x42, 0x43, 0];
    assert data[1..][0] == 0;
    assert data[2..][1..][1..][0] == 0;
  }

  /** Any result the as-written `ReadCString` contract allows is the prefix before the buffer's first NUL. */
  lemma CStringPrefixUnique(data: seq<byte>, s: seq<byte>)
    requires 0 in data && 0 !in s && |s| < |data| && data[|s|] == 0 && s == data[..|s|]
    ensures |s| == FirstZero(data)
  {
  }
}

/**
 * `WorldPacket::ReadWorldPacket`: how an inbound world packet is framed. The
 * server sends a 2- or 3-byte big-endian size (3 bytes when the top bit of
 * the first decrypted byte is set), a 2-byte opcode, then size - 2 payload
 * bytes. Once the session key is set, every header byte goes through the
 * receive cipher in arrival order; payload bytes never do. The packet handed
 * on has the client's own 6-byte layout: 2 zero bytes, a 4-byte opcode, the
 * payload.
 */
module Framing {
  import opened Bytes
  import opened Wrappers
  import opened Cipher
  import opened Stream
  import opened Packet

  /** The receive cipher's keystream, when the bot has one. */
  function KeyOf(dec: Arc4?): Option<nat -> byte>
  {
    if dec == null then None else Some(dec.keystream)
  }

  /** Header bytes as the client sees them: decrypted when there is a cipher, as received otherwise. */
  function Crypt(key: Option<nat -> byte>, off: nat, s: seq<byte>): (r: seq<byte>)
    ensures |r| == |s|
  {
    match key
    case None => s
    case Some(ks) => Apply(ks, off, s)
  }

  /** What one call of `ReadWorldPacket` does to the stream. */
  datatype FrameRead =
    | Frame(packet: seq<byte>, consumed: nat, decrypted: nat)
    | Eof(decrypted: nat)

  /** The size field of a decrypted header: 3 bytes when the first has its top bit set, else 2. */
  function SizeOf(h: seq<byte>): (size: nat)
    requires |h| >= 1 && (h[0] >= 128 ==> |h| >= 3) && |h| >= 2
    ensures size < 0x80_0000
  {
    if h[0] >= 128 then (h[0] as nat - 128) * 0x1_0000 + h[1] as nat * 256 + h[2] as nat
    else h[0] as nat * 256 + h[1] as nat
  }

  /** The 16-bit little-endian opcode that ends a decrypted header. */
  function OpcodeOf(h: seq<byte>): (op: nat)
    requires |h| >= 2
    ensures op < U16
  {
    h[|h| - 2] as nat + 256 * h[|h| - 1] as nat
  }

  /** The payload length: the size field minus the 2 opcode bytes, on a uint32, so a size below 2 wraps. */
  function PayloadLen(h: seq<byte>): nat
    requires |h| >= 1 && (h[0] >= 128 ==> |h| >= 3) && |h| >= 2
  {
    (SizeOf(h) - 2) % U32
  }

  /** The client's layout of a received packet: 2 zero bytes, the opcode as a uint32, the payload. */
  function ReceivedPacket(opcode: nat, payload: seq<byte>): (r: seq<byte>)
    ensures |r| == 6 + |payload|
  {
    [0, 0] + LE(opcode, 4) + payload
  }

  /** 5 header bytes when the first decrypted byte has its top bit set, else 4. */
  function HeaderLen(input: seq<byte>, key: Option<nat -> byte>, off: nat): (hl: nat)
    requires |input| >= 1
    ensures hl == 4 || hl == 5
  {
    if Crypt(key, off, input[..1])[0] >= 128 then 5 else 4
  }

  /** How many header bytes went through the cipher before the stream ran out. */
  function EofDecrypted(input: seq<byte>, key: Option<nat -> byte>, off: nat): (n: nat)
  {
    if |input| < 1 then 0
    else if |input| < HeaderLen(input, key, off) - 2 then 1
    else if |input| < HeaderLen(input, key, off) then HeaderLen(input, key, off) - 2
    else HeaderLen(input, key, off)
  }

  /** Whether the whole header is on the stream. */
  predicate HasHeader(input: seq<byte>, key: Option<nat -> byte>, off: nat)
  {
    |input| >= 1 && |input| >= HeaderLen(input, key, off)
  }

  /**
   * The reference definition of one read: input is everything left on the
   * stream, key and off the receive cipher and its position.
   */
  function ReadFrame(input: seq<byte>, key: Option<nat -> byte>, off: nat): (f: FrameRead)
    ensures f.Frame? ==> 4 <= f.decrypted <= f.consumed <= |input| && f.decrypted <= 5 && |f.packet| >= 6
    ensures f.Eof? ==> f.decrypted <= 5
  {
    if !HasHeader(input, key, off) then Eof(EofDecrypted(input, key, off))
    else
      var hl := HeaderLen(input, key, off);
      var h := Crypt(key, off, input[..hl]);
      var plen := PayloadLen(h);
      if |input| < hl + plen then Eof(hl)
      else Frame(ReceivedPacket(OpcodeOf(h), input[hl..hl + plen]), hl + plen, hl)
  }

  /** The header bytes read so far are the decryption of the bytes consumed so far. */
  lemma CryptSplit(key: Option<nat -> byte>, off: nat, next: nat, a: seq<byte>, b: seq<byte>)
    requires next == off + |a|
    ensures Crypt(key, off, a + b) == Crypt(key, off, a) + Crypt(key, next, b)
  {
    match key
    case None =>
    case Some(ks) =>
      ApplySplit(ks, off, a, b);
      assert Apply(ks, off + |a|, b) == Apply(ks, next, b);
  }

  lemma CryptInvolutive(key: Option<nat -> byte>, off: nat, s: seq<byte>)
    ensures Crypt(key, off, Crypt(key, off, s)) == s
  {
    if key.Some? {
      ApplyInvolutive(key.value, off, s);
    }
  }

  /** Pass s through the receive cipher when there is one; off is the cipher's position. */
  method Decrypt(dec: Arc4?, s: seq<byte>, ghost key: Option<nat -> byte>, ghost off: nat) returns (r: seq<byte>)
    requires key == KeyOf(dec) && (dec != null ==> dec.pos == off)
    modifies dec
    ensures r == Crypt(key, off, s)
    ensures dec != null ==> dec.pos == off + |s|
  {
    r := s;
    if dec != null {
      r := dec.UpdateData(s);
    }
  }

  /** The size field of `ReadWorldPacket`: the first byte, decrypted, then one or two more as it says. */
  method ReadSizeField(s: InStream, dec: Arc4?, ghost key: Option<nat -> byte>, ghost off: nat) returns (sz: Option<seq<byte>>)
    requires s.Valid() && key == KeyOf(dec) && (dec != null ==> dec.pos == off)
    modifies s, dec
    ensures s.Valid()
    ensures var input := s.data[old(s.pos)..];
      if |input| >= 1 && |input| >= HeaderLen(input, key, off) - 2 then
        var n := HeaderLen(input, key, off) - 2;
        sz == Some(Crypt(key, off, input[..n])) && s.pos == old(s.pos) + n && (dec != null ==> dec.pos == off + n)
      else
        sz.None? && s.pos == |s.data| && (dec != null ==> dec.pos == off + if |input| < 1 then 0 else 1)
  {
    ghost var p0, input := s.pos, s.data[s.pos..];
    var first := s.Read(1);
    if first.None? {
      return None;
    }
    Prefix(s.data, p0, 0, 1);
    var b := Decrypt(dec, first.value, key, off);
    sz := ReadSizeRest(s, dec, key, off, b, p0, input);
  }

  /** The rest of the size field, after its first byte b was read at p0 and decrypted. */
  method ReadSizeRest(s: InStream, dec: Arc4?, ghost key: Option<nat -> byte>, ghost off: nat, b: seq<byte>, ghost p0: nat, ghost input: seq<byte>)
    returns (sz: Option<seq<byte>>)
    requires s.Valid() && key == KeyOf(dec) && (dec != null ==> dec.pos == off + 1)
    requires p0 + 1 == s.pos && input == s.data[p0..] && b == Crypt(key, off, input[..1])
    modifies s, dec
    ensures s.Valid()
    ensures var n := HeaderLen(input, key, off) - 2;
      if |input| >= n then
        sz == Some(Crypt(key, off, input[..n])) && s.pos == p0 + n && (dec != null ==> dec.pos == off + n)
      else
        sz.None? && s.pos == |s.data| && (dec != null ==> dec.pos == off + 1)
  {
    var sizeLen := if b[0] >= 128 then 2 else 1;
    var more := s.Read(sizeLen);
    if more.None? {
      return None;
    }
    Prefix(s.data, p0, 1, 1 + sizeLen);
    CryptSplit(key, off, off + 1, input[..1], more.value);
    var sb := Decrypt(dec, more.value, key, off + 1);
    sz := Some(b + sb);
  }

  /** The header part of `ReadWorldPacket`: the size byte or bytes, then the opcode, each decrypted as read. */
  method ReadHeader(s: InStream, dec: Arc4?) returns (h: Option<seq<byte>>)
    requires s.Valid()
    modifies s, dec
    ensures s.Valid()
    ensures var input, key, off := s.data[old(s.pos)..], KeyOf(dec), if dec == null then 0 else old(dec.pos);
      if HasHeader(input, key, off) then
        var hl := HeaderLen(input, key, off);
        h == Some(Crypt(key, off, input[..hl])) && s.pos == old(s.pos) + hl &&
        (dec != null ==> dec.pos == old(dec.pos) + hl)
      else
        h.None? && s.pos == |s.data| && (dec != null ==> dec.pos == old(dec.pos) + EofDecrypted(input, key, off))
  {
    ghost var p0, input := s.pos, s.data[s.pos..];
    ghost var off := if dec == null then 0 else dec.pos;
    ghost var key := KeyOf(dec);
    var size := ReadSizeField(s, dec, key, off);
    if size.None? {
      return None;
    }
    ghost var n := |size.value|;
    var cmd := s.Read(2);
    if cmd.None? {
      return None;
    }
    Prefix(s.data, p0, n, n + 2);
    CryptSplit(key, off, off + n, input[..n], cmd.value);
    var cb := Decrypt(dec, cmd.value, key, off + n);
    h := Some(size.value + cb);
  }

  /** A prefix of data[p0..] grows by the bytes read next. */
  lemma Prefix(data: seq<byte>, p0: nat, i: nat, j: nat)
    requires i <= j && p0 + j <= |data|
    ensures data[p0..][..j] == data[p0..p0 + j]
    ensures data[p0..][..j] == data[p0..][..i] + data[p0 + i..p0 + j]
  {
  }

  /** `ReadWorldPacket(bot)`: `None` where the socket read would fail at end of stream. */
  method ReadWorldPacket(s: InStream, dec: Arc4?) returns (r: Option<Packet>)
    requires s.Valid()
    modifies s, dec
    ensures s.Valid()
    ensures var f := ReadFrame(s.data[old(s.pos)..], KeyOf(dec), if dec == null then 0 else old(dec.pos));
      (r.Some? <==> f.Frame?) &&
      (f.Frame? ==> fresh(r.value) && r.value.kind == World && r.value.data == f.packet && r.value.ctr == 6
                      && s.pos == old(s.pos) + f.consumed) &&
      (f.Eof? ==> s.pos == |s.data|) &&
      (dec != null ==> dec.pos == old(dec.pos) + f.decrypted)
  {
    ghost var p0, input := s.pos, s.data[s.pos..];
    ghost var key, off := KeyOf(dec), if dec == null then 0 else dec.pos;
    ReadFrameCases(input, key, off);
    var header := ReadHeader(s, dec);
    if header.None? {
      return None;
    }
    var h := header.value;
    assert h == Crypt(key, off, input[..HeaderLen(input, key, off)]);
    var hl := |h|;
    var plen := PayloadLen(h);
    ghost var q := s.pos;
    assert q == p0 + hl;
    var payload := s.Read(plen);
    if payload.None? {
      return None;
    }
    assert payload.value == s.data[q..q + plen];
    SliceOfDrop(s.data, p0, hl, hl + plen);
    var p := new Packet.OfBytes(World, ReceivedPacket(OpcodeOf(h), payload.value));
    assert p.ctr == 6;
    r := Some(p);
  }

  /** The plaintext header a server writes for a payload of n bytes: size n + 2, then the 16-bit opcode. */
  function ServerHeader(opcode: nat, n: nat): (h: seq<byte>)
    requires opcode < U16 && n + 2 < 0x80_0000
    ensures |h| == if n + 2 >= 0x8000 then 5 else 4
  {
    var size := n + 2;
    var op := [(opcode % 256) as byte, (opcode / 256) as byte];
    if size >= 0x8000 then
      [(128 + size / 0x1_0000) as byte, ((size / 256) % 256) as byte, (size % 256) as byte] + op
    else
      [(size / 256) as byte, (size % 256) as byte] + op
  }

  lemma SizeDigits(size: nat)
    requires size < 0x80_0000
    ensures (size / 0x1_0000) * 0x1_0000 + ((size / 256) % 256) * 256 + size % 256 == size
    ensures size < 0x8000 ==> (size / 256) * 256 + size % 256 == size && size / 256 < 128
  {
    var q := size / 256;
    assert size == q * 256 + size % 256;
    assert q == (q / 256) * 256 + q % 256;
    assert q / 256 == size / 0x1_0000;
  }

  /** A server header carries its own length in the first byte's top bit, the size and the opcode. */
  lemma ServerHeaderFields(opcode: nat, n: nat)
    requires opcode < U16 && n + 2 < 0x80_0000
    ensures var h := ServerHeader(opcode, n);
      (h[0] >= 128 <==> |h| == 5) && SizeOf(h) == n + 2 && OpcodeOf(h) == opcode
  {
    SizeDigits(n + 2);
  }

  /** The first decrypted byte of an encrypted server header is the plaintext's, so the header length is recovered. */
  lemma HeaderLenOfServer(h: seq<byte>, key: Option<nat -> byte>, off: nat, tail: seq<byte>)
    requires |h| == 4 || |h| == 5
    requires h[0] >= 128 <==> |h| == 5
    ensures var input := Crypt(key, off, h) + tail;
      HasHeader(input, key, off) && HeaderLen(input, key, off) == |h| &&
      Crypt(key, off, input[..|h|]) == h
  {
    var e := Crypt(key, off, h);
    var input := e + tail;
    assert input[..|h|] == e;
    CryptInvolutive(key, off, h);
    assert input[..1] == e[..1];
    CryptSplit(key, off, off + 1, e[..1], e[1..]);
    assert e[..1] + e[1..] == e;
  }

  /**
   * Framing round trip: what a server sends for (opcode, payload), encrypted
   * with the same keystream position, is read back as exactly that packet,
   * consuming exactly the frame and leaving whatever follows.
   */
  lemma FrameRoundTrip(opcode: nat, payload: seq<byte>, key: Option<nat -> byte>, off: nat, rest: seq<byte>)
    requires opcode < U16 && |payload| + 2 < 0x80_0000
    ensures var h := ServerHeader(opcode, |payload|);
      ReadFrame(Crypt(key, off, h) + payload + rest, key, off)
        == Frame(ReceivedPacket(opcode, payload), |h| + |payload|, |h|)
  {
    var h := ServerHeader(opcode, |payload|);
    ServerHeaderFields(opcode, |payload|);
    assert Crypt(key, off, h) + payload + rest == Crypt(key, off, h) + (payload + rest);
    FrameOfHeader(h, opcode, payload, key, off, rest);
  }

  /** A well-formed header, encrypted, followed by its payload and anything else, reads as that packet. */
  lemma FrameOfHeader(h: seq<byte>, opcode: nat, payload: seq<byte>, key: Option<nat -> byte>, off: nat, rest: seq<byte>)
    requires |h| == 4 || |h| == 5
    requires (h[0] >= 128 <==> |h| == 5) && SizeOf(h) == |payload| + 2
    requires OpcodeOf(h) == opcode
    ensures ReadFrame(Crypt(key, off, h) + (payload + rest), key, off)
        == Frame(ReceivedPacket(opcode, payload), |h| + |payload|, |h|)
  {
    var e, tail := Crypt(key, off, h), payload + rest;
    HeaderLenOfServer(h, key, off, tail);
    PayloadLenOf(h, |payload|);
    MiddleOfConcat(e, payload, rest);
    ReadFrameComplete(e + tail, key, off, h);
  }

  lemma PayloadLenOf(h: seq<byte>, n: nat)
    requires |h| >= 2 && (h[0] >= 128 ==> |h| >= 3) && SizeOf(h) == n + 2
    ensures PayloadLen(h) == n
  {
  }

  /** `ReadFrame` by cases: no whole header, a header without its whole payload, a whole packet. */
  lemma ReadFrameCases(input: seq<byte>, key: Option<nat -> byte>, off: nat)
    ensures !HasHeader(input, key, off) ==> ReadFrame(input, key, off) == Eof(EofDecrypted(input, key, off))
    ensures HasHeader(input, key, off) ==>
      var hl := HeaderLen(input, key, off);
      var h := Crypt(key, off, input[..hl]);
      var plen := PayloadLen(h);
      ReadFrame(input, key, off) == if |input| < hl + plen then Eof(hl) else Frame(ReceivedPacket(OpcodeOf(h), input[hl..hl + plen]), hl + plen, hl)
  {
  }

  /** When the header and the whole payload are on the stream, the read yields the packet. */
  lemma ReadFrameComplete(input: seq<byte>, key: Option<nat -> byte>, off: nat, h: seq<byte>)
    requires HasHeader(input, key, off) && HeaderLen(input, key, off) == |h|
    requires Crypt(key, off, input[..|h|]) == h
    requires |input| >= |h| + PayloadLen(h)
    ensures ReadFrame(input, key, off)
        == Frame(ReceivedPacket(OpcodeOf(h), input[|h|..|h| + PayloadLen(h)]), |h| + PayloadLen(h), |h|)
  {
  }
}

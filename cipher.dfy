/**
 * The ARC4 stream ciphers that encrypt world-packet headers. ARC4 itself is a
 * foreign library; the model keeps only what the client relies on: a cipher
 * is a keystream fixed by its key, `UpdateData` XORs the next keystream bytes
 * onto its input in place, and every byte it processes advances the stream.
 */
module Cipher {
  import opened Bytes

  /** The bytes of s XORed with the keystream starting at position off. */
  function Apply(ks: nat -> byte, off: nat, s: seq<byte>): (r: seq<byte>)
    ensures |r| == |s|
    ensures forall i :: 0 <= i < |s| ==> r[i] == XorByte(s[i], ks(off + i))
  {
    seq(|s|, i requires 0 <= i < |s| => XorByte(s[i], ks(off + i)))
  }

  /** Applying the same stretch of keystream twice restores the input: decryption undoes encryption. */
  lemma ApplyInvolutive(ks: nat -> byte, off: nat, s: seq<byte>)
    ensures Apply(ks, off, Apply(ks, off, s)) == s
  {
    forall i | 0 <= i < |s|
      ensures Apply(ks, off, Apply(ks, off, s))[i] == s[i]
    {
      XorByteInvolutive(s[i], ks(off + i));
    }
  }

  /** Processing a buffer piecewise, in order, is the same as processing it at once. */
  lemma ApplySplit(ks: nat -> byte, off: nat, a: seq<byte>, b: seq<byte>)
    ensures Apply(ks, off, a + b) == Apply(ks, off, a) + Apply(ks, off + |a|, b)
  {
  }

  class Arc4 {
    /** The keystream that the key passed to `Init` determines. */
    const keystream: nat -> byte
    /** How many keystream bytes have been consumed so far. */
    var pos: nat

    constructor (ks: nat -> byte)
      ensures keystream == ks && pos == 0
    {
      keystream := ks;
      pos := 0;
    }

    /** `UpdateData(buf, n)`: transforms the buffer in place with the next n keystream bytes. */
    method UpdateData(s: seq<byte>) returns (r: seq<byte>)
      modifies this
      ensures r == Apply(keystream, old(pos), s)
      ensures pos == old(pos) + |s|
    {
      r := Apply(keystream, pos, s);
      pos := pos + |s|;
    }
  }
}

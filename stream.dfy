/**
 * The inbound side of a TCP connection as the client sees it: the whole
 * sequence of bytes the peer will ever send, and how many of them have been
 * consumed. A read of n bytes either gets all n or meets the end of the
 * stream, which the socket layer reports as an exception; here it is `None`
 * and the stream is exhausted.
 */
module Stream {
  import opened Bytes
  import opened Wrappers

  class InStream {
    /** Everything the peer sends on this connection. */
    const data: seq<byte>
    /** How many bytes the client has consumed. */
    var pos: nat

    predicate Valid()
      reads this
    {
      pos <= |data|
    }

    constructor (bytes: seq<byte>)
      ensures data == bytes && pos == 0 && Valid()
    {
      data := bytes;
      pos := 0;
    }

    /** `ReadArray<n>` / `ReadVector(n)`: the next n bytes, or end of stream. */
    method Read(n: nat) returns (r: Option<seq<byte>>)
      requires Valid()
      modifies this
      ensures Valid()
      ensures old(pos) + n <= |data| ==> r == Some(data[old(pos)..old(pos) + n]) && pos == old(pos) + n
      ensures old(pos) + n > |data| ==> r == None && pos == |data|
    {
      if pos + n <= |data| {
        r := Some(data[pos..pos + n]);
        pos := pos + n;
      } else {
        r := None;
        pos := |data|;
      }
    }

    /** `Read<T>` for an unsigned T of n bytes: the next n bytes little-endian. */
    method ReadNum(n: nat) returns (r: Option<nat>)
      requires Valid()
      modifies this
      ensures Valid()
      ensures old(pos) + n <= |data| ==> r == Some(FromLE(data[old(pos)..old(pos) + n])) && pos == old(pos) + n
      ensures old(pos) + n > |data| ==> r == None && pos == |data|
    {
      var bs := Read(n);
      if bs.Some? {
        r := Some(FromLE(bs.value));
      } else {
        r := None;
      }
    }

    /**
     * `ReadCString`: bytes up to the first NUL, which is consumed and not
     * returned; end of stream before a NUL fails.
     */
    method ReadCString() returns (r: Option<seq<byte>>)
      requires Valid()
      modifies this
      ensures Valid()
      ensures CStringAt(data, old(pos)) == r
      ensures r.Some? ==> pos == old(pos) + |r.value| + 1
      ensures r.None? ==> pos == |data|
    {
      var s: seq<byte> := [];
      var whole := CStringAt(data, pos);
      assert whole.Some? ==> [] + whole.value == whole.value;
      while true
        invariant Valid() && old(pos) + |s| == pos
        invariant CStringAt(data, old(pos)) == Prepend(s, CStringAt(data, pos))
        decreases |data| - pos
      {
        var b := Read(1);
        if b.None? {
          return None;
        }
        var c := b.value[0];
        CStringStep(data, pos - 1);
        if c == 0 {
          assert s + [] == s;
          return Some(s);
        }
        PrependTwice(s, [c], CStringAt(data, pos));
        s := s + [c];
      }
    }
  }

  function Prepend(s: seq<byte>, r: Option<seq<byte>>): Option<seq<byte>>
  {
    if r.None? then None else Some(s + r.value)
  }

  lemma PrependTwice(s: seq<byte>, t: seq<byte>, r: Option<seq<byte>>)
    ensures Prepend(s, Prepend(t, r)) == Prepend(s + t, r)
  {
    if r.Some? {
      assert s + (t + r.value) == (s + t) + r.value;
    }
  }

  /** One byte of the scan: a NUL ends the string, any other byte is its next character. */
  lemma CStringStep(d: seq<byte>, i: nat)
    requires i < |d|
    ensures d[i] == 0 ==> CStringAt(d, i) == Some([])
    ensures d[i] != 0 ==> CStringAt(d, i) == Prepend([d[i]], CStringAt(d, i + 1))
  {
  }

  /** The C string starting at index i of d, without its NUL; `None` if d has no NUL from i on. */
  function CStringAt(d: seq<byte>, i: nat): (r: Option<seq<byte>>)
    requires i <= |d|
    ensures r.Some? ==> i + |r.value| < |d| && d[i + |r.value|] == 0 && r.value == d[i..i + |r.value|] && 0 !in r.value
    ensures r.None? <==> 0 !in d[i..]
    decreases |d| - i
  {
    if i == |d| then None
    else if d[i] == 0 then Some([])
    else
      var rest := CStringAt(d, i + 1);
      assert d[i..] == [d[i]] + d[i + 1..];
      if rest.None? then None else Some([d[i]] + rest.value)
  }
}

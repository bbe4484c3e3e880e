/**
 * Fixed-size definitions: a definition made only of basic types, fixed
 * arrays, padding and nested fixed-size definitions occupies the same number
 * of bytes whatever its values. For such definitions the encoders produce
 * exactly that many bytes and the decoder succeeds exactly when that many
 * bytes are available.
 */
module SchemaSize {
  import opened Bytes
  import opened Wrappers
  import opened PacketSchema

  function TypeSize(t: TypeRef): (r: Option<nat>)
    ensures t.Str? ==> r.None?
    decreases t, 0
  {
    match t
    case Basic(n) => Some(Width(n))
    case Str(_) => None
    case Nested(s) => FieldsSize(s, 0)
  }

  /** The size of the references of s from index i on, when every one of them has a fixed size. */
  function FieldsSize(s: Schema, i: nat): (r: Option<nat>)
    requires i <= |s.refs|
    decreases s, |s.refs| - i
  {
    if i == |s.refs| then Some(0)
    else
      var h := RefSize(s.refs[i]);
      var t := FieldsSize(s, i + 1);
      if h.Some? && t.Some? then Some(h.value + t.value) else None
  }

  /** Vectors have no fixed size; an array has its length times its item size. */
  function RefSize(r: FieldRef): (res: Option<nat>)
    ensures r.Vector? ==> res.None?
    decreases r, 0
  {
    match r
    case Single(t) => TypeSize(t)
    case Array(t, n) => if TypeSize(t).Some? then Some(n * TypeSize(t).value) else None
    case Vector(_, _) => None
    case Padding(a) => Some(a)
  }

  // ---------------------------------------------------------------------
  // Encoding a fixed-size definition yields exactly its size, with either generator.

  lemma {:induction false} EncodeTypeSize(g: Generator, t: TypeRef, v: Value)
    requires TypeSize(t).Some? && TypeFits(t, v, false)
    ensures EncodeType(g, t, v).Some? && |EncodeType(g, t, v).value| == TypeSize(t).value
    decreases t, 0
  {
    match t
    case Basic(_) =>
    case Nested(s) => EncodeFieldsSize(g, s, 0, v.fields);
  }

  lemma {:induction false} EncodeFieldsSize(g: Generator, s: Schema, i: nat, vs: seq<Value>)
    requires i <= |s.refs| && FieldsSize(s, i).Some? && FieldsFit(s, i, vs, false)
    ensures EncodeFields(g, s, i, vs).Some? && |EncodeFields(g, s, i, vs).value| == FieldsSize(s, i).value
    decreases s, |s.refs| - i
  {
    if i < |s.refs| {
      FieldsSplit(s, i, vs, false);
      EncodeRefSize(g, s.refs[i], vs[0]);
      EncodeFieldsSize(g, s, i + 1, vs[1..]);
    }
  }

  lemma {:induction false} EncodeRefSize(g: Generator, r: FieldRef, v: Value)
    requires RefSize(r).Some? && RefFits(r, v, false)
    ensures EncodeRef(g, r, v).Some? && |EncodeRef(g, r, v).value| == RefSize(r).value
    decreases r, 0
  {
    match r
    case Single(t) => EncodeTypeSize(g, t, v);
    case Array(t, _) => EncodeItemsSize(g, t, v.items);
    case Padding(_) =>
  }

  lemma {:induction false} EncodeItemsSize(g: Generator, t: TypeRef, items: seq<Value>)
    requires TypeSize(t).Some? && ItemsFit(t, items, false)
    ensures EncodeItems(g, t, items).Some? && |EncodeItems(g, t, items).value| == |items| * TypeSize(t).value
    decreases t, |items|
  {
    if items != [] {
      ItemsSplit(t, items, false);
      EncodeTypeSize(g, t, items[0]);
      EncodeItemsSize(g, t, items[1..]);
      MulSucc(|items|, TypeSize(t).value);
    }
  }

  lemma MulSucc(n: nat, k: nat)
    requires n > 0
    ensures n * k == k + (n - 1) * k && (n - 1) * k >= 0
  {
  }

  // ---------------------------------------------------------------------
  // Decoding a fixed-size definition succeeds exactly when its size is
  // available, and consumes exactly its size.

  lemma {:induction false} DecodeTypeSize(t: TypeRef, d: seq<byte>)
    requires TypeSize(t).Some?
    ensures DecodeType(t, d).Some? <==> |d| >= TypeSize(t).value
    ensures DecodeType(t, d).Some? ==> DecodeType(t, d).value.1 == TypeSize(t).value
    decreases t, 0
  {
    match t
    case Basic(_) =>
    case Nested(s) => DecodeFieldsSize(s, 0, d);
  }

  lemma {:induction false} DecodeFieldsSize(s: Schema, i: nat, d: seq<byte>)
    requires i <= |s.refs| && FieldsSize(s, i).Some?
    ensures DecodeFields(s, i, d).Some? <==> |d| >= FieldsSize(s, i).value
    ensures DecodeFields(s, i, d).Some? ==> DecodeFields(s, i, d).value.1 == FieldsSize(s, i).value
    decreases s, |s.refs| - i
  {
    if i < |s.refs| {
      var k := RefSize(s.refs[i]).value;
      DecodeRefSize(s.refs[i], d);
      if |d| >= k {
        DecodeFieldsSize(s, i + 1, d[k..]);
      }
    }
  }

  lemma {:induction false} DecodeRefSize(r: FieldRef, d: seq<byte>)
    requires RefSize(r).Some?
    ensures DecodeRef(r, d).Some? <==> |d| >= RefSize(r).value
    ensures DecodeRef(r, d).Some? ==> DecodeRef(r, d).value.1 == RefSize(r).value
    decreases r, 0
  {
    match r
    case Single(t) => DecodeTypeSize(t, d);
    case Array(t, n) => DecodeItemsSize(t, n, d);
    case Padding(_) =>
  }

  lemma {:induction false} DecodeItemsSize(t: TypeRef, n: nat, d: seq<byte>)
    requires TypeSize(t).Some?
    ensures DecodeItems(t, n, d).Some? <==> |d| >= n * TypeSize(t).value
    ensures DecodeItems(t, n, d).Some? ==> DecodeItems(t, n, d).value.1 == n * TypeSize(t).value
    decreases t, n
  {
    if n > 0 {
      var k := TypeSize(t).value;
      MulSucc(n, k);
      DecodeTypeSize(t, d);
      if |d| >= k {
        DecodeItemsSize(t, n - 1, d[k..]);
        assert |d[k..]| == |d| - k;
        var r := DecodeItems(t, n - 1, d[k..]);
        assert DecodeType(t, d).value.1 == k;
        assert DecodeItems(t, n, d) == if r.None? then None else Some(([DecodeType(t, d).value.0] + r.value.0, k + r.value.1));
      } else {
        assert DecodeItems(t, n, d).None?;
      }
    }
  }
}

/**
 * The packet-definition language of the code generator: a packet or chunk is
 * a named list of field references (single values, fixed arrays, counted
 * vectors, padding) over basic types, strings and other chunks. The
 * generator turns each definition into a `Read` and a `Write` routine; this
 * module gives both their byte-level meaning as functions, proves that the
 * corrected encoder and the decoder are inverse, and exhibits where the
 * generator as written departs from that.
 */
module PacketSchema {
  import opened Bytes
  import opened Wrappers
  import opened Packet

  /** Which direction a definition is generated for. */
  datatype PacketType = WRITE | READ | BOTH

  predicate IsWrite(t: PacketType)
  {
    t == WRITE || t == BOTH
  }

  predicate IsRead(t: PacketType)
  {
    t == READ || t == BOTH
  }

  /** Every definition is readable or writable, and it is both exactly when declared BOTH. */
  lemma DirectionCases(t: PacketType)
    ensures IsWrite(t) || IsRead(t)
    ensures IsWrite(t) && IsRead(t) <==> t == BOTH
  {
  }

  /** The fixed-width C++ types a field, a string length or a vector count is declared with. */
  datatype NumType = UInt8 | Int8 | UInt16 | Int16 | UInt32 | Int32 | UInt64 | Int64 | Float | Double

  /** Its width in bytes, as `sizeof` gives it; values are carried as their raw little-endian bits. */
  function Width(n: NumType): (w: nat)
    ensures w in {1, 2, 4, 8}
  {
    match n
    case UInt8 | Int8 => 1
    case UInt16 | Int16 => 2
    case UInt32 | Int32 | Float => 4
    case UInt64 | Int64 | Double => 8
  }

  /** The three string encodings: NUL-terminated, fixed width, or preceded by a length of the named type. */
  datatype StringKind = CString | StaticString(size: nat) | SizedString(lenType: NumType)

  /** What a field holds: a basic type, another definition, or a string. */
  datatype TypeRef = Basic(num: NumType) | Nested(schema: Schema) | Str(kind: StringKind)

  /** One entry of a definition's reference list. */
  datatype FieldRef =
    | Single(ty: TypeRef)
    | Array(ty: TypeRef, size: nat)
    | Vector(ty: TypeRef, sizeType: NumType)
    | Padding(amount: nat)

  /** A packet (with an opcode) or a chunk (without one). */
  datatype Schema = Schema(name: string, packetType: PacketType, opcode: Option<nat>, refs: seq<FieldRef>)

  /** The value a field holds once read: a number, string bytes, a nested record, a list of items, or nothing for padding. */
  datatype Value = Num(n: nat) | Text(bytes: seq<byte>) | Record(fields: seq<Value>) | Items(items: seq<Value>) | Gap

  /** A packet definition gets a `Send` method when it is written and has an opcode. */
  predicate IsClientPacket(s: Schema)
  {
    IsWrite(s.packetType) && s.opcode.Some?
  }

  /** A packet definition gets an event hook when it is read and has an opcode. */
  predicate IsServerPacket(s: Schema)
  {
    IsRead(s.packetType) && s.opcode.Some?
  }

  /** A chunk is neither; a packet is at least one, and both only when declared BOTH. */
  lemma ClientServerCases(s: Schema)
    ensures s.opcode.None? ==> !IsClientPacket(s) && !IsServerPacket(s)
    ensures s.opcode.Some? ==> IsClientPacket(s) || IsServerPacket(s)
    ensures IsClientPacket(s) && IsServerPacket(s) <==> s.opcode.Some? && s.packetType == BOTH
  {
  }

  // ---------------------------------------------------------------------
  // Complexity: whether a field needs more than a flat copy.

  predicate TypeComplex(t: TypeRef)
    decreases t, 0
  {
    t.Str? || (t.Nested? && Complex(t.schema))
  }

  /** Single fields and arrays are complex when their type is; vectors and padding never are. */
  predicate RefComplex(r: FieldRef)
    decreases r, 0
  {
    match r
    case Single(t) => TypeComplex(t)
    case Array(t, _) => TypeComplex(t)
    case Vector(_, _) => false
    case Padding(_) => false
  }

  /** A definition is complex when one of its references is. */
  predicate Complex(s: Schema)
    decreases s, 1
  {
    exists i :: 0 <= i < |s.refs| && RefComplex(s.refs[i])
  }

  // ---------------------------------------------------------------------
  // Which values a definition can carry. With `exact`, a static string
  // must fill its width; without, it may be shorter (the writer pads it).

  predicate StringFits(k: StringKind, b: seq<byte>, exact: bool)
  {
    match k
    case CString => 0 !in b
    case StaticString(size) => if exact then |b| == size else |b| <= size
    case SizedString(tn) => |b| < Pow256(Width(tn))
  }

  predicate TypeFits(t: TypeRef, v: Value, exact: bool)
    decreases t, 0
  {
    match t
    case Basic(tn) => v.Num? && v.n < Pow256(Width(tn))
    case Str(k) => v.Text? && StringFits(k, v.bytes, exact)
    case Nested(s) => v.Record? && FieldsFit(s, 0, v.fields, exact)
  }

  /** vs holds one value for each reference of s from index i on. */
  predicate FieldsFit(s: Schema, i: nat, vs: seq<Value>, exact: bool)
    decreases s, 0
  {
    i <= |s.refs| && |vs| == |s.refs| - i &&
    forall j :: 0 <= j < |vs| ==> RefFits(s.refs[i + j], vs[j], exact)
  }

  predicate RefFits(r: FieldRef, v: Value, exact: bool)
    decreases r, 0
  {
    match r
    case Single(t) => TypeFits(t, v, exact)
    case Array(t, n) => v.Items? && |v.items| == n && ItemsFit(t, v.items, exact)
    case Vector(t, st) =>
      v.Items? && |v.items| < Pow256(Width(st)) && ItemsFit(t, v.items, exact)
    case Padding(a) => v.Gap? && a < U32
  }

  predicate ItemsFit(t: TypeRef, items: seq<Value>, exact: bool)
    decreases t, 1
  {
    forall j :: 0 <= j < |items| ==> TypeFits(t, items[j], exact)
  }

  // ---------------------------------------------------------------------
  // Decoding: what the generated `Read` evidently means to consume from the
  // bytes at the cursor, and how many. None where the bytes run out or a
  // type is unknown. For C strings this is the corrected reading: the code
  // as generated calls `ReadCString`, which scans from the start of the
  // buffer instead (`DecodeCStringAsWritten` below).

  function DecodeType(t: TypeRef, d: seq<byte>): (r: Option<(Value, nat)>)
    ensures r.Some? ==> r.value.1 <= |d|
    decreases t, 0
  {
    match t
    case Basic(tn) =>
      if |d| < Width(tn) then None
      else Some((Num(FromLE(d[..Width(tn)])), Width(tn)))
    case Str(k) => DecodeString(k, d)
    case Nested(s) =>
      var f := DecodeFields(s, 0, d);
      if f.None? then None else Some((Record(f.value.0), f.value.1))
  }

  /** Corrected: a C string stops at the first NUL after the cursor and consumes it; the other two take a known number of bytes. */
  function DecodeString(k: StringKind, d: seq<byte>): (r: Option<(Value, nat)>)
    ensures r.Some? ==> r.value.1 <= |d| && r.value.0.Text?
  {
    match k
    case CString =>
      if 0 !in d then None else Some((Text(d[..FirstZero(d)]), FirstZero(d) + 1))
    case StaticString(size) =>
      if |d| < size then None else Some((Text(d[..size]), size))
    case SizedString(tn) =>
      if |d| < Width(tn) then None
      else
        var w := Width(tn);
        var len := FromLE(d[..w]);
        if |d| < w + len then None else Some((Text(d[w..w + len]), w + len))
  }

  /** The values of the references of s from index i on, read in order. */
  function DecodeFields(s: Schema, i: nat, d: seq<byte>): (r: Option<(seq<Value>, nat)>)
    requires i <= |s.refs|
    ensures r.Some? ==> |r.value.0| == |s.refs| - i && r.value.1 <= |d|
    decreases s, |s.refs| - i
  {
    if i == |s.refs| then Some(([], 0))
    else
      var h := DecodeRef(s.refs[i], d);
      if h.None? then None
      else
        var t := DecodeFields(s, i + 1, d[h.value.1..]);
        if t.None? then None else Some(([h.value.0] + t.value.0, h.value.1 + t.value.1))
  }

  /** An array reads its fixed number of items; a vector first reads its count in the size type. */
  function DecodeRef(r: FieldRef, d: seq<byte>): (res: Option<(Value, nat)>)
    ensures res.Some? ==> res.value.1 <= |d|
    decreases r, 0
  {
    match r
    case Single(t) => DecodeType(t, d)
    case Array(t, n) =>
      var it := DecodeItems(t, n, d);
      if it.None? then None else Some((Items(it.value.0), it.value.1))
    case Vector(t, st) =>
      if |d| < Width(st) then None
      else
        var w := Width(st);
        var it := DecodeItems(t, FromLE(d[..w]), d[w..]);
        if it.None? then None else Some((Items(it.value.0), w + it.value.1))
    case Padding(a) => if |d| < a then None else Some((Gap, a))
  }

  /** n consecutive values of type t. */
  function DecodeItems(t: TypeRef, n: nat, d: seq<byte>): (r: Option<(seq<Value>, nat)>)
    ensures r.Some? ==> |r.value.0| == n && r.value.1 <= |d|
    decreases t, n
  {
    if n == 0 then Some(([], 0))
    else
      var h := DecodeType(t, d);
      if h.None? then None
      else
        var rest := DecodeItems(t, n - 1, d[h.value.1..]);
        if rest.None? then None else Some(([h.value.0] + rest.value.0, h.value.1 + rest.value.1))
  }

  // ---------------------------------------------------------------------
  // Encoding. `AsWritten` is the byte sequence the generated `Write`
  // produces; `Corrected` is the one the generated `Read` expects back.

  datatype Generator = AsWritten | Corrected

  /** Both parts, concatenated, when both exist. */
  function Join(a: Option<seq<byte>>, b: Option<seq<byte>>): (r: Option<seq<byte>>)
    ensures r.Some? <==> a.Some? && b.Some?
    ensures r.Some? ==> r.value == a.value + b.value
  {
    if a.Some? && b.Some? then Some(a.value + b.value) else None
  }

  function EncodeType(g: Generator, t: TypeRef, v: Value): (r: Option<seq<byte>>)
    requires TypeFits(t, v, false)
    ensures g == Corrected ==> r.Some?
    decreases t, 0
  {
    match t
    case Basic(tn) => Some(LE(v.n, Width(tn)))
    case Str(k) => EncodeString(g, k, v.bytes)
    case Nested(s) => EncodeFields(g, s, 0, v.fields)
  }

  /**
   * As written, a static string is copied without padding to its width, and
   * a sized string has no encoding: the emitted statement calls `size()` on
   * the packet reference that `Write` returns, so it does not compile.
   * Corrected, the static string is zero-padded and the sized string is
   * preceded by its length.
   */
  function EncodeString(g: Generator, k: StringKind, b: seq<byte>): (r: Option<seq<byte>>)
    requires StringFits(k, b, false)
    ensures g == Corrected ==> r.Some?
  {
    match k
    case CString => Some(b + [0])
    case StaticString(size) => if g == AsWritten then Some(b) else Some(b + Zeros(size - |b|))
    case SizedString(tn) => if g == AsWritten then None else Some(LE(|b|, Width(tn)) + b)
  }

  function EncodeFields(g: Generator, s: Schema, i: nat, vs: seq<Value>): (r: Option<seq<byte>>)
    requires FieldsFit(s, i, vs, false)
    ensures g == Corrected ==> r.Some?
    decreases s, |s.refs| - i
  {
    if i == |s.refs| then Some([])
    else
      assert RefFits(s.refs[i + 0], vs[0], false);
      assert forall j :: 0 <= j < |vs| - 1 ==> vs[1..][j] == vs[j + 1] && i + 1 + j == i + (j + 1);
      Join(EncodeRef(g, s.refs[i], vs[0]), EncodeFields(g, s, i + 1, vs[1..]))
  }

  /** As written, a vector's items are written with no count in front; corrected, the count comes first. */
  function EncodeRef(g: Generator, r: FieldRef, v: Value): (res: Option<seq<byte>>)
    requires RefFits(r, v, false)
    ensures g == Corrected ==> res.Some?
    decreases r, 0
  {
    match r
    case Single(t) => EncodeType(g, t, v)
    case Array(t, _) => EncodeItems(g, t, v.items)
    case Vector(t, st) =>
      if g == AsWritten then EncodeItems(g, t, v.items)
      else Join(Some(LE(|v.items|, Width(st))), EncodeItems(g, t, v.items))
    case Padding(a) => Some(Zeros(a))
  }

  function EncodeItems(g: Generator, t: TypeRef, items: seq<Value>): (r: Option<seq<byte>>)
    requires ItemsFit(t, items, false)
    ensures g == Corrected ==> r.Some?
    decreases t, |items|
  {
    if items == [] then Some([])
    else Join(EncodeType(g, t, items[0]), EncodeItems(g, t, items[1..]))
  }

  // ---------------------------------------------------------------------
  // Round trip: whatever the corrected encoder writes for a value, the
  // decoder reads back as that value, consuming exactly those bytes,
  // whatever follows.

  lemma {:induction false} FirstZeroExtend(s: seq<byte>, rest: seq<byte>)
    requires 0 in s
    ensures 0 in s + rest && FirstZero(s + rest) == FirstZero(s)
  {
    if s[0] != 0 {
      assert (s + rest)[1..] == s[1..] + rest;
      FirstZeroExtend(s[1..], rest);
    }
  }

  /** A list of items fits exactly when its head and its tail do. */
  lemma ItemsSplit(t: TypeRef, items: seq<Value>, exact: bool)
    requires items != []
    ensures ItemsFit(t, items, exact) <==> TypeFits(t, items[0], exact) && ItemsFit(t, items[1..], exact)
  {
    if TypeFits(t, items[0], exact) && ItemsFit(t, items[1..], exact) {
      forall j | 0 <= j < |items|
        ensures TypeFits(t, items[j], exact)
      {
        if j > 0 {
          assert items[j] == items[1..][j - 1];
        }
      }
    }
  }

  /** A value list fits from index i exactly when its head fits reference i and its tail fits from i + 1. */
  lemma FieldsSplit(s: Schema, i: nat, vs: seq<Value>, exact: bool)
    requires i < |s.refs|
    ensures FieldsFit(s, i, vs, exact) <==>
      |vs| > 0 && RefFits(s.refs[i], vs[0], exact) && FieldsFit(s, i + 1, vs[1..], exact)
  {
    if FieldsFit(s, i, vs, exact) {
      assert RefFits(s.refs[i + 0], vs[0], exact);
      forall j | 0 <= j < |vs| - 1
        ensures RefFits(s.refs[i + 1 + j], vs[1..][j], exact)
      {
        assert RefFits(s.refs[i + (j + 1)], vs[j + 1], exact);
      }
    }
    if |vs| > 0 && RefFits(s.refs[i], vs[0], exact) && FieldsFit(s, i + 1, vs[1..], exact) {
      forall j | 0 <= j < |vs|
        ensures RefFits(s.refs[i + j], vs[j], exact)
      {
        if j > 0 {
          assert RefFits(s.refs[i + 1 + (j - 1)], vs[1..][j - 1], exact);
        }
      }
    }
  }

  /** Encoding a reference list one reference at a time. */
  lemma EncodeFieldsCons(g: Generator, s: Schema, i: nat, vs: seq<Value>)
    requires i < |s.refs| && FieldsFit(s, i, vs, false)
    ensures |vs| > 0 && RefFits(s.refs[i], vs[0], false) && FieldsFit(s, i + 1, vs[1..], false)
    ensures EncodeFields(g, s, i, vs) == Join(EncodeRef(g, s.refs[i], vs[0]), EncodeFields(g, s, i + 1, vs[1..]))
  {
    FieldsSplit(s, i, vs, false);
  }

  /** Decoding a reference list one reference at a time. */
  lemma DecodeFieldsCons(s: Schema, i: nat, d: seq<byte>, h: (Value, nat), t: (seq<Value>, nat))
    requires i < |s.refs| && DecodeRef(s.refs[i], d) == Some(h) && DecodeFields(s, i + 1, d[h.1..]) == Some(t)
    ensures DecodeFields(s, i, d) == Some(([h.0] + t.0, h.1 + t.1))
  {
  }

  /** Decoding n items one item at a time. */
  lemma DecodeItemsCons(t: TypeRef, n: nat, d: seq<byte>, h: (Value, nat), r: (seq<Value>, nat))
    requires n > 0 && DecodeType(t, d) == Some(h) && DecodeItems(t, n - 1, d[h.1..]) == Some(r)
    ensures DecodeItems(t, n, d) == Some(([h.0] + r.0, h.1 + r.1))
  {
  }

  lemma Assoc<T>(a: seq<T>, b: seq<T>, c: seq<T>)
    ensures a + b + c == a + (b + c)
  {
  }

  /** The first two parts of a three-part concatenation, recovered by slicing. */
  lemma Parts<T>(x: seq<T>, y: seq<T>, z: seq<T>)
    ensures (x + y + z)[..|x|] == x && (x + y + z)[|x|..|x| + |y|] == y
  {
  }

  lemma AfterHead(head: seq<byte>, tail: seq<byte>, rest: seq<byte>)
    ensures head + tail + rest == head + (tail + rest)
    ensures (head + (tail + rest))[|head|..] == tail + rest
  {
  }

  lemma StringRoundTrip(k: StringKind, b: seq<byte>, rest: seq<byte>)
    requires StringFits(k, b, true)
    ensures StringFits(k, b, false)
    ensures var e := EncodeString(Corrected, k, b).value; DecodeString(k, e + rest) == Some((Text(b), |e|))
  {
    var e := EncodeString(Corrected, k, b).value;
    match k
    case CString =>
      FirstZeroOf(b);
      FirstZeroExtend(b + [0], rest);
      Parts(b, [0], rest);
    case StaticString(size) =>
      assert Zeros(0) == [] && e == b;
      Parts(b, [], rest);
    case SizedString(tn) =>
      Parts(LE(|b|, Width(tn)), b, rest);
      FromLEofLE(|b|, Width(tn));
  }

  lemma {:induction false} TypeRoundTrip(t: TypeRef, v: Value, rest: seq<byte>)
    requires TypeFits(t, v, true)
    ensures TypeFits(t, v, false)
    ensures var e := EncodeType(Corrected, t, v).value; DecodeType(t, e + rest) == Some((v, |e|))
    decreases t, 0
  {
    match t
    case Basic(tn) =>
      var w := Width(tn);
      assert (LE(v.n, w) + rest)[..w] == LE(v.n, w);
      FromLEofLE(v.n, w);
    case Str(k) =>
      StringRoundTrip(k, v.bytes, rest);
    case Nested(s) =>
      FieldsRoundTrip(s, 0, v.fields, rest);
  }

  lemma {:induction false} FieldsRoundTrip(s: Schema, i: nat, vs: seq<Value>, rest: seq<byte>)
    requires FieldsFit(s, i, vs, true)
    ensures FieldsFit(s, i, vs, false)
    ensures var e := EncodeFields(Corrected, s, i, vs).value; DecodeFields(s, i, e + rest) == Some((vs, |e|))
    decreases s, |s.refs| - i
  {
    if i < |s.refs| {
      FieldsSplit(s, i, vs, true);
      FieldsRoundTrip(s, i + 1, vs[1..], rest);
      var tail := EncodeFields(Corrected, s, i + 1, vs[1..]).value;
      RefRoundTrip(s.refs[i], vs[0], tail + rest);
      FieldsSplit(s, i, vs, false);
      var head := EncodeRef(Corrected, s.refs[i], vs[0]).value;
      assert EncodeFields(Corrected, s, i, vs).value == head + tail;
      AfterHead(head, tail, rest);
      DecodeFieldsCons(s, i, head + tail + rest, (vs[0], |head|), (vs[1..], |tail|));
      ConsSplit(vs);
    }
  }

  lemma {:induction false} RefRoundTrip(r: FieldRef, v: Value, rest: seq<byte>)
    requires RefFits(r, v, true)
    ensures RefFits(r, v, false)
    ensures var e := EncodeRef(Corrected, r, v).value; DecodeRef(r, e + rest) == Some((v, |e|))
    decreases r, 1
  {
    match r
    case Single(t) =>
      TypeRoundTrip(t, v, rest);
    case Array(t, n) =>
      ItemsRoundTrip(t, v.items, rest);
    case Vector(t, st) =>
      VectorRoundTrip(t, st, v, rest);
    case Padding(a) =>
  }

  /** A vector's count, written in its size type, reads back as the number of items that follow. */
  lemma {:induction false} VectorRoundTrip(t: TypeRef, st: NumType, v: Value, rest: seq<byte>)
    requires RefFits(Vector(t, st), v, true)
    ensures RefFits(Vector(t, st), v, false)
    ensures var e := EncodeRef(Corrected, Vector(t, st), v).value; DecodeRef(Vector(t, st), e + rest) == Some((v, |e|))
    decreases Vector(t, st), 0
  {
    ItemsRoundTrip(t, v.items, rest);
    var body := EncodeItems(Corrected, t, v.items).value;
    VectorDecodes(t, st, v.items, body, rest);
    assert EncodeRef(Corrected, Vector(t, st), v).value == LE(|v.items|, Width(st)) + body;
    assert Items(v.items) == v;
  }

  /** The count in front of a vector's items, followed by them, decodes to the vector. */
  lemma VectorDecodes(t: TypeRef, st: NumType, items: seq<Value>, body: seq<byte>, rest: seq<byte>)
    requires |items| < Pow256(Width(st))
    requires DecodeItems(t, |items|, body + rest) == Some((items, |body|))
    ensures DecodeRef(Vector(t, st), LE(|items|, Width(st)) + body + rest) == Some((Items(items), Width(st) + |body|))
  {
    var w := Width(st);
    var count := LE(|items|, w);
    AfterHead(count, body, rest);
    Parts(count, body, rest);
    FromLEofLE(|items|, w);
    var d := count + body + rest;
    assert d[..w] == count && d[w..] == body + rest;
  }

  lemma {:induction false} ItemsRoundTrip(t: TypeRef, items: seq<Value>, rest: seq<byte>)
    requires ItemsFit(t, items, true)
    ensures ItemsFit(t, items, false)
    ensures var e := EncodeItems(Corrected, t, items).value; DecodeItems(t, |items|, e + rest) == Some((items, |e|))
    decreases t, |items|
  {
    if items != [] {
      ItemsSplit(t, items, true);
      ItemsRoundTrip(t, items[1..], rest);
      var tail := EncodeItems(Corrected, t, items[1..]).value;
      TypeRoundTrip(t, items[0], tail + rest);
      ItemsSplit(t, items, false);
      var head := EncodeType(Corrected, t, items[0]).value;
      assert EncodeItems(Corrected, t, items).value == head + tail;
      AfterHead(head, tail, rest);
      DecodeItemsCons(t, |items|, head + tail + rest, (items[0], |head|), (items[1..], |tail|));
      ConsSplit(items);
    }
  }

  // ---------------------------------------------------------------------
  // Where the two generators agree.

  /** No vectors, no fixed-width and no sized strings: the parts the generator as written gets right. */
  predicate PlainType(t: TypeRef)
    decreases t, 0
  {
    match t
    case Basic(_) => true
    case Str(k) => k.CString?
    case Nested(s) => PlainSchema(s)
  }

  predicate PlainSchema(s: Schema)
    decreases s, 1
  {
    forall i :: 0 <= i < |s.refs| ==> PlainRef(s.refs[i])
  }

  predicate PlainRef(r: FieldRef)
    decreases r, 0
  {
    match r
    case Single(t) => PlainType(t)
    case Array(t, _) => PlainType(t)
    case Vector(_, _) => false
    case Padding(_) => true
  }

  /** For plain definitions the generated `Write` produces exactly the corrected encoding. */
  lemma {:induction false} TypeAgree(t: TypeRef, v: Value)
    requires PlainType(t) && TypeFits(t, v, false)
    ensures EncodeType(AsWritten, t, v) == EncodeType(Corrected, t, v)
    decreases t, 0
  {
    match t
    case Basic(_) =>
    case Str(k) =>
    case Nested(s) => FieldsAgree(s, 0, v.fields);
  }

  lemma {:induction false} FieldsAgree(s: Schema, i: nat, vs: seq<Value>)
    requires PlainSchema(s) && FieldsFit(s, i, vs, false)
    ensures EncodeFields(AsWritten, s, i, vs) == EncodeFields(Corrected, s, i, vs)
    decreases s, |s.refs| - i
  {
    if i < |s.refs| {
      FieldsSplit(s, i, vs, false);
      RefAgree(s.refs[i], vs[0]);
      FieldsAgree(s, i + 1, vs[1..]);
    }
  }

  lemma {:induction false} RefAgree(r: FieldRef, v: Value)
    requires PlainRef(r) && RefFits(r, v, false)
    ensures EncodeRef(AsWritten, r, v) == EncodeRef(Corrected, r, v)
    decreases r, 0
  {
    match r
    case Single(t) => TypeAgree(t, v);
    case Array(t, _) => ItemsAgree(t, v.items);
    case Padding(_) =>
  }

  lemma {:induction false} ItemsAgree(t: TypeRef, items: seq<Value>)
    requires PlainType(t) && ItemsFit(t, items, false)
    ensures EncodeItems(AsWritten, t, items) == EncodeItems(Corrected, t, items)
    decreases t, |items|
  {
    if items != [] {
      ItemsSplit(t, items, false);
      TypeAgree(t, items[0]);
      ItemsAgree(t, items[1..]);
    }
  }

  // ---------------------------------------------------------------------
  // Where the generator as written goes wrong.

  /**
   * A vector's count is not written: a one-item vector of bytes [0] is
   * written as the single byte 0, which the reader takes for the count of an
   * empty vector.
   */
  lemma VectorCountLost()
    ensures var s := Schema("Bag", BOTH, None, [Vector(Basic(UInt8), UInt8)]);
      var v := Record([Items([Num(0)])]);
      TypeFits(Nested(s), v, true) &&
      EncodeType(AsWritten, Nested(s), v) == Some([0]) &&
      EncodeType(Corrected, Nested(s), v) == Some([1, 0]) &&
      DecodeType(Nested(s), [0]) == Some((Record([Items([])]), 1))
  {
    var s := Schema("Bag", BOTH, None, [Vector(Basic(UInt8), UInt8)]);
    var v := Record([Items([Num(0)])]);
    var r, t, items := s.refs[0], Basic(UInt8), [Num(0)];
    assert RefFits(r, v.fields[0], true) by {
      assert TypeFits(t, items[0], true);
    }
    assert FieldsFit(s, 0, v.fields, true) by {
      assert RefFits(s.refs[0 + 0], v.fields[0], true);
    }
    BagEncodings(s, v);
    BagDecodes(s);
  }

  lemma BagEncodings(s: Schema, v: Value)
    requires s == Schema("Bag", BOTH, None, [Vector(Basic(UInt8), UInt8)]) && v == Record([Items([Num(0)])])
    requires FieldsFit(s, 0, v.fields, false)
    ensures EncodeFields(AsWritten, s, 0, v.fields) == Some([0])
    ensures EncodeFields(Corrected, s, 0, v.fields) == Some([1, 0])
  {
    var r, t, items := s.refs[0], Basic(UInt8), [Num(0)];
    assert v.fields[1..] == [] && items[1..] == [];
    assert LE(0, 1) == [0] && LE(1, 1) == [1];
    assert EncodeItems(AsWritten, t, items) == Some([0]);
    assert EncodeItems(Corrected, t, items) == Some([0]);
    assert EncodeRef(AsWritten, r, v.fields[0]) == Some([0]);
    assert LE(|items|, Width(r.sizeType)) == [1] && [1 as byte] + [0] == [1, 0];
    assert EncodeRef(Corrected, r, v.fields[0]) == Some([1, 0]);
    assert EncodeFields(Corrected, s, 1, v.fields[1..]) == Some([]) && [1 as byte, 0] + [] == [1, 0];
  }

  lemma BagDecodes(s: Schema)
    requires s == Schema("Bag", BOTH, None, [Vector(Basic(UInt8), UInt8)])
    ensures DecodeFields(s, 0, [0]) == Some(([Items([])], 1))
  {
    var r := s.refs[0];
    var d: seq<byte> := [0];
    assert d[..1] == [0] && FromLE([0]) == 0 && d[1..] == [];
    assert DecodeRef(r, d) == Some((Items([]), 1));
    assert DecodeFields(s, 1, d[1..]) == Some(([], 0));
    assert [Items([])] + [] == [Items([])];
  }

  /**
   * A static string is written without padding to its width: "A" in a
   * two-byte name field followed by a one-byte level is written as two bytes,
   * which the reader takes as the whole name, leaving nothing for the level.
   */
  lemma StaticStringUnpadded()
    ensures var s := Schema("Named", BOTH, None, [Single(Str(StaticString(2))), Single(Basic(UInt8))]);
      var v := Record([Text([0x41]), Num(5)]);
      TypeFits(Nested(s), v, false) &&
      EncodeType(AsWritten, Nested(s), v) == Some([0x41, 5]) &&
      EncodeType(Corrected, Nested(s), v) == Some([0x41, 0, 5]) &&
      DecodeType(Nested(s), [0x41, 5]) == None
  {
    var s := Schema("Named", BOTH, None, [Single(Str(StaticString(2))), Single(Basic(UInt8))]);
    var v := Record([Text([0x41]), Num(5)]);
    var r0, r1 := s.refs[0], s.refs[1];
    assert FieldsFit(s, 0, v.fields, false) by {
      assert RefFits(s.refs[0 + 0], v.fields[0], false);
      assert RefFits(s.refs[0 + 1], v.fields[1], false);
    }
    assert v.fields[1..] == [Num(5)] && v.fields[1..][1..] == [];
    assert LE(5, 1) == [5] && Zeros(1) == [0] && [0x41 as byte] + Zeros(1) == [0x41, 0];
    assert EncodeRef(AsWritten, r0, v.fields[0]) == Some([0x41]);
    assert EncodeRef(Corrected, r0, v.fields[0]) == Some([0x41, 0]);
    assert EncodeFields(AsWritten, s, 1, v.fields[1..]) == Some([5]);
    assert EncodeFields(Corrected, s, 1, v.fields[1..]) == Some([5]);
    assert [0x41 as byte] + [5] == [0x41, 5] && [0x41 as byte, 0] + [5] == [0x41, 0, 5];
    assert EncodeFields(AsWritten, s, 0, v.fields) == Some([0x41, 5]);
    assert EncodeFields(Corrected, s, 0, v.fields) == Some([0x41, 0, 5]);
    var d: seq<byte> := [0x41, 5];
    assert d[2..] == [];
    assert DecodeRef(r0, d) == Some((Text(d[..2]), 2));
    assert DecodeFields(s, 1, d[2..]) == None;
  }

  /** A sized string has no as-written encoding at all; the corrected one puts its length first. */
  lemma SizedStringIllFormed(b: seq<byte>)
    requires |b| < U8
    ensures EncodeString(AsWritten, SizedString(UInt8), b) == None
    ensures EncodeString(Corrected, SizedString(UInt8), b) == Some([|b| as byte] + b)
  {
    assert |b| % 256 == |b| && LE(|b| / 256, 0) == [];
    assert LE(|b|, 1) == [(|b| % 256) as byte] + LE(|b| / 256, 0);
    assert EncodeString(Corrected, SizedString(UInt8), b) == Some(LE(|b|, Width(UInt8)) + b);
    assert LE(|b|, Width(UInt8)) == [|b| as byte];
  }

  /** The reference the builder's `Padding(size)` appends: as written, the size is never stored, so the amount is 0. */
  function PaddingRef(g: Generator, size: nat): (r: FieldRef)
    ensures r.Padding? && (g == Corrected ==> r.amount == size)
  {
    if g == AsWritten then Padding(0) else Padding(size)
  }

  /** As written, padding of any requested size neither writes nor skips a byte. */
  lemma PaddingIgnored(size: nat, d: seq<byte>)
    ensures DecodeRef(PaddingRef(AsWritten, size), d) == Some((Gap, 0))
    ensures EncodeRef(AsWritten, PaddingRef(AsWritten, size), Gap) == Some([])
    ensures size <= |d| ==> DecodeRef(PaddingRef(Corrected, size), d) == Some((Gap, size))
  {
    assert Zeros(0) == [];
  }

  // ---------------------------------------------------------------------
  // The builder the definitions are written with.

  class PacketBuilder {
    var name: string
    var packetType: PacketType
    var opcode: Option<nat>
    var refs: seq<FieldRef>

    /** `CreateChunk`: a definition without an opcode. */
    constructor CreateChunk(t: PacketType, name: string)
      ensures Snapshot() == Schema(name, t, None, [])
    {
      this.name := name;
      packetType := t;
      opcode := None;
      refs := [];
    }

    /** `CreatePacket`: a chunk that also carries its opcode. */
    constructor CreatePacket(op: nat, t: PacketType, name: string)
      ensures Snapshot() == Schema(name, t, Some(op), [])
    {
      this.name := name;
      packetType := t;
      opcode := Some(op);
      refs := [];
    }

    /** The definition as built so far; nested definitions are taken by value. */
    function Snapshot(): Schema
      reads this
    {
      Schema(name, packetType, opcode, refs)
    }

    method SingleField(ty: TypeRef) returns (b: PacketBuilder)
      modifies this
      ensures b == this && Snapshot() == old(Snapshot()).(refs := old(refs) + [Single(ty)])
    {
      refs := refs + [Single(ty)];
      b := this;
    }

    method ArrayField(ty: TypeRef, size: nat) returns (b: PacketBuilder)
      requires size < U32
      modifies this
      ensures b == this && Snapshot() == old(Snapshot()).(refs := old(refs) + [Array(ty, size)])
    {
      refs := refs + [Array(ty, size)];
      b := this;
    }

    method VectorField(ty: TypeRef, sizeType: NumType) returns (b: PacketBuilder)
      modifies this
      ensures b == this && Snapshot() == old(Snapshot()).(refs := old(refs) + [Vector(ty, sizeType)])
    {
      refs := refs + [Vector(ty, sizeType)];
      b := this;
    }

    /** As written: the requested size is dropped and a padding of 0 bytes is appended. */
    method Padding(size: nat) returns (b: PacketBuilder)
      requires size < U32
      modifies this
      ensures b == this && Snapshot() == old(Snapshot()).(refs := old(refs) + [PaddingRef(AsWritten, size)])
    {
      refs := refs + [PaddingRef(AsWritten, size)];
      b := this;
    }

    /** Corrected: the padding keeps its size. */
    method PaddingFixed(size: nat) returns (b: PacketBuilder)
      requires size < U32
      modifies this
      ensures b == this && Snapshot() == old(Snapshot()).(refs := old(refs) + [PaddingRef(Corrected, size)])
    {
      refs := refs + [PaddingRef(Corrected, size)];
      b := this;
    }

    /** Scans the references and stops at the first complex one. */
    method IsComplex() returns (c: bool)
      ensures c == Complex(Snapshot())
    {
      for i := 0 to |refs|
        invariant forall j :: 0 <= j < i ==> !RefComplex(refs[j])
      {
        if RefComplex(refs[i]) {
          return true;
        }
      }
      return false;
    }
  }

  // ---------------------------------------------------------------------
  // The generated `Read` and `Write` routines, interpreted over a packet.
  // These read C strings at the cursor, as the corrected decoder does;
  // `ReadCStringFieldAsWritten` is the call the generator actually emits.

  method ReadType(p: Packet, t: TypeRef) returns (v: Value)
    requires p.ctr <= |p.data| && DecodeType(t, p.data[p.ctr..]).Some?
    modifies p
    ensures var r := DecodeType(t, old(p.data)[old(p.ctr)..]).value;
      v == r.0 && p.ctr == old(p.ctr) + r.1 && p.data == old(p.data)
    decreases t, 0
  {
    ghost var d, c := p.data, p.ctr;
    match t
    case Basic(tn) =>
      SliceOfDrop(d, c, 0, Width(tn));
      assert d[c..][..Width(tn)] == d[c..][0..Width(tn)];
      var n := p.Read(Width(tn));
      v := Num(n);
    case Str(k) =>
      v := ReadString(p, k);
    case Nested(s) =>
      var fs := ReadFields(p, s);
      v := Record(fs);
  }

  /** A C string up to its NUL, a static string of its width, or a sized string after its length. */
  method ReadString(p: Packet, k: StringKind) returns (v: Value)
    requires p.ctr <= |p.data| && DecodeString(k, p.data[p.ctr..]).Some?
    modifies p
    ensures var r := DecodeString(k, old(p.data)[old(p.ctr)..]).value;
      v == r.0 && p.ctr == old(p.ctr) + r.1 && p.data == old(p.data)
  {
    match k
    case CString => v := ReadCStringField(p);
    case StaticString(size) => v := ReadStaticString(p, size);
    case SizedString(tn) => v := ReadSizedString(p, tn);
  }

  method ReadCStringField(p: Packet) returns (v: Value)
    requires p.ctr <= |p.data| && DecodeString(CString, p.data[p.ctr..]).Some?
    modifies p
    ensures var r := DecodeString(CString, old(p.data)[old(p.ctr)..]).value;
      v == r.0 && p.ctr == old(p.ctr) + r.1 && p.data == old(p.data)
  {
    ghost var x := p.data[p.ctr..];
    var b := p.ReadCStringAtCursor();
    assert x[..|b|] == b && x[|b|] == 0;
    CStringPrefixUnique(x, b);
    v := Text(b);
  }

  /**
   * A C-string field as the generator writes it: `packet.ReadCString()`,
   * which takes the bytes before the first NUL of the whole buffer and
   * moves the cursor on by their number. The result and the advance do not
   * depend on the cursor at all.
   */
  function DecodeCStringAsWritten(buf: seq<byte>): (r: Option<(Value, nat)>)
    ensures r.Some? <==> 0 in buf
    ensures r.Some? ==> r.value.0.Text? && 0 !in r.value.0.bytes && r.value.1 == |r.value.0.bytes| < |buf| && buf[r.value.1] == 0
  {
    if 0 in buf then Some((Text(buf[..FirstZero(buf)]), FirstZero(buf))) else None
  }

  method ReadCStringFieldAsWritten(p: Packet) returns (v: Value)
    requires 0 in p.data
    modifies p
    ensures var r := DecodeCStringAsWritten(old(p.data)).value;
      v == r.0 && p.ctr == old(p.ctr) + r.1 && p.data == old(p.data)
  {
    var b := p.ReadCString();
    CStringPrefixUnique(p.data, b);
    v := Text(b);
  }

  /**
   * In a buffer that starts with a NUL, as every received world packet does,
   * the as-written read yields the empty string and leaves the cursor where
   * it was, while the corrected read at any cursor consumes at least the NUL.
   */
  lemma CStringAsWrittenStalls(buf: seq<byte>, ctr: nat)
    requires |buf| > 0 && buf[0] == 0 && ctr <= |buf| && 0 in buf[ctr..]
    ensures DecodeCStringAsWritten(buf) == Some((Text([]), 0))
    ensures DecodeString(CString, buf[ctr..]).Some? && DecodeString(CString, buf[ctr..]).value.1 >= 1
  {
  }

  method ReadStaticString(p: Packet, size: nat) returns (v: Value)
    requires p.ctr <= |p.data| && DecodeString(StaticString(size), p.data[p.ctr..]).Some?
    modifies p
    ensures var r := DecodeString(StaticString(size), old(p.data)[old(p.ctr)..]).value;
      v == r.0 && p.ctr == old(p.ctr) + r.1 && p.data == old(p.data)
  {
    assert p.data[p.ctr..][..size] == p.data[p.ctr..p.ctr + size];
    var b := p.ReadString(size);
    v := Text(b);
  }

  method ReadSizedString(p: Packet, tn: NumType) returns (v: Value)
    requires p.ctr <= |p.data| && DecodeString(SizedString(tn), p.data[p.ctr..]).Some?
    modifies p
    ensures var r := DecodeString(SizedString(tn), old(p.data)[old(p.ctr)..]).value;
      v == r.0 && p.ctr == old(p.ctr) + r.1 && p.data == old(p.data)
  {
    ghost var d, c := p.data, p.ctr;
    var w := Width(tn);
    SliceOfDrop(d, c, 0, w);
    assert d[c..][..w] == d[c..][0..w];
    var len := p.Read(w);
    SliceOfDrop(d, c, w, w + len);
    var b := p.ReadString(len);
    v := Text(b);
  }

  /** The body of a generated `Read`: each reference in order. */
  method ReadFields(p: Packet, s: Schema) returns (vs: seq<Value>)
    requires p.ctr <= |p.data| && DecodeFields(s, 0, p.data[p.ctr..]).Some?
    modifies p
    ensures var r := DecodeFields(s, 0, old(p.data)[old(p.ctr)..]).value;
      vs == r.0 && p.ctr == old(p.ctr) + r.1 && p.data == old(p.data)
    decreases s, 2
  {
    ghost var d, c := p.data, p.ctr;
    ghost var all := DecodeFields(s, 0, d[c..]).value;
    ghost var rest := all;
    vs := [];
    for i := 0 to |s.refs|
      invariant p.data == d && c <= p.ctr <= |d|
      invariant DecodeFields(s, i, d[p.ctr..]) == Some(rest)
      invariant vs + rest.0 == all.0 && c + all.1 == p.ctr + rest.1
    {
      var v;
      ghost var before := rest;
      v, rest := ReadField(p, s, i, before);
      Assoc(vs, [v], rest.0);
      vs := vs + [v];
    }
  }

  /** One iteration of a generated `Read`: the value of reference i, and the rest still decodes after it. */
  method ReadField(p: Packet, s: Schema, i: nat, ghost before: (seq<Value>, nat)) returns (v: Value, ghost after: (seq<Value>, nat))
    requires i < |s.refs| && p.ctr <= |p.data| && DecodeFields(s, i, p.data[p.ctr..]) == Some(before)
    modifies p
    ensures p.data == old(p.data) && old(p.ctr) <= p.ctr <= |p.data| && DecodeFields(s, i + 1, p.data[p.ctr..]) == Some(after)
    ensures before.0 == [v] + after.0 && old(p.ctr) + before.1 == p.ctr + after.1
    decreases s, 1
  {
    ghost var x := p.data[p.ctr..];
    ghost var h := DecodeRef(s.refs[i], x).value;
    ghost var rest := DecodeFields(s, i + 1, x[h.1..]).value;
    DecodeFieldsCons(s, i, x, h, rest);
    ghost var d, c := p.data, p.ctr;
    v := ReadRef(p, s.refs[i]);
    assert x[h.1..] == d[p.ctr..];
    after := rest;
  }

  /** An array reads its items; a vector reads its count first; padding skips its bytes. */
  method ReadRef(p: Packet, r: FieldRef) returns (v: Value)
    requires p.ctr <= |p.data| && DecodeRef(r, p.data[p.ctr..]).Some?
    modifies p
    ensures var res := DecodeRef(r, old(p.data)[old(p.ctr)..]).value;
      v == res.0 && p.ctr == old(p.ctr) + res.1 && p.data == old(p.data)
    decreases r, 2
  {
    ghost var d, c := p.data, p.ctr;
    match r
    case Single(t) =>
      v := ReadType(p, t);
    case Array(t, n) =>
      var items := ReadItems(p, t, n);
      v := Items(items);
    case Vector(t, st) =>
      v := ReadVector(p, t, st);
    case Padding(a) =>
      var _ := p.ReadBytes(a);
      v := Gap;
  }

  /** A vector: its count in the size type, then that many items. */
  method ReadVector(p: Packet, t: TypeRef, st: NumType) returns (v: Value)
    requires p.ctr <= |p.data| && DecodeRef(Vector(t, st), p.data[p.ctr..]).Some?
    modifies p
    ensures var res := DecodeRef(Vector(t, st), old(p.data)[old(p.ctr)..]).value;
      v == res.0 && p.ctr == old(p.ctr) + res.1 && p.data == old(p.data)
    decreases Vector(t, st), 1
  {
    ghost var d, c := p.data, p.ctr;
    var w := Width(st);
    SliceOfDrop(d, c, 0, w);
    assert d[c..][..w] == d[c..][0..w];
    var count := p.Read(w);
    assert d[c..][w..] == d[p.ctr..];
    var items := ReadItems(p, t, count);
    v := Items(items);
  }

  /** The loop a generated `Read` runs for an array or a vector: n items of type t. */
  method ReadItems(p: Packet, t: TypeRef, n: nat) returns (items: seq<Value>)
    requires p.ctr <= |p.data| && DecodeItems(t, n, p.data[p.ctr..]).Some?
    modifies p
    ensures var r := DecodeItems(t, n, old(p.data)[old(p.ctr)..]).value;
      items == r.0 && p.ctr == old(p.ctr) + r.1 && p.data == old(p.data)
    decreases t, 2
  {
    ghost var d, c := p.data, p.ctr;
    ghost var all := DecodeItems(t, n, d[c..]).value;
    ghost var rest := all;
    items := [];
    for i := 0 to n
      invariant p.data == d && c <= p.ctr <= |d|
      invariant DecodeItems(t, n - i, d[p.ctr..]) == Some(rest)
      invariant items + rest.0 == all.0 && c + all.1 == p.ctr + rest.1
    {
      var v;
      ghost var before := rest;
      v, rest := ReadItem(p, t, n - i, before);
      Assoc(items, [v], rest.0);
      items := items + [v];
    }
  }

  /** One iteration of that loop: the next item, with k items left before it and k - 1 after. */
  method ReadItem(p: Packet, t: TypeRef, k: nat, ghost before: (seq<Value>, nat)) returns (v: Value, ghost after: (seq<Value>, nat))
    requires k > 0 && p.ctr <= |p.data| && DecodeItems(t, k, p.data[p.ctr..]) == Some(before)
    modifies p
    ensures p.data == old(p.data) && old(p.ctr) <= p.ctr <= |p.data| && DecodeItems(t, k - 1, p.data[p.ctr..]) == Some(after)
    ensures before.0 == [v] + after.0 && old(p.ctr) + before.1 == p.ctr + after.1
    decreases t, 1
  {
    ghost var x := p.data[p.ctr..];
    ghost var h := DecodeType(t, x).value;
    ghost var rest := DecodeItems(t, k - 1, x[h.1..]).value;
    DecodeItemsCons(t, k, x, h, rest);
    ghost var d, c := p.data, p.ctr;
    v := ReadType(p, t);
    assert x[h.1..] == d[p.ctr..];
    after := rest;
  }

  method WriteType(p: Packet, t: TypeRef, v: Value)
    requires TypeFits(t, v, false) && EncodeType(AsWritten, t, v).Some?
    modifies p
    ensures p.data == old(p.data) + EncodeType(AsWritten, t, v).value && p.ctr == old(p.ctr)
    decreases t, 0
  {
    match t
    case Basic(tn) =>
      p.Write(Width(tn), v.n);
    case Str(CString) =>
      p.WriteCString(v.bytes);
    case Str(StaticString(_)) =>
      p.WriteString(v.bytes);
    case Str(SizedString(_)) =>
      assert false;
    case Nested(s) =>
      WriteFields(p, s, v.fields);
  }

  /** The body of a generated `Write`: each reference's statement in order. */
  method WriteFields(p: Packet, s: Schema, vs: seq<Value>)
    requires FieldsFit(s, 0, vs, false) && EncodeFields(AsWritten, s, 0, vs).Some?
    modifies p
    ensures p.data == old(p.data) + EncodeFields(AsWritten, s, 0, vs).value && p.ctr == old(p.ctr)
    decreases s, 1
  {
    ghost var all := EncodeFields(AsWritten, s, 0, vs).value;
    assert vs[0..] == vs;
    for i := 0 to |s.refs|
      invariant FieldsFit(s, i, vs[i..], false) && EncodeFields(AsWritten, s, i, vs[i..]).Some?
      invariant old(p.data) + all == p.data + EncodeFields(AsWritten, s, i, vs[i..]).value
      invariant p.ctr == old(p.ctr)
    {
      FieldsSplit(s, i, vs[i..], false);
      assert vs[i..][0] == vs[i] && vs[i..][1..] == vs[i + 1..];
      ghost var head := EncodeRef(AsWritten, s.refs[i], vs[i]).value;
      ghost var tail := EncodeFields(AsWritten, s, i + 1, vs[i + 1..]).value;
      ghost var before := p.data;
      WriteRef(p, s.refs[i], vs[i]);
      assert p.data + tail == before + (head + tail);
    }
  }

  /** As written, a vector is written as its items alone. */
  method WriteRef(p: Packet, r: FieldRef, v: Value)
    requires RefFits(r, v, false) && EncodeRef(AsWritten, r, v).Some?
    modifies p
    ensures p.data == old(p.data) + EncodeRef(AsWritten, r, v).value && p.ctr == old(p.ctr)
    decreases r, 0
  {
    match r
    case Single(t) =>
      WriteType(p, t, v);
    case Array(t, _) =>
      WriteItems(p, t, v.items);
    case Vector(t, _) =>
      WriteItems(p, t, v.items);
    case Padding(a) =>
      p.WritePadding(a);
  }

  method WriteItems(p: Packet, t: TypeRef, items: seq<Value>)
    requires ItemsFit(t, items, false) && EncodeItems(AsWritten, t, items).Some?
    modifies p
    ensures p.data == old(p.data) + EncodeItems(AsWritten, t, items).value && p.ctr == old(p.ctr)
    decreases t, 1
  {
    ghost var all := EncodeItems(AsWritten, t, items).value;
    assert items[0..] == items;
    for i := 0 to |items|
      invariant ItemsFit(t, items[i..], false) && EncodeItems(AsWritten, t, items[i..]).Some?
      invariant old(p.data) + all == p.data + EncodeItems(AsWritten, t, items[i..]).value
      invariant p.ctr == old(p.ctr)
    {
      ItemsSplit(t, items[i..], false);
      assert items[i..][0] == items[i] && items[i..][1..] == items[i + 1..];
      ghost var head := EncodeType(AsWritten, t, items[i]).value;
      ghost var tail := EncodeItems(AsWritten, t, items[i + 1..]).value;
      ghost var before := p.data;
      WriteType(p, t, items[i]);
      assert p.data + tail == before + (head + tail);
    }
  }
}

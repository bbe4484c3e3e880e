/**
 * The character-list and login definitions: three chunks describing one
 * character and its equipment, the server's character list, and the two
 * client requests that ask for it and enter the world.
 */
module LoginPackets {
  import opened Bytes
  import opened Wrappers
  import opened PacketSchema
  import opened SchemaSize
  import opened Packet
  import Opcodes
  import Framing

  /** One equipped item. */
  const CharEnumItem: Schema := Schema("CharEnumItem", READ, None, [
    Single(Basic(UInt32)),  // DisplayID
    Single(Basic(UInt8)),   // InventoryType
    Single(Basic(UInt32))]) // Padding

  /** One bag slot. */
  const CharEnumBag: Schema := Schema("CharEnumBag", READ, None, [
    Single(Basic(UInt32)),  // V1
    Single(Basic(UInt32)),  // V2
    Single(Basic(UInt32))]) // V3

  /** One character of the list. */
  const CharEnumEntry: Schema := Schema("CharEnumEntry", READ, None, [
    Single(Basic(UInt64)),          // GUID
    Single(Str(CString)),           // Name
    Single(Basic(UInt8)),           // Race
    Single(Basic(UInt8)),           // Class
    Single(Basic(UInt8)),           // Gender
    Array(Basic(UInt8), 5),         // Padding
    Single(Basic(UInt8)),           // Level
    Single(Basic(UInt32)),          // ZoneID
    Single(Basic(UInt32)),          // MapID
    Single(Basic(Float)),           // X
    Single(Basic(Float)),           // Y
    Single(Basic(Float)),           // Z
    Single(Basic(UInt32)),          // Guild
    Single(Basic(UInt32)),          // Flags
    Single(Basic(UInt32)),          // Customize
    Single(Basic(UInt8)),           // FirstLogin
    Single(Basic(UInt32)),          // PetInfoID
    Single(Basic(UInt32)),          // PetLevel
    Single(Basic(UInt32)),          // PetFamilyID
    Array(Nested(CharEnumItem), 19), // Item
    Array(Nested(CharEnumBag), 4)])  // Bag

  /** The server's character list: a vector of entries with a one-byte count. */
  const SMSGCharEnum: Schema :=
    Schema("SMSGCharEnum", READ, Some(Opcodes.SMSG_CHAR_ENUM), [Vector(Nested(CharEnumEntry), UInt8)]) // Entry

  /** The client's request for the character list. */
  const CMSGCharEnum: Schema := Schema("CMSGCharEnum", WRITE, Some(Opcodes.CMSG_CHAR_ENUM), [])

  /** The client's request to enter the world with one character. */
  const CMSGPlayerLogin: Schema :=
    Schema("CMSGPlayerLogin", WRITE, Some(Opcodes.CMSG_PLAYER_LOGIN), [Single(Basic(UInt64))]) // GUID

  /** The definitions in the order they are declared, which is the order the generator emits them. */
  const Declared: seq<Schema> := [CharEnumItem, CharEnumBag, CharEnumEntry, SMSGCharEnum, CMSGCharEnum, CMSGPlayerLogin]

  /** The three chunks have no opcode, so they get neither a `Send` method nor an event hook. */
  lemma ChunksAreNotPackets()
    ensures forall s :: s in [CharEnumItem, CharEnumBag, CharEnumEntry] ==> !IsClientPacket(s) && !IsServerPacket(s)
  {
  }

  /** The character list is a server packet only; the two requests are client packets only. */
  lemma PacketDirections()
    ensures IsServerPacket(SMSGCharEnum) && !IsClientPacket(SMSGCharEnum)
    ensures IsClientPacket(CMSGCharEnum) && !IsServerPacket(CMSGCharEnum)
    ensures IsClientPacket(CMSGPlayerLogin) && !IsServerPacket(CMSGPlayerLogin)
  {
  }

  /** An item takes 9 bytes and a bag 12, whatever they hold. */
  lemma ChunkSizes()
    ensures TypeSize(Nested(CharEnumItem)) == Some(9)
    ensures TypeSize(Nested(CharEnumBag)) == Some(12)
  {
    assert FieldsSize(CharEnumItem, 3) == Some(0);
    assert FieldsSize(CharEnumItem, 2) == Some(4);
    assert FieldsSize(CharEnumItem, 1) == Some(5);
    assert FieldsSize(CharEnumBag, 3) == Some(0);
    assert FieldsSize(CharEnumBag, 2) == Some(4);
    assert FieldsSize(CharEnumBag, 1) == Some(8);
  }

  /** The last nine fields, from the guild id on, take 244 bytes. */
  lemma EntryLastFields()
    ensures FieldsSize(CharEnumEntry, 12) == Some(244)
  {
    ChunkSizes();
    var s := CharEnumEntry;
    assert FieldsSize(s, 21) == Some(0);
    assert FieldsSize(s, 20) == Some(48);
    assert FieldsSize(s, 19) == Some(219);
    assert FieldsSize(s, 18) == Some(223);
    assert FieldsSize(s, 17) == Some(227);
    assert FieldsSize(s, 16) == Some(231);
    assert FieldsSize(s, 15) == Some(232);
    assert FieldsSize(s, 14) == Some(236);
    assert FieldsSize(s, 13) == Some(240);
  }

  lemma EntryMiddleFields()
    ensures FieldsSize(CharEnumEntry, 7) == Some(264)
  {
    EntryLastFields();
    var s := CharEnumEntry;
    assert FieldsSize(s, 11) == Some(248);
    assert FieldsSize(s, 10) == Some(252);
    assert FieldsSize(s, 9) == Some(256);
    assert FieldsSize(s, 8) == Some(260);
  }

  /** Everything after the name has a fixed size of 273 bytes; the name makes the entry as a whole variable. */
  lemma EntryTail()
    ensures FieldsSize(CharEnumEntry, 2) == Some(273)
    ensures FieldsSize(CharEnumEntry, 0).None?
  {
    EntryMiddleFields();
    var s := CharEnumEntry;
    assert FieldsSize(s, 6) == Some(265);
    assert FieldsSize(s, 5) == Some(270);
    assert FieldsSize(s, 4) == Some(271);
    assert FieldsSize(s, 3) == Some(272);
    assert RefSize(s.refs[1]).None?;
  }

  /** A definition that starts with a 64-bit GUID and a C string, followed by k bytes of fixed-size fields. */
  predicate GuidNameThenFixed(s: Schema, k: nat)
  {
    |s.refs| >= 2 && s.refs[0] == Single(Basic(UInt64)) && s.refs[1] == Single(Str(CString)) && FieldsSize(s, 2) == Some(k)
  }

  lemma GuidNameEncoding(g: Generator, s: Schema, k: nat, guid: nat, name: seq<byte>, tail: seq<Value>)
    requires GuidNameThenFixed(s, k) && FieldsFit(s, 0, [Num(guid), Text(name)] + tail, false)
    ensures var e := EncodeFields(g, s, 0, [Num(guid), Text(name)] + tail);
      e.Some? && |e.value| == 8 + |name| + 1 + k &&
      e.value[..8] == LE(guid, 8) && e.value[8..9 + |name|] == name + [0]
  {
    var vs1 := [Text(name)] + tail;
    var vs := [Num(guid)] + vs1;
    assert vs == [Num(guid), Text(name)] + tail;
    FieldsSplit(s, 0, vs, false);
    assert vs[1..] == vs1;
    FieldsSplit(s, 1, vs1, false);
    assert vs1[1..] == tail;
    EncodeFieldsSize(g, s, 2, tail);
    var head := LE(guid, 8);
    var str := name + [0];
    var rest := EncodeFields(g, s, 2, tail).value;
    assert EncodeRef(g, s.refs[0], Num(guid)) == Some(head);
    assert EncodeRef(g, s.refs[1], Text(name)) == Some(str);
    assert EncodeFields(g, s, 1, vs1) == Some(str + rest);
    assert EncodeFields(g, s, 0, vs) == Some(head + (str + rest));
    Parts(head, str, rest);
    Assoc(head, str, rest);
  }

  lemma GuidNameDecoding(s: Schema, k: nat, d: seq<byte>)
    requires GuidNameThenFixed(s, k)
    ensures DecodeFields(s, 0, d).Some? <==> |d| >= 8 && 0 in d[8..] && |d| >= 9 + FirstZero(d[8..]) + k
    ensures DecodeFields(s, 0, d).Some? ==> DecodeFields(s, 0, d).value.1 == 9 + FirstZero(d[8..]) + k
  {
    if |d| >= 8 {
      var d1 := d[8..];
      assert DecodeRef(s.refs[0], d) == Some((Num(FromLE(d[..8])), 8));
      if 0 in d1 {
        var n := FirstZero(d1) + 1;
        assert DecodeRef(s.refs[1], d1) == Some((Text(d1[..n - 1]), n));
        DecodeFieldsSize(s, 2, d1[n..]);
        assert |d1[n..]| == |d| - 8 - n;
      } else {
        assert DecodeRef(s.refs[1], d1).None?;
      }
    } else {
      assert DecodeRef(s.refs[0], d).None?;
    }
  }

  /**
   * An entry is written as its GUID, its name with a NUL, and 273 more bytes:
   * 282 bytes plus the name.
   */
  lemma EntryEncoding(g: Generator, guid: nat, name: seq<byte>, tail: seq<Value>)
    requires FieldsFit(CharEnumEntry, 0, [Num(guid), Text(name)] + tail, false)
    ensures var e := EncodeFields(g, CharEnumEntry, 0, [Num(guid), Text(name)] + tail);
      e.Some? && |e.value| == 282 + |name| &&
      e.value[..8] == LE(guid, 8) && e.value[8..9 + |name|] == name + [0]
  {
    EntryTail();
    GuidNameEncoding(g, CharEnumEntry, 273, guid, name, tail);
  }

  /**
   * An entry decodes exactly when a GUID, a NUL-terminated name and the
   * fixed 273-byte tail are all present, and then it consumes 282 bytes plus
   * the name.
   */
  lemma EntryDecoding(d: seq<byte>)
    ensures DecodeFields(CharEnumEntry, 0, d).Some? <==>
      |d| >= 8 && 0 in d[8..] && |d| >= 282 + FirstZero(d[8..])
    ensures DecodeFields(CharEnumEntry, 0, d).Some? ==>
      DecodeFields(CharEnumEntry, 0, d).value.1 == 282 + FirstZero(d[8..])
  {
    EntryTail();
    GuidNameDecoding(CharEnumEntry, 273, d);
  }

  /**
   * The first character's name in a received character list, read as the
   * generated code reads it: the packet starts with two zero bytes, so
   * `ReadCString` yields an empty name and does not move the cursor, and the
   * Race field is then read from the name's first byte. The corrected read
   * at the name's position (after the 6-byte header, the count and the
   * GUID) yields the name and consumes it with its NUL.
   */
  lemma CharEnumNameAsWritten(guid: nat, name: seq<byte>, rest: seq<byte>)
    requires 0 !in name
    ensures var data := Framing.ReceivedPacket(Opcodes.SMSG_CHAR_ENUM, [1] + LE(guid, 8) + name + [0] + rest);
      DecodeCStringAsWritten(data) == Some((Text([]), 0)) &&
      DecodeString(CString, data[15..]) == Some((Text(name), |name| + 1))
  {
    var data := Framing.ReceivedPacket(Opcodes.SMSG_CHAR_ENUM, [1] + LE(guid, 8) + name + [0] + rest);
    assert data[0] == 0;
    var tail := data[15..];
    assert tail == name + [0] + rest;
    assert tail[|name|] == 0;
    FirstZeroAt(tail, |name|);
    assert tail[..|name|] == name;
  }

  /** The first NUL of a sequence whose first n bytes are not NUL and whose byte n is. */
  lemma FirstZeroAt(s: seq<byte>, n: nat)
    requires n < |s| && s[n] == 0 && 0 !in s[..n]
    ensures 0 in s && FirstZero(s) == n
  {
    assert s[n] in s;
    CStringPrefixUnique(s, s[..n]);
  }

  /** A definition whose only field is a vector of plain items. */
  lemma SingleVectorCount(s: Schema, items: seq<Value>)
    requires |s.refs| == 1 && s.refs[0].Vector? && PlainType(s.refs[0].ty)
    requires FieldsFit(s, 0, [Items(items)], false)
    ensures EncodeFields(AsWritten, s, 0, [Items(items)]).Some?
    ensures EncodeFields(Corrected, s, 0, [Items(items)]).value ==
      LE(|items|, Width(s.refs[0].sizeType)) + EncodeFields(AsWritten, s, 0, [Items(items)]).value
  {
    var t := s.refs[0].ty;
    ghost var vs := [Items(items)];
    EncodeFieldsCons(Corrected, s, 0, vs);
    EncodeFieldsCons(AsWritten, s, 0, vs);
    assert vs[1..] == [];
    ItemsAgree(t, items);
    var body := EncodeItems(Corrected, t, items).value;
    var count := LE(|items|, Width(s.refs[0].sizeType));
    var r := s.refs[0];
    assert r == Vector(t, r.sizeType);
    assert EncodeRef(Corrected, r, vs[0]) == Join(Some(count), EncodeItems(Corrected, t, items));
    assert EncodeRef(AsWritten, s.refs[0], vs[0]) == Some(body);
    assert count + body + [] == count + body;
    assert body + [] == body;
  }

  /**
   * The character list is a single vector of plain entries with a one-byte
   * count, so by `SingleVectorCount` its generated `Write` leaves out the
   * byte its `Read` expects first.
   */
  lemma CharEnumIsSingleVector()
    ensures |SMSGCharEnum.refs| == 1 && SMSGCharEnum.refs[0].Vector?
    ensures PlainType(SMSGCharEnum.refs[0].ty) && Width(SMSGCharEnum.refs[0].sizeType) == 1
  {
    EntryPlain();
  }

  /** No fixed-width or sized strings and no vectors: the generated `Write` of an entry is right. */
  lemma EntryPlain()
    ensures PlainSchema(CharEnumEntry)
  {
    assert PlainSchema(CharEnumItem);
    assert PlainSchema(CharEnumBag);
  }

  /** The character list is not complex: its only field is a vector. */
  lemma CharEnumNotComplex()
    ensures !Complex(SMSGCharEnum)
    ensures Complex(CharEnumEntry)
  {
    assert RefComplex(CharEnumEntry.refs[1]);
  }

  /** The character-list request has an empty payload, and reading it consumes nothing. */
  lemma CharEnumRequestEmpty(g: Generator, d: seq<byte>)
    ensures EncodeFields(g, CMSGCharEnum, 0, []) == Some([])
    ensures DecodeFields(CMSGCharEnum, 0, d) == Some(([], 0))
  {
  }

  /** The login request is exactly the 8 little-endian bytes of the GUID. */
  lemma PlayerLoginPayload(g: Generator, guid: nat)
    requires guid < U64
    ensures FieldsFit(CMSGPlayerLogin, 0, [Num(guid)], false)
    ensures EncodeFields(g, CMSGPlayerLogin, 0, [Num(guid)]) == Some(LE(guid, 8))
  {
    Pow256Widths();
    assert EncodeFields(g, CMSGPlayerLogin, 1, []) == Some([]);
    assert LE(guid, 8) + [] == LE(guid, 8);
  }

  /**
   * For both client requests the generated `Write` is right: what it writes,
   * the generated `Read` takes back, whatever follows.
   */
  lemma ClientRequestsRoundTrip(s: Schema, vs: seq<Value>, rest: seq<byte>)
    requires s == CMSGCharEnum || s == CMSGPlayerLogin
    requires FieldsFit(s, 0, vs, true)
    ensures EncodeFields(AsWritten, s, 0, vs).Some?
    ensures var e := EncodeFields(AsWritten, s, 0, vs).value; DecodeFields(s, 0, e + rest) == Some((vs, |e|))
  {
    FieldsRoundTrip(s, 0, vs, rest);
    FieldsAgree(s, 0, vs);
  }
}

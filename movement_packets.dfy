/** The movement definitions: the client's choice of which unit it moves. */
module MovementPackets {
  import opened Bytes
  import opened Wrappers
  import opened PacketSchema
  import Opcodes

  const CMSGSetActiveMover: Schema :=
    Schema("CMSGSetActiveMover", WRITE, Some(Opcodes.CMSG_SET_ACTIVE_MOVER), [Single(Basic(UInt64))]) // GUID

  /** A client packet only: it gets a `Send` method and no event hook. */
  lemma SetActiveMoverDirection()
    ensures IsClientPacket(CMSGSetActiveMover) && !IsServerPacket(CMSGSetActiveMover)
  {
  }

  /** Its payload is exactly the 8 little-endian bytes of the GUID, and reading them back gives the GUID. */
  lemma SetActiveMoverPayload(g: Generator, guid: nat, rest: seq<byte>)
    requires guid < U64
    ensures EncodeFields(g, CMSGSetActiveMover, 0, [Num(guid)]) == Some(LE(guid, 8))
    ensures DecodeFields(CMSGSetActiveMover, 0, LE(guid, 8) + rest) == Some(([Num(guid)], 8))
  {
    Pow256Widths();
    var s := CMSGSetActiveMover;
    assert FieldsFit(s, 0, [Num(guid)], true);
    FieldsRoundTrip(s, 0, [Num(guid)], rest);
    assert EncodeFields(g, s, 1, []) == Some([]);
    assert LE(guid, 8) + [] == LE(guid, 8);
  }
}

# A verified model of the wow-bots headless client core

This project models, in Dafny, the protocol core of the tswow `wow-bots`
client: a headless World of Warcraft 3.3.5a (WotLK) client that logs bots
into an authentication server and a world server and lets scripts react to
the packets they receive.

The model covers:

- the packet buffer (`BotPacket`): little-endian reads and writes behind a
  cursor, C strings, packed GUIDs, the world header and its size field;
- the framing layer: reading a world frame through the receive cipher, with
  its 2- or 3-byte size field;
- the movement block (`MovementPacket`) and the object-update entries
  (`UpdateData`, `UpdateDataPacket`);
- the schema-driven packet codec (`packet-builder`) and the login and
  movement packets declared with it;
- the event tables (`BotEvent`), the profile graph that flattens them
  (`BotProfile`, `BotEvents`) and the mutable wrapper (`BotMutable`);
- the authentication handshake (`BotAuth`): the challenge and proof
  layouts, the SRP-6 arithmetic over unbounded integers, the session-key
  derivation and the realm list, as a sequence of steps with their cancel
  and failure exits, and the world-server session that follows;
- the connection loop of a bot (`Bot::Connect`, `WorldPacketLoop`);
- the bot scheduler (`BotMgr`, `Bot`), the console commands, log filtering,
  the Lua module lookup and the map data caches.

Bytes are values of a `byte` type (the integers 0 to 255) and integers are unbounded with their
widths stated. SHA-1, HMAC and the ARC4 keystream are parameters: the
cipher is a keystream `nat -> byte` and a position, so that the property
every layer relies on — both ends transform the same bytes at the same
keystream position — can be stated and proved.

## Model

| member | source | states |
|---|---|---|
| Packet.Packet.WithOpcode | src/Bots/BotPacket.cpp:154-161 | a new world packet is a zero size field followed by the opcode's four bytes, with the cursor at 6 |
| Packet.Packet.OfBytes | src/Bots/BotPacket.cpp:148-152 | a packet built from received bytes holds exactly those bytes; the cursor starts at 6 for a world packet and 0 for an auth packet |
| Packet.Packet.EmptyAuth | src/Bots/BotPacket.cpp:228-232 | a new auth packet is empty with its cursor at 0 |
| Packet.Packet.Read | src/Bots/BotPacket.h:50-57 | returns the little-endian value of the n bytes at the cursor and advances the cursor by exactly n; the data is unchanged; the bytes must exist, since the source does not check |
| Packet.Packet.ReadBytes | src/Bots/BotPacket.cpp:61-67 | returns data[ctr..ctr+n) and advances the cursor by n |
| Packet.Packet.ReadString | src/Bots/BotPacket.cpp:69-76 | returns the same n bytes as ReadBytes and advances the cursor by n |
| Packet.Packet.ReadCString | src/Bots/BotPacket.cpp:78-91 | returns the bytes before the first NUL of the whole buffer, whatever the cursor, and advances the cursor by their count only, not past the NUL |
| Packet.Packet.ReadCStringAtCursor | src/Bots/BotPacket.cpp:78-91 | corrected reader: the bytes from the cursor up to the next NUL, with the cursor moved past that NUL |
| Packet.CStringPrefixUnique | src/Bots/BotPacket.cpp:78-91 | any result ReadCString can return is exactly the prefix before the buffer's first NUL |
| Packet.ReadCStringIgnoresCursor | src/Bots/BotPacket.cpp:78-91 | on "A\0BC\0" with the cursor on the second string, ReadCString yields "A" where "BC" was written |
| Packet.Packet.Write | src/Bots/BotPacket.h:69-76 | appends exactly the n little-endian bytes of v; earlier bytes and the cursor are unchanged |
| Packet.Packet.WriteBytes | src/Bots/BotPacket.h:63-68 | appends the bytes at the end; nothing else changes |
| Packet.Packet.WriteString | src/Bots/BotPacket.cpp:21-25 | appends the string alone, with no length and no terminator |
| Packet.Packet.WriteCString | src/Bots/BotPacket.cpp:26-32 | appends the string and then one zero byte |
| Packet.Packet.WritePadding | src/Bots/BotPacket.cpp:43 | appends n zero bytes |
| Packet.Packet.WritePackedGUID | src/Bots/BotPacket.h:97 | appends the mask byte and the non-zero bytes of the GUID (a definition the repository lacks; see Left out) |
| Packet.ReadAfterWrite | src/Bots/BotPacket.h:50-76 | the n bytes Write appends, read back from where the buffer used to end, decode to the value written |
| Packet.CStringRoundTrip | src/Bots/BotPacket.cpp:26-32 | a string written by WriteCString is found, with its NUL right after it, by a reader starting where it was written |
| Packet.Packet.Reset | src/Bots/BotPacket.cpp:114-117 | puts the cursor at 6 for a world packet (0 for an auth packet, lines 218-221); the data is unchanged |
| Packet.Packet.Seek | src/Bots/BotPacket.cpp:118-121 | puts the cursor at 6 + k for a world packet (k for an auth packet, lines 223-226), in 32-bit arithmetic |
| Packet.Packet.GetOpcode | src/Bots/BotPacket.cpp:93-96 | the 32-bit little-endian value of bytes 2..5 |
| Packet.Packet.SetOpcode | src/Bots/BotPacket.cpp:98-101 | overwrites bytes 2..5 only, after which GetOpcode returns the new opcode |
| Packet.Packet.GetPayloadSize | src/Bots/BotPacket.cpp:104-107 | equals the data length minus 6, as a 16-bit value |
| Packet.SizeFieldValue | src/Bots/BotPacket.cpp:125-127 | the two bytes Prepare writes read back big-endian as the data length minus 2, modulo 2^16 |
| Packet.Packet.Prepare | src/Bots/BotPacket.cpp:123-132 | writes the big-endian size into bytes 0..1; with an encrypt cipher it transforms exactly the first 6 bytes, advancing the cipher by 6, and no payload byte |
| Packet.Packet.ReadPackedGUID | src/Bots/BotPacket.cpp:244-258 | consumes the mask byte plus one byte per set bit and returns the sum of byte_i << 8i over the set bits i in ascending order |
| Packet.Unpack | src/Bots/BotPacket.cpp:249-257 | the bit loop returns the packed value and the number of bytes it took |
| Packet.PackedGuidRoundTrip | src/Bots/BotPacket.cpp:244-258 | unpacking the mask-and-non-zero-bytes form of any 64-bit GUID gives the GUID back and consumes every byte |
| Packet.PackedZero | src/Bots/BotPacket.cpp:246-248 | a zero mask carries no bytes and denotes GUID 0, and GUID 0 packs to the single byte 0 |
| Framing.ReadWorldPacket | src/Bots/BotPacket.cpp:163-207 | one inbound frame read matches the reference ReadFrame: a 3-byte size when the first decrypted byte has bit 0x80 (((b0&0x7F)<<16)\|(b1<<8)\|b2), else 2 bytes; every header byte and the 2-byte opcode pass through the receive cipher in read order; size-2 payload bytes are taken undecrypted; the packet is 2 zero bytes, the opcode, the payload, with the cursor at 6 |
| Framing.ReadHeader | src/Bots/BotPacket.cpp:165-200 | the header bytes come back decrypted and the cipher advances by exactly the number of header bytes read |
| Framing.ReadSizeField | src/Bots/BotPacket.cpp:167-193 | the first byte is decrypted before it decides whether one or two more size bytes follow |
| Framing.Decrypt | src/Bots/BotPacket.cpp:168-171 | bytes pass through the receive cipher only when the bot has one, which then advances by their count |
| Framing.ServerHeaderFields | src/Bots/BotPacket.cpp:175-193 | a header a server writes for n payload bytes has its top bit set exactly when it is 5 bytes long, and decodes to size n + 2 and its opcode |
| Framing.FrameRoundTrip | src/Bots/BotPacket.cpp:163-207 | a frame a server sends for any opcode and payload, encrypted at the receiver's keystream position, reads back as exactly that packet and consumes exactly the frame, for both header lengths |
| Framing.CryptInvolutive | src/Bots/BotPacket.cpp:168-199 | decrypting at the same keystream position undoes the server's encryption |
| Cipher.Arc4.UpdateData | src/Bots/BotPacket.cpp:130 | transforms the given bytes with the next keystream bytes and advances the keystream by their count |
| Cipher.ApplySplit | src/Bots/BotPacket.cpp:168-199 | passing bytes through the cipher piece by piece in order equals passing them at once |
| Stream.InStream.Read | src/Bots/BotPacket.cpp:177 | a socket read of n bytes yields the next n bytes or, at the end of the stream, fails and exhausts it |
| Stream.InStream.ReadCString | src/Bots/BotAuth.cpp:380-381 | a socket C-string read returns the bytes up to the next NUL and consumes the NUL; without a NUL it fails |
| Movement.Read | src/Packets/Movement.cpp:36-86 | consumes a packed GUID, uint32 flags, uint16 flags2, uint32 time and four 4-byte x/y/z/o words, then the flag-selected blocks, and fills exactly the fields the reference Decode assigns; the opcode comes from the packet |
| Movement.MovementPacket.Write | src/Packets/Movement.cpp:88-134 | produces the world header followed by the packed GUID, the flags and exactly the fields WriteSteps selects, which omits the 8-byte transport GUID |
| Movement.ReadLenSteps | src/Packets/Movement.cpp:49-83 | the bytes Read takes after flags2: 20 for time and position; 8 + 21, plus 4 with INTERPOLATED_MOVEMENT, when ONTRANSPORT; 4 for pitch; 4 for fallTime; 16 when FALLING; 4 when SPLINE_ELEVATION |
| Movement.PitchAlwaysPresent | src/Packets/Movement.cpp:65-68 | the pitch condition ORs the flags with non-zero constants, so it holds for every flags and flags2 and pitch is always read and written |
| Movement.OrNonZero32Bits | src/Packets/Movement.cpp:65 | the condition `a \| b` in C++ is true exactly when the 32-bit bitwise or is non-zero |
| Movement.MovementRoundTrip | src/Packets/Movement.cpp:36-134 | with ONTRANSPORT clear, reading back what Write emitted recovers every written field, leaves the others as they were, and consumes exactly the written bytes |
| Movement.DecodeEncode | src/Packets/Movement.cpp:36-134 | the same round trip stated as copying the written fields over the initial contents |
| Movement.TransportMisparse | src/Packets/Movement.cpp:49-57 | with ONTRANSPORT set, the GUID Read stores is the uint64 made of the transportX and transportY words Write emitted |
| Movement.GuidFromTransportBytes | src/Packets/Movement.cpp:51 | on a transport the mover GUID is overwritten from bytes 20..27 after flags2, which Write filled with transportX and transportY |
| Movement.ReadKeepsTransportGuid | src/Packets/Movement.cpp:177-180 | Read never assigns TransportGUID, so GetTransportGUID returns what the object held before |
| Movement.MovementPacket.Set | src/Packets/Movement.cpp:241-359 | each setter changes only its own field and returns the same object |
| Update.UpdateData.constructor | src/Packets/Update.cpp:157 | a fresh entry keeps its default scalars and movement and has no spline points, no update fields and no out-of-range GUIDs |
| Update.FillFrame | src/Packets/Update.cpp:48-153 | the straight-line reads keep every slot and change only the slots their steps store into |
| Update.UpdateData.ReadMovement | src/Packets/Update.cpp:48-153 | reads the 16-bit update flags and then exactly the placement chain and the trailing blocks the flags select, with the slots, points and cursor given by the reference PartAt |
| Update.PlacementChain | src/Packets/Update.cpp:51-121 | POSITION reads the position block, else STATIONARY_POSITION the stationary one, else nothing after the living case; the transport GUID is read exactly when POSITION is set |
| Update.TrailingIndependent | src/Packets/Update.cpp:123-152 | each trailing block (unknown word, low GUID, target, transport timer, vehicle, rotation) is read exactly when its own flag is set |
| Update.FacingChain | src/Packets/Update.cpp:66-79 | FINAL_ANGLE wins over FINAL_TARGET, which wins over FINAL_POINT; at most one facing is read |
| Update.SplineFromStaleFlags | src/Packets/Update.cpp:53-63 | the spline is gated on the flags of the entry's own movement member, which the discarded static read never fills, so with those flags clear the spline points are untouched whatever the packet says |
| Update.DiscardMovement | src/Packets/Update.cpp:53 | the static movement read advances the cursor past the movement block and changes nothing else |
| Update.UpdateData.ReadPoints | src/Packets/Update.cpp:89-96 | after the resize, the loop fills point i from the three words at 12·i, for every i below the count, and consumes 12 bytes per point |
| Update.Resize | src/Packets/Update.cpp:89 | the vector gets the new length and keeps its old points below it |
| Update.SplineTailParts | src/Packets/Update.cpp:88-100 | the point count is read first, the points follow it, and the evaluation mode and end point come after the last point |
| Update.UpdateData.ReadValues | src/Packets/Update.cpp:27-46 | reads the chunk count, the masks and one word per set bit, leaving the fields the reference Values gives |
| Update.ReadMasks | src/Packets/Update.cpp:29-34 | reads blockCount 32-bit masks in order |
| Update.UpdateData.ReadChunks | src/Packets/Update.cpp:36-45 | the nested loops store the k-th value after the masks for the k-th set mask bit, visiting the bits in ascending order, and consume 4 bytes per set bit |
| Update.ValuesParts | src/Packets/Update.cpp:27-46 | a values block consumes 1 + 4·chunks + 4·(set bits) bytes and stores every value read |
| Update.Key | src/Packets/Update.cpp:42 | the key chunkI << 32 & byteI is 0 for every chunk index below 256 and bit number below 32 |
| Update.StoredAtZero | src/Packets/Update.cpp:36-45 | after the loops, the update fields are unchanged when no bit is set, and otherwise differ only at key 0, which holds the last value read |
| Update.ValuesLoseAllButLast | src/Packets/Update.cpp:36-45 | one mask with bits 0 and 1 set and values 7 and 9 leaves the single field 0 ↦ 9 |
| Update.UpdateData.GetUpdateField | src/Packets/Update.cpp:434-437 | returns the stored value of a present field; a missing field is inserted with value 0, which is returned |
| Update.UpdateData.Read | src/Packets/Update.cpp:155-197 | a new entry is default-initialised and filled from the type byte on exactly as DecodeEntry describes, consuming the bytes it says |
| Update.UpdateData.ReadOutOfRange | src/Packets/Update.cpp:182-190 | reads a uint32 count and appends that many uint32 GUIDs in order |
| Update.OutOfRangeLayout | src/Packets/Update.cpp:182-190 | an out-of-range entry holds exactly the announced number of GUIDs and consumes 5 + 4·count bytes |
| Update.ValuesEntryLayout | src/Packets/Update.cpp:161-166 | a VALUES entry takes its GUID from the packed form and touches neither the spline points nor the out-of-range list |
| Update.PackedGuidPart | src/Packets/Update.cpp:163 | the packed GUID part stores the unpacked GUID in the GUID slot |
| Update.OtherTypesReadNothing | src/Packets/Update.cpp:191-195 | NEAR_OBJECTS and unknown update types consume only the type byte and set nothing |
| Update.DecodePacket | src/Packets/Update.cpp:454-464 | a packet is a uint32 count followed by exactly that many entries |
| Update.UpdateDataPacket.Read | src/Packets/Update.cpp:454-464 | reads the count and then that many entries in order, each into its own new entry, as DecodePacket describes |
| Update.UpdateDataPacket.ReadEntries | src/Packets/Update.cpp:459-462 | the loop appends entry i for i from 0 below the count, each read from where the previous one ended |
| Update.UpdateDataPacket.EntryCount | src/Packets/Update.cpp:524-527 | the number of entries read |
| PacketSchema.DirectionCases | packets/packet-builder.h:32-40 | every direction is readable or writable, and both exactly when it is BOTH |
| PacketSchema.ClientServerCases | packets/packet-builder.h:885-893 | a chunk (no opcode) is neither a client nor a server packet; a packet is at least one, and both exactly when declared BOTH |
| PacketSchema.Width | packets/packet-builder.h:194 | a basic type occupies 1, 2, 4 or 8 bytes, as its sizeof |
| PacketSchema.PacketBuilder.CreateChunk | packets/packet-builder.h:877-883 | a new builder holds the name and direction, no opcode and no references |
| PacketSchema.PacketBuilder.CreatePacket | packets/packet-builder.h:870-875 | a chunk builder that also carries the opcode |
| PacketSchema.PacketBuilder.SingleField | packets/packet-builder.h:546-550 | appends one single reference and returns the same builder; nothing else changes |
| PacketSchema.PacketBuilder.ArrayField | packets/packet-builder.h:552-556 | appends one fixed-array reference of the given length and returns the same builder |
| PacketSchema.PacketBuilder.VectorField | packets/packet-builder.h:558-562 | appends one vector reference with its size type and returns the same builder |
| PacketSchema.PacketBuilder.Padding | packets/packet-builder.h:564-568 | appends a padding whose amount is 0 whatever size was asked for, because the size is never stored |
| PacketSchema.PacketBuilder.PaddingFixed | packets/packet-builder.h:564-568 | corrected builder call: the padding keeps the requested size |
| PacketSchema.PaddingIgnored | packets/packet-builder.h:524-537 | as written, a padding of any requested size neither writes nor skips a byte; corrected, it skips exactly its size |
| PacketSchema.PacketBuilder.IsComplex | packets/packet-builder.h:570-580 | true exactly when some reference is complex: a string, or a nested definition that is itself complex |
| PacketSchema.DecodeString | packets/packet-builder.h:196-208 | a static string takes its width, a sized string its length after the length field, and the corrected C-string read stops at the first NUL from the cursor and consumes it |
| PacketSchema.DecodeCStringAsWritten | packets/packet-builder.h:196-199 | the generated C-string read succeeds exactly when the buffer holds a NUL, returns the bytes before the buffer's first NUL and advances by their count, independently of the cursor |
| PacketSchema.ReadCStringFieldAsWritten | packets/packet-builder.h:196-199 | the generated `ReadCString()` statement returns what DecodeCStringAsWritten gives for the whole buffer and advances the cursor by that count |
| PacketSchema.CStringAsWrittenStalls | packets/packet-builder.h:196-199 | on a buffer that starts with NUL, as a received world packet does, the generated read yields "" and consumes nothing, while the corrected read consumes at least the NUL |
| PacketSchema.ReadCStringField | packets/packet-builder.h:196-199 | corrected C-string field read: the bytes from the cursor up to the NUL, with the cursor past it |
| PacketSchema.ReadStaticString | packets/packet-builder.h:200-203 | `ReadString(size)`: the next size bytes |
| PacketSchema.ReadSizedString | packets/packet-builder.h:204-208 | reads the length in its size type, then that many bytes |
| PacketSchema.ReadString | packets/packet-builder.h:196-208 | dispatches on the string kind and returns what DecodeString gives, advancing the cursor by what it consumes |
| PacketSchema.ReadType | packets/packet-builder.h:186-209 | a basic value is read little-endian at its width, a string by its kind, a nested definition by its own Read; the result is DecodeType's |
| PacketSchema.ReadFields | packets/packet-builder.h:632-642 | the read, with C strings taken at the cursor as corrected, visits the references in order and returns exactly the values DecodeFields gives, with the cursor moved by the bytes it consumes |
| PacketSchema.ReadField | packets/packet-builder.h:635-640 | one reference's statement: its value, and the remaining references still decode from where it stopped |
| PacketSchema.ReadRef | packets/packet-builder.h:383-390 | an array reads its fixed number of items, a vector its count then the items, a padding skips its amount |
| PacketSchema.ReadVector | packets/packet-builder.h:494-503 | reads the count in the size type, resizes, and reads that many items |
| PacketSchema.ReadItems | packets/packet-builder.h:383-390 | the item loop reads n values of the item type in order |
| PacketSchema.ReadItem | packets/packet-builder.h:386-388 | one item of the loop; the remaining items still decode after it |
| PacketSchema.EncodeString | packets/packet-builder.h:170-183 | a C string is written with its NUL; as written a static string is copied unpadded and a sized string has no encoding; corrected, the static string is zero-padded and the sized string is preceded by its length |
| PacketSchema.EncodeRef | packets/packet-builder.h:374-381 | as written a vector's items are written with no count in front; corrected, the count comes first |
| PacketSchema.WriteType | packets/packet-builder.h:161-184 | appends exactly the as-written encoding of the value; the cursor is unchanged |
| PacketSchema.WriteFields | packets/packet-builder.h:644-652 | the generated Write appends each reference's encoding in order, and nothing else |
| PacketSchema.WriteRef | packets/packet-builder.h:485-492 | appends the reference's as-written encoding: a vector as its items alone |
| PacketSchema.WriteItems | packets/packet-builder.h:374-381 | the item loop appends every item's encoding in order |
| PacketSchema.StringRoundTrip | packets/packet-builder.h:161-208 | every string the corrected writer encodes reads back as itself and consumes exactly the encoding |
| PacketSchema.TypeRoundTrip | packets/packet-builder.h:161-208 | every fitting value the corrected writer encodes reads back as itself, consuming exactly its encoding, whatever follows |
| PacketSchema.FieldsRoundTrip | packets/packet-builder.h:632-652 | the corrected read undoes the corrected write for every value list that fits the definition, whatever follows it |
| PacketSchema.RefRoundTrip | packets/packet-builder.h:374-503 | one reference's corrected encoding decodes to its value and consumes exactly the encoding |
| PacketSchema.VectorRoundTrip | packets/packet-builder.h:485-503 | a vector's count, written in its size type, reads back as the number of items that follow |
| PacketSchema.ItemsRoundTrip | packets/packet-builder.h:374-390 | n items written in order read back as the same n items |
| PacketSchema.FieldsAgree | packets/packet-builder.h:644-652 | for definitions without vectors, static or sized strings and padding, the generated Write produces exactly the corrected encoding |
| PacketSchema.TypeAgree | packets/packet-builder.h:161-184 | the same agreement for one value of such a type |
| PacketSchema.VectorCountLost | packets/packet-builder.h:485-503 | a one-item byte vector [0] is written as the single byte 0, which the generated Read takes for the count of an empty vector |
| PacketSchema.StaticStringUnpadded | packets/packet-builder.h:175-178 | "A" in a two-byte name field followed by a one-byte level is written as two bytes, which Read takes as the whole name, leaving nothing for the level |
| PacketSchema.SizedStringIllFormed | packets/packet-builder.h:179-183 | a sized string has no as-written encoding; the corrected one is its length byte followed by the bytes |
| SchemaSize.EncodeFieldsSize | packets/packet-builder.h:644-652 | a definition of fixed size encodes to exactly that many bytes under both generators |
| SchemaSize.DecodeFieldsSize | packets/packet-builder.h:632-642 | a definition of fixed size decodes exactly when that many bytes are present, and consumes exactly that many |
| SchemaSize.EncodeTypeSize | packets/packet-builder.h:161-184 | a value of fixed-size type encodes to exactly its size |
| SchemaSize.DecodeTypeSize | packets/packet-builder.h:186-209 | a fixed-size type decodes exactly when its size is available, consuming that size |
| SchemaSize.EncodeItemsSize | packets/packet-builder.h:374-381 | n items of a fixed-size type take n times its size |
| SchemaSize.DecodeItemsSize | packets/packet-builder.h:383-390 | n items of a fixed-size type decode exactly when n times its size is available |
| LoginPackets.ChunksAreNotPackets | packets/Login.h:5-39 | the item, bag and entry chunks have no opcode, so they are neither client nor server packets |
| LoginPackets.PacketDirections | packets/Login.h:41-53 | the character list is a server packet only; the character-list and login requests are client packets only |
| LoginPackets.ChunkSizes | packets/Login.h:5-15 | an item takes 9 bytes and a bag 12, whatever they hold |
| LoginPackets.EntryTail | packets/Login.h:17-39 | everything after the name takes a fixed 273 bytes, and the C-string name makes the entry variable |
| LoginPackets.EntryEncoding | packets/Login.h:17-39 | an entry is written as its GUID, its name with a NUL and 273 more bytes: 282 bytes plus the name |
| LoginPackets.EntryDecoding | packets/Login.h:17-39 | with the corrected C-string read, an entry decodes exactly when a GUID, a NUL-terminated name and the 273-byte tail are present, and consumes 282 bytes plus the name |
| LoginPackets.CharEnumNameAsWritten | packets/Login.h:19 | in a received character list the generated read of the first name yields "" and does not move the cursor, because the packet starts with zero bytes; the corrected read at the name's position, byte 15, yields the name and consumes it with its NUL |
| LoginPackets.CharEnumIsSingleVector | packets/Login.h:41-44 | the character list is one vector of plain entries with a one-byte count, so its generated Write leaves out the count byte its Read expects first |
| LoginPackets.SingleVectorCount | packets/packet-builder.h:485-503 | for a definition made of one vector, the as-written encoding is the corrected one without the leading count |
| LoginPackets.EntryPlain | packets/Login.h:17-39 | an entry has no vector, static or sized string, so its generated Write is the corrected encoding |
| LoginPackets.CharEnumNotComplex | packets/Login.h:17-44 | the character list is not complex (its only field is a vector) while an entry is (it holds a string) |
| LoginPackets.CharEnumRequestEmpty | packets/Login.h:46-48 | the character-list request has an empty payload and reading it consumes nothing |
| LoginPackets.PlayerLoginPayload | packets/Login.h:50-53 | the login request is exactly the 8 little-endian bytes of the GUID |
| LoginPackets.ClientRequestsRoundTrip | packets/Login.h:46-53 | for both client requests, what the corrected write emits the corrected read takes back, whatever follows |
| MovementPackets.SetActiveMoverDirection | packets/Movement.h:5-8 | the active-mover request is a client packet only |
| MovementPackets.SetActiveMoverPayload | packets/Movement.h:5-8 | its payload is exactly the 8 little-endian bytes of the GUID, and reading them back gives the GUID |
| Events.Event.constructor | src/Events/BotEvent.h:35-38 | a new event table has no callbacks and no keyed slots |
| Events.Event.Add | src/Events/BotEvent.h:119-123 | `name(cb)` appends the C++ callback to the unkeyed list and changes nothing else |
| Events.Event.AddLua | src/Events/BotEvent.h:124-129 | `Lname(cb)` appends the Lua callback to the unkeyed Lua list and changes nothing else |
| Events.Event.AddCxxKeyed | src/Events/BotEvent.h:133-143 | `name(reg_id, cb)` grows the keyed table to reg_id + 1 when shorter and appends cb to slot reg_id only |
| Events.AddKeyedSlots | src/Events/BotEvent.h:133-143 | a keyed registration reaches slot reg only, grows the table just enough to have it, and leaves every other slot as it was |
| Events.Event.AddCxxKeyedAll | src/Events/BotEvent.h:144-150 | `name(ids, cb)` registers cb under each id in turn |
| Events.AddKeyedAllSlots | src/Events/BotEvent.h:144-150 | after registering under a list of ids, slot i keeps its old callbacks and gains cb once per occurrence of i in the list, after them |
| Events.Event.AddLuaKeyed | src/Events/BotEvent.h:151-161 | `_Lname(reg_id, cb)` grows the Lua keyed table when shorter and appends cb to slot reg_id only |
| Events.Event.AddLuaObject | src/Events/BotEvent.h:162-178 | `Lidname(obj, cb)`: a number registers under one id, a table under each of its entries in order, anything else registers nothing |
| Events.Event.Extend | src/Events/BotEvent.h:45-82 | appends the other event's unkeyed callbacks, grows each keyed table to the other's length, and appends the other's slots slot by slot: the reference Extended |
| Events.ExtendTable | src/Events/BotEvent.h:57-80 | the keyed half of extend yields the merged table: the longer length, with each slot the two slots concatenated |
| Events.Merged | src/Events/BotEvent.h:57-80 | a merged table has the larger length and every slot is the first table's slot followed by the second's |
| Events.ExtendKeepsExisting | src/Events/BotEvent.h:45-82 | extension keeps what was there: every list and slot is a prefix of the new one, no table shrinks, and the new entries come after |
| Events.ExtendEmpty | src/Events/BotEvent.h:45-82 | extending with an empty event changes nothing, and extending an empty event copies the other |
| Events.ExtendAssoc | src/Events/BotEvent.h:45-82 | extending with b then c is extending with b already extended with c |
| Events.ExtendEntries | src/Events/BotEvent.h:40-82 | an extended event has unkeyed callbacks exactly when one of the two had |
| Events.Event.Clear | src/Events/BotEvent.h:84-96 | empties both unkeyed lists and every slot, keeping the keyed tables' lengths |
| Events.ClearedIsEmpty | src/Events/BotEvent.h:84-96 | a cleared event has no unkeyed callbacks, keeps its table lengths, has empty slots everywhere, and clearing twice is clearing once |
| Events.ClearTable | src/Events/BotEvent.h:88-95 | the slot loop leaves as many slots as before, every one empty |
| Events.FireCxxLoop | src/Events/BotEvent.h:194-198 | the C++ loop of FIRE runs the setup then each callback in order and leaves the macro at the first exception |
| Events.FireLuaLoop | src/Events/BotEvent.h:200-215 | the Lua loop runs the setup then each callback in order, and a raising callback is logged and the loop goes on |
| Events.FireLoop | src/Events/BotEvent.h:192-216 | FIRE is the C++ loop followed, unless an exception left it, by the Lua loop |
| Events.FireIdLoop | src/Events/BotEvent.h:218-250 | FIRE_ID is FIRE, then the C++ callbacks of slot ref when the table reaches it, then the Lua callbacks of slot ref |
| Events.FireCxxAll | src/Events/BotEvent.h:194-198 | when no C++ callback raises, every one runs, in order, and nothing escapes |
| Events.FireCxxStops | src/Events/BotEvent.h:194-198 | the first C++ callback that raises is the last to run, and the exception escapes |
| Events.FireLuaAll | src/Events/BotEvent.h:200-215 | every Lua callback runs, in order, whether or not any of them raises |
| Events.FireOrder | src/Events/BotEvent.h:192-216 | a firing in which no C++ callback raises runs all C++ callbacks and then all Lua callbacks, and nothing escapes |
| Events.FireCxxEscapes | src/Events/BotEvent.h:192-216 | a raising C++ callback skips the rest of the C++ callbacks and every Lua callback, and the exception escapes |
| Events.FireIdOrder | src/Events/BotEvent.h:218-250 | with no raising C++ callback, a keyed firing runs the unkeyed C++ then Lua callbacks, then slot ref's C++ then Lua callbacks |
| Mutable.Mutable.constructor | src/Profile/BotMutable.h:8-10 | the handle keeps the pointer it was given |
| Mutable.Mutable.Set | src/Profile/BotMutable.h:12-15 | writes through the pointer: the pointed variable holds the new value |
| Mutable.Mutable.Get | src/Profile/BotMutable.h:17-20 | returns the pointed variable's value and changes nothing |
| Mutable.Mutable.Copy | src/Profile/BotMutable.h:3-21 | a copy of a handle points at the same variable |
| Mutable.SetThenGet | src/Profile/BotMutable.h:12-20 | a value set through a handle is what the next get returns |
| Mutable.CopiesAlias | src/Profile/BotMutable.h:3-21 | two copies of one handle write the same variable: the later write is what the owner sees |
| Profile.ProfileMgr.constructor | src/Profile/BotProfile.cpp:44-47 | the manager starts as Reset leaves it |
| Profile.ProfileMgr.Reset | src/Profile/BotProfile.cpp:29-36 | forgets every node and name: only a new root with empty events remains, named "tswow:root_events" |
| Profile.ProfileMgr.GetRootEvent | src/Profile/BotProfile.cpp:38-41 | a loaded handle on node 0 |
| Profile.ProfileMgr.CreateEvents | src/Profile/BotProfile.cpp:54-74 | appends a node with nine empty events whose parents are the given nodes in order, or the root when none are given; each parent gains the new node as a child once per listing; parent edges keep pointing to earlier nodes and child edges mirror them |
| Profile.GrownGraph | src/Profile/BotProfile.cpp:54-74 | adding a node below its parents keeps edges downward and mirrored, and keeps every non-root node with a parent |
| Profile.ProfileMgr.Register | src/Profile/BotProfile.cpp:149-159 | binds "mod:name" to the node and returns the handle; a name already taken is refused with the source's message and the table is unchanged |
| Profile.BindLookup | src/Profile/BotProfile.cpp:149-175 | a free key, once bound, looks up the node and leaves other keys alone; binding a taken key fails |
| Profile.ProfileMgr.GetEvents | src/Profile/BotProfile.cpp:167-175 | the node registered under the name, or a failure naming the missing events |
| Profile.ProfileMgr.SetBehaviorRoot | src/Profile/BotProfile.cpp:161-165 | installs the tree on that node only |
| Profile.ProfileMgr.On | src/Events/BotEvent.h:119-123 | appends a C++ callback to the unkeyed list of the node's event of that kind, and nothing else changes |
| Profile.ProfileMgr.LOn | src/Events/BotEvent.h:124-129 | appends a Lua callback to the unkeyed Lua list of the node's event of that kind |
| Profile.ProfileMgr.OnWorldPacketId | src/Events/BotEvent.h:133-143 | appends a C++ callback to the opcode's slot of the node's OnWorldPacket event |
| Profile.ProfileMgr.OnWorldPacketIds | src/Events/BotEvent.h:144-150 | registers the same C++ callback under each opcode of the list in order |
| Profile.ProfileMgr.LOnWorldPacketId | src/Events/BotEvent.h:151-161 | appends a Lua callback to the opcode's slot of the node's OnWorldPacket event |
| Profile.ProfileMgr.LidOnWorldPacket | src/Events/BotEvent.h:162-178 | a number registers under one opcode, a table under each of its entries in order, anything else registers nothing |
| Profile.ProfileMgr.OnMovementPacket | src/Profile/BotProfile.cpp:187-219 | one wrapper callback lands exactly once in each of the 24 movement opcodes' slots, and every other slot is unchanged |
| Profile.MovementOpcodesDistinct | src/Profile/BotProfile.cpp:189-214 | the 24 movement opcodes are distinct |
| Profile.AddKeyedAllDistinct | src/Events/BotEvent.h:144-150 | registering under distinct ids appends the callback once to each of their slots and leaves every other slot as it was |
| Profile.ProfileMgr.OnUpdateData | src/Profile/BotProfile.cpp:221-232 | the plain-update wrapper lands in SMSG_UPDATE_OBJECT's slot and the compressed one in SMSG_COMPRESSED_UPDATE_OBJECT's; no other slot changes |
| Profile.ApplyExtensions | src/Profile/BotProfile.h:63-74 | apply_extensions extends each of the nine events by the parent's event of the same kind |
| Profile.ProfileMgr.ApplyExtensionsFrom | src/Profile/BotProfile.h:63-74 | only the target node changes, extended kind by kind by the parent's events |
| Profile.ProfileMgr.ApplyParents | src/Profile/BotProfile.cpp:76-87 | walks cur's parents in order, sharing the visited set; the target ends extended by exactly the nodes the reference Walk applies, in that order |
| Profile.ProfileMgr.ApplyParent | src/Profile/BotProfile.cpp:80-85 | an unvisited parent is marked visited, extended into the target first, and then its own parents are walked |
| Profile.WalkVisits | src/Profile/BotProfile.cpp:76-87 | the walk applies exactly the nodes it newly visits, each once, and none visited before it started |
| Profile.OrderIsAncestors | src/Profile/BotProfile.cpp:76-87 | from an empty visited set the walk applies every distinct ancestor of the node exactly once, and nothing else |
| Profile.ExtendAllLists | src/Events/BotEvent.h:45-82 | extending by a list of nodes keeps each kind's own callbacks first and appends the nodes' callbacks in list order, in the unkeyed C++ and Lua lists and in every keyed C++ and Lua slot |
| Profile.ExtendAllAppend | src/Profile/BotProfile.cpp:76-87 | extending by a concatenation is extending by each part in turn |
| Profile.ProfileMgr.GetDeepestChild | src/Profile/BotProfile.cpp:89-114 | every depth it returns is 0, so all reachable nodes are filed into one layer, each after all of its children |
| Profile.ProfileMgr.ApplyLayer | src/Profile/BotProfile.cpp:123-130 | each node of the layer ends as Flattened says, and the nodes outside it are unchanged |
| Profile.ProfileMgr.Build | src/Profile/BotProfile.cpp:116-139 | every node reachable from the root ends with its own callbacks followed by each distinct ancestor's, once each, in ApplyParents order; in a graph where every non-root node has a parent, as CreateEvents builds, that is every node; afterwards all edges are gone |
| Profile.FlattenedLists | src/Profile/BotProfile.cpp:116-139 | after Build, every kind of node x holds its own callbacks, then those of each distinct ancestor once each in visiting order, in the unkeyed C++ and Lua lists and in every keyed C++ and Lua slot |
| Profile.FlattenedRoot | src/Profile/BotProfile.cpp:116-139 | a node without parents is left as it was |
| Profile.LinkedLayerComplete | src/Profile/BotProfile.cpp:89-114 | in a graph where every non-root node has a parent, a layer that holds the root and each node's children holds every node |
| Profile.BeforeAncestors | src/Profile/BotProfile.cpp:89-114 | in a children-first layer every node comes before each of its ancestors |
| Profile.ProfileMgr.ClearEdges | src/Profile/BotProfile.cpp:133-138 | every node's parent and child lists are emptied |
| Auth.AuthResultName | src/Bots/BotAuth.cpp:53-76 | a result byte has the name "INVALID_AUTH_RESULT" exactly when it is not one of the sixteen known codes 0 to 15 |
| Auth.AuthCommandName | src/Bots/BotAuth.cpp:90-105 | a command byte is "INVALID_AUTH_COMMAND" exactly when it is none of LOGON_CHALLENGE, LOGON_PROOF, REALM_LIST and the 0x30-0x34 transfer commands |
| Auth.Decimal | src/Bots/BotAuth.cpp:161 | `std::to_string` of a number is a non-empty run of decimal digits |
| Auth.Stoi | src/Bots/BotAuth.cpp:391 | `std::stoi` either throws or returns a value inside the 32-bit `int` range |
| Auth.DecimalDigits | src/Bots/BotAuth.cpp:161 | the decimal text of n is all digits and spells n |
| Auth.DecimalInjective | src/Bots/BotAuth.cpp:161 | two different numbers never get the same decimal text |
| Auth.StoiDecimal | src/Bots/BotAuth.cpp:391 | `std::stoi` reads back what `std::to_string` wrote |
| Auth.SplitAddress | src/Bots/BotAuth.cpp:382-392 | an address without ':' is all host with port 8085; otherwise the host is the text before the first ':' (so it holds no ':') and the port is the `stoi` value kept in 16 bits |
| Auth.AddressRoundTrip | src/Bots/BotAuth.cpp:382-392 | `host:port` with a colon-free host and a 16-bit port splits back into that host and port |
| Auth.ClientChallenge | src/Bots/BotAuth.cpp:108-127 | the logon challenge is 34 fixed bytes starting with LOGON_CHALLENGE, then the user name; byte 33 holds the name length modulo 256 |
| Auth.ClientChallengeFields | src/Bots/BotAuth.cpp:108-127 | for names shorter than 256 bytes the size field counts every byte after it, and the build 12340, the IP and the name sit where the server reads them |
| Auth.CheckReply | src/Bots/BotAuth.cpp:157-170 | a reply passes exactly when its result is SUCCESS and its command is the expected one |
| Auth.ReplyAt | src/Bots/BotAuth.cpp:172-181 | a reply header at p passes exactly when it is present, carries the expected command and a SUCCESS result; it ends 3 bytes on for LOGON_CHALLENGE and 2 otherwise |
| Auth.ReadReply | src/Bots/BotAuth.cpp:172-181 | the socket read of a reply header succeeds, fails and advances exactly as ReplyAt says |
| Auth.ChallengeOf | src/Bots/BotAuth.h:98-108 | the 116 packed bytes of the server challenge give 32-byte B, N and salt and a 16-byte unknown field |
| Auth.ChallengeRoundTrip | src/Bots/BotAuth.h:98-108 | reading what the server wrote for a challenge gives back that challenge |
| Auth.ChallengeBytesRoundTrip | src/Bots/BotAuth.cpp:302 | every 116 bytes read as a challenge are exactly that challenge's encoding |
| Auth.AuthString | src/Bots/BotAuth.cpp:303-304 | the hashed text is the upper-cased user name, a ':' and the upper-cased password |
| Auth.MinimalLE | src/Bots/BotAuth.cpp:238-249 | a number's bytes, least significant first, spell the number and have no high zero byte; only 0 has none |
| Auth.MergeBig | src/Bots/BotAuth.cpp:238-249 | `MergeVec` of a positive big number spells the number and drops nothing, since its top byte is never zero |
| Auth.MergeBigMinimal | src/Bots/BotAuth.cpp:238-249 | the zero-byte trim in `MergeVec` never fires: its result is the minimal encoding |
| Auth.SessionBytesFixedWidth | src/Bots/BotAuth.cpp:322-324 | padding S's bytes to 32 gives exactly S's 32-byte encoding |
| Auth.Evens | src/Bots/BotAuth.cpp:327-328 | the 16 bytes hashed first are S's even-indexed bytes |
| Auth.Odds | src/Bots/BotAuth.cpp:332-333 | the 16 bytes hashed second are S's odd-indexed bytes |
| Auth.Interleave | src/Bots/BotAuth.cpp:329-336 | the 40-byte key puts the first digest at even places and the second at odd places |
| Auth.HalvesOfInterleave | src/Bots/BotAuth.cpp:329-336 | splitting the interleaved key gives back the two digests |
| Auth.InterleaveOfHalves | src/Bots/BotAuth.cpp:329-336 | every 40-byte key is the interleaving of its halves |
| Auth.SessionKey | src/Bots/BotAuth.cpp:322-336 | the session key is 40 bytes |
| Auth.SessionKeyHalves | src/Bots/BotAuth.cpp:322-336 | each half of the session key is the digest of one half of S's bytes as the client lays them out |
| Auth.ProofPacket | src/Bots/BotAuth.cpp:347 | the logon proof is 75 bytes: LOGON_PROOF, A in 32 little-endian bytes, M1 and 22 zero bytes |
| Auth.ProofPacketsAgree | src/Bots/BotAuth.cpp:347 | when A's top byte is not zero, the packet as written is the 75-byte proof |
| Auth.ProofPacketShort | src/Bots/BotAuth.cpp:347 | when A's top byte is zero, the packet as written is shorter than 75 bytes |
| Auth.RealmTextAt | src/Bots/BotAuth.cpp:377-381 | a realm's three leading bytes and two C strings, when present, end inside the data |
| Auth.RealmRestAt | src/Bots/BotAuth.cpp:382-403 | the rest of a realm, when read, ends inside the data after its texts |
| Auth.RealmAt | src/Bots/BotAuth.cpp:375-404 | one realm, when read, ends inside the data after its start |
| Auth.ReadRealmName | src/Bots/BotAuth.cpp:377-380 | the socket reads of the leading bytes and the name give the bytes at the cursor and the C string after them, and advance past its NUL |
| Auth.ReadRealmText | src/Bots/BotAuth.cpp:377-381 | the socket reads of a realm's texts agree with RealmTextAt and stop where it says |
| Auth.ReadRealmRest | src/Bots/BotAuth.cpp:382-403 | the socket reads after the texts agree with RealmRestAt |
| Auth.ReadRealm | src/Bots/BotAuth.cpp:375-404 | one pass of the realm loop agrees with RealmAt |
| Auth.RealmsAt | src/Bots/BotAuth.cpp:374-404 | k realms, when read, are k realms ending inside the data |
| Auth.RealmListAt | src/Bots/BotAuth.cpp:373-404 | a realm list holds as many realms as its 16-bit count at header bytes 7-8 says |
| Auth.ReadRealms | src/Bots/BotAuth.cpp:374-404 | the realm loop agrees with RealmsAt |
| Auth.ReadRealmList | src/Bots/BotAuth.cpp:373-404 | the header read and the realm loop together agree with RealmListAt |
| Auth.RealmTailFields | src/Bots/BotAuth.cpp:393-403 | population, load, time zone and id follow the texts, and the four version bytes come only when flag 4 is set |
| Auth.RealmRoundTrip | src/Bots/BotAuth.cpp:375-404 | the client reads back every realm a server can send and stops right after it |
| Auth.RealmsRoundTrip | src/Bots/BotAuth.cpp:374-404 | the client reads back every run of realms and stops right after it |
| Auth.RealmListHeader | src/Bots/BotAuth.cpp:150-154 | the header's count field holds the number of realms that follow |
| Auth.RealmListRoundTrip | src/Bots/BotAuth.cpp:373-404 | the client reads back every realm list a server can send |
| Srp.Mod | src/Bots/BotAuth.cpp:321 | `%` on big numbers gives the remainder below a positive modulus |
| Srp.ModExp | src/Bots/BotAuth.cpp:318 | `ModExp(e, N)` gives b^e mod N, below N for a positive N |
| Srp.ClientSecret | src/Bots/BotAuth.cpp:306-321 | S, computed from B, g, N, x, a and u with k = 3, lies below N |
| Srp.ClientSecretFormula | src/Bots/BotAuth.cpp:306-321 | the client's S is (B - k*g^x)^(a + u*x) mod N, the SRP-6 client formula of section 2.6 of RFC 5054 |
| Srp.HonestBase | src/Bots/BotAuth.cpp:321 | when B = k*v + g^b' as an honest server sends it, B - k*g^x is congruent to g^b' |
| Srp.HonestProduct | src/Bots/BotAuth.cpp:318-321 | with A = g^a and v = g^x, A*v^u is congruent to g^(a + u*x) |
| Srp.SharedSecret | src/Bots/BotAuth.cpp:306-321 | against an honest server the client's S equals the server's (A*v^u)^b' mod N, so both ends derive the same key |
| Srp.RandomBytes | src/Bots/BotAuth.cpp:272-281 | `getRandomBytes<T>()` has T bytes and byte i is i modulo 256: nothing random |
| Srp.GetRandomBytes | src/Bots/BotAuth.cpp:272-281 | the filling loop yields a fresh array holding exactly RandomBytes(T) |
| Srp.PrivateExponentPositive | src/Bots/BotAuth.cpp:317 | the private exponent a taken from 19 such bytes is positive |
| Srp.OurSeedValue | src/Bots/BotAuth.cpp:437 | the client seed of the world session is always 0x03020100 |
| Srp.ChooseAAsWritten | src/Bots/BotAuth.cpp:313-319 | the do-while exits exactly when g^a mod N is not zero, and then yields that a and A; otherwise no bound on the passes lets it exit, since a is the same on every pass |
| Srp.ZeroGeneratorStalls | src/Bots/BotAuth.cpp:313-319 | a generator that is 0 modulo N keeps A at 0 for every positive exponent, so the loop never exits |
| Srp.ChooseA | src/Bots/BotAuth.cpp:313-319 | the corrected choice fails exactly when A would be 0 and otherwise yields the fixed a and an A strictly between 0 and N |
| Srp.ChooseAAgrees | src/Bots/BotAuth.cpp:313-319 | the corrected choice succeeds exactly where the loop as written exits |
| Handshake.SetEncryptionKey | src/Bots/Bot.cpp:104-116 | both new ciphers run on HMAC-SHA1 of the session key under the fixed client encryption and decryption keys, each already 1024 keystream bytes in |
| Handshake.XorDigestInvolutive | src/Bots/BotAuth.cpp:338-344 | XORing the same digest in twice gives back the first one |
| Handshake.GnHash | src/Bots/BotAuth.cpp:338-344 | the two loops leave H(N) XOR H(g) in `gnHash` |
| Handshake.DeriveKey | src/Bots/BotAuth.cpp:325-336 | the loops leave in `keyData` the digest of S's even bytes at the even places and that of its odd bytes at the odd places |
| Handshake.DeriveSecrets | src/Bots/BotAuth.cpp:303-346 | the secrets are derived exactly when A = g^a mod N is not zero; A then lies strictly between 0 and N and the key has 40 bytes |
| Handshake.ComputeSecrets | src/Bots/BotAuth.cpp:303-346 | step 3's statements, loops included, compute exactly DeriveSecrets |
| Handshake.ResponseRoundTrip | src/Bots/BotAuth.h:110-117 | the 11 packed bytes of a world auth response read back into the response written |
| Handshake.CheckResponse | src/Bots/BotAuth.cpp:467-472 | the response passes exactly when its detail is AUTH_OK |
| Handshake.SessionTail | src/Bots/BotAuth.cpp:439-451 | the session fields after the name's NUL take 52 bytes |
| Handshake.SessionPayload | src/Bots/BotAuth.cpp:437-451 | the session payload is 61 bytes longer than the user name |
| Handshake.SessionFields | src/Bots/BotAuth.cpp:437-451 | the world server finds the build 12340, the name as a C string, the client seed, the realm id and the session digest at their offsets |
| Handshake.TailFields | src/Bots/BotAuth.cpp:442-449 | in the tail the client seed sits at 4, the realm id at 16 and the digest at 28 |
| Handshake.BuildAuthSession | src/Bots/BotAuth.cpp:437-451 | the `Write` chain yields a fresh world packet holding the zero size, CMSG_AUTH_SESSION and exactly SessionPayload |
| Handshake.WriteSessionTail | src/Bots/BotAuth.cpp:442-451 | the writes after the name append exactly SessionTail and leave the cursor |
| Handshake.Handshake | src/Bots/BotAuth.cpp:290-482 | a completed run holds a session key and stands after the response inside the world data; a run cancelled after a realm was chosen stands after the challenge |
| Handshake.ChallengeStep | src/Bots/BotAuth.cpp:300-354 | going on yields A > 0 and a 40-byte key; stopping sends nothing to the world and connects to no realm; the proof handler's cancel always stops |
| Handshake.ChallengeFrom | src/Bots/BotAuth.cpp:302-354 | once the reply header is read: a challenge cut short fails, and going on yields A > 0 and a 40-byte key; the proof handler's cancel always stops |
| Handshake.SecretsStep | src/Bots/BotAuth.cpp:347-353 | step 3 goes on exactly when the secrets were derived and the proof handler did not cancel |
| Handshake.ProofCheckStep | src/Bots/BotAuth.cpp:356-371 | going on stays inside the auth data; stopping sends nothing to the world; the realm-request handler's cancel always stops |
| Handshake.RealmStep | src/Bots/BotAuth.cpp:364-418 | going on needs a non-empty realm list and yields the handler's chosen realm or else the first one; the close handler's cancel always stops |
| Handshake.WorldStep | src/Bots/BotAuth.cpp:427-458 | going on consumes the challenge frame inside the world data; stopping sends nothing to the world; the session handler's cancel always stops |
| Handshake.SessionStep | src/Bots/BotAuth.cpp:428-458 | a challenge packet other than SMSG_AUTH_CHALLENGE or too short stops the run; a cancel stops it after the frame; otherwise the session packet goes out |
| Handshake.ResponseStep | src/Bots/BotAuth.cpp:460-472 | after the session packet the run is never cancelled, has sent exactly that packet to the world, is keyed with the session key, and when done stands past the response with the receive cipher beyond its first 1024 bytes |
| Handshake.ResponseCheck | src/Bots/BotAuth.cpp:462-482 | the response finishes the run only with the right opcode and AUTH_OK; the auth messages, world message, key, realm and socket decision are kept either way |
| Handshake.AuthenticateBot | src/Bots/BotAuth.cpp:284-482 | the coroutine over the two connections computes exactly Handshake and leaves the world stream and receive cipher where the packet loop needs them |
| Handshake.ReadChallenge | src/Bots/BotAuth.cpp:300-354 | step 3 on the auth socket computes exactly ChallengeStep and stops the cursor where it says |
| Handshake.ReadChallengeBody | src/Bots/BotAuth.cpp:302-354 | reading the 116-byte challenge and deriving the secrets computes exactly ChallengeFrom and stops the cursor where it says |
| Handshake.OfferProof | src/Bots/BotAuth.cpp:347-353 | the proof handler's decision is exactly SecretsStep |
| Handshake.VerifyProof | src/Bots/BotAuth.cpp:356-362 | step 4 on the auth socket computes exactly ProofCheckStep |
| Handshake.RequestRealms | src/Bots/BotAuth.cpp:364-418 | steps 5 and 6 on the auth socket compute exactly RealmStep |
| Handshake.ConnectWorld | src/Bots/BotAuth.cpp:427-458 | step 7 on the world socket computes exactly WorldStep and stops the cursor where it says |
| Handshake.ReadChallengeFrame | src/Bots/BotAuth.cpp:427-428 | the first world frame is read without a cipher; when the stream ends first, step 7 fails with end of stream, and otherwise step 7 goes on with the frame's bytes and the position after it |
| Handshake.AnswerChallenge | src/Bots/BotAuth.cpp:428-458 | checking the challenge, reading its seed and sending the session packet computes exactly SessionStep |
| Handshake.BuildSession | src/Bots/BotAuth.cpp:432-451 | reading the seed leaves the challenge packet as it was, and the new session packet starts with CMSG_AUTH_SESSION |
| Handshake.SendSession | src/Bots/BotAuth.cpp:458 | with no cipher set, the wire carries the size field followed by the packet after its size bytes |
| Handshake.ReadChallengeSeed | src/Bots/BotAuth.cpp:432-436 | of the four challenge fields only the seed at payload bytes 4-7 is kept, and the packet's bytes do not change |
| Handshake.AwaitResponse | src/Bots/BotAuth.cpp:460-472 | keying the ciphers and reading the response computes exactly ResponseStep |
| Handshake.CheckWorldResponse | src/Bots/BotAuth.cpp:462-482 | the checks on the response packet compute exactly ResponseCheck |
| Handshake.ServerSessionKey | src/Bots/BotAuth.cpp:322-336 | the key an honest server derives from its own S has 40 bytes |
| Handshake.HonestServerAgrees | src/Bots/BotAuth.cpp:303-346 | against a server that knows the password, the client's key, M1 and M2 are the ones the server derives |
| Handshake.HonestProofAccepted | src/Bots/BotAuth.cpp:356-371 | an honest server's proof reply passes step 4: the realm list is requested next unless a handler cancels |
| Handshake.WrongProofRejected | src/Bots/BotAuth.cpp:358-362 | any other 20 bytes in the proof reply end the run with "Server proof mismatch" |
| Handshake.ReceivedPacketOpcode | src/Bots/BotPacket.cpp:148-152 | a received packet stores the opcode at bytes 2-5 and the payload from byte 6 |
| Handshake.ChallengeAnswered | src/Bots/BotAuth.cpp:428-458 | an SMSG_AUTH_CHALLENGE frame in the clear is answered with the session packet built from the seed in payload bytes 4-7 |
| Handshake.ResponseDecides | src/Bots/BotAuth.cpp:460-472 | an encrypted SMSG_AUTH_RESPONSE frame completes the handshake exactly when its detail is AUTH_OK, and otherwise fails with the detail's number |
| Handshake.CompletedRun | src/Bots/BotAuth.cpp:290-482 | a completed run sent the auth server the challenge, the proof and the realm-list request, sent the world one packet, keyed the ciphers with a 40-byte key, used the chosen realm, and no handler cancelled |
| Handshake.CancelKeepsWorldQuiet | src/Bots/BotAuth.cpp:290-458 | a cancel at any step before the session packet leaves means nothing reaches the world server, no cipher is keyed and the run does not complete |
| Handshake.CancelBeforeWorld | src/Bots/BotAuth.cpp:290-418 | a cancel on the auth connection stops the run before any realm is connected to |
| BotConnection.Failures | src/Bots/Bot.cpp:125-133 | the loop logs at most one line per packet served |
| BotConnection.FailuresMeaning | src/Bots/Bot.cpp:125-133 | a message is logged exactly when the handlers threw it for some packet served |
| BotConnection.WorldPacketLoop | src/Bots/Bot.cpp:118-141 | the loop hands the handlers exactly the packets Served yields from where the stream and receive cipher stood, logs exactly what escapes them, and ends at the end of the data |
| BotConnection.Handle | src/Bots/Bot.cpp:125-133 | handing one packet to the handlers extends the log exactly as Failures does for that packet |
| BotConnection.ServeNext | src/Bots/Bot.cpp:124 | a failed read leaves nothing more to serve and stands at the end of the data; a good read yields the first packet Served gives |
| BotConnection.ReadFrameInClear | src/Bots/BotPacket.cpp:163-207 | without a cipher the keystream position plays no part in a read |
| BotConnection.ServedOfWire | src/Bots/Bot.cpp:118-141 | the loop serves exactly the packets the server sent, in order, whatever their header lengths |
| BotConnection.ServedOfFrame | src/Bots/Bot.cpp:118-141 | one server frame ahead of anything is served first, then whatever follows it from where its header left the cipher |
| BotConnection.Chars | src/Bots/Bot.cpp:154 | the name in the log shows each byte of the account name as the character with that code |
| BotConnection.Connect | src/Bots/Bot.cpp:143-160 | after `DisconnectNow` a connect runs the handshake and then the loop, exactly as the reference Connected says: a thrown handshake is logged and ends the attempt, otherwise the loop reads through the receive cipher, in the clear, or not at all |
| BotConnection.ServesAfterLogin | src/Bots/Bot.cpp:143-160 | after a completed login the bot serves every packet the world server sends, in order, and logs what the handlers throw |
| BotConnection.FailureLogged | src/Bots/Bot.cpp:152-156 | a failed login logs exactly one line, "Error logging in  bot ", the name, ": " and the error, and serves nothing |
| BotConnection.EarlyCancelServesNothing | src/Bots/Bot.cpp:143-160 | a cancel before the world connection opens leaves the bot serving nothing and logging nothing |
| BotConnection.CancelledSessionServesInClear | src/Bots/Bot.cpp:143-160 | a cancel of the session packet keys no cipher and sends nothing to the world, and the bot then serves what follows the challenge with the headers taken as received |
| Bots.NewBot | src/Bots/Bot.cpp:31-42 | a new bot keeps its thread, event set and auth server, is connected with nothing open, and stores its account name and password upper-cased |
| Bots.NewBotNameUpper | src/Bots/Bot.cpp:39 | a stored account name has the given name's length, holds no lower-case letter, and upper-casing it again changes nothing |
| Bots.DisconnectNow | src/Bots/Bot.cpp:64-85 | both sockets are closed and both ciphers dropped, and nothing else about the bot changes |
| Bots.LoadScripts | src/Bots/Bot.cpp:162-171 | loading a bot's scripts throws exactly when its event set is not registered; the bot keeps a behaviour exactly when its event set is registered with a root, and nothing else about it changes |
| Bots.ReloadOneAgain | src/Bots/Bot.cpp:162-171 | loading a bot's scripts twice is loading them once, and what a bot of the thread gets does not depend on the behaviour it had |
| Bots.AuthServerIgnored | src/Bots/BotMgr.cpp:73 | a thread connects every queued bot to the literal loopback address, never to a different server the bot was started with; the corrected target is that server |
| Bots.LoginsKeep | src/Bots/BotMgr.cpp:60-75 | draining the logins, thrown or not, changes only behaviours, and only of the thread's bots; the set of bots with a behaviour only grows |
| Bots.LoginsSound | src/Bots/BotMgr.cpp:60-75 | only queued bots that exist, belong to the thread and are not disconnected connect |
| Bots.LoginsThrown | src/Bots/BotMgr.cpp:60-75 | the login loop throws exactly when some queued, live bot of the thread names an event set that is not registered |
| Bots.LoginsComplete | src/Bots/BotMgr.cpp:60-75 | when every queued live bot of the thread names a registered event set, every one of them connects, to the corrected target: the server it was started with (as written, 127.0.0.1; see Findings) |
| Bots.RemovesMeaning | src/Bots/BotMgr.cpp:77-95 | exactly the queued, disconnected bots of the thread are erased, and every other bot is kept as it was |
| Bots.RemovesKeepLive | src/Bots/BotMgr.cpp:77-95 | removals keep every thread's set of live bots, since only disconnected bots are erased |
| Bots.Unloaded | src/Bots/BotMgr.cpp:99-106 | unloading the thread's bots leaves each of them without a behaviour and changes nothing else about any bot |
| Bots.ReloadsKeep | src/Bots/BotMgr.cpp:110-116 | the reload loop, thrown or not, changes only behaviours, and only of the thread's bots |
| Bots.ReloadsThrown | src/Bots/BotMgr.cpp:110-116 | the reload loop throws exactly when a bot of the thread it visits names an event set that is not registered |
| Bots.ReloadsComplete | src/Bots/BotMgr.cpp:110-116 | when the loop visits every bot of the thread and each names a registered event set, it does not throw, every bot of the thread is reloaded and every other bot kept, and the behaviour set grows by exactly the thread's bots whose event set has a root |
| Bots.UnloadedReload | src/Bots/BotMgr.cpp:99-116 | unloading first changes nothing a complete reload gives |
| Bots.UpdateValid | src/Bots/BotMgr.cpp:149-189 | replacing one bot on the same thread and changing that thread's count by the change in its liveness keeps every count equal to the number of live bots |
| Bots.RestartedValid | src/Bots/BotMgr.cpp:152-161 | starting a known bot again keeps every thread's count equal to its live bots |
| Bots.InsertedValid | src/Bots/BotMgr.cpp:175-177 | storing and counting a new bot keeps every thread's count equal to its live bots |
| Bots.QueuedValid | src/Bots/Bot.cpp:54-62 | queueing a disconnection keeps every thread's count equal to its live bots |
| Bots.StopThenStart | src/Bots/BotMgr.cpp:149-189 | stopping a live bot and starting it again restores its entry and every thread's count |
| Bots.ReloadAll | src/Bots/BotMgr.cpp:110-116 | the loop over `m_bots` computes the reload loop: it throws exactly when a visited bot of the thread names an unregistered event set, and when nothing throws and every bot is visited, every bot of the thread is reloaded, the others are kept, and exactly the thread's bots whose event set has a root are collected |
| Bots.BotMgr.constructor | src/Bots/BotMgr.cpp:143-147 | the manager starts with no bots and no threads; `upperKeys` says whether bots are stored under the name as given, as written, or upper-cased, as corrected |
| Bots.BotMgr.Initialize | src/Bots/BotMgr.cpp:191-200 | `Bots.ThreadCount` idle threads, each with empty queues and no bots and due to load its scripts; a negative count fails and changes nothing |
| Bots.BotMgr.LeastLoaded | src/Bots/BotMgr.cpp:163-170 | the chosen thread has the fewest live bots and is the first such; there is none exactly when there are no threads |
| Bots.BotMgr.StartBot | src/Bots/BotMgr.cpp:149-178 | a known bot is reconnected, counted again if it was stopped and queued to log in; with no threads nothing changes; otherwise a new bot is stored on a least-loaded thread, counted and queued |
| Bots.BotMgr.QueueDisconnect | src/Bots/Bot.cpp:54-62 | the first call uncounts the bot and queues its account name for removal; every call marks it disconnected |
| Bots.BotMgr.StopBot | src/Bots/BotMgr.cpp:180-189 | an unknown or already stopped bot is left alone; otherwise its disconnection is queued |
| Bots.BotMgr.DrainLogins | src/Bots/BotMgr.cpp:60-75 | the login loop changes the bots and the behaviour set exactly as Logins does and returns its connections and whether it threw; the login queue is emptied only when nothing throws |
| Bots.BotMgr.DrainRemoves | src/Bots/BotMgr.cpp:77-95 | the removal loop changes the bots and the behaviour set exactly as Removes does, and leaves the removal queue as it was |
| Bots.BotMgr.ReloadThread | src/Bots/BotMgr.cpp:97-118 | the thread's bots are unloaded, the behaviour set cleared and the reload loop run; it throws exactly when a bot of the thread in the order names an unregistered event set, and the reload stays due exactly when it throws; without a throw over every bot, every bot of the thread is reloaded and the behaviour set is exactly those that got a behaviour |
| Bots.BotMgr.Tick | src/Bots/BotMgr.cpp:57-119 | a tick is Ticked: a stopped or idle thread is left alone; otherwise the logins, the removals and a due reload run in turn, a throw ends the thread's loop where it happens, and no other thread changes |
| Bots.TickConnectsSound | src/Bots/BotMgr.cpp:57-119 | only queued, live bots of the thread connect in a tick |
| Bots.TickThrowStops | src/Bots/BotMgr.cpp:57-119 | a queued live bot whose event set is not registered ends the thread's loop: both queues stay as they were and a due reload stays due |
| Bots.TickCompletes | src/Bots/BotMgr.cpp:57-119 | when every queued live bot and every bot of the thread names a registered event set, the thread keeps running with no login queued and no reload due, and every queued live bot connects |
| Bots.BotMgr.Reload | src/Bots/BotMgr.cpp:202-208 | every thread is due to reload and nothing else changes |
| Bots.StopKeepsLowerCaseBot | src/Bots/BotMgr.cpp:149-189 | started as "alice", a bot is stored under "alice" but its removal is queued under "ALICE", so after the next drain it is still there, disconnected |
| Bots.StopRemovesBot | src/Bots/BotMgr.cpp:149-189 | stored under the upper-cased name, the same bot is gone after the next drain and its thread counts no bots |
| Commands.ConstructorTypesSwapped | src/Commands/BotCommandMgr.cpp:34-53 | as written a string parameter with a default is typed BOOLEAN and a flag with a default is typed STRING; the corrected constructors type them as their defaults say, with the same default text |
| Commands.BoolDefaultRoundTrip | src/Commands/BotCommandMgr.cpp:48-53 | a flag's default text, "true" or "false", reads back through `get_bool` as the flag |
| Commands.DefaultsInverted | src/Commands/BotCommandMgr.cpp:153-170 | as written an option is registered with a default exactly when it has none, so a required option gets the empty default; the corrected registration gives exactly the options with a default their own |
| Commands.PositionalsBeforeMarker | src/Commands/BotCommandMgr.cpp:146-174 | without a NAMED_ARGUMENTS marker every parameter is positional, and a parameter after a marker never is |
| Commands.Register | src/Commands/BotCommandMgr.cpp:146-174 | the registration loop registers every parameter but the marker, in order, and takes as positionals exactly the names before the first marker |
| Commands.Split | src/Commands/BotCommandMgr.cpp:180-205 | the splitting loop computes exactly Tokenize: the words, or "Uneven quotes" |
| Commands.WordsClean | src/Commands/BotCommandMgr.cpp:127-136 | every word of a split line is non-empty and holds no quote |
| Commands.WordsRoundTrip | src/Commands/BotCommandMgr.cpp:180-205 | plain words joined by single spaces split back into the same words |
| Commands.QuotedIsOneWord | src/Commands/BotCommandMgr.cpp:185-189 | a quoted text is one word, blank space and all |
| Commands.UnterminatedQuote | src/Commands/BotCommandMgr.cpp:201-204 | an opening quote that is never closed is reported as "Uneven quotes" |
| Commands.FillSuccess | src/Commands/BotCommandMgr.cpp:212-226 | after filling, every parameter has a value, what the parser supplied is kept, and every other value is some parameter's default |
| Commands.FillFailure | src/Commands/BotCommandMgr.cpp:212-226 | filling fails only for a parameter without a default that was not supplied, and the message names it |
| Commands.FillTotal | src/Commands/BotCommandMgr.cpp:212-226 | when every parameter is supplied or has a default, filling succeeds |
| Commands.MarkerIsRequired | src/Commands/BotCommandMgr.cpp:55-60 | a command holding the marker fails unless something supplies the empty name, since the marker is a parameter named "" without a default |
| Commands.FillDefaults | src/Commands/BotCommandMgr.cpp:212-226 | the default-filling loop computes exactly Fill |
| Commands.Command.constructor | src/Commands/BotCommandMgr.cpp:23-25 | a new command has its name, no description and no parameters |
| Commands.Command.AddStringParam | src/Commands/BotCommandMgr.cpp:66-76 | appends one string parameter, required or with a default typed as written, and changes nothing else |
| Commands.Command.AddNumberParam | src/Commands/BotCommandMgr.cpp:77-86 | appends one number parameter, required or with the printed default, and changes nothing else |
| Commands.Command.AddBoolParam | src/Commands/BotCommandMgr.cpp:88-98 | appends one flag, required or with a default typed as written, and changes nothing else |
| Commands.Command.SetDescription | src/Commands/BotCommandMgr.cpp:100-104 | the description becomes the text given |
| Commands.Command.Fire | src/Commands/BotCommandMgr.cpp:138-228 | an input with uneven quotes fails with "Uneven quotes"; otherwise the arguments handed on are the parser's, filled by Fill |
| Commands.LongestPrefixUnique | src/Commands/BotCommandMgr.cpp:239-253 | at most one command name is the longest prefix of an input |
| Commands.StartArguments | src/Commands/BotCommands.h:25-45 | `start` succeeds exactly when a user name and a password are supplied; a missing event set becomes "tswow:root_events" and a missing auth server "127.0.0.1" |
| Commands.CommandMgr.constructor | src/Commands/BotCommandMgr.cpp:255-259 | the manager starts with no commands |
| Commands.CommandMgr.CreateCommand | src/Commands/BotCommandMgr.cpp:233-237 | a fresh, empty command under the name replaces any existing one, and no other command changes |
| Commands.CommandMgr.Select | src/Commands/BotCommandMgr.cpp:241-248 | no command is chosen exactly when no name is a prefix of the input; otherwise the chosen name is the longest such prefix |
| Commands.CommandMgr.Fire | src/Commands/BotCommandMgr.cpp:239-253 | an input no command name starts is ignored; otherwise the command with the longest such name fires |
| Commands.CommandMgr.Reload | src/Commands/BotCommandMgr.cpp:261-269 | every command is dropped and only `start` is registered again, with its description and its four parameters |
| Logging.LevelValue | src/Bots/BotLogging.h:21-28 | the levels are the byte values 1 (trace) to 5 (error) |
| Logging.ShouldLog | src/Bots/BotLogging.cpp:29-35 | a message is printed exactly when the category's threshold, or else the `Logger.*` one (default 1), is positive and at most the message's level |
| Logging.ShouldLogMonotone | src/Bots/BotLogging.cpp:29-35 | what is printed at one level is printed at every higher level |
| Logging.ThresholdDefaults | src/Bots/BotLogging.cpp:29-35 | with nothing configured every message is printed; a category set to 0 prints nothing |
| Logging.DirectivesGrow | src/Bots/BotLogging.cpp:134-166 | a prefix of a message never takes more arguments than the whole message |
| Logging.FormatMessage | src/Bots/BotLogging.cpp:134-167 | the scanning loop prints exactly Rendered when the message takes no more arguments than were given, and fails when it takes more |
| Logging.PlainMessage | src/Bots/BotLogging.cpp:162-165 | a message without '%' takes no arguments and prints as it is |
| Logging.DirectiveExamples | src/Bots/BotLogging.cpp:138-161 | "%%s" takes one argument and prints it, since a second '%' leaves the scanner in command mode; an unknown directive takes nothing and prints nothing |
| Logging.LBotLog | src/Bots/BotLogging.cpp:125-168 | below the threshold nothing is printed; otherwise the header, the rendered message and a newline, or a failure when the arguments run out |
| LuaShared.EndsWith | src/Lua/BotLuaShared.cpp:35-39 | comparing from the last characters backwards holds exactly when the ending is no longer than the value and is its suffix |
| LuaShared.ReplaceAll | src/Lua/BotLuaShared.cpp:63-64 | every occurrence of one character becomes the other, and every other character and the length stay |
| LuaShared.ModuleFile | src/Lua/BotLuaShared.cpp:61-68 | a module name becomes a path with its dots and backslashes turned into slashes and ".lua" added, so it ends with ".lua" |
| LuaShared.FindLuaModule | src/Lua/BotLuaShared.cpp:61-68 | the searched-for target is ModuleFile of the name, and the file found from the current directory wins over the one found from the root |
| LuaShared.Absolute | src/Lua/BotLuaShared.cpp:76 | an absolute path starts with '/', and a path that already does is kept |
| LuaShared.LuaState.constructor | src/Lua/BotLuaShared.cpp:70-72 | a new state executes nothing, caches nothing and has not failed |
| LuaShared.LuaState.CreateTable | src/Lua/BotLuaShared.cpp:104 | a created table is new: no cached module holds it |
| LuaShared.LuaState.ExecuteFile | src/Lua/BotLuaShared.cpp:74-106 | after an error or for a cached file nothing changes; a failing script logs its message, sets the flag and stays on the file stack; otherwise its table, or a fresh one, is cached under its absolute path and the stack is as before |
| LuaShared.LuaState.ExecuteFileCorrected | src/Lua/BotLuaShared.cpp:74-106 | the same, but the file stack is as before on every path, the error one included |
| LuaShared.LuaState.Require | src/Lua/BotLuaShared.cpp:108-144 | "lualib_bundle" answers its cache entry, created empty when missing; an unfound name fails; a path being executed is a circular dependency listing the stack; a cached path answers its table; otherwise, after an earlier error or when the script fails, a fresh table is answered and nothing is cached, and a failure is logged and sets the error flag; a script that runs has its table answered and cached under its path, and no other entry changes |
| LuaShared.LuaState.Restart | src/Lua/BotLuaShared.cpp:146-162 | a restart empties the cache but for the bundle and clears the error flag, and keeps the file stack |
| LuaShared.RequireTwice | src/Lua/BotLuaShared.cpp:108-144 | a module required twice runs once: the second call answers what the first did |
| LuaShared.StaleStackAsWritten | src/Lua/BotLuaShared.cpp:91-100 | as written a failed script stays on the stack across a restart, so requiring it afterwards reports a circular dependency although nothing is running |
| LuaShared.RestartRetriesCorrected | src/Lua/BotLuaShared.cpp:91-100 | with the corrected ExecuteFile the same sequence runs the script again and caches its table |
| Maps.Dec | src/Map/BotMaps.cpp:41-47 | stepping a coordinate down subtracts the step when the coordinate is larger and stops at 0 otherwise, never going up |
| Maps.Inc | src/Map/BotMaps.cpp:49-55 | stepping a coordinate up always yields a valid coordinate: the sum clamped to the last coordinate, where the sum is taken modulo 2^32 as the guard computes it |
| Maps.IncWrapsAround | src/Map/BotMaps.cpp:49-55 | because the guard adds in 32 bits, a step of 2^32 - 5 from coordinate 5 lands on 0 instead of on the last grid |
| Maps.Id | src/Map/BotMaps.cpp:85-88 | the id of a valid coordinate is below LIMIT², and its remainder and quotient by LIMIT give back x and y |
| Maps.IdInjective | src/Map/BotMaps.cpp:85-88 | two valid coordinates share an id exactly when they are equal |
| Maps.CoordPair.constructor | src/Map/BotMaps.cpp:26-28 | a pair holds the two coordinates it was built from |
| Maps.CoordPair.DecX | src/Map/BotMaps.cpp:41-47 | x steps down, saturating at 0, and y is untouched |
| Maps.CoordPair.IncX | src/Map/BotMaps.cpp:49-55 | x steps up, staying a valid coordinate, and y is untouched |
| Maps.CoordPair.DecY | src/Map/BotMaps.cpp:57-63 | y steps down, saturating at 0, and x is untouched |
| Maps.CoordPair.IncY | src/Map/BotMaps.cpp:65-71 | y steps up, staying a valid coordinate, and x is untouched |
| Maps.CoordPair.Normalize | src/Map/BotMaps.cpp:78-83 | afterwards the pair is valid, each coordinate is clamped to LIMIT - 1, and an already valid pair is left alone |
| Maps.CoordPair.GetId | src/Map/BotMaps.cpp:85-88 | the row-major index of a valid pair, from which both coordinates are recovered |
| Maps.StepsKeepValid | src/Map/BotMaps.cpp:41-76 | a decrement or an increment of a coordinate that satisfies IsCoordValid keeps it valid |
| Maps.HoleBit | src/Map/BotMaps.cpp:717-730 | a square of a grid is a hole exactly when the bit for its 2 × 2 block (4 × block row + block column) is set in its cell's word |
| Maps.MaskIsBit | src/Map/BotMaps.cpp:201-202 | a cell word masked with one entry of each hole table tests exactly one bit of the word |
| Maps.TablesMeet | src/Map/BotMaps.cpp:201-202 | entry c of the horizontal table and entry r of the vertical table share exactly bit 4r + c |
| Maps.Unload | src/Map/BotMaps.cpp:300-319 | after unloading there is no hole table and heights come from the flat getter |
| Maps.UnloadIdempotent | src/Map/BotMaps.cpp:300-319 | unloading twice leaves the same tables as unloading once |
| Maps.GridMap.constructor | src/Map/BotMaps.cpp:211-236 | a new grid has no tables, the flat height getter, and all its integer fields 0 |
| Maps.GridMap.UnloadData | src/Map/BotMaps.cpp:300-319 | the grid's tables become the unloaded tables and the grid stays well formed |
| Maps.GridMap.IsHole | src/Map/BotMaps.cpp:717-730 | without a hole table no square is a hole; with one, a square is a hole exactly when its block's bit is set in its cell word |
| Maps.UnloadedHasNoHoles | src/Map/BotMaps.cpp:300-319 | after unloadData no square of the grid is reported as a hole |
| MapData.LessAsWritten | src/Map/BotMapDataMgr.h:30-35 | the cache's key order as written: a key is less only when its map id and x are both smaller and its y is larger |
| MapData.OneMapOneKey | src/Map/BotMapDataMgr.h:30-35 | under that order any two grids of one map are equivalent keys, and no key is less than itself |
| MapData.AsWrittenNotStrictWeak | src/Map/BotMapDataMgr.h:30-35 | equivalence under that order is not transitive, so it is not the strict weak ordering a std::map key needs |
| MapData.FindOneAsWritten | src/Map/BotMapDataMgr.cpp:44 | a lookup in a one-entry cache answers only with that entry |
| MapData.CachedGridAnswersWholeMap | src/Map/BotMapDataMgr.cpp:41-62 | once one grid of a map is cached, a lookup of any other grid of that map answers with the cached one |
| MapData.LessStrictTotal | src/Map/BotMapDataMgr.h:25-35 | the lexicographic order on (map, x, y) is irreflexive and transitive, and distinct keys are always ordered one way or the other |
| MapData.Decimal | src/Map/BotMapDataMgr.cpp:50 | the decimal digits of a number, at least one, all digits |
| MapData.DecimalValue | src/Map/BotMapDataMgr.cpp:50 | reading the decimal digits back gives the number |
| MapData.Padded | src/Map/BotMapDataMgr.cpp:50 | a zero-padded field is made of digits only |
| MapData.PaddedValue | src/Map/BotMapDataMgr.cpp:50 | a number below 10^w pads to exactly w digits that read back as the number |
| MapData.GridFileName | src/Map/BotMapDataMgr.cpp:47-50 | the buffer sized by the format string keeps a prefix of the formatted name of at most 21 characters, and the whole name exactly when it fits |
| MapData.FileNameFields | src/Map/BotMapDataMgr.cpp:47-50 | for map ids below 1000 and coordinates below 100 the name is the whole 16-character format, and map id, x and y read back from fixed positions |
| MapData.FileNameInjective | src/Map/BotMapDataMgr.cpp:47-50 | in that range two grids share a file name exactly when they are the same grid |
| MapData.JoinPath | src/Map/BotMapDataMgr.cpp:51 | `fs::path(dataPath) / name`: an empty data path leaves the name relative; otherwise the data path and then the name, with one '/' between them, added only when the path does not already end in one |
| MapData.VMapEntry | src/Map/BotMapDataMgr.cpp:64-90 | an unprobed key caches true exactly when the vmap manager reports a successful load; a probed key keeps its answer (cached by grid, with keys told apart by the corrected order; see Findings) |
| MapData.MapDataMgr.constructor | src/Map/BotMapDataMgr.h:38-40 | a new manager has both caches empty and keeps the data path |
| MapData.MapDataMgr.LoadGridMap | src/Map/BotMapDataMgr.cpp:41-62 | a cached key answers from the cache and changes nothing; an uncached key is answered with a grid exactly when its file exists, and that answer, grid or null, is cached (cached by grid, with keys told apart by the corrected order; see Findings) |
| MapData.MapDataMgr.LoadVMap | src/Map/BotMapDataMgr.cpp:64-90 | the answer is the cached one for a probed key and otherwise whether the load succeeded, and it is cached under the key (cached by grid, with keys told apart by the corrected order; see Findings) |
| MapData.MapDataMgr.GetHeight | src/Map/BotMapDataMgr.cpp:92-96 | the height is the grid's height whenever the grid is cached with one or its file exists, and 0 when it is cached as missing or its file does not exist; a cached key leaves the cache as it was, and an uncached one is cached with the grid or null (cached by grid, with keys told apart by the corrected order; see Findings) |
| MapData.MapDataMgr.IsInLineOfSight | src/Map/BotMapDataMgr.cpp:105-110 | the sight answer is given only when the vmaps of both ends load; when the first end fails the second is not probed and the answer is false; when it loads, both ends are cached with their answers (cached by grid, with keys told apart by the corrected order; see Findings) |
| MapData.LoadGridTwice | src/Map/BotMapDataMgr.cpp:41-62 | a key is probed once: a second lookup gives the first answer whatever files exist by then (cached by grid, with keys told apart by the corrected order; see Findings) |
| MapData.ForwardLosesStartHeight | src/Lua/BotLuaShared.cpp:212-213 | the Lua binding passes the end height as the start height, so whenever the ends differ in height the query is about another segment |
| Stream.InStream.constructor | src/Bots/BotSocket.h:55-61 | a socket stream starts at the first byte of what the peer sends |
| Stream.InStream.ReadNum | src/Bots/BotSocket.h:63-70 | a socket read of an n-byte unsigned value yields the little-endian value of the next n bytes and advances by n, or at the end of the data fails and consumes everything |
| Cipher.Apply | src/Bots/Bot.cpp:104-116 | the keystream transform keeps the length and XORs each byte with the keystream byte at its position |
| Cipher.ApplyInvolutive | src/Bots/BotPacket.cpp:168-199 | the same stretch of keystream applied twice gives the input back, so the peer's decryption undoes encryption |
| Cipher.Arc4.constructor | src/Bots/Bot.cpp:109-115 | a keyed cipher starts at keystream position 0 |
| Bytes.LE | src/Bots/BotPacket.h:69-76 | a value written little-endian takes exactly the requested number of bytes |
| Bytes.FromLEofLE | src/Bots/BotPacket.h:50-76 | reading back the little-endian bytes of a value that fits gives the value |
| Bytes.LEofFromLE | src/Bots/BotPacket.h:50-76 | writing back a read value at its own width gives the same bytes |
| Bytes.LEInjective | src/Bots/BotPacket.h:69-76 | two values that fit in n bytes and write the same n bytes are equal |
| Bytes.Upper | src/Bots/Bot.cpp:39-40 | upper-casing keeps the length and maps every byte through toupper |
| Bytes.UpperIdempotent | src/Bots/Bot.cpp:39-40 | upper-casing an upper-cased name changes nothing |

## Left out

- Sockets, coroutines, threads and timers are not modelled: what a peer sends is an `InStream` over its bytes, what the bot sends is the sequence of packets it writes, and each bot thread's loop is one sequential step of `BotMgr`.
- SHA-1, HMAC-SHA1 and the ARC4 keystream are function parameters; nothing about their internals is stated, and the cipher is a keystream and a position.
- The parse of `cxxopts` is a parameter of the members that use it; `std::stoi`, `std::stod` and the option defaults are text as the source passes them on. `getRandomBytes` is modelled as written (`Srp.RandomBytes`: byte i is i modulo 256).
- Configuration reads (`sConfigMgr`), the data path and the file system are parameters: the map caches take the set of existing files, and the Lua loader takes the directories it searches.
- Floating point is not modelled: floats are opaque 32-bit words in the packet codecs and `real` values in the map queries, and no arithmetic is done on them. Signed integers, floats and doubles in packets are carried as their raw unsigned bits.
- `BotMapDataMgr::GetMapCoord` is not modelled: the map caches take the grid coordinate, not the float position it is computed from.
- `GridMap::loadData`, the height and liquid getters and the interpolation over the height tables are not modelled; a loaded grid's height at a point is a parameter of `MapData.MapDataMgr.GetHeight`.
- `BotMapDataMgr::GetVMapHeight` and the vmap manager itself are not modelled; a vmap load result and the sight answer are parameters.
- zlib decompression of compressed update packets (src/Packets/Update.cpp:466-522) is not modelled: `UpdateDataPacket.Read` takes the inflated bytes.
- The `UpdateData` getters other than the update-field accessors only return fields and are not modelled one by one.
- src/Bots/BotOpcodes.h is not part of this model: opcode numbers are constants taken from the 3.3.5a opcode table, and the proofs use only that they are distinct.
- WritePackedGUID: the source declares it (src/Bots/BotPacket.h:97) but never defines it; `Packet.Packet.WritePackedGUID` is modelled as the inverse of `ReadPackedGUID`.
- The `is_fn` hooks of the event tables and the Lua values' conversion are not modelled: callbacks are opaque ids; the truncation of a Lua number to `uint32` for a keyed registration (src/Events/BotEvent.h:173) is not modelled either.
- `BotProfileMgr::GetEvents` throws a pointer on a missing name; the profile graph returns a failure, and the bot scheduler models the throw out of `Bot::LoadScripts` as ending that thread's loop (`Bots.LoadScripts`).
- `BotEventsMgr`, the older twin of the profile graph (src/Events/BotEvents.cpp), is modelled through the behaviour it shares with `BotProfileMgr`.
- The behaviour tree (`BotProfile`'s behaviour root and its `Update`) is not modelled beyond its default null root.
- The packet builder's sizes are signed C++ types (packets/packet-builder.h:206-207, 494-503); the model's counts are naturals below their field's width.
- The emitted C++ text of the packet generator is not modelled; the generated `Read` and `Write` are given as functions over bytes.
- `MergeVec` of the number 0 indexes an empty vector (src/Bots/BotAuth.cpp:238-249): `Auth.MergeBig` requires a positive number, and the handshake pads S's minimal bytes to 32, as the source does for every positive S, and takes 32 zero bytes for S = 0. `Srp.ModExp` with a modulus of 0 is given the value 0.
- A server that sends fewer bytes than a packed layout needs makes the source's `memcpy` read past the data; the model fails with "packet too short" instead, and an empty realm list fails with "empty realm list" where the source indexes `realms[0]`.
- The first authentication step (resolving and connecting to the auth server) is a parameter: the model starts with an open stream.
- Closing the old world socket before reconnecting is not modelled.
- The handlers that `WorldPacketLoop` dispatches to are not modelled beyond the messages of the exceptions that escape them.
- `BOT_LOG_ERROR` passes `e.what()` as a format string; the model logs the message as text.
- Debug and informational log lines are not modelled; only error logging is, where it decides something.
- `BotLog` (the `vprintf` logger) and `LBotPrint` are not modelled: they print and decide nothing.
- The directory walk of `BotLuaShared::Start` is not modelled: `LuaShared.LuaState.Restart` keeps only the bundle and runs no file.
- The `CMSG_CHAR_ENUM` packet built after the world auth response is never sent in the source, and the cancel flag of that event has no effect there; the model sends nothing after the response.
- `Bots.BotMgr.DrainRemoves`: the source never clears the removal queue (src/Bots/BotMgr.cpp:77-95); the model keeps the queue as the source does, so a name stays queued.
- `LuaShared.LuaState.Require` uses `ExecuteFileCorrected`; `LuaShared.LuaState.ExecuteFile` keeps the source's stale stack entry on the error path.
- LuaShared.LuaState.Require: a module found nowhere fails with the message of libstdc++'s `std::filesystem::absolute` on an empty path, "cannot make absolute path", because that call throws before the source's own empty-path check (src/Lua/BotLuaShared.cpp:115-118), whose "Could not find module " message is never reached; another standard library's `absolute` is not modelled.
- `Logging.LBotLog`: running out of arguments for a directive is a failure in the model, where the source indexes past the Lua arguments it was given.
- `Maps.IncWrapsAround`, `Movement.TransportMisparse`, `Update.StoredAtZero` and `Update.SplineFromStaleFlags` exhibit behaviour of the source that is modelled as written; no corrected definition is given for them.
- Bots.Logins: the login loop connects each bot to the corrected target, the auth server it was started with; the source passes the literal "127.0.0.1" (src/Bots/BotMgr.cpp:73), which `Bots.ConnectTargetAsWritten` and `Bots.AuthServerIgnored` state.
- Bots.BotMgr.ReloadThread: the order in which `m_bots` lists its keys is a parameter; `m_events->Reset()` and the Lua restart (src/Bots/BotMgr.cpp:107-109) are represented only by the table of event sets the restarted scripts register, also a parameter; `Bot::UnloadScripts` is declared (src/Bots/Bot.h:99) but defined nowhere, and is modelled as dropping the behaviour.
- Bots.BotMgr.Tick: the behaviours' `Update` calls, the 5 ms timer and the coroutines spawned by `Connect` are not modelled; an exception out of `LoadScripts` ends the thread's loop (`running` is false) and what becomes of it after it leaves the detached coroutine (src/Bots/BotMgr.cpp:139) is not modelled.
- Commands.CommandMgr.Reload: the reload of the Lua commands (`m_lua.Reload()` when `Lua.Enabled`, src/Commands/BotCommandMgr.cpp:261-269) is not modelled; only the native `start` command is registered again.
- PacketSchema.ReadFields: reads C strings at the cursor, as corrected; the as-written read from index 0 is `PacketSchema.CStringAsWrittenStalls` (see Findings).
- PacketSchema.FieldsRoundTrip: is about the corrected read and write; the as-written vector, static-string, sized-string and padding codecs do not round-trip (see Findings).
- MapData.MapDataMgr.LoadGridMap, MapData.MapDataMgr.LoadVMap, MapData.MapDataMgr.GetHeight, MapData.MapDataMgr.IsInLineOfSight, MapData.VMapEntry and MapData.LoadGridTwice: the caches are maps keyed by the grid, that is, keyed under the corrected lexicographic order; a `std::map` under the as-written `MapCoord::operator<` has no defined behaviour, and what a lookup can answer under it is stated by `MapData.FindOneAsWritten` and `MapData.CachedGridAnswersWholeMap`.
- The received packet's opcode is stored as a 4-byte little-endian field (bytes 2-5), while the server header carries only 2 opcode bytes; the model keeps that width as the source does (`Framing.ReceivedPacket`).

## Findings

| source | as written | input that shows it | evidently intended | confidence | as-written member | corrected member |
|---|---|---|---|---|---|---|
| src/Bots/BotPacket.cpp:78-91 | `ReadCString` scans from the start of the buffer, not from the cursor, and does not consume the NUL | "A\0BC\0" with the cursor on "BC" yields "A" | the bytes from the cursor to the next NUL, with the cursor past the NUL | not executed | Packet.ReadCStringIgnoresCursor | Packet.Packet.ReadCStringAtCursor |
| packets/packet-builder.h:196-199 | the generated C-string read uses that same reader | a received world packet starts with two zero bytes, so the read yields "" and consumes nothing | the C string at the cursor | not executed | PacketSchema.CStringAsWrittenStalls | PacketSchema.DecodeString |
| packets/Login.h:19 | the character list's names are read with that reader | any received SMSG_CHAR_ENUM: the first name reads as "" | the name at byte 15, with its NUL | not executed | LoginPackets.CharEnumNameAsWritten | LoginPackets.EntryDecoding |
| packets/packet-builder.h:485-503 | a vector is written without its count, but read with one | the one-byte vector [0] is written as 0 and read back as an empty vector | the count first, then the items | not executed | PacketSchema.VectorCountLost | PacketSchema.RefRoundTrip |
| packets/packet-builder.h:175-178 | a static string is written unpadded but read at its full width | "A" in a 2-byte field followed by a 1-byte level | the string padded to its width | not executed | PacketSchema.StaticStringUnpadded | PacketSchema.StringRoundTrip |
| packets/packet-builder.h:179-183 | the sized-string write applies `.size()` to the result of `Write` | any sized string: the emitted write is ill-formed | the length, then the bytes | not executed | PacketSchema.SizedStringIllFormed | PacketSchema.StringRoundTrip |
| packets/packet-builder.h:524-537 | `Padding(size)` never stores its size | any padding: it writes and skips nothing | the padding keeps its size | not executed | PacketSchema.PaddingIgnored | PacketSchema.PacketBuilder.PaddingFixed |
| src/Bots/BotAuth.cpp:347 | the proof packet writes A with its minimal length | an A whose top byte is 0 | A as 32 little-endian bytes, a 75-byte packet | not executed | Auth.ProofPacketShort | Auth.ProofPacket |
| src/Bots/BotAuth.cpp:313-319 | the loop that draws a until A is non-zero never draws anew | a generator that is 0 modulo N | fail instead of looping | not executed | Srp.ZeroGeneratorStalls | Srp.ChooseA |
| src/Map/BotMapDataMgr.h:30-35 | `MapCoord::operator<` needs all three fields ordered at once | (0,0,1) ~ (0,5,0) ~ (1,1,0) yet (0,0,1) < (1,1,0) | the lexicographic order on (map, x, y) | not executed | MapData.AsWrittenNotStrictWeak | MapData.LessStrictTotal |
| src/Commands/BotCommandMgr.cpp:34-53 | a string parameter with a default is typed BOOLEAN and a flag with a default STRING | `AddStringParam("events", "tswow:root_events")` | each typed as its default | not executed | Commands.StringDefaultAsWritten | Commands.StringDefault |
| src/Commands/BotCommandMgr.cpp:153-170 | an option is given a default exactly when it has none | any required option is registered with the default "" | the option's own default, if any | not executed | Commands.RegisteredDefaultAsWritten | Commands.RegisteredDefault |
| src/Bots/BotMgr.cpp:149-189 | a bot is stored under its name as given but removed under the upper-cased name | start "alice", then stop it | the same key for both | not executed | Bots.StopKeepsLowerCaseBot | Bots.StopRemovesBot |
| src/Bots/BotMgr.cpp:73 | every bot is connected to "127.0.0.1" | a bot started with another auth server | the bot's own auth server | not executed | Bots.ConnectTargetAsWritten | Bots.ConnectTarget |
| src/Lua/BotLuaShared.cpp:91-100 | a failing script is left on the file stack | a script that fails, a restart, then `require` of it | the stack restored on every path | not executed | LuaShared.StaleStackAsWritten | LuaShared.RestartRetriesCorrected |
| src/Lua/BotLuaShared.cpp:212-213 | the Lua binding passes z2 as the start height | any segment whose ends differ in height | z1 as the start height | not executed | MapData.ForwardLosesStartHeight | MapData.Forward |

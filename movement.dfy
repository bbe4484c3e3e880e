/**
 * `MovementPacket`: the movement block the client reads from and writes to
 * world packets. Which optional parts are present depends on bits of the
 * movement flags and flags2. Floats are carried as opaque 32-bit words and
 * the transport seat (an int8) as its byte.
 */
module Movement {
  import opened Bytes
  import opened Packet

  /** Bit numbers of the flags the codec tests. */
  const ONTRANSPORT_BIT := 9            // MOVEMENTFLAG_ONTRANSPORT = 0x200
  const FALLING_BIT := 12               // MOVEMENTFLAG_FALLING = 0x1000
  const SPLINE_ELEVATION_BIT := 26      // MOVEMENTFLAG_SPLINE_ELEVATION = 0x04000000
  const INTERPOLATED_MOVEMENT_BIT := 10 // MOVEMENTFLAG2_INTERPOLATED_MOVEMENT = 0x400
  /** The constants the pitch condition ORs into the flags. */
  const SWIMMING: nat := 0x0020_0000
  const FLYING: nat := 0x0200_0000
  const ALWAYS_ALLOW_PITCHING: nat := 0x20

  /**
   * The fields of a `MovementPacket`, numbered in the order they go on the wire; a
   * `MovementInfo` holds one value per field.
   */
  newtype Field = i: int | 0 <= i < 24

  const Opcode: Field := 0
  const Guid: Field := 1
  const Flags: Field := 2
  const Flags2: Field := 3
  const Time: Field := 4
  const X: Field := 5
  const Y: Field := 6
  const Z: Field := 7
  const O: Field := 8
  const TransportGuid: Field := 9
  const TransportX: Field := 10
  const TransportY: Field := 11
  const TransportZ: Field := 12
  const TransportO: Field := 13
  const TransportSeat: Field := 14
  const TransportTime: Field := 15
  const TransportTime2: Field := 16
  const Pitch: Field := 17
  const FallTime: Field := 18
  const JumpZSpeed: Field := 19
  const JumpSinAngle: Field := 20
  const JumpCosAngle: Field := 21
  const JumpXYSpeed: Field := 22
  const SplineElevation: Field := 23

  /** The byte width of each field's C++ type. */
  function Width(f: Field): (n: nat)
    ensures 1 <= n <= 8
  {
    if f == Guid || f == TransportGuid then 8
    else if f == Flags2 then 2
    else if f == TransportSeat then 1
    else 4
  }

  /** The values of the 24 fields of a `MovementPacket`, indexed by `Field`. */
  type MovementInfo = s: seq<nat> | |s| == 24 witness seq(24, _ => 0)

  /** The getter of field f. */
  function Value(m: MovementInfo, f: Field): nat
  {
    m[f]
  }

  /** The setter of field f. */
  function With(m: MovementInfo, f: Field, v: nat): (r: MovementInfo)
    ensures Value(r, f) == v
  {
    m[f := v]
  }

  /** Every field fits its C++ type. */
  predicate Valid(m: MovementInfo)
  {
    forall f: Field :: Value(m, f) < Pow256(Width(f))
  }

  lemma ValidValue(m: MovementInfo, f: Field)
    requires Valid(m)
    ensures Value(m, f) < Pow256(Width(f))
  {
  }

  /**
   * Whether the 32-bit `a | b` is non-zero, which is how C++ reads it as a
   * condition: exactly when a or b has a set bit among the low 32.
   */
  predicate OrNonZero32(a: nat, b: nat)
  {
    a % U32 != 0 || b % U32 != 0
  }

  /** `OrNonZero32` agrees with the bitwise or. */
  lemma OrNonZero32Bits(a: nat, b: nat)
    ensures OrNonZero32(a, b) <==> OrBits(a, b, 32) != 0
  {
    OrBitsTruth(a, b, 32);
    Pow2Widths();
  }

  /**
   * The pitch condition as written: each disjunct ORs a value with a
   * non-zero constant, where an AND was evidently meant.
   */
  predicate PitchCondition(flags: nat, flags2: nat)
  {
    OrNonZero32(flags, SWIMMING) || OrNonZero32(flags, FLYING) || OrNonZero32(flags2, ALWAYS_ALLOW_PITCHING)
  }

  /** So pitch is read and written whatever the flags. */
  lemma PitchAlwaysPresent(flags: nat, flags2: nat)
    ensures PitchCondition(flags, flags2)
  {
  }

  /** The fields of the transport block that are always present, after its GUID if any. */
  const TransportFixed: seq<Field> := [TransportX, TransportY, TransportZ, TransportO, TransportTime, TransportSeat]

  /** The optional last field of the transport block. */
  function TransportTail(flags2: nat): seq<Field>
  {
    if BitOf(flags2, INTERPOLATED_MOVEMENT_BIT) then [TransportTime2] else []
  }

  /**
   * The fields of the transport block, in order; `Read` starts it with a
   * uint64 that it stores into the mover's GUID, `Write` has no such field.
   */
  function TransportBlock(flags2: nat, withGuid: bool): seq<Field>
  {
    (if withGuid then [Guid] else []) + TransportFixed + TransportTail(flags2)
  }

  /** The position fields every block starts with. */
  const Position: seq<Field> := [Time, X, Y, Z, O]

  /** The jump fields. */
  const Jump: seq<Field> := [JumpZSpeed, JumpSinAngle, JumpCosAngle, JumpXYSpeed]

  function PitchPart(flags: nat, flags2: nat): seq<Field>
  {
    if PitchCondition(flags, flags2) then [Pitch] else []
  }

  function JumpPart(flags: nat): seq<Field>
  {
    if BitOf(flags, FALLING_BIT) then Jump else []
  }

  function SplinePart(flags: nat): seq<Field>
  {
    if BitOf(flags, SPLINE_ELEVATION_BIT) then [SplineElevation] else []
  }

  /** The fields after the transport block: pitch, fall time, the jump and the spline elevation. */
  function Tail(flags: nat, flags2: nat): seq<Field>
  {
    PitchPart(flags, flags2) + [FallTime] + JumpPart(flags) + SplinePart(flags)
  }

  /** The transport block when the on-transport flag is set. */
  function TransportPart(flags: nat, flags2: nat, withGuid: bool): seq<Field>
  {
    if BitOf(flags, ONTRANSPORT_BIT) then TransportBlock(flags2, withGuid) else []
  }

  /** The fields after flags2, in order, as the flags select them. */
  function Steps(flags: nat, flags2: nat, withGuid: bool): seq<Field>
  {
    Position + TransportPart(flags, flags2, withGuid) + Tail(flags, flags2)
  }

  /** The fields `Read` fills after flags2. */
  function ReadSteps(flags: nat, flags2: nat): seq<Field>
  {
    Steps(flags, flags2, true)
  }

  /** The fields `Write` emits after flags2. */
  function WriteSteps(flags: nat, flags2: nat): seq<Field>
  {
    Steps(flags, flags2, false)
  }

  /** Bytes that a list of fields occupies. */
  function StepsLen(steps: seq<Field>): nat
  {
    if steps == [] then 0 else Width(steps[0]) + StepsLen(steps[1..])
  }

  /** Reading the listed fields in order from d, each little-endian at its width. */
  function Run(m: MovementInfo, d: seq<byte>, steps: seq<Field>): MovementInfo
    requires StepsLen(steps) <= |d|
    decreases |steps|
  {
    if steps == [] then m
    else
      var w := Width(steps[0]);
      Run(With(m, steps[0], FromLE(d[..w])), d[w..], steps[1..])
  }

  /** Writing the listed fields of m in order, each little-endian at its width. */
  function EncodeSteps(m: MovementInfo, steps: seq<Field>): (r: seq<byte>)
    ensures |r| == StepsLen(steps)
  {
    if steps == [] then [] else LE(Value(m, steps[0]), Width(steps[0])) + EncodeSteps(m, steps[1..])
  }

  /** Copying the listed fields of src into m. */
  function Assign(m: MovementInfo, src: MovementInfo, steps: seq<Field>): MovementInfo
    decreases |steps|
  {
    if steps == [] then m else Assign(With(m, steps[0], Value(src, steps[0])), src, steps[1..])
  }

  /** Length of the packed GUID at the start of d. */
  function GuidLen(d: seq<byte>): nat
    requires |d| >= 1
  {
    1 + PackedLen(d[0], 0)
  }

  /**
   * The bytes `Read` takes after flags2, counted field by field: the
   * position, the transport block, pitch, the fall time, the jump and the
   * spline elevation.
   */
  function ReadLen(flags: nat, flags2: nat): nat
  {
    StepsLen(Position)
    + (if BitOf(flags, ONTRANSPORT_BIT) then 8 + StepsLen(TransportFixed) + (if BitOf(flags2, INTERPOLATED_MOVEMENT_BIT) then 4 else 0) else 0)
    + (if PitchCondition(flags, flags2) then 4 else 0) + 4
    + (if BitOf(flags, FALLING_BIT) then StepsLen(Jump) else 0)
    + (if BitOf(flags, SPLINE_ELEVATION_BIT) then 4 else 0)
  }

  /** `ReadLen` is the length of the fields `ReadSteps` lists. */
  lemma ReadLenSteps(flags: nat, flags2: nat)
    ensures StepsLen(ReadSteps(flags, flags2)) == ReadLen(flags, flags2)
  {
    var t := TransportPart(flags, flags2, true);
    var tail := Tail(flags, flags2);
    StepsLenAppend(Position + t, tail);
    StepsLenAppend(Position, t);
    TransportLen(flags, flags2);
    TailLen(flags, flags2);
  }

  /** The bytes of the transport block `Read` takes. */
  lemma TransportLen(flags: nat, flags2: nat)
    ensures StepsLen(TransportPart(flags, flags2, true)) ==
      if BitOf(flags, ONTRANSPORT_BIT) then 8 + StepsLen(TransportFixed) + (if BitOf(flags2, INTERPOLATED_MOVEMENT_BIT) then 4 else 0) else 0
  {
    if BitOf(flags, ONTRANSPORT_BIT) {
      StepsLenAppend([Guid] + TransportFixed, TransportTail(flags2));
      StepsLenAppend([Guid], TransportFixed);
      assert StepsLen([Guid]) == 8 by { assert [Guid][1..] == []; }
      if BitOf(flags2, INTERPOLATED_MOVEMENT_BIT) {
        assert [TransportTime2][1..] == [];
      }
    }
  }

  /** The bytes of pitch, fall time, jump and spline elevation. */
  lemma TailLen(flags: nat, flags2: nat)
    ensures StepsLen(Tail(flags, flags2)) ==
      (if PitchCondition(flags, flags2) then 4 else 0) + 4
      + (if BitOf(flags, FALLING_BIT) then StepsLen(Jump) else 0)
      + (if BitOf(flags, SPLINE_ELEVATION_BIT) then 4 else 0)
  {
    var pp, jp, sp := PitchPart(flags, flags2), JumpPart(flags), SplinePart(flags);
    StepsLenAppend(pp + [FallTime] + jp, sp);
    StepsLenAppend(pp + [FallTime], jp);
    StepsLenAppend(pp, [FallTime]);
    assert [FallTime][1..] == [] && [Pitch][1..] == [] && [SplineElevation][1..] == [];
  }

  /** Whether d holds a whole movement block as `Read` consumes it. */
  predicate Fits(d: seq<byte>)
  {
    |d| >= 1 && |d| >= GuidLen(d) + 6 &&
    |d| >= GuidLen(d) + 6 + ReadLen(FromLE(d[GuidLen(d)..GuidLen(d) + 4]), FromLE(d[GuidLen(d) + 4..GuidLen(d) + 6]))
  }

  /** The fields `Read` sets before the flag-dependent part. */
  function Header(d: seq<byte>, opcode: nat, init: MovementInfo): MovementInfo
    requires |d| >= 1 && |d| >= GuidLen(d) + 6
  {
    var g := GuidLen(d);
    var guid := PackedValue(d[0], d[1..], 0);
    With(With(With(With(init, Guid, guid), Opcode, opcode), Flags, FromLE(d[g..g + 4])), Flags2, FromLE(d[g + 4..g + 6]))
  }

  /**
   * `MovementPacket::Read` as written: the fields it assigns, over `init`,
   * the unspecified contents of a default-constructed `MovementPacket`.
   */
  function Decode(d: seq<byte>, opcode: nat, init: MovementInfo): MovementInfo
    requires Fits(d)
  {
    var h := Header(d, opcode, init);
    ReadLenSteps(Value(h, Flags), Value(h, Flags2));
    Run(h, d[GuidLen(d) + 6..], ReadSteps(Value(h, Flags), Value(h, Flags2)))
  }

  /** How many bytes `Read` consumes. */
  function Consumed(d: seq<byte>): nat
    requires Fits(d)
  {
    var g := GuidLen(d);
    g + 6 + ReadLen(FromLE(d[g..g + 4]), FromLE(d[g + 4..g + 6]))
  }

  /** `MovementPacket::Write` as written, after the 6-byte header of `WorldPacket(opcode)`. */
  function Encode(m: MovementInfo): seq<byte>
    requires Valid(m)
  {
    PackGuid(Value(m, Guid)) + LE(Value(m, Flags), 4) + LE(Value(m, Flags2), 2) + EncodeSteps(m, WriteSteps(Value(m, Flags), Value(m, Flags2)))
  }

  // ---------------------------------------------------------------------------
  // Run, EncodeSteps and Assign

  lemma {:induction false} RunEncode(m: MovementInfo, src: MovementInfo, steps: seq<Field>, rest: seq<byte>)
    requires Valid(src)
    ensures StepsLen(steps) <= |EncodeSteps(src, steps) + rest|
    ensures Run(m, EncodeSteps(src, steps) + rest, steps) == Assign(m, src, steps)
    decreases |steps|
  {
    if steps != [] {
      var f := steps[0];
      var w := Width(f);
      var l := LE(Value(src, f), w);
      var tail := EncodeSteps(src, steps[1..]);
      ValidValue(src, f);
      assert EncodeSteps(src, steps) == l + tail;
      HeadAndRest(l, tail, rest);
      FromLEofLE(Value(src, f), w);
      RunEncode(With(m, f, Value(src, f)), src, steps[1..], rest);
    }
  }

  /** Slicing a field's bytes back off the front of what follows it. */
  lemma HeadAndRest(l: seq<byte>, tail: seq<byte>, rest: seq<byte>)
    ensures (l + tail + rest)[..|l|] == l && (l + tail + rest)[|l|..] == tail + rest
  {
  }

  lemma {:induction false} AssignValue(m: MovementInfo, src: MovementInfo, steps: seq<Field>, f: Field)
    ensures Value(Assign(m, src, steps), f) == if f in steps then Value(src, f) else Value(m, f)
    decreases |steps|
  {
    if steps != [] {
      AssignValue(With(m, steps[0], Value(src, steps[0])), src, steps[1..], f);
      assert f in steps <==> f == steps[0] || f in steps[1..];
    }
  }

  lemma {:induction false} RunNotIn(m: MovementInfo, d: seq<byte>, steps: seq<Field>, f: Field)
    requires StepsLen(steps) <= |d| && f !in steps
    ensures Value(Run(m, d, steps), f) == Value(m, f)
    decreases |steps|
  {
    if steps != [] {
      var w := Width(steps[0]);
      RunNotIn(With(m, steps[0], FromLE(d[..w])), d[w..], steps[1..], f);
    }
  }

  lemma {:induction false} StepsLenAppend(a: seq<Field>, b: seq<Field>)
    ensures StepsLen(a + b) == StepsLen(a) + StepsLen(b)
    decreases |a|
  {
    if a == [] {
      assert a + b == b;
    } else {
      assert (a + b)[0] == a[0] && (a + b)[1..] == a[1..] + b;
      StepsLenAppend(a[1..], b);
    }
  }

  lemma {:induction false} RunAppend(m: MovementInfo, d: seq<byte>, a: seq<Field>, b: seq<Field>)
    requires StepsLen(a) + StepsLen(b) <= |d|
    ensures StepsLen(a + b) <= |d|
    ensures Run(m, d, a + b) == Run(Run(m, d, a), d[StepsLen(a)..], b)
    decreases |a|
  {
    StepsLenAppend(a, b);
    if a == [] {
      assert a + b == b;
      assert d[0..] == d;
    } else {
      var w := Width(a[0]);
      assert (a + b)[0] == a[0] && (a + b)[1..] == a[1..] + b;
      RunAppend(With(m, a[0], FromLE(d[..w])), d[w..], a[1..], b);
      assert d[w..][StepsLen(a[1..])..] == d[StepsLen(a)..];
    }
  }

  lemma {:induction false} EncodeStepsAppend(m: MovementInfo, a: seq<Field>, b: seq<Field>)
    ensures EncodeSteps(m, a + b) == EncodeSteps(m, a) + EncodeSteps(m, b)
    decreases |a|
  {
    if a == [] {
      assert a + b == b;
    } else {
      assert (a + b)[0] == a[0] && (a + b)[1..] == a[1..] + b;
      EncodeStepsAppend(m, a[1..], b);
    }
  }

  // ---------------------------------------------------------------------------
  // Round trip

  /** The fields a `Write` followed by a `Read` carries. */
  function Written(m: MovementInfo): seq<Field>
  {
    [Guid, Opcode, Flags, Flags2] + WriteSteps(Value(m, Flags), Value(m, Flags2))
  }

  /** Where `Read` finds the GUID and the flags in what `Write` emitted. */
  lemma EncodeHeader(m: MovementInfo, rest: seq<byte>)
    requires Valid(m)
    ensures var d, g := Encode(m) + rest, |PackGuid(Value(m, Guid))|;
      |d| >= 1 && |d| >= g + 6 && GuidLen(d) == g &&
      PackedValue(d[0], d[1..], 0) == Value(m, Guid) &&
      FromLE(d[g..g + 4]) == Value(m, Flags) && FromLE(d[g + 4..g + 6]) == Value(m, Flags2) &&
      d[g + 6..] == EncodeSteps(m, WriteSteps(Value(m, Flags), Value(m, Flags2))) + rest
  {
    var pg := PackGuid(Value(m, Guid));
    var e := EncodeSteps(m, WriteSteps(Value(m, Flags), Value(m, Flags2)));
    var tail := LE(Value(m, Flags), 4) + LE(Value(m, Flags2), 2) + (e + rest);
    assert Encode(m) + rest == pg + tail;
    GuidPart(Value(m, Guid), tail);
    Pow256Widths();
    FlagsPart(Value(m, Flags), Value(m, Flags2), e + rest);
    var d, g := pg + tail, |pg|;
    assert d[g..g + 4] == tail[..4] && d[g + 4..g + 6] == tail[4..6] && d[g + 6..] == tail[6..];
  }

  /** A packed GUID followed by anything: `ReadPackedGUID` takes exactly the packed bytes back. */
  lemma GuidPart(guid: nat, tail: seq<byte>)
    requires guid < U64
    ensures var d, g := PackGuid(guid) + tail, |PackGuid(guid)|;
      |d| >= 1 && GuidLen(d) == g && g + |tail| == |d| &&
      PackedValue(d[0], d[1..], 0) == guid && d[g..] == tail
  {
    var pg := PackGuid(guid);
    var d := pg + tail;
    PackedGuidRoundTrip(guid);
    assert d[0] == pg[0];
    assert d[1..][..|pg| - 1] == pg[1..];
    PackedPrefix(pg[0], pg[1..], d[1..]);
    assert d[|pg|..] == tail;
  }

  /** The two flag words `Write` emits read back as the flags. */
  lemma FlagsPart(flags: nat, flags2: nat, rest: seq<byte>)
    requires flags < Pow256(4) && flags2 < Pow256(2)
    ensures var t := LE(flags, 4) + LE(flags2, 2) + rest;
      |t| >= 6 && FromLE(t[..4]) == flags && FromLE(t[4..6]) == flags2 && t[6..] == rest
  {
    var t := LE(flags, 4) + LE(flags2, 2) + rest;
    assert t[..4] == LE(flags, 4);
    assert t[4..6] == LE(flags2, 2);
    assert t[6..] == rest;
    FromLEofLE(flags, 4);
    FromLEofLE(flags2, 2);
  }

  /** Unpacking only looks at the bytes the mask announces. */
  lemma PackedPrefix(mask: byte, bs: seq<byte>, ext: seq<byte>)
    requires PackedLen(mask, 0) <= |bs| <= |ext| && ext[..|bs|] == bs
    ensures PackedValue(mask, ext, 0) == PackedValue(mask, bs, 0)
  {
    PackedPrefixFrom(mask, bs, ext, 0);
  }

  lemma {:induction false} PackedPrefixFrom(mask: byte, bs: seq<byte>, ext: seq<byte>, i: nat)
    requires i <= 8 && PackedLen(mask, i) <= |bs| <= |ext| && ext[..|bs|] == bs
    ensures PackedValue(mask, ext, i) == PackedValue(mask, bs, i)
    decreases 8 - i
  {
    if i < 8 {
      if BitOf(mask as nat, i) {
        assert ext[0] == bs[0];
        assert ext[1..][..|bs| - 1] == bs[1..];
        PackedPrefixFrom(mask, bs[1..], ext[1..], i + 1);
      } else {
        PackedPrefixFrom(mask, bs, ext, i + 1);
      }
    }
  }

  /** The fields `Read` sets before the flag-dependent part, on what `Write` emitted. */
  lemma HeaderOfEncode(m: MovementInfo, init: MovementInfo, rest: seq<byte>)
    requires Valid(m)
    ensures var d := Encode(m) + rest;
      |d| >= 1 && |d| >= GuidLen(d) + 6 && GuidLen(d) + 6 + |EncodeSteps(m, WriteSteps(Value(m, Flags), Value(m, Flags2)))| == |Encode(m)| &&
      Header(d, Value(m, Opcode), init) == Assign(init, m, [Guid, Opcode, Flags, Flags2]) &&
      FromLE(d[GuidLen(d)..GuidLen(d) + 4]) == Value(m, Flags) && FromLE(d[GuidLen(d) + 4..GuidLen(d) + 6]) == Value(m, Flags2) &&
      d[GuidLen(d) + 6..] == EncodeSteps(m, WriteSteps(Value(m, Flags), Value(m, Flags2))) + rest
  {
    EncodeHeader(m, rest);
    var d, g := Encode(m) + rest, |PackGuid(Value(m, Guid))|;
    AssignHeader(init, m);
    assert Header(d, Value(m, Opcode), init) == With(With(With(With(init, Guid, Value(m, Guid)), Opcode, Value(m, Opcode)), Flags, Value(m, Flags)), Flags2, Value(m, Flags2));
  }

  lemma AssignHeader(init: MovementInfo, m: MovementInfo)
    ensures Assign(init, m, [Guid, Opcode, Flags, Flags2])
            == With(With(With(With(init, Guid, Value(m, Guid)), Opcode, Value(m, Opcode)), Flags, Value(m, Flags)), Flags2, Value(m, Flags2))
  {
    var l: seq<Field> := [Guid, Opcode, Flags, Flags2];
    var a1 := With(init, Guid, Value(m, Guid));
    var a2 := With(a1, Opcode, Value(m, Opcode));
    var a3 := With(a2, Flags, Value(m, Flags));
    var a4 := With(a3, Flags2, Value(m, Flags2));
    assert l[1..] == [Opcode, Flags, Flags2] && l[1..][1..] == [Flags, Flags2] && l[1..][1..][1..] == [Flags2];
    assert [Flags2][1..] == [];
    assert Assign(a4, m, []) == a4;
    assert Assign(a3, m, [Flags2]) == a4;
    assert Assign(a2, m, [Flags, Flags2]) == a4;
    assert Assign(a1, m, [Opcode, Flags, Flags2]) == a4;
  }

  /** The position fields occupy 20 bytes. */
  lemma PositionLen()
    ensures StepsLen(Position) == 20
  {
    assert [O][1..] == [];
    assert StepsLen([O]) == 4;
    assert [Z, O][1..] == [O];
    assert StepsLen([Z, O]) == 8;
    assert [Y, Z, O][1..] == [Z, O];
    assert StepsLen([Y, Z, O]) == 12;
    assert [X, Y, Z, O][1..] == [Y, Z, O];
    assert StepsLen([X, Y, Z, O]) == 16;
    assert Position[1..] == [X, Y, Z, O];
  }

  /** Decoding what `Write` emitted, without a transport, copies the written fields over init. */
  lemma DecodeEncode(m: MovementInfo, init: MovementInfo, rest: seq<byte>)
    requires Valid(m) && !BitOf(Value(m, Flags), ONTRANSPORT_BIT)
    ensures Fits(Encode(m) + rest) && Consumed(Encode(m) + rest) == |Encode(m)|
    ensures Decode(Encode(m) + rest, Value(m, Opcode), init)
            == Assign(Assign(init, m, [Guid, Opcode, Flags, Flags2]), m, WriteSteps(Value(m, Flags), Value(m, Flags2)))
  {
    var d := Encode(m) + rest;
    HeaderOfEncode(m, init, rest);
    var h := Header(d, Value(m, Opcode), init);
    var steps := WriteSteps(Value(m, Flags), Value(m, Flags2));
    assert Value(h, Flags) == Value(m, Flags) && Value(h, Flags2) == Value(m, Flags2);
    assert ReadSteps(Value(m, Flags), Value(m, Flags2)) == steps;
    ReadLenSteps(Value(m, Flags), Value(m, Flags2));
    RunEncode(h, m, steps, rest);
  }

  /**
   * Round trip without a transport: reading back what `Write` emitted
   * recovers every field `Write` wrote, leaves every other field as it was,
   * and consumes exactly the written bytes.
   */
  lemma MovementRoundTrip(m: MovementInfo, init: MovementInfo, rest: seq<byte>)
    requires Valid(m) && !BitOf(Value(m, Flags), ONTRANSPORT_BIT)
    ensures Fits(Encode(m) + rest) && Consumed(Encode(m) + rest) == |Encode(m)|
    ensures forall f :: Value(Decode(Encode(m) + rest, Value(m, Opcode), init), f)
                        == if f in Written(m) then Value(m, f) else Value(init, f)
  {
    DecodeEncode(m, init, rest);
    var h := Assign(init, m, [Guid, Opcode, Flags, Flags2]);
    var steps := WriteSteps(Value(m, Flags), Value(m, Flags2));
    forall f
      ensures Value(Assign(h, m, steps), f) == if f in Written(m) then Value(m, f) else Value(init, f)
    {
      AssignValue(h, m, steps, f);
      AssignValue(init, m, [Guid, Opcode, Flags, Flags2], f);
    }
  }

  /** `Read` never assigns the transport GUID, so `GetTransportGUID` returns whatever was there before. */
  lemma ReadKeepsTransportGuid(d: seq<byte>, opcode: nat, init: MovementInfo)
    requires Fits(d)
    ensures Value(Decode(d, opcode, init), TransportGuid) == Value(init, TransportGuid)
  {
    var h := Header(d, opcode, init);
    ReadLenSteps(Value(h, Flags), Value(h, Flags2));
    RunKeepsTransportGuid(h, d[GuidLen(d) + 6..]);
  }

  lemma RunKeepsTransportGuid(h: MovementInfo, body: seq<byte>)
    requires StepsLen(ReadSteps(Value(h, Flags), Value(h, Flags2))) <= |body|
    ensures Value(Run(h, body, ReadSteps(Value(h, Flags), Value(h, Flags2))), TransportGuid) == Value(h, TransportGuid)
  {
    NoTransportGuidStep(Value(h, Flags), Value(h, Flags2), true);
    RunNotIn(h, body, ReadSteps(Value(h, Flags), Value(h, Flags2)), TransportGuid);
  }

  lemma NoTransportGuidStep(flags: nat, flags2: nat, withGuid: bool)
    ensures TransportGuid !in Steps(flags, flags2, withGuid)
  {
    var t := TransportBlock(flags2, withGuid);
    assert TransportGuid !in t;
  }

  /**
   * With a transport, `Read` takes the uint64 that should be the transport
   * GUID from where `Write` put transportX and transportY, and stores it
   * over the mover's GUID.
   */
  lemma TransportMisparse(m: MovementInfo, init: MovementInfo, rest: seq<byte>)
    requires Valid(m) && BitOf(Value(m, Flags), ONTRANSPORT_BIT)
    requires Fits(Encode(m) + rest)
    ensures Value(Decode(Encode(m) + rest, Value(m, Opcode), init), Guid) == Value(m, TransportX) + 0x1_0000_0000 * Value(m, TransportY)
  {
    var d := Encode(m) + rest;
    var body := d[GuidLen(d) + 6..];
    GuidFromTransportBytes(m, init, rest);
    ValidValue(m, TransportX);
    ValidValue(m, TransportY);
    Pow256Widths();
    TwoWords(Value(m, TransportX), Value(m, TransportY));
  }

  /** On a transport, the GUID `Read` stores is decoded from the bytes `Write` filled with transportX and transportY. */
  lemma GuidFromTransportBytes(m: MovementInfo, init: MovementInfo, rest: seq<byte>)
    requires Valid(m) && BitOf(Value(m, Flags), ONTRANSPORT_BIT)
    requires Fits(Encode(m) + rest)
    ensures var d := Encode(m) + rest; var body := d[GuidLen(d) + 6..];
      |body| >= 28 && Value(Decode(d, Value(m, Opcode), init), Guid) == FromLE(body[20..28])
      && body[20..28] == LE(Value(m, TransportX), 4) + LE(Value(m, TransportY), 4)
  {
    var d := Encode(m) + rest;
    HeaderOfEncode(m, init, rest);
    var h := Header(d, Value(m, Opcode), init);
    assert Value(h, Flags) == Value(m, Flags) && Value(h, Flags2) == Value(m, Flags2);
    var body := d[GuidLen(d) + 6..];
    TransportSteps(Value(m, Flags), Value(m, Flags2));
    ReadLenSteps(Value(m, Flags), Value(m, Flags2));
    RunGuidAt(h, body, ReadSteps(Value(m, Flags), Value(m, Flags2)));
    EncodeTransportXY(m, WriteSteps(Value(m, Flags), Value(m, Flags2)), rest);
  }

  /** Two 32-bit words written one after the other read back as one 64-bit word, the first one low. */
  lemma TwoWords(x: nat, y: nat)
    requires x < U32 && y < U32
    ensures FromLE(LE(x, 4) + LE(y, 4)) == x + 0x1_0000_0000 * y
  {
    FromLESplit(LE(x, 4), LE(y, 4));
    Pow256Widths();
    FromLEofLE(x, 4);
    FromLEofLE(y, 4);
  }

  /** With a transport, `Read` takes a uint64 sixth and `Write` writes transportX and transportY sixth and seventh. */
  lemma TransportSteps(flags: nat, flags2: nat)
    requires BitOf(flags, ONTRANSPORT_BIT)
    ensures var rs := ReadSteps(flags, flags2);
      |rs| >= 6 && rs[..5] == Position && rs[5] == Guid && Guid !in rs[6..]
    ensures var ws := WriteSteps(flags, flags2);
      |ws| >= 7 && ws[..7] == Position + [TransportX, TransportY]
  {
    var w, tl := TransportBlock(flags2, false), TransportBlock(flags2, true);
    assert tl == [Guid] + w && Guid !in w;
    NoGuidInTail(flags, flags2);
    GuidThenRest(Position, w, Tail(flags, flags2));
    assert w[..2] == [TransportX, TransportY];
    PrefixOfConcat(Position, w, Tail(flags, flags2));
  }

  lemma NoGuidInTail(flags: nat, flags2: nat)
    ensures Guid !in Tail(flags, flags2)
  {
  }

  lemma GuidThenRest(p: seq<Field>, w: seq<Field>, t: seq<Field>)
    requires |p| == 5 && Guid !in w && Guid !in t
    ensures var rs := p + ([Guid] + w) + t;
      rs[..5] == p && rs[5] == Guid && Guid !in rs[6..]
  {
    var rs := p + ([Guid] + w) + t;
    assert rs[6..] == w + t;
  }

  lemma PrefixOfConcat(p: seq<Field>, w: seq<Field>, t: seq<Field>)
    requires |p| == 5 && |w| >= 2
    ensures var ws := p + w + t; |ws| >= 7 && ws[..7] == p + w[..2]
  {
  }

  /** When the sixth step is the mover's GUID and no later step is, the GUID comes from bytes 20..27. */
  lemma RunGuidAt(h: MovementInfo, body: seq<byte>, rs: seq<Field>)
    requires |rs| >= 6 && rs[..5] == Position && rs[5] == Guid && Guid !in rs[6..]
    requires StepsLen(rs) <= |body|
    ensures |body| >= 28 && Value(Run(h, body, rs), Guid) == FromLE(body[20..28])
  {
    var head, tail := rs[..5], rs[5..];
    assert rs == head + tail;
    PositionLen();
    assert StepsLen(tail) == 8 + StepsLen(tail[1..]);
    StepsLenAppend(head, tail);
    RunAppend(h, body, head, tail);
    var h1 := Run(h, body, head);
    var b1 := body[20..];
    assert tail[0] == Guid && tail[1..] == rs[6..];
    var h2 := With(h1, Guid, FromLE(b1[..8]));
    assert Run(h1, b1, tail) == Run(h2, b1[8..], tail[1..]);
    RunNotIn(h2, b1[8..], tail[1..], Guid);
    assert b1[..8] == body[20..28];
  }

  /** What `Write` emits for transportX and transportY sits at bytes 20..27 of the steps. */
  lemma EncodeTransportXY(m: MovementInfo, ws: seq<Field>, rest: seq<byte>)
    requires |ws| >= 7 && ws[..7] == Position + [TransportX, TransportY]
    ensures var e := EncodeSteps(m, ws) + rest;
      |e| >= 28 && e[20..28] == LE(Value(m, TransportX), 4) + LE(Value(m, TransportY), 4)
  {
    var head := Position;
    assert ws == head + [TransportX, TransportY] + ws[7..];
    EncodeStepsAppend(m, head + [TransportX, TransportY], ws[7..]);
    EncodeStepsAppend(m, head, [TransportX, TransportY]);
    PositionLen();
    assert [TransportX, TransportY][1..] == [TransportY];
    assert EncodeSteps(m, [TransportX, TransportY]) == LE(Value(m, TransportX), 4) + LE(Value(m, TransportY), 4);
  }

  // ---------------------------------------------------------------------------
  // The mutable packet object

  class MovementPacket {
    var info: MovementInfo

    /** A `MovementPacket` whose fields hold init, standing for a default-constructed object's unspecified contents. */
    constructor (init: MovementInfo)
      ensures info == init
    {
      info := init;
    }

    /** The `Get*` accessors. */
    function Get(f: Field): nat
      reads this
    {
      Value(info, f)
    }

    /** The `Set*` accessors: only f changes, and the same object is returned for chaining. */
    method Set(f: Field, v: nat) returns (self: MovementPacket)
      modifies this
      ensures self == this && info == With(old(info), f, v)
      ensures Get(f) == v && forall g :: g != f ==> Get(g) == old(Get(g))
    {
      info := With(info, f, v);
      self := this;
    }

    /** `Write`: a new world packet with this packet's opcode and the encoded block. */
    method Write() returns (p: Packet)
      requires Valid(info)
      ensures fresh(p) && p.kind == World && p.ctr == 6
      ensures p.data == [0, 0] + LE(Value(info, Opcode), 4) + Encode(info)
    {
      Pow256Widths();
      var m := info;
      p := new Packet.WithOpcode(Value(m, Opcode));
      ghost var d0 := p.data;
      p.WritePackedGUID(Value(m, Guid));
      p.Write(4, Value(m, Flags));
      p.Write(2, Value(m, Flags2));
      WriteBody(p, m);
      Concat4(d0, PackGuid(Value(m, Guid)), LE(Value(m, Flags), 4), LE(Value(m, Flags2), 2), EncodeSteps(m, WriteSteps(Value(m, Flags), Value(m, Flags2))));
    }
  }

  /** Everything `Write` emits after flags2. */
  method WriteBody(p: Packet, m: MovementInfo)
    requires Valid(m)
    modifies p
    ensures p.data == old(p.data) + EncodeSteps(m, WriteSteps(Value(m, Flags), Value(m, Flags2))) && p.ctr == old(p.ctr)
  {
    WritePosition(p, m);
    WriteTransportPart(p, m);
    WriteTail(p, m);
    EncodeBody(m, Value(m, Flags), Value(m, Flags2));
    Concat3(old(p.data), EncodeSteps(m, Position), EncodeSteps(m, TransportPart(Value(m, Flags), Value(m, Flags2), false)), EncodeSteps(m, Tail(Value(m, Flags), Value(m, Flags2))));
  }

  /** The encoding of the steps, block by block. */
  lemma EncodeBody(m: MovementInfo, flags: nat, flags2: nat)
    ensures EncodeSteps(m, WriteSteps(flags, flags2))
      == EncodeSteps(m, Position) + (EncodeSteps(m, TransportPart(flags, flags2, false)) + EncodeSteps(m, Tail(flags, flags2)))
  {
    var t, tl := TransportPart(flags, flags2, false), Tail(flags, flags2);
    EncodeStepsAppend(m, Position + t, tl);
    EncodeStepsAppend(m, Position, t);
  }

  /** The transport block of `Write`, when the on-transport flag is set. */
  method WriteTransportPart(p: Packet, m: MovementInfo)
    requires Valid(m)
    modifies p
    ensures p.data == old(p.data) + EncodeSteps(m, TransportPart(Value(m, Flags), Value(m, Flags2), false)) && p.ctr == old(p.ctr)
  {
    if BitOf(Value(m, Flags), ONTRANSPORT_BIT) {
      WriteTransport(p, m);
    }
  }

  /** The position fields of `Write`. */
  method WritePosition(p: Packet, m: MovementInfo)
    requires Valid(m)
    modifies p
    ensures p.data == old(p.data) + EncodeSteps(m, Position) && p.ctr == old(p.ctr)
  {
    ghost var pending := Position;
    pending := WriteField(p, m, Time, pending);
    pending := WriteField(p, m, X, pending);
    pending := WriteField(p, m, Y, pending);
    pending := WriteField(p, m, Z, pending);
    pending := WriteField(p, m, O, pending);
    assert pending == [];
  }

  method WriteTransportFixed(p: Packet, m: MovementInfo)
    requires Valid(m)
    modifies p
    ensures p.data == old(p.data) + EncodeSteps(m, TransportFixed) && p.ctr == old(p.ctr)
  {
    ghost var pending := TransportFixed;
    pending := WriteField(p, m, TransportX, pending);
    pending := WriteField(p, m, TransportY, pending);
    pending := WriteField(p, m, TransportZ, pending);
    pending := WriteField(p, m, TransportO, pending);
    pending := WriteField(p, m, TransportTime, pending);
    pending := WriteField(p, m, TransportSeat, pending);
    assert pending == [];
  }

  /** The transport block of `Write`, which has no transport GUID. */
  method WriteTransport(p: Packet, m: MovementInfo)
    requires Valid(m)
    modifies p
    ensures p.data == old(p.data) + EncodeSteps(m, TransportBlock(Value(m, Flags2), false)) && p.ctr == old(p.ctr)
  {
    WriteTransportFixed(p, m);
    ghost var mid := p.data;
    if BitOf(Value(m, Flags2), INTERPOLATED_MOVEMENT_BIT) {
      WriteOne(p, m, TransportTime2);
    }
    assert p.data == mid + EncodeSteps(m, TransportTail(Value(m, Flags2)));
    assert TransportBlock(Value(m, Flags2), false) == TransportFixed + TransportTail(Value(m, Flags2));
    EncodeStepsAppend(m, TransportFixed, TransportTail(Value(m, Flags2)));
  }

  /** Pitch, fall time, jump and spline elevation, as `Write` emits them. */
  method WriteTail(p: Packet, m: MovementInfo)
    requires Valid(m)
    modifies p
    ensures p.data == old(p.data) + EncodeSteps(m, Tail(Value(m, Flags), Value(m, Flags2))) && p.ctr == old(p.ctr)
  {
    ghost var d0 := p.data;
    WritePitch(p, m);
    WriteOne(p, m, FallTime);
    WriteJumpPart(p, m);
    WriteSpline(p, m);
    EncodeTail(m, Value(m, Flags), Value(m, Flags2));
    Concat4(d0, EncodeSteps(m, PitchPart(Value(m, Flags), Value(m, Flags2))), EncodeSteps(m, [FallTime]),
      EncodeSteps(m, JumpPart(Value(m, Flags))), EncodeSteps(m, SplinePart(Value(m, Flags))));
  }

  /** The jump fields of `Write`, when the falling flag is set. */
  method WriteJumpPart(p: Packet, m: MovementInfo)
    requires Valid(m)
    modifies p
    ensures p.data == old(p.data) + EncodeSteps(m, JumpPart(Value(m, Flags))) && p.ctr == old(p.ctr)
  {
    if BitOf(Value(m, Flags), FALLING_BIT) {
      WriteJump(p, m);
    }
  }

  /** The spline elevation field of `Write`, when its flag is set. */
  method WriteSpline(p: Packet, m: MovementInfo)
    requires Valid(m)
    modifies p
    ensures p.data == old(p.data) + EncodeSteps(m, SplinePart(Value(m, Flags))) && p.ctr == old(p.ctr)
  {
    if BitOf(Value(m, Flags), SPLINE_ELEVATION_BIT) {
      WriteOne(p, m, SplineElevation);
    }
  }

  /** A single `Write*` call of `Write`. */
  method WriteOne(p: Packet, m: MovementInfo, f: Field)
    requires Valid(m)
    modifies p
    ensures p.data == old(p.data) + EncodeSteps(m, [f]) && p.ctr == old(p.ctr)
  {
    ValidValue(m, f);
    p.Write(Width(f), Value(m, f));
    assert [f][1..] == [];
  }

  /** The pitch field of `Write`, under the pitch condition as written. */
  method WritePitch(p: Packet, m: MovementInfo)
    requires Valid(m)
    modifies p
    ensures p.data == old(p.data) + EncodeSteps(m, PitchPart(Value(m, Flags), Value(m, Flags2))) && p.ctr == old(p.ctr)
  {
    if OrNonZero32(Value(m, Flags), SWIMMING) || OrNonZero32(Value(m, Flags), FLYING)
      || OrNonZero32(Value(m, Flags2), ALWAYS_ALLOW_PITCHING) {
      WriteOne(p, m, Pitch);
    }
  }

  lemma Concat3<T>(d: seq<T>, a: seq<T>, b: seq<T>, c: seq<T>)
    ensures d + a + b + c == d + (a + (b + c))
  {
  }

  lemma Concat4<T>(d: seq<T>, a: seq<T>, b: seq<T>, c: seq<T>, e: seq<T>)
    ensures d + a + b + c + e == d + (a + b + c + e)
  {
  }

  /** The jump fields of `Write`. */
  method WriteJump(p: Packet, m: MovementInfo)
    requires Valid(m)
    modifies p
    ensures p.data == old(p.data) + EncodeSteps(m, Jump) && p.ctr == old(p.ctr)
  {
    ghost var pending := Jump;
    pending := WriteField(p, m, JumpZSpeed, pending);
    pending := WriteField(p, m, JumpSinAngle, pending);
    pending := WriteField(p, m, JumpCosAngle, pending);
    pending := WriteField(p, m, JumpXYSpeed, pending);
    assert pending == [];
  }

  lemma EncodeTail(m: MovementInfo, flags: nat, flags2: nat)
    ensures EncodeSteps(m, Tail(flags, flags2))
      == EncodeSteps(m, PitchPart(flags, flags2)) + EncodeSteps(m, [FallTime]) + EncodeSteps(m, JumpPart(flags)) + EncodeSteps(m, SplinePart(flags))
  {
    var a, b, c, e := PitchPart(flags, flags2), [FallTime], JumpPart(flags), SplinePart(flags);
    EncodeStepsAppend(m, a + b + c, e);
    EncodeStepsAppend(m, a + b, c);
    EncodeStepsAppend(m, a, b);
  }

  /** One `Write*` call of `Write`: appends field f, the next field due. */
  method WriteField(p: Packet, m: MovementInfo, f: Field, ghost pending: seq<Field>) returns (ghost pending': seq<Field>)
    requires Valid(m) && pending != [] && pending[0] == f
    modifies p
    ensures p.data == old(p.data) + LE(Value(m, f), Width(f)) && p.ctr == old(p.ctr)
    ensures pending' == pending[1..]
    ensures p.data + EncodeSteps(m, pending') == old(p.data) + EncodeSteps(m, pending)
  {
    ValidValue(m, f);
    ghost var d := p.data;
    p.Write(Width(f), Value(m, f));
    pending' := pending[1..];
    EncodeStepsCons(m, pending);
    Concat2(d, LE(Value(m, f), Width(f)), EncodeSteps(m, pending'));
  }

  lemma EncodeStepsCons(m: MovementInfo, steps: seq<Field>)
    requires steps != []
    ensures EncodeSteps(m, steps) == LE(Value(m, steps[0]), Width(steps[0])) + EncodeSteps(m, steps[1..])
  {
  }

  lemma Concat2<T>(d: seq<T>, a: seq<T>, b: seq<T>)
    ensures d + a + b == d + (a + b)
  {
  }

  /** One `Read*` call of `Read`: fills field f, the next field due, from the cursor. */
  method ReadField(p: Packet, m: MovementInfo, f: Field, ghost pending: seq<Field>) returns (r: MovementInfo, ghost pending': seq<Field>)
    requires pending != [] && pending[0] == f && p.ctr + StepsLen(pending) <= |p.data|
    modifies p
    ensures r == With(m, f, FromLE(old(p.data)[old(p.ctr)..old(p.ctr) + Width(f)]))
    ensures p.ctr == old(p.ctr) + Width(f) && p.data == old(p.data) && pending' == pending[1..]
    ensures p.ctr + StepsLen(pending') == old(p.ctr) + StepsLen(pending)
    ensures Run(r, p.data[p.ctr..], pending') == Run(m, old(p.data)[old(p.ctr)..], pending)
  {
    ghost var d := p.data[p.ctr..];
    var v := p.Read(Width(f));
    r := With(m, f, v);
    pending' := pending[1..];
    assert d[..Width(f)] == old(p.data)[old(p.ctr)..old(p.ctr) + Width(f)];
    assert d[Width(f)..] == p.data[p.ctr..];
  }

  /** A single `Read*` call of `Read`. */
  method ReadOne(p: Packet, m: MovementInfo, f: Field) returns (r: MovementInfo)
    requires p.ctr + StepsLen([f]) <= |p.data|
    modifies p
    ensures r == Run(m, old(p.data)[old(p.ctr)..], [f])
    ensures p.ctr == old(p.ctr) + StepsLen([f]) && p.data == old(p.data)
  {
    ghost var d := p.data[p.ctr..];
    assert [f][1..] == [];
    var v := p.Read(Width(f));
    r := With(m, f, v);
    assert d[..Width(f)] == old(p.data)[old(p.ctr)..old(p.ctr) + Width(f)];
  }

  /** Reading a + b from offset c is reading a, then b from where a ended. */
  lemma RunThen(m: MovementInfo, data: seq<byte>, c: nat, next: nat, a: seq<Field>, b: seq<Field>)
    requires next == c + StepsLen(a) && c + StepsLen(a + b) <= |data|
    ensures StepsLen(a + b) == StepsLen(a) + StepsLen(b)
    ensures Run(m, data[c..], a + b) == Run(Run(m, data[c..], a), data[next..], b)
  {
    StepsLenAppend(a, b);
    RunAppend(m, data[c..], a, b);
    assert data[c..][StepsLen(a)..] == data[next..];
  }

  /** Reading three blocks one after the other, with c1 and c2 where the second and third start. */
  lemma Run3(m: MovementInfo, data: seq<byte>, c: nat, c1: nat, c2: nat, a: seq<Field>, b: seq<Field>, e: seq<Field>)
    requires c1 == c + StepsLen(a) && c2 == c1 + StepsLen(b) && c + StepsLen(a + b + e) <= |data|
    ensures StepsLen(a + b + e) == StepsLen(a) + StepsLen(b) + StepsLen(e)
    ensures Run(m, data[c..], a + b + e) == Run(Run(Run(m, data[c..], a), data[c1..], b), data[c2..], e)
  {
    StepsLenAppend(a + b, e);
    StepsLenAppend(a, b);
    RunThen(m, data, c, c1, a, b);
    RunThen(m, data, c, c2, a + b, e);
  }

  /** The position fields of `Read`. */
  method ReadPosition(p: Packet, m: MovementInfo) returns (r: MovementInfo)
    requires p.ctr + StepsLen(Position) <= |p.data|
    modifies p
    ensures r == Run(m, old(p.data)[old(p.ctr)..], Position)
    ensures p.ctr == old(p.ctr) + StepsLen(Position) && p.data == old(p.data)
  {
    ghost var pending := Position;
    r := m;
    r, pending := ReadField(p, r, Time, pending);
    r, pending := ReadField(p, r, X, pending);
    r, pending := ReadField(p, r, Y, pending);
    r, pending := ReadField(p, r, Z, pending);
    r, pending := ReadField(p, r, O, pending);
    assert pending == [];
  }

  /** The always-present transport fields of `Read`. */
  method ReadTransportFixed(p: Packet, m: MovementInfo) returns (r: MovementInfo)
    requires p.ctr + StepsLen(TransportFixed) <= |p.data|
    modifies p
    ensures r == Run(m, old(p.data)[old(p.ctr)..], TransportFixed)
    ensures p.ctr == old(p.ctr) + StepsLen(TransportFixed) && p.data == old(p.data)
  {
    ghost var pending := TransportFixed;
    r := m;
    r, pending := ReadField(p, r, TransportX, pending);
    r, pending := ReadField(p, r, TransportY, pending);
    r, pending := ReadField(p, r, TransportZ, pending);
    r, pending := ReadField(p, r, TransportO, pending);
    r, pending := ReadField(p, r, TransportTime, pending);
    r, pending := ReadField(p, r, TransportSeat, pending);
    assert pending == [];
  }

  /** The interpolated-movement time of `Read`, when its flag is set. */
  method ReadTransportTail(p: Packet, m: MovementInfo, flags2: nat) returns (r: MovementInfo)
    requires p.ctr + StepsLen(TransportTail(flags2)) <= |p.data|
    modifies p
    ensures r == Run(m, old(p.data)[old(p.ctr)..], TransportTail(flags2))
    ensures p.ctr == old(p.ctr) + StepsLen(TransportTail(flags2)) && p.data == old(p.data)
  {
    r := m;
    if BitOf(flags2, INTERPOLATED_MOVEMENT_BIT) {
      r := ReadOne(p, r, TransportTime2);
    }
  }

  /** The transport block of `Read`, which starts with a uint64 it stores as the mover's GUID. */
  method ReadTransport(p: Packet, m: MovementInfo, flags2: nat) returns (r: MovementInfo)
    requires p.ctr + StepsLen(TransportBlock(flags2, true)) <= |p.data|
    modifies p
    ensures r == Run(m, old(p.data)[old(p.ctr)..], TransportBlock(flags2, true))
    ensures p.ctr == old(p.ctr) + StepsLen(TransportBlock(flags2, true)) && p.data == old(p.data)
  {
    ghost var t := TransportTail(flags2);
    assert TransportBlock(flags2, true) == [Guid] + TransportFixed + t;
    ghost var c1 := p.ctr + StepsLen([Guid]);
    Run3(m, p.data, p.ctr, c1, c1 + StepsLen(TransportFixed), [Guid], TransportFixed, t);
    r := ReadOne(p, m, Guid);
    r := ReadTransportFixed(p, r);
    r := ReadTransportTail(p, r, flags2);
  }

  /** The transport block of `Read`, when the on-transport flag is set. */
  method ReadTransportPart(p: Packet, m: MovementInfo, flags: nat, flags2: nat) returns (r: MovementInfo)
    requires p.ctr + StepsLen(TransportPart(flags, flags2, true)) <= |p.data|
    modifies p
    ensures r == Run(m, old(p.data)[old(p.ctr)..], TransportPart(flags, flags2, true))
    ensures p.ctr == old(p.ctr) + StepsLen(TransportPart(flags, flags2, true)) && p.data == old(p.data)
  {
    r := m;
    if BitOf(flags, ONTRANSPORT_BIT) {
      r := ReadTransport(p, r, flags2);
    }
  }

  /** The pitch field of `Read`, under the pitch condition as written. */
  method ReadPitch(p: Packet, m: MovementInfo, flags: nat, flags2: nat) returns (r: MovementInfo)
    requires p.ctr + StepsLen(PitchPart(flags, flags2)) <= |p.data|
    modifies p
    ensures r == Run(m, old(p.data)[old(p.ctr)..], PitchPart(flags, flags2))
    ensures p.ctr == old(p.ctr) + StepsLen(PitchPart(flags, flags2)) && p.data == old(p.data)
  {
    r := m;
    if OrNonZero32(flags, SWIMMING) || OrNonZero32(flags, FLYING) || OrNonZero32(flags2, ALWAYS_ALLOW_PITCHING) {
      r := ReadOne(p, r, Pitch);
    }
  }

  /** The jump fields of `Read`. */
  method ReadJump(p: Packet, m: MovementInfo) returns (r: MovementInfo)
    requires p.ctr + StepsLen(Jump) <= |p.data|
    modifies p
    ensures r == Run(m, old(p.data)[old(p.ctr)..], Jump)
    ensures p.ctr == old(p.ctr) + StepsLen(Jump) && p.data == old(p.data)
  {
    ghost var pending := Jump;
    r := m;
    r, pending := ReadField(p, r, JumpZSpeed, pending);
    r, pending := ReadField(p, r, JumpSinAngle, pending);
    r, pending := ReadField(p, r, JumpCosAngle, pending);
    r, pending := ReadField(p, r, JumpXYSpeed, pending);
    assert pending == [];
  }

  /** The jump fields of `Read`, when the falling flag is set. */
  method ReadJumpPart(p: Packet, m: MovementInfo, flags: nat) returns (r: MovementInfo)
    requires p.ctr + StepsLen(JumpPart(flags)) <= |p.data|
    modifies p
    ensures r == Run(m, old(p.data)[old(p.ctr)..], JumpPart(flags))
    ensures p.ctr == old(p.ctr) + StepsLen(JumpPart(flags)) && p.data == old(p.data)
  {
    r := m;
    if BitOf(flags, FALLING_BIT) {
      r := ReadJump(p, r);
    }
  }

  /** The spline elevation of `Read`, when its flag is set. */
  method ReadSpline(p: Packet, m: MovementInfo, flags: nat) returns (r: MovementInfo)
    requires p.ctr + StepsLen(SplinePart(flags)) <= |p.data|
    modifies p
    ensures r == Run(m, old(p.data)[old(p.ctr)..], SplinePart(flags))
    ensures p.ctr == old(p.ctr) + StepsLen(SplinePart(flags)) && p.data == old(p.data)
  {
    r := m;
    if BitOf(flags, SPLINE_ELEVATION_BIT) {
      r := ReadOne(p, r, SplineElevation);
    }
  }

  /** Pitch and fall time, as `Read` takes them. */
  method ReadPitchFall(p: Packet, m: MovementInfo, flags: nat, flags2: nat) returns (r: MovementInfo)
    requires p.ctr + StepsLen(PitchPart(flags, flags2) + [FallTime]) <= |p.data|
    modifies p
    ensures r == Run(m, old(p.data)[old(p.ctr)..], PitchPart(flags, flags2) + [FallTime])
    ensures p.ctr == old(p.ctr) + StepsLen(PitchPart(flags, flags2) + [FallTime]) && p.data == old(p.data)
  {
    StepsLenAppend(PitchPart(flags, flags2), [FallTime]);
    RunThen(m, p.data, p.ctr, p.ctr + StepsLen(PitchPart(flags, flags2)), PitchPart(flags, flags2), [FallTime]);
    r := ReadPitch(p, m, flags, flags2);
    r := ReadOne(p, r, FallTime);
  }

  /** The jump fields and the spline elevation, as `Read` takes them. */
  method ReadJumpSpline(p: Packet, m: MovementInfo, flags: nat) returns (r: MovementInfo)
    requires p.ctr + StepsLen(JumpPart(flags) + SplinePart(flags)) <= |p.data|
    modifies p
    ensures r == Run(m, old(p.data)[old(p.ctr)..], JumpPart(flags) + SplinePart(flags))
    ensures p.ctr == old(p.ctr) + StepsLen(JumpPart(flags) + SplinePart(flags)) && p.data == old(p.data)
  {
    StepsLenAppend(JumpPart(flags), SplinePart(flags));
    RunThen(m, p.data, p.ctr, p.ctr + StepsLen(JumpPart(flags)), JumpPart(flags), SplinePart(flags));
    r := ReadJumpPart(p, m, flags);
    r := ReadSpline(p, r, flags);
  }

  /** Pitch, fall time, jump and spline elevation, as `Read` takes them. */
  method ReadTail(p: Packet, m: MovementInfo, flags: nat, flags2: nat) returns (r: MovementInfo)
    requires p.ctr + StepsLen(Tail(flags, flags2)) <= |p.data|
    modifies p
    ensures r == Run(m, old(p.data)[old(p.ctr)..], Tail(flags, flags2))
    ensures p.ctr == old(p.ctr) + StepsLen(Tail(flags, flags2)) && p.data == old(p.data)
  {
    RunTail(m, p.data, p.ctr, flags, flags2);
    r := ReadPitchFall(p, m, flags, flags2);
    r := ReadJumpSpline(p, r, flags);
  }

  /** The tail of `Read` in two halves: pitch and fall time, then jump and spline elevation. */
  lemma RunTail(m: MovementInfo, data: seq<byte>, c: nat, flags: nat, flags2: nat)
    requires c + StepsLen(Tail(flags, flags2)) <= |data|
    ensures StepsLen(Tail(flags, flags2))
      == StepsLen(PitchPart(flags, flags2) + [FallTime]) + StepsLen(JumpPart(flags) + SplinePart(flags))
    ensures Run(m, data[c..], Tail(flags, flags2))
      == Run(Run(m, data[c..], PitchPart(flags, flags2) + [FallTime]),
             data[c + StepsLen(PitchPart(flags, flags2) + [FallTime])..], JumpPart(flags) + SplinePart(flags))
  {
    var front, back := PitchPart(flags, flags2) + [FallTime], JumpPart(flags) + SplinePart(flags);
    assert Tail(flags, flags2) == front + back;
    RunThen(m, data, c, c + StepsLen(front), front, back);
  }

  /** The GUID, opcode and flags `Read` takes first. */
  method ReadHead(p: Packet, init: MovementInfo) returns (m: MovementInfo)
    requires p.kind == World && 6 <= |p.data| && p.ctr < |p.data| && p.ctr + GuidLen(p.data[p.ctr..]) + 6 <= |p.data|
    modifies p
    ensures p.data == old(p.data)
    ensures m == Header(old(p.data)[old(p.ctr)..], p.GetOpcode(), init)
    ensures p.ctr == old(p.ctr) + GuidLen(old(p.data)[old(p.ctr)..]) + 6
  {
    ghost var data, c0 := p.data, p.ctr;
    var guid, opcode := ReadGuid(p);
    ghost var c1 := p.ctr;
    var flags, flags2 := ReadFlags(p);
    HeaderIs(data, c0, c1, opcode, init, guid, flags, flags2);
    m := With(With(With(With(init, Guid, guid), Opcode, opcode), Flags, flags), Flags2, flags2);
  }

  /** The packed GUID at the cursor, and the packet's opcode. */
  method ReadGuid(p: Packet) returns (guid: nat, opcode: nat)
    requires p.kind == World && 6 <= |p.data| && p.ctr < |p.data| && p.ctr + GuidLen(p.data[p.ctr..]) + 6 <= |p.data|
    modifies p
    ensures p.data == old(p.data) && opcode == p.GetOpcode()
    ensures guid == PackedValue(p.data[old(p.ctr)], p.data[old(p.ctr) + 1..], 0)
    ensures p.ctr == old(p.ctr) + 1 + PackedLen(p.data[old(p.ctr)], 0) && p.ctr + 6 <= |p.data|
  {
    assert p.data[p.ctr..][0] == p.data[p.ctr];
    guid := p.ReadPackedGUID();
    opcode := p.GetOpcode();
  }

  /** The uint32 flags and the uint16 flags2 at the cursor. */
  method ReadFlags(p: Packet) returns (flags: nat, flags2: nat)
    requires p.ctr + 6 <= |p.data|
    modifies p
    ensures flags == FromLE(old(p.data)[old(p.ctr)..old(p.ctr) + 4])
    ensures flags2 == FromLE(old(p.data)[old(p.ctr) + 4..old(p.ctr) + 6])
    ensures p.ctr == old(p.ctr) + 6 && p.data == old(p.data)
  {
    flags := p.Read(4);
    flags2 := p.Read(2);
  }

  /** `Header` of data[c0..] in terms of the values `ReadHead` reads, with c1 the cursor after the GUID. */
  lemma HeaderIs(data: seq<byte>, c0: nat, c1: nat, opcode: nat, init: MovementInfo, guid: nat, flags: nat, flags2: nat)
    requires c0 < |data| && c1 == c0 + 1 + PackedLen(data[c0], 0) && c1 + 6 <= |data|
    requires guid == PackedValue(data[c0], data[c0 + 1..], 0)
    requires flags == FromLE(data[c1..c1 + 4]) && flags2 == FromLE(data[c1 + 4..c1 + 6])
    ensures c1 == c0 + GuidLen(data[c0..]) && |data[c0..]| >= GuidLen(data[c0..]) + 6
    ensures Header(data[c0..], opcode, init) == With(With(With(With(init, Guid, guid), Opcode, opcode), Flags, flags), Flags2, flags2)
  {
    var d := data[c0..];
    assert d[0] == data[c0] && d[1..] == data[c0 + 1..];
    var g := GuidLen(d);
    assert d[g..g + 4] == data[c1..c1 + 4];
    assert d[g + 4..g + 6] == data[c1 + 4..c1 + 6];
  }

  /** `MovementPacket::Read(packet)`: a new movement packet filled from the cursor on. */
  method Read(p: Packet, init: MovementInfo) returns (mp: MovementPacket)
    requires p.kind == World && 6 <= |p.data| && p.ctr <= |p.data| && Fits(p.data[p.ctr..])
    modifies p
    ensures p.data == old(p.data) && fresh(mp)
    ensures mp.info == Decode(old(p.data)[old(p.ctr)..], p.GetOpcode(), init)
    ensures p.ctr == old(p.ctr) + Consumed(old(p.data)[old(p.ctr)..])
  {
    ghost var data, c0 := p.data, p.ctr;
    var m := ReadHead(p, init);
    BodyOfDecode(data, c0, p.GetOpcode(), init, m, p.ctr);
    m := ReadBody(p, m, Value(m, Flags), Value(m, Flags2));
    mp := new MovementPacket(m);
  }

  /** After the header, `Decode` is reading the flag-selected steps from where the header ended. */
  lemma BodyOfDecode(data: seq<byte>, c0: nat, opcode: nat, init: MovementInfo, m: MovementInfo, c1: nat)
    requires c0 <= |data| && Fits(data[c0..])
    requires m == Header(data[c0..], opcode, init) && c1 == c0 + GuidLen(data[c0..]) + 6
    ensures c1 + StepsLen(ReadSteps(Value(m, Flags), Value(m, Flags2))) <= |data|
    ensures Decode(data[c0..], opcode, init) == Run(m, data[c1..], ReadSteps(Value(m, Flags), Value(m, Flags2)))
    ensures c0 + Consumed(data[c0..]) == c1 + StepsLen(ReadSteps(Value(m, Flags), Value(m, Flags2)))
  {
    var d := data[c0..];
    DecodeParts(d, opcode, init);
    assert d[GuidLen(d) + 6..] == data[c1..];
  }

  /** Everything `Read` takes after flags2, as the flags select it. */
  method ReadBody(p: Packet, m: MovementInfo, flags: nat, flags2: nat) returns (r: MovementInfo)
    requires p.ctr + StepsLen(ReadSteps(flags, flags2)) <= |p.data|
    modifies p
    ensures r == Run(m, old(p.data)[old(p.ctr)..], ReadSteps(flags, flags2))
    ensures p.ctr == old(p.ctr) + StepsLen(ReadSteps(flags, flags2)) && p.data == old(p.data)
  {
    BodySplit(m, p.data, p.ctr, flags, flags2);
    r := ReadPosition(p, m);
    r := ReadRest(p, r, flags, flags2);
  }

  /** The body of `Read` in two parts: the position, then the transport block and the tail. */
  lemma BodySplit(m: MovementInfo, data: seq<byte>, c: nat, flags: nat, flags2: nat)
    requires c + StepsLen(ReadSteps(flags, flags2)) <= |data|
    ensures StepsLen(ReadSteps(flags, flags2))
      == StepsLen(Position) + StepsLen(TransportPart(flags, flags2, true) + Tail(flags, flags2))
    ensures Run(m, data[c..], ReadSteps(flags, flags2))
      == Run(Run(m, data[c..], Position), data[c + StepsLen(Position)..], TransportPart(flags, flags2, true) + Tail(flags, flags2))
  {
    var rest := TransportPart(flags, flags2, true) + Tail(flags, flags2);
    var steps := ReadSteps(flags, flags2);
    assert steps == Position + rest;
    RunThen(m, data, c, c + StepsLen(Position), Position, rest);
    assert Run(m, data[c..], steps) == Run(m, data[c..], Position + rest);
  }

  /** The transport block and the tail of `Read`. */
  method ReadRest(p: Packet, m: MovementInfo, flags: nat, flags2: nat) returns (r: MovementInfo)
    requires p.ctr + StepsLen(TransportPart(flags, flags2, true) + Tail(flags, flags2)) <= |p.data|
    modifies p
    ensures r == Run(m, old(p.data)[old(p.ctr)..], TransportPart(flags, flags2, true) + Tail(flags, flags2))
    ensures p.ctr == old(p.ctr) + StepsLen(TransportPart(flags, flags2, true) + Tail(flags, flags2)) && p.data == old(p.data)
  {
    ghost var t := TransportPart(flags, flags2, true);
    RunThen(m, p.data, p.ctr, p.ctr + StepsLen(t), t, Tail(flags, flags2));
    r := ReadTransportPart(p, m, flags, flags2);
    r := ReadTail(p, r, flags, flags2);
  }

  /** `Decode` and `Consumed` in terms of the header `Read` takes first. */
  lemma DecodeParts(d: seq<byte>, opcode: nat, init: MovementInfo)
    requires Fits(d)
    ensures var h, g := Header(d, opcode, init), GuidLen(d);
      Consumed(d) == g + 6 + StepsLen(ReadSteps(Value(h, Flags), Value(h, Flags2))) &&
      Decode(d, opcode, init) == Run(h, d[g + 6..], ReadSteps(Value(h, Flags), Value(h, Flags2)))
  {
    var h := Header(d, opcode, init);
    ReadLenSteps(Value(h, Flags), Value(h, Flags2));
  }
}

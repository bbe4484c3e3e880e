/**
 * `UpdateData` and `UpdateDataPacket`: the entries of SMSG_UPDATE_OBJECT.
 * An entry starts with an update type; depending on it the entry carries a
 * GUID, an object type, a movement section and an update-field section, or
 * a list of out-of-range GUIDs. Floats are carried as opaque 32-bit words.
 *
 * The scalar members of `UpdateData` are modelled as one map from `Slot` to
 * the value read into it; the straight-line reads of the source are lists of
 * `Step`s that `ReadSteps` performs in order.
 */
module Update {
  import opened Wrappers
  import opened Bytes
  import opened Packet
  import Movement

  /** Bit numbers of `ObjectUpdateFlags`. */
  const TRANSPORT_BIT := 1           // UPDATEFLAG_TRANSPORT = 0x0002
  const HAS_TARGET_BIT := 2          // UPDATEFLAG_HAS_TARGET = 0x0004
  const UNKNOWN_BIT := 3             // UPDATEFLAG_UNKNOWN = 0x0008
  const LOWGUID_BIT := 4             // UPDATEFLAG_LOWGUID = 0x0010
  const LIVING_BIT := 5              // UPDATEFLAG_LIVING = 0x0020
  const STATIONARY_POSITION_BIT := 6 // UPDATEFLAG_STATIONARY_POSITION = 0x0040
  const VEHICLE_BIT := 7             // UPDATEFLAG_VEHICLE = 0x0080
  const POSITION_BIT := 8            // UPDATEFLAG_POSITION = 0x0100
  const ROTATION_BIT := 9            // UPDATEFLAG_ROTATION = 0x0200

  /** Bit numbers of `SplineFlags` and of the movement flag that enables a spline. */
  const FINAL_POINT_BIT := 15        // SPLINEFLAGS_FINAL_POINT = 0x00008000
  const FINAL_TARGET_BIT := 16       // SPLINEFLAGS_FINAL_TARGET = 0x00010000
  const FINAL_ANGLE_BIT := 17        // SPLINEFLAGS_FINAL_ANGLE = 0x00020000
  const SPLINE_ENABLED_BIT := 27     // MOVEMENTFLAG_SPLINE_ENABLED = 0x08000000

  /** `ObjectUpdateType`. */
  const UPDATETYPE_VALUES: byte := 0
  const UPDATETYPE_MOVEMENT: byte := 1
  const UPDATETYPE_CREATE_OBJECT: byte := 2
  const UPDATETYPE_CREATE_OBJECT2: byte := 3
  const UPDATETYPE_OUT_OF_RANGE_OBJECTS: byte := 4
  const UPDATETYPE_NEAR_OBJECTS: byte := 5

  /** The scalar members of `UpdateData` that `Read` assigns. */
  datatype Slot =
    | Guid | TypeId | UpdateFlags
    | WalkSpeed | RunSpeed | RunBackSpeed | SwimSpeed | SwimBackSpeed
    | FlightSpeed | FlightBackSpeed | TurnRate | PitchRate
    | SplineFlags | SplineFacingAngle | SplineFacingTargetGuid
    | SplineFacingPointX | SplineFacingPointY | SplineFacingPointZ
    | SplineTimePassed | SplineDuration | SplineId | SplineVerticalAcceleration | SplineEffectStartTime
    | SplineEvaluationMode | SplineEndpointX | SplineEndpointY | SplineEndpointZ
    | TransportGuid | X | Y | Z | TransportOffsetX | TransportOffsetY | TransportOffsetZ | O | CorpseOrientation
    | LowGuid | TargetGuid | TransportTimer | VehicleId | VehicleOrientation | GoRotation

  type Words = map<Slot, nat>

  /** One read of straight-line code: a little-endian word into a slot, a word thrown away, or a packed GUID into a slot. */
  datatype Step = Word(slot: Slot, width: nat) | Skip(width: nat) | Packed(slot: Slot)

  /** A `Vector3` of opaque float words. */
  datatype Point = Point(x: nat, y: nat, z: nat)

  // ---------------------------------------------------------------------------
  // Straight-line reads

  /** One step on the bytes d: the new slots and the bytes consumed, or None where d runs out. */
  function StepAt(w: Words, d: seq<byte>, st: Step): (r: Option<(Words, nat)>)
    ensures r.Some? ==> r.value.1 <= |d|
  {
    match st
    case Word(s, n) => if |d| < n then None else Some((w[s := FromLE(d[..n])], n))
    case Skip(n) => if |d| < n then None else Some((w, n))
    case Packed(s) =>
      if |d| < 1 || |d| < 1 + PackedLen(d[0], 0) then None
      else Some((w[s := PackedValue(d[0], d[1..], 0)], 1 + PackedLen(d[0], 0)))
  }

  /** A result whose consumption starts n bytes further on. */
  function Shift(r: Option<(Words, nat)>, n: nat): Option<(Words, nat)>
  {
    match r
    case None => None
    case Some((w, k)) => Some((w, n + k))
  }

  /** The steps in order from d: the new slots and the bytes consumed, or None where d runs out. */
  function Fill(w: Words, d: seq<byte>, steps: seq<Step>): (r: Option<(Words, nat)>)
    ensures r.Some? ==> r.value.1 <= |d|
    decreases |steps|
  {
    if steps == [] then Some((w, 0))
    else
      match StepAt(w, d, steps[0])
      case None => None
      case Some((w1, n)) => Shift(Fill(w1, d[n..], steps[1..]), n)
  }

  /** Whether a step stores into slot s. */
  predicate Stores(st: Step, s: Slot)
  {
    !st.Skip? && st.slot == s
  }

  /** Whether one of the steps stores into slot s. */
  predicate Touches(steps: seq<Step>, s: Slot)
  {
    exists i :: 0 <= i < |steps| && Stores(steps[i], s)
  }

  /** `Fill` keeps every slot it had and changes only the slots its steps store into. */
  lemma {:induction false} FillFrame(w: Words, d: seq<byte>, steps: seq<Step>, s: Slot)
    requires Fill(w, d, steps).Some? && s in w
    ensures s in Fill(w, d, steps).value.0
    ensures !Touches(steps, s) ==> Fill(w, d, steps).value.0[s] == w[s]
    decreases |steps|
  {
    if steps != [] {
      var st := steps[0];
      var w1, n := StepAt(w, d, st).value.0, StepAt(w, d, st).value.1;
      FillFrame(w1, d[n..], steps[1..], s);
      if !Touches(steps, s) {
        assert !Stores(st, s) by {
          assert steps[0] == st;
        }
        assert !Touches(steps[1..], s) by {
          forall i | 0 <= i < |steps| - 1
            ensures !Stores(steps[1..][i], s)
          {
            assert steps[1..][i] == steps[i + 1];
          }
        }
      }
    }
  }

  // ---------------------------------------------------------------------------
  // The movement section (`ReadMovement`)

  /** The nine speeds after the movement block of a living object. */
  const LivingSteps: seq<Step> := [
    Word(WalkSpeed, 4), Word(RunSpeed, 4), Word(RunBackSpeed, 4), Word(SwimSpeed, 4), Word(SwimBackSpeed, 4),
    Word(FlightSpeed, 4), Word(FlightBackSpeed, 4), Word(TurnRate, 4), Word(PitchRate, 4)]

  /** `UPDATEFLAG_POSITION`: a packed transport GUID and eight floats. */
  const PositionSteps: seq<Step> := [
    Packed(TransportGuid), Word(X, 4), Word(Y, 4), Word(Z, 4),
    Word(TransportOffsetX, 4), Word(TransportOffsetY, 4), Word(TransportOffsetZ, 4), Word(O, 4), Word(CorpseOrientation, 4)]

  /** `UPDATEFLAG_STATIONARY_POSITION`: four floats. */
  const StationarySteps: seq<Step> := [Word(X, 4), Word(Y, 4), Word(Z, 4), Word(O, 4)]

  /** The else-if chain for objects that are not living: position, else stationary position, else nothing. */
  function PlacementSteps(flags: nat): seq<Step>
  {
    if BitOf(flags, POSITION_BIT) then PositionSteps
    else if BitOf(flags, STATIONARY_POSITION_BIT) then StationarySteps
    else []
  }

  /** The six trailing blocks, each present exactly when its own flag is set, in this order. */
  function TrailingSteps(flags: nat): seq<Step>
  {
    Block(flags, UNKNOWN_BIT, [Skip(4)]) +
    Block(flags, LOWGUID_BIT, [Word(LowGuid, 4)]) +
    Block(flags, HAS_TARGET_BIT, [Packed(TargetGuid)]) +
    Block(flags, TRANSPORT_BIT, [Word(TransportTimer, 4)]) +
    Block(flags, VEHICLE_BIT, [Word(VehicleId, 4), Word(VehicleOrientation, 4)]) +
    Block(flags, ROTATION_BIT, [Word(GoRotation, 8)])
  }

  /** The steps of a block guarded by one flag bit. */
  function Block(flags: nat, bit: nat, steps: seq<Step>): seq<Step>
  {
    if BitOf(flags, bit) then steps else []
  }

  /** The spline facing, an else-if chain: angle, else target GUID, else point, else nothing. */
  function FacingSteps(splineFlags: nat): seq<Step>
  {
    if BitOf(splineFlags, FINAL_ANGLE_BIT) then [Word(SplineFacingAngle, 4)]
    else if BitOf(splineFlags, FINAL_TARGET_BIT) then [Word(SplineFacingTargetGuid, 8)]
    else if BitOf(splineFlags, FINAL_POINT_BIT) then [Word(SplineFacingPointX, 4), Word(SplineFacingPointY, 4), Word(SplineFacingPointZ, 4)]
    else []
  }

  /** The spline timing words; the two floats in the middle are read and thrown away. */
  const SplineTiming: seq<Step> := [
    Word(SplineTimePassed, 4), Word(SplineDuration, 4), Word(SplineId, 4), Skip(4), Skip(4),
    Word(SplineVerticalAcceleration, 4), Word(SplineEffectStartTime, 4)]

  /** The spline words after the points. */
  const SplineEnd: seq<Step> := [Word(SplineEvaluationMode, 1), Word(SplineEndpointX, 4), Word(SplineEndpointY, 4), Word(SplineEndpointZ, 4)]

  /** The point at byte c of d: three float words. */
  function PointAt(d: seq<byte>, c: nat): Point
    requires c + 12 <= |d|
  {
    Point(FromLE(d[c..c + 4]), FromLE(d[c + 4..c + 8]), FromLE(d[c + 8..c + 12]))
  }

  /** The count points from byte c of d on. */
  function PointsAt(d: seq<byte>, c: nat, count: nat): (r: seq<Point>)
    requires c + 12 * count <= |d|
    ensures |r| == count
  {
    seq(count, k requires 0 <= k < count => PointAt(d, c + 12 * k))
  }

  /** The flags word, the facing and the timing of a spline. */
  function SplineHead(w: Words, d: seq<byte>): (r: Option<(Words, nat)>)
    ensures r.Some? ==> r.value.1 <= |d|
  {
    if |d| < 4 then None
    else
      var sf := FromLE(d[..4]);
      Shift(Fill(w[SplineFlags := sf], d[4..], FacingSteps(sf) + SplineTiming), 4)
  }

  /** The point count, the points and the last spline words. */
  function SplineTail(w: Words, d: seq<byte>): (r: Option<(Words, seq<Point>, nat)>)
    ensures r.Some? ==> r.value.2 <= |d|
  {
    if |d| < 4 then None
    else
      var count := FromLE(d[..4]);
      if |d| < 4 + 12 * count then None
      else
        var f := Fill(w, d[4 + 12 * count..], SplineEnd);
        if f.None? then None else Some((f.value.0, PointsAt(d, 4, count), 4 + 12 * count + f.value.1))
  }

  /** What `SplineTail` reads, part by part, once the point count is known. */
  lemma SplineTailParts(w: Words, d: seq<byte>, count: nat)
    requires SplineTail(w, d).Some? && |d| >= 4 && count == FromLE(d[..4])
    ensures 4 + 12 * count <= |d| && Fill(w, d[4 + 12 * count..], SplineEnd).Some?
    ensures SplineTail(w, d).value.0 == Fill(w, d[4 + 12 * count..], SplineEnd).value.0
    ensures SplineTail(w, d).value.1 == PointsAt(d, 4, count)
    ensures SplineTail(w, d).value.2 == 4 + 12 * count + Fill(w, d[4 + 12 * count..], SplineEnd).value.1
  {
    assert 4 + 12 * count <= |d|;
    assert Fill(w, d[4 + 12 * count..], SplineEnd).Some?;
  }

  /** The spline block: head, then tail. */
  function Spline(w: Words, d: seq<byte>): (r: Option<(Words, seq<Point>, nat)>)
    ensures r.Some? ==> r.value.2 <= |d|
  {
    var h := SplineHead(w, d);
    if h.None? then None else Later(SplineTail(h.value.0, d[h.value.1..]), h.value.1)
  }

  /** What `Spline` reads: the head, then the tail from where the head ended. */
  lemma SplineParts(w: Words, d: seq<byte>)
    requires Spline(w, d).Some?
    ensures SplineHead(w, d).Some?
    ensures var h := SplineHead(w, d).value;
      var t := SplineTail(h.0, d[h.1..]);
      var r := Spline(w, d).value;
      t.Some? && r.0 == t.value.0 && r.1 == t.value.1 && r.2 == h.1 + t.value.2
  {
  }

  /** What `SplineHead` reads, once the spline flags are known. */
  lemma SplineHeadParts(w: Words, d: seq<byte>, sf: nat)
    requires SplineHead(w, d).Some? && |d| >= 4 && sf == FromLE(d[..4])
    ensures var f := Fill(w[SplineFlags := sf], d[4..], FacingSteps(sf) + SplineTiming);
      f.Some? && SplineHead(w, d).value.0 == f.value.0 && SplineHead(w, d).value.1 == 4 + f.value.1
  {
  }

  /** A section result whose consumption starts n bytes further on. */
  function Later(r: Option<(Words, seq<Point>, nat)>, n: nat): Option<(Words, seq<Point>, nat)>
  {
    if r.None? then None else Some((r.value.0, r.value.1, n + r.value.2))
  }

  /** The length of the movement block at the start of d, when d holds a whole one. */
  function MovementBlock(d: seq<byte>): (r: Option<nat>)
    ensures r.Some? ==> r.value <= |d|
  {
    if Movement.Fits(d) then Some(Movement.Consumed(d)) else None
  }

  /**
   * What follows the movement block: the nine speeds, and a spline when the
   * flags of the entry's own, never-read movement member say so.
   */
  function Living(w: Words, pts: seq<Point>, d: seq<byte>, stale: Movement.MovementInfo): (r: Option<(Words, seq<Point>, nat)>)
    ensures r.Some? ==> r.value.2 <= |d|
  {
    AfterSpeeds(Fill(w, d, LivingSteps), pts, d, BitOf(Movement.Value(stale, Movement.Flags), SPLINE_ENABLED_BIT))
  }

  /** The spline, if `spline`, after speeds read as `f` from the start of d. */
  function AfterSpeeds(f: Option<(Words, nat)>, pts: seq<Point>, d: seq<byte>, spline: bool): (r: Option<(Words, seq<Point>, nat)>)
    requires f.Some? ==> f.value.1 <= |d|
    ensures r.Some? ==> r.value.2 <= |d|
  {
    if f.None? then None
    else if spline then Later(Spline(f.value.0, d[f.value.1..]), f.value.1)
    else Some((f.value.0, pts, f.value.1))
  }

  /** What `AfterSpeeds` reads, part by part. */
  lemma AfterSpeedsParts(f: Option<(Words, nat)>, pts: seq<Point>, d: seq<byte>, spline: bool)
    requires f.Some? ==> f.value.1 <= |d|
    requires AfterSpeeds(f, pts, d, spline).Some?
    ensures f.Some?
    ensures var r := AfterSpeeds(f, pts, d, spline).value;
      if spline then
        var s := Spline(f.value.0, d[f.value.1..]);
        s.Some? && r.0 == s.value.0 && r.1 == s.value.1 && r.2 == f.value.1 + s.value.2
      else r.0 == f.value.0 && r.1 == pts && r.2 == f.value.1
  {
  }

  /**
   * The else-if chain of `ReadMovement` after the flags: living (the
   * movement block, whose length is `block`, then the speeds and the
   * spline), else position, else stationary.
   */
  function Placement(w: Words, pts: seq<Point>, d: seq<byte>, flags: nat, block: Option<nat>, stale: Movement.MovementInfo): (r: Option<(Words, seq<Point>, nat)>)
    requires block.Some? ==> block.value <= |d|
    ensures r.Some? ==> r.value.2 <= |d|
  {
    if BitOf(flags, LIVING_BIT) then
      if block.None? then None else Later(Living(w, pts, d[block.value..], stale), block.value)
    else
      var f := Fill(w, d, PlacementSteps(flags));
      if f.None? then None else Some((f.value.0, pts, f.value.1))
  }

  // ---------------------------------------------------------------------------
  // The update-field section (`ReadValues`)

  /** The n 32-bit words from byte c of d on. */
  function WordsAt(d: seq<byte>, c: nat, n: nat): (r: seq<nat>)
    requires c + 4 * n <= |d|
    ensures |r| == n
  {
    seq(n, k requires 0 <= k < n => FromLE(d[c + 4 * k..c + 4 * k + 4]))
  }

  /**
   * The map key `chunkI << 32 & byteI` on 64-bit operands (chunkI < 256,
   * so the shift does not overflow): the shift clears every bit that a bit
   * number below 32 could share, so the key is always 0.
   */
  function Key(chunk: nat, bit: nat): (k: int)
    requires chunk < U8 && bit < 32
    ensures k == 0
  {
    KeyZero(chunk, bit, 32, 64);
    AndBits(Shl(chunk, 32), bit, 64)
  }

  /** `x << s` without overflow. */
  function Shl(x: nat, s: nat): nat
  {
    x * Pow2(s)
  }

  /** The and of a shift by s with a bit number below s is 0, whatever the width k. */
  lemma KeyZero(chunk: nat, bit: nat, s: nat, k: nat)
    requires bit < s
    ensures AndBits(Shl(chunk, s), bit, k) == 0
  {
    Pow2Exceeds(s);
    AndShiftedZero(chunk, bit, s, k);
  }

  /** Whether mask bit q is set, counting 32 bits per mask. */
  predicate MaskBit(masks: seq<nat>, q: nat)
    requires q < 32 * |masks|
  {
    BitOf(masks[q / 32], q % 32)
  }

  /** How many of the first q mask bits are set. */
  function SetBefore(masks: seq<nat>, q: nat): (k: nat)
    requires q <= 32 * |masks|
    ensures k <= q
  {
    if q == 0 then 0 else SetBefore(masks, q - 1) + (if MaskBit(masks, q - 1) then 1 else 0)
  }

  /**
   * The update fields after the nested loop has visited the first q mask
   * bits: each set bit stores the next value under `Key` of its position.
   */
  function Stored(fields: map<int, nat>, masks: seq<nat>, vals: seq<nat>, q: nat): map<int, nat>
    requires |masks| < U8 && q <= 32 * |masks| && SetBefore(masks, 32 * |masks|) <= |vals|
  {
    if q == 0 then fields
    else
      SetBeforeMono(masks, q, 32 * |masks|);
      var prev := Stored(fields, masks, vals, q - 1);
      if MaskBit(masks, q - 1) then prev[Key((q - 1) / 32, (q - 1) % 32) := vals[SetBefore(masks, q - 1)]]
      else prev
  }

  lemma DivMod32(chunk: nat, bit: nat, q: nat)
    requires bit < 32 && q == 32 * chunk + bit
    ensures q / 32 == chunk && q % 32 == bit
  {
  }

  /** One more mask bit: one more value stored when the bit is set. */
  lemma StoredStep(fields: map<int, nat>, masks: seq<nat>, vals: seq<nat>, q: nat)
    requires |masks| < U8 && q < 32 * |masks| && SetBefore(masks, 32 * |masks|) <= |vals|
    ensures SetBefore(masks, q + 1) == SetBefore(masks, q) + (if MaskBit(masks, q) then 1 else 0)
    ensures SetBefore(masks, q + 1) <= |vals|
    ensures Stored(fields, masks, vals, q + 1) ==
      if MaskBit(masks, q) then Stored(fields, masks, vals, q)[Key(q / 32, q % 32) := vals[SetBefore(masks, q)]]
      else Stored(fields, masks, vals, q)
  {
    SetBeforeMono(masks, q + 1, 32 * |masks|);
  }

  /** `StoredStep` for bit number bit of mask number chunk. */
  lemma StoredBit(fields: map<int, nat>, masks: seq<nat>, vals: seq<nat>, chunk: nat, bit: nat)
    requires |masks| < U8 && chunk < |masks| && bit < 32 && SetBefore(masks, 32 * |masks|) <= |vals|
    ensures SetBefore(masks, 32 * chunk + bit + 1) == SetBefore(masks, 32 * chunk + bit) + (if BitOf(masks[chunk], bit) then 1 else 0)
    ensures SetBefore(masks, 32 * chunk + bit + 1) <= |vals|
    ensures Stored(fields, masks, vals, 32 * chunk + bit + 1) ==
      if BitOf(masks[chunk], bit) then Stored(fields, masks, vals, 32 * chunk + bit)[Key(chunk, bit) := vals[SetBefore(masks, 32 * chunk + bit)]]
      else Stored(fields, masks, vals, 32 * chunk + bit)
  {
    var q := 32 * chunk + bit;
    DivMod32(chunk, bit, q);
    StoredStep(fields, masks, vals, q);
  }

  /** `ReadValues`: a block count, that many masks, then one value per set bit. */
  function Values(fields: map<int, nat>, d: seq<byte>): (r: Option<(map<int, nat>, nat)>)
    ensures r.Some? ==> 1 <= r.value.1 <= |d|
  {
    if |d| < 1 || |d| < 1 + 4 * d[0] as nat then None
    else
      var n := d[0] as nat;
      var masks := WordsAt(d, 1, n);
      var k := SetBefore(masks, 32 * n);
      if |d| < 1 + 4 * n + 4 * k then None
      else Some((Stored(fields, masks, WordsAt(d, 1 + 4 * n, k), 32 * n), 1 + 4 * n + 4 * k))
  }

  /** The bounds `Values` checks, once the chunk count n is read. */
  lemma ValuesBounds(fields: map<int, nat>, d: seq<byte>, n: nat)
    requires Values(fields, d).Some? && |d| >= 1 && n == d[0] as nat
    ensures n < U8 && 1 + 4 * n <= |d| && 1 + 4 * n + 4 * SetBefore(WordsAt(d, 1, n), 32 * n) <= |d|
  {
  }

  /** What `Values` reads, once the count, the masks and the values are known. */
  lemma ValuesParts(fields: map<int, nat>, d: seq<byte>, n: nat, masks: seq<nat>, vals: seq<nat>)
    requires Values(fields, d).Some? && |d| >= 1 && n == d[0] as nat && 1 + 4 * n <= |d|
    requires masks == WordsAt(d, 1, n) && 1 + 4 * n + 4 * |vals| <= |d| && |vals| == SetBefore(masks, 32 * n)
    requires vals == WordsAt(d, 1 + 4 * n, |vals|)
    ensures Values(fields, d).value.0 == Stored(fields, masks, vals, 32 * n)
    ensures Values(fields, d).value.1 == 1 + 4 * n + 4 * |vals|
  {
  }

  /**
   * Every value lands on key 0, so the update fields gain at most that one
   * key and it holds the last value read; all other values are lost.
   */
  lemma {:induction false} StoredAtZero(fields: map<int, nat>, masks: seq<nat>, vals: seq<nat>, q: nat)
    requires |masks| < U8 && q <= 32 * |masks| && SetBefore(masks, 32 * |masks|) <= |vals|
    ensures SetBefore(masks, q) <= |vals|
    ensures SetBefore(masks, q) == 0 ==> Stored(fields, masks, vals, q) == fields
    ensures SetBefore(masks, q) > 0 ==> Stored(fields, masks, vals, q) == fields[0 := vals[SetBefore(masks, q) - 1]]
  {
    SetBeforeMono(masks, q, 32 * |masks|);
    if q > 0 {
      StoredAtZero(fields, masks, vals, q - 1);
    }
  }

  /** Two set bits in one mask: the first value read is lost under the second. */
  lemma ValuesLoseAllButLast()
    ensures var d: seq<byte> := [1, 3, 0, 0, 0, 7, 0, 0, 0, 9, 0, 0, 0];
      Values(map[], d) == Some((map[0 := 9], 13))
  {
    var d: seq<byte> := [1, 3, 0, 0, 0, 7, 0, 0, 0, 9, 0, 0, 0];
    var masks := WordsAt(d, 1, 1);
    assert d[1..5] == [3, 0, 0, 0];
    assert FromLE([3, 0, 0, 0]) == 3 by {
      assert [3 as byte, 0, 0, 0][1..] == [0, 0, 0];
      assert [0 as byte, 0, 0][1..] == [0, 0];
      assert [0 as byte, 0][1..] == [0];
    }
    assert masks == [3];
    assert BitOf(3, 0) && BitOf(3, 1);
    assert forall j :: 2 <= j < 32 ==> !BitOf(3, j) by {
      forall j | 2 <= j < 32 ensures !BitOf(3, j) {
        assert BitOf(3, j) == BitOf(0, j - 2);
        ZeroBit(j - 2);
      }
    }
    SetBeforeMask3(masks, 32);
    var vals := WordsAt(d, 5, 2);
    assert d[9..13] == [9, 0, 0, 0];
    assert FromLE([9, 0, 0, 0]) == 9 by {
      assert [9 as byte, 0, 0, 0][1..] == [0, 0, 0];
      assert [0 as byte, 0, 0][1..] == [0, 0];
      assert [0 as byte, 0][1..] == [0];
    }
    assert vals[1] == 9;
    StoredAtZero(map[], masks, vals, 32);
  }

  lemma {:induction false} SetBeforeMask3(masks: seq<nat>, q: nat)
    requires masks == [3] && 2 <= q <= 32
    requires BitOf(3, 0) && BitOf(3, 1) && forall j :: 2 <= j < 32 ==> !BitOf(3, j)
    ensures SetBefore(masks, q) == 2
  {
    if q > 2 {
      SetBeforeMask3(masks, q - 1);
    } else {
      assert SetBefore(masks, 1) == 1;
    }
  }

  // ---------------------------------------------------------------------------
  // A whole entry (`UpdateData::Read`) and a whole packet (`UpdateDataPacket::Read`)

  /** The contents of an `UpdateData` that `Read` can set. */
  datatype Entry = Entry(words: Words, points: seq<Point>, fields: map<int, nat>, outOfRange: seq<nat>)

  /**
   * The members a default-initialised `UpdateData` holds before `Read`:
   * unspecified scalars, an unspecified movement member (whose flags decide
   * whether a spline is read) and an unspecified update type.
   */
  datatype Init = Init(words: Words, movement: Movement.MovementInfo, updateType: nat)

  /** The parts an entry of each update type holds, after the type byte. */
  datatype Part = Steps(steps: seq<Step>) | MovementPart | PlacementPart(flags: nat) | ValuesPart | OutOfRangePart

  /** A movement part expands into parts of rank 0. */
  function Rank(part: Part): nat
  {
    if part.MovementPart? then 1 else 0
  }

  function PartsRank(parts: seq<Part>): nat
  {
    if parts == [] then 0 else Rank(parts[0]) + PartsRank(parts[1..])
  }

  /**
   * `ReadMovement` after the 16-bit update flags: the else-if placement
   * chain, then the trailing blocks, each present when its flag is set.
   */
  function MovementLayout(flags: nat): (r: seq<Part>)
    ensures PartsRank(r) == 0
  {
    var r := [PlacementPart(flags), Steps(TrailingSteps(flags))];
    assert r[1..] == [r[1]] && r[1..][1..] == [];
    assert PartsRank(r[1..]) == Rank(r[1]) + PartsRank([]);
    r
  }

  function PartsOf(t: byte): seq<Part>
  {
    if t == UPDATETYPE_VALUES then [Steps([Packed(Guid)]), ValuesPart]
    else if t == UPDATETYPE_MOVEMENT then [Steps([Packed(Guid)]), MovementPart]
    else if t == UPDATETYPE_CREATE_OBJECT || t == UPDATETYPE_CREATE_OBJECT2 then [Steps([Packed(Guid), Word(TypeId, 1)]), MovementPart, ValuesPart]
    else if t == UPDATETYPE_OUT_OF_RANGE_OBJECTS then [OutOfRangePart]
    else []
  }

  /** A uint32 count and that many uint32 GUIDs. */
  function OutOfRange(d: seq<byte>): (r: Option<(seq<nat>, nat)>)
    ensures r.Some? ==> r.value.1 <= |d|
  {
    if |d| < 4 || |d| < 4 + 4 * FromLE(d[..4]) then None
    else Some((WordsAt(d, 4, FromLE(d[..4])), 4 + 4 * FromLE(d[..4])))
  }

  /** One part of an entry. */
  function PartAt(e: Entry, d: seq<byte>, part: Part, stale: Movement.MovementInfo): (r: Option<(Entry, nat)>)
    ensures r.Some? ==> r.value.1 <= |d|
    decreases Rank(part), 0
  {
    match part
    case Steps(steps) =>
      var f := Fill(e.words, d, steps);
      if f.None? then None else Some((e.(words := f.value.0), f.value.1))
    case MovementPart =>
      if |d| < 2 then None
      else
        var flags := FromLE(d[..2]);
        var m := Parts(e.(words := e.words[UpdateFlags := flags]), d[2..], MovementLayout(flags), stale);
        if m.None? then None else Some((m.value.0, 2 + m.value.1))
    case PlacementPart(flags) =>
      var pl := Placement(e.words, e.points, d, flags, MovementBlock(d), stale);
      if pl.None? then None else Some((e.(words := pl.value.0, points := pl.value.1), pl.value.2))
    case ValuesPart =>
      var v := Values(e.fields, d);
      if v.None? then None else Some((e.(fields := v.value.0), v.value.1))
    case OutOfRangePart =>
      var o := OutOfRange(d);
      if o.None? then None else Some((e.(outOfRange := e.outOfRange + o.value.0), o.value.1))
  }

  /** The parts in order. */
  function Parts(e: Entry, d: seq<byte>, parts: seq<Part>, stale: Movement.MovementInfo): (r: Option<(Entry, nat)>)
    ensures r.Some? ==> r.value.1 <= |d|
    decreases PartsRank(parts), |parts|
  {
    if parts == [] then Some((e, 0))
    else
      var h := PartAt(e, d, parts[0], stale);
      if h.None? then None
      else
        var t := Parts(h.value.0, d[h.value.1..], parts[1..], stale);
        if t.None? then None else Some((t.value.0, h.value.1 + t.value.1))
  }

  /** The first part, then the rest from where it ended. */
  lemma PartsStep(e: Entry, d: seq<byte>, parts: seq<Part>, stale: Movement.MovementInfo)
    requires parts != [] && Parts(e, d, parts, stale).Some?
    ensures var h := PartAt(e, d, parts[0], stale);
      h.Some? &&
      var t := Parts(h.value.0, d[h.value.1..], parts[1..], stale);
      var r := Parts(e, d, parts, stale).value;
      t.Some? && r.0 == t.value.0 && r.1 == h.value.1 + t.value.1
  {
  }

  /** A movement part reads the 2 flag bytes, stores them, then reads its layout from there. */
  lemma MovementPartParts(e: Entry, d: seq<byte>, stale: Movement.MovementInfo)
    requires PartAt(e, d, MovementPart, stale).Some?
    ensures |d| >= 2
    ensures var flags := FromLE(d[..2]);
      var m := Parts(e.(words := e.words[UpdateFlags := flags]), d[2..], MovementLayout(flags), stale);
      var r := PartAt(e, d, MovementPart, stale).value;
      m.Some? && r.0 == m.value.0 && r.1 == 2 + m.value.1
  {
  }

  /** What the parts after the update flags read: the placement, then the trailing steps from where it ended. */
  lemma MovementLayoutParts(e: Entry, sd: seq<byte>, flags: nat, stale: Movement.MovementInfo)
    requires Parts(e, sd, MovementLayout(flags), stale).Some?
    ensures var pl := Placement(e.words, e.points, sd, flags, MovementBlock(sd), stale);
      pl.Some? &&
      var t := Fill(pl.value.0, sd[pl.value.2..], TrailingSteps(flags));
      var r := Parts(e, sd, MovementLayout(flags), stale).value;
      t.Some? && r.0 == e.(words := t.value.0, points := pl.value.1) && r.1 == pl.value.2 + t.value.1
  {
    var layout := MovementLayout(flags);
    PartsStep(e, sd, layout, stale);
    var h := PartAt(e, sd, layout[0], stale).value;
    assert layout[1..] == [Steps(TrailingSteps(flags))];
    PartsSingle(h.0, sd[h.1..], Steps(TrailingSteps(flags)), stale);
  }

  /** `UpdateData::Read`: the type byte, then the parts of that type, over a default-initialised entry. */
  function DecodeEntry(init: Init, d: seq<byte>): (r: Option<(Entry, nat)>)
    ensures r.Some? ==> 1 <= r.value.1 <= |d|
  {
    if |d| < 1 then None
    else
      var r := Parts(Entry(init.words, [], map[], []), d[1..], PartsOf(d[0]), init.movement);
      if r.None? then None else Some((r.value.0, 1 + r.value.1))
  }

  /** Entries i..n-1 of a packet, each over its own default-initialised `UpdateData`. */
  function Entries(inits: nat -> Init, d: seq<byte>, i: nat, n: nat): (r: Option<(seq<Entry>, nat)>)
    ensures r.Some? ==> r.value.1 <= |d| && |r.value.0| == if i <= n then n - i else 0
    decreases n - i
  {
    if i >= n then Some(([], 0))
    else
      var h := DecodeEntry(inits(i), d);
      if h.None? then None
      else
        var t := Entries(inits, d[h.value.1..], i + 1, n);
        if t.None? then None else Some(([h.value.0] + t.value.0, h.value.1 + t.value.1))
  }

  /** Entry i, then entries i+1..n-1 from where it ended. */
  lemma EntriesStep(inits: nat -> Init, d: seq<byte>, i: nat, n: nat)
    requires i < n && Entries(inits, d, i, n).Some?
    ensures var h := DecodeEntry(inits(i), d);
      h.Some? &&
      var t := Entries(inits, d[h.value.1..], i + 1, n);
      var r := Entries(inits, d, i, n).value;
      t.Some? && r.0 == [h.value.0] + t.value.0 && r.1 == h.value.1 + t.value.1
  {
  }

  /**
   * Reading entry i from byte c1 on and moving to where it ended keeps
   * `prefix + Entries(...)` equal to the whole list `es`, ending at `end`.
   */
  lemma EntriesNext(inits: nat -> Init, d: seq<byte>, c1: nat, c2: nat, i: nat, n: nat, prefix: seq<Entry>, es: seq<Entry>, end: nat)
    requires c1 <= |d| && i < n && Entries(inits, d[c1..], i, n).Some?
    requires es == prefix + Entries(inits, d[c1..], i, n).value.0 && end == c1 + Entries(inits, d[c1..], i, n).value.1
    requires DecodeEntry(inits(i), d[c1..]).Some? && c2 == c1 + DecodeEntry(inits(i), d[c1..]).value.1
    ensures c2 <= |d| && Entries(inits, d[c2..], i + 1, n).Some?
    ensures es == prefix + [DecodeEntry(inits(i), d[c1..]).value.0] + Entries(inits, d[c2..], i + 1, n).value.0
    ensures end == c2 + Entries(inits, d[c2..], i + 1, n).value.1
  {
    EntriesStep(inits, d[c1..], i, n);
    var h := DecodeEntry(inits(i), d[c1..]).value;
    assert d[c1..][h.1..] == d[c2..];
  }

  /** `UpdateDataPacket::Read`: a uint32 count, then exactly that many entries in order. */
  function DecodePacket(inits: nat -> Init, d: seq<byte>): (r: Option<(seq<Entry>, nat)>)
    ensures r.Some? ==> 4 <= r.value.1 <= |d| && |r.value.0| == FromLE(d[..4])
  {
    if |d| < 4 then None
    else
      var t := Entries(inits, d[4..], 0, FromLE(d[..4]));
      if t.None? then None else Some((t.value.0, 4 + t.value.1))
  }

  // ---------------------------------------------------------------------------
  // Properties of the layout

  /** NEAR_OBJECTS and unknown update types consume only the type byte and set nothing. */
  lemma OtherTypesReadNothing(init: Init, d: seq<byte>)
    requires |d| >= 1 && d[0] >= UPDATETYPE_NEAR_OBJECTS
    ensures DecodeEntry(init, d) == Some((Entry(init.words, [], map[], []), 1))
  {
  }

  /** A single part consumes what that part consumes. */
  lemma PartsSingle(e: Entry, d: seq<byte>, part: Part, stale: Movement.MovementInfo)
    ensures Parts(e, d, [part], stale) == PartAt(e, d, part, stale)
  {
    assert [part][1..] == [];
  }

  /** An out-of-range entry holds exactly the announced number of GUIDs and consumes 5 + 4 * count bytes. */
  lemma OutOfRangeLayout(init: Init, d: seq<byte>)
    requires |d| >= 5 && d[0] == UPDATETYPE_OUT_OF_RANGE_OBJECTS
    ensures var count := FromLE(d[1..5]);
      DecodeEntry(init, d).Some? <==> |d| >= 5 + 4 * count
    ensures var count := FromLE(d[1..5]);
      DecodeEntry(init, d).Some? ==>
        DecodeEntry(init, d).value.1 == 5 + 4 * count &&
        DecodeEntry(init, d).value.0.outOfRange == WordsAt(d, 5, count) &&
        DecodeEntry(init, d).value.0 == Entry(init.words, [], map[], WordsAt(d, 5, count))
  {
    var e := Entry(init.words, [], map[], []);
    PartsSingle(e, d[1..], OutOfRangePart, init.movement);
    assert d[1..][..4] == d[1..5];
    var count := FromLE(d[1..5]);
    if |d| >= 5 + 4 * count {
      WordsAtShift(d, 1, 4, count);
    }
  }

  /** A VALUES entry sets the GUID from its packed form and touches neither the spline points nor the out-of-range list. */
  lemma ValuesEntryLayout(init: Init, d: seq<byte>)
    requires DecodeEntry(init, d).Some? && d[0] == UPDATETYPE_VALUES
    ensures |d| >= 2 && |d| >= 2 + PackedLen(d[1], 0)
    ensures var e := DecodeEntry(init, d).value.0;
      e.words == init.words[Guid := PackedValue(d[1], d[2..], 0)] && e.points == [] && e.outOfRange == []
  {
    var e := Entry(init.words, [], map[], []);
    var sd := d[1..];
    var parts := PartsOf(d[0]);
    assert parts == [Steps([Packed(Guid)]), ValuesPart];
    PartsStep(e, sd, parts, init.movement);
    var g := PartAt(e, sd, parts[0], init.movement).value;
    PackedGuidPart(e, sd, init.movement);
    assert parts[1..] == [ValuesPart];
    PartsSingle(g.0, sd[g.1..], ValuesPart, init.movement);
    assert sd[0] == d[1] && sd[1..] == d[2..];
  }

  /** A part made of the packed GUID alone stores it into the GUID slot. */
  lemma PackedGuidPart(e: Entry, d: seq<byte>, stale: Movement.MovementInfo)
    requires PartAt(e, d, Steps([Packed(Guid)]), stale).Some?
    ensures |d| >= 1 + PackedLen(d[0], 0)
    ensures PartAt(e, d, Steps([Packed(Guid)]), stale).value.0 == e.(words := e.words[Guid := PackedValue(d[0], d[1..], 0)])
  {
    assert [Packed(Guid)][1..] == [];
  }

  /** The placement chain: a living object never reads the position blocks, and the transport GUID comes only from `UPDATEFLAG_POSITION`. */
  lemma PlacementChain(flags: nat)
    ensures BitOf(flags, POSITION_BIT) ==> PlacementSteps(flags) == PositionSteps
    ensures !BitOf(flags, POSITION_BIT) && BitOf(flags, STATIONARY_POSITION_BIT) ==> PlacementSteps(flags) == StationarySteps
    ensures !BitOf(flags, POSITION_BIT) && !BitOf(flags, STATIONARY_POSITION_BIT) ==> PlacementSteps(flags) == []
    ensures Touches(PlacementSteps(flags), TransportGuid) <==> BitOf(flags, POSITION_BIT)
    ensures !Touches(LivingSteps, TransportGuid)
  {
    assert Stores(PositionSteps[0], TransportGuid);
  }

  /** Each trailing block is present exactly when its own flag is set, independently of the others. */
  lemma TrailingIndependent(flags: nat)
    ensures Skip(4) in TrailingSteps(flags) <==> BitOf(flags, UNKNOWN_BIT)
    ensures Word(LowGuid, 4) in TrailingSteps(flags) <==> BitOf(flags, LOWGUID_BIT)
    ensures Packed(TargetGuid) in TrailingSteps(flags) <==> BitOf(flags, HAS_TARGET_BIT)
    ensures Word(TransportTimer, 4) in TrailingSteps(flags) <==> BitOf(flags, TRANSPORT_BIT)
    ensures Word(VehicleId, 4) in TrailingSteps(flags) <==> BitOf(flags, VEHICLE_BIT)
    ensures Word(GoRotation, 8) in TrailingSteps(flags) <==> BitOf(flags, ROTATION_BIT)
  {
    var a, b, c := Block(flags, UNKNOWN_BIT, [Skip(4)]), Block(flags, LOWGUID_BIT, [Word(LowGuid, 4)]), Block(flags, HAS_TARGET_BIT, [Packed(TargetGuid)]);
    var e, f, g := Block(flags, TRANSPORT_BIT, [Word(TransportTimer, 4)]), Block(flags, VEHICLE_BIT, [Word(VehicleId, 4), Word(VehicleOrientation, 4)]), Block(flags, ROTATION_BIT, [Word(GoRotation, 8)]);
    assert TrailingSteps(flags) == a + b + c + e + f + g;
    assert forall x :: x in TrailingSteps(flags) <==> x in a || x in b || x in c || x in e || x in f || x in g;
  }

  /** The facing chain: the angle wins over the target, the target over the point. */
  lemma FacingChain(sf: nat)
    ensures BitOf(sf, FINAL_ANGLE_BIT) ==> FacingSteps(sf) == [Word(SplineFacingAngle, 4)]
    ensures !BitOf(sf, FINAL_ANGLE_BIT) && BitOf(sf, FINAL_TARGET_BIT) ==> FacingSteps(sf) == [Word(SplineFacingTargetGuid, 8)]
    ensures |FacingSteps(sf)| <= 3
    ensures Touches(FacingSteps(sf), SplineFacingAngle) ==> !Touches(FacingSteps(sf), SplineFacingTargetGuid) && !Touches(FacingSteps(sf), SplineFacingPointX)
  {
  }

  /**
   * The spline is decided by the flags of the entry's own movement member,
   * which `Read` never fills: when those flags do not enable a spline, the
   * spline points stay as they were, whatever the packet's movement block says.
   */
  lemma SplineFromStaleFlags(e: Entry, d: seq<byte>, stale: Movement.MovementInfo)
    requires PartAt(e, d, MovementPart, stale).Some?
    requires !BitOf(Movement.Value(stale, Movement.Flags), SPLINE_ENABLED_BIT)
    ensures PartAt(e, d, MovementPart, stale).value.0.points == e.points
  {
    var flags := FromLE(d[..2]);
    var sd := d[2..];
    MovementLayoutParts(e.(words := e.words[UpdateFlags := flags]), sd, flags, stale);
    var block := MovementBlock(sd);
    if BitOf(flags, LIVING_BIT) {
      var rest := sd[block.value..];
      AfterSpeedsParts(Fill(e.words[UpdateFlags := flags], rest, LivingSteps), e.points, rest, false);
    }
  }

  /** Reading n words from c bytes into a suffix is reading them from the whole. */
  lemma WordsAtShift(d: seq<byte>, c: nat, j: nat, n: nat)
    requires c + j + 4 * n <= |d|
    ensures WordsAt(d[c..], j, n) == WordsAt(d, c + j, n)
  {
    forall k | 0 <= k < n
      ensures WordsAt(d[c..], j, n)[k] == WordsAt(d, c + j, n)[k]
    {
      assert d[c..][j + 4 * k..j + 4 * k + 4] == d[c + j + 4 * k..c + j + 4 * k + 4];
    }
  }

  /** Reading n points from c bytes into a suffix is reading them from the whole. */
  lemma PointsAtShift(d: seq<byte>, c: nat, j: nat, n: nat)
    requires c + j + 12 * n <= |d|
    ensures PointsAt(d[c..], j, n) == PointsAt(d, c + j, n)
  {
    forall k | 0 <= k < n
      ensures PointsAt(d[c..], j, n)[k] == PointsAt(d, c + j, n)[k]
    {
      var i := j + 12 * k;
      assert d[c..][i..i + 4] == d[c + i..c + i + 4];
      assert d[c..][i + 4..i + 8] == d[c + i + 4..c + i + 8];
      assert d[c..][i + 8..i + 12] == d[c + i + 8..c + i + 12];
    }
  }

  // ---------------------------------------------------------------------------
  // The mutable objects

  class UpdateData {
    /** The scalar members, by slot. */
    var words: Words
    /** `splinePoints`. */
    var splinePoints: seq<Point>
    /** `updateFields`. */
    var updateFields: map<int, nat>
    /** `outOfRangeGuids`. */
    var outOfRangeGuids: seq<nat>
    /** The `movement` member: `ReadMovement` never stores into it. */
    const movement: Movement.MovementInfo
    /** `updateType`: nothing ever assigns it. */
    const updateType: nat

    /** `UpdateData data;`: unspecified scalars and movement, empty containers. */
    constructor (init: Init)
      ensures words == init.words && movement == init.movement && updateType == init.updateType
      ensures splinePoints == [] && updateFields == map[] && outOfRangeGuids == []
    {
      words := init.words;
      movement := init.movement;
      updateType := init.updateType;
      splinePoints := [];
      updateFields := map[];
      outOfRangeGuids := [];
    }

    /** What `Read` can have set. */
    function Contents(): Entry
      reads this
    {
      Entry(words, splinePoints, updateFields, outOfRangeGuids)
    }

    /** One straight-line read into its slot. */
    method ReadStep(p: Packet, st: Step)
      requires p.kind == World && p.ctr <= |p.data| && StepAt(words, p.data[p.ctr..], st).Some?
      modifies this`words, p
      ensures words == StepAt(old(words), old(p.data)[old(p.ctr)..], st).value.0
      ensures p.ctr == old(p.ctr) + StepAt(old(words), old(p.data)[old(p.ctr)..], st).value.1 && p.data == old(p.data)
    {
      ghost var d := p.data[p.ctr..];
      match st
      case Word(s, n) =>
        assert d[..n] == p.data[p.ctr..p.ctr + n];
        var v := p.Read(n);
        words := words[s := v];
      case Skip(n) =>
        var _ := p.Read(n);
      case Packed(s) =>
        assert d[0] == p.data[p.ctr] && d[1..] == p.data[p.ctr + 1..];
        var g := p.ReadPackedGUID();
        words := words[s := g];
    }

    /** The listed straight-line reads in order. */
    method ReadSteps(p: Packet, steps: seq<Step>)
      requires p.kind == World && p.ctr <= |p.data| && Fill(words, p.data[p.ctr..], steps).Some?
      modifies this`words, p
      ensures words == Fill(old(words), old(p.data)[old(p.ctr)..], steps).value.0
      ensures p.ctr == old(p.ctr) + Fill(old(words), old(p.data)[old(p.ctr)..], steps).value.1 && p.data == old(p.data)
      decreases |steps|
    {
      if steps != [] {
        ghost var d, c := p.data, p.ctr;
        ReadStep(p, steps[0]);
        assert d[c..][p.ctr - c..] == d[p.ctr..];
        ReadSteps(p, steps[1..]);
      }
    }

    /** `splinePoints.resize(count)` followed by the loop that fills every point. */
    method ReadPoints(p: Packet, count: nat)
      requires p.ctr + 12 * count <= |p.data|
      modifies this`splinePoints, p
      ensures splinePoints == PointsAt(old(p.data), old(p.ctr), count)
      ensures p.ctr == old(p.ctr) + 12 * count && p.data == old(p.data)
    {
      splinePoints := Resize(splinePoints, count);
      ghost var d, c := p.data, p.ctr;
      var i := 0;
      while i < count
        invariant 0 <= i <= count && |splinePoints| == count
        invariant p.ctr == c + 12 * i && p.data == d
        invariant forall k :: 0 <= k < i ==> splinePoints[k] == PointAt(d, c + 12 * k)
      {
        var x := p.Read(4);
        var y := p.Read(4);
        var z := p.Read(4);
        splinePoints := splinePoints[i := Point(x, y, z)];
        i := i + 1;
      }
    }

    /** The spline flags, the facing chain and the timing words. */
    method ReadSplineHead(p: Packet)
      requires p.kind == World && p.ctr <= |p.data| && SplineHead(words, p.data[p.ctr..]).Some?
      modifies this`words, p
      ensures words == SplineHead(old(words), old(p.data)[old(p.ctr)..]).value.0
      ensures p.ctr == old(p.ctr) + SplineHead(old(words), old(p.data)[old(p.ctr)..]).value.1 && p.data == old(p.data)
    {
      ghost var d, c := p.data, p.ctr;
      assert d[c..][..4] == d[c..c + 4];
      var sf := p.Read(4);
      SplineHeadParts(words, d[c..], sf);
      words := words[SplineFlags := sf];
      assert d[c..][4..] == d[p.ctr..];
      ReadSteps(p, FacingSteps(sf) + SplineTiming);
    }

    /** The point count, the points and the last spline words. */
    method ReadSplineTail(p: Packet)
      requires p.kind == World && p.ctr <= |p.data| && SplineTail(words, p.data[p.ctr..]).Some?
      modifies this`words, this`splinePoints, p
      ensures var r := SplineTail(old(words), old(p.data)[old(p.ctr)..]).value;
        words == r.0 && splinePoints == r.1 && p.ctr == old(p.ctr) + r.2 && p.data == old(p.data)
    {
      ghost var d, c, w0 := p.data, p.ctr, words;
      ghost var dc := d[c..];
      assert |dc| >= 4 && 4 + 12 * FromLE(dc[..4]) <= |dc| by {
        SplineTailParts(w0, dc, FromLE(dc[..4]));
      }
      var count := ReadCountedPoints(p, dc);
      SplineTailParts(w0, dc, count);
      ghost var rest := dc[4 + 12 * count..];
      assert rest == p.data[p.ctr..];
      ghost var f := Fill(w0, rest, SplineEnd).value;
      ReadSteps(p, SplineEnd);
      assert words == f.0 && p.ctr == c + 4 + 12 * count + f.1;
    }

    /** The uint32 point count and the points after it; `dc` is the data from the cursor on. */
    method ReadCountedPoints(p: Packet, ghost dc: seq<byte>) returns (count: nat)
      requires p.ctr <= |p.data| && dc == p.data[p.ctr..] && 4 <= |dc| && 4 + 12 * FromLE(dc[..4]) <= |dc|
      modifies this`splinePoints, p
      ensures count == FromLE(dc[..4]) && splinePoints == PointsAt(dc, 4, count)
      ensures p.ctr == old(p.ctr) + 4 + 12 * count && p.data == old(p.data)
    {
      ghost var d, c := p.data, p.ctr;
      assert dc[..4] == d[c..c + 4];
      count := p.Read(4);
      ReadPoints(p, count);
      PointsAtShift(d, c, 4, count);
    }

    /** The spline block of a living object. */
    method ReadSpline(p: Packet)
      requires p.kind == World && p.ctr <= |p.data| && Spline(words, p.data[p.ctr..]).Some?
      modifies this`words, this`splinePoints, p
      ensures var r := Spline(old(words), old(p.data)[old(p.ctr)..]).value;
        words == r.0 && splinePoints == r.1 && p.ctr == old(p.ctr) + r.2 && p.data == old(p.data)
    {
      ghost var d, c := p.data, p.ctr;
      SplineParts(words, d[c..]);
      ghost var h := SplineHead(words, d[c..]).value;
      ReadSplineHead(p);
      assert d[c..][h.1..] == d[p.ctr..];
      ReadSplineTail(p);
    }

    /**
     * A living object: `movement.Read(packet)` calls the static reader and
     * drops the packet it returns, so the movement member stays as it was.
     * `sd` is the data from the cursor on.
     */
    method ReadLiving(p: Packet, ghost block: Option<nat>, ghost sd: seq<byte>)
      requires p.kind == World && 6 <= |p.data| && p.ctr <= |p.data| && sd == p.data[p.ctr..]
      requires block == MovementBlock(sd) && block.Some?
      requires Living(words, splinePoints, sd[block.value..], movement).Some?
      modifies this`words, this`splinePoints, p
      ensures var r := Living(old(words), old(splinePoints), sd[block.value..], movement).value;
        words == r.0 && splinePoints == r.1 && p.ctr == old(p.ctr) + block.value + r.2 && p.data == old(p.data)
    {
      DiscardMovement(p, movement, sd, block);
      assert sd[block.value..] == p.data[p.ctr..];
      ReadAfterBlock(p, sd[block.value..]);
    }

    /** The speeds and the spline after the movement block; `rest` is the data from the cursor on. */
    method ReadAfterBlock(p: Packet, ghost rest: seq<byte>)
      requires p.kind == World && p.ctr <= |p.data| && rest == p.data[p.ctr..]
      requires Living(words, splinePoints, rest, movement).Some?
      modifies this`words, this`splinePoints, p
      ensures var r := Living(old(words), old(splinePoints), rest, movement).value;
        words == r.0 && splinePoints == r.1 && p.ctr == old(p.ctr) + r.2 && p.data == old(p.data)
    {
      ghost var spline := BitOf(Movement.Value(movement, Movement.Flags), SPLINE_ENABLED_BIT);
      AfterSpeedsParts(Fill(words, rest, LivingSteps), splinePoints, rest, spline);
      ghost var f := Fill(words, rest, LivingSteps).value;
      ReadSteps(p, LivingSteps);
      assert rest[f.1..] == p.data[p.ctr..];
      if BitOf(Movement.Value(movement, Movement.Flags), SPLINE_ENABLED_BIT) {
        ReadSpline(p);
      }
    }

    /** The placement chain of `ReadMovement`; `sd` is the data from the cursor on. */
    method ReadPlacement(p: Packet, flags: nat, ghost block: Option<nat>, ghost sd: seq<byte>)
      requires p.kind == World && 6 <= |p.data| && p.ctr <= |p.data| && sd == p.data[p.ctr..] && block == MovementBlock(sd)
      requires Placement(words, splinePoints, sd, flags, block, movement).Some?
      modifies this`words, this`splinePoints, p
      ensures var r := Placement(old(words), old(splinePoints), sd, flags, block, movement).value;
        words == r.0 && splinePoints == r.1 && p.ctr == old(p.ctr) + r.2 && p.data == old(p.data)
    {
      if BitOf(flags, LIVING_BIT) {
        ReadLiving(p, block, sd);
      } else if BitOf(flags, POSITION_BIT) {
        ReadSteps(p, PositionSteps);
      } else if BitOf(flags, STATIONARY_POSITION_BIT) {
        ReadSteps(p, StationarySteps);
      }
    }

    /** `ReadMovement`: the 16-bit update flags, then the rest of its layout. */
    method ReadMovement(p: Packet)
      requires p.kind == World && 6 <= |p.data| && p.ctr <= |p.data|
      requires PartAt(Contents(), p.data[p.ctr..], MovementPart, movement).Some?
      modifies this`words, this`splinePoints, p
      ensures var r := PartAt(old(Contents()), old(p.data)[old(p.ctr)..], MovementPart, movement).value;
        Contents() == r.0 && p.ctr == old(p.ctr) + r.1 && p.data == old(p.data)
    {
      ghost var d, c, e := p.data, p.ctr, Contents();
      MovementPartParts(e, d[c..], movement);
      assert d[c..][..2] == d[c..c + 2] && d[c..][2..] == d[c + 2..];
      var flags := p.Read(2);
      words := words[UpdateFlags := flags];
      assert Contents() == e.(words := e.words[UpdateFlags := flags]);
      ReadMovementRest(p, flags, d[c + 2..]);
    }

    /** `ReadMovement` after the update flags: the placement chain, then the trailing blocks; `sd` is the data from the cursor on. */
    method ReadMovementRest(p: Packet, flags: nat, ghost sd: seq<byte>)
      requires p.kind == World && 6 <= |p.data| && p.ctr <= |p.data| && sd == p.data[p.ctr..]
      requires Parts(Contents(), sd, MovementLayout(flags), movement).Some?
      modifies this`words, this`splinePoints, p
      ensures var r := Parts(old(Contents()), sd, MovementLayout(flags), movement).value;
        Contents() == r.0 && p.ctr == old(p.ctr) + r.1 && p.data == old(p.data)
    {
      ghost var e := Contents();
      MovementLayoutParts(e, sd, flags, movement);
      ghost var pl := Placement(e.words, e.points, sd, flags, MovementBlock(sd), movement).value;
      ReadPlacement(p, flags, MovementBlock(sd), sd);
      assert sd[pl.2..] == p.data[p.ctr..];
      ReadTrailing(p, flags, sd[pl.2..]);
    }

    /** The trailing blocks of `ReadMovement`; `rest` is the data from the cursor on. */
    method ReadTrailing(p: Packet, flags: nat, ghost rest: seq<byte>)
      requires p.kind == World && p.ctr <= |p.data| && rest == p.data[p.ctr..]
      requires Fill(words, rest, TrailingSteps(flags)).Some?
      modifies this`words, p
      ensures var t := Fill(old(words), rest, TrailingSteps(flags)).value;
        words == t.0 && p.ctr == old(p.ctr) + t.1 && p.data == old(p.data)
    {
      ReadSteps(p, TrailingSteps(flags));
    }

    /** `ReadValues`: the masks, then the nested loop over every mask bit. */
    method ReadValues(p: Packet)
      requires p.ctr <= |p.data| && Values(updateFields, p.data[p.ctr..]).Some?
      modifies this`updateFields, p
      ensures updateFields == Values(old(updateFields), old(p.data)[old(p.ctr)..]).value.0
      ensures p.ctr == old(p.ctr) + Values(old(updateFields), old(p.data)[old(p.ctr)..]).value.1 && p.data == old(p.data)
    {
      ghost var d, c, f0 := p.data, p.ctr, updateFields;
      ghost var dd := d[c..];
      ValuesBounds(f0, dd, dd[0] as nat);
      var blockCount, updateMask := ReadValuesHeader(p, dd);
      ghost var vals := WordsAt(dd, 1 + 4 * blockCount, SetBefore(updateMask, 32 * blockCount));
      ReadValuesBody(p, updateMask, dd, c, vals);
      ValuesParts(f0, dd, blockCount, updateMask, vals);
    }

    /**
     * The value loops of `ReadValues`, once the masks are read: vals are
     * the words after them, one per set bit, and dd the data from c on.
     */
    method ReadValuesBody(p: Packet, updateMask: seq<nat>, ghost dd: seq<byte>, ghost c: nat, ghost vals: seq<nat>)
      requires |updateMask| < U8 && c <= |p.data| && dd == p.data[c..] && p.ctr == c + 1 + 4 * |updateMask|
      requires 1 + 4 * |updateMask| + 4 * SetBefore(updateMask, 32 * |updateMask|) <= |dd|
      requires vals == WordsAt(dd, 1 + 4 * |updateMask|, SetBefore(updateMask, 32 * |updateMask|))
      modifies this`updateFields, p
      ensures updateFields == Stored(old(updateFields), updateMask, vals, 32 * |updateMask|)
      ensures p.ctr == old(p.ctr) + 4 * |vals| && p.data == old(p.data)
    {
      WordsAtShift(p.data, c, 1 + 4 * |updateMask|, |vals|);
      ReadChunks(p, updateMask, vals, updateFields, p.ctr);
    }

    /** The outer loop of `ReadValues`: every mask chunk in turn. */
    method ReadChunks(p: Packet, updateMask: seq<nat>, ghost vals: seq<nat>, ghost f0: map<int, nat>, ghost base: nat)
      requires |updateMask| < U8 && SetBefore(updateMask, 32 * |updateMask|) <= |vals|
      requires base + 4 * |vals| <= |p.data| && vals == WordsAt(p.data, base, |vals|)
      requires p.ctr == base && updateFields == f0
      modifies this`updateFields, p
      ensures p.data == old(p.data) && p.ctr == base + 4 * SetBefore(updateMask, 32 * |updateMask|)
      ensures updateFields == Stored(f0, updateMask, vals, 32 * |updateMask|)
    {
      ghost var d := p.data;
      var chunkI := 0;
      while chunkI < |updateMask|
        invariant 0 <= chunkI <= |updateMask| && p.data == d
        invariant p.ctr == base + 4 * SetBefore(updateMask, 32 * chunkI)
        invariant updateFields == Stored(f0, updateMask, vals, 32 * chunkI)
      {
        ReadChunk(p, updateMask, chunkI, vals, f0, base);
        chunkI := chunkI + 1;
      }
    }

    /** The inner loop of `ReadValues`: the 32 bits of mask chunkI, one value read per set bit. */
    method ReadChunk(p: Packet, updateMask: seq<nat>, chunkI: nat, ghost vals: seq<nat>, ghost f0: map<int, nat>, ghost base: nat)
      requires |updateMask| < U8 && chunkI < |updateMask| && SetBefore(updateMask, 32 * |updateMask|) <= |vals|
      requires base + 4 * |vals| <= |p.data| && vals == WordsAt(p.data, base, |vals|)
      requires p.ctr == base + 4 * SetBefore(updateMask, 32 * chunkI)
      requires updateFields == Stored(f0, updateMask, vals, 32 * chunkI)
      modifies this`updateFields, p
      ensures p.data == old(p.data) && p.ctr == base + 4 * SetBefore(updateMask, 32 * chunkI + 32)
      ensures updateFields == Stored(f0, updateMask, vals, 32 * chunkI + 32)
    {
      ghost var d := p.data;
      var byteI := 0;
      while byteI < 32
        invariant 0 <= byteI <= 32 && p.data == d
        invariant p.ctr == base + 4 * SetBefore(updateMask, 32 * chunkI + byteI)
        invariant updateFields == Stored(f0, updateMask, vals, 32 * chunkI + byteI)
      {
        ReadBit(p, updateMask, chunkI, byteI, vals, f0, base);
        byteI := byteI + 1;
      }
    }

    /** One step of the inner loop of `ReadValues`: a value is read when bit byteI of mask chunkI is set. */
    method ReadBit(p: Packet, updateMask: seq<nat>, chunkI: nat, byteI: nat, ghost vals: seq<nat>, ghost f0: map<int, nat>, ghost base: nat)
      requires |updateMask| < U8 && chunkI < |updateMask| && byteI < 32 && SetBefore(updateMask, 32 * |updateMask|) <= |vals|
      requires base + 4 * |vals| <= |p.data| && vals == WordsAt(p.data, base, |vals|)
      requires p.ctr == base + 4 * SetBefore(updateMask, 32 * chunkI + byteI)
      requires updateFields == Stored(f0, updateMask, vals, 32 * chunkI + byteI)
      modifies this`updateFields, p
      ensures p.data == old(p.data) && p.ctr == base + 4 * SetBefore(updateMask, 32 * chunkI + byteI + 1)
      ensures updateFields == Stored(f0, updateMask, vals, 32 * chunkI + byteI + 1)
    {
      StoredBit(f0, updateMask, vals, chunkI, byteI);
      if BitOf(updateMask[chunkI], byteI) {
        var v := ReadVal(p, vals, base, SetBefore(updateMask, 32 * chunkI + byteI));
        updateFields := updateFields[Key(chunkI, byteI) := v];
      }
    }

    /** The value for set bit number k: the word k of vals, read at the cursor. */
    static method ReadVal(p: Packet, ghost vals: seq<nat>, ghost base: nat, ghost k: nat) returns (v: nat)
      requires k < |vals| && base + 4 * |vals| <= |p.data| && vals == WordsAt(p.data, base, |vals|)
      requires p.ctr == base + 4 * k
      modifies p
      ensures v == vals[k] && p.ctr == base + 4 * (k + 1) && p.data == old(p.data)
    {
      v := p.Read(4);
    }

    /** `GetUpdateField`: `operator[]` inserts a missing field with value 0. */
    method GetUpdateField(field: int) returns (v: nat)
      modifies this`updateFields
      ensures field in old(updateFields) ==> v == old(updateFields)[field] && updateFields == old(updateFields)
      ensures field !in old(updateFields) ==> v == 0 && updateFields == old(updateFields)[field := 0]
      ensures HasUpdateField(field)
    {
      if field !in updateFields {
        updateFields := updateFields[field := 0];
      }
      v := updateFields[field];
    }

    /** `HasUpdateField`. */
    predicate HasUpdateField(field: int)
      reads this
    {
      field in updateFields
    }

    /** `GetUpdateType`: the member no code path assigns. */
    function GetUpdateType(): nat
      reads this
    {
      updateType
    }

    /** `GetSplinePoint(index)`, unchecked. */
    function GetSplinePoint(index: int): Point
      reads this
      requires 0 <= index < |splinePoints|
    {
      splinePoints[index]
    }

    /** `GetOutOfRangeGUID(index)`, unchecked. */
    function GetOutOfRangeGuid(index: nat): nat
      reads this
      requires index < |outOfRangeGuids|
    {
      outOfRangeGuids[index]
    }

    /** One arm of the switch in `Read`: the given part, through the reader for it. */
    method ReadPart(p: Packet, part: Part)
      requires p.kind == World && 6 <= |p.data| && p.ctr <= |p.data|
      requires PartAt(Contents(), p.data[p.ctr..], part, movement).Some?
      modifies this, p
      ensures var r := PartAt(old(Contents()), old(p.data)[old(p.ctr)..], part, movement).value;
        Contents() == r.0 && p.ctr == old(p.ctr) + r.1 && p.data == old(p.data)
    {
      match part
      case Steps(steps) => ReadSteps(p, steps);
      case MovementPart => ReadMovement(p);
      case PlacementPart(flags) => ReadPlacement(p, flags, MovementBlock(p.data[p.ctr..]), p.data[p.ctr..]);
      case ValuesPart => ReadValues(p);
      case OutOfRangePart => ReadOutOfRange(p);
    }

    /**
     * `UpdateData::Read`: a new entry, default-initialised as `init` says,
     * filled from the type byte on as `DecodeEntry` describes.
     */
    static method Read(p: Packet, init: Init) returns (data: UpdateData)
      requires p.kind == World && 6 <= |p.data| && p.ctr <= |p.data|
      requires DecodeEntry(init, p.data[p.ctr..]).Some?
      modifies p
      ensures fresh(data) && p.data == old(p.data)
      ensures data.movement == init.movement && data.updateType == init.updateType
      ensures var r := DecodeEntry(init, old(p.data)[old(p.ctr)..]).value;
        data.Contents() == r.0 && p.ctr == old(p.ctr) + r.1
    {
      ghost var d, c := p.data, p.ctr;
      data := new UpdateData(init);
      assert d[c..c + 1] == [d[c]];
      var t := p.Read(1);
      assert d[c..][1..] == d[p.ctr..];
      assert PartsOf(d[c]) == PartsOf(t as byte);
      if t == UPDATETYPE_VALUES as nat {
        data.ReadParts(p, [Steps([Packed(Guid)]), ValuesPart]);
      } else if t == UPDATETYPE_MOVEMENT as nat {
        data.ReadParts(p, [Steps([Packed(Guid)]), MovementPart]);
      } else if t == UPDATETYPE_CREATE_OBJECT as nat || t == UPDATETYPE_CREATE_OBJECT2 as nat {
        data.ReadParts(p, [Steps([Packed(Guid), Word(TypeId, 1)]), MovementPart, ValuesPart]);
      } else if t == UPDATETYPE_OUT_OF_RANGE_OBJECTS as nat {
        data.ReadParts(p, [OutOfRangePart]);
      }
    }

    /** The arms of one case of the switch in `Read`, in order. */
    method ReadParts(p: Packet, parts: seq<Part>)
      requires p.kind == World && 6 <= |p.data| && p.ctr <= |p.data|
      requires Parts(Contents(), p.data[p.ctr..], parts, movement).Some?
      modifies this, p
      ensures var r := Parts(old(Contents()), old(p.data)[old(p.ctr)..], parts, movement).value;
        Contents() == r.0 && p.ctr == old(p.ctr) + r.1 && p.data == old(p.data)
      decreases |parts|
    {
      if parts != [] {
        ghost var d, c := p.data, p.ctr;
        PartsStep(Contents(), d[c..], parts, movement);
        ReadPart(p, parts[0]);
        assert d[c..][p.ctr - c..] == d[p.ctr..];
        ReadParts(p, parts[1..]);
      }
    }

    /** The out-of-range loop: count uint32 values pushed in order. */
    method ReadOutOfRange(p: Packet)
      requires p.ctr <= |p.data| && OutOfRange(p.data[p.ctr..]).Some?
      modifies this`outOfRangeGuids, p
      ensures outOfRangeGuids == old(outOfRangeGuids) + OutOfRange(old(p.data)[old(p.ctr)..]).value.0
      ensures p.ctr == old(p.ctr) + OutOfRange(old(p.data)[old(p.ctr)..]).value.1 && p.data == old(p.data)
    {
      ghost var d, c, g0 := p.data, p.ctr, outOfRangeGuids;
      assert d[c..][..4] == d[c..c + 4];
      var guidCount := p.Read(4);
      var i := 0;
      while i < guidCount
        invariant 0 <= i <= guidCount && p.data == d && p.ctr == c + 4 + 4 * i
        invariant outOfRangeGuids == g0 + WordsAt(d[c..], 4, i)
      {
        assert d[c..][4 + 4 * i..4 + 4 * i + 4] == d[p.ctr..p.ctr + 4];
        var g := p.Read(4);
        outOfRangeGuids := outOfRangeGuids + [g];
        i := i + 1;
      }
    }
  }

  /** `UpdateDataPacket`: the entries of one update packet, in order. */
  class UpdateDataPacket {
    /** `Entries`. */
    var entries: seq<UpdateData>

    constructor ()
      ensures entries == []
    {
      entries := [];
    }

    /**
     * `UpdateDataPacket::Read`: a uint32 block count, then that many entries,
     * each read into its own new `UpdateData` (default-initialised as
     * `inits(i)` says).
     */
    static method Read(p: Packet, inits: nat -> Init) returns (pkt: UpdateDataPacket)
      requires p.kind == World && 6 <= |p.data| && p.ctr <= |p.data|
      requires DecodePacket(inits, p.data[p.ctr..]).Some?
      modifies p
      ensures fresh(pkt) && p.data == old(p.data)
      ensures var r := DecodePacket(inits, old(p.data)[old(p.ctr)..]).value;
        |pkt.entries| == |r.0| && p.ctr == old(p.ctr) + r.1 &&
        forall i :: 0 <= i < |r.0| ==> fresh(pkt.entries[i]) && pkt.entries[i].Contents() == r.0[i]
    {
      ghost var d, c := p.data, p.ctr;
      pkt := new UpdateDataPacket();
      assert d[c..][..4] == d[c..c + 4];
      var blockCount := p.Read(4);
      assert d[c..][4..] == d[p.ctr..];
      pkt.ReadEntries(p, inits, blockCount);
    }

    /** The loop of `Read`: blockCount entries in order, each pushed onto `Entries`. */
    method ReadEntries(p: Packet, inits: nat -> Init, blockCount: nat)
      requires p.kind == World && 6 <= |p.data| && p.ctr <= |p.data| && entries == []
      requires Entries(inits, p.data[p.ctr..], 0, blockCount).Some?
      modifies this, p
      ensures p.data == old(p.data)
      ensures var r := Entries(inits, old(p.data)[old(p.ctr)..], 0, blockCount).value;
        |entries| == |r.0| && p.ctr == old(p.ctr) + r.1 &&
        forall i :: 0 <= i < |r.0| ==> fresh(entries[i]) && entries[i].Contents() == r.0[i]
    {
      ghost var d, c := p.data, p.ctr;
      ghost var all := Entries(inits, d[c..], 0, blockCount).value;
      var i := 0;
      while i < blockCount
        invariant 0 <= i <= blockCount && p.data == d && c <= p.ctr <= |d|
        invariant Entries(inits, d[p.ctr..], i, blockCount).Some?
        invariant var rest := Entries(inits, d[p.ctr..], i, blockCount).value;
          i <= |all.0| && all.0[i..] == rest.0 && c + all.1 == p.ctr + rest.1
        invariant |entries| == i
        invariant forall j :: 0 <= j < i ==> fresh(entries[j]) && entries[j].Contents() == all.0[j]
      {
        var e := ReadNext(p, inits, i, blockCount, all.0, c + all.1);
        entries := entries + [e];
        i := i + 1;
      }
    }

    /** One pass of the loop of `Read`: entry i, read into a new `UpdateData`. */
    static method ReadNext(p: Packet, inits: nat -> Init, i: nat, n: nat, ghost es: seq<Entry>, ghost end: nat)
      returns (e: UpdateData)
      requires p.kind == World && 6 <= |p.data| && p.ctr <= |p.data| && i < n
      requires Entries(inits, p.data[p.ctr..], i, n).Some?
      requires i <= |es| && es[i..] == Entries(inits, p.data[p.ctr..], i, n).value.0 && end == p.ctr + Entries(inits, p.data[p.ctr..], i, n).value.1
      modifies p
      ensures fresh(e) && p.data == old(p.data) && old(p.ctr) <= p.ctr <= |p.data|
      ensures Entries(inits, p.data[p.ctr..], i + 1, n).Some?
      ensures i < |es| && es[i] == e.Contents() && es[i + 1..] == Entries(inits, p.data[p.ctr..], i + 1, n).value.0
      ensures end == p.ctr + Entries(inits, p.data[p.ctr..], i + 1, n).value.1
    {
      ghost var d, c1 := p.data, p.ctr;
      EntriesStep(inits, d[c1..], i, n);
      e := UpdateData.Read(p, inits(i));
      EntriesNext(inits, d, c1, p.ctr, i, n, es[..i], es, end);
      assert es[i + 1..] == es[i..][1..];
    }

    /** `EntryCount`. */
    function EntryCount(): (n: nat)
      reads this
      ensures n == |entries|
    {
      |entries|
    }

    /** `GetEntry(entry)`, unchecked. */
    function GetEntry(entry: nat): UpdateData
      reads this
      requires entry < |entries|
    {
      entries[entry]
    }
  }

  /**
   * `movement.Read(packet)`: the static reader consumes the movement block
   * and the packet it builds is dropped.
   */
  method DiscardMovement(p: Packet, init: Movement.MovementInfo, ghost sd: seq<byte>, ghost block: Option<nat>)
    requires p.kind == World && 6 <= |p.data| && p.ctr <= |p.data| && sd == p.data[p.ctr..]
    requires block == MovementBlock(sd) && block.Some?
    modifies p
    ensures p.ctr == old(p.ctr) + block.value && p.data == old(p.data)
  {
    var dropped := Movement.Read(p, init);
  }

  /** `std::vector::resize` with value-initialised (zero) new points. */
  function Resize(pts: seq<Point>, n: nat): (r: seq<Point>)
    ensures |r| == n && forall k :: 0 <= k < n && k < |pts| ==> r[k] == pts[k]
  {
    if n <= |pts| then pts[..n] else pts + seq(n - |pts|, _ => Point(0, 0, 0))
  }

  /** The mask loop of `ReadValues`: blockCount int32 masks. */
  method ReadMasks(p: Packet, blockCount: nat) returns (masks: seq<nat>)
    requires p.ctr + 4 * blockCount <= |p.data|
    modifies p
    ensures masks == WordsAt(old(p.data), old(p.ctr), blockCount)
    ensures p.ctr == old(p.ctr) + 4 * blockCount && p.data == old(p.data)
  {
    masks := seq(blockCount, _ => 0);
    ghost var d, c := p.data, p.ctr;
    var i := 0;
    while i < blockCount
      invariant 0 <= i <= blockCount && |masks| == blockCount && p.ctr == c + 4 * i && p.data == d
      invariant forall k :: 0 <= k < i ==> masks[k] == FromLE(d[c + 4 * k..c + 4 * k + 4])
    {
      var m := p.Read(4);
      masks := masks[i := m];
      i := i + 1;
    }
  }

  /** The chunk count and the masks that open the update-field section; `dd` is the data from the cursor on. */
  method ReadValuesHeader(p: Packet, ghost dd: seq<byte>) returns (blockCount: nat, updateMask: seq<nat>)
    requires p.ctr <= |p.data| && dd == p.data[p.ctr..] && |dd| >= 1 && 1 + 4 * dd[0] as nat <= |dd|
    modifies p
    ensures blockCount == dd[0] as nat && updateMask == WordsAt(dd, 1, blockCount)
    ensures p.ctr == old(p.ctr) + 1 + 4 * blockCount && p.data == old(p.data)
  {
    ghost var d, c := p.data, p.ctr;
    assert d[c..c + 1] == [dd[0]];
    blockCount := p.Read(1);
    updateMask := ReadMasks(p, blockCount);
    WordsAtShift(d, c, 1, blockCount);
  }

  lemma {:induction false} SetBeforeMono(masks: seq<nat>, q: nat, r: nat)
    requires q <= r <= 32 * |masks|
    ensures SetBefore(masks, q) <= SetBefore(masks, r)
    decreases r - q
  {
    if q < r {
      SetBeforeMono(masks, q, r - 1);
    }
  }
}

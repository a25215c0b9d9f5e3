// VRBaseCharacter.h: the replication structs of the VR character. The
// character's movement (FRepMovementVRCharacter) is sent as three packed flag
// bits followed by the location, rotation and velocities; the seat state
// (FVRSeatedCharacterInfo) is reset by Clear and ClearTempVals and sent with
// a layout that depends on whether the character sits; and a replicated
// capsule height resizes the capsule when it differs from the current one.
//
// An archive is modelled as a sequence of fields. Each field carries the
// value its encoder writes: the value itself when it fits the encoding, else
// the value clamped to the encoding's range. Whether a vector or transform
// fits, and what it is clamped to, are inputs (`Quantizers`), because the
// compressed encodings are not modelled; the fixed-point float's range of
// 256 is the source's.

module BaseCharacter {
  import opened EngineTypes
  import opened UnrealMath
  import opened PhysicsReplication

  /** EVRConjoinedMovementModes: only the walking mode, which Clear selects, is named here. */
  datatype ConjoinedMovementMode = MoveWalking | MoveOther(code: nat)

  /** One step of an archive. */
  datatype NetField =
    | Bits(count: nat, value: bv8)                         // Ar.SerializeBits(&v, count)
    | PackedVector(v: Vector, vectorLevel: VectorQuantization)  // SerializeQuantizedVector
    | CompressedRotator(r: Rotator, rotatorLevel: RotatorQuantization)
    | NetTransform(t: Transform)                           // FTransform_NetQuantize::NetSerialize
    | FixedFloat(x: real)                                  // Write/ReadFixedCompressedFloat<256, 16>
    | ObjectRef(obj: Option<ObjectId>)                     // Ar << UObject pointer
    | MovementModeByte(mode: ConjoinedMovementMode)        // Ar << enum

  /**
   * The engine's quantizers, whose encodings this model does not spell out:
   * whether a vector or transform fits its encoding, and what is written in
   * its place when it does not (the value clamped to the encoding's range).
   */
  datatype Quantizers = Quantizers(
    vectorFits: (Vector, VectorQuantization) -> bool,
    clampedVector: (Vector, VectorQuantization) -> Vector,
    transformFits: Transform -> bool,
    clampedTransform: Transform -> Transform)

  /** The range of WriteFixedCompressedFloat<256, 16>: 256 either side of zero. */
  const FixedFloatMax := 256.0

  /** Whether a value fits the encoding of its step; the steps that do not quantize always fit. */
  predicate Fits(f: NetField, q: Quantizers)
  {
    match f
    case PackedVector(v, level) => q.vectorFits(v, level)
    case NetTransform(t) => q.transformFits(t)
    case FixedFloat(x) => -FixedFloatMax <= x <= FixedFloatMax
    case _ => true
  }

  function WrittenVector(v: Vector, level: VectorQuantization, q: Quantizers): Vector
  {
    if q.vectorFits(v, level) then v else q.clampedVector(v, level)
  }

  function WrittenTransform(t: Transform, q: Quantizers): Transform
  {
    if q.transformFits(t) then t else q.clampedTransform(t)
  }

  /** WriteFixedCompressedFloat clamps a value outside its range to the nearer end. */
  function WrittenFixedFloat(x: real): (w: real)
    ensures -FixedFloatMax <= w <= FixedFloatMax
    ensures -FixedFloatMax <= x <= FixedFloatMax ==> w == x
    ensures x > FixedFloatMax ==> w == FixedFloatMax
  {
    Clamp(x, -FixedFloatMax, FixedFloatMax)
  }

  /** What a step puts on the wire: the value itself when it fits, otherwise what its encoder clamps it to. */
  function Written(f: NetField, q: Quantizers): (w: NetField)
    ensures Fits(f, q) ==> w == f
    ensures w.PackedVector? == f.PackedVector? && w.NetTransform? == f.NetTransform? && w.FixedFloat? == f.FixedFloat?
    ensures f.PackedVector? ==> w.vectorLevel == f.vectorLevel
    ensures !f.PackedVector? && !f.NetTransform? && !f.FixedFloat? ==> w == f
  {
    match f
    case PackedVector(v, level) => PackedVector(WrittenVector(v, level, q), level)
    case NetTransform(t) => NetTransform(WrittenTransform(t, q))
    case FixedFloat(x) => FixedFloat(WrittenFixedFloat(x))
    case _ => f
  }

  /** Each step of a layout as its encoder writes it. */
  function WrittenAll(fields: seq<NetField>, q: Quantizers): (w: seq<NetField>)
    ensures |w| == |fields| && forall i :: 0 <= i < |fields| ==> w[i] == Written(fields[i], q)
  {
    seq(|fields|, i requires 0 <= i < |fields| => Written(fields[i], q))
  }

  /** bOutSuccess accumulated over a run of steps: every value fits its encoding. */
  predicate StepsSucceeded(fields: seq<NetField>, q: Quantizers)
  {
    forall i :: 0 <= i < |fields| ==> Fits(fields[i], q)
  }

  /** When every value fits, the encoders write the layout unchanged. */
  lemma SucceededStepsAreWrittenExactly(fields: seq<NetField>, q: Quantizers)
    ensures StepsSucceeded(fields, q) ==> WrittenAll(fields, q) == fields
  {
  }

  /** What saving produces: the fields written, bOutSuccess, and NetSerialize's return value. */
  datatype SaveResult = SaveResult(fields: seq<NetField>, bOutSuccess: bool, returned: bool)

  /**
   * What loading produces, or Malformed when the archive does not hold the
   * expected layout. Reading a well-formed field reports success: the
   * engine's readers report no range error, only the writers do.
   */
  datatype LoadResult<T> = Malformed | Loaded(value: T, rest: seq<NetField>, bOutSuccess: bool, returned: bool)

  // ---------------------------------------------------------------------
  // FRepMovementVRCharacter::NetSerialize

  /** The three flags packed ahead of the movement. */
  datatype MovementFlags = MovementFlags(bSimulatedPhysicSleep: bool, bRepPhysics: bool, bJustTeleported: bool)

  function BoolBit(b: bool): bv8
  {
    if b then 1 else 0
  }

  /** The flag byte: sleeping in bit 0, physics in bit 1, teleported in bit 2. */
  function PackFlags(f: MovementFlags): (bits: bv8)
    ensures bits < 8
  {
    (BoolBit(f.bSimulatedPhysicSleep) << 0) | (BoolBit(f.bRepPhysics) << 1) | (BoolBit(f.bJustTeleported) << 2)
  }

  /** Reading the flag byte back: each flag is set when its bit is. */
  function UnpackFlags(bits: bv8): MovementFlags
  {
    MovementFlags(bits & (1 << 0) != 0, bits & (1 << 1) != 0, bits & (1 << 2) != 0)
  }

  /** Packing then unpacking gives back the three flags. */
  lemma UnpackPackFlags(f: MovementFlags)
    ensures UnpackFlags(PackFlags(f)) == f
  {
  }

  /** Every three-bit value is the packing of the flags it unpacks to. */
  lemma PackUnpackFlags(bits: bv8)
    requires bits < 8
    ensures PackFlags(UnpackFlags(bits)) == bits
  {
  }

  /** FRepMovementVRCharacter: the engine's FRepMovement plus the teleport flag. */
  datatype RepMovementVRCharacter = RepMovementVRCharacter(movement: RepMovement, bJustTeleported: bool)

  function FlagsOf(m: RepMovementVRCharacter): MovementFlags
  {
    MovementFlags(m.movement.bSimulatedPhysicSleep, m.movement.bRepPhysics, m.bJustTeleported)
  }

  /** The quantization NetSerialize uses: the owner's replicated movement's, else the engine default's. */
  function BaseSettings(ownerMovement: Option<RepMovement>): RepMovement
  {
    if ownerMovement.Some? then ownerMovement.value else EngineRepMovementDefault
  }

  /**
   * The values NetSerialize hands to the archive, in order: the flag bits,
   * then location, rotation and linear velocity, then the angular velocity
   * only when physics is replicated.
   */
  function MovementFields(m: RepMovementVRCharacter, base: RepMovement): seq<NetField>
  {
    [Bits(3, PackFlags(FlagsOf(m))),
     PackedVector(m.movement.location, base.locationQuantizationLevel),
     CompressedRotator(m.movement.rotation, base.rotationQuantizationLevel),
     PackedVector(m.movement.linearVelocity, base.velocityQuantizationLevel)]
    + (if m.movement.bRepPhysics then [PackedVector(m.movement.angularVelocity, base.velocityQuantizationLevel)] else [])
  }

  /**
   * Saving: each value through its encoder. bOutSuccess says every value
   * fit; a value that did not is sent clamped. NetSerialize returns true
   * whatever bOutSuccess is.
   */
  function SaveMovement(m: RepMovementVRCharacter, base: RepMovement, q: Quantizers): (s: SaveResult)
    ensures |s.fields| == if m.movement.bRepPhysics then 5 else 4
    ensures s.fields[0] == Bits(3, PackFlags(FlagsOf(m)))
    ensures s.returned
    ensures s.bOutSuccess <==>
              q.vectorFits(m.movement.location, base.locationQuantizationLevel)
              && q.vectorFits(m.movement.linearVelocity, base.velocityQuantizationLevel)
              && (m.movement.bRepPhysics ==> q.vectorFits(m.movement.angularVelocity, base.velocityQuantizationLevel))
    ensures s.bOutSuccess ==> s.fields == MovementFields(m, base)
  {
    var fields := MovementFields(m, base);
    var ok := StepsSucceeded(fields, q);
    assert ok <==> Fits(fields[1], q) && Fits(fields[3], q) && (m.movement.bRepPhysics ==> Fits(fields[4], q));
    SucceededStepsAreWrittenExactly(fields, q);
    SaveResult(WrittenAll(fields, q), ok, true)
  }

  predicate IsVectorAt(wire: seq<NetField>, i: nat, level: VectorQuantization)
  {
    i < |wire| && wire[i].PackedVector? && wire[i].vectorLevel == level
  }

  /** The layout a loader with these base settings expects at the front of `wire`. */
  predicate MovementLayout(wire: seq<NetField>, base: RepMovement)
  {
    |wire| >= 4 && wire[0].Bits? && wire[0].count == 3
    && IsVectorAt(wire, 1, base.locationQuantizationLevel)
    && wire[2].CompressedRotator? && wire[2].rotatorLevel == base.rotationQuantizationLevel
    && IsVectorAt(wire, 3, base.velocityQuantizationLevel)
    && (UnpackFlags(wire[0].value & 7).bRepPhysics ==> IsVectorAt(wire, 4, base.velocityQuantizationLevel))
  }

  /**
   * Loading into `prior`: the three flags, location, rotation and linear
   * velocity are overwritten; the angular velocity only when the received
   * flags say physics is replicated. The quantization levels of the struct
   * itself are not on the wire and stay as they were.
   */
  function LoadMovement(wire: seq<NetField>, prior: RepMovementVRCharacter, base: RepMovement)
    : (r: LoadResult<RepMovementVRCharacter>)
    ensures r.Loaded? <==> MovementLayout(wire, base)
    ensures r.Loaded? ==> r.returned && r.bOutSuccess && SameQuantization(r.value.movement, prior.movement)
    ensures r.Loaded? && !r.value.movement.bRepPhysics ==> r.value.movement.angularVelocity == prior.movement.angularVelocity
  {
    if !MovementLayout(wire, base) then Malformed
    else
      var f := UnpackFlags(wire[0].value & 7);
      var n := if f.bRepPhysics then 5 else 4;
      var movement := prior.movement.(
        bSimulatedPhysicSleep := f.bSimulatedPhysicSleep,
        bRepPhysics := f.bRepPhysics,
        location := wire[1].v,
        rotation := wire[2].r,
        linearVelocity := wire[3].v,
        angularVelocity := if f.bRepPhysics then wire[4].v else prior.movement.angularVelocity);
      Loaded(RepMovementVRCharacter(movement, f.bJustTeleported), wire[n..], true, true)
  }

  /** The movement as the encoders send it: each quantized vector clamped when it does not fit. */
  function MovementSent(m: RepMovementVRCharacter, base: RepMovement, q: Quantizers): RepMovementVRCharacter
  {
    m.(movement := m.movement.(
      location := WrittenVector(m.movement.location, base.locationQuantizationLevel, q),
      linearVelocity := WrittenVector(m.movement.linearVelocity, base.velocityQuantizationLevel, q),
      angularVelocity := WrittenVector(m.movement.angularVelocity, base.velocityQuantizationLevel, q)))
  }

  /** What a receiver holding `prior` ends up with when `m` arrives. */
  function MovementReceived(m: RepMovementVRCharacter, prior: RepMovementVRCharacter): RepMovementVRCharacter
  {
    RepMovementVRCharacter(
      prior.movement.(
        bSimulatedPhysicSleep := m.movement.bSimulatedPhysicSleep,
        bRepPhysics := m.movement.bRepPhysics,
        location := m.movement.location,
        rotation := m.movement.rotation,
        linearVelocity := m.movement.linearVelocity,
        angularVelocity := if m.movement.bRepPhysics then m.movement.angularVelocity else prior.movement.angularVelocity),
      m.bJustTeleported)
  }

  /**
   * The round trip: loading what was saved, with the same base settings,
   * delivers the movement as sent (clamped where a value did not fit) and
   * consumes exactly the saved fields; when the sender's bOutSuccess holds,
   * that is every field of the original movement.
   */
  lemma {:induction false} MovementRoundTrip(
    m: RepMovementVRCharacter, prior: RepMovementVRCharacter, base: RepMovement, q: Quantizers, rest: seq<NetField>)
    ensures var s := SaveMovement(m, base, q);
            LoadMovement(s.fields + rest, prior, base) == Loaded(MovementReceived(MovementSent(m, base, q), prior), rest, true, true)
    ensures SaveMovement(m, base, q).bOutSuccess ==>
              LoadMovement(SaveMovement(m, base, q).fields + rest, prior, base) == Loaded(MovementReceived(m, prior), rest, true, true)
  {
    var s := SaveMovement(m, base, q);
    var wire := s.fields + rest;
    UnpackPackFlags(FlagsOf(m));
    assert PackFlags(FlagsOf(m)) & 7 == PackFlags(FlagsOf(m));
    var n := |s.fields|;
    assert wire[..n] == s.fields;
    assert wire[n..] == rest;
    if s.bOutSuccess {
      assert MovementReceived(MovementSent(m, base, q), prior) == MovementReceived(m, prior);
    }
  }

  /** A receiver that already held the sent movement is left with it exactly. */
  lemma MovementReceivedBySender(m: RepMovementVRCharacter)
    ensures MovementReceived(m, m) == m
  {
  }

  // ---------------------------------------------------------------------
  // FVRSeatedCharacterInfo

  /** The fields of FVRSeatedCharacterInfo, as one value. */
  datatype SeatState = SeatState(
    allowedRadius: real,
    allowedRadiusThreshold: real,
    bIsOverThreshold: bool,
    bOriginalControlRotation: bool,
    bSitting: bool,
    bWasSeated: bool,
    bWasOverLimit: bool,
    bZeroToHead: bool,
    currentThresholdScaler: real,
    initialRelCameraTransform: Transform,
    postSeatedMovementMode: ConjoinedMovementMode,
    seatParent: Option<ObjectId>,
    storedTargetTransform: Transform)

  /** The state Clear (and so the constructor) leaves. */
  const ClearedSeat := SeatState(
    40.0, 20.0, false, false, false, false, false, true, 0.0,
    IdentityTransform, MoveWalking, None, IdentityTransform)

  /** ClearTempVals: the four per-seating temporaries are reset, nothing else changes. */
  function TempValsCleared(s: SeatState): (r: SeatState)
    ensures !r.bWasOverLimit && !r.bWasSeated && !r.bOriginalControlRotation && r.currentThresholdScaler == 0.0
    ensures r.(bWasOverLimit := s.bWasOverLimit, bWasSeated := s.bWasSeated,
               bOriginalControlRotation := s.bOriginalControlRotation,
               currentThresholdScaler := s.currentThresholdScaler) == s
  {
    s.(bWasOverLimit := false, bWasSeated := false, bOriginalControlRotation := false, currentThresholdScaler := 0.0)
  }

  /** A cleared seat has no temporaries left to clear. */
  lemma ClearedSeatHasNoTempVals()
    ensures TempValsCleared(ClearedSeat) == ClearedSeat
  {
  }

  /**
   * The values NetSerialize hands to the archive: the sitting and
   * zero-to-head bits; the camera transform and the two radii only while
   * sitting; then the stored target transform, the seat parent and the
   * post-seated movement mode.
   */
  function SeatFields(s: SeatState): seq<NetField>
  {
    [Bits(1, BoolBit(s.bSitting)), Bits(1, BoolBit(s.bZeroToHead))]
    + (if s.bSitting then [NetTransform(s.initialRelCameraTransform), FixedFloat(s.allowedRadius), FixedFloat(s.allowedRadiusThreshold)] else [])
    + [NetTransform(s.storedTargetTransform), ObjectRef(s.seatParent), MovementModeByte(s.postSeatedMovementMode)]
  }

  /** Only the transforms and the radii can fail to fit their encoders. */
  lemma SeatStepsSucceeded(s: SeatState, q: Quantizers)
    ensures StepsSucceeded(SeatFields(s), q) <==>
              (s.bSitting ==> Fits(SeatFields(s)[2], q) && Fits(SeatFields(s)[3], q) && Fits(SeatFields(s)[4], q))
              && Fits(SeatFields(s)[|SeatFields(s)| - 3], q)
  {
    var f := SeatFields(s);
    var last := |f| - 3;
    assert Fits(f[0], q) && Fits(f[1], q) && Fits(f[last + 1], q) && Fits(f[last + 2], q);
    if s.bSitting {
      assert |f| == 8;
    } else {
      assert |f| == 5;
    }
  }

  /**
   * Saving: each value through its encoder; a radius beyond 256 is sent as
   * 256 (or -256) and clears bOutSuccess. NetSerialize returns bOutSuccess.
   */
  function SaveSeat(s: SeatState, q: Quantizers): (r: SaveResult)
    ensures |r.fields| == if s.bSitting then 8 else 5
    ensures r.returned == r.bOutSuccess
    ensures r.bOutSuccess <==>
              (s.bSitting ==> q.transformFits(s.initialRelCameraTransform)
                              && -FixedFloatMax <= s.allowedRadius <= FixedFloatMax
                              && -FixedFloatMax <= s.allowedRadiusThreshold <= FixedFloatMax)
              && q.transformFits(s.storedTargetTransform)
    ensures r.bOutSuccess ==> r.fields == SeatFields(s)
    ensures r.fields[|r.fields| - 3..]
            == [NetTransform(WrittenTransform(s.storedTargetTransform, q)), ObjectRef(s.seatParent), MovementModeByte(s.postSeatedMovementMode)]
  {
    var fields := SeatFields(s);
    var ok := StepsSucceeded(fields, q);
    var last := |fields| - 3;
    SeatStepsSucceeded(s, q);
    SucceededStepsAreWrittenExactly(fields, q);
    var w := WrittenAll(fields, q);
    assert w[last..] == [Written(fields[last], q), fields[last + 1], fields[last + 2]];
    SaveResult(w, ok, ok)
  }

  /** The layout a loader expects at the front of `wire`. */
  predicate SeatLayout(wire: seq<NetField>)
  {
    |wire| >= 2 && wire[0].Bits? && wire[0].count == 1 && wire[1].Bits? && wire[1].count == 1
    && var n := if wire[0].value & 1 != 0 then 5 else 2;
    |wire| >= n + 3
    && (n == 5 ==> wire[2].NetTransform? && wire[3].FixedFloat? && wire[4].FixedFloat?)
    && wire[n].NetTransform? && wire[n + 1].ObjectRef? && wire[n + 2].MovementModeByte?
  }

  /** Loading into `prior`: only the fields on the wire change. */
  function LoadSeat(wire: seq<NetField>, prior: SeatState): (r: LoadResult<SeatState>)
    ensures r.Loaded? <==> SeatLayout(wire)
    ensures r.Loaded? ==> r.returned && r.bOutSuccess
    ensures r.Loaded? ==> TempValsCleared(r.value) == TempValsCleared(prior).(
              bSitting := r.value.bSitting, bZeroToHead := r.value.bZeroToHead,
              initialRelCameraTransform := r.value.initialRelCameraTransform,
              allowedRadius := r.value.allowedRadius, allowedRadiusThreshold := r.value.allowedRadiusThreshold,
              storedTargetTransform := r.value.storedTargetTransform, seatParent := r.value.seatParent,
              postSeatedMovementMode := r.value.postSeatedMovementMode)
    ensures r.Loaded? && !r.value.bSitting ==>
              r.value.initialRelCameraTransform == prior.initialRelCameraTransform
              && r.value.allowedRadius == prior.allowedRadius
              && r.value.allowedRadiusThreshold == prior.allowedRadiusThreshold
  {
    if !SeatLayout(wire) then Malformed
    else
      var sitting := wire[0].value & 1 != 0;
      var n := if sitting then 5 else 2;
      var s := prior.(
        bSitting := sitting,
        bZeroToHead := wire[1].value & 1 != 0,
        initialRelCameraTransform := if sitting then wire[2].t else prior.initialRelCameraTransform,
        allowedRadius := if sitting then wire[3].x else prior.allowedRadius,
        allowedRadiusThreshold := if sitting then wire[4].x else prior.allowedRadiusThreshold,
        storedTargetTransform := wire[n].t,
        seatParent := wire[n + 1].obj,
        postSeatedMovementMode := wire[n + 2].mode);
      Loaded(s, wire[n + 3..], true, true)
  }

  /** The seat state as the encoders send it: transforms and radii clamped when they do not fit. */
  function SeatSent(s: SeatState, q: Quantizers): SeatState
  {
    s.(initialRelCameraTransform := WrittenTransform(s.initialRelCameraTransform, q),
       allowedRadius := WrittenFixedFloat(s.allowedRadius),
       allowedRadiusThreshold := WrittenFixedFloat(s.allowedRadiusThreshold),
       storedTargetTransform := WrittenTransform(s.storedTargetTransform, q))
  }

  /** What a receiver holding `prior` ends up with when `s` arrives. */
  function SeatReceived(s: SeatState, prior: SeatState): SeatState
  {
    prior.(
      bSitting := s.bSitting,
      bZeroToHead := s.bZeroToHead,
      initialRelCameraTransform := if s.bSitting then s.initialRelCameraTransform else prior.initialRelCameraTransform,
      allowedRadius := if s.bSitting then s.allowedRadius else prior.allowedRadius,
      allowedRadiusThreshold := if s.bSitting then s.allowedRadiusThreshold else prior.allowedRadiusThreshold,
      storedTargetTransform := s.storedTargetTransform,
      seatParent := s.seatParent,
      postSeatedMovementMode := s.postSeatedMovementMode)
  }

  /**
   * The seat round trip: loading what was saved delivers the state as sent
   * (clamped where a value did not fit) and consumes exactly the saved
   * fields; when the sender's bOutSuccess holds, that is every sent field of
   * the original state.
   */
  lemma {:induction false} SeatRoundTrip(s: SeatState, prior: SeatState, q: Quantizers, rest: seq<NetField>)
    ensures var r := SaveSeat(s, q);
            LoadSeat(r.fields + rest, prior) == Loaded(SeatReceived(SeatSent(s, q), prior), rest, true, true)
    ensures SaveSeat(s, q).bOutSuccess ==>
              LoadSeat(SaveSeat(s, q).fields + rest, prior) == Loaded(SeatReceived(s, prior), rest, true, true)
  {
    var r := SaveSeat(s, q);
    var wire := r.fields + rest;
    var n := |r.fields|;
    assert wire[..n] == r.fields;
    assert wire[n..] == rest;
    assert BoolBit(s.bSitting) & 1 != 0 <==> s.bSitting;
    assert BoolBit(s.bZeroToHead) & 1 != 0 <==> s.bZeroToHead;
    if r.bOutSuccess {
      assert SeatReceived(SeatSent(s, q), prior) == SeatReceived(s, prior);
    }
  }

  /** A seated radius beyond the encoding's range fails the save and arrives as the range's end. */
  lemma LargeRadiusArrivesClamped(s: SeatState, prior: SeatState, q: Quantizers)
    requires s.bSitting && s.allowedRadius > FixedFloatMax
    ensures !SaveSeat(s, q).bOutSuccess
    ensures LoadSeat(SaveSeat(s, q).fields, prior).value.allowedRadius == FixedFloatMax
  {
    SeatRoundTrip(s, prior, q, []);
    assert SaveSeat(s, q).fields + [] == SaveSeat(s, q).fields;
  }

  /** A receiver that already held the sent state is left with it exactly. */
  lemma SeatReceivedBySender(s: SeatState)
    ensures SeatReceived(s, s) == s
  {
  }

  /** ClearTempVals changes nothing that is sent: the temporaries are local to the machine. */
  lemma TempValsAreNotSent(s: SeatState, q: Quantizers)
    ensures SaveSeat(TempValsCleared(s), q) == SaveSeat(s, q)
  {
  }

  /** A cleared seat is sent as: not sitting, zero to head, identity target, no parent, walking. */
  lemma ClearedSeatOnTheWire(q: Quantizers)
    requires q.transformFits(IdentityTransform)
    ensures SaveSeat(ClearedSeat, q).fields
            == [Bits(1, 0), Bits(1, 1), NetTransform(IdentityTransform), ObjectRef(None), MovementModeByte(MoveWalking)]
    ensures SaveSeat(ClearedSeat, q).bOutSuccess
  {
  }

  /** FVRSeatedCharacterInfo, whose Clear and ClearTempVals assign its fields in place. */
  class SeatedCharacterInfo {
    var allowedRadius: real
    var allowedRadiusThreshold: real
    var bIsOverThreshold: bool
    var bOriginalControlRotation: bool
    var bSitting: bool
    var bWasSeated: bool
    var bWasOverLimit: bool
    var bZeroToHead: bool
    var currentThresholdScaler: real
    var initialRelCameraTransform: Transform
    var postSeatedMovementMode: ConjoinedMovementMode
    var seatParent: Option<ObjectId>
    var storedTargetTransform: Transform

    function Snapshot(): SeatState
      reads this
    {
      SeatState(allowedRadius, allowedRadiusThreshold, bIsOverThreshold, bOriginalControlRotation, bSitting,
                bWasSeated, bWasOverLimit, bZeroToHead, currentThresholdScaler, initialRelCameraTransform,
                postSeatedMovementMode, seatParent, storedTargetTransform)
    }

    /** The constructor calls Clear. */
    constructor()
      ensures Snapshot() == ClearedSeat
    {
      new;
      Clear();
    }

    /** Clear: not seated, default radii of 40 and 20, zero to head, identity transforms, no seat parent, walking. */
    method Clear()
      modifies this
      ensures Snapshot() == ClearedSeat
    {
      bSitting := false;
      bIsOverThreshold := false;
      bWasOverLimit := false;
      bZeroToHead := true;
      storedTargetTransform := IdentityTransform;
      initialRelCameraTransform := IdentityTransform;
      bWasSeated := false;
      bOriginalControlRotation := false;
      allowedRadius := 40.0;
      allowedRadiusThreshold := 20.0;
      currentThresholdScaler := 0.0;
      seatParent := None;
      postSeatedMovementMode := MoveWalking;
    }

    /** ClearTempVals: the four temporaries reset, every other field unchanged. */
    method ClearTempVals()
      modifies this
      ensures Snapshot() == TempValsCleared(old(Snapshot()))
    {
      bWasOverLimit := false;
      bWasSeated := false;
      bOriginalControlRotation := false;
      currentThresholdScaler := 0.0;
    }

    /** NetSerialize on a saving archive. */
    method NetSerializeSave(q: Quantizers) returns (fields: seq<NetField>, bOutSuccess: bool, returned: bool)
      ensures SaveSeat(Snapshot(), q) == SaveResult(fields, bOutSuccess, returned)
    {
      var r := SaveSeat(Snapshot(), q);
      fields, bOutSuccess, returned := r.fields, r.bOutSuccess, r.bOutSuccess;
    }

    /** NetSerialize on a loading archive; an archive without the seat layout is refused, changing nothing. */
    method NetSerializeLoad(wire: seq<NetField>) returns (rest: seq<NetField>, bOutSuccess: bool, returned: bool)
      modifies this
      ensures var r := LoadSeat(wire, old(Snapshot()));
              if r.Loaded? then Snapshot() == r.value && rest == r.rest && bOutSuccess == r.bOutSuccess && returned == r.returned
              else Snapshot() == old(Snapshot()) && rest == wire && !bOutSuccess && !returned
    {
      var r := LoadSeat(wire, Snapshot());
      if r.Malformed? {
        return wire, false, false;
      }
      Take(r.value);
      rest, bOutSuccess, returned := r.rest, r.bOutSuccess, r.returned;
    }

    /** Writes a whole seat state into the fields. */
    method Take(v: SeatState)
      modifies this
      ensures Snapshot() == v
    {
      allowedRadius, allowedRadiusThreshold, bIsOverThreshold := v.allowedRadius, v.allowedRadiusThreshold, v.bIsOverThreshold;
      bOriginalControlRotation, bSitting, bWasSeated := v.bOriginalControlRotation, v.bSitting, v.bWasSeated;
      bWasOverLimit, bZeroToHead, currentThresholdScaler := v.bWasOverLimit, v.bZeroToHead, v.currentThresholdScaler;
      initialRelCameraTransform, postSeatedMovementMode := v.initialRelCameraTransform, v.postSeatedMovementMode;
      seatParent, storedTargetTransform := v.seatParent, v.storedTargetTransform;
    }
  }

  // ---------------------------------------------------------------------
  // AVRBaseCharacter::OnRep_CapsuleHeight

  /**
   * The half height OnRep_CapsuleHeight asks SetCharacterHalfHeightVR for,
   * if any: only with capsule replication on, a capsule root, a positive
   * replicated height, and one not nearly equal to the current one.
   * `capsuleHalfHeight` is None when the root is not a capsule.
   */
  function OnRepCapsuleHeight(vrReplicateCapsuleHeight: bool, capsuleHalfHeight: Option<real>, replicatedHeight: real)
    : (resizeTo: Option<real>)
    ensures resizeTo.Some? <==>
              (vrReplicateCapsuleHeight && capsuleHalfHeight.Some? && replicatedHeight > 0.0
               && !IsNearlyEqual(replicatedHeight, capsuleHalfHeight.value, SmallNumber))
    ensures resizeTo.Some? ==> resizeTo.value == replicatedHeight
  {
    if !vrReplicateCapsuleHeight then None
    else if capsuleHalfHeight.None? then None
    else if replicatedHeight > 0.0 && !IsNearlyEqual(replicatedHeight, capsuleHalfHeight.value, SmallNumber) then
      Some(replicatedHeight)
    else None
  }

  /** Once the capsule has the replicated height, a repeated notification resizes nothing. */
  lemma CapsuleResizeSettles(vrReplicateCapsuleHeight: bool, currentHalfHeight: real, replicatedHeight: real)
    requires OnRepCapsuleHeight(vrReplicateCapsuleHeight, Some(currentHalfHeight), replicatedHeight).Some?
    ensures OnRepCapsuleHeight(vrReplicateCapsuleHeight, Some(replicatedHeight), replicatedHeight).None?
  {
  }
}

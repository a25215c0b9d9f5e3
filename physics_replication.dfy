// GrippablePhysicsReplication.h: the movement record the grippables send to
// the server while they are thrown client-authoritatively (FRepMovementVR),
// the per-actor throwing state (FVRClientAuthReplicationData), and the
// server-side physics replication that drives bodies towards the replicated
// targets (FPhysicsReplicationVR::OnTick).

module PhysicsReplication {
  import opened EngineTypes
  import opened UnrealMath

  datatype VectorQuantization = RoundWholeNumber | RoundOneDecimal | RoundTwoDecimals

  datatype RotatorQuantization = ByteComponents | ShortComponents

  /**
   * FRepMovement, and its subclass FRepMovementVR, which adds no fields:
   * six movement fields and three quantization levels used when serializing.
   */
  datatype RepMovement = RepMovement(
    linearVelocity: Vector,
    angularVelocity: Vector,
    location: Vector,
    rotation: Rotator,
    bSimulatedPhysicSleep: bool,
    bRepPhysics: bool,
    locationQuantizationLevel: VectorQuantization,
    velocityQuantizationLevel: VectorQuantization,
    rotationQuantizationLevel: RotatorQuantization)

  const ZeroRotator := Rotator(0.0, 0.0, 0.0)

  /** The engine's default-constructed FRepMovement. */
  const EngineRepMovementDefault :=
    RepMovement(ZeroVector, ZeroVector, ZeroVector, ZeroRotator, false, false,
                RoundWholeNumber, RoundWholeNumber, ByteComponents)

  /** The six fields that CopyTo and the converting constructor transfer. */
  predicate SameMovement(a: RepMovement, b: RepMovement)
  {
    a.angularVelocity == b.angularVelocity && a.bRepPhysics == b.bRepPhysics
    && a.bSimulatedPhysicSleep == b.bSimulatedPhysicSleep
    && a.linearVelocity == b.linearVelocity && a.location == b.location
    && a.rotation == b.rotation
  }

  predicate SameQuantization(a: RepMovement, b: RepMovement)
  {
    a.locationQuantizationLevel == b.locationQuantizationLevel
    && a.velocityQuantizationLevel == b.velocityQuantizationLevel
    && a.rotationQuantizationLevel == b.rotationQuantizationLevel
  }

  /** The quantization levels FRepMovementVR's default constructor selects. */
  predicate HasVRQuantization(m: RepMovement)
  {
    m.locationQuantizationLevel == RoundTwoDecimals
    && m.velocityQuantizationLevel == RoundTwoDecimals
    && m.rotationQuantizationLevel == ShortComponents
  }

  /** FRepMovementVR(): the engine defaults with finer quantization. */
  function RepMovementVRDefault(): (m: RepMovement)
    ensures HasVRQuantization(m)
    ensures SameMovement(m, EngineRepMovementDefault)
  {
    EngineRepMovementDefault.(locationQuantizationLevel := RoundTwoDecimals,
                              velocityQuantizationLevel := RoundTwoDecimals,
                              rotationQuantizationLevel := ShortComponents)
  }

  /**
   * FRepMovementVR(FRepMovement& other) as written: the base is the engine
   * default, the statement `FRepMovementVR();` in the body only builds a
   * temporary, and the six movement fields are copied from `other`.
   */
  function RepMovementVRFrom(other: RepMovement): (m: RepMovement)
    ensures SameMovement(m, other)
    ensures SameQuantization(m, EngineRepMovementDefault)
  {
    EngineRepMovementDefault.(angularVelocity := other.angularVelocity,
                              bRepPhysics := other.bRepPhysics,
                              bSimulatedPhysicSleep := other.bSimulatedPhysicSleep,
                              linearVelocity := other.linearVelocity,
                              location := other.location,
                              rotation := other.rotation)
  }

  /** The converting constructor as evidently intended: delegate to FRepMovementVR(). */
  function RepMovementVRFromIntended(other: RepMovement): (m: RepMovement)
    ensures SameMovement(m, other)
    ensures HasVRQuantization(m)
  {
    RepMovementVRDefault().(angularVelocity := other.angularVelocity,
                            bRepPhysics := other.bRepPhysics,
                            bSimulatedPhysicSleep := other.bSimulatedPhysicSleep,
                            linearVelocity := other.linearVelocity,
                            location := other.location,
                            rotation := other.rotation)
  }

  /** The converting constructor never yields FRepMovementVR's quantization, whatever it converts. */
  lemma ConvertingConstructorLosesVRQuantization(other: RepMovement)
    ensures !HasVRQuantization(RepMovementVRFrom(other))
    ensures HasVRQuantization(RepMovementVRFromIntended(other))
  {
  }

  /** FRepMovementVR::CopyTo: `other` receives the six movement fields and keeps its quantization. */
  function CopyTo(self: RepMovement, other: RepMovement): (r: RepMovement)
    ensures SameMovement(r, self)
    ensures SameQuantization(r, other)
  {
    other.(angularVelocity := self.angularVelocity,
           bRepPhysics := self.bRepPhysics,
           bSimulatedPhysicSleep := self.bSimulatedPhysicSleep,
           linearVelocity := self.linearVelocity,
           location := self.location,
           rotation := self.rotation)
  }

  /** Converting a movement and copying it back into the original gives the original back. */
  lemma ConvertThenCopyBackIsIdentity(m: RepMovement)
    ensures CopyTo(RepMovementVRFrom(m), m) == m
    ensures CopyTo(RepMovementVRFromIntended(m), m) == m
  {
  }

  /** Copying twice is the same as copying once, and the second source wins. */
  lemma CopyToOverwrites(a: RepMovement, b: RepMovement, target: RepMovement)
    ensures CopyTo(a, CopyTo(a, target)) == CopyTo(a, target)
    ensures CopyTo(b, CopyTo(a, target)) == CopyTo(b, target)
  {
  }

  /** The state of a rigid body, as FillFrom reads it (position already rebased onto the zero origin). */
  datatype RigidBodyState = RigidBodyState(
    position: Vector, rotation: Rotator, linVel: Vector, angVel: Vector, sleeping: bool)

  /** The root component of an actor (none, not a primitive, or a primitive), as GatherActorsMovement and the throwing logic query it. */
  datatype RootComponent =
    | NoRoot
    | NotPrimitive
    | Primitive(
        simulating: bool,
        awake: bool,
        welded: bool,
        attached: bool,
        rigidBody: RigidBodyState,
        componentLocation: Vector,
        componentRotation: Rotator)

  /** FRepMovement::FillFrom (engine): take every movement field from the rigid body. */
  function FillFrom(m: RepMovement, rb: RigidBodyState): RepMovement
  {
    m.(location := rb.position, rotation := rb.rotation, linearVelocity := rb.linVel,
       angularVelocity := rb.angVel, bSimulatedPhysicSleep := rb.sleeping, bRepPhysics := true)
  }

  /**
   * FRepMovementVR::GatherActorsMovement. Fails only when the root is an
   * attached, non-simulating primitive; a root that is not a primitive leaves
   * the record as it was.
   */
  function GatherActorsMovement(m: RepMovement, root: RootComponent, actorVelocity: Vector)
    : (res: (bool, RepMovement))
    ensures res.0 <==> !(root.Primitive? && !root.simulating && root.attached)
    ensures SameQuantization(res.1, m)
    ensures !root.Primitive? || !res.0 ==> res.1 == m
    ensures root.Primitive? && root.simulating ==>
              res.1.location == root.rigidBody.position && res.1.rotation == root.rigidBody.rotation
              && res.1.linearVelocity == root.rigidBody.linVel
              && res.1.angularVelocity == root.rigidBody.angVel
              && res.1.bSimulatedPhysicSleep == root.rigidBody.sleeping
              && res.1.bRepPhysics == !root.welded
    ensures root.Primitive? && !root.simulating && res.0 ==>
              res.1.location == root.componentLocation && res.1.rotation == root.componentRotation
              && res.1.linearVelocity == actorVelocity && res.1.angularVelocity == ZeroVector
              && res.1.bSimulatedPhysicSleep == m.bSimulatedPhysicSleep && !res.1.bRepPhysics
  {
    match root
    case NoRoot => (true, m)
    case NotPrimitive => (true, m)
    case Primitive(simulating, _, welded, attached, rb, loc, rot) =>
      if simulating then
        (true, FillFrom(m, rb).(bRepPhysics := !welded))
      else if attached then
        (false, m)
      else
        (true, m.(location := loc, rotation := rot, linearVelocity := actorVelocity,
                  angularVelocity := ZeroVector, bRepPhysics := false))
  }

  /**
   * A throw's round trip: the client gathers a simulating root's movement and
   * the server copies it into its replicated movement, which then holds the
   * client's rigid-body state whatever it held before.
   */
  lemma ThrowDeliversRigidBodyState(root: RootComponent, actorVelocity: Vector, serverMovement: RepMovement)
    requires root.Primitive? && root.simulating
    ensures var gathered := GatherActorsMovement(RepMovementVRDefault(), root, actorVelocity);
            var received := CopyTo(gathered.1, serverMovement);
            gathered.0
            && received.location == root.rigidBody.position
            && received.rotation == root.rigidBody.rotation
            && received.linearVelocity == root.rigidBody.linVel
            && received.angularVelocity == root.rigidBody.angVel
            && received.bSimulatedPhysicSleep == root.rigidBody.sleeping
            && received.bRepPhysics == !root.welded
            && SameQuantization(received, serverMovement)
  {
  }

  /**
   * FVRClientAuthReplicationData. The timer handle ResetReplicationHandle is
   * modelled by the time at which its callback is due: None is an invalid
   * handle.
   */
  datatype ClientAuthReplicationData = ClientAuthReplicationData(
    bIsCurrentlyClientAuth: bool,
    lastActorTransform: Transform,
    resetReplicationHandle: Option<real>,
    timeAtInitialThrow: real,
    bUseClientAuthThrowing: bool,
    updateRate: int)

  const DefaultClientAuthReplicationData :=
    ClientAuthReplicationData(false, IdentityTransform, None, 0.0, false, 30)

  // ---------------------------------------------------------------------
  // FPhysicsReplicationVR::OnTick

  type BoneName = string

  /** Opaque error-correction state that ApplyRigidBodyState updates in a target. */
  datatype CorrectionState = CorrectionState(accumulatedErrorSeconds: real, prevPosTarget: Vector, prevPos: Vector)

  /** FReplicatedPhysicsTarget: the target state's flags, its bone, its arrival time. */
  datatype PhysicsTarget = PhysicsTarget(
    needsUpdate: bool,
    sleeping: bool,
    boneName: BoneName,
    arrivedTimeSeconds: real,
    correction: CorrectionState)

  /**
   * A component whose weak pointer still resolves: the bones that have a body
   * instance, whether it has an owning actor, and the outcome of
   * ApplyRigidBodyState for its target (restored, and the target's new
   * correction state).
   */
  datatype LiveComponent = LiveComponent(
    bodyBones: set<BoneName>,
    hasOwner: bool,
    restoresState: bool,
    correctionAfter: CorrectionState)

  datatype World = World(netMode: NetMode, timeSeconds: real)

  /** The failsafe: a target that arrived more than half a second ago is dropped. */
  predicate TimedOut(now: real, t: PhysicsTarget)
  {
    now - t.arrivedTimeSeconds > 0.5
  }

  /** The target is applied this tick: the component is alive, has the body and an owner, and the target needs an update. */
  predicate Applies(t: PhysicsTarget, key: ObjectId, live: map<ObjectId, LiveComponent>)
  {
    key in live && t.boneName in live[key].bodyBones && live[key].hasOwner && t.needsUpdate
  }

  /** The entry leaves the map this tick (and OnTargetRestored is called for it). */
  predicate Removed(now: real, t: PhysicsTarget, key: ObjectId, live: map<ObjectId, LiveComponent>)
  {
    TimedOut(now, t) || (Applies(t, key, live) && (live[key].restoresState || t.sleeping))
  }

  /** What an entry that stays holds after the tick. */
  function Advanced(t: PhysicsTarget, key: ObjectId, live: map<ObjectId, LiveComponent>): PhysicsTarget
  {
    if Applies(t, key, live) then t.(correction := live[key].correctionAfter) else t
  }

  function TickedTargets(targets: map<ObjectId, PhysicsTarget>, now: real, live: map<ObjectId, LiveComponent>)
    : map<ObjectId, PhysicsTarget>
  {
    map k | k in targets && !Removed(now, targets[k], k, live) :: Advanced(targets[k], k, live)
  }

  /**
   * OnTick's map part way through: the keys still to visit hold their
   * targets as they were, and every visited key is gone when it was removed
   * and holds its advanced target when it was not.
   */
  ghost predicate PartlyTicked(start: map<ObjectId, PhysicsTarget>, current: map<ObjectId, PhysicsTarget>,
                               remaining: set<ObjectId>, now: real, live: map<ObjectId, LiveComponent>)
  {
    && remaining <= start.Keys
    && current.Keys <= start.Keys
    && (forall k :: k in remaining ==> k in current && current[k] == start[k])
    && (forall k :: k in start && k !in remaining ==> (k in current <==> !Removed(now, start[k], k, live)))
    && (forall k :: k in current && k !in remaining ==> current[k] == Advanced(start[k], k, live))
  }

  /** Visiting one key still to visit, as VisitTarget does, keeps the map part way through. */
  lemma TickStep(start: map<ObjectId, PhysicsTarget>, current: map<ObjectId, PhysicsTarget>, next: map<ObjectId, PhysicsTarget>,
                 remaining: set<ObjectId>, k: ObjectId, now: real, live: map<ObjectId, LiveComponent>)
    requires PartlyTicked(start, current, remaining, now, live) && k in remaining
    requires next == if Removed(now, current[k], k, live) then current - {k}
                     else current[k := Advanced(current[k], k, live)]
    ensures PartlyTicked(start, next, remaining - {k}, now, live)
  {
  }

  /** With no key left to visit the map is the ticked map. */
  lemma PartlyTickedDone(start: map<ObjectId, PhysicsTarget>, current: map<ObjectId, PhysicsTarget>,
                         now: real, live: map<ObjectId, LiveComponent>)
    requires PartlyTicked(start, current, {}, now, live)
    ensures current == TickedTargets(start, now, live)
  {
  }

  /** The keys OnTick has logged as restored so far: each removed visited key, once. */
  ghost predicate RestoredLog(start: map<ObjectId, PhysicsTarget>, remaining: set<ObjectId>, log: seq<ObjectId>,
                              now: real, live: map<ObjectId, LiveComponent>)
  {
    && NoDuplicates(log)
    && forall k :: k in log <==> k in start && k !in remaining && Removed(now, start[k], k, live)
  }

  /** Logging a visited key when it is removed keeps the log. */
  lemma RestoredLogStep(start: map<ObjectId, PhysicsTarget>, remaining: set<ObjectId>, log: seq<ObjectId>, k: ObjectId,
                        now: real, live: map<ObjectId, LiveComponent>)
    requires RestoredLog(start, remaining, log, now, live) && k in remaining && remaining <= start.Keys
    ensures RestoredLog(start, remaining - {k}, if Removed(now, start[k], k, live) then log + [k] else log, now, live)
  {
    if Removed(now, start[k], k, live) {
      forall i, j | 0 <= i < j < |log + [k]| ensures (log + [k])[i] != (log + [k])[j] {
        if j == |log| {
          assert (log + [k])[i] == log[i];
        }
      }
    }
  }

  /** After a server tick no target older than half a second is left, and no sleeping target that was applied. */
  lemma TickLeavesNoStaleTargets(targets: map<ObjectId, PhysicsTarget>, now: real, live: map<ObjectId, LiveComponent>)
    ensures var r := TickedTargets(targets, now, live);
            r.Keys <= targets.Keys
            && (forall k :: k in r ==> now - r[k].arrivedTimeSeconds <= 0.5)
            && (forall k :: k in r && Applies(targets[k], k, live) ==> !r[k].sleeping && !live[k].restoresState)
  {
  }

  /**
   * An entry whose component is gone, or that needs no update, is neither
   * changed nor removed unless it timed out: only the failsafe removes it.
   */
  lemma TickKeepsIdleTargets(targets: map<ObjectId, PhysicsTarget>, now: real, live: map<ObjectId, LiveComponent>, k: ObjectId)
    requires k in targets && !Applies(targets[k], k, live)
    ensures k in TickedTargets(targets, now, live) <==> !TimedOut(now, targets[k])
    ensures k in TickedTargets(targets, now, live) ==> TickedTargets(targets, now, live)[k] == targets[k]
  {
  }

  /** The engine clock seen by OnTick: the owning world's time, or 0 without a world. */
  function CurrentTimeSeconds(world: Option<World>): real
  {
    if world.Some? then world.value.timeSeconds else 0.0
  }

  /** FPhysicsReplicationVR: the map of replicated targets and the OnTargetRestored calls made so far. */
  class PhysicsReplicationVR {
    var componentsToTargets: map<ObjectId, PhysicsTarget>
    var restoredTargets: seq<ObjectId>

    constructor ()
      ensures componentsToTargets == map[] && restoredTargets == []
    {
      componentsToTargets := map[];
      restoredTargets := [];
    }

    /** The body of OnTick's loop for the entry `k`: remove it, or advance it, or leave it. */
    method VisitTarget(k: ObjectId, now: real, live: map<ObjectId, LiveComponent>)
      requires k in componentsToTargets
      modifies this
      ensures var t := old(componentsToTargets)[k];
              if Removed(now, t, k, live) then
                componentsToTargets == old(componentsToTargets) - {k}
                && restoredTargets == old(restoredTargets) + [k]
              else
                componentsToTargets == old(componentsToTargets)[k := Advanced(t, k, live)]
                && restoredTargets == old(restoredTargets)
    {
      var target := componentsToTargets[k];
      if now - target.arrivedTimeSeconds > 0.5 {
        restoredTargets := restoredTargets + [k];
        componentsToTargets := componentsToTargets - {k};
      } else if k in live {
        var component := live[k];
        var removeIt := false;
        if target.boneName in component.bodyBones && component.hasOwner && target.needsUpdate {
          var restored := component.restoresState;
          componentsToTargets := componentsToTargets[k := target.(correction := component.correctionAfter)];
          removeIt := restored || target.sleeping;
        }
        if removeIt {
          restoredTargets := restoredTargets + [k];
          componentsToTargets := componentsToTargets - {k};
        }
      }
    }

    /**
     * One tick. On a client the engine's own FPhysicsReplication::OnTick
     * runs instead; its outcome is an input here: `engineTargets` is the map
     * it leaves and `engineRestored` the OnTargetRestored calls it makes. On
     * a server or standalone game every entry is visited once, removed (with
     * one OnTargetRestored call) when it timed out or its target was reached,
     * and advanced when it was applied.
     */
    method OnTick(world: Option<World>, live: map<ObjectId, LiveComponent>,
                  engineTargets: map<ObjectId, PhysicsTarget>, engineRestored: seq<ObjectId>)
      returns (delegatedToBase: bool)
      modifies this
      ensures delegatedToBase <==> world.Some? && world.value.netMode == Client
      ensures delegatedToBase ==>
                componentsToTargets == engineTargets && restoredTargets == old(restoredTargets) + engineRestored
      ensures !delegatedToBase ==>
                componentsToTargets == TickedTargets(old(componentsToTargets), CurrentTimeSeconds(world), live)
      ensures |old(restoredTargets)| <= |restoredTargets| && restoredTargets[..|old(restoredTargets)|] == old(restoredTargets)
      ensures !delegatedToBase ==>
                NoDuplicates(restoredTargets[|old(restoredTargets)|..])
                && forall k :: k in restoredTargets[|old(restoredTargets)|..] <==>
                     k in old(componentsToTargets) && Removed(CurrentTimeSeconds(world), old(componentsToTargets)[k], k, live)
    {
      if world.Some? && world.value.netMode == Client {
        componentsToTargets := engineTargets;
        restoredTargets := restoredTargets + engineRestored;
        return true;
      }
      delegatedToBase := false;
      var now := CurrentTimeSeconds(world);
      ghost var start := componentsToTargets;
      ghost var logStart := restoredTargets;
      var remaining := componentsToTargets.Keys;
      ghost var log: seq<ObjectId> := [];
      while remaining != {}
        invariant PartlyTicked(start, componentsToTargets, remaining, now, live)
        invariant restoredTargets == logStart + log
        invariant RestoredLog(start, remaining, log, now, live)
        decreases remaining
      {
        var k :| k in remaining;
        ghost var before := componentsToTargets;
        assert before[k] == start[k];
        VisitTarget(k, now, live);
        TickStep(start, before, componentsToTargets, remaining, k, now, live);
        RestoredLogStep(start, remaining, log, k, now, live);
        if Removed(now, start[k], k, live) {
          log := log + [k];
        }
        remaining := remaining - {k};
      }
      assert restoredTargets[|logStart|..] == log;
      PartlyTickedDone(start, componentsToTargets, now, live);
    }
  }
}

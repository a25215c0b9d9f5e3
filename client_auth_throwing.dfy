// The client-authoritative throwing protocol shared by the three grippable
// actors: how the replication data changes when a throw starts or ends, and
// what one PollReplicationEvent does, as functions of the data and the
// engine state. The actor classes are proved against these definitions.

module ClientAuthThrowing {
  import opened EngineTypes
  import opened UnrealMath
  import opened PhysicsReplication
  import opened GripInterface

  /** AddToClientReplicationBucket's effect on the data: client authority from now on. */
  function ThrowStarted(d: ClientAuthReplicationData, env: ActorEnv): (r: ClientAuthReplicationData)
    ensures r.bIsCurrentlyClientAuth
    ensures env.worldTime.Some? ==> r.timeAtInitialThrow == env.worldTime.value
    ensures r.(bIsCurrentlyClientAuth := d.bIsCurrentlyClientAuth, timeAtInitialThrow := d.timeAtInitialThrow) == d
  {
    d.(bIsCurrentlyClientAuth := true,
       timeAtInitialThrow := if env.worldTime.Some? then env.worldTime.value else d.timeAtInitialThrow)
  }

  /** CeaseReplicationBlocking's effect: authority ends, and the ping timer is cleared when there is a world. */
  function Ceased(d: ClientAuthReplicationData, env: ActorEnv): (r: ClientAuthReplicationData)
    ensures !r.bIsCurrentlyClientAuth
    ensures env.worldTime.Some? ==> r.resetReplicationHandle.None?
    ensures r.(bIsCurrentlyClientAuth := d.bIsCurrentlyClientAuth, resetReplicationHandle := d.resetReplicationHandle) == d
  {
    d.(bIsCurrentlyClientAuth := false,
       resetReplicationHandle := if d.resetReplicationHandle.Some? && env.worldTime.Some? then None
                                 else d.resetReplicationHandle)
  }

  /**
   * The handle after SetTimer(CeaseReplicationBlocking, delay): a positive
   * delay schedules the callback, the engine's timer manager invalidates the
   * handle for any other.
   */
  function ScheduledCease(now: real, exactPing: real): (h: Option<real>)
    ensures h.Some? <==> ClampedPing(exactPing) > 0.0
    ensures h.Some? ==> now < h.value <= now + 1000.0
  {
    if ClampedPing(exactPing) > 0.0 then Some(now + ClampedPing(exactPing)) else None
  }

  /** The owner walk's outcome: the top owner is a player controller with a player state. */
  predicate OwnedByPlayer(env: ActorEnv)
    requires LoopFree(env.ownership)
  {
    env.self in env.ownership.ownerOf && TopOwner(env.ownership, env.self) in env.playerPing
  }

  /** The end of PollReplicationEvent: re-arm the ping timer when a player owns the actor. */
  function RearmPingTimer(d: ClientAuthReplicationData, env: ActorEnv, now: real): ClientAuthReplicationData
    requires LoopFree(env.ownership)
  {
    if OwnedByPlayer(env) then
      d.(resetReplicationHandle := ScheduledCease(now, env.playerPing[TopOwner(env.ownership, env.self)]))
    else d
  }

  /** One poll: whether the bucket keeps polling, the new data, and the movement sent to the server, if any. */
  datatype PollResult = PollResult(keepPolling: bool, data: ClientAuthReplicationData, sent: Option<RepMovement>)

  /** PollReplicationEvent, as a function of the replication data and the engine state. */
  function Poll(d: ClientAuthReplicationData, settings: GripInterfaceSettings, env: ActorEnv): PollResult
    requires LoopFree(env.ownership)
  {
    if !d.bIsCurrentlyClientAuth || env.worldTime.None? then PollResult(false, d, None)
    else
      var now := env.worldTime.value;
      if now - d.timeAtInitialThrow > 10.0 then PollResult(false, d, None)
      else if TransformChanged(env.actorTransform, d.lastActorTransform) then
        var moved := d.(lastActorTransform := env.actorTransform);
        if !env.root.Primitive? then PollResult(false, moved, None)
        else if env.root.simulating && ShouldWeSkipAttachmentReplication(false, settings, env.netMode, env.hasLocalNetOwner) then
          var gathered := GatherActorsMovement(RepMovementVRDefault(), env.root, env.actorVelocity);
          if gathered.0 && env.root.awake then PollResult(true, moved, Some(gathered.1))
          else PollResult(false, RearmPingTimer(moved, env, now), if gathered.0 then Some(gathered.1) else None)
        else PollResult(false, RearmPingTimer(moved, env, now), None)
      else PollResult(false, RearmPingTimer(d.(lastActorTransform := IdentityTransform), env, now), None)
  }

  /**
   * The bucket keeps polling only while a throw is live: client authority, a
   * world, at most ten seconds since the throw, a moving, simulating, awake
   * primitive root on a locally owned client-authoritative client, and a
   * movement was sent to the server.
   */
  lemma PollContinuesOnlyWhileThrown(d: ClientAuthReplicationData, settings: GripInterfaceSettings, env: ActorEnv)
    requires LoopFree(env.ownership)
    ensures var p := Poll(d, settings, env);
            p.keepPolling ==>
              d.bIsCurrentlyClientAuth && env.worldTime.Some?
              && env.worldTime.value - d.timeAtInitialThrow <= 10.0
              && TransformChanged(env.actorTransform, d.lastActorTransform)
              && RootIsSimulatingPrimitive(env) && env.root.awake
              && env.netMode == Client && env.hasLocalNetOwner
              && IsClientAuthoritative(settings.movementReplicationType)
              && p.sent.Some?
  {
  }

  /** A poll never changes who is authoritative, when the throw started, or the throwing settings. */
  lemma PollKeepsAuthority(d: ClientAuthReplicationData, settings: GripInterfaceSettings, env: ActorEnv)
    requires LoopFree(env.ownership)
    ensures var r := Poll(d, settings, env).data;
            r.bIsCurrentlyClientAuth == d.bIsCurrentlyClientAuth
            && r.timeAtInitialThrow == d.timeAtInitialThrow
            && r.bUseClientAuthThrowing == d.bUseClientAuthThrowing
            && r.updateRate == d.updateRate
  {
  }

  /** What a poll sends is the root's rigid-body state in FRepMovementVR's quantization. */
  lemma PollSendsRigidBodyState(d: ClientAuthReplicationData, settings: GripInterfaceSettings, env: ActorEnv)
    requires LoopFree(env.ownership)
    ensures var p := Poll(d, settings, env);
            p.sent.Some? ==>
              RootIsSimulatingPrimitive(env)
              && p.sent.value.location == env.root.rigidBody.position
              && p.sent.value.rotation == env.root.rigidBody.rotation
              && p.sent.value.linearVelocity == env.root.rigidBody.linVel
              && p.sent.value.angularVelocity == env.root.rigidBody.angVel
              && p.sent.value.bRepPhysics == !env.root.welded
              && HasVRQuantization(p.sent.value)
  {
  }

  /**
   * A transform that did not change since the last poll resets the stored
   * transform to identity, and the poll stops; the next poll then sees a
   * change unless the actor rests exactly at the identity.
   */
  lemma PollAtRestForgetsTransform(d: ClientAuthReplicationData, settings: GripInterfaceSettings, env: ActorEnv)
    requires LoopFree(env.ownership)
    requires d.bIsCurrentlyClientAuth && env.worldTime.Some? && env.worldTime.value - d.timeAtInitialThrow <= 10.0
    requires !TransformChanged(env.actorTransform, d.lastActorTransform)
    ensures var p := Poll(d, settings, env);
            !p.keepPolling && p.sent.None? && p.data.lastActorTransform == IdentityTransform
  {
  }

  /**
   * The ping timer: a stopped poll of a live throw owned by a player schedules
   * CeaseReplicationBlocking after the clamped ping (or clears the handle when
   * that is zero); a poll that continues, or one made by an actor no player
   * owns, leaves the handle alone.
   */
  lemma PollSchedulesCease(d: ClientAuthReplicationData, settings: GripInterfaceSettings, env: ActorEnv)
    requires LoopFree(env.ownership)
    requires d.bIsCurrentlyClientAuth && env.worldTime.Some? && env.worldTime.value - d.timeAtInitialThrow <= 10.0
    ensures var p := Poll(d, settings, env);
            var now := env.worldTime.value;
            if p.keepPolling || !OwnedByPlayer(env)
               || (TransformChanged(env.actorTransform, d.lastActorTransform) && !env.root.Primitive?)
            then p.data.resetReplicationHandle == d.resetReplicationHandle
            else p.data.resetReplicationHandle == ScheduledCease(now, env.playerPing[TopOwner(env.ownership, env.self)])
  {
  }

  /** Once authority has ceased, polls do nothing: no sending, no timer, no change. */
  lemma CeasedThrowIsNotPolled(d: ClientAuthReplicationData, settings: GripInterfaceSettings, env: ActorEnv, later: ActorEnv)
    requires LoopFree(later.ownership)
    ensures Poll(Ceased(d, env), settings, later) == PollResult(false, Ceased(d, env), None)
  {
  }

  /** A throw started at time t is polled at most until t + 10 seconds. */
  lemma ThrowTimesOut(d: ClientAuthReplicationData, settings: GripInterfaceSettings, env: ActorEnv, later: ActorEnv)
    requires LoopFree(later.ownership)
    requires env.worldTime.Some? && later.worldTime.Some?
    requires later.worldTime.value > env.worldTime.value + 10.0
    ensures Poll(ThrowStarted(d, env), settings, later) == PollResult(false, ThrowStarted(d, env), None)
  {
  }
}

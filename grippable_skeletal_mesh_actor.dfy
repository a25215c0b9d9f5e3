// GrippableSkeletalMeshActor.cpp: a skeletal mesh actor that can be gripped
// and, when released, thrown with client authority: while the throw lasts the
// owning client polls its own physics state and sends it to the server.

module GrippableSkeletalMesh {
  import opened EngineTypes
  import opened UnrealMath
  import opened PhysicsReplication
  import opened GripInterface
  import opened ClientAuthThrowing

  /** AGrippableSkeletalMeshActor, reduced to its grip and replication state. */
  class GrippableSkeletalMeshActor {
    var vrGripInterfaceSettings: GripInterfaceSettings
    var bAllowIgnoringAttachOnOwner: bool
    var clientAuthReplicationData: ClientAuthReplicationData
    /** Whether PollReplicationEvent is registered with the bucket update subsystem. */
    var inReplicationBucket: bool
    var replicatedMovement: RepMovement
    /** The Server_GetClientAuthReplication calls made so far. */
    var serverMovementRequests: seq<RepMovement>
    /** The movements handed on to the engine's AActor::OnRep_ReplicatedMovement so far. */
    var appliedMovements: seq<RepMovement>

    predicate Valid()
      reads this
    {
      ValidGripSettings(vrGripInterfaceSettings)
    }

    constructor ()
      ensures Valid()
      ensures vrGripInterfaceSettings == DefaultGripInterfaceSettings && bAllowIgnoringAttachOnOwner
      ensures clientAuthReplicationData == DefaultClientAuthReplicationData
      ensures !inReplicationBucket && replicatedMovement == EngineRepMovementDefault && serverMovementRequests == []
      ensures appliedMovements == []
    {
      vrGripInterfaceSettings := DefaultGripInterfaceSettings;
      bAllowIgnoringAttachOnOwner := true;
      clientAuthReplicationData := DefaultClientAuthReplicationData;
      inReplicationBucket := false;
      replicatedMovement := EngineRepMovementDefault;
      serverMovementRequests := [];
      appliedMovements := [];
    }

    method CeaseReplicationBlocking(env: ActorEnv)
      modifies this`clientAuthReplicationData
      ensures clientAuthReplicationData == Ceased(old(clientAuthReplicationData), env)
    {
      clientAuthReplicationData := clientAuthReplicationData.(bIsCurrentlyClientAuth := false);
      if clientAuthReplicationData.resetReplicationHandle.Some? {
        if env.worldTime.Some? {
          clientAuthReplicationData := clientAuthReplicationData.(resetReplicationHandle := None);
        }
      }
    }

    method PollReplicationEvent(env: ActorEnv) returns (keepPolling: bool)
      requires LoopFree(env.ownership)
      modifies this`clientAuthReplicationData, this`serverMovementRequests, this`inReplicationBucket
      ensures var p := Poll(old(clientAuthReplicationData), vrGripInterfaceSettings, env);
              keepPolling == p.keepPolling && clientAuthReplicationData == p.data
              && serverMovementRequests == old(serverMovementRequests) + (if p.sent.Some? then [p.sent.value] else [])
      ensures inReplicationBucket == (old(inReplicationBucket) && keepPolling)
    {
      if !clientAuthReplicationData.bIsCurrentlyClientAuth {
        inReplicationBucket := false;        return false;
      }
      if env.worldTime.None? {
        inReplicationBucket := false;        return false;
      }
      var now := env.worldTime.value;
      if now - clientAuthReplicationData.timeAtInitialThrow > 10.0 {
        inReplicationBucket := false;        return false;
      }
      var curTransform := env.actorTransform;
      if TransformChanged(curTransform, clientAuthReplicationData.lastActorTransform) {
        clientAuthReplicationData := clientAuthReplicationData.(lastActorTransform := curTransform);
        if env.root.Primitive? {
          if env.root.simulating && ShouldWeSkipAttachmentReplication(false, vrGripInterfaceSettings, env.netMode, env.hasLocalNetOwner) {
            var gathered := GatherActorsMovement(RepMovementVRDefault(), env.root, env.actorVelocity);
            if gathered.0 {
              serverMovementRequests := serverMovementRequests + [gathered.1];
              if env.root.awake {
                return true;
              }
            }
          }
        } else {
          inReplicationBucket := false;          return false;
        }
      } else {
        clientAuthReplicationData := clientAuthReplicationData.(lastActorTransform := IdentityTransform);
      }
      var topOwner := FindTopOwner(env.ownership, env.self);
      if topOwner.Some? && topOwner.value in env.playerPing {
        if clientAuthReplicationData.resetReplicationHandle.Some? {
          clientAuthReplicationData := clientAuthReplicationData.(resetReplicationHandle := None);
        }
        var clampedPing := ClampedPing(env.playerPing[topOwner.value]);
        var handle: Option<real> := if clampedPing > 0.0 then Some(now + clampedPing) else None;
        clientAuthReplicationData := clientAuthReplicationData.(resetReplicationHandle := handle);
      }
      inReplicationBucket := false;      return false;
    }

    /** The server's side of the throw: take the client's movement into the replicated movement. */
    method ServerGetClientAuthReplication(newMovement: RepMovement, env: ActorEnv)
      modifies this`replicatedMovement, this`appliedMovements
      ensures replicatedMovement == CopyTo(newMovement, old(replicatedMovement))
      ensures appliedMovements == old(appliedMovements) + (if OnRepReplicatedMovementIgnored(env) then [] else [replicatedMovement])
      ensures env.netMode != Client ==> appliedMovements == old(appliedMovements) + [replicatedMovement]
    {
      replicatedMovement := CopyTo(newMovement, replicatedMovement);
      OnRepReplicatedMovement(env);
    }

    /** OnRep_ReplicatedMovement: the engine applies the replicated movement unless this client's own throw ignores it. */
    method OnRepReplicatedMovement(env: ActorEnv)
      modifies this`appliedMovements
      ensures appliedMovements == old(appliedMovements) + (if OnRepReplicatedMovementIgnored(env) then [] else [replicatedMovement])
      ensures OnRepReplicatedMovementIgnored(env) <==> appliedMovements == old(appliedMovements)
    {
      if !OnRepReplicatedMovementIgnored(env) {
        appliedMovements := appliedMovements + [replicatedMovement];
      }
    }

    method EndPlay(env: ActorEnv)
      modifies this`inReplicationBucket, this`clientAuthReplicationData
      ensures !clientAuthReplicationData.bIsCurrentlyClientAuth
      ensures old(clientAuthReplicationData.bIsCurrentlyClientAuth) ==>
                !inReplicationBucket && clientAuthReplicationData == Ceased(old(clientAuthReplicationData), env)
      ensures !old(clientAuthReplicationData.bIsCurrentlyClientAuth) ==>
                inReplicationBucket == old(inReplicationBucket) && clientAuthReplicationData == old(clientAuthReplicationData)
    {
      if clientAuthReplicationData.bIsCurrentlyClientAuth {
        inReplicationBucket := false;
      }
      var _ := RemoveFromClientReplicationBucket(env);
    }

    /** Whether OnRep_AttachmentReplication ignores the server's attachment. */
    function OnRepAttachmentReplicationIgnored(env: ActorEnv): (ignored: bool)
      reads this
      ensures ignored <==> bAllowIgnoringAttachOnOwner && env.netMode == Client && env.hasLocalNetOwner
                           && IsClientAuthoritative(vrGripInterfaceSettings.movementReplicationType)
    {
      bAllowIgnoringAttachOnOwner
      && ShouldWeSkipAttachmentReplication(false, vrGripInterfaceSettings, env.netMode, env.hasLocalNetOwner)
    }

    /** OnRep_ReplicateMovement: ignored like attachment, otherwise resync the simulation first when it differs. */
    function OnRepReplicateMovement(env: ActorEnv): (n: ReplicateMovementNotify)
      reads this
      ensures n.MovementIgnored? <==>
                (bAllowIgnoringAttachOnOwner && env.netMode == Client && env.hasLocalNetOwner
                 && IsClientAuthoritative(vrGripInterfaceSettings.movementReplicationType))
      ensures n.PassedOn? ==>
                (n.syncPhysicsFirst <==>
                   (!env.root.NoRoot? && !env.hasAttachParent
                    && RootIsSimulatingPrimitive(env) != replicatedMovement.bRepPhysics))
    {
      if bAllowIgnoringAttachOnOwner
         && ShouldWeSkipAttachmentReplication(false, vrGripInterfaceSettings, env.netMode, env.hasLocalNetOwner)
      then MovementIgnored
      else PassedOn(NeedsPhysicsResync(env, replicatedMovement))
    }

    /** Whether OnRep_ReplicatedMovement ignores the server's movement: only during this client's own throw. */
    function OnRepReplicatedMovementIgnored(env: ActorEnv): (ignored: bool)
      reads this
      ensures ignored <==> clientAuthReplicationData.bIsCurrentlyClientAuth && env.netMode == Client
                           && env.hasLocalNetOwner && IsClientAuthoritative(vrGripInterfaceSettings.movementReplicationType)
    {
      clientAuthReplicationData.bIsCurrentlyClientAuth
      && ShouldWeSkipAttachmentReplication(false, vrGripInterfaceSettings, env.netMode, env.hasLocalNetOwner)
    }

    /** Whether PostNetReceivePhysicState ignores the server's physics state: only while held. */
    function PostNetReceivePhysicStateIgnored(env: ActorEnv): (ignored: bool)
      reads this
      ensures ignored <==> vrGripInterfaceSettings.bIsHeld && bAllowIgnoringAttachOnOwner && env.netMode == Client
                           && env.hasLocalNetOwner && IsClientAuthoritative(vrGripInterfaceSettings.movementReplicationType)
    {
      vrGripInterfaceSettings.bIsHeld && bAllowIgnoringAttachOnOwner
      && ShouldWeSkipAttachmentReplication(false, vrGripInterfaceSettings, env.netMode, env.hasLocalNetOwner)
    }

    method AddToClientReplicationBucket(env: ActorEnv) returns (added: bool)
      modifies this`inReplicationBucket, this`clientAuthReplicationData
      ensures added <==> ShouldWeSkipAttachmentReplication(false, vrGripInterfaceSettings, env.netMode, env.hasLocalNetOwner)
      ensures added ==> inReplicationBucket && clientAuthReplicationData == ThrowStarted(old(clientAuthReplicationData), env)
      ensures !added ==> inReplicationBucket == old(inReplicationBucket)
                         && clientAuthReplicationData == old(clientAuthReplicationData)
    {
      if ShouldWeSkipAttachmentReplication(false, vrGripInterfaceSettings, env.netMode, env.hasLocalNetOwner) {
        inReplicationBucket := true;
        clientAuthReplicationData := clientAuthReplicationData.(bIsCurrentlyClientAuth := true);
        if env.worldTime.Some? {
          clientAuthReplicationData := clientAuthReplicationData.(timeAtInitialThrow := env.worldTime.value);
        }
        return true;
      }
      return false;
    }

    method IsHeld() returns (holdingControllers: seq<GripPair>, bIsHeld: bool)
      requires Valid()
      ensures holdingControllers == vrGripInterfaceSettings.holdingControllers
      ensures bIsHeld <==> |holdingControllers| > 0
      ensures NoDuplicates(holdingControllers)
    {
      holdingControllers := vrGripInterfaceSettings.holdingControllers;
      bIsHeld := vrGripInterfaceSettings.bIsHeld;
    }

    method RemoveFromClientReplicationBucket(env: ActorEnv) returns (removed: bool)
      modifies this`inReplicationBucket, this`clientAuthReplicationData
      ensures removed <==> old(clientAuthReplicationData.bIsCurrentlyClientAuth)
      ensures removed ==> !inReplicationBucket && clientAuthReplicationData == Ceased(old(clientAuthReplicationData), env)
      ensures !removed ==> inReplicationBucket == old(inReplicationBucket)
                           && clientAuthReplicationData == old(clientAuthReplicationData)
    {
      if clientAuthReplicationData.bIsCurrentlyClientAuth {
        inReplicationBucket := false;
        CeaseReplicationBlocking(env);
        return true;
      }
      return false;
    }

    /**
     * SetHeld: gripping records the pair and ends any throw in progress;
     * releasing forgets the pair and, with client-authoritative throwing on a
     * simulating root, starts a throw.
     */
    method SetHeld(holdingController: ObjectId, gripID: uint8, bIsHeld: bool, env: ActorEnv)
      requires Valid()
      modifies this`vrGripInterfaceSettings, this`inReplicationBucket, this`clientAuthReplicationData
      ensures Valid()
      ensures var pair := GripPair(holdingController, gripID);
              vrGripInterfaceSettings.holdingControllers
                == (if bIsHeld then AddUnique(old(vrGripInterfaceSettings.holdingControllers), pair)
                    else RemoveAll(old(vrGripInterfaceSettings.holdingControllers), pair))
      ensures vrGripInterfaceSettings.bWasHeld == (bIsHeld || old(vrGripInterfaceSettings.bWasHeld))
      ensures vrGripInterfaceSettings.movementReplicationType == old(vrGripInterfaceSettings.movementReplicationType)
      ensures bIsHeld ==> !clientAuthReplicationData.bIsCurrentlyClientAuth
      ensures bIsHeld && old(clientAuthReplicationData.bIsCurrentlyClientAuth) ==>
                !inReplicationBucket && clientAuthReplicationData == Ceased(old(clientAuthReplicationData), env)
      ensures var throws := !bIsHeld && old(clientAuthReplicationData.bUseClientAuthThrowing)
                            && ShouldWeSkipAttachmentReplication(false, old(vrGripInterfaceSettings), env.netMode, env.hasLocalNetOwner)
                            && RootIsSimulatingPrimitive(env);
              (throws ==> inReplicationBucket && clientAuthReplicationData == ThrowStarted(old(clientAuthReplicationData), env))
      ensures !(bIsHeld && old(clientAuthReplicationData.bIsCurrentlyClientAuth))
              && !(!bIsHeld && old(clientAuthReplicationData.bUseClientAuthThrowing)
                   && ShouldWeSkipAttachmentReplication(false, old(vrGripInterfaceSettings), env.netMode, env.hasLocalNetOwner)
                   && RootIsSimulatingPrimitive(env)) ==>
                inReplicationBucket == old(inReplicationBucket) && clientAuthReplicationData == old(clientAuthReplicationData)
    {
      var pair := GripPair(holdingController, gripID);
      if bIsHeld {
        vrGripInterfaceSettings := vrGripInterfaceSettings.(holdingControllers := AddUnique(vrGripInterfaceSettings.holdingControllers, pair));
        var _ := RemoveFromClientReplicationBucket(env);
        vrGripInterfaceSettings := vrGripInterfaceSettings.(bWasHeld := true);
      } else {
        vrGripInterfaceSettings := vrGripInterfaceSettings.(holdingControllers := RemoveAll(vrGripInterfaceSettings.holdingControllers, pair));
        if clientAuthReplicationData.bUseClientAuthThrowing
           && ShouldWeSkipAttachmentReplication(false, vrGripInterfaceSettings, env.netMode, env.hasLocalNetOwner) {
          if env.root.Primitive? {
            if env.root.simulating {
              var _ := AddToClientReplicationBucket(env);
            }
          }
        }
      }
      vrGripInterfaceSettings := vrGripInterfaceSettings.(bIsHeld := |vrGripInterfaceSettings.holdingControllers| > 0);
    }
  }
}

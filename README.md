# VRExpansionPlugin core, modelled in Dafny

This project models the engine-independent logic of VRExpansionPlugin, an
Unreal Engine plugin for virtual-reality games, and proves properties of it.
Every engine query is an input: the net mode, whether a local player owns the
actor, the world clock, whether the root body simulates or sleeps, the hits
of a sweep and the results of an overlap query. Scalars are `real`. Vectors,
quaternions and transforms are plain values.

The model covers five parts of the plugin.

- **Grip holding and client-authoritative throwing.** This covers the three
  grippable actors (`GrippableSkeletalMeshActor`, `GrippableStaticMeshActor`,
  `GrippableActor`), each as a `class` whose methods update its grip settings
  and its `FVRClientAuthReplicationData`. The logic shared by the three is
  stated once, as functions:
  - `ShouldWeSkipAttachmentReplication` and the holder list
    (`grip_interface.dfy`);
  - the replication data's transitions and one `PollReplicationEvent` step
    (`client_auth_throwing.dfy`).

  The differences between the three files are explicit:
  - `GrippableActor` ignores attachment replication only after a first hold;
  - `GrippableStaticMeshActor::EndPlay` always calls
    `CeaseReplicationBlocking`, where the others call
    `RemoveFromClientReplicationBucket`.
- **`FRepMovementVR` and `FPhysicsReplicationVR`**
  (`physics_replication.dfy`). These are the movement record's constructors,
  `CopyTo` and `GatherActorsMovement`. The server tick prunes the map of
  physics targets; it is a class whose `OnTick` loop is proved equal to a map
  comprehension. The defaults of `FVRClientAuthReplicationData` (not client
  authoritative, identity transform, throw time 0, throwing off, update rate
  30) are the constant `DefaultClientAuthReplicationData`.
- **`UVRRootComponent`.** Three files cover it:
  - `root_overlaps.dfy`: the overlap lists;
  - `root_sweep.dfy`: the sweep, with the pull-back of hit times, the hit
    filters, blocking-hit selection and the final location;
  - `root_component.dfy`: the component class, with `MoveComponentImpl`,
    `UpdateOverlapsImpl` and the capsule clamps of `PostEditChangeProperty`.

  Blocking-hit selection is specified as a fold over the hits (`Scan`). Its
  properties are proved by induction. The loop `SelectBlockingHit` is proved
  to compute it.
- **`UVRSliderComponent`** (`slider.dfy`): progress, the hit-point event
  state machine, the glide after release with bounces at the ends, and the
  saving and restoring of `bReplicateMovement`.
- **`VRBaseCharacter.h`** (`base_character.dfy`):
  - the flag byte and field layout of `FRepMovementVRCharacter::NetSerialize`;
  - `FVRSeatedCharacterInfo` with `Clear`, `ClearTempVals` and its
    `NetSerialize` layout;
  - the `OnRep_CapsuleHeight` guard.

  Serialization is a function to and from a sequence of archive fields.

`engine_types.dfy` and `unreal_math.dfy` hold the engine's enumerations,
handles and math helpers (`FMath::Clamp`, `Max3`, vector arithmetic) that the
rest uses. `real_facts.dfy` holds the facts about real arithmetic that the
slider's proofs need.

Source paths in the table are relative to the repository root.

## Model

| member | source | states |
|---|---|---|
| PhysicsReplication.RepMovementVRDefault | Plugins/VRExpansionPlugin/Source/VRExpansionPlugin/Public/Grippables/GrippablePhysicsReplication.h:45-50 | The default FRepMovementVR has the engine's default movement with RoundTwoDecimals location and velocity quantization and ShortComponents rotation quantization |
| PhysicsReplication.RepMovementVRFrom | Plugins/VRExpansionPlugin/Source/VRExpansionPlugin/Public/Grippables/GrippablePhysicsReplication.h:52-62 | The converting constructor as written copies the six movement fields and keeps the engine's default quantization |
| PhysicsReplication.RepMovementVRFromIntended | Plugins/VRExpansionPlugin/Source/VRExpansionPlugin/Public/Grippables/GrippablePhysicsReplication.h:45-62 | The converting constructor as intended copies the six movement fields and has FRepMovementVR's quantization |
| PhysicsReplication.ConvertingConstructorLosesVRQuantization | Plugins/VRExpansionPlugin/Source/VRExpansionPlugin/Public/Grippables/GrippablePhysicsReplication.h:52-62 | For every input the constructor as written lacks the VR quantization, and the intended one has it |
| PhysicsReplication.CopyTo | Plugins/VRExpansionPlugin/Source/VRExpansionPlugin/Public/Grippables/GrippablePhysicsReplication.h:67-75 | The target receives the six movement fields and keeps its own quantization |
| PhysicsReplication.ConvertThenCopyBackIsIdentity | Plugins/VRExpansionPlugin/Source/VRExpansionPlugin/Public/Grippables/GrippablePhysicsReplication.h:52-75 | Converting a movement and copying the result back into the original gives the original, for both forms of the constructor |
| PhysicsReplication.CopyToOverwrites | Plugins/VRExpansionPlugin/Source/VRExpansionPlugin/Public/Grippables/GrippablePhysicsReplication.h:67-75 | Copying is idempotent, and a second copy overrides the first completely |
| PhysicsReplication.GatherActorsMovement | Plugins/VRExpansionPlugin/Source/VRExpansionPlugin/Public/Grippables/GrippablePhysicsReplication.h:77-127 | Fails exactly for an attached, non-simulating primitive root. A simulating root yields its rigid-body state with bRepPhysics = not welded. A free non-simulating root yields its component transform, the actor velocity and zero angular velocity without physics. No root primitive leaves the record as it was. Quantization never changes |
| PhysicsReplication.ThrowDeliversRigidBodyState | Plugins/VRExpansionPlugin/Source/VRExpansionPlugin/Public/Grippables/GrippablePhysicsReplication.h:67-127 | What a client gathers from a simulating root and the server copies in is the client's rigid-body state, whatever the server held before |
| PhysicsReplication.TickLeavesNoStaleTargets | Plugins/VRExpansionPlugin/Source/VRExpansionPlugin/Public/Grippables/GrippablePhysicsReplication.h:221-301 | After a server tick no target is older than 0.5 s, no key is added, and no applied target that is sleeping or restored remains |
| PhysicsReplication.TickKeepsIdleTargets | Plugins/VRExpansionPlugin/Source/VRExpansionPlugin/Public/Grippables/GrippablePhysicsReplication.h:228-300 | A target whose component is gone or that needs no update stays unchanged, unless the 0.5 s failsafe removes it |
| PhysicsReplication.PhysicsReplicationVR.constructor | Plugins/VRExpansionPlugin/Source/VRExpansionPlugin/Public/Grippables/GrippablePhysicsReplication.h:191 | Starts with no targets and no OnTargetRestored calls |
| PhysicsReplication.PhysicsReplicationVR.VisitTarget | Plugins/VRExpansionPlugin/Source/VRExpansionPlugin/Public/Grippables/GrippablePhysicsReplication.h:228-300 | One loop iteration either removes the entry and reports it restored once, or replaces it by its advanced state |
| PhysicsReplication.PhysicsReplicationVR.OnTick | Plugins/VRExpansionPlugin/Source/VRExpansionPlugin/Public/Grippables/GrippablePhysicsReplication.h:198-305 | On a client it delegates to the engine: the map and the restored calls are the engine's outcome, given as inputs. Otherwise the map becomes the pruned map, and the new OnTargetRestored calls name each removed target exactly once. Earlier calls are always kept |
| GripInterface.AddUnique | Plugins/VRExpansionPlugin/Source/VRExpansionPlugin/Private/Grippables/GrippableSkeletalMeshActor.cpp:496 | Holds exactly the old holders plus the new pair; appends only when the pair is absent; keeps the list duplicate-free |
| GripInterface.RemoveAll | Plugins/VRExpansionPlugin/Source/VRExpansionPlugin/Private/Grippables/GrippableSkeletalMeshActor.cpp:503 | Holds exactly the old holders other than the pair; is unchanged when the pair is absent; keeps the list duplicate-free |
| GripInterface.ReleaseUndoesGrip | Plugins/VRExpansionPlugin/Source/VRExpansionPlugin/Private/Grippables/GrippableSkeletalMeshActor.cpp:492-517 | Gripping with a new pair and releasing it restores the holder list exactly |
| GripInterface.RemoveAllIdempotent | Plugins/VRExpansionPlugin/Source/VRExpansionPlugin/Private/Grippables/GrippableSkeletalMeshActor.cpp:503 | Releasing a pair twice is the same as releasing it once |
| GripInterface.ShouldWeSkipAttachmentReplication | Plugins/VRExpansionPlugin/Source/VRExpansionPlugin/Public/Grippables/GrippableStaticMeshActor.h:122-134 | Skips exactly on a client with a local net owner and client-authoritative movement, and, when bConsiderHeld, only after the object was held |
| GripInterface.ConsideringHeldSkipsLess | Plugins/VRExpansionPlugin/Source/VRExpansionPlugin/Public/Grippables/GrippableStaticMeshActor.h:122-134 | The held-aware form skips only where the plain form does, and the two agree once the object was held |
| GripInterface.AuthorityNeverSkips | Plugins/VRExpansionPlugin/Source/VRExpansionPlugin/Public/Grippables/GrippableStaticMeshActor.h:124-125 | A server or standalone game never skips, whatever the settings |
| GripInterface.TopOwner | Plugins/VRExpansionPlugin/Source/VRExpansionPlugin/Private/Grippables/GrippableSkeletalMeshActor.cpp:166-177 | The end of an owner chain has no owner |
| GripInterface.FindTopOwner | Plugins/VRExpansionPlugin/Source/VRExpansionPlugin/Private/Grippables/GrippableSkeletalMeshActor.cpp:166-177 | The owner walk finds nothing exactly when the actor has no owner; otherwise it finds the top of the chain, which has no owner |
| GripInterface.ClampedPing | Plugins/VRExpansionPlugin/Source/VRExpansionPlugin/Private/Grippables/GrippableSkeletalMeshActor.cpp:189 | The timer delay is in [0, 1000], and is the ping in seconds when that is in range |
| GripInterface.NeedsPhysicsResync | Plugins/VRExpansionPlugin/Source/VRExpansionPlugin/Private/Grippables/GrippableSkeletalMeshActor.cpp:298-313 | Resyncs only with a root and no attach parent, and only when the local simulation differs from the replicated bRepPhysics |
| ClientAuthThrowing.ThrowStarted | Plugins/VRExpansionPlugin/Source/VRExpansionPlugin/Private/Grippables/GrippableSkeletalMeshActor.cpp:392-407 | Starting a throw makes the client authoritative and records the world time, changing nothing else |
| ClientAuthThrowing.Ceased | Plugins/VRExpansionPlugin/Source/VRExpansionPlugin/Private/Grippables/GrippableSkeletalMeshActor.cpp:102-112 | Ceasing ends client authority and, with a world, clears the ping timer, changing nothing else |
| ClientAuthThrowing.ScheduledCease | Plugins/VRExpansionPlugin/Source/VRExpansionPlugin/Private/Grippables/GrippableSkeletalMeshActor.cpp:188-190 | The cease timer is armed exactly for a positive clamped ping, and falls due within 1000 s after now |
| ClientAuthThrowing.PollContinuesOnlyWhileThrown | Plugins/VRExpansionPlugin/Source/VRExpansionPlugin/Private/Grippables/GrippableSkeletalMeshActor.cpp:114-153 | Polling continues only during a live client-authoritative throw under 10 s old, with a moved, simulating, awake root on a locally owned client, and only after sending a movement |
| ClientAuthThrowing.PollKeepsAuthority | Plugins/VRExpansionPlugin/Source/VRExpansionPlugin/Private/Grippables/GrippableSkeletalMeshActor.cpp:114-196 | A poll never changes authority, throw time, throwing setting or update rate |
| ClientAuthThrowing.PollSendsRigidBodyState | Plugins/VRExpansionPlugin/Source/VRExpansionPlugin/Private/Grippables/GrippableSkeletalMeshActor.cpp:137-152 | A sent movement is the simulating root's rigid-body state in FRepMovementVR's quantization |
| ClientAuthThrowing.PollAtRestForgetsTransform | Plugins/VRExpansionPlugin/Source/VRExpansionPlugin/Private/Grippables/GrippableSkeletalMeshActor.cpp:160-164 | An unchanged transform stops the poll without sending anything and resets the stored transform to identity |
| ClientAuthThrowing.PollSchedulesCease | Plugins/VRExpansionPlugin/Source/VRExpansionPlugin/Private/Grippables/GrippableSkeletalMeshActor.cpp:166-195 | A stopping poll of a live throw owned by a player re-arms the cease timer from that player's ping. Continuing polls and unowned actors leave the timer alone |
| ClientAuthThrowing.CeasedThrowIsNotPolled | Plugins/VRExpansionPlugin/Source/VRExpansionPlugin/Private/Grippables/GrippableSkeletalMeshActor.cpp:102-117 | After ceasing, any later poll stops at once and changes and sends nothing |
| ClientAuthThrowing.ThrowTimesOut | Plugins/VRExpansionPlugin/Source/VRExpansionPlugin/Private/Grippables/GrippableSkeletalMeshActor.cpp:123-128 | A throw is not polled beyond 10 s after it started |
| GrippableSkeletalMesh.GrippableSkeletalMeshActor.constructor | Plugins/VRExpansionPlugin/Source/VRExpansionPlugin/Private/Grippables/GrippableSkeletalMeshActor.cpp:55-85 | Not held, client-side movement, ignoring attachment allowed, default replication data, not in the bucket |
| GrippableSkeletalMesh.GrippableSkeletalMeshActor.CeaseReplicationBlocking | Plugins/VRExpansionPlugin/Source/VRExpansionPlugin/Private/Grippables/GrippableSkeletalMeshActor.cpp:102-112 | The replication data becomes the ceased data |
| GrippableSkeletalMesh.GrippableSkeletalMeshActor.PollReplicationEvent | Plugins/VRExpansionPlugin/Source/VRExpansionPlugin/Private/Grippables/GrippableSkeletalMeshActor.cpp:114-196 | Performs one poll step: the result and the new data are the poll's, and a sent movement is appended to the server requests. A false result removes the actor from the bucket subsystem; a true one keeps its registration |
| GrippableSkeletalMesh.GrippableSkeletalMeshActor.ServerGetClientAuthReplication | Plugins/VRExpansionPlugin/Source/VRExpansionPlugin/Private/Grippables/GrippableSkeletalMeshActor.cpp:203-207 | The server copies the client's movement into its replicated movement and then runs OnRep_ReplicatedMovement on it; on a server (any net mode but Client) the copied movement is always handed on to the engine |
| GrippableSkeletalMesh.GrippableSkeletalMeshActor.EndPlay | Plugins/VRExpansionPlugin/Source/VRExpansionPlugin/Private/Grippables/GrippableSkeletalMeshActor.cpp:244-263 | A live throw is removed from the bucket and ceased; otherwise nothing changes; client authority is off afterwards |
| GrippableSkeletalMesh.GrippableSkeletalMeshActor.OnRepAttachmentReplicationIgnored | Plugins/VRExpansionPlugin/Source/VRExpansionPlugin/Private/Grippables/GrippableSkeletalMeshActor.cpp:280-289 | Attachment is ignored exactly when allowed and this is a locally owned client-authoritative client, held or not |
| GrippableSkeletalMesh.GrippableSkeletalMeshActor.OnRepReplicateMovement | Plugins/VRExpansionPlugin/Source/VRExpansionPlugin/Private/Grippables/GrippableSkeletalMeshActor.cpp:291-317 | Ignored under the same condition. Otherwise the simulation is resynced first exactly when it differs from the replicated one |
| GrippableSkeletalMesh.GrippableSkeletalMeshActor.OnRepReplicatedMovementIgnored | Plugins/VRExpansionPlugin/Source/VRExpansionPlugin/Private/Grippables/GrippableSkeletalMeshActor.cpp:319-327 | Server movement is ignored exactly during this client's own client-authoritative throw |
| GrippableSkeletalMesh.GrippableSkeletalMeshActor.OnRepReplicatedMovement | Plugins/VRExpansionPlugin/Source/VRExpansionPlugin/Private/Grippables/GrippableSkeletalMeshActor.cpp:319-327 | The movement is handed on to the engine exactly when it is not ignored, and nothing is logged otherwise |
| GrippableSkeletalMesh.GrippableSkeletalMeshActor.PostNetReceivePhysicStateIgnored | Plugins/VRExpansionPlugin/Source/VRExpansionPlugin/Private/Grippables/GrippableSkeletalMeshActor.cpp:365-373 | Server physics state is ignored exactly while held by a locally owned client-authoritative client |
| GrippableSkeletalMesh.GrippableSkeletalMeshActor.AddToClientReplicationBucket | Plugins/VRExpansionPlugin/Source/VRExpansionPlugin/Private/Grippables/GrippableSkeletalMeshActor.cpp:392-407 | Succeeds exactly when replication is skipped, and then registers and starts the throw; otherwise nothing changes |
| GrippableSkeletalMesh.GrippableSkeletalMeshActor.IsHeld | Plugins/VRExpansionPlugin/Source/VRExpansionPlugin/Private/Grippables/GrippableSkeletalMeshActor.cpp:469-473 | Returns the duplicate-free holders and whether there is at least one |
| GrippableSkeletalMesh.GrippableSkeletalMeshActor.RemoveFromClientReplicationBucket | Plugins/VRExpansionPlugin/Source/VRExpansionPlugin/Private/Grippables/GrippableSkeletalMeshActor.cpp:475-485 | Succeeds exactly during a throw, and then unregisters and ceases; otherwise nothing changes |
| GrippableSkeletalMesh.GrippableSkeletalMeshActor.SetHeld | Plugins/VRExpansionPlugin/Source/VRExpansionPlugin/Private/Grippables/GrippableSkeletalMeshActor.cpp:492-517 | Gripping adds the pair once, sets bWasHeld and ends any throw. Releasing removes the pair and starts a throw exactly when client-authoritative throwing applies to a simulating root. bIsHeld tracks a non-empty holder list |
| GrippableStaticMesh.GrippableStaticMeshActor.constructor | Plugins/VRExpansionPlugin/Source/VRExpansionPlugin/Private/Grippables/GrippableStaticMeshActor.cpp:64-96 | Not held, client-side movement, ignoring attachment allowed, default replication data, not in the bucket |
| GrippableStaticMesh.GrippableStaticMeshActor.GetOwnedGameplayTags | Plugins/VRExpansionPlugin/Source/VRExpansionPlugin/Public/Grippables/GrippableStaticMeshActor.h:104-107 | The container receives exactly the actor's gameplay tags |
| GrippableStaticMesh.GrippableStaticMeshActor.CeaseReplicationBlocking | Plugins/VRExpansionPlugin/Source/VRExpansionPlugin/Private/Grippables/GrippableStaticMeshActor.cpp:113-123 | The replication data becomes the ceased data |
| GrippableStaticMesh.GrippableStaticMeshActor.PollReplicationEvent | Plugins/VRExpansionPlugin/Source/VRExpansionPlugin/Private/Grippables/GrippableStaticMeshActor.cpp:125-204 | Performs one poll step: the result and the new data are the poll's, and a sent movement is appended to the server requests. A false result removes the actor from the bucket subsystem; a true one keeps its registration |
| GrippableStaticMesh.GrippableStaticMeshActor.ServerGetClientAuthReplication | Plugins/VRExpansionPlugin/Source/VRExpansionPlugin/Private/Grippables/GrippableStaticMeshActor.cpp:211-215 | The server copies the client's movement into its replicated movement and then runs OnRep_ReplicatedMovement on it; on a server (any net mode but Client) the copied movement is always handed on to the engine |
| GrippableStaticMesh.GrippableStaticMeshActor.EndPlay | Plugins/VRExpansionPlugin/Source/VRExpansionPlugin/Private/Grippables/GrippableStaticMeshActor.cpp:252-271 | Always ceases, throw or not. It leaves the bucket only during a throw |
| GrippableStaticMesh.GrippableStaticMeshActor.OnRepAttachmentReplicationIgnored | Plugins/VRExpansionPlugin/Source/VRExpansionPlugin/Private/Grippables/GrippableStaticMeshActor.cpp:288-297 | Attachment is ignored exactly when allowed and this is a locally owned client-authoritative client, held or not |
| GrippableStaticMesh.GrippableStaticMeshActor.OnRepReplicateMovement | Plugins/VRExpansionPlugin/Source/VRExpansionPlugin/Private/Grippables/GrippableStaticMeshActor.cpp:299-325 | Ignored under the same condition. Otherwise the simulation is resynced first exactly when it differs from the replicated one |
| GrippableStaticMesh.GrippableStaticMeshActor.OnRepReplicatedMovementIgnored | Plugins/VRExpansionPlugin/Source/VRExpansionPlugin/Private/Grippables/GrippableStaticMeshActor.cpp:327-335 | Server movement is ignored exactly during this client's own client-authoritative throw |
| GrippableStaticMesh.GrippableStaticMeshActor.OnRepReplicatedMovement | Plugins/VRExpansionPlugin/Source/VRExpansionPlugin/Private/Grippables/GrippableStaticMeshActor.cpp:327-335 | The movement is handed on to the engine exactly when it is not ignored, and nothing is logged otherwise |
| GrippableStaticMesh.GrippableStaticMeshActor.PostNetReceivePhysicStateIgnored | Plugins/VRExpansionPlugin/Source/VRExpansionPlugin/Private/Grippables/GrippableStaticMeshActor.cpp:371-379 | Server physics state is ignored exactly while held by a locally owned client-authoritative client |
| GrippableStaticMesh.GrippableStaticMeshActor.AddToClientReplicationBucket | Plugins/VRExpansionPlugin/Source/VRExpansionPlugin/Private/Grippables/GrippableStaticMeshActor.cpp:400-415 | Succeeds exactly when replication is skipped, and then registers and starts the throw; otherwise nothing changes |
| GrippableStaticMesh.GrippableStaticMeshActor.IsHeld | Plugins/VRExpansionPlugin/Source/VRExpansionPlugin/Private/Grippables/GrippableStaticMeshActor.cpp:472-476 | Returns the duplicate-free holders and whether there is at least one |
| GrippableStaticMesh.GrippableStaticMeshActor.RemoveFromClientReplicationBucket | Plugins/VRExpansionPlugin/Source/VRExpansionPlugin/Private/Grippables/GrippableStaticMeshActor.cpp:478-488 | Succeeds exactly during a throw, and then unregisters and ceases; otherwise nothing changes |
| GrippableStaticMesh.GrippableStaticMeshActor.SetHeld | Plugins/VRExpansionPlugin/Source/VRExpansionPlugin/Private/Grippables/GrippableStaticMeshActor.cpp:495-520 | Gripping adds the pair once, sets bWasHeld and ends any throw. Releasing removes the pair and starts a throw exactly when client-authoritative throwing applies to a simulating root. bIsHeld tracks a non-empty holder list |
| Grippable.GrippableActor.constructor | Plugins/VRExpansionPlugin/Source/VRExpansionPlugin/Private/Grippables/GrippableActor.cpp:21-51 | Not held, client-side movement, ignoring attachment allowed, default replication data, not in the bucket |
| Grippable.GrippableActor.CeaseReplicationBlocking | Plugins/VRExpansionPlugin/Source/VRExpansionPlugin/Private/Grippables/GrippableActor.cpp:64-75 | The replication data becomes the ceased data |
| Grippable.GrippableActor.PollReplicationEvent | Plugins/VRExpansionPlugin/Source/VRExpansionPlugin/Private/Grippables/GrippableActor.cpp:77-164 | Performs one poll step: the result and the new data are the poll's, and a sent movement is appended to the server requests. A false result removes the actor from the bucket subsystem; a true one keeps its registration |
| Grippable.GrippableActor.ServerGetClientAuthReplication | Plugins/VRExpansionPlugin/Source/VRExpansionPlugin/Private/Grippables/GrippableActor.cpp:166-171 | The server copies the client's movement into its replicated movement and then runs OnRep_ReplicatedMovement on it; on a server (any net mode but Client) the copied movement is always handed on to the engine |
| Grippable.GrippableActor.EndPlay | Plugins/VRExpansionPlugin/Source/VRExpansionPlugin/Private/Grippables/GrippableActor.cpp:213-232 | A live throw is removed from the bucket and ceased; otherwise nothing changes; client authority is off afterwards |
| Grippable.GrippableActor.OnRepAttachmentReplicationIgnored | Plugins/VRExpansionPlugin/Source/VRExpansionPlugin/Private/Grippables/GrippableActor.cpp:250-259 | Attachment is ignored exactly when allowed, the object was held at least once, and this is a locally owned client-authoritative client |
| Grippable.GrippableActor.OnRepReplicateMovement | Plugins/VRExpansionPlugin/Source/VRExpansionPlugin/Private/Grippables/GrippableActor.cpp:261-290 | Ignored under the held-aware condition. Otherwise the simulation is resynced first exactly when it differs from the replicated one |
| Grippable.GrippableActor.OnRepReplicatedMovementIgnored | Plugins/VRExpansionPlugin/Source/VRExpansionPlugin/Private/Grippables/GrippableActor.cpp:292-300 | Server movement is ignored exactly during this client's own client-authoritative throw |
| Grippable.GrippableActor.OnRepReplicatedMovement | Plugins/VRExpansionPlugin/Source/VRExpansionPlugin/Private/Grippables/GrippableActor.cpp:292-300 | The movement is handed on to the engine exactly when it is not ignored, and nothing is logged otherwise |
| Grippable.GrippableActor.PostNetReceivePhysicStateIgnored | Plugins/VRExpansionPlugin/Source/VRExpansionPlugin/Private/Grippables/GrippableActor.cpp:341-349 | Server physics state is ignored exactly while held by a locally owned client-authoritative client |
| Grippable.GrippableActor.AddToClientReplicationBucket | Plugins/VRExpansionPlugin/Source/VRExpansionPlugin/Private/Grippables/GrippableActor.cpp:373-388 | Succeeds exactly when replication is skipped, and then registers and starts the throw; otherwise nothing changes |
| Grippable.GrippableActor.IsHeld | Plugins/VRExpansionPlugin/Source/VRExpansionPlugin/Private/Grippables/GrippableActor.cpp:459-463 | Returns the duplicate-free holders and whether there is at least one |
| Grippable.GrippableActor.RemoveFromClientReplicationBucket | Plugins/VRExpansionPlugin/Source/VRExpansionPlugin/Private/Grippables/GrippableActor.cpp:465-475 | Succeeds exactly during a throw, and then unregisters and ceases; otherwise nothing changes |
| Grippable.GrippableActor.SetHeld | Plugins/VRExpansionPlugin/Source/VRExpansionPlugin/Private/Grippables/GrippableActor.cpp:492-517 | Gripping adds the pair once, sets bWasHeld and ends any throw. Releasing removes the pair and starts a throw exactly when client-authoritative throwing applies to a simulating root. bIsHeld tracks a non-empty holder list |
| BaseCharacter.PackFlags | Plugins/VRExpansionPlugin/Source/VRExpansionPlugin/Public/VRBaseCharacter.h:48 | The flag byte fits in three bits |
| BaseCharacter.UnpackPackFlags | Plugins/VRExpansionPlugin/Source/VRExpansionPlugin/Public/VRBaseCharacter.h:48-52 | Unpacking the packed flags gives back sleeping, physics and teleported |
| BaseCharacter.PackUnpackFlags | Plugins/VRExpansionPlugin/Source/VRExpansionPlugin/Public/VRBaseCharacter.h:48-52 | Every three-bit value is the packing of the flags it unpacks to |
| BaseCharacter.SaveMovement | Plugins/VRExpansionPlugin/Source/VRExpansionPlugin/Public/VRBaseCharacter.h:43-83 | Writes the flag bits first, four fields or five with physics. bOutSuccess holds exactly when location, linear velocity and (with physics) angular velocity fit their quantization, and then the fields are the movement exactly; a value that does not fit is written clamped. NetSerialize returns true regardless |
| BaseCharacter.LoadMovement | Plugins/VRExpansionPlugin/Source/VRExpansionPlugin/Public/VRBaseCharacter.h:43-83 | Loads exactly when the archive holds the expected layout, reporting success as the engine's readers do. It keeps the receiver's quantization, and keeps its angular velocity when physics is not replicated |
| BaseCharacter.MovementRoundTrip | Plugins/VRExpansionPlugin/Source/VRExpansionPlugin/Public/VRBaseCharacter.h:43-83 | Loading what was saved delivers the movement as written (clamped where it did not fit) and consumes exactly the saved fields; when the sender's bOutSuccess holds, it delivers every sent field of the original |
| BaseCharacter.MovementReceivedBySender | Plugins/VRExpansionPlugin/Source/VRExpansionPlugin/Public/VRBaseCharacter.h:50-80 | A receiver already holding the sent movement ends with it exactly |
| BaseCharacter.TempValsCleared | Plugins/VRExpansionPlugin/Source/VRExpansionPlugin/Public/VRBaseCharacter.h:128-134 | Exactly the four per-seating temporaries are reset |
| BaseCharacter.ClearedSeatHasNoTempVals | Plugins/VRExpansionPlugin/Source/VRExpansionPlugin/Public/VRBaseCharacter.h:111-134 | ClearTempVals after Clear changes nothing |
| BaseCharacter.SaveSeat | Plugins/VRExpansionPlugin/Source/VRExpansionPlugin/Public/VRBaseCharacter.h:138-169 | The camera transform and the radii are saved only while sitting. bOutSuccess holds exactly when the saved transforms fit and the saved radii lie within 256 of zero, and then the fields are the state exactly. The last three fields are always the target transform as written, the seat parent and the movement mode. NetSerialize returns bOutSuccess |
| BaseCharacter.LoadSeat | Plugins/VRExpansionPlugin/Source/VRExpansionPlugin/Public/VRBaseCharacter.h:138-169 | Loads exactly the expected layout, reporting success as the engine's readers do; only the fields on the wire change, and the camera transform and radii are left alone when not sitting |
| BaseCharacter.SeatRoundTrip | Plugins/VRExpansionPlugin/Source/VRExpansionPlugin/Public/VRBaseCharacter.h:138-169 | Loading what was saved delivers the state as written (radii clamped to 256 either side of zero, transforms clamped where they did not fit) and consumes exactly the saved fields; when the sender's bOutSuccess holds, it delivers every sent field of the original |
| BaseCharacter.LargeRadiusArrivesClamped | Plugins/VRExpansionPlugin/Source/VRExpansionPlugin/Public/VRBaseCharacter.h:146-154 | A seated radius above 256 fails the save and arrives as 256 |
| BaseCharacter.SeatReceivedBySender | Plugins/VRExpansionPlugin/Source/VRExpansionPlugin/Public/VRBaseCharacter.h:142-166 | A receiver already holding the sent seat state ends with it exactly |
| BaseCharacter.TempValsAreNotSent | Plugins/VRExpansionPlugin/Source/VRExpansionPlugin/Public/VRBaseCharacter.h:128-169 | Clearing the temporaries does not change what is sent |
| BaseCharacter.ClearedSeatOnTheWire | Plugins/VRExpansionPlugin/Source/VRExpansionPlugin/Public/VRBaseCharacter.h:111-169 | A cleared seat goes out as: not sitting, zero to head, identity target, no parent, walking, with bOutSuccess when the identity transform fits |
| BaseCharacter.SeatedCharacterInfo.constructor | Plugins/VRExpansionPlugin/Source/VRExpansionPlugin/Public/VRBaseCharacter.h:104-107 | Construction leaves the cleared state |
| BaseCharacter.SeatedCharacterInfo.Clear | Plugins/VRExpansionPlugin/Source/VRExpansionPlugin/Public/VRBaseCharacter.h:111-126 | Not seated, radii 40 and 20, zero to head, threshold scaler 0, identity transforms, no seat parent, walking |
| BaseCharacter.SeatedCharacterInfo.ClearTempVals | Plugins/VRExpansionPlugin/Source/VRExpansionPlugin/Public/VRBaseCharacter.h:128-134 | The state becomes the old state with the temporaries reset |
| BaseCharacter.SeatedCharacterInfo.NetSerializeSave | Plugins/VRExpansionPlugin/Source/VRExpansionPlugin/Public/VRBaseCharacter.h:138-169 | Saving produces the seat layout of the current fields |
| BaseCharacter.SeatedCharacterInfo.NetSerializeLoad | Plugins/VRExpansionPlugin/Source/VRExpansionPlugin/Public/VRBaseCharacter.h:138-169 | Loading takes the loaded state; an archive without the seat layout changes nothing and reports failure |
| BaseCharacter.OnRepCapsuleHeight | Plugins/VRExpansionPlugin/Source/VRExpansionPlugin/Public/VRBaseCharacter.h:428-439 | Resizes exactly with replication on, a capsule root, a positive height and one not nearly equal to the current one, and then to the replicated height |
| BaseCharacter.CapsuleResizeSettles | Plugins/VRExpansionPlugin/Source/VRExpansionPlugin/Public/VRBaseCharacter.h:428-439 | After resizing to the replicated height, a repeated notification does nothing |
| Slider.ClampedRatio | Plugins/VRExpansionPlugin/Source/VRExpansionPlugin/Private/Interactibles/VRSliderComponent.cpp:621-625 | The clamped ratio is in [0, 1], and equals the ratio when that is in range |
| Slider.GetCurrentSliderProgress | Plugins/VRExpansionPlugin/Source/VRExpansionPlugin/Private/Interactibles/VRSliderComponent.cpp:605-626 | The progress is in [0, 1]. On a line inside the slide it is the exact fraction covered |
| Slider.SplineDistance | Plugins/VRExpansionPlugin/Source/VRExpansionPlugin/Private/Interactibles/VRSliderComponent.cpp:615-620 | The interpolated spline distance lies between the distances at the two surrounding points |
| Slider.SplineProgressInterpolates | Plugins/VRExpansionPlugin/Source/VRExpansionPlugin/Private/Interactibles/VRSliderComponent.cpp:615-621 | On a spline inside its length, the progress is the interpolated distance over the length |
| Slider.ClampSlideAxisWithinSlide | Plugins/VRExpansionPlugin/Source/VRExpansionPlugin/Private/Interactibles/VRSliderComponent.cpp:577-603 | A clamped coordinate lies between the two ends of the slide |
| Slider.ClampSlideAxisKeepsOnSlide | Plugins/VRExpansionPlugin/Source/VRExpansionPlugin/Private/Interactibles/VRSliderComponent.cpp:584-602 | Without snapping, a coordinate already on the slide is unchanged |
| Slider.ClampSlideAxisIdempotent | Plugins/VRExpansionPlugin/Source/VRExpansionPlugin/Private/Interactibles/VRSliderComponent.cpp:584-602 | Without snapping, clamping twice is clamping once |
| Slider.ClampSlideVector | Plugins/VRExpansionPlugin/Source/VRExpansionPlugin/Private/Interactibles/VRSliderComponent.cpp:577-603 | Every axis of the result lies between the two ends of its slide |
| Slider.ClampSlideVectorIdempotent | Plugins/VRExpansionPlugin/Source/VRExpansionPlugin/Private/Interactibles/VRSliderComponent.cpp:577-603 | Without snapping, ClampSlideVector is a projection |
| Slider.FirstCheckOnlyRecords | Plugins/VRExpansionPlugin/Source/VRExpansionPlugin/Private/Interactibles/VRSliderComponent.cpp:94-98 | With no last state, a check records the progress and fires nothing |
| Slider.HitPointOnlyAtEnds | Plugins/VRExpansionPlugin/Source/VRExpansionPlugin/Private/Interactibles/VRSliderComponent.cpp:99-117 | Without snap points, an event fires only at 0 or 1 and reports that end, which becomes the last state. The threshold is then disarmed unless it is not positive |
| Slider.EndAlwaysFires | Plugins/VRExpansionPlugin/Source/VRExpansionPlugin/Private/Interactibles/VRSliderComponent.cpp:99-116 | Reaching an end from elsewhere, or with the threshold armed, fires that end |
| Slider.ThresholdArms | Plugins/VRExpansionPlugin/Source/VRExpansionPlugin/Private/Interactibles/VRSliderComponent.cpp:119-122 | The threshold is armed whenever the progress is EventThrowThreshold or more from the last state |
| Slider.CheckKeepsLastStateValid | Plugins/VRExpansionPlugin/Source/VRExpansionPlugin/Private/Interactibles/VRSliderComponent.cpp:91-123 | The last state stays unset (-1) or in [0, 1] |
| Slider.LerpStaysOnSlide | Plugins/VRExpansionPlugin/Source/VRExpansionPlugin/Private/Interactibles/VRSliderComponent.cpp:174-218 | A glide step never leaves [0, 1] |
| Slider.LerpPinsAtEnds | Plugins/VRExpansionPlugin/Source/VRExpansionPlugin/Private/Interactibles/VRSliderComponent.cpp:186-213 | Reaching an end pins the slider there. It bounces with reversed, scaled momentum under positive restitution, and stops otherwise. Inside the slide it moves by momentum times delta time |
| Slider.BounceLosesSpeed | Plugins/VRExpansionPlugin/Source/VRExpansionPlugin/Private/Interactibles/VRSliderComponent.cpp:188-205 | With a restitution in (0, 1], a step that is not negligible leaves a momentum no larger in magnitude than the decayed momentum, even when it bounces. A negligible step keeps the momentum it had |
| Slider.RollingMomentum | Plugins/VRExpansionPlugin/Source/VRExpansionPlugin/Private/Interactibles/VRSliderComponent.cpp:503-506 | The averaged momentum never exceeds MaxSliderMomentum |
| Slider.RollingMomentumSteady | Plugins/VRExpansionPlugin/Source/VRExpansionPlugin/Private/Interactibles/VRSliderComponent.cpp:503-506 | A steady speed below the cap is kept as the momentum |
| Slider.VRSliderComponent.constructor | Plugins/VRExpansionPlugin/Source/VRExpansionPlugin/Private/Interactibles/VRSliderComponent.cpp:20-72 | The constructor's defaults, with the last state unset |
| Slider.VRSliderComponent.BeginPlay | Plugins/VRExpansionPlugin/Source/VRExpansionPlugin/Private/Interactibles/VRSliderComponent.cpp:81-89 | Measures the progress and saves the replication setting |
| Slider.VRSliderComponent.CheckSliderProgress | Plugins/VRExpansionPlugin/Source/VRExpansionPlugin/Private/Interactibles/VRSliderComponent.cpp:91-123 | Takes the checked state, and appends a fired event to the hit-point events |
| Slider.VRSliderComponent.SetSliderProgress | Plugins/VRExpansionPlugin/Source/VRExpansionPlugin/Private/Interactibles/VRSliderComponent.cpp:676-714 | The progress becomes the argument clamped to [0, 1] |
| Slider.VRSliderComponent.TickComponent | Plugins/VRExpansionPlugin/Source/VRExpansionPlugin/Private/Interactibles/VRSliderComponent.cpp:169-233 | Not gliding changes nothing. A glide step moves the slider. A glide that ends fires the finished event, stops ticking and restores replication. A check follows every step |
| Slider.VRSliderComponent.Glide | Plugins/VRExpansionPlugin/Source/VRExpansionPlugin/Private/Interactibles/VRSliderComponent.cpp:174-218 | The progress and momentum take one glide step |
| Slider.VRSliderComponent.OnGrip | Plugins/VRExpansionPlugin/Source/VRExpansionPlugin/Private/Interactibles/VRSliderComponent.cpp:302-326 | Resets the hit-point state and the glide. Takes the current progress as the momentum reference. Stops replication unless server-side |
| Slider.VRSliderComponent.OnGripRelease | Plugins/VRExpansionPlugin/Source/VRExpansionPlugin/Private/Interactibles/VRSliderComponent.cpp:328-345 | A slider that does not stay glides with ticking on and replication off unless server-side. One that stays stops ticking and restores replication |
| Slider.VRSliderComponent.SetHeld | Plugins/VRExpansionPlugin/Source/VRExpansionPlugin/Private/Interactibles/VRSliderComponent.cpp:364-386 | Holding stops replication, saving the original only when neither held nor gliding. Releasing clears the grip and restores the original. Server-side movement leaves replication alone. bIsHeld equals the argument |
| Slider.VRSliderComponent.IsHeld | Plugins/VRExpansionPlugin/Source/VRExpansionPlugin/Private/Interactibles/VRSliderComponent.cpp:288-300 | Returns the one holding grip, if any, and bIsHeld |
| Slider.VRSliderComponent.TickGrip | Plugins/VRExpansionPlugin/Source/VRExpansionPlugin/Private/Interactibles/VRSliderComponent.cpp:399-519 | The progress becomes the measured one. With RetainMomentum the momentum is the capped rolling average. A check follows. The grip drops exactly beyond a positive break distance |
| Overlaps.IndexOfOverlapFast | Plugins/VRExpansionPlugin/Source/VRExpansionPlugin/Private/VRRootComponent.cpp:217-229 | Returns INDEX_NONE exactly when the item is absent, and otherwise its first index |
| Overlaps.AddedUniqueKeepsList | Plugins/VRExpansionPlugin/Source/VRExpansionPlugin/Private/VRRootComponent.cpp:198-215 | Adding uniquely keeps the list duplicate-free and every old entry in place, and the list then holds the item |
| Overlaps.AddUniqueOverlapFast | Plugins/VRExpansionPlugin/Source/VRExpansionPlugin/Private/VRRootComponent.cpp:198-215 | Appends the item exactly when it is absent |
| Overlaps.RemoveAtSwap | Plugins/VRExpansionPlugin/Source/VRExpansionPlugin/Private/VRRootComponent.cpp:1352-1353 | Removes exactly one occurrence of the element at the index, keeping the entries before it |
| Overlaps.CountAtMostOne | Plugins/VRExpansionPlugin/Source/VRExpansionPlugin/Private/VRRootComponent.cpp:1343-1356 | In a duplicate-free list every item occurs at most once |
| Overlaps.RemoveCommonOverlaps | Plugins/VRExpansionPlugin/Source/VRExpansionPlugin/Private/VRRootComponent.cpp:1343-1356 | The same entries leave both lists, and none is left in both. On duplicate-free lists the old remainder is old minus new and the new remainder is new minus old |
| Overlaps.RemaindersAreDifferences | Plugins/VRExpansionPlugin/Source/VRExpansionPlugin/Private/VRRootComponent.cpp:1338-1356 | Removing the same entries from two duplicate-free lists, leaving nothing in common, leaves their two differences |
| RootSweep.TimeBack | Plugins/VRExpansionPlugin/Source/VRExpansionPlugin/Private/VRRootComponent.cpp:69 | The pull-back is positive |
| RootSweep.PullBackDistance | Plugins/VRExpansionPlugin/Source/VRExpansionPlugin/Private/VRRootComponent.cpp:69 | In world units a hit moves back between 0.1 and 1 unit, plus a thousandth of the sweep |
| RootSweep.PullBackHit | Plugins/VRExpansionPlugin/Source/VRExpansionPlugin/Private/VRRootComponent.cpp:67-74 | A pulled-back time lies in [0, 1] |
| RootSweep.PullBackHitMovesBack | Plugins/VRExpansionPlugin/Source/VRExpansionPlugin/Private/VRRootComponent.cpp:67-74 | A hit after the start moves strictly earlier, and one at or before it lands at 0 |
| RootSweep.PullBackHitMonotone | Plugins/VRExpansionPlugin/Source/VRExpansionPlugin/Private/VRRootComponent.cpp:67-74 | Pulling back keeps hits in time order |
| RootSweep.ShouldIgnoreHitResult | Plugins/VRExpansionPlugin/Source/VRExpansionPlugin/Private/VRRootComponent.cpp:89-156 | Only blocking hits are ignored: a simulating component without simulating collision, a base with IgnoreBases, or an initial or near hit moving out of the surface unless blocking overlaps are never ignored |
| RootSweep.ShouldIgnoreOverlapResult | Plugins/VRExpansionPlugin/Source/VRExpansionPlugin/Private/VRRootComponent.cpp:158-194 | The component never overlaps itself. An overlap is kept exactly when both sides generate overlaps (if checked), both have actors, and the world and the other actor are ready |
| RootSweep.PulledBack | Plugins/VRExpansionPlugin/Source/VRExpansionPlugin/Private/VRRootComponent.cpp:942-950 | Every hit keeps all its fields but the time. The new time lies in [0, 1], and it is earlier than the old time when that was positive |
| RootSweep.PulledBackOnSweepInOrder | Plugins/VRExpansionPlugin/Source/VRExpansionPlugin/Private/VRRootComponent.cpp:942-950 | Pulled-back hits lie on the sweep and stay in time order |
| RootSweep.Scan | Plugins/VRExpansionPlugin/Source/VRExpansionPlugin/Private/VRRootComponent.cpp:956-1015 | The blocking index is a handled hit or none, and the first later overlap index lies in the pending list |
| RootSweep.ScanStaysDone | Plugins/VRExpansionPlugin/Source/VRExpansionPlugin/Private/VRRootComponent.cpp:961-1015 | After the loop breaks off, later hits change nothing |
| RootSweep.ScanWithNothingToFind | Plugins/VRExpansionPlugin/Source/VRExpansionPlugin/Private/VRRootComponent.cpp:956-1023 | Without a blocking hit and without gathering overlaps, the loop finds nothing, so skipping it is sound |
| RootSweep.ScanChoosesValidBlockingHit | Plugins/VRExpansionPlugin/Source/VRExpansionPlugin/Private/VRRootComponent.cpp:961-988 | The chosen hit is a blocking hit the move does not ignore |
| RootSweep.ScanChoosesMostOpposedInitialHit | Plugins/VRExpansionPlugin/Source/VRExpansionPlugin/Private/VRRootComponent.cpp:969-979 | Of the initial blocking hits, the chosen one has the smallest normal-dot-delta, strictly smaller than every earlier one |
| RootSweep.ScanChoosesFirstLaterHit | Plugins/VRExpansionPlugin/Source/VRExpansionPlugin/Private/VRRootComponent.cpp:980-987 | A later hit is chosen only when no initial hit was chosen before it, and the loop stops right after it. With none chosen, the loop ran to the end |
| RootSweep.ScanPendingAreAcceptedTouches | Plugins/VRExpansionPlugin/Source/VRExpansionPlugin/Private/VRRootComponent.cpp:990-1013 | The pending overlaps are exactly the accepted touches handled, without duplicates |
| RootSweep.ScanQueuesNoTouchAfterBlockingHit | Plugins/VRExpansionPlugin/Source/VRExpansionPlugin/Private/VRRootComponent.cpp:998-1002 | With hits in time order, no queued touch comes after the blocking hit |
| RootSweep.FromTouchesAtStartGrows | Plugins/VRExpansionPlugin/Source/VRExpansionPlugin/Private/VRRootComponent.cpp:1004-1011 | Extending the pending list and the handled hits keeps the overlaps traced to touches at the start |
| RootSweep.ScanMarksFirstLaterTouch | Plugins/VRExpansionPlugin/Source/VRExpansionPlugin/Private/VRRootComponent.cpp:1004-1008 | Every pending overlap before FirstNonInitialOverlapIdx comes from a touch at the start. With the index unset, every queued touch is at the start |
| RootSweep.SelectBlockingHit | Plugins/VRExpansionPlugin/Source/VRExpansionPlugin/Private/VRRootComponent.cpp:954-1023 | The loop computes the fold's blocking index, pending overlaps and first later overlap index |
| RootSweep.MinMovementDistSq | Plugins/VRExpansionPlugin/Source/VRExpansionPlugin/Private/VRRootComponent.cpp:842 | The minimum move is positive exactly for a sweep |
| RootSweep.SweepEndsAtReportedTime | Plugins/VRExpansionPlugin/Source/VRExpansionPlugin/Private/VRRootComponent.cpp:1026-1055 | Without a hit the full delta is taken. Otherwise the component ends at the reported hit's time, and a tiny move is dropped with the time set to 0. The overlaps passed on are a prefix of those queued |
| RootComponent.EditedHalfHeight | Plugins/VRExpansionPlugin/Source/VRExpansionPlugin/Private/VRRootComponent.cpp:653-656 | The corrected half height is at least 0 and at least the radius, and a valid one is kept |
| RootComponent.EditedRadius | Plugins/VRExpansionPlugin/Source/VRExpansionPlugin/Private/VRRootComponent.cpp:657-660 | The corrected radius lies in [0, half height], and a valid one is kept |
| RootComponent.CapsuleEditsKeepShape | Plugins/VRExpansionPlugin/Source/VRExpansionPlugin/Private/VRRootComponent.cpp:653-660 | Any value typed into a valid capsule leaves a valid capsule, and the corrections are idempotent |
| RootComponent.KeptQueryOverlaps | Plugins/VRExpansionPlugin/Source/VRExpansionPlugin/Private/VRRootComponent.cpp:1305-1318 | The kept query results are exactly those passing the filter, never this component |
| RootComponent.OtherActorsOverlaps | Plugins/VRExpansionPlugin/Source/VRExpansionPlugin/Private/VRRootComponent.cpp:1329-1336 | Exactly the overlaps whose component is gone or belongs to another actor |
| RootComponent.LiveOverlaps | Plugins/VRExpansionPlugin/Source/VRExpansionPlugin/Private/VRRootComponent.cpp:1370-1386 | Exactly the overlaps whose component is still there |
| RootComponent.CountsAtMostOneNoDuplicates | Plugins/VRExpansionPlugin/Source/VRExpansionPlugin/Private/VRRootComponent.cpp:1383 | A list in which every item occurs at most once is duplicate-free |
| RootComponent.PullBackHits | Plugins/VRExpansionPlugin/Source/VRExpansionPlugin/Private/VRRootComponent.cpp:942-950 | The hit array, in place, becomes the pulled-back hits |
| RootComponent.GatherQueryOverlaps | Plugins/VRExpansionPlugin/Source/VRExpansionPlugin/Private/VRRootComponent.cpp:1305-1318 | The filtering loop yields the kept query overlaps |
| RootComponent.VRRootComponent.constructor | Plugins/VRExpansionPlugin/Source/VRExpansionPlugin/Private/VRRootComponent.cpp:237-308 | Radius 20, half height 96, no simulating collision, no overlaps or events yet |
| RootComponent.VRRootComponent.PostEditChangeProperty | Plugins/VRExpansionPlugin/Source/VRExpansionPlugin/Private/VRRootComponent.cpp:647-674 | Only the edited capsule field is corrected |
| RootComponent.VRRootComponent.MoveComponentImpl | Plugins/VRExpansionPlugin/Source/VRExpansionPlugin/Private/VRRootComponent.cpp:800-1155 | A pending-kill or registered static component does not move. A tiny move without rotation reports success and stays. Otherwise it moves by the delta, or along the sweep to the chosen hit. It reports movement exactly when location or rotation changed, and dispatches the blocking hit unless blocking-overlap dispatch is disabled for a penetrating one |
| RootComponent.VRRootComponent.SweepWithCollision | Plugins/VRExpansionPlugin/Source/VRExpansionPlugin/Private/VRRootComponent.cpp:938-1055 | The sweep branch computes the pulled-back selection and its end of move |
| RootComponent.VRRootComponent.EndOldOverlaps | Plugins/VRExpansionPlugin/Source/VRExpansionPlugin/Private/VRRootComponent.cpp:1358-1387 | Each leftover old overlap leaves OverlappingComponents: a live one through EndComponentOverlap, which ends it, a stale one by removal. Exactly the live ones end, and the list stays duplicate-free |
| RootComponent.VRRootComponent.RemoveOverlapAt | Plugins/VRExpansionPlugin/Source/VRExpansionPlugin/Private/VRRootComponent.cpp:1378-1384 | Exactly the entry at the index leaves OverlappingComponents |
| RootComponent.VRRootComponent.UpdateOverlapsImpl | Plugins/VRExpansionPlugin/Source/VRExpansionPlugin/Private/VRRootComponent.cpp:1220-1435 | The pending overlaps begin first and join the list. Against the list as it then stands, the old overlaps not among the new ones end (stale ones are dropped). The new ones that can overlap and are not yet in the list begin, and they join it. With overlap events or query collision off, every live overlap ends and only stale entries stay. The skip result combines children and the physics volume |
| RootComponent.VRRootComponent.CompareOverlaps | Plugins/VRExpansionPlugin/Source/VRExpansionPlugin/Private/VRRootComponent.cpp:1326-1388 | The old overlaps not among the new ones leave the list, and exactly the live ones end. It returns new overlaps only, and every new overlap it does not return is still in the list |
| RootComponent.VRRootComponent.BeginComponentOverlap | Plugins/VRExpansionPlugin/Source/VRExpansionPlugin/Private/VRRootComponent.cpp:1242-1247 | Unless the component is pending kill, an overlap not yet in the list, whose component can overlap this one, is appended to the list and begun. Anything else changes nothing |
| RootComponent.VRRootComponent.BeginComponentOverlaps | Plugins/VRExpansionPlugin/Source/VRExpansionPlugin/Private/VRRootComponent.cpp:1240-1248 | After beginning a list of overlaps in order, the list is BeginAll of the old list, and what was appended is exactly what began |
| RootComponent.BeginAll | Plugins/VRExpansionPlugin/Source/VRExpansionPlugin/Private/VRRootComponent.cpp:1240-1248 | Beginning overlaps keeps the old list as a prefix and keeps it duplicate-free. The list then holds the old entries and the given overlaps that can overlap, and the appended part is exactly those among them that were not there before, each once |
| RootComponent.CanOverlapOverlaps | Plugins/VRExpansionPlugin/Source/VRExpansionPlugin/Private/VRRootComponent.cpp:1280-1285 | FPredicateFilterCanOverlap keeps exactly the overlaps whose component is live and can overlap this one |
| RootComponent.VRRootComponent.EndComponentOverlap | Plugins/VRExpansionPlugin/Source/VRExpansionPlugin/Private/VRRootComponent.cpp:1372-1375 | Only a live overlap that is in the list ends, and it leaves the list. Any other overlap changes nothing |
| RootComponent.VRRootComponent.ClearComponentOverlaps | Plugins/VRExpansionPlugin/Source/VRExpansionPlugin/Private/VRRootComponent.cpp:1401-1410 | Every live overlap ends and leaves the list. Stale entries, which EndComponentOverlap ignores, stay |
| RootComponent.VRRootComponent.GatherOverlapsAtEnd | Plugins/VRExpansionPlugin/Source/VRExpansionPlugin/Private/VRRootComponent.cpp:1250-1323 | The new overlaps are none for a pending-kill component. Otherwise they are the cached list (filtered by FPredicateFilterCanOverlap after pending overlaps) or the kept query results |
| RootComponent.VRRootComponent.CompareAndBeginOverlaps | Plugins/VRExpansionPlugin/Source/VRExpansionPlugin/Private/VRRootComponent.cpp:1325-1398 | The old overlaps (as the list now stands) that are not among the new ones end or are dropped. The new ones that can overlap and are not yet in the list begin, each once. The list ends up with the entries kept plus the new overlaps that can overlap |
| RootComponent.NewBeginsAfterComparison | Plugins/VRExpansionPlugin/Source/VRExpansionPlugin/Private/VRRootComponent.cpp:1325-1398 | After the comparison, beginning what it returned begins exactly the new overlaps that can overlap and were not in the list |
| RootComponent.RepeatedComparisonIsQuiet | Plugins/VRExpansionPlugin/Source/VRExpansionPlugin/Private/VRRootComponent.cpp:1325-1398 | After an update, every old overlap to compare is among the same new overlaps, and every new one that can overlap is already in the list |
| RootComponent.VRRootComponent.UpdateOverlapsTwice | Plugins/VRExpansionPlugin/Source/VRExpansionPlugin/Private/VRRootComponent.cpp:1220-1400 | A second update with the same overlaps at the end and no pending overlaps begins nothing, ends nothing and keeps the list |

## Left out

- Engine queries are inputs, not computations:
  - the geometry of `ComponentSweepMulti` and `ComponentOverlapMulti`;
  - body transforms, `IsAnySimulatingPhysics` and `IsAwake`;
  - `GetSafeNormal`, the square root of the delta's size, and `FInterpTo`;
  - the `Fmod` snap test, `GetThresholdSnappedValue` and spline reparameterisation.
  - `FRepMovement::RebaseOntoZeroOrigin`: locations are taken as already rebased;
  - the restored flag that `ApplyRigidBodyState` returns;
  - `SyncComponentToRBPhysics`, which is not modelled because it changes only the engine's component transform.
- The timer manager, the bucket update subsystem and RPC delivery are not modelled as services. The ping timer is the time its callback is due. Registration with the bucket is a boolean. `Server_GetClientAuthReplication` is a method the server runs, and a client's call is a list of requests.
- Quantized and compressed-float serialization (`SerializeQuantizedVector`, `WriteFixedCompressedFloat`) is reduced to archive fields that carry the value as written. Whether a vector or transform fits its encoding, and what it is clamped to, are inputs (`Quantizers`). The fixed-point radii are clamped to exactly 256 either side of zero; the 16-bit precision inside that range is not modelled, so a radius in range arrives unchanged. The transforms' engine NetSerialize is taken to clear bOutSuccess only for a transform that does not fit, never to set it. No bit-exact layout is claimed.
- BaseCharacter.LoadMovement: an archive that does not hold the expected layout is modelled as an abort (`Malformed`), leaving the receiver unchanged. The source has no such check: it reads whatever bits follow, and a short archive yields zero-filled values with the archive's own error flag set. Archive errors are not modelled, and a loader on a well-formed archive always reports success.
- BaseCharacter.LoadSeat: the same abort on an archive without the seat layout; archive errors are not modelled.
- BaseCharacter.SeatedCharacterInfo.NetSerializeLoad: the same abort, which leaves the seat state unchanged; archive errors are not modelled.
- Floating point is modelled as `real`. The model does not capture NaN, rounding, or `float` overflow. The one exception is the zero denominator in `ClampedRatio` and `ClampSlideAxis`, which is handled as the engine's clamp handles an infinity.
- GripInterface.TransformChanged: exact inequality stands for `FTransform::Equals` with its tolerance.
- RootComponent.VRRootComponent.MoveComponentImpl: a changed rotation is judged by exact inequality of the quaternions, not `Equals` with a tolerance. `InternalSetWorldLocationAndRotation` is taken to succeed exactly when location or rotation differs.
- RootComponent.VRRootComponent.MoveComponentImpl: deferred (scoped) movement updates are left out. So are teleport and `SkipPhysicsMove`, `AreSymmetricRotations` and `bIncludesOverlapsAtEnd`. The conversion of swept or rotated overlaps into current overlaps is also left out; the end-location overlaps are an input to `UpdateOverlapsImpl`.
- RootComponent.VRRootComponent.MoveComponentImpl: it returns the pending overlaps and does not call `UpdateOverlaps` itself. `UpdateOverlapsImpl` is modelled as a separate method. `OffsetComponentToWorld` and the component location are one location. `GenerateOffsetToWorld` is not modelled.
- RootComponent.VRRootComponent.UpdateOverlapsImpl: `BeginComponentOverlap`, `EndComponentOverlap` and `ClearComponentOverlaps` are the engine's `UPrimitiveComponent` members. They are modelled by their effect on `OverlappingComponents` plus a log of the overlaps begun and ended. Their notifications, the reflexive entry in the other component's list and the overlap counter are left out. So is anything a notification changes, for example overlap events turned off by a begin-overlap handler. `CanComponentsGenerateOverlap` is an input (`canOverlap`). `DispatchBlockingHit` is a log. Children's `UpdateOverlaps` and the physics-volume update are given as their outcomes.
- RootComponent.VRRootComponent.UpdateOverlapsImpl: the choice between the cached end overlaps and a new query (`p.AllowCachedOverlaps`, the unchanged transform) is made by the caller through `EndOverlaps`. When the cached list is empty and there are pending overlaps, the caller hands in the converted pending overlaps; `ConvertSweptOverlapsToCurrentOverlaps` is an engine query and is not modelled.
- Overlaps.OverlapInfo: `FOverlapInfo` keeps only the component and the body index, which are the two things `FFastOverlapInfoCompare` compares. The swept hit result it carries is not modelled. A stale component is `None`, so two stale entries with the same body index compare equal. The engine's `HasSameIndexAndSerialNumber` still tells them apart. The model can therefore treat two different stale entries as one when removing them.
- The end-location overlap list is an input: the choice between cached overlaps (`AllowCachedOverlaps`, `PrevTransform`) and a fresh overlap query is made outside the model. `FPredicateFilterCanOverlap` is part of the filter's input.
- Debug drawing, logging and console-variable lookups are left out. The CVar values (`p.HitDistanceTolerance`, `p.InitialOverlapTolerance`, `p.AllowCachedOverlaps` and the blocking-overlap dispatch switch) are parameters.
- Grip scripts, `BeginDestroy`, `GetLifetimeReplicatedProps`, `PreReplication`, `GetNavigationData`, `TickComponent` of the root component, render-thread work and HMD poses are not modelled. Each of these delegates to the engine.
- The slider's tracking geometry in `TickGrip` (hand position, `InitialInteractorLocation`, spline projection) is reduced to the measured progress and a flag saying that the hand is beyond `BreakDistance`.
- Slider.VRSliderComponent.TickGrip: the scaling by `bSlideDistanceIsInParentSpace` and the threshold snapping of spline progress (`GetThresholdSnappedValue`) are folded into the measured progress input.
- Fields that the source constructors do not set are left unspecified by the constructors' contracts.

## Findings

| source | as written | input that shows it | evidently intended | confidence | as-written member | corrected member |
|---|---|---|---|---|---|---|
| Plugins/VRExpansionPlugin/Source/VRExpansionPlugin/Public/Grippables/GrippablePhysicsReplication.h:52-62 | The converting constructor's body statement `FRepMovementVR();` builds a temporary that is discarded, so the object keeps the engine's default quantization levels | any `other`, for example the engine's default movement | select RoundTwoDecimals for location and velocity and ShortComponents for rotation, as the default constructor does | not executed | PhysicsReplication.ConvertingConstructorLosesVRQuantization | PhysicsReplication.RepMovementVRFromIntended |

The rest of the model follows the code as written. Gathering on the client starts from the default constructor (`PhysicsReplication.RepMovementVRDefault`), so the finding does not affect what is sent.

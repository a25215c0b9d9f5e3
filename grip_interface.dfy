// What the three grippable actors share: the grip bookkeeping of the
// IVRGripInterface (holding controllers, held flags), the decision
// ShouldWeSkipAttachmentReplication declared in GrippableStaticMeshActor.h,
// and the engine state their client-authoritative throwing consults.

module GripInterface {
  import opened EngineTypes
  import opened UnrealMath
  import opened PhysicsReplication

  /** FBPGripPair: the motion controller that holds the object and the grip's id. */
  datatype GripPair = GripPair(holdingController: ObjectId, gripID: uint8)

  /** EGripMovementReplicationSettings */
  datatype GripMovementReplicationSettings =
    | KeepOriginalMovement
    | ForceServerSideMovement
    | ForceClientSideMovement
    | ClientSideAuthoritive
    | ClientSideAuthoritiveNoRep

  /** The part of FBPInterfaceProperties that the replication logic reads and writes. */
  datatype GripInterfaceSettings = GripInterfaceSettings(
    movementReplicationType: GripMovementReplicationSettings,
    holdingControllers: seq<GripPair>,
    bIsHeld: bool,
    bWasHeld: bool)

  /** The settings every grippable actor's constructor sets up: not held, client side movement. */
  const DefaultGripInterfaceSettings := GripInterfaceSettings(ForceClientSideMovement, [], false, false)

  /** Holding controllers listed once each, and the held flag in step with them. */
  predicate ValidGripSettings(s: GripInterfaceSettings)
  {
    NoDuplicates(s.holdingControllers) && s.bIsHeld == (|s.holdingControllers| > 0)
  }

  /** TArray::AddUnique */
  function AddUnique(s: seq<GripPair>, x: GripPair): (r: seq<GripPair>)
    ensures forall y :: y in r <==> y in s || y == x
    ensures x in s ==> r == s
    ensures x !in s ==> r == s + [x]
    ensures NoDuplicates(s) ==> NoDuplicates(r)
  {
    if x in s then s else s + [x]
  }

  /** TArray::Remove: removes every element equal to `x`, keeping the order of the rest. */
  function RemoveAll(s: seq<GripPair>, x: GripPair): (r: seq<GripPair>)
    ensures forall y :: y in r <==> y in s && y != x
    ensures |r| <= |s|
    ensures x !in s ==> r == s
    ensures NoDuplicates(s) ==> NoDuplicates(r)
  {
    if |s| == 0 then []
    else if s[0] == x then RemoveAll(s[1..], x)
    else
      var rest := RemoveAll(s[1..], x);
      assert NoDuplicates(s) ==> NoDuplicates(s[1..]) && s[0] !in rest by {
        if NoDuplicates(s) {
          assert forall k :: 0 <= k < |s[1..]| ==> s[1..][k] == s[k + 1];
        }
      }
      [s[0]] + rest
  }

  /** Gripping with a new pair and releasing it again leaves the holders as they were. */
  lemma {:induction false} ReleaseUndoesGrip(s: seq<GripPair>, x: GripPair)
    requires x !in s
    ensures RemoveAll(AddUnique(s, x), x) == s
  {
    RemoveAllAppended(s, x);
  }

  lemma {:induction false} RemoveAllAppended(s: seq<GripPair>, x: GripPair)
    requires x !in s
    ensures RemoveAll(s + [x], x) == s
  {
    if |s| == 0 {
      assert [] + [x] == [x];
    } else {
      assert (s + [x])[1..] == s[1..] + [x];
      RemoveAllAppended(s[1..], x);
    }
  }

  /** Releasing a pair twice is the same as releasing it once. */
  lemma {:induction false} RemoveAllIdempotent(s: seq<GripPair>, x: GripPair)
    ensures RemoveAll(RemoveAll(s, x), x) == RemoveAll(s, x)
  {
  }

  predicate IsClientAuthoritative(t: GripMovementReplicationSettings)
  {
    t == ClientSideAuthoritive || t == ClientSideAuthoritiveNoRep
  }

  /**
   * ShouldWeSkipAttachmentReplication(bConsiderHeld): on a client that owns
   * the object locally and replicates it client-authoritatively, movement and
   * attachment from the server are ignored; with bConsiderHeld, only once the
   * object has been held.
   */
  function ShouldWeSkipAttachmentReplication(
    bConsiderHeld: bool, settings: GripInterfaceSettings, netMode: NetMode, hasLocalNetOwner: bool): (skip: bool)
    ensures skip <==> netMode == Client && hasLocalNetOwner
                      && IsClientAuthoritative(settings.movementReplicationType)
                      && (bConsiderHeld ==> settings.bWasHeld)
  {
    if (bConsiderHeld && !settings.bWasHeld) || NetModeValue(netMode) < NetModeValue(Client) then
      false
    else if settings.movementReplicationType == ClientSideAuthoritive
         || settings.movementReplicationType == ClientSideAuthoritiveNoRep then
      hasLocalNetOwner
    else
      false
  }

  /** The held-aware form skips less: whatever it skips, the plain form skips too, and they agree once held. */
  lemma ConsideringHeldSkipsLess(settings: GripInterfaceSettings, netMode: NetMode, hasLocalNetOwner: bool)
    ensures ShouldWeSkipAttachmentReplication(true, settings, netMode, hasLocalNetOwner)
            ==> ShouldWeSkipAttachmentReplication(false, settings, netMode, hasLocalNetOwner)
    ensures settings.bWasHeld ==>
            ShouldWeSkipAttachmentReplication(true, settings, netMode, hasLocalNetOwner)
            == ShouldWeSkipAttachmentReplication(false, settings, netMode, hasLocalNetOwner)
  {
  }

  /** The server and a standalone game never skip replication, whatever the settings. */
  lemma AuthorityNeverSkips(bConsiderHeld: bool, settings: GripInterfaceSettings, netMode: NetMode, hasLocalNetOwner: bool)
    requires netMode != Client
    ensures !ShouldWeSkipAttachmentReplication(bConsiderHeld, settings, netMode, hasLocalNetOwner)
  {
  }

  // ---------------------------------------------------------------------
  // The owner chain that PollReplicationEvent climbs

  /**
   * Who owns whom. The engine refuses owner loops, which is stated by a rank
   * that strictly shrinks from an actor to its owner.
   */
  datatype Ownership = Ownership(ownerOf: map<ObjectId, ObjectId>, rank: map<ObjectId, nat>)

  predicate LoopFree(o: Ownership)
  {
    forall a :: a in o.ownerOf ==> a in o.rank && o.ownerOf[a] in o.rank && o.rank[o.ownerOf[a]] < o.rank[a]
  }

  function Height(o: Ownership, a: ObjectId): nat
  {
    if a in o.rank then o.rank[a] else 0
  }

  /** The actor at the top of `a`'s owner chain: the first one that has no owner. */
  function TopOwner(o: Ownership, a: ObjectId): (top: ObjectId)
    requires LoopFree(o)
    ensures top !in o.ownerOf
    decreases Height(o, a)
  {
    if a in o.ownerOf then
      TopOwner(o, o.ownerOf[a])
    else a
  }

  /**
   * The loop of PollReplicationEvent: start at the actor's owner and follow
   * GetOwner() until an actor has none. No owner gives None.
   */
  method FindTopOwner(o: Ownership, self: ObjectId) returns (top: Option<ObjectId>)
    requires LoopFree(o)
    ensures top.None? <==> self !in o.ownerOf
    ensures top.Some? ==> top.value !in o.ownerOf && top.value == TopOwner(o, self)
  {
    if self !in o.ownerOf {
      return None;
    }
    var topOwner := o.ownerOf[self];
    var tempOwner: Option<ObjectId> := if topOwner in o.ownerOf then Some(o.ownerOf[topOwner]) else None;
    while tempOwner.Some?
      invariant tempOwner.Some? <==> topOwner in o.ownerOf
      invariant tempOwner.Some? ==> tempOwner.value == o.ownerOf[topOwner]
      invariant TopOwner(o, topOwner) == TopOwner(o, self)
      decreases Height(o, topOwner)
    {
      topOwner := tempOwner.value;
      tempOwner := if topOwner in o.ownerOf then Some(o.ownerOf[topOwner]) else None;
    }
    return Some(topOwner);
  }

  /** The ping timer's delay: the player's ExactPing in milliseconds, as seconds clamped to [0, 1000]. */
  function ClampedPing(exactPing: real): (delay: real)
    ensures 0.0 <= delay <= 1000.0
    ensures 0.0 <= exactPing <= 1000000.0 ==> delay == exactPing * 0.001
  {
    Clamp(exactPing * 0.001, 0.0, 1000.0)
  }

  /**
   * The engine state a grippable actor consults while it replicates a throw:
   * its world's clock (None without a world), the net mode, whether a local
   * player owns it, its root component, its transform and velocity, whether
   * attachment replication names a parent, its replicated movement,
   * the owner chain and the ping of every player controller that has a
   * player state.
   */
  datatype ActorEnv = ActorEnv(
    worldTime: Option<real>,
    netMode: NetMode,
    hasLocalNetOwner: bool,
    self: ObjectId,
    root: RootComponent,
    actorTransform: Transform,
    actorVelocity: Vector,
    hasAttachParent: bool,
    ownership: Ownership,
    playerPing: map<ObjectId, real>)

  predicate RootIsSimulatingPrimitive(env: ActorEnv)
  {
    env.root.Primitive? && env.root.simulating
  }

  /** The transform comparison of PollReplicationEvent: rotation or location differ (tolerances not modelled). */
  predicate TransformChanged(cur: Transform, last: Transform)
  {
    cur.rotation != last.rotation || cur.translation != last.translation
  }

  /** How OnRep_ReplicateMovement proceeds when it is not ignored. */
  datatype ReplicateMovementNotify = MovementIgnored | PassedOn(syncPhysicsFirst: bool)

  /** The resync check in OnRep_ReplicateMovement: a root, no attach parent, and a simulation state that differs from the replicated one. */
  function NeedsPhysicsResync(env: ActorEnv, replicatedMovement: RepMovement): (resync: bool)
    ensures resync ==> !env.root.NoRoot? && !env.hasAttachParent
    ensures resync ==> RootIsSimulatingPrimitive(env) != replicatedMovement.bRepPhysics
  {
    !env.root.NoRoot? && !env.hasAttachParent && RootIsSimulatingPrimitive(env) != replicatedMovement.bRepPhysics
  }
}

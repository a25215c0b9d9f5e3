// UVRRootComponent, the capsule at the root of a VR character: its capsule
// edits in the editor, MoveComponentImpl (the guards, the small-move rule,
// the sweep and where the component ends up) and the overlap bookkeeping of
// UpdateOverlapsImpl (which overlaps end, which begin, and the removal of
// stale entries).

module RootComponent {
  import opened EngineTypes
  import opened UnrealMath
  import opened Overlaps
  import opened RootSweep

  /** PostEditChangeProperty on CapsuleHalfHeight: Max3(0, CapsuleHalfHeight, CapsuleRadius). */
  function EditedHalfHeight(halfHeight: real, radius: real): (r: real)
    ensures r >= 0.0 && r >= radius && r >= halfHeight
    ensures halfHeight >= 0.0 && halfHeight >= radius ==> r == halfHeight
  {
    Max3(0.0, halfHeight, radius)
  }

  /** PostEditChangeProperty on CapsuleRadius: Clamp(CapsuleRadius, 0, CapsuleHalfHeight). */
  function EditedRadius(radius: real, halfHeight: real): (r: real)
    ensures halfHeight >= 0.0 ==> 0.0 <= r <= halfHeight
    ensures 0.0 <= radius <= halfHeight ==> r == radius
  {
    Clamp(radius, 0.0, halfHeight)
  }

  /** The capsule's shape: a radius that is not negative and fits in the half height. */
  predicate CapsuleValid(halfHeight: real, radius: real)
  {
    0.0 <= radius <= halfHeight
  }

  /**
   * Whatever value is typed into one of the two fields of a valid capsule,
   * the correction afterwards leaves a valid capsule, and correcting twice
   * is correcting once.
   */
  lemma CapsuleEditsKeepShape(halfHeight: real, radius: real, typed: real)
    requires CapsuleValid(halfHeight, radius)
    ensures CapsuleValid(EditedHalfHeight(typed, radius), radius)
    ensures CapsuleValid(halfHeight, EditedRadius(typed, halfHeight))
    ensures EditedHalfHeight(EditedHalfHeight(typed, radius), radius) == EditedHalfHeight(typed, radius)
    ensures EditedRadius(EditedRadius(typed, halfHeight), halfHeight) == EditedRadius(typed, halfHeight)
  {
  }

  /** The property an editor change names. */
  datatype EditedProperty = CapsuleHalfHeightProperty | CapsuleRadiusProperty | VRCapsuleOffsetProperty | OtherProperty

  /**
   * The move's surroundings: the owning actor, the world, whether overlaps
   * are gathered regardless of the overlap flag (the scoped movement update
   * does not require it), the move flags and the two console variables.
   */
  datatype MoveWorld = MoveWorld(
    owner: Option<ObjectId>,
    worldPresent: bool,
    forceGatherOverlaps: bool,
    ignoreBases: bool,
    neverIgnoreBlockingOverlaps: bool,
    disableBlockingOverlapDispatch: bool,
    hitDistanceTolerance: real,
    initialOverlapTolerance: real)

  /** An FOverlapResult of the end-location overlap query, with what the filter asks about it. */
  datatype OverlapQueryResult = OverlapQueryResult(
    component: Option<ObjectId>,
    itemIndex: int,
    generatesOverlaps: bool,
    actor: Option<ObjectId>,
    actorIsWorldSettings: bool,
    actorInitialized: bool)

  /** The overlaps at the end location: a list handed in (cached or converted from the sweep), or the query's results. */
  datatype EndOverlaps = CachedAtEnd(overlaps: seq<OverlapInfo>) | QueriedAtEnd(results: seq<OverlapQueryResult>)

  /** UpdateOverlapsImpl's surroundings: the owner, whether this is the owner's root, the owner's components, and what the children and the physics volume report. */
  datatype OverlapWorld = OverlapWorld(
    owner: Option<ObjectId>,
    ownerInitialized: bool,
    isOwnersRoot: bool,
    ownerComponents: set<ObjectId>,
    worldPresent: bool,
    childrenCanSkip: bool,
    shouldUpdatePhysicsVolume: bool)

  /** The filter the query results pass: a live component other than this one that generates overlaps and is not ignored. */
  predicate QueryResultKept(r: OverlapQueryResult, self: ObjectId, w: OverlapWorld)
  {
    r.component.Some? && r.component.value != self && r.generatesOverlaps
    && !ShouldIgnoreOverlapResult(w.worldPresent, w.owner, self, true,
                                  OtherComponent(r.component.value, r.generatesOverlaps, r.actor,
                                                 r.actorIsWorldSettings, r.actorInitialized), false)
  }

  /** The overlaps the query yields, in order: OverlapMultiResult. */
  function KeptQueryOverlaps(results: seq<OverlapQueryResult>, self: ObjectId, w: OverlapWorld): (r: seq<OverlapInfo>)
    ensures |r| <= |results|
    ensures forall x :: x in r ==> x.component.Some? && x.component.value != self
    ensures forall x :: x in r <==>
              exists k :: 0 <= k < |results| && QueryResultKept(results[k], self, w)
                          && OverlapInfo(results[k].component, results[k].itemIndex) == x
  {
    if |results| == 0 then []
    else
      var last := results[|results| - 1];
      var front := KeptQueryOverlaps(results[..|results| - 1], self, w);
      assert forall k :: 0 <= k < |results| - 1 ==> results[..|results| - 1][k] == results[k];
      if QueryResultKept(last, self, w) then front + [OverlapInfo(last.component, last.itemIndex)] else front
  }

  /** The overlaps whose component belongs to another actor, or is gone: FPredicateOverlapHasDifferentActor. */
  function OtherActorsOverlaps(s: seq<OverlapInfo>, ownerComponents: set<ObjectId>): (r: seq<OverlapInfo>)
    ensures forall x :: x in r <==> x in s && (x.component.None? || x.component.value !in ownerComponents)
    ensures NoDuplicates(s) ==> NoDuplicates(r)
  {
    if |s| == 0 then []
    else
      var last := s[|s| - 1];
      var front := OtherActorsOverlaps(s[..|s| - 1], ownerComponents);
      assert s == s[..|s| - 1] + [last];
      if last.component.None? || last.component.value !in ownerComponents then
        assert NoDuplicates(s) ==> last !in s[..|s| - 1];
        front + [last]
      else front
  }

  /** The overlaps whose component is still there. */
  function LiveOverlaps(s: seq<OverlapInfo>): (r: seq<OverlapInfo>)
    ensures forall x :: x in r <==> x in s && x.component.Some?
  {
    if |s| == 0 then []
    else
      var last := s[|s| - 1];
      assert s == s[..|s| - 1] + [last];
      LiveOverlaps(s[..|s| - 1]) + (if last.component.Some? then [last] else [])
  }

  /** Extending a list by one entry extends its live overlaps by that entry when it is live. */
  lemma LiveOverlapsAppend(s: seq<OverlapInfo>, x: OverlapInfo)
    ensures LiveOverlaps(s + [x]) == LiveOverlaps(s) + (if x.component.Some? then [x] else [])
  {
    var t := s + [x];
    assert t[..|t| - 1] == s;
  }

  /** Every item occurring at most once makes a list duplicate-free. */
  lemma CountsAtMostOneNoDuplicates(s: seq<OverlapInfo>)
    requires forall y :: multiset(s)[y] <= 1
    ensures NoDuplicates(s)
  {
    forall i, j | 0 <= i < j < |s| ensures s[i] != s[j] {
      if s[i] == s[j] {
        RepeatedItemCountsTwice(s, i, j);
        assert false;
      }
    }
  }

  /** RemoveAtSwap on a duplicate-free list keeps it duplicate-free and takes out exactly the removed entry. */
  lemma RemovalFromUniqueList(s: seq<OverlapInfo>, i: nat)
    requires i < |s|
    ensures NoDuplicates(s) ==>
              NoDuplicates(RemoveAtSwap(s, i))
              && forall y :: y in RemoveAtSwap(s, i) <==> y in s && y != s[i]
  {
    if NoDuplicates(s) {
      var r := RemoveAtSwap(s, i);
      forall y ensures multiset(r)[y] <= 1 && (y == s[i] ==> multiset(r)[y] == 0) {
        CountAtMostOne(s, y);
        assert multiset(r)[y] + multiset{s[i]}[y] == multiset(s)[y];
      }
      CountsAtMostOneNoDuplicates(r);
    }
  }

  /** An item at two positions occurs at least twice. */
  lemma RepeatedItemCountsTwice(s: seq<OverlapInfo>, i: nat, j: nat)
    requires i < j < |s| && s[i] == s[j]
    ensures multiset(s)[s[i]] >= 2
  {
    assert s == s[..i] + [s[i]] + s[i + 1..j] + [s[j]] + s[j + 1..];
  }

  /** A sub-multiset of a duplicate-free list is duplicate-free and holds only entries of the list. */
  lemma SubListOfUnique(a: seq<OverlapInfo>, b: seq<OverlapInfo>)
    requires multiset(a) <= multiset(b) && NoDuplicates(b)
    ensures NoDuplicates(a) && forall x :: x in a ==> x in b
  {
    forall y ensures multiset(a)[y] <= 1 {
      CountAtMostOne(b, y);
    }
    CountsAtMostOneNoDuplicates(a);
    forall x | x in a ensures x in b {
      assert multiset(a)[x] > 0;
    }
  }

  /** A list with no members is empty. */
  lemma NoMembersIsEmpty(s: seq<OverlapInfo>)
    ensures (forall x :: x !in s) ==> s == []
  {
    if s != [] {
      assert s[0] in s;
    }
  }

  /** CanComponentsGenerateOverlap from this component's side: the other component is still there and the engine lets the two overlap. */
  predicate CanOverlap(x: OverlapInfo, canOverlap: ObjectId -> bool)
  {
    x.component.Some? && canOverlap(x.component.value)
  }

  /** The overlaps FPredicateFilterCanOverlap keeps. */
  function CanOverlapOverlaps(s: seq<OverlapInfo>, canOverlap: ObjectId -> bool): (r: seq<OverlapInfo>)
    ensures forall x :: x in r <==> x in s && CanOverlap(x, canOverlap)
  {
    if |s| == 0 then []
    else
      var last := s[|s| - 1];
      assert s == s[..|s| - 1] + [last];
      CanOverlapOverlaps(s[..|s| - 1], canOverlap) + (if CanOverlap(last, canOverlap) then [last] else [])
  }

  /**
   * The list after BeginComponentOverlap for each of xs in turn: an overlap
   * is appended when it is not in the list yet and the two components can
   * overlap. The appended part is what begins.
   */
  function BeginAll(s: seq<OverlapInfo>, xs: seq<OverlapInfo>, canOverlap: ObjectId -> bool): (r: seq<OverlapInfo>)
    ensures |s| <= |r| && r[..|s|] == s
    ensures NoDuplicates(s) ==> NoDuplicates(r)
    ensures NoDuplicates(r[|s|..])
    ensures forall y :: y in r <==> y in s || (y in xs && CanOverlap(y, canOverlap))
    ensures forall y :: y in r[|s|..] <==> y !in s && y in xs && CanOverlap(y, canOverlap)
    decreases |xs|
  {
    if |xs| == 0 then s
    else
      var x := xs[|xs| - 1];
      var front := BeginAll(s, xs[..|xs| - 1], canOverlap);
      assert xs == xs[..|xs| - 1] + [x];
      if x !in front && CanOverlap(x, canOverlap) then
        var r := front + [x];
        assert r[|s|..] == front[|s|..] + [x];
        assert forall y :: y in front[|s|..] ==> y in front;
        r
      else front
  }

  /**
   * The last step of UpdateOverlapsImpl: after the comparison has left in
   * the list the entries of p not ended, beginning what the comparison
   * returned begins exactly the new overlaps that can overlap and were not
   * in p, and leaves in the list the entries of p not ended and the new
   * overlaps that can overlap.
   */
  lemma NewBeginsAfterComparison(p: seq<OverlapInfo>, o: seq<OverlapInfo>, n: seq<OverlapInfo>, q: seq<OverlapInfo>,
                                 newRest: seq<OverlapInfo>, r: seq<OverlapInfo>, canOverlap: ObjectId -> bool)
    requires forall x :: x in q <==> x in p && !(x in o && x !in n)
    requires forall x :: x in newRest ==> x in n
    requires forall x :: x in n && x !in newRest ==> x in q
    requires r == BeginAll(q, newRest, canOverlap)
    ensures forall x :: x in r[|q|..] <==> x in n && CanOverlap(x, canOverlap) && x !in p
    ensures forall x :: x in r <==> (x in p && !(x in o && x !in n)) || (x in n && CanOverlap(x, canOverlap))
  {
    forall x ensures x in r[|q|..] <==> x in n && CanOverlap(x, canOverlap) && x !in p {
      if x in n && CanOverlap(x, canOverlap) && x !in p {
        assert x !in q;
      }
    }
  }

  /** One more BeginComponentOverlap: the overlap is appended when it is new and can overlap. */
  lemma BeginAllStep(s: seq<OverlapInfo>, xs: seq<OverlapInfo>, x: OverlapInfo, canOverlap: ObjectId -> bool)
    ensures BeginAll(s, xs + [x], canOverlap)
            == var front := BeginAll(s, xs, canOverlap);
               if x !in front && CanOverlap(x, canOverlap) then front + [x] else front
  {
    assert (xs + [x])[..|xs|] == xs;
  }

  /**
   * What a second comparison with the same new overlaps meets after a
   * first one left l1: every old overlap to compare is among the new ones,
   * and every new one that can overlap is in the list already.
   */
  lemma RepeatedComparisonIsQuiet(p1: seq<OverlapInfo>, n1: seq<OverlapInfo>, l1: seq<OverlapInfo>, n2: seq<OverlapInfo>,
                                  w: OverlapWorld, canOverlap: ObjectId -> bool)
    requires forall x :: x in l1 <==>
               (x in p1 && !(x in OldOverlapsToCompare(p1, w) && x !in n1)) || (x in n1 && CanOverlap(x, canOverlap))
    requires forall x :: x in n1 ==> x in n2
    requires forall x :: x in n2 && CanOverlap(x, canOverlap) ==> x in n1
    ensures forall x :: x in OldOverlapsToCompare(l1, w) ==> x in n2
    ensures forall x :: x in n2 && CanOverlap(x, canOverlap) ==> x in l1
  {
    forall x | x in OldOverlapsToCompare(l1, w) ensures x in n2 {
      if x in p1 && !(x in OldOverlapsToCompare(p1, w) && x !in n1) {
        assert x in OldOverlapsToCompare(p1, w);
      }
    }
  }

  /** The old overlaps UpdateOverlapsImpl compares: those of other actors (or stale) when this is the owner's root. */
  function OldOverlapsToCompare(s: seq<OverlapInfo>, w: OverlapWorld): (r: seq<OverlapInfo>)
    ensures forall x :: x in r <==> x in s && !(w.isOwnersRoot && x.component.Some? && x.component.value in w.ownerComponents)
    ensures NoDuplicates(s) ==> NoDuplicates(r)
  {
    if w.isOwnersRoot then OtherActorsOverlaps(s, w.ownerComponents) else s
  }

  /** The pull-back loop of MoveComponentImpl, in place on the hits array: each hit pulled back by the sweep's length. */
  method PullBackHits(hits: array<HitResult>, deltaSize: real)
    requires deltaSize > 0.0
    modifies hits
    ensures hits[..] == PulledBack(old(hits[..]), deltaSize)
  {
    var hitIdx := 0;
    while hitIdx < hits.Length
      invariant 0 <= hitIdx <= hits.Length
      invariant forall k :: 0 <= k < hitIdx ==> hits[k] == old(hits[k]).(time := PullBackHit(old(hits[k]).time, deltaSize))
      invariant forall k :: hitIdx <= k < hits.Length ==> hits[k] == old(hits[k])
    {
      hits[hitIdx] := hits[hitIdx].(time := PullBackHit(hits[hitIdx].time, deltaSize));
      hitIdx := hitIdx + 1;
    }
  }

  /** The filtering loop over the end-location overlap query. */
  method GatherQueryOverlaps(results: seq<OverlapQueryResult>, self: ObjectId, w: OverlapWorld)
    returns (overlapMultiResult: seq<OverlapInfo>)
    ensures overlapMultiResult == KeptQueryOverlaps(results, self, w)
  {
    overlapMultiResult := [];
    var resultIdx := 0;
    while resultIdx < |results|
      invariant 0 <= resultIdx <= |results|
      invariant overlapMultiResult == KeptQueryOverlaps(results[..resultIdx], self, w)
    {
      var result := results[resultIdx];
      assert results[..resultIdx + 1][..resultIdx] == results[..resultIdx];
      if result.component.Some? && result.component.value != self && result.generatesOverlaps {
        if !ShouldIgnoreOverlapResult(w.worldPresent, w.owner, self, true,
                                      OtherComponent(result.component.value, result.generatesOverlaps, result.actor,
                                                     result.actorIsWorldSettings, result.actorInitialized), false) {
          overlapMultiResult := overlapMultiResult + [OverlapInfo(result.component, result.itemIndex)];
        }
      }
      resultIdx := resultIdx + 1;
    }
    assert results[..resultIdx] == results;
  }

  class VRRootComponent {
    const id: ObjectId
    var location: Vector
    var rotation: Quat
    var capsuleHalfHeight: real
    var capsuleRadius: real
    var bAllowSimulatingCollision: bool
    var generateOverlapEvents: bool
    var pendingKill: bool
    /** Mobility == EComponentMobility::Static */
    var isStatic: bool
    var registered: bool
    var queryCollisionEnabled: bool
    var overlappingComponents: seq<OverlapInfo>
    /** The overlaps BeginComponentOverlap was called with, in order. */
    var begunOverlaps: seq<OverlapInfo>
    /** The overlaps EndComponentOverlap (or ClearComponentOverlaps) ended, in order. */
    var endedOverlaps: seq<OverlapInfo>
    /** The blocking hits dispatched to the owner. */
    var dispatchedHits: seq<HitResult>

    /** The engine keeps each overlap once. */
    predicate Valid()
      reads this
    {
      NoDuplicates(overlappingComponents)
    }

    constructor(id: ObjectId)
      ensures this.id == id
      ensures capsuleRadius == 20.0 && capsuleHalfHeight == 96.0 && CapsuleValid(capsuleHalfHeight, capsuleRadius)
      ensures !bAllowSimulatingCollision
      ensures location == ZeroVector
      ensures overlappingComponents == [] && begunOverlaps == [] && endedOverlaps == [] && dispatchedHits == []
      ensures Valid()
    {
      this.id := id;
      location := ZeroVector;
      capsuleRadius := 20.0;
      capsuleHalfHeight := 96.0;
      bAllowSimulatingCollision := false;
      overlappingComponents := [];
      begunOverlaps := [];
      endedOverlaps := [];
      dispatchedHits := [];
    }

    /** PostEditChangeProperty: only the changed capsule field is corrected. */
    method PostEditChangeProperty(property: EditedProperty)
      modifies this`capsuleHalfHeight, this`capsuleRadius
      ensures property == CapsuleHalfHeightProperty ==>
                capsuleHalfHeight == EditedHalfHeight(old(capsuleHalfHeight), capsuleRadius)
                && capsuleRadius == old(capsuleRadius)
      ensures property == CapsuleRadiusProperty ==>
                capsuleRadius == EditedRadius(old(capsuleRadius), capsuleHalfHeight)
                && capsuleHalfHeight == old(capsuleHalfHeight)
      ensures property != CapsuleHalfHeightProperty && property != CapsuleRadiusProperty ==>
                capsuleHalfHeight == old(capsuleHalfHeight) && capsuleRadius == old(capsuleRadius)
    {
      if property == CapsuleHalfHeightProperty {
        capsuleHalfHeight := Max3(0.0, capsuleHalfHeight, capsuleRadius);
      } else if property == CapsuleRadiusProperty {
        capsuleRadius := Clamp(capsuleRadius, 0.0, capsuleHalfHeight);
      }
    }

    /** How this component's sweep judges hits. */
    function Context(w: MoveWorld): SweepContext
      reads this
    {
      SweepContext(id, w.owner, w.worldPresent, generateOverlapEvents, w.forceGatherOverlaps,
                   bAllowSimulatingCollision, w.ignoreBases, w.neverIgnoreBlockingOverlaps,
                   w.hitDistanceTolerance, w.initialOverlapTolerance)
    }

    /**
     * The outcome of a sweep with collision over the engine's hits: each
     * pulled back by the sweep's length, the blocking hit and overlaps
     * chosen, and the end of the move.
     */
    function SweptMove(w: MoveWorld, delta: Vector, sweepHits: seq<HitResult>, deltaSize: real): SweepResult
      requires deltaSize > 0.0
      reads this
    {
      var hits := PulledBack(sweepHits, deltaSize);
      var s := Scan(Context(w), delta, hits, |hits|);
      SweepEnd(location, delta, hits, s.blockingIndex, s.pending, s.firstNonInitial, MinMovementDistSq(true))
    }

    /**
     * MoveComponentImpl, not deferring movement updates. rotationUnchanged is
     * NewRotationQuat.Equals(InitialRotationQuat); sweepHits is what
     * ComponentSweepMulti returns; deltaSize is the square root of the
     * delta's squared length. The result is whether the component moved, the
     * blocking hit and the overlaps handed to UpdateOverlaps.
     */
    method MoveComponentImpl(delta: Vector, newRotation: Quat, bSweep: bool, rotationUnchanged: bool,
                             sweepHits: seq<HitResult>, deltaSize: real, w: MoveWorld)
      returns (bMoved: bool, outHit: Option<HitResult>, pendingOverlaps: seq<OverlapInfo>)
      requires deltaSize >= 0.0 && deltaSize * deltaSize == SizeSquared(delta)
      modifies this`location, this`rotation, this`dispatchedHits
      ensures pendingKill || (isStatic && registered) ==>
                !bMoved && outHit.None? && pendingOverlaps == []
                && location == old(location) && rotation == old(rotation) && dispatchedHits == old(dispatchedHits)
      ensures !(pendingKill || (isStatic && registered)) && SizeSquared(delta) <= MinMovementDistSq(bSweep) && rotationUnchanged ==>
                bMoved && outHit.None? && pendingOverlaps == []
                && location == old(location) && rotation == old(rotation) && dispatchedHits == old(dispatchedHits)
      ensures !(pendingKill || (isStatic && registered)) && !(SizeSquared(delta) <= MinMovementDistSq(bSweep) && rotationUnchanged) ==>
                rotation == newRotation
                && bMoved == (location != old(location) || newRotation != old(rotation))
                && (!bSweep ==> location == Add(old(location), delta) && outHit.None? && pendingOverlaps == [])
                && (bSweep && queryCollisionEnabled && SizeSquared(delta) > MinMovementDistSq(true) ==>
                      deltaSize > 0.0
                      && var r := old(SweptMove(w, delta, sweepHits, deltaSize));
                         location == r.newLocation && outHit == r.blockingHit && pendingOverlaps == r.pendingOverlaps)
                && (bSweep && !(queryCollisionEnabled && SizeSquared(delta) > MinMovementDistSq(true)) ==>
                      outHit.None? && pendingOverlaps == []
                      && location == (if SizeSquared(delta) > MinMovementDistSq(true) then Add(old(location), delta) else old(location)))
                && dispatchedHits == old(dispatchedHits)
                     + (if outHit.Some? && (!outHit.value.bStartPenetrating || !w.disableBlockingOverlapDispatch)
                        then [outHit.value] else [])
    {
      if pendingKill || (isStatic && registered) {
        return false, None, [];
      }
      var deltaSizeSq := SizeSquared(delta);
      var minMovementDistSq := MinMovementDistSq(bSweep);
      if deltaSizeSq <= minMovementDistSq {
        if rotationUnchanged {
          return true, None, [];
        }
        deltaSizeSq := 0.0;
      }
      var blockingHit: Option<HitResult> := None;
      pendingOverlaps := [];
      var origLocation := location;
      var newLocation := origLocation;
      if !bSweep {
        newLocation := Add(origLocation, delta);
      } else if queryCollisionEnabled && deltaSizeSq > 0.0 {
        var r := SweepWithCollision(w, delta, sweepHits, deltaSize);
        newLocation, blockingHit, pendingOverlaps := r.newLocation, r.blockingHit, r.pendingOverlaps;
      } else if deltaSizeSq > 0.0 {
        newLocation := Add(newLocation, delta);
      }
      // InternalSetWorldLocationAndRotation reports whether anything changed.
      bMoved := newLocation != origLocation || newRotation != rotation;
      location, rotation := newLocation, newRotation;
      if blockingHit.Some? && (!blockingHit.value.bStartPenetrating || !w.disableBlockingOverlapDispatch) && !pendingKill {
        dispatchedHits := dispatchedHits + [blockingHit.value];
      }
      outHit := blockingHit;
    }

    /** The sweep branch of MoveComponentImpl with collision and a delta to sweep. */
    method SweepWithCollision(w: MoveWorld, delta: Vector, sweepHits: seq<HitResult>, deltaSize: real)
      returns (r: SweepResult)
      requires deltaSize >= 0.0 && deltaSize * deltaSize == SizeSquared(delta) && SizeSquared(delta) > 0.0
      ensures deltaSize > 0.0 && r == SweptMove(w, delta, sweepHits, deltaSize)
    {
      var hits := new HitResult[|sweepHits|](i requires 0 <= i < |sweepHits| => sweepHits[i]);
      assert hits[..] == sweepHits;
      PullBackHits(hits, deltaSize);
      var blockingHitIndex, pendingOverlaps, firstNonInitialOverlapIdx := SelectBlockingHit(Context(w), delta, hits[..]);
      r := SweepEnd(location, delta, hits[..], blockingHitIndex, pendingOverlaps, firstNonInitialOverlapIdx, MinMovementDistSq(true));
    }

    /** OverlappingComponents.RemoveAtSwap(index): exactly that entry leaves the list. */
    method RemoveOverlapAt(index: nat)
      requires index < |overlappingComponents|
      modifies this`overlappingComponents
      ensures multiset(overlappingComponents) + multiset{old(overlappingComponents)[index]} == multiset(old(overlappingComponents))
      ensures NoDuplicates(old(overlappingComponents)) ==>
                NoDuplicates(overlappingComponents)
                && forall y :: y in overlappingComponents <==> y in old(overlappingComponents) && y != old(overlappingComponents)[index]
    {
      RemovalFromUniqueList(overlappingComponents, index);
      overlappingComponents := RemoveAtSwap(overlappingComponents, index);
    }

    /**
     * UPrimitiveComponent::BeginComponentOverlap: unless this component is
     * pending kill, an overlap not recorded yet, whose component the engine
     * lets overlap this one, is added to OverlappingComponents and begun.
     */
    method BeginComponentOverlap(otherOverlap: OverlapInfo, canOverlap: ObjectId -> bool)
      modifies this`overlappingComponents, this`begunOverlaps
      ensures var begins := !pendingKill && otherOverlap !in old(overlappingComponents) && CanOverlap(otherOverlap, canOverlap);
              overlappingComponents == old(overlappingComponents) + (if begins then [otherOverlap] else [])
              && begunOverlaps == old(begunOverlaps) + (if begins then [otherOverlap] else [])
    {
      if pendingKill {
        return;
      }
      var index := IndexOfOverlapFast(overlappingComponents, otherOverlap);
      if index == -1 && CanOverlap(otherOverlap, canOverlap) {
        overlappingComponents := overlappingComponents + [otherOverlap];
        begunOverlaps := begunOverlaps + [otherOverlap];
      }
    }

    /** BeginComponentOverlap for each overlap of a list, in order: what is appended to the list is what begins. */
    method BeginComponentOverlaps(overlaps: seq<OverlapInfo>, canOverlap: ObjectId -> bool)
      modifies this`overlappingComponents, this`begunOverlaps
      ensures overlappingComponents
              == if pendingKill then old(overlappingComponents) else BeginAll(old(overlappingComponents), overlaps, canOverlap)
      ensures begunOverlaps == old(begunOverlaps) + overlappingComponents[|old(overlappingComponents)|..]
    {
      var idx := 0;
      ghost var added: seq<OverlapInfo> := [];
      while idx < |overlaps|
        invariant 0 <= idx <= |overlaps|
        invariant overlappingComponents == old(overlappingComponents) + added
        invariant begunOverlaps == old(begunOverlaps) + added
        invariant pendingKill ==> added == []
        invariant !pendingKill ==> overlappingComponents == BeginAll(old(overlappingComponents), overlaps[..idx], canOverlap)
      {
        var otherOverlap := overlaps[idx];
        assert overlaps[..idx + 1] == overlaps[..idx] + [otherOverlap];
        BeginAllStep(old(overlappingComponents), overlaps[..idx], otherOverlap, canOverlap);
        ghost var begins := !pendingKill && otherOverlap !in overlappingComponents && CanOverlap(otherOverlap, canOverlap);
        BeginComponentOverlap(otherOverlap, canOverlap);
        if begins {
          added := added + [otherOverlap];
        }
        idx := idx + 1;
      }
      assert overlaps[..idx] == overlaps;
      assert overlappingComponents[|old(overlappingComponents)|..] == added;
    }

    /**
     * UPrimitiveComponent::EndComponentOverlap: an overlap whose component is
     * still there and which is recorded is removed from OverlappingComponents
     * and ended; any other overlap is ignored.
     */
    method EndComponentOverlap(otherOverlap: OverlapInfo)
      modifies this`overlappingComponents, this`endedOverlaps
      ensures var ends := otherOverlap.component.Some? && otherOverlap in old(overlappingComponents);
              endedOverlaps == old(endedOverlaps) + (if ends then [otherOverlap] else [])
              && multiset(overlappingComponents) + (if ends then multiset{otherOverlap} else multiset{})
                 == multiset(old(overlappingComponents))
              && (NoDuplicates(old(overlappingComponents)) ==>
                    NoDuplicates(overlappingComponents)
                    && forall y :: y in overlappingComponents <==> y in old(overlappingComponents) && !(ends && y == otherOverlap))
    {
      if otherOverlap.component.None? {
        return;
      }
      var overlapIdx := IndexOfOverlapFast(overlappingComponents, otherOverlap);
      if overlapIdx != -1 {
        RemoveOverlapAt(overlapIdx);
        endedOverlaps := endedOverlaps + [otherOverlap];
      }
    }

    /**
     * UPrimitiveComponent::ClearComponentOverlaps: EndComponentOverlap for
     * each entry of a copy of the list. The live overlaps end; stale
     * entries, which EndComponentOverlap ignores, stay.
     */
    method ClearComponentOverlaps()
      requires Valid()
      modifies this`overlappingComponents, this`endedOverlaps
      ensures Valid()
      ensures endedOverlaps == old(endedOverlaps) + LiveOverlaps(old(overlappingComponents))
      ensures forall y :: y in overlappingComponents <==> y in old(overlappingComponents) && y.component.None?
    {
      var overlapsCopy := overlappingComponents;
      if |overlapsCopy| > 0 {
        var i := 0;
        while i < |overlapsCopy|
          invariant 0 <= i <= |overlapsCopy|
          invariant Valid()
          invariant endedOverlaps == old(endedOverlaps) + LiveOverlaps(overlapsCopy[..i])
          invariant forall y :: y in overlappingComponents <==> y in overlapsCopy && !(y.component.Some? && y in overlapsCopy[..i])
        {
          var otherOverlap := overlapsCopy[i];
          assert overlapsCopy[..i + 1] == overlapsCopy[..i] + [otherOverlap];
          assert otherOverlap !in overlapsCopy[..i];
          LiveOverlapsAppend(overlapsCopy[..i], otherOverlap);
          EndComponentOverlap(otherOverlap);
          i := i + 1;
        }
        assert overlapsCopy[..i] == overlapsCopy;
      }
    }

    /**
     * The end of UpdateOverlapsImpl's comparison: each old overlap left over
     * ends if its component is still there, and is dropped from
     * OverlappingComponents as a stale entry if not. Either way it leaves
     * the list.
     */
    method EndOldOverlaps(oldOverlaps: seq<OverlapInfo>)
      requires Valid() && NoDuplicates(oldOverlaps) && forall x :: x in oldOverlaps ==> x in overlappingComponents
      modifies this`overlappingComponents, this`endedOverlaps
      ensures Valid()
      ensures endedOverlaps == old(endedOverlaps) + LiveOverlaps(oldOverlaps)
      ensures forall y :: y in overlappingComponents <==> y in old(overlappingComponents) && y !in oldOverlaps
    {
      var i := 0;
      while i < |oldOverlaps|
        invariant 0 <= i <= |oldOverlaps|
        invariant Valid()
        invariant endedOverlaps == old(endedOverlaps) + LiveOverlaps(oldOverlaps[..i])
        invariant forall y :: y in overlappingComponents <==> y in old(overlappingComponents) && y !in oldOverlaps[..i]
      {
        var otherOverlap := oldOverlaps[i];
        assert oldOverlaps[..i + 1] == oldOverlaps[..i] + [otherOverlap];
        assert otherOverlap !in oldOverlaps[..i];
        LiveOverlapsAppend(oldOverlaps[..i], otherOverlap);
        if otherOverlap.component.Some? {
          EndComponentOverlap(otherOverlap);
        } else {
          var staleElementIndex := IndexOfOverlapFast(overlappingComponents, otherOverlap);
          if staleElementIndex != -1 {
            RemoveOverlapAt(staleElementIndex);
          }
        }
        i := i + 1;
      }
      assert oldOverlaps[..i] == oldOverlaps;
    }

    /**
     * The overlaps at the end location, when they are generated at all. A
     * cached list is filtered by FPredicateFilterCanOverlap when pending
     * overlaps have just begun.
     */
    function NewOverlapsAtEnd(endOverlaps: EndOverlaps, w: OverlapWorld, hadPending: bool, canOverlap: ObjectId -> bool)
      : seq<OverlapInfo>
      reads this
    {
      if pendingKill || !generateOverlapEvents then []
      else match endOverlaps
        case CachedAtEnd(overlaps) => if hadPending then CanOverlapOverlaps(overlaps, canOverlap) else overlaps
        case QueriedAtEnd(results) => KeptQueryOverlaps(results, id, w)
    }

    /** The list after the pending overlaps of UpdateOverlapsImpl have begun. */
    function PendingBegun(newPendingOverlaps: seq<OverlapInfo>, canOverlap: ObjectId -> bool): seq<OverlapInfo>
      reads this
    {
      if pendingKill then overlappingComponents else BeginAll(overlappingComponents, newPendingOverlaps, canOverlap)
    }

    /**
     * UpdateOverlapsImpl, without the children and the physics volume, whose
     * outcomes are given; canOverlap is the engine's answer to whether
     * another component can overlap this one. The pending overlaps begin
     * first; then the old overlaps (as the list now stands) that are not
     * among the new ones end or, if stale, are dropped, and the new ones not
     * in the list yet begin. With overlap events or query collision off,
     * every live overlap ends.
     */
    method UpdateOverlapsImpl(newPendingOverlaps: seq<OverlapInfo>, endOverlaps: EndOverlaps, w: OverlapWorld,
                              canOverlap: ObjectId -> bool)
      returns (bCanSkipUpdateOverlaps: bool)
      requires Valid()
      modifies this`overlappingComponents, this`begunOverlaps, this`endedOverlaps
      ensures Valid()
      ensures bCanSkipUpdateOverlaps == (!(generateOverlapEvents && queryCollisionEnabled) && w.childrenCanSkip && !w.shouldUpdatePhysicsVolume)
      ensures !(generateOverlapEvents && queryCollisionEnabled) ==>
                begunOverlaps == old(begunOverlaps)
                && endedOverlaps == old(endedOverlaps) + LiveOverlaps(old(overlappingComponents))
                && forall x :: x in overlappingComponents <==> x in old(overlappingComponents) && x.component.None?
      ensures generateOverlapEvents && queryCollisionEnabled && !(w.owner.Some? && w.ownerInitialized) ==>
                begunOverlaps == old(begunOverlaps) && endedOverlaps == old(endedOverlaps)
                && overlappingComponents == old(overlappingComponents)
      ensures generateOverlapEvents && queryCollisionEnabled && w.owner.Some? && w.ownerInitialized ==>
                var p := old(PendingBegun(newPendingOverlaps, canOverlap));
                var n := old(NewOverlapsAtEnd(endOverlaps, w, |newPendingOverlaps| > 0, canOverlap));
                var o := OldOverlapsToCompare(p, w);
                var start := |old(begunOverlaps)| + |p| - |old(overlappingComponents)|;
                start <= |begunOverlaps| && begunOverlaps[..start] == old(begunOverlaps) + p[|old(overlappingComponents)|..]
                && NoDuplicates(begunOverlaps[start..])
                && (forall x :: x in begunOverlaps[start..] <==> x in n && CanOverlap(x, canOverlap) && x !in p)
                && old(endedOverlaps) <= endedOverlaps
                && (forall x :: x in endedOverlaps[|old(endedOverlaps)|..] <==> x in o && x !in n && x.component.Some?)
                && (forall x :: x in overlappingComponents <==>
                      (x in p && !(x in o && x !in n)) || (x in n && CanOverlap(x, canOverlap)))
    {
      bCanSkipUpdateOverlaps := true;
      if generateOverlapEvents && queryCollisionEnabled {
        bCanSkipUpdateOverlaps := false;
        if w.owner.Some? && w.ownerInitialized {
          ghost var n := NewOverlapsAtEnd(endOverlaps, w, |newPendingOverlaps| > 0, canOverlap);
          BeginComponentOverlaps(newPendingOverlaps, canOverlap);
          ghost var begun1 := begunOverlaps;
          var newOverlappingComponents := GatherOverlapsAtEnd(endOverlaps, w, |newPendingOverlaps| > 0, canOverlap);
          CompareAndBeginOverlaps(newOverlappingComponents, w, canOverlap);
          assert begunOverlaps[..|begun1|] == begun1;
        }
      } else {
        ClearComponentOverlaps();
      }
      bCanSkipUpdateOverlaps := bCanSkipUpdateOverlaps && w.childrenCanSkip;
      if w.shouldUpdatePhysicsVolume {
        bCanSkipUpdateOverlaps := false;
      }
    }

    /** The overlaps at the end location: the cached list, filtered after pending overlaps, or the query's kept results. */
    method GatherOverlapsAtEnd(endOverlaps: EndOverlaps, w: OverlapWorld, hadPending: bool, canOverlap: ObjectId -> bool)
      returns (newOverlappingComponents: seq<OverlapInfo>)
      ensures newOverlappingComponents == NewOverlapsAtEnd(endOverlaps, w, hadPending, canOverlap)
    {
      newOverlappingComponents := [];
      if !pendingKill && generateOverlapEvents {
        match endOverlaps
        case CachedAtEnd(overlaps) =>
          if hadPending {
            newOverlappingComponents := CanOverlapOverlaps(overlaps, canOverlap);
          } else {
            newOverlappingComponents := overlaps;
          }
        case QueriedAtEnd(results) =>
          newOverlappingComponents := GatherQueryOverlaps(results, id, w);
      }
    }

    /**
     * The rest of UpdateOverlapsImpl once the new overlaps are known: if the
     * list is not empty, the comparison ends the old overlaps not among the
     * new ones; then the new overlaps not in the list yet, that can overlap,
     * begin.
     */
    method CompareAndBeginOverlaps(newOverlaps: seq<OverlapInfo>, w: OverlapWorld, canOverlap: ObjectId -> bool)
      requires Valid() && (pendingKill ==> newOverlaps == [])
      modifies this`overlappingComponents, this`begunOverlaps, this`endedOverlaps
      ensures Valid()
      ensures var o := OldOverlapsToCompare(old(overlappingComponents), w);
              |old(begunOverlaps)| <= |begunOverlaps| && begunOverlaps[..|old(begunOverlaps)|] == old(begunOverlaps)
              && NoDuplicates(begunOverlaps[|old(begunOverlaps)|..])
              && (forall x :: x in begunOverlaps[|old(begunOverlaps)|..] <==>
                    x in newOverlaps && CanOverlap(x, canOverlap) && x !in old(overlappingComponents))
              && old(endedOverlaps) <= endedOverlaps
              && (forall x :: x in endedOverlaps[|old(endedOverlaps)|..] <==> x in o && x !in newOverlaps && x.component.Some?)
              && (forall x :: x in overlappingComponents <==>
                    (x in old(overlappingComponents) && !(x in o && x !in newOverlaps)) || (x in newOverlaps && CanOverlap(x, canOverlap)))
    {
      ghost var p := overlappingComponents;
      ghost var o := OldOverlapsToCompare(p, w);
      var newOverlappingComponents := newOverlaps;
      if |overlappingComponents| > 0 {
        newOverlappingComponents := CompareOverlaps(newOverlappingComponents, w);
      } else {
        assert forall x :: x !in o;
      }
      ghost var q := overlappingComponents;
      BeginComponentOverlaps(newOverlappingComponents, canOverlap);
      if !pendingKill {
        NewBeginsAfterComparison(p, o, newOverlaps, q, newOverlappingComponents, overlappingComponents, canOverlap);
      }
    }

    /**
     * An update followed by a second one with the same overlaps at the end
     * location and no pending overlaps: the second begins and ends nothing
     * and keeps the entries the first left.
     */
    method UpdateOverlapsTwice(newPendingOverlaps: seq<OverlapInfo>, endOverlaps: EndOverlaps, w: OverlapWorld,
                               canOverlap: ObjectId -> bool)
      returns (ghost begunByFirst: seq<OverlapInfo>, ghost endedByFirst: seq<OverlapInfo>, ghost listAfterFirst: seq<OverlapInfo>)
      requires Valid()
      modifies this`overlappingComponents, this`begunOverlaps, this`endedOverlaps
      ensures Valid()
      ensures begunOverlaps == begunByFirst && endedOverlaps == endedByFirst
      ensures forall x :: x in overlappingComponents <==> x in listAfterFirst
    {
      ghost var n1 := NewOverlapsAtEnd(endOverlaps, w, |newPendingOverlaps| > 0, canOverlap);
      ghost var n2 := NewOverlapsAtEnd(endOverlaps, w, false, canOverlap);
      assert forall x :: x in n1 ==> x in n2;
      assert forall x :: x in n2 && CanOverlap(x, canOverlap) ==> x in n1;
      ghost var p1 := PendingBegun(newPendingOverlaps, canOverlap);
      var firstSkip := UpdateOverlapsImpl(newPendingOverlaps, endOverlaps, w, canOverlap);
      begunByFirst, endedByFirst, listAfterFirst := begunOverlaps, endedOverlaps, overlappingComponents;
      ghost var p2 := PendingBegun([], canOverlap);
      assert p2 == listAfterFirst;
      var secondSkip := UpdateOverlapsImpl([], endOverlaps, w, canOverlap);
      if generateOverlapEvents && queryCollisionEnabled && w.owner.Some? && w.ownerInitialized {
        RepeatedComparisonIsQuiet(p1, n1, listAfterFirst, n2, w, canOverlap);
        NoMembersIsEmpty(begunOverlaps[|begunByFirst|..]);
        NoMembersIsEmpty(endedOverlaps[|endedByFirst|..]);
      } else if !(generateOverlapEvents && queryCollisionEnabled) {
        NoMembersIsEmpty(LiveOverlaps(listAfterFirst));
      }
    }

    /**
     * UpdateOverlapsImpl's comparison of the old overlaps with the new ones:
     * the old ones not among the new ones leave the list (ending if live),
     * and what is returned holds the new ones not matched by an old one.
     */
    method CompareOverlaps(newOverlaps: seq<OverlapInfo>, w: OverlapWorld) returns (begin: seq<OverlapInfo>)
      requires Valid()
      modifies this`overlappingComponents, this`endedOverlaps
      ensures Valid()
      ensures multiset(begin) <= multiset(newOverlaps) && forall x :: x in begin ==> x in newOverlaps
      ensures old(endedOverlaps) <= endedOverlaps
      ensures var o := OldOverlapsToCompare(old(overlappingComponents), w);
              (forall x :: x in endedOverlaps[|old(endedOverlaps)|..] <==> x in o && x !in newOverlaps && x.component.Some?)
              && (forall x :: x in overlappingComponents <==> x in old(overlappingComponents) && !(x in o && x !in newOverlaps))
              && (forall x :: x in newOverlaps && x !in begin ==> x in overlappingComponents)
    {
      var oldOverlappingComponents := OldOverlapsToCompare(overlappingComponents, w);
      ghost var o := oldOverlappingComponents;
      var oldRest, newRest := RemoveCommonOverlaps(oldOverlappingComponents, newOverlaps);
      SubListOfUnique(oldRest, o);
      EndOldOverlaps(oldRest);
      begin := newRest;
      forall x | x in begin ensures x in newOverlaps {
        assert multiset(begin)[x] > 0;
      }
      assert endedOverlaps[|old(endedOverlaps)|..] == LiveOverlaps(oldRest);
    }
  }
}

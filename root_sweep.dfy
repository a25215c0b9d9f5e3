// The sweep of VRRootComponent::MoveComponentImpl: pulling the sweep's hits
// back, deciding which hits to ignore, choosing the blocking hit and the
// overlaps to queue, and where the component ends up. The choice of the
// blocking hit is specified as a fold over the hits (Scan), whose properties
// are proved by induction; SelectBlockingHit is the loop that computes it.

module RootSweep {
  import opened EngineTypes
  import opened UnrealMath
  import opened Overlaps

  /** PullBackHit's DesiredTimeBack: Clamp(0.1, 0.1/Dist, 1/Dist) + 0.001, a fraction of the sweep. */
  function TimeBack(dist: real): (back: real)
    requires dist > 0.0
    ensures back > 0.0
  {
    Clamp(0.1, 0.1 / dist, 1.0 / dist) + 0.001
  }

  /** In world units the hit moves back between 0.1 and 1 unit, plus a thousandth of the sweep's length. */
  lemma PullBackDistance(dist: real)
    requires dist > 0.0
    ensures 0.1 + 0.001 * dist <= TimeBack(dist) * dist <= 1.0 + 0.001 * dist
  {
    var c := Clamp(0.1, 0.1 / dist, 1.0 / dist);
    assert (0.1 / dist) * dist == 0.1 && (1.0 / dist) * dist == 1.0;
    assert 0.1 / dist <= 1.0 / dist;
    assert 0.1 / dist <= c <= 1.0 / dist;
    assert (0.1 / dist) * dist <= c * dist <= (1.0 / dist) * dist;
    assert TimeBack(dist) * dist == c * dist + 0.001 * dist;
  }

  /** PullBackHit: the hit's time, moved back towards the start and clamped to the sweep. */
  function PullBackHit(time: real, dist: real): (r: real)
    requires dist > 0.0
    ensures 0.0 <= r <= 1.0
  {
    Clamp(time - TimeBack(dist), 0.0, 1.0)
  }

  /** A hit after the start moves strictly earlier; one at or before the start stays at the start. */
  lemma PullBackHitMovesBack(time: real, dist: real)
    requires dist > 0.0
    ensures time > 0.0 ==> PullBackHit(time, dist) < time
    ensures time <= 0.0 ==> PullBackHit(time, dist) == 0.0
  {
  }

  /** Pulling back keeps hits in time order. */
  lemma PullBackHitMonotone(t1: real, t2: real, dist: real)
    requires dist > 0.0 && t1 <= t2
    ensures PullBackHit(t1, dist) <= PullBackHit(t2, dist)
  {
  }

  /**
   * FHitResult, with what ShouldIgnoreHitResult and ShouldIgnoreOverlapResult
   * ask of the engine about the hit component and its actor. moveDot is
   * ImpactNormal | Delta.GetSafeNormal(); basedOnEachOther is the moving
   * actor being based on the hit actor or the other way round.
   */
  datatype HitResult = HitResult(
    bBlockingHit: bool,
    bStartPenetrating: bool,
    time: real,
    distance: real,
    impactNormal: Vector,
    moveDot: real,
    component: Option<ObjectId>,
    itemIndex: int,
    componentSimulating: bool,
    componentGeneratesOverlaps: bool,
    actor: Option<ObjectId>,
    basedOnEachOther: bool,
    actorIsWorldSettings: bool,
    actorInitialized: bool)

  /**
   * What a sweep is judged against: the moving component and its actor, the
   * world, the overlap flags (forceGatherOverlaps is
   * !ShouldCheckOverlapFlagToQueueOverlaps), the move flags and the console
   * variables p.HitDistanceTolerance and p.InitialOverlapTolerance.
   */
  datatype SweepContext = SweepContext(
    self: ObjectId,
    movingActor: Option<ObjectId>,
    worldPresent: bool,
    generateOverlapEvents: bool,
    forceGatherOverlaps: bool,
    allowSimulatingCollision: bool,
    ignoreBases: bool,
    neverIgnoreBlockingOverlaps: bool,
    hitDistanceTolerance: real,
    initialOverlapTolerance: real)

  /** ShouldIgnoreHitResult */
  function ShouldIgnoreHitResult(ctx: SweepContext, testHit: HitResult): (r: bool)
    ensures r ==> testHit.bBlockingHit
    ensures testHit.bBlockingHit && !ctx.allowSimulatingCollision && testHit.component.Some? && testHit.componentSimulating ==> r
    ensures testHit.bBlockingHit && ctx.ignoreBases && ctx.movingActor.Some? && testHit.actor.Some? && testHit.basedOnEachOther ==> r
    ensures r && !(!ctx.allowSimulatingCollision && testHit.component.Some? && testHit.componentSimulating)
              && !(ctx.ignoreBases && ctx.movingActor.Some? && testHit.actor.Some? && testHit.basedOnEachOther) ==>
              !ctx.neverIgnoreBlockingOverlaps
              && (testHit.distance < ctx.hitDistanceTolerance || testHit.bStartPenetrating)
              && testHit.moveDot > ctx.initialOverlapTolerance
  {
    if testHit.bBlockingHit then
      if !ctx.allowSimulatingCollision && testHit.component.Some? && testHit.componentSimulating then true
      else if ctx.ignoreBases && ctx.movingActor.Some? && testHit.actor.Some? && testHit.basedOnEachOther then true
      else if (testHit.distance < ctx.hitDistanceTolerance || testHit.bStartPenetrating) && !ctx.neverIgnoreBlockingOverlaps then
        testHit.moveDot > ctx.initialOverlapTolerance
      else false
    else false
  }

  /** The other side of a candidate overlap, as ShouldIgnoreOverlapResult sees it. */
  datatype OtherComponent = OtherComponent(
    component: ObjectId,
    generatesOverlaps: bool,
    actor: Option<ObjectId>,
    actorIsWorldSettings: bool,
    actorInitialized: bool)

  /** ShouldIgnoreOverlapResult */
  function ShouldIgnoreOverlapResult(worldPresent: bool, thisActor: Option<ObjectId>, thisComponent: ObjectId,
                                     thisGeneratesOverlaps: bool, other: OtherComponent, bCheckOverlapFlags: bool): (r: bool)
    ensures other.component == thisComponent ==> r
    ensures bCheckOverlapFlags && !(thisGeneratesOverlaps && other.generatesOverlaps) ==> r
    ensures thisActor.None? || other.actor.None? || !worldPresent ==> r
    ensures other.actorIsWorldSettings || !other.actorInitialized ==> r
    ensures (other.component != thisComponent && (bCheckOverlapFlags ==> thisGeneratesOverlaps && other.generatesOverlaps)
             && thisActor.Some? && other.actor.Some? && worldPresent && !other.actorIsWorldSettings && other.actorInitialized)
            ==> !r
  {
    if other.component == thisComponent then true
    else if bCheckOverlapFlags && (!thisGeneratesOverlaps || !other.generatesOverlaps) then true
    else if thisActor.None? || other.actor.None? then true
    else if !worldPresent || other.actorIsWorldSettings || !other.actorInitialized then true
    else false
  }

  /** The hit's component as the other side of an overlap. */
  function OtherOfHit(h: HitResult): OtherComponent
    requires h.component.Some?
  {
    OtherComponent(h.component.value, h.componentGeneratesOverlaps, h.actor, h.actorIsWorldSettings, h.actorInitialized)
  }

  /** FOverlapInfo(TestHit) */
  function OverlapOf(h: HitResult): OverlapInfo
  {
    OverlapInfo(h.component, h.itemIndex)
  }

  /** GetGenerateOverlapEvents() || bForceGatherOverlaps */
  predicate GathersOverlaps(ctx: SweepContext)
  {
    ctx.generateOverlapEvents || ctx.forceGatherOverlaps
  }

  /** A blocking hit the move does not ignore. */
  predicate ValidBlocking(ctx: SweepContext, h: HitResult)
  {
    h.bBlockingHit && !ShouldIgnoreHitResult(ctx, h)
  }

  /** A touch the sweep queues as a pending overlap (unless it comes after the blocking hit). */
  predicate OverlapAccepted(ctx: SweepContext, h: HitResult)
  {
    !h.bBlockingHit && GathersOverlaps(ctx)
    && h.component.Some? && (h.componentGeneratesOverlaps || ctx.forceGatherOverlaps)
    && !ShouldIgnoreOverlapResult(ctx.worldPresent, ctx.movingActor, ctx.self, ctx.generateOverlapEvents,
                                  OtherOfHit(h), !ctx.forceGatherOverlaps)
  }

  /** A hit's normal against the move: the smaller, the more the surface opposes the move. */
  function NormalDotDelta(h: HitResult, delta: Vector): real
  {
    Dot(h.impactNormal, delta)
  }

  /** Hits sorted by time, as the engine's multi-sweep returns them. */
  predicate SortedByTime(hits: seq<HitResult>)
  {
    forall i, j :: 0 <= i < j < |hits| ==> hits[i].time <= hits[j].time
  }

  /** The hits after MoveComponentImpl pulls each one back. */
  function PulledBack(hits: seq<HitResult>, dist: real): (r: seq<HitResult>)
    requires dist > 0.0
    ensures |r| == |hits|
    ensures forall i :: 0 <= i < |r| ==> r[i].(time := hits[i].time) == hits[i]
    ensures forall i :: 0 <= i < |r| ==> 0.0 <= r[i].time <= 1.0 && (hits[i].time > 0.0 ==> r[i].time < hits[i].time)
  {
    seq(|hits|, i requires 0 <= i < |hits| => hits[i].(time := PullBackHit(hits[i].time, dist)))
  }

  /** Pulled-back hits lie on the sweep and keep their order. */
  lemma PulledBackOnSweepInOrder(hits: seq<HitResult>, dist: real)
    requires dist > 0.0
    ensures forall i :: 0 <= i < |hits| ==> 0.0 <= PulledBack(hits, dist)[i].time <= 1.0
    ensures SortedByTime(hits) ==> SortedByTime(PulledBack(hits, dist))
  {
    var r := PulledBack(hits, dist);
    if SortedByTime(hits) {
      forall i, j | 0 <= i < j < |r| ensures r[i].time <= r[j].time {
        PullBackHitMonotone(hits[i].time, hits[j].time, dist);
      }
    }
  }

  /**
   * The state of the selection loop: the blocking hit's index (-1 for none),
   * the best initial normal-dot-delta so far, the pending overlaps, the index
   * of the first pending overlap with a positive time (-1 for none), how many
   * hits were fully handled, and whether the loop broke off.
   */
  datatype ScanState = ScanState(
    blockingIndex: int,
    bestDot: real,
    pending: seq<OverlapInfo>,
    firstNonInitial: int,
    scanned: nat,
    done: bool)

  /** One iteration of the selection loop, on hit i. */
  function ScanStep(ctx: SweepContext, delta: Vector, hits: seq<HitResult>, s: ScanState, i: nat): ScanState
    requires i < |hits| && -1 <= s.blockingIndex < i
  {
    if s.done then s
    else
      var h := hits[i];
      if h.bBlockingHit then
        if ShouldIgnoreHitResult(ctx, h) then s.(scanned := i + 1)
        else if h.time == 0.0 then
          if NormalDotDelta(h, delta) < s.bestDot then
            s.(bestDot := NormalDotDelta(h, delta), blockingIndex := i, scanned := i + 1)
          else s.(scanned := i + 1)
        else if s.blockingIndex == -1 then s.(blockingIndex := i, scanned := i + 1, done := true)
        else s.(scanned := i + 1)
      else if OverlapAccepted(ctx, h) then
        if s.blockingIndex >= 0 && h.time > hits[s.blockingIndex].time then s.(done := true)
        else
          s.(firstNonInitial := if s.firstNonInitial == -1 && h.time > 0.0 then |s.pending| else s.firstNonInitial,
             pending := AddedUnique(s.pending, OverlapOf(h)),
             scanned := i + 1)
      else s.(scanned := i + 1)
  }

  /** The selection loop's state after the first n hits. */
  function Scan(ctx: SweepContext, delta: Vector, hits: seq<HitResult>, n: nat): (s: ScanState)
    requires n <= |hits|
    ensures -1 <= s.blockingIndex < n && s.scanned <= n
    ensures !s.done ==> s.scanned == n
    ensures -1 <= s.firstNonInitial <= |s.pending|
  {
    if n == 0 then ScanState(-1, BigNumber, [], -1, 0, false)
    else ScanStep(ctx, delta, hits, Scan(ctx, delta, hits, n - 1), n - 1)
  }

  /** Once the loop has broken off, later hits change nothing. */
  lemma {:induction false} ScanStaysDone(ctx: SweepContext, delta: Vector, hits: seq<HitResult>, n: nat, m: nat)
    requires n <= m <= |hits|
    requires Scan(ctx, delta, hits, n).done
    ensures Scan(ctx, delta, hits, m) == Scan(ctx, delta, hits, n)
    decreases m - n
  {
    if n < m {
      ScanStaysDone(ctx, delta, hits, n, m - 1);
    }
  }

  /** A hit is blocking; the sweep reports a blocking hit exactly when some hit is. */
  predicate HasBlockingHit(hits: seq<HitResult>)
  {
    exists i :: 0 <= i < |hits| && hits[i].bBlockingHit
  }

  /** Without blocking hits and without gathering overlaps the loop finds nothing, so skipping it changes nothing. */
  lemma {:induction false} ScanWithNothingToFind(ctx: SweepContext, delta: Vector, hits: seq<HitResult>, n: nat)
    requires n <= |hits|
    requires !HasBlockingHit(hits) && !GathersOverlaps(ctx)
    ensures var s := Scan(ctx, delta, hits, n);
            s.blockingIndex == -1 && s.pending == [] && s.firstNonInitial == -1
  {
    if n > 0 {
      ScanWithNothingToFind(ctx, delta, hits, n - 1);
      assert !hits[n - 1].bBlockingHit;
    }
  }

  /** The chosen hit is a blocking hit the move does not ignore, among those handled. */
  lemma {:induction false} ScanChoosesValidBlockingHit(ctx: SweepContext, delta: Vector, hits: seq<HitResult>, n: nat)
    requires n <= |hits|
    ensures var s := Scan(ctx, delta, hits, n);
            s.blockingIndex >= 0 ==> s.blockingIndex < s.scanned && ValidBlocking(ctx, hits[s.blockingIndex])
  {
    if n > 0 {
      ScanChoosesValidBlockingHit(ctx, delta, hits, n - 1);
    }
  }

  /**
   * Of the initial blocking hits (time 0), the one chosen has the normal most
   * opposed to the move: its normal-dot-delta is the smallest of all handled,
   * and strictly smaller than that of every earlier one (the first wins a tie).
   */
  lemma {:induction false} ScanChoosesMostOpposedInitialHit(ctx: SweepContext, delta: Vector, hits: seq<HitResult>, n: nat)
    requires n <= |hits|
    ensures var s := Scan(ctx, delta, hits, n);
            s.bestDot <= BigNumber
            && (s.blockingIndex == -1 ==> s.bestDot == BigNumber)
            && (forall j :: 0 <= j < s.scanned && ValidBlocking(ctx, hits[j]) && hits[j].time == 0.0
                  ==> s.bestDot <= NormalDotDelta(hits[j], delta))
            && (s.blockingIndex >= 0 && hits[s.blockingIndex].time == 0.0 ==>
                  s.bestDot == NormalDotDelta(hits[s.blockingIndex], delta)
                  && forall j :: 0 <= j < s.blockingIndex && ValidBlocking(ctx, hits[j]) && hits[j].time == 0.0
                       ==> s.bestDot < NormalDotDelta(hits[j], delta))
  {
    if n > 0 {
      ScanChoosesMostOpposedInitialHit(ctx, delta, hits, n - 1);
    }
  }

  /**
   * A blocking hit after the start is chosen only when no initial hit was:
   * every earlier blocking hit the move does not ignore is an initial one
   * whose normal-dot-delta does not go below BIG_NUMBER, and the loop stops
   * right after it. With no blocking hit chosen, the loop ran to the end.
   */
  lemma {:induction false} ScanChoosesFirstLaterHit(ctx: SweepContext, delta: Vector, hits: seq<HitResult>, n: nat)
    requires n <= |hits|
    ensures var s := Scan(ctx, delta, hits, n);
            (s.blockingIndex == -1 ==>
               !s.done
               && forall j :: 0 <= j < s.scanned && ValidBlocking(ctx, hits[j])
                    ==> hits[j].time == 0.0 && BigNumber <= NormalDotDelta(hits[j], delta))
            && (s.blockingIndex >= 0 && hits[s.blockingIndex].time != 0.0 ==>
                  s.done && s.scanned == s.blockingIndex + 1
                  && forall j :: 0 <= j < s.blockingIndex && ValidBlocking(ctx, hits[j])
                       ==> hits[j].time == 0.0 && BigNumber <= NormalDotDelta(hits[j], delta))
  {
    if n > 0 {
      ScanChoosesFirstLaterHit(ctx, delta, hits, n - 1);
      ScanChoosesMostOpposedInitialHit(ctx, delta, hits, n - 1);
    }
  }

  /** The pending overlaps are, without duplicates, exactly the accepted touches handled. */
  lemma {:induction false} ScanPendingAreAcceptedTouches(ctx: SweepContext, delta: Vector, hits: seq<HitResult>, n: nat)
    requires n <= |hits|
    ensures var s := Scan(ctx, delta, hits, n);
            NoDuplicates(s.pending)
            && forall x :: x in s.pending <==>
                 exists j :: 0 <= j < s.scanned && OverlapAccepted(ctx, hits[j]) && OverlapOf(hits[j]) == x
  {
    if n > 0 {
      var p := Scan(ctx, delta, hits, n - 1);
      var s := Scan(ctx, delta, hits, n);
      ScanPendingAreAcceptedTouches(ctx, delta, hits, n - 1);
      var i := n - 1;
      if !p.done && OverlapAccepted(ctx, hits[i]) && s.scanned == n {
        AddedUniqueKeepsList(p.pending, OverlapOf(hits[i]));
        forall x | x in s.pending
          ensures exists j :: 0 <= j < s.scanned && OverlapAccepted(ctx, hits[j]) && OverlapOf(hits[j]) == x
        {
          if x !in p.pending {
            assert OverlapOf(hits[i]) == x;
          }
        }
      }
    }
  }

  /**
   * With hits in time order, no queued touch comes after the blocking hit:
   * touches beyond it stop the loop instead.
   */
  lemma {:induction false} ScanQueuesNoTouchAfterBlockingHit(ctx: SweepContext, delta: Vector, hits: seq<HitResult>, n: nat)
    requires n <= |hits|
    requires SortedByTime(hits)
    ensures var s := Scan(ctx, delta, hits, n);
            s.blockingIndex >= 0 ==>
              forall j :: 0 <= j < s.scanned && OverlapAccepted(ctx, hits[j]) ==> hits[j].time <= hits[s.blockingIndex].time
  {
    if n > 0 {
      ScanQueuesNoTouchAfterBlockingHit(ctx, delta, hits, n - 1);
    }
  }

  /** The overlap comes from an accepted touch at the start among the first scanned hits. */
  predicate FromTouchAtStart(ctx: SweepContext, hits: seq<HitResult>, x: OverlapInfo, scanned: nat)
    requires scanned <= |hits|
  {
    exists j :: 0 <= j < scanned && OverlapAccepted(ctx, hits[j]) && hits[j].time <= 0.0 && OverlapOf(hits[j]) == x
  }

  /** Every pending overlap before index upTo comes from an accepted touch at the start. */
  predicate FromTouchesAtStart(ctx: SweepContext, hits: seq<HitResult>, pending: seq<OverlapInfo>, upTo: int, scanned: nat)
    requires upTo <= |pending| && scanned <= |hits|
  {
    forall k :: 0 <= k < upTo ==> FromTouchAtStart(ctx, hits, pending[k], scanned)
  }

  /** Handling more hits and appending to the pending list keeps what came from touches at the start. */
  lemma FromTouchesAtStartGrows(ctx: SweepContext, hits: seq<HitResult>, pending: seq<OverlapInfo>, pending': seq<OverlapInfo>,
                                upTo: int, scanned: nat, scanned': nat)
    requires upTo <= |pending| <= |pending'| && pending'[..|pending|] == pending
    requires scanned <= scanned' <= |hits|
    requires FromTouchesAtStart(ctx, hits, pending, upTo, scanned)
    ensures FromTouchesAtStart(ctx, hits, pending', upTo, scanned')
  {
    forall k | 0 <= k < upTo
      ensures FromTouchAtStart(ctx, hits, pending'[k], scanned')
    {
      assert pending'[k] == pending[k];
      var j :| 0 <= j < scanned && OverlapAccepted(ctx, hits[j]) && hits[j].time <= 0.0 && OverlapOf(hits[j]) == pending[k];
      assert j < scanned';
    }
  }

  /**
   * FirstNonInitialOverlapIdx: with none recorded, every queued touch is at
   * the start (time 0 after pull-back); with one recorded, it lies within the
   * pending list and every pending overlap before it comes from a touch at
   * the start.
   */
  lemma {:induction false} ScanMarksFirstLaterTouch(ctx: SweepContext, delta: Vector, hits: seq<HitResult>, n: nat)
    requires n <= |hits|
    ensures var s := Scan(ctx, delta, hits, n);
            (s.firstNonInitial == -1 ==>
               forall j :: 0 <= j < s.scanned && OverlapAccepted(ctx, hits[j]) ==> hits[j].time <= 0.0)
            && FromTouchesAtStart(ctx, hits, s.pending, s.firstNonInitial, s.scanned)
  {
    if n > 0 {
      var p := Scan(ctx, delta, hits, n - 1);
      var s := Scan(ctx, delta, hits, n);
      var i := n - 1;
      ScanMarksFirstLaterTouch(ctx, delta, hits, n - 1);
      ScanPendingAreAcceptedTouches(ctx, delta, hits, n - 1);
      if !p.done && OverlapAccepted(ctx, hits[i]) && s.scanned == n {
        AddedUniqueKeepsList(p.pending, OverlapOf(hits[i]));
        if p.firstNonInitial == -1 && hits[i].time > 0.0 {
          forall k | 0 <= k < s.firstNonInitial
            ensures FromTouchAtStart(ctx, hits, s.pending[k], s.scanned)
          {
            assert s.pending[k] == p.pending[k];
            assert p.pending[k] in p.pending;
            var j :| 0 <= j < p.scanned && OverlapAccepted(ctx, hits[j]) && OverlapOf(hits[j]) == p.pending[k];
            assert hits[j].time <= 0.0 && j < s.scanned;
          }
        } else {
          FromTouchesAtStartGrows(ctx, hits, p.pending, s.pending, p.firstNonInitial, p.scanned, s.scanned);
        }
      } else {
        FromTouchesAtStartGrows(ctx, hits, p.pending, s.pending, p.firstNonInitial, p.scanned, s.scanned);
      }
    }
  }

  /**
   * The selection loop of MoveComponentImpl, run when the sweep had a
   * blocking hit or overlaps are gathered.
   */
  method SelectBlockingHit(ctx: SweepContext, delta: Vector, hits: seq<HitResult>)
    returns (blockingHitIndex: int, pendingOverlaps: seq<OverlapInfo>, firstNonInitialOverlapIdx: int)
    ensures var s := Scan(ctx, delta, hits, |hits|);
            blockingHitIndex == s.blockingIndex && pendingOverlaps == s.pending
            && firstNonInitialOverlapIdx == s.firstNonInitial
  {
    blockingHitIndex, pendingOverlaps, firstNonInitialOverlapIdx := -1, [], -1;
    if !(HasBlockingHit(hits) || GathersOverlaps(ctx)) {
      ScanWithNothingToFind(ctx, delta, hits, |hits|);
      return;
    }
    var blockingHitNormalDotDelta := BigNumber;
    var hitIdx := 0;
    while hitIdx < |hits|
      invariant 0 <= hitIdx <= |hits|
      invariant Scan(ctx, delta, hits, hitIdx)
                == ScanState(blockingHitIndex, blockingHitNormalDotDelta, pendingOverlaps, firstNonInitialOverlapIdx, hitIdx, false)
    {
      var testHit := hits[hitIdx];
      if testHit.bBlockingHit {
        if !ShouldIgnoreHitResult(ctx, testHit) {
          if testHit.time == 0.0 {
            var normalDotDelta := Dot(testHit.impactNormal, delta);
            if normalDotDelta < blockingHitNormalDotDelta {
              blockingHitNormalDotDelta := normalDotDelta;
              blockingHitIndex := hitIdx;
            }
          } else if blockingHitIndex == -1 {
            blockingHitIndex := hitIdx;
            ScanStaysDone(ctx, delta, hits, hitIdx + 1, |hits|);
            break;
          }
        }
      } else if ctx.generateOverlapEvents || ctx.forceGatherOverlaps {
        if testHit.component.Some? && (testHit.componentGeneratesOverlaps || ctx.forceGatherOverlaps) {
          if !ShouldIgnoreOverlapResult(ctx.worldPresent, ctx.movingActor, ctx.self, ctx.generateOverlapEvents,
                                        OtherOfHit(testHit), !ctx.forceGatherOverlaps) {
            if blockingHitIndex >= 0 && testHit.time > hits[blockingHitIndex].time {
              ScanStaysDone(ctx, delta, hits, hitIdx + 1, |hits|);
              break;
            }
            if firstNonInitialOverlapIdx == -1 && testHit.time > 0.0 {
              firstNonInitialOverlapIdx := |pendingOverlaps|;
            }
            pendingOverlaps := AddUniqueOverlapFast(pendingOverlaps, OverlapOf(testHit));
          }
        }
      }
      hitIdx := hitIdx + 1;
    }
  }

  /** FMath::Square(4 * KINDA_SMALL_NUMBER) for a sweep, 0 otherwise. */
  function MinMovementDistSq(bSweep: bool): (r: real)
    ensures r >= 0.0 && (r > 0.0 <==> bSweep)
  {
    if bSweep then (4.0 * KindaSmallNumber) * (4.0 * KindaSmallNumber) else 0.0
  }

  /** Where a sweep with collision leaves the component, the blocking hit it reports, and the overlaps it passes on. */
  datatype SweepResult = SweepResult(newLocation: Vector, blockingHit: Option<HitResult>, pendingOverlaps: seq<OverlapInfo>)

  /**
   * The end of the sweep branch: the full delta without a blocking hit, else
   * up to the hit; a move to the hit no longer than the minimum is dropped,
   * the hit's time becomes 0, and the pending overlaps are cut back to those
   * before the first later one.
   */
  function SweepEnd(orig: Vector, delta: Vector, hits: seq<HitResult>, blockingIndex: int,
                    pending: seq<OverlapInfo>, firstNonInitial: int, minMovementDistSq: real): SweepResult
    requires -1 <= blockingIndex < |hits|
    requires -1 <= firstNonInitial <= |pending|
  {
    if blockingIndex == -1 then SweepResult(Add(orig, delta), None, pending)
    else
      var hit := hits[blockingIndex];
      var newLocation := Add(orig, Scale(delta, hit.time));
      if SizeSquared(Sub(newLocation, orig)) <= minMovementDistSq then
        SweepResult(orig, Some(hit.(time := 0.0)), if firstNonInitial != -1 then pending[..firstNonInitial] else pending)
      else SweepResult(newLocation, Some(hit), pending)
  }

  /**
   * The component ends on the sweep at the reported hit's time (at the end
   * without a hit), never moves by a positive amount up to the minimum, and
   * passes on only overlaps the loop queued.
   */
  lemma SweepEndsAtReportedTime(orig: Vector, delta: Vector, hits: seq<HitResult>, blockingIndex: int,
                                pending: seq<OverlapInfo>, firstNonInitial: int, minMovementDistSq: real)
    requires -1 <= blockingIndex < |hits|
    requires -1 <= firstNonInitial <= |pending|
    ensures var r := SweepEnd(orig, delta, hits, blockingIndex, pending, firstNonInitial, minMovementDistSq);
            (r.blockingHit.None? <==> blockingIndex == -1)
            && (r.blockingHit.None? ==> r.newLocation == Add(orig, delta))
            && (r.blockingHit.Some? ==> r.newLocation == Add(orig, Scale(delta, r.blockingHit.value.time))
                                         && r.blockingHit.value.(time := hits[blockingIndex].time) == hits[blockingIndex])
            && (r.blockingHit.Some? ==> r.newLocation == orig || SizeSquared(Sub(r.newLocation, orig)) > minMovementDistSq)
            && r.pendingOverlaps <= pending
  {
  }
}

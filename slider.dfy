// VRSliderComponent.cpp: an interactible that slides along a line or a
// spline. Its progress is kept in [0, 1]; reaching the ends or a snap point
// fires a hit-point event; after release it can keep its momentum, which
// decays and bounces off the ends; and while it is held or gliding it stops
// replicating its movement, restoring the saved setting afterwards.
//
// Geometry is reduced to what the progress depends on: the distances along
// the slide or the spline are inputs, as are FInterpTo's result, the snap
// test on FMath::Fmod, and the threshold-snapping helper.

module Slider {
  import opened EngineTypes
  import opened UnrealMath
  import opened GripInterface
  import opened RealFacts

  /** EVRInteractibleSliderDropBehavior */
  datatype SliderDropBehavior = Stay | RetainMomentum

  /** FMath::RoundToFloat: rounds halves upwards. */
  function RoundToFloat(x: real): (r: real)
    ensures r - 0.5 <= x < r + 0.5
  {
    (x + 0.5).Floor as real
  }

  /** FMath::TruncToInt: rounds towards zero. */
  function TruncToInt(x: real): (r: int)
    ensures x >= 0.0 ==> r as real <= x < r as real + 1.0
    ensures x < 0.0 ==> r as real - 1.0 < x <= r as real
  {
    if x >= 0.0 then x.Floor else -((-x).Floor)
  }

  /**
   * FMath::Clamp(Num / Den, 0, 1) in floating point: a zero denominator gives
   * an infinity or NaN, which Clamp sends to 0 for a negative numerator and
   * to 1 otherwise.
   */
  function ClampedRatio(num: real, den: real): (r: real)
    ensures 0.0 <= r <= 1.0
    ensures den != 0.0 && 0.0 <= num / den <= 1.0 ==> r == num / den
  {
    if den == 0.0 then (if num < 0.0 then 0.0 else 1.0)
    else Clamp(num / den, 0.0, 1.0)
  }

  /**
   * The inputs of GetCurrentSliderProgress: on a line, the distance from the
   * start (-MinSlideDistance) and the length of the slide; on a spline, the
   * input key, the distances along the spline at the points TruncToInt(key)
   * and the one after it, and the spline's length.
   */
  datatype ProgressQuery =
    | Linear(distFromStart: real, slideLength: real)
    | OnSpline(closestKey: real, distanceAtKey: real, distanceAtNextKey: real, splineLength: real)

  /** GetCurrentSliderProgress: always a progress in [0, 1]; inside the slide, the exact fraction covered. */
  function GetCurrentSliderProgress(q: ProgressQuery): (progress: real)
    ensures 0.0 <= progress <= 1.0
    ensures q.Linear? && 0.0 <= q.distFromStart <= q.slideLength && q.slideLength > 0.0 ==>
              progress == q.distFromStart / q.slideLength
  {
    match q
    case Linear(d, len) => ClampedRatio(d, len)
    case OnSpline(key, d1, d2, len) => ClampedRatio(SplineDistance(key, d1, d2), len)
  }

  /**
   * The distance along the spline at an input key: between the distances at
   * the two surrounding points, in proportion to the key's fractional part.
   */
  function SplineDistance(key: real, distanceAtKey: real, distanceAtNextKey: real): (d: real)
    ensures key >= 0.0 && distanceAtKey <= distanceAtNextKey ==> distanceAtKey <= d <= distanceAtNextKey
  {
    var primaryKey := TruncToInt(key);
    var frac := key - primaryKey as real;
    var span := distanceAtNextKey - distanceAtKey;
    assert key >= 0.0 && span >= 0.0 ==> 0.0 <= span * frac <= span by {
      if key >= 0.0 && span >= 0.0 {
        FractionOf(span, frac);
      }
    }
    span * frac + distanceAtKey
  }

  /** On a spline inside its length, the progress is the exact fraction of the length covered at the key. */
  lemma SplineProgressInterpolates(key: real, d1: real, d2: real, len: real)
    requires key >= 0.0 && len > 0.0
    requires 0.0 <= d1 <= d2 <= len
    ensures GetCurrentSliderProgress(OnSpline(key, d1, d2, len)) == SplineDistance(key, d1, d2) / len
  {
    RatioInUnit(SplineDistance(key, d1, d2), len);
  }

  // ---------------------------------------------------------------------
  // ClampSlideVector

  /**
   * One axis of ClampSlideVector: the value as a fraction of the slide,
   * snapped when snap points are on, clamped to [0, 1], and scaled back. An
   * axis of zero length (an infinite or NaN fraction) lands on -MinScale.
   */
  function ClampSlideAxis(v: real, minSlide: real, maxSlide: real, scaleFactor: real, useSnap: bool, snap: real -> real): (r: real)
  {
    var minScale := minSlide * scaleFactor;
    var dist := (minSlide + maxSlide) * scaleFactor;
    if dist == 0.0 then -minScale
    else
      var progress := (v - (-minScale)) / dist;
      Clamp(if useSnap then snap(progress) else progress, 0.0, 1.0) * dist - minScale
  }

  /** The clamped coordinate lies between the two ends of the slide, -MinScale and Dist - MinScale. */
  lemma ClampSlideAxisWithinSlide(v: real, minSlide: real, maxSlide: real, scaleFactor: real, useSnap: bool, snap: real -> real)
    ensures var minScale := minSlide * scaleFactor;
            var dist := (minSlide + maxSlide) * scaleFactor;
            var r := ClampSlideAxis(v, minSlide, maxSlide, scaleFactor, useSnap, snap);
            Min(-minScale, dist - minScale) <= r <= Max(-minScale, dist - minScale)
  {
    var minScale := minSlide * scaleFactor;
    var dist := (minSlide + maxSlide) * scaleFactor;
    if dist != 0.0 {
      var progress := (v - (-minScale)) / dist;
      var c := Clamp(if useSnap then snap(progress) else progress, 0.0, 1.0);
      assert ClampSlideAxis(v, minSlide, maxSlide, scaleFactor, useSnap, snap) == c * dist - minScale;
      ScaledFractionWithin(c, dist, minScale);
    }
  }

  /** Without snapping, a coordinate already on the slide is left where it is. */
  lemma ClampSlideAxisKeepsOnSlide(v: real, minSlide: real, maxSlide: real, scaleFactor: real, snap: real -> real)
    requires var dist := (minSlide + maxSlide) * scaleFactor;
             dist != 0.0 && 0.0 <= (v + minSlide * scaleFactor) / dist <= 1.0
    ensures ClampSlideAxis(v, minSlide, maxSlide, scaleFactor, false, snap) == v
  {
    var minScale := minSlide * scaleFactor;
    var dist := (minSlide + maxSlide) * scaleFactor;
    assert (v - (-minScale)) / dist * dist == v + minScale;
  }

  /** Without snapping, clamping twice is clamping once. */
  lemma ClampSlideAxisIdempotent(v: real, minSlide: real, maxSlide: real, scaleFactor: real, snap: real -> real)
    ensures var once := ClampSlideAxis(v, minSlide, maxSlide, scaleFactor, false, snap);
            ClampSlideAxis(once, minSlide, maxSlide, scaleFactor, false, snap) == once
  {
    var minScale := minSlide * scaleFactor;
    var dist := (minSlide + maxSlide) * scaleFactor;
    if dist != 0.0 {
      var once := ClampSlideAxis(v, minSlide, maxSlide, scaleFactor, false, snap);
      var c := Clamp((v - (-minScale)) / dist, 0.0, 1.0);
      assert once == c * dist - minScale;
      assert (once - (-minScale)) / dist == c;
      ClampSlideAxisKeepsOnSlide(once, minSlide, maxSlide, scaleFactor, snap);
    }
  }

  /** A coordinate between the two ends of its slide, -MinScale and Dist - MinScale. */
  predicate OnSlideAxis(c: real, minSlide: real, maxSlide: real, scaleFactor: real)
  {
    var minScale := minSlide * scaleFactor;
    var dist := (minSlide + maxSlide) * scaleFactor;
    Min(-minScale, dist - minScale) <= c <= Max(-minScale, dist - minScale)
  }

  /**
   * ClampSlideVector, each axis on its own. `scaleFactor` is one on every
   * axis, or the reciprocal of the initial relative scale when the slide
   * distances are in the parent's space. Every axis of the result lies on
   * its slide.
   */
  function ClampSlideVector(value: Vector, minSlide: Vector, maxSlide: Vector, scaleFactor: Vector, useSnap: bool, snap: real -> real)
    : (r: Vector)
    ensures OnSlideAxis(r.x, minSlide.x, maxSlide.x, scaleFactor.x)
    ensures OnSlideAxis(r.y, minSlide.y, maxSlide.y, scaleFactor.y)
    ensures OnSlideAxis(r.z, minSlide.z, maxSlide.z, scaleFactor.z)
  {
    ClampSlideAxisWithinSlide(value.x, minSlide.x, maxSlide.x, scaleFactor.x, useSnap, snap);
    ClampSlideAxisWithinSlide(value.y, minSlide.y, maxSlide.y, scaleFactor.y, useSnap, snap);
    ClampSlideAxisWithinSlide(value.z, minSlide.z, maxSlide.z, scaleFactor.z, useSnap, snap);
    Vector(ClampSlideAxis(value.x, minSlide.x, maxSlide.x, scaleFactor.x, useSnap, snap),
           ClampSlideAxis(value.y, minSlide.y, maxSlide.y, scaleFactor.y, useSnap, snap),
           ClampSlideAxis(value.z, minSlide.z, maxSlide.z, scaleFactor.z, useSnap, snap))
  }

  /** Without snapping, ClampSlideVector is a projection: applying it again changes nothing. */
  lemma {:induction false} ClampSlideVectorIdempotent(value: Vector, minSlide: Vector, maxSlide: Vector, scaleFactor: Vector, snap: real -> real)
    ensures var once := ClampSlideVector(value, minSlide, maxSlide, scaleFactor, false, snap);
            ClampSlideVector(once, minSlide, maxSlide, scaleFactor, false, snap) == once
  {
    ClampSlideAxisIdempotent(value.x, minSlide.x, maxSlide.x, scaleFactor.x, snap);
    ClampSlideAxisIdempotent(value.y, minSlide.y, maxSlide.y, scaleFactor.y, snap);
    ClampSlideAxisIdempotent(value.z, minSlide.z, maxSlide.z, scaleFactor.z, snap);
  }

  // ---------------------------------------------------------------------
  // CheckSliderProgress

  /** The hit-point bookkeeping after one check, and the event it fired, if any. */
  datatype HitCheck = HitCheck(lastState: real, bHitEventThreshold: bool, fired: Option<real>)

  /**
   * CheckSliderProgress: the first check records the resting progress; later
   * a changed progress (or one past the throw threshold) on an end or, with
   * snap points, on a snap point fires the hit-point event; a progress at
   * least EventThrowThreshold away from the last state arms the threshold.
   */
  function CheckProgress(lastState: real, bHitEventThreshold: bool, progress: real,
                         useSnap: bool, atSnapPoint: bool, eventThrowThreshold: real): HitCheck
  {
    var hit := HitPhase(lastState, bHitEventThreshold, progress, useSnap, atSnapPoint);
    hit.(bHitEventThreshold := hit.bHitEventThreshold || Abs(hit.lastState - progress) >= eventThrowThreshold)
  }

  /** The first part of CheckSliderProgress, before the throw threshold is tested. */
  function HitPhase(lastState: real, bHitEventThreshold: bool, progress: real, useSnap: bool, atSnapPoint: bool): HitCheck
  {
    if lastState < 0.0 then HitCheck(progress, bHitEventThreshold, None)
    else if (lastState != progress || bHitEventThreshold)
            && ((!useSnap && (progress == 1.0 || progress == 0.0)) || (useSnap && atSnapPoint)) then
      var state := if !useSnap then RoundToFloat(progress) else progress;
      HitCheck(state, false, Some(state))
    else HitCheck(lastState, bHitEventThreshold, None)
  }

  /** The first check after a grip only records where the slider rests. */
  lemma FirstCheckOnlyRecords(lastState: real, bHit: bool, progress: real, useSnap: bool, atSnapPoint: bool, threshold: real)
    requires lastState < 0.0
    ensures var c := CheckProgress(lastState, bHit, progress, useSnap, atSnapPoint, threshold);
            c.fired.None? && c.lastState == progress
  {
  }

  /**
   * Without snap points an event fires only at an end, reporting that end,
   * which becomes the last state; the threshold is disarmed unless it is not
   * positive.
   */
  lemma HitPointOnlyAtEnds(lastState: real, bHit: bool, progress: real, atSnapPoint: bool, threshold: real)
    ensures var c := CheckProgress(lastState, bHit, progress, false, atSnapPoint, threshold);
            c.fired.Some? ==>
              (progress == 0.0 || progress == 1.0) && c.fired.value == progress && c.lastState == progress
              && (c.bHitEventThreshold <==> threshold <= 0.0)
  {
  }

  /** An end reached from elsewhere, or with the threshold armed, always fires. */
  lemma EndAlwaysFires(lastState: real, bHit: bool, progress: real, atSnapPoint: bool, threshold: real)
    requires lastState >= 0.0 && (progress == 0.0 || progress == 1.0)
    requires lastState != progress || bHit
    ensures CheckProgress(lastState, bHit, progress, false, atSnapPoint, threshold).fired == Some(progress)
  {
  }

  /** The threshold is armed whenever the progress is EventThrowThreshold or more away from the last state. */
  lemma ThresholdArms(lastState: real, bHit: bool, progress: real, useSnap: bool, atSnapPoint: bool, threshold: real)
    ensures var c := CheckProgress(lastState, bHit, progress, useSnap, atSnapPoint, threshold);
            Abs(c.lastState - progress) >= threshold ==> c.bHitEventThreshold
  {
  }

  /** A progress in [0, 1] keeps the last state either unset (-1) or in [0, 1]. */
  predicate ValidLastState(s: real)
  {
    s == -1.0 || 0.0 <= s <= 1.0
  }

  lemma CheckKeepsLastStateValid(lastState: real, bHit: bool, progress: real, useSnap: bool, atSnapPoint: bool, threshold: real)
    requires ValidLastState(lastState) && 0.0 <= progress <= 1.0
    ensures ValidLastState(CheckProgress(lastState, bHit, progress, useSnap, atSnapPoint, threshold).lastState)
  {
  }

  // ---------------------------------------------------------------------
  // The glide after release (TickComponent) and the momentum (TickGrip)

  /** One tick of the glide: the new progress, the new momentum, and whether the glide goes on. */
  datatype LerpOutcome = LerpOutcome(progress: real, momentum: real, stillLerping: bool)

  /**
   * TickComponent while lerping: a negligible step ends the glide; otherwise
   * the momentum decays to `interpolated` (FInterpTo's result) and moves the
   * slider, which at an end is pinned there and either bounces with the
   * restitution or stops.
   */
  function LerpStep(progress: real, momentum: real, deltaTime: real, interpolated: real, restitution: real): LerpOutcome
  {
    if IsNearlyZero(momentum * deltaTime, 0.00001) then LerpOutcome(progress, momentum, false)
    else
      var newProgress := progress + interpolated * deltaTime;
      if newProgress < 0.0 || IsNearlyEqual(newProgress, 0.0, 0.00001) then
        if restitution > 0.0 then LerpOutcome(0.0, -(interpolated * restitution), true)
        else LerpOutcome(0.0, interpolated, false)
      else if newProgress > 1.0 || IsNearlyEqual(newProgress, 1.0, 0.00001) then
        if restitution > 0.0 then LerpOutcome(1.0, -(interpolated * restitution), true)
        else LerpOutcome(1.0, interpolated, false)
      else LerpOutcome(Clamp(newProgress, 0.0, 1.0), interpolated, true)
  }

  /** The glide never leaves [0, 1]. */
  lemma LerpStaysOnSlide(progress: real, momentum: real, deltaTime: real, interpolated: real, restitution: real)
    requires 0.0 <= progress <= 1.0
    ensures 0.0 <= LerpStep(progress, momentum, deltaTime, interpolated, restitution).progress <= 1.0
  {
  }

  /**
   * Reaching an end pins the slider to it; with a positive restitution the
   * momentum is reversed and scaled, otherwise the glide stops.
   */
  lemma LerpPinsAtEnds(progress: real, momentum: real, deltaTime: real, interpolated: real, restitution: real)
    requires !IsNearlyZero(momentum * deltaTime, 0.00001)
    ensures var o := LerpStep(progress, momentum, deltaTime, interpolated, restitution);
            var newProgress := progress + interpolated * deltaTime;
            var atLow := newProgress < 0.0 || IsNearlyEqual(newProgress, 0.0, 0.00001);
            var atHigh := !atLow && (newProgress > 1.0 || IsNearlyEqual(newProgress, 1.0, 0.00001));
            ((atLow || atHigh) ==>
               o.progress == (if atLow then 0.0 else 1.0)
               && (o.stillLerping <==> restitution > 0.0)
               && o.momentum == (if restitution > 0.0 then -(interpolated * restitution) else interpolated))
            && (!atLow && !atHigh ==> o.progress == newProgress && o.stillLerping && o.momentum == interpolated)
  {
  }

  /**
   * A glide step with a restitution of at most one never gains speed over
   * the decayed momentum: a bounce is no faster than it; a negligible step
   * keeps the momentum it had.
   */
  lemma BounceLosesSpeed(progress: real, momentum: real, deltaTime: real, interpolated: real, restitution: real)
    requires 0.0 < restitution <= 1.0
    ensures var o := LerpStep(progress, momentum, deltaTime, interpolated, restitution);
            if IsNearlyZero(momentum * deltaTime, 0.00001) then o.momentum == momentum
            else Abs(o.momentum) <= Abs(interpolated)
  {
    RestitutionSlows(interpolated, restitution);
  }

  /**
   * The rolling average of TickGrip over FramesToAverage frames, capped at
   * MaxSliderMomentum.
   */
  function RollingMomentum(momentum: real, progress: real, lastProgress: real, deltaTime: real, framesToAverage: int, maxMomentum: real)
    : (m: real)
    requires framesToAverage > 0 && deltaTime > 0.0
    ensures m <= maxMomentum
  {
    var decayed := momentum - momentum / framesToAverage as real;
    var averaged := decayed + ((progress - lastProgress) / deltaTime) / framesToAverage as real;
    Min(maxMomentum, averaged)
  }

  /** A slide at a steady speed within the cap keeps that speed as its momentum. */
  lemma RollingMomentumSteady(momentum: real, progress: real, lastProgress: real, deltaTime: real, framesToAverage: int, maxMomentum: real)
    requires framesToAverage > 0 && deltaTime > 0.0
    requires momentum == (progress - lastProgress) / deltaTime && momentum <= maxMomentum
    ensures RollingMomentum(momentum, progress, lastProgress, deltaTime, framesToAverage, maxMomentum) == momentum
  {
  }

  // ---------------------------------------------------------------------
  // UVRSliderComponent

  /** UVRSliderComponent, reduced to its progress, hit-point, momentum and replication state. */
  class VRSliderComponent {
    var currentSliderProgress: real
    var lastSliderProgress: real
    var lastSliderProgressState: real
    var bHitEventThreshold: bool
    var momentumAtDrop: real
    var bIsLerping: bool
    var bReplicateMovement: bool
    var bOriginalReplicatesMovement: bool
    var bIsHeld: bool
    /** None once HoldingGrip.Clear() has run. */
    var holdingGrip: Option<GripPair>
    var tickEnabled: bool
    var lastInputKey: real
    var lerpedKey: real
    /** The values passed to OnSliderHitPoint and OnSliderFinishedLerping, in order. */
    var hitPointEvents: seq<real>
    var finishedLerpingEvents: seq<real>

    var movementReplicationSetting: GripMovementReplicationSettings
    var sliderBehaviorWhenReleased: SliderDropBehavior
    var sliderRestitution: real
    var sliderMomentumFriction: real
    var maxSliderMomentum: real
    var framesToAverage: int
    var bSliderUsesSnapPoints: bool
    var snapIncrement: real
    var snapThreshold: real
    var eventThrowThreshold: real
    var breakDistance: real

    /** Progress in [0, 1], the last hit-point state unset or in [0, 1], and a holder exactly while held. */
    predicate Valid()
      reads this
    {
      0.0 <= currentSliderProgress <= 1.0 && 0.0 <= lastSliderProgress <= 1.0
      && ValidLastState(lastSliderProgressState)
      && (bIsHeld <==> holdingGrip.Some?)
    }

    /** The constructor's defaults; fields it leaves alone start zeroed, as every UObject does. */
    constructor ()
      ensures Valid()
      ensures currentSliderProgress == 0.0 && lastSliderProgress == 0.0 && lastSliderProgressState == -1.0
      ensures !bHitEventThreshold && momentumAtDrop == 0.0 && !bIsLerping && !bIsHeld && holdingGrip.None?
      ensures bReplicateMovement && !bOriginalReplicatesMovement && !tickEnabled
      ensures lastInputKey == 0.0 && lerpedKey == 0.0 && hitPointEvents == [] && finishedLerpingEvents == []
      ensures movementReplicationSetting == ForceClientSideMovement && sliderBehaviorWhenReleased == Stay
      ensures sliderRestitution == 0.0 && sliderMomentumFriction == 3.0 && maxSliderMomentum == 1.0 && framesToAverage == 3
      ensures !bSliderUsesSnapPoints && snapIncrement == 0.1 && snapThreshold == 0.1 && eventThrowThreshold == 1.0
      ensures breakDistance == 100.0
    {
      currentSliderProgress := 0.0;
      lastSliderProgress := 0.0;
      lastSliderProgressState := -1.0;
      bHitEventThreshold := false;
      momentumAtDrop := 0.0;
      bIsLerping := false;
      bReplicateMovement := true;
      bOriginalReplicatesMovement := false;
      bIsHeld := false;
      holdingGrip := None;
      tickEnabled := false;
      lastInputKey := 0.0;
      lerpedKey := 0.0;
      hitPointEvents := [];
      finishedLerpingEvents := [];
      movementReplicationSetting := ForceClientSideMovement;
      sliderBehaviorWhenReleased := Stay;
      sliderRestitution := 0.0;
      sliderMomentumFriction := 3.0;
      maxSliderMomentum := 1.0;
      framesToAverage := 3;
      bSliderUsesSnapPoints := false;
      snapIncrement := 0.1;
      snapThreshold := 0.1;
      eventThrowThreshold := 1.0;
      breakDistance := 100.0;
    }

    /** BeginPlay: measure the progress, and save the movement replication setting to restore later. */
    method BeginPlay(q: ProgressQuery)
      requires Valid()
      modifies this`currentSliderProgress, this`bOriginalReplicatesMovement
      ensures Valid()
      ensures currentSliderProgress == GetCurrentSliderProgress(q)
      ensures bOriginalReplicatesMovement == bReplicateMovement
    {
      currentSliderProgress := GetCurrentSliderProgress(q);
      bOriginalReplicatesMovement := bReplicateMovement;
    }

    /** CheckSliderProgress; `atSnapPoint` is the Fmod test of the current progress against SnapIncrement. */
    method CheckSliderProgress(atSnapPoint: bool)
      requires Valid()
      modifies this`lastSliderProgressState, this`bHitEventThreshold, this`hitPointEvents
      ensures Valid()
      ensures var c := CheckProgress(old(lastSliderProgressState), old(bHitEventThreshold), currentSliderProgress,
                                     bSliderUsesSnapPoints, atSnapPoint, eventThrowThreshold);
              lastSliderProgressState == c.lastState && bHitEventThreshold == c.bHitEventThreshold
              && hitPointEvents == old(hitPointEvents) + (if c.fired.Some? then [c.fired.value] else [])
    {
      ghost var hit := HitPhase(lastSliderProgressState, bHitEventThreshold, currentSliderProgress,
                                bSliderUsesSnapPoints, atSnapPoint);
      if lastSliderProgressState < 0.0 {
        lastSliderProgressState := currentSliderProgress;
      } else if lastSliderProgressState != currentSliderProgress || bHitEventThreshold {
        if (!bSliderUsesSnapPoints && (currentSliderProgress == 1.0 || currentSliderProgress == 0.0))
           || (bSliderUsesSnapPoints && atSnapPoint) {
          if !bSliderUsesSnapPoints {
            lastSliderProgressState := RoundToFloat(currentSliderProgress);
          } else {
            lastSliderProgressState := currentSliderProgress;
          }
          hitPointEvents := hitPointEvents + [lastSliderProgressState];
          bHitEventThreshold := false;
        }
      }
      assert lastSliderProgressState == hit.lastState && bHitEventThreshold == hit.bHitEventThreshold;
      assert hitPointEvents == old(hitPointEvents) + (if hit.fired.Some? then [hit.fired.value] else []);
      if Abs(lastSliderProgressState - currentSliderProgress) >= eventThrowThreshold {
        bHitEventThreshold := true;
      }
    }

    /** SetSliderProgress: the progress becomes the argument clamped to [0, 1]. */
    method SetSliderProgress(newSliderProgress: real)
      requires Valid()
      modifies this`currentSliderProgress
      ensures Valid()
      ensures currentSliderProgress == Clamp(newSliderProgress, 0.0, 1.0)
      ensures 0.0 <= newSliderProgress <= 1.0 ==> currentSliderProgress == newSliderProgress
    {
      currentSliderProgress := Clamp(newSliderProgress, 0.0, 1.0);
    }

    /**
     * TickComponent: while lerping, one glide step; when the glide ends the
     * finished event fires, ticking stops and movement replication is
     * restored; the hit-point check runs on every lerping tick.
     * `interpolated` is FInterpTo(MomentumAtDrop, 0, DeltaTime, friction) and
     * `atSnapPoint` the snap test of the progress after the step.
     */
    method TickComponent(deltaTime: real, interpolated: real, atSnapPoint: bool)
      requires Valid()
      modifies this`bIsLerping, this`momentumAtDrop, this`currentSliderProgress, this`finishedLerpingEvents,
               this`tickEnabled, this`bReplicateMovement, this`lastSliderProgressState, this`bHitEventThreshold,
               this`hitPointEvents
      ensures Valid()
      ensures !old(bIsLerping) ==> unchanged(this)
      ensures old(bIsLerping) ==>
                var o := LerpStep(old(currentSliderProgress), old(momentumAtDrop), deltaTime, interpolated, sliderRestitution);
                var c := CheckProgress(old(lastSliderProgressState), old(bHitEventThreshold), o.progress,
                                       bSliderUsesSnapPoints, atSnapPoint, eventThrowThreshold);
                currentSliderProgress == o.progress && momentumAtDrop == o.momentum && bIsLerping == o.stillLerping
                && (if o.stillLerping
                    then tickEnabled == old(tickEnabled) && bReplicateMovement == old(bReplicateMovement)
                         && finishedLerpingEvents == old(finishedLerpingEvents)
                    else !tickEnabled && bReplicateMovement == bOriginalReplicatesMovement
                         && finishedLerpingEvents == old(finishedLerpingEvents) + [o.progress])
                && lastSliderProgressState == c.lastState && bHitEventThreshold == c.bHitEventThreshold
                && hitPointEvents == old(hitPointEvents) + (if c.fired.Some? then [c.fired.value] else [])
    {
      if !bIsLerping {
        return;
      }
      Glide(deltaTime, interpolated);
      if !bIsLerping {
        finishedLerpingEvents := finishedLerpingEvents + [currentSliderProgress];
        tickEnabled := false;
        bReplicateMovement := bOriginalReplicatesMovement;
      }
      CheckSliderProgress(atSnapPoint);
    }

    /** The glide step of TickComponent. */
    method Glide(deltaTime: real, interpolated: real)
      requires Valid()
      modifies this`bIsLerping, this`momentumAtDrop, this`currentSliderProgress
      ensures Valid()
      ensures var o := LerpStep(old(currentSliderProgress), old(momentumAtDrop), deltaTime, interpolated, sliderRestitution);
              currentSliderProgress == o.progress && momentumAtDrop == o.momentum
              && bIsLerping == (old(bIsLerping) && o.stillLerping)
    {
      ghost var o := LerpStep(currentSliderProgress, momentumAtDrop, deltaTime, interpolated, sliderRestitution);
      if IsNearlyZero(momentumAtDrop * deltaTime, 0.00001) {
        bIsLerping := false;
        return;
      }
      var newProgress := currentSliderProgress + interpolated * deltaTime;
      momentumAtDrop := interpolated;
      if newProgress < 0.0 || IsNearlyEqual(newProgress, 0.0, 0.00001) {
        assert o.progress == 0.0;
        if sliderRestitution > 0.0 {
          momentumAtDrop := -(momentumAtDrop * sliderRestitution);
        } else {
          bIsLerping := false;
        }
        SetSliderProgress(0.0);
      } else if newProgress > 1.0 || IsNearlyEqual(newProgress, 1.0, 0.00001) {
        assert o.progress == 1.0;
        if sliderRestitution > 0.0 {
          momentumAtDrop := -(momentumAtDrop * sliderRestitution);
        } else {
          bIsLerping := false;
        }
        SetSliderProgress(1.0);
      } else {
        assert o == LerpOutcome(Clamp(newProgress, 0.0, 1.0), interpolated, true);
        SetSliderProgress(newProgress);
      }
    }

    /**
     * OnGrip: the hit-point state and the glide are reset, the current
     * progress becomes the momentum reference, and movement replication stops
     * unless the grip forces server-side movement.
     */
    method OnGrip(gripMovementReplicationSetting: GripMovementReplicationSettings)
      requires Valid()
      modifies this`lastInputKey, this`lerpedKey, this`bHitEventThreshold, this`lastSliderProgressState,
               this`lastSliderProgress, this`bIsLerping, this`momentumAtDrop, this`bReplicateMovement
      ensures Valid()
      ensures lastInputKey == -1.0 && lerpedKey == 0.0 && !bHitEventThreshold && lastSliderProgressState == -1.0
      ensures lastSliderProgress == currentSliderProgress && !bIsLerping && momentumAtDrop == 0.0
      ensures bReplicateMovement == (old(bReplicateMovement) && gripMovementReplicationSetting == ForceServerSideMovement)
    {
      lastInputKey := -1.0;
      lerpedKey := 0.0;
      bHitEventThreshold := false;
      lastSliderProgressState := -1.0;
      lastSliderProgress := currentSliderProgress;
      bIsLerping := false;
      momentumAtDrop := 0.0;
      if gripMovementReplicationSetting != ForceServerSideMovement {
        bReplicateMovement := false;
      }
    }

    /**
     * OnGripRelease: unless the slider stays put, it starts gliding with
     * ticking on and (unless server-side) replication off; a slider that stays
     * stops ticking and restores replication.
     */
    method OnGripRelease()
      requires Valid()
      modifies this`bIsLerping, this`tickEnabled, this`bReplicateMovement
      ensures Valid()
      ensures sliderBehaviorWhenReleased != Stay ==>
                bIsLerping && tickEnabled
                && bReplicateMovement == (old(bReplicateMovement) && movementReplicationSetting == ForceServerSideMovement)
      ensures sliderBehaviorWhenReleased == Stay ==>
                bIsLerping == old(bIsLerping) && !tickEnabled && bReplicateMovement == bOriginalReplicatesMovement
    {
      if sliderBehaviorWhenReleased != Stay {
        bIsLerping := true;
        tickEnabled := true;
        if movementReplicationSetting != ForceServerSideMovement {
          bReplicateMovement := false;
        }
      } else {
        tickEnabled := false;
        bReplicateMovement := bOriginalReplicatesMovement;
      }
    }

    /**
     * SetHeld: holding records the grip and, unless server-side, turns
     * movement replication off, saving the setting only when the slider was
     * neither held nor gliding; releasing clears the grip and restores it.
     */
    method SetHeld(newHoldingController: ObjectId, gripID: uint8, bNewIsHeld: bool)
      requires Valid()
      modifies this`holdingGrip, this`bOriginalReplicatesMovement, this`bReplicateMovement, this`bIsHeld
      ensures Valid()
      ensures bIsHeld == bNewIsHeld
      ensures holdingGrip == if bNewIsHeld then Some(GripPair(newHoldingController, gripID)) else None
      ensures movementReplicationSetting == ForceServerSideMovement ==>
                bReplicateMovement == old(bReplicateMovement) && bOriginalReplicatesMovement == old(bOriginalReplicatesMovement)
      ensures movementReplicationSetting != ForceServerSideMovement && bNewIsHeld ==>
                !bReplicateMovement
                && bOriginalReplicatesMovement
                   == (if !old(bIsHeld) && !bIsLerping then old(bReplicateMovement) else old(bOriginalReplicatesMovement))
      ensures movementReplicationSetting != ForceServerSideMovement && !bNewIsHeld ==>
                bReplicateMovement == bOriginalReplicatesMovement
                && bOriginalReplicatesMovement == old(bOriginalReplicatesMovement)
    {
      if bNewIsHeld {
        holdingGrip := Some(GripPair(newHoldingController, gripID));
        if movementReplicationSetting != ForceServerSideMovement {
          if !bIsHeld && !bIsLerping {
            bOriginalReplicatesMovement := bReplicateMovement;
          }
          bReplicateMovement := false;
        }
      } else {
        holdingGrip := None;
        if movementReplicationSetting != ForceServerSideMovement {
          bReplicateMovement := bOriginalReplicatesMovement;
        }
      }
      bIsHeld := bNewIsHeld;
    }

    /** IsHeld: the holding grip, if any, and whether it is held. */
    method IsHeld() returns (curHoldingControllers: seq<GripPair>, bCurIsHeld: bool)
      requires Valid()
      ensures bCurIsHeld <==> |curHoldingControllers| > 0
      ensures bCurIsHeld == bIsHeld
      ensures |curHoldingControllers| <= 1
      ensures holdingGrip.Some? ==> curHoldingControllers == [holdingGrip.value]
    {
      curHoldingControllers := [];
      if holdingGrip.Some? {
        curHoldingControllers := curHoldingControllers + [holdingGrip.value];
        bCurIsHeld := bIsHeld;
      } else {
        bCurIsHeld := false;
      }
    }

    /**
     * TickGrip without the tracking geometry: the progress becomes the one
     * measured at the grip (`q`); with RetainMomentum the momentum takes the
     * rolling average; the hit-point check runs; and the grip is dropped when
     * BreakDistance is positive and `beyondBreakDistance` (grip authority
     * and the hand at least BreakDistance from the drop location) holds.
     */
    method TickGrip(q: ProgressQuery, deltaTime: real, atSnapPoint: bool, beyondBreakDistance: bool) returns (drop: bool)
      requires Valid()
      requires sliderBehaviorWhenReleased == RetainMomentum ==> framesToAverage > 0 && deltaTime > 0.0
      modifies this`currentSliderProgress, this`momentumAtDrop, this`lastSliderProgress,
               this`lastSliderProgressState, this`bHitEventThreshold, this`hitPointEvents
      ensures Valid()
      ensures currentSliderProgress == GetCurrentSliderProgress(q)
      ensures sliderBehaviorWhenReleased == RetainMomentum ==>
                momentumAtDrop == RollingMomentum(old(momentumAtDrop), currentSliderProgress, old(lastSliderProgress),
                                                  deltaTime, framesToAverage, maxSliderMomentum)
                && momentumAtDrop <= maxSliderMomentum
                && lastSliderProgress == currentSliderProgress
      ensures sliderBehaviorWhenReleased != RetainMomentum ==>
                momentumAtDrop == old(momentumAtDrop) && lastSliderProgress == old(lastSliderProgress)
      ensures var c := CheckProgress(old(lastSliderProgressState), old(bHitEventThreshold), currentSliderProgress,
                                     bSliderUsesSnapPoints, atSnapPoint, eventThrowThreshold);
              lastSliderProgressState == c.lastState && bHitEventThreshold == c.bHitEventThreshold
              && hitPointEvents == old(hitPointEvents) + (if c.fired.Some? then [c.fired.value] else [])
      ensures drop == (breakDistance > 0.0 && beyondBreakDistance)
    {
      currentSliderProgress := GetCurrentSliderProgress(q);
      if sliderBehaviorWhenReleased == RetainMomentum {
        momentumAtDrop := momentumAtDrop - momentumAtDrop / framesToAverage as real;
        momentumAtDrop := momentumAtDrop + ((currentSliderProgress - lastSliderProgress) / deltaTime) / framesToAverage as real;
        momentumAtDrop := Min(maxSliderMomentum, momentumAtDrop);
        lastSliderProgress := currentSliderProgress;
      }
      CheckSliderProgress(atSnapPoint);
      drop := breakDistance > 0.0 && beyondBreakDistance;
    }
  }
}

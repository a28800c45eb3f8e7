/** The session state of the compass page (app.js:26-32) and the two
    per-sample steps that mutate it: updateCompass (app.js:116-122), which
    moves the needle one smoothing step toward the bearing, and the
    alignment part of setText (app.js:124-165). */
module Compass {
  import opened Wrappers
  import opened Angles
  import opened Heading
  import opened Alignment

  /** The rotation updateCompass steers the needle toward and the turn that
      setText reports name the same direction. */
  lemma NeedleAgreesWithTurn(bearing: real, heading: real)
    ensures Normalize360(bearing - heading) == Normalize360(ShortestAngleDiff(bearing, heading))
  {
    var turn := ShortestAngleDiff(bearing, heading);
    SameAngleShift(heading + turn, bearing, -heading);
    assert heading + turn + -heading == turn;
    Normalize360Canonical(turn, bearing - heading);
  }

  class Session {
    /** qiblaBearing: null until the location fix has been turned into a bearing. */
    var bearing: Option<real>
    /** The needle's current rotation in degrees. */
    var lastRotation: real
    var wasAligned: bool
    /** Time in milliseconds of the latest feedback trigger. */
    var lastAlignedAt: int

    /** Every stored angle lies in [0,360). */
    ghost predicate Valid()
      reads this
    {
      0.0 <= lastRotation < 360.0 && (bearing.Some? ==> 0.0 <= bearing.value < 360.0)
    }

    /** The alignment detector's part of the state. */
    function AlignmentState(): Detector
      reads this
    {
      Detector(wasAligned, lastAlignedAt)
    }

    /** The initial module state of app.js:26-32. */
    constructor ()
      ensures Valid()
      ensures bearing == None && lastRotation == 0.0
      ensures !wasAligned && lastAlignedAt == 0
    {
      bearing := None;
      lastRotation := 0.0;
      wasAligned := false;
      lastAlignedAt := 0;
    }

    /** `qiblaBearing = calculateQiblaBearing(lat, lon)`: the great-circle
        direction, given here as the degrees that atan2 produced, is wrapped
        into [0,360) and stored; nothing else changes. */
    method EstablishBearing(greatCircleDeg: real)
      requires Valid()
      modifies this
      ensures Valid()
      ensures bearing == Some(Normalize360(greatCircleDeg))
      ensures SameAngle(bearing.value, greatCircleDeg)
      ensures lastRotation == old(lastRotation)
      ensures wasAligned == old(wasAligned) && lastAlignedAt == old(lastAlignedAt)
    {
      bearing := Some(Normalize360(greatCircleDeg));
    }

    /** updateCompass: without a bearing nothing happens; otherwise the
        needle closes 18% of the shorter gap to the rotation that points it
        at the bearing, and the remaining gap is 0.82 times the old one. */
    method UpdateCompass(deviceHeading: real)
      requires Valid()
      modifies this
      ensures Valid()
      ensures bearing == old(bearing)
      ensures wasAligned == old(wasAligned) && lastAlignedAt == old(lastAlignedAt)
      ensures bearing.None? ==> lastRotation == old(lastRotation)
      ensures bearing.Some? ==>
                lastRotation == SmoothRotation(old(lastRotation),
                                               Normalize360(bearing.value - deviceHeading),
                                               SmoothingFactor)
      ensures bearing.Some? ==>
                ShortestAngleDiff(Normalize360(bearing.value - deviceHeading), lastRotation)
                == 0.82 * ShortestAngleDiff(Normalize360(bearing.value - deviceHeading), old(lastRotation))
    {
      if bearing.None? {
        return;
      }
      var targetRotation := Normalize360(bearing.value - deviceHeading);
      SmoothRotationGap(lastRotation, targetRotation, SmoothingFactor);
      lastRotation := SmoothRotation(lastRotation, targetRotation, SmoothingFactor);
    }

    /** The alignment part of setText: without a bearing nothing happens and
        nothing is reported; otherwise the turn to the bearing gives the
        direction shown, the aligned flag, and whether the feedback fires,
        and the detector state moves as Detect says. */
    method SetText(deviceHeading: real, now: int)
      returns (fired: bool, aligned: bool, direction: Option<TurnDirection>)
      requires Valid()
      modifies this
      ensures Valid()
      ensures bearing == old(bearing) && lastRotation == old(lastRotation)
      ensures bearing.None? ==> !fired && !aligned && direction == None
      ensures bearing.None? ==> wasAligned == old(wasAligned) && lastAlignedAt == old(lastAlignedAt)
      ensures bearing.Some? ==>
                var turn := ShortestAngleDiff(bearing.value, deviceHeading);
                var d := Detect(old(AlignmentState()), turn, now);
                direction == Some(Direction(turn)) && aligned == d.aligned && fired == d.fired
                && AlignmentState() == d.next
    {
      if bearing.None? {
        return false, false, None;
      }
      var turn := ShortestAngleDiff(bearing.value, deviceHeading);
      direction := Some(Direction(turn));
      aligned := IsAligned(turn);
      fired := false;
      if aligned {
        if !wasAligned && now - lastAlignedAt > AlignCooldownMs {
          lastAlignedAt := now;
          fired := true;
        }
      }
      wasAligned := aligned;
    }

    /** What the orientation handler does with one heading: updateCompass,
        then setText. */
    method OnHeading(deviceHeading: real, now: int)
      returns (fired: bool, aligned: bool, direction: Option<TurnDirection>)
      requires Valid()
      modifies this
      ensures Valid()
      ensures bearing == old(bearing)
      ensures bearing.None? ==>
                !fired && !aligned && direction == None
                && lastRotation == old(lastRotation)
                && wasAligned == old(wasAligned) && lastAlignedAt == old(lastAlignedAt)
      ensures bearing.Some? ==>
                var turn := ShortestAngleDiff(bearing.value, deviceHeading);
                var d := Detect(old(AlignmentState()), turn, now);
                lastRotation == SmoothRotation(old(lastRotation),
                                               Normalize360(bearing.value - deviceHeading),
                                               SmoothingFactor)
                && direction == Some(Direction(turn)) && aligned == d.aligned && fired == d.fired
                && AlignmentState() == d.next
    {
      ghost var rotation0 := lastRotation;
      UpdateCompass(deviceHeading);
      ghost var rotation1 := lastRotation;
      assert bearing.Some? ==>
        rotation1 == SmoothRotation(rotation0, Normalize360(bearing.value - deviceHeading), SmoothingFactor);
      fired, aligned, direction := SetText(deviceHeading, now);
      assert lastRotation == rotation1;
    }

    /** The orientation handler (app.js:222-228): an event that carries no
        usable heading is dropped and changes nothing. */
    method OnEvent(event: OrientationEvent, now: int)
      returns (fired: bool, aligned: bool, direction: Option<TurnDirection>)
      requires Valid()
      modifies this
      ensures Valid()
      ensures bearing == old(bearing)
      ensures GetDeviceHeading(event).None? ==>
                !fired && !aligned && direction == None
                && lastRotation == old(lastRotation)
                && wasAligned == old(wasAligned) && lastAlignedAt == old(lastAlignedAt)
      ensures GetDeviceHeading(event).Some? && bearing.Some? ==>
                var heading := GetDeviceHeading(event).value.heading;
                var turn := ShortestAngleDiff(bearing.value, heading);
                var d := Detect(old(AlignmentState()), turn, now);
                lastRotation == SmoothRotation(old(lastRotation),
                                               Normalize360(bearing.value - heading),
                                               SmoothingFactor)
                && direction == Some(Direction(turn)) && aligned == d.aligned && fired == d.fired
                && AlignmentState() == d.next
      ensures GetDeviceHeading(event).Some? && bearing.None? ==>
                !fired && !aligned && direction == None
                && lastRotation == old(lastRotation)
                && wasAligned == old(wasAligned) && lastAlignedAt == old(lastAlignedAt)
    {
      var data := GetDeviceHeading(event);
      if data.None? {
        return false, false, None;
      }
      fired, aligned, direction := OnHeading(data.value.heading, now);
    }
  }
}

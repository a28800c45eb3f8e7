/** getDeviceHeading (app.js:93-113): turns an orientation event into a
    heading sample, trying the iOS absolute compass heading first and the
    relative `alpha` rotation second. */
module Heading {
  import opened Wrappers
  import opened Angles

  /** The fields of an orientation event the web app looks at; a field is
      present when JavaScript's `typeof` reports "number" for it. */
  datatype OrientationEvent = OrientationEvent(
    webkitCompassHeading: Option<real>,
    webkitCompassAccuracy: Option<real>,
    alpha: Option<real>)

  /** What the accuracy line shows: the reported accuracy in degrees, the
      fixed "iOS" label when iOS gives no accuracy, or "relative". */
  datatype AccuracyLabel = Degrees(accuracy: real) | IOS | Relative

  datatype HeadingSample = HeadingSample(heading: real, accuracy: AccuracyLabel)

  function GetDeviceHeading(event: OrientationEvent): (r: Option<HeadingSample>)
    ensures r.Some? <==> event.webkitCompassHeading.Some? || event.alpha.Some?
    ensures r.Some? ==> 0.0 <= r.value.heading < 360.0
  {
    if event.webkitCompassHeading.Some? then
      Some(HeadingSample(
        Normalize360(event.webkitCompassHeading.value),
        if event.webkitCompassAccuracy.Some? then Degrees(event.webkitCompassAccuracy.value) else IOS))
    else if event.alpha.Some? then
      Some(HeadingSample(Normalize360(360.0 - event.alpha.value), Relative))
    else
      None
  }

  /** An absolute compass heading wins over alpha and names the same
      direction; the label is the accuracy when iOS reports one. */
  lemma CompassHeadingWins(event: OrientationEvent)
    requires event.webkitCompassHeading.Some?
    ensures GetDeviceHeading(event).Some?
    ensures SameAngle(GetDeviceHeading(event).value.heading, event.webkitCompassHeading.value)
    ensures GetDeviceHeading(event).value.accuracy
         == if event.webkitCompassAccuracy.Some? then Degrees(event.webkitCompassAccuracy.value) else IOS
  {
  }

  /** A compass heading already in [0,360) is passed through unchanged. */
  lemma CompassHeadingInRange(event: OrientationEvent)
    requires event.webkitCompassHeading.Some?
    requires 0.0 <= event.webkitCompassHeading.value < 360.0
    ensures GetDeviceHeading(event).Some?
    ensures GetDeviceHeading(event).value.heading == event.webkitCompassHeading.value
  {
    Normalize360Fixes(event.webkitCompassHeading.value);
  }

  /** Without a compass heading, alpha (counter-clockwise) is turned into a
      clockwise heading: heading + alpha is a whole number of turns. */
  lemma RelativeHeading(event: OrientationEvent)
    requires event.webkitCompassHeading.None? && event.alpha.Some?
    ensures GetDeviceHeading(event).Some?
    ensures GetDeviceHeading(event).value.accuracy == Relative
    ensures SameAngle(GetDeviceHeading(event).value.heading + event.alpha.value, 0.0)
  {
    var a := event.alpha.value;
    var h := Normalize360(360.0 - a);
    SameAngleShift(h, 360.0 - a, a);
    SameAngleByTurns(360.0, 0.0, 1);
    SameAngleTransitive(h + a, 360.0, 0.0);
  }

  /** alpha = 90 gives heading 270. */
  lemma RelativeHeadingExample()
    ensures GetDeviceHeading(OrientationEvent(None, None, Some(90.0)))
         == Some(HeadingSample(270.0, Relative))
  {
    Normalize360Fixes(270.0);
  }

  /** An iOS heading of 270.4 with accuracy 5 keeps both. */
  lemma CompassHeadingExample()
    ensures GetDeviceHeading(OrientationEvent(Some(270.4), Some(5.0), Some(10.0)))
         == Some(HeadingSample(270.4, Degrees(5.0)))
  {
    Normalize360Fixes(270.4);
  }
}

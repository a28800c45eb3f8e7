/** The turn read-out and the alignment detector of setText
    (app.js:127-133 and app.js:146-164): the direction the user must turn,
    whether the device points at the target bearing, and when the
    vibrate-and-tick feedback fires. */
module Alignment {
  import opened Angles

  /** ALIGN_TOLERANCE_DEG (app.js:33). */
  const AlignToleranceDeg: real := 5.0
  /** ALIGN_COOLDOWN_MS (app.js:34). */
  const AlignCooldownMs: int := 4000
  /** Below this the turn is shown as "0°" (app.js:131). */
  const AheadToleranceDeg: real := 0.5

  // ---------------------------------------------------------------------
  // Turn read-out (app.js:127-133)
  // ---------------------------------------------------------------------

  /** "0°", "… right" or "… left". */
  datatype TurnDirection = Ahead | Right | Left

  /** The read-out for a signed turn: "0°" inside the open half-degree
      band around zero, "right" for a clockwise turn beyond it, "left" for
      a counter-clockwise one. */
  function Direction(turn: real): (r: TurnDirection)
    ensures r == Ahead <==> -AheadToleranceDeg < turn < AheadToleranceDeg
    ensures r == Right <==> turn >= AheadToleranceDeg
    ensures r == Left <==> turn <= -AheadToleranceDeg
  {
    if Abs(turn) < AheadToleranceDeg then Ahead
    else if turn > 0.0 then Right
    else Left
  }

  /** For a bearing and a heading in [0,360), the read-out means: "0°" when
      the shorter arc is under half a degree; "right" when turning clockwise
      by the shorter arc (less than a half-turn) reaches the bearing; "left"
      when turning counter-clockwise by it (up to a half-turn) does. */
  lemma DirectionMeaning(bearing: real, heading: real)
    requires 0.0 <= bearing < 360.0 && 0.0 <= heading < 360.0
    ensures Direction(ShortestAngleDiff(bearing, heading)) == Ahead
        <==> ArcDistance(bearing, heading) < AheadToleranceDeg
    ensures Direction(ShortestAngleDiff(bearing, heading)) == Right ==>
              ArcDistance(bearing, heading) < 180.0
              && SameAngle(heading + ArcDistance(bearing, heading), bearing)
    ensures Direction(ShortestAngleDiff(bearing, heading)) == Left ==>
              SameAngle(heading - ArcDistance(bearing, heading), bearing)
  {
    ShortestAngleDiffRange(bearing, heading);
    ShortestAngleDiffIsArc(bearing, heading);
  }

  // ---------------------------------------------------------------------
  // Alignment (app.js:147)
  // ---------------------------------------------------------------------

  /** The tolerance band is closed: a turn of exactly 5 degrees either way
      still counts as aligned. */
  predicate IsAligned(turn: real)
    ensures IsAligned(turn) <==> -AlignToleranceDeg <= turn <= AlignToleranceDeg
  {
    Abs(turn) <= AlignToleranceDeg
  }

  /** The device is aligned exactly when it points within 5 degrees of the
      bearing along the shorter arc, across the 0/360 seam too. */
  lemma AlignedMeaning(bearing: real, heading: real)
    requires 0.0 <= bearing < 360.0 && 0.0 <= heading < 360.0
    ensures IsAligned(ShortestAngleDiff(bearing, heading)) <==> ArcDistance(bearing, heading) <= AlignToleranceDeg
  {
    ShortestAngleDiffIsArc(bearing, heading);
  }

  /** The boundary is inclusive: 5.0 degrees off is aligned, 5.1 is not,
      and the seam at north is handled (bearing 2, heading 357). */
  lemma AlignedBoundary()
    ensures IsAligned(ShortestAngleDiff(100.0, 95.0))
    ensures !IsAligned(ShortestAngleDiff(100.0, 94.9))
    ensures IsAligned(ShortestAngleDiff(2.0, 357.0))
  {
    ShortestAngleDiffIsArc(100.0, 95.0);
    ShortestAngleDiffIsArc(100.0, 94.9);
    ShortestAngleDiffIsArc(2.0, 357.0);
  }

  // ---------------------------------------------------------------------
  // Feedback trigger (app.js:149-164)
  // ---------------------------------------------------------------------

  /** wasAligned and lastAlignedAt (app.js:31-32). */
  datatype Detector = Detector(wasAligned: bool, lastAlignedAt: int)

  /** The outcome of one event: aligned, whether the feedback fired, and the
      detector afterwards. */
  datatype Detection = Detection(aligned: bool, fired: bool, next: Detector)

  /** One event of the detector, with the turn to the bearing and the time
      in milliseconds. */
  function Detect(s: Detector, turn: real, now: int): (d: Detection)
    ensures d.aligned == IsAligned(turn)
    ensures d.fired ==> d.aligned && !s.wasAligned && now > s.lastAlignedAt + AlignCooldownMs
    ensures d.next.wasAligned == d.aligned
    ensures d.next.lastAlignedAt == now || d.next.lastAlignedAt == s.lastAlignedAt
  {
    var aligned := IsAligned(turn);
    var fired := aligned && !s.wasAligned && now - s.lastAlignedAt > AlignCooldownMs;
    Detection(aligned, fired, Detector(aligned, if fired then now else s.lastAlignedAt))
  }

  /** The feedback fires exactly on a not-aligned to aligned edge once the
      cooldown has elapsed; firing is the only thing that moves
      lastAlignedAt, which never goes back. */
  lemma DetectFiring(s: Detector, turn: real, now: int)
    ensures Detect(s, turn, now).fired
        <==> IsAligned(turn) && !s.wasAligned && now > s.lastAlignedAt + AlignCooldownMs
    ensures Detect(s, turn, now).fired ==> Detect(s, turn, now).next.lastAlignedAt == now
    ensures !Detect(s, turn, now).fired ==> Detect(s, turn, now).next.lastAlignedAt == s.lastAlignedAt
    ensures Detect(s, turn, now).next.lastAlignedAt >= s.lastAlignedAt
    ensures Detect(s, turn, now).next.wasAligned == IsAligned(turn)
  {
  }

  /** Staying aligned never refires, however much time has passed. */
  lemma StayingAlignedIsSilent(s: Detector, turn: real, now: int)
    requires s.wasAligned
    ensures !Detect(s, turn, now).fired
  {
  }

  /** Two consecutive events never both fire. */
  lemma NoConsecutiveFirings(s: Detector, turn1: real, now1: int, turn2: real, now2: int)
    ensures !(Detect(s, turn1, now1).fired && Detect(Detect(s, turn1, now1).next, turn2, now2).fired)
  {
  }

  /** One orientation event as the detector sees it. */
  datatype Observation = Observation(turn: real, now: int)

  /** The detector after a run of events. */
  function Run(s: Detector, events: seq<Observation>): Detector
    decreases |events|
  {
    if events == [] then s
    else Run(Detect(s, events[0].turn, events[0].now).next, events[1..])
  }

  /** The times at which the feedback fires during a run of events. */
  function Firings(s: Detector, events: seq<Observation>): seq<int>
    decreases |events|
  {
    if events == [] then []
    else
      var d := Detect(s, events[0].turn, events[0].now);
      (if d.fired then [events[0].now] else []) + Firings(d.next, events[1..])
  }

  /** Every firing comes more than the cooldown after the last one before
      the run, and any two firings are more than the cooldown apart; no
      assumption about the clock is needed, as lastAlignedAt only grows. */
  lemma {:induction false} FiringsSpaced(s: Detector, events: seq<Observation>)
    ensures forall i :: 0 <= i < |Firings(s, events)| ==>
              Firings(s, events)[i] > s.lastAlignedAt + AlignCooldownMs
    ensures forall i, j :: 0 <= i < j < |Firings(s, events)| ==>
              Firings(s, events)[j] - Firings(s, events)[i] > AlignCooldownMs
    decreases |events|
  {
    if events != [] {
      var d := Detect(s, events[0].turn, events[0].now);
      var rest := Firings(d.next, events[1..]);
      FiringsSpaced(d.next, events[1..]);
      DetectFiring(s, events[0].turn, events[0].now);
      assert Firings(s, events) == (if d.fired then [events[0].now] else []) + rest;
    }
  }

  /** After a run, lastAlignedAt is the time of the latest firing, and
      wasAligned is the alignment of the latest event. */
  lemma {:induction false} RunState(s: Detector, events: seq<Observation>)
    ensures Run(s, events).lastAlignedAt
         == if Firings(s, events) == [] then s.lastAlignedAt
            else Firings(s, events)[|Firings(s, events)| - 1]
    ensures Run(s, events).wasAligned
         == if events == [] then s.wasAligned else IsAligned(events[|events| - 1].turn)
    decreases |events|
  {
    if events != [] {
      var d := Detect(s, events[0].turn, events[0].now);
      RunState(d.next, events[1..]);
      assert Firings(s, events) == (if d.fired then [events[0].now] else []) + Firings(d.next, events[1..]);
      if |events| > 1 {
        assert events[1..][|events[1..]| - 1] == events[|events| - 1];
      }
    }
  }

  /** Two edges into alignment 2000 ms apart fire the feedback once. */
  lemma TwoEdgesWithinCooldown(t: int)
    requires t > AlignCooldownMs
    ensures Firings(Detector(false, 0),
                    [Observation(0.0, t), Observation(20.0, t + 1000), Observation(-3.0, t + 2000)])
         == [t]
  {
    var events := [Observation(0.0, t), Observation(20.0, t + 1000), Observation(-3.0, t + 2000)];
    var aligned := Detector(true, t);
    var away := Detector(false, t);
    assert events[1..] == [Observation(20.0, t + 1000), Observation(-3.0, t + 2000)];
    assert events[1..][1..] == [Observation(-3.0, t + 2000)];
    assert Firings(away, events[1..][1..]) == [] + Firings(Detector(true, t), []);
    assert Firings(aligned, events[1..]) == [] + Firings(away, events[1..][1..]);
    assert Firings(Detector(false, 0), events) == [t] + Firings(aligned, events[1..]);
  }
}

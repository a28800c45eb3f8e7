/** Angle arithmetic of the compass (app.js, lines 43-56): JavaScript's
    remainder operator on degrees, wrapping an angle into [0,360), the
    signed shortest turn between two directions, and the circular low-pass
    step that animates the needle. Angles are exact reals; the rounding of
    IEEE-754 doubles is not modelled. */
module Angles {

  /** The smoothing factor the compass uses on every sample (app.js:120). */
  const SmoothingFactor: real := 0.18

  // ---------------------------------------------------------------------
  // Directions as angles modulo a full turn
  // ---------------------------------------------------------------------

  /** q is a whole number. */
  predicate IsWhole(q: real) {
    q.Floor as real == q
  }

  /** a and b name the same direction: they differ by a whole number of turns. */
  predicate SameAngle(a: real, b: real) {
    IsWhole((a - b) / 360.0)
  }

  lemma SameAngleByTurns(a: real, b: real, k: int)
    requires a - b == 360.0 * k as real
    ensures SameAngle(a, b)
  {
    assert (a - b) / 360.0 == k as real;
  }

  lemma TurnsOfSameAngle(a: real, b: real)
    requires SameAngle(a, b)
    ensures a - b == 360.0 * ((a - b) / 360.0).Floor as real
  {
  }

  lemma SameAngleSymmetric(a: real, b: real)
    requires SameAngle(a, b)
    ensures SameAngle(b, a)
  {
    TurnsOfSameAngle(a, b);
    SameAngleByTurns(b, a, -((a - b) / 360.0).Floor);
  }

  lemma SameAngleTransitive(a: real, b: real, c: real)
    requires SameAngle(a, b) && SameAngle(b, c)
    ensures SameAngle(a, c)
  {
    TurnsOfSameAngle(a, b);
    TurnsOfSameAngle(b, c);
    SameAngleByTurns(a, c, ((a - b) / 360.0).Floor + ((b - c) / 360.0).Floor);
  }

  /** Turning both directions by the same amount keeps them equal. */
  lemma SameAngleShift(a: real, b: real, d: real)
    requires SameAngle(a, b)
    ensures SameAngle(a + d, b + d)
  {
    assert (a + d) - (b + d) == a - b;
  }

  /** Two angles in [0,360) that name the same direction are equal. */
  lemma SameAngleInRange(x: real, y: real)
    requires 0.0 <= x < 360.0 && 0.0 <= y < 360.0
    requires SameAngle(x, y)
    ensures x == y
  {
    TurnsOfSameAngle(x, y);
    var k := ((x - y) / 360.0).Floor;
    assert -360.0 < 360.0 * k as real < 360.0;
    assert k == 0;
  }

  /** Two angles in [-180,180) that name the same direction are equal. */
  lemma SameAngleInHalfTurns(x: real, y: real)
    requires -180.0 <= x < 180.0 && -180.0 <= y < 180.0
    requires SameAngle(x, y)
    ensures x == y
  {
    SameAngleShift(x, y, 180.0);
    SameAngleInRange(x + 180.0, y + 180.0);
  }

  // ---------------------------------------------------------------------
  // JavaScript's remainder and normalize360 (app.js:43-47)
  // ---------------------------------------------------------------------

  /** Truncation toward zero, the rounding JavaScript's `%` uses. */
  function Trunc(x: real): (n: int)
    ensures 0.0 <= x ==> 0 <= n && n as real <= x < n as real + 1.0
    ensures x < 0.0 ==> n <= 0 && n as real - 1.0 < x <= n as real
  {
    if x >= 0.0 then x.Floor else -((-x).Floor)
  }

  /** JavaScript's `x % 360`: the remainder keeps the sign of the dividend. */
  function Rem360(x: real): (r: real)
    ensures 0.0 <= x ==> 0.0 <= r < 360.0
    ensures x < 0.0 ==> -360.0 < r <= 0.0
    ensures SameAngle(x, r)
  {
    var r := x - 360.0 * Trunc(x / 360.0) as real;
    SameAngleByTurns(x, r, Trunc(x / 360.0));
    r
  }

  /** normalize360: the direction of deg, as an angle in [0,360). */
  function Normalize360(deg: real): (r: real)
    ensures 0.0 <= r < 360.0
    ensures SameAngle(r, deg)
  {
    var x := Rem360(deg);
    SameAngleSymmetric(deg, x);
    if x < 0.0 then
      SameAngleShift(x, deg, 360.0);
      SameAngleByTurns(deg + 360.0, deg, 1);
      SameAngleTransitive(x + 360.0, deg + 360.0, deg);
      x + 360.0
    else
      x
  }

  /** Reference definition: the remainder of a division rounded down. */
  function FloorMod360(x: real): real {
    x - 360.0 * (x / 360.0).Floor as real
  }

  /** normalize360 agrees with the floor-based modulus on every input,
      negative ones and whole multiples of 360 included. */
  lemma Normalize360IsFloorMod(x: real)
    ensures Normalize360(x) == FloorMod360(x)
  {
    var m := FloorMod360(x);
    SameAngleByTurns(x, m, (x / 360.0).Floor);
    SameAngleTransitive(Normalize360(x), x, m);
    SameAngleInRange(Normalize360(x), m);
  }

  /** Angles already in [0,360) are left unchanged. */
  lemma Normalize360Fixes(x: real)
    requires 0.0 <= x < 360.0
    ensures Normalize360(x) == x
  {
    SameAngleInRange(Normalize360(x), x);
  }

  lemma Normalize360Idempotent(x: real)
    ensures Normalize360(Normalize360(x)) == Normalize360(x)
  {
    Normalize360Fixes(Normalize360(x));
  }

  /** normalize360 identifies exactly the angles that name the same direction. */
  lemma Normalize360Canonical(x: real, y: real)
    ensures Normalize360(x) == Normalize360(y) <==> SameAngle(x, y)
  {
    if SameAngle(x, y) {
      SameAngleTransitive(Normalize360(x), x, y);
      SameAngleSymmetric(Normalize360(y), y);
      SameAngleTransitive(Normalize360(x), y, Normalize360(y));
      SameAngleInRange(Normalize360(x), Normalize360(y));
    }
    if Normalize360(x) == Normalize360(y) {
      SameAngleSymmetric(Normalize360(x), x);
      SameAngleTransitive(x, Normalize360(x), y);
    }
  }

  // ---------------------------------------------------------------------
  // shortestAngleDiff (app.js:49-51)
  // ---------------------------------------------------------------------

  /** The signed turn from current to target; positive is clockwise. */
  function ShortestAngleDiff(target: real, current: real): (r: real)
    ensures SameAngle(current + r, target)
  {
    var x := Rem360(target - current + 540.0);
    SameAngleSymmetric(target - current + 540.0, x);
    SameAngleShift(x, target - current + 540.0, current - 180.0);
    SameAngleByTurns(target + 360.0, target, 1);
    SameAngleTransitive(x + current - 180.0, target + 360.0, target);
    x - 180.0
  }

  /** For directions given in [0,360) the turn lies in [-180,180), and it is
      the only value there that turns current onto target. */
  lemma ShortestAngleDiffRange(target: real, current: real)
    requires 0.0 <= target < 360.0 && 0.0 <= current < 360.0
    ensures -180.0 <= ShortestAngleDiff(target, current) < 180.0
  {
  }

  lemma ShortestAngleDiffUnique(target: real, current: real, d: real)
    requires 0.0 <= target < 360.0 && 0.0 <= current < 360.0
    requires -180.0 <= d < 180.0 && SameAngle(current + d, target)
    ensures ShortestAngleDiff(target, current) == d
  {
    var r := ShortestAngleDiff(target, current);
    ShortestAngleDiffRange(target, current);
    SameAngleSymmetric(current + d, target);
    SameAngleTransitive(current + r, target, current + d);
    SameAngleShift(current + r, current + d, -current);
    SameAngleInHalfTurns(r, d);
  }

  /** An exact half-turn, either way round, is reported as -180, never +180. */
  lemma ShortestAngleDiffHalfTurn(target: real, current: real)
    requires target - current == 180.0 || target - current == -180.0
    ensures ShortestAngleDiff(target, current) == -180.0
  {
  }

  /** Swapping the directions negates the turn, except at a half-turn. */
  lemma ShortestAngleDiffAntisymmetric(a: real, b: real)
    requires 0.0 <= a < 360.0 && 0.0 <= b < 360.0
    requires ShortestAngleDiff(a, b) != -180.0
    ensures ShortestAngleDiff(b, a) == -ShortestAngleDiff(a, b)
  {
    var d := ShortestAngleDiff(a, b);
    ShortestAngleDiffRange(a, b);
    SameAngleShift(b + d, a, -d);
    ShortestAngleDiffUnique(b, a, -d);
  }

  function Abs(x: real): real {
    if x < 0.0 then -x else x
  }

  /** Reference definition: the length of the shorter arc between a and b. */
  function ArcDistance(a: real, b: real): real {
    var gap := Abs(a - b);
    if gap <= 180.0 then gap else 360.0 - gap
  }

  /** The size of the turn is the length of the shorter arc. */
  lemma ShortestAngleDiffIsArc(target: real, current: real)
    requires 0.0 <= target < 360.0 && 0.0 <= current < 360.0
    ensures Abs(ShortestAngleDiff(target, current)) == ArcDistance(target, current)
  {
    var g := target - current;
    if g < -180.0 {
      SameAngleByTurns(current + (g + 360.0), target, 1);
      ShortestAngleDiffUnique(target, current, g + 360.0);
    } else if g < 180.0 {
      SameAngleByTurns(current + g, target, 0);
      ShortestAngleDiffUnique(target, current, g);
    } else {
      SameAngleByTurns(current + (g - 360.0), target, -1);
      ShortestAngleDiffUnique(target, current, g - 360.0);
    }
  }

  // ---------------------------------------------------------------------
  // smoothRotation (app.js:53-56)
  // ---------------------------------------------------------------------

  /** One low-pass step: close the fraction factor of the shorter gap; the
      factor defaults to SmoothingFactor, as in app.js:53. */
  function SmoothRotation(current: real, target: real, factor: real := SmoothingFactor): (r: real)
    ensures 0.0 <= r < 360.0
  {
    Normalize360(current + ShortestAngleDiff(target, current) * factor)
  }

  /** A needle already on target stays there, whatever the factor. */
  lemma SmoothRotationAtTarget(current: real, factor: real)
    requires 0.0 <= current < 360.0
    ensures SmoothRotation(current, current, factor) == current
  {
    assert ShortestAngleDiff(current, current) == 0.0;
    Normalize360Fixes(current);
  }

  /** With factor 1 the step lands exactly on the target. */
  lemma SmoothRotationFullStep(current: real, target: real)
    requires 0.0 <= target < 360.0
    ensures SmoothRotation(current, target, 1.0) == target
  {
    var d := ShortestAngleDiff(target, current);
    assert SmoothRotation(current, target, 1.0) == Normalize360(current + d);
    SameAngleTransitive(Normalize360(current + d), current + d, target);
    SameAngleInRange(Normalize360(current + d), target);
  }

  /** One step with factor in [0,1] scales the remaining turn by (1 - factor):
      same sign, never overshooting, never taking the longer arc. */
  lemma SmoothRotationGap(current: real, target: real, factor: real)
    requires 0.0 <= current < 360.0 && 0.0 <= target < 360.0
    requires 0.0 <= factor <= 1.0
    ensures ShortestAngleDiff(target, SmoothRotation(current, target, factor))
         == (1.0 - factor) * ShortestAngleDiff(target, current)
  {
    ShortestAngleDiffRange(target, current);
    ScaleRest(factor, ShortestAngleDiff(target, current));
    GapRemaining(current, target, SmoothRotation(current, target, factor),
                 ShortestAngleDiff(target, current) * factor,
                 (1.0 - factor) * ShortestAngleDiff(target, current));
  }

  /** What is left of a gap d in [-180,180) after closing the fraction factor of it. */
  lemma ScaleRest(factor: real, d: real)
    requires 0.0 <= factor <= 1.0 && -180.0 <= d < 180.0
    ensures (1.0 - factor) * d == d - d * factor
    ensures -180.0 <= (1.0 - factor) * d < 180.0
  {
    ScaleBetween(1.0 - factor, d);
  }

  /** Scaling by a fraction stays between zero and the value scaled. */
  lemma ScaleBetween(k: real, x: real)
    requires 0.0 <= k <= 1.0
    ensures 0.0 <= x ==> 0.0 <= k * x <= x
    ensures x < 0.0 ==> x <= k * x <= 0.0
  {
    if 0.0 <= x {
      assert x - k * x == (1.0 - k) * x;
    } else {
      assert k * x - x == (1.0 - k) * -x;
    }
  }

  /** Turning current by step leaves the rest of the shortest turn still to go. */
  lemma GapRemaining(current: real, target: real, next: real, step: real, rest: real)
    requires 0.0 <= current < 360.0 && 0.0 <= target < 360.0 && 0.0 <= next < 360.0
    requires SameAngle(next, current + step)
    requires rest == ShortestAngleDiff(target, current) - step
    requires -180.0 <= rest < 180.0
    ensures ShortestAngleDiff(target, next) == rest
  {
    var d := ShortestAngleDiff(target, current);
    SameAngleShift(next, current + step, rest);
    assert current + step + rest == current + d;
    SameAngleTransitive(next + rest, current + d, target);
    ShortestAngleDiffUnique(target, next, rest);
  }

  // ---------------------------------------------------------------------
  // Repeated smoothing toward a fixed target (app.js:119-120, every sample)
  // ---------------------------------------------------------------------

  /** The needle after n samples that all ask for the same target, each
      step closing the fraction SmoothingFactor of the gap. */
  function Smoothed(current: real, target: real, n: nat): real {
    if n == 0 then current else SmoothRotation(Smoothed(current, target, n - 1), target, SmoothingFactor)
  }

  lemma SmoothedInRange(current: real, target: real, n: nat)
    requires 0.0 <= current < 360.0
    ensures 0.0 <= Smoothed(current, target, n) < 360.0
  {
  }

  /** The turn left after n steps when the first gap was first: each step
      keeps 1 - SmoothingFactor = 0.82 of it. */
  function Remaining(first: real, n: nat): real {
    if n == 0 then first else 0.82 * Remaining(first, n - 1)
  }

  /** After n steps the remaining turn is 0.82^n times the first one. */
  lemma {:induction false} SmoothedGap(current: real, target: real, n: nat)
    requires 0.0 <= current < 360.0 && 0.0 <= target < 360.0
    ensures ShortestAngleDiff(target, Smoothed(current, target, n))
         == Remaining(ShortestAngleDiff(target, current), n)
  {
    if n > 0 {
      SmoothedInRange(current, target, n - 1);
      SmoothedGap(current, target, n - 1);
      SmoothRotationGap(Smoothed(current, target, n - 1), target, SmoothingFactor);
    }
  }

  /** The remaining turn keeps its sign and never grows: the needle
      approaches the target monotonically along the shorter arc. */
  lemma {:induction false} RemainingShrinks(first: real, n: nat)
    ensures 0.0 <= first ==> 0.0 <= Remaining(first, n + 1) <= Remaining(first, n)
    ensures first <= 0.0 ==> Remaining(first, n) <= Remaining(first, n + 1) <= 0.0
    ensures first != 0.0 ==> Remaining(first, n + 1) != Remaining(first, n)
  {
    if n > 0 {
      RemainingShrinks(first, n - 1);
    }
  }

  lemma {:induction false} RemainingMonotone(first: real, m: nat, n: nat)
    requires 0.0 <= first && m <= n
    ensures 0.0 <= Remaining(first, n) <= Remaining(first, m)
  {
    if m < n {
      RemainingMonotone(first, m, n - 1);
      RemainingShrinks(first, n - 1);
    } else if n > 0 {
      RemainingShrinks(first, n - 1);
    }
  }

  lemma {:induction false} RemainingCompose(first: real, a: nat, b: nat)
    ensures Remaining(first, a + b) == Remaining(Remaining(first, a), b)
  {
    if b > 0 {
      RemainingCompose(first, a, b - 1);
    }
  }

  /** first / 2^k */
  function Halved(first: real, k: nat): real {
    if k == 0 then first else Halved(first, k - 1) / 2.0
  }

  /** Four steps more than halve the gap, as 0.82^4 < 1/2. */
  lemma {:induction false} RemainingHalves(first: real, k: nat)
    requires 0.0 <= first
    ensures Remaining(first, 4 * k) <= Halved(first, k)
  {
    if k > 0 {
      RemainingHalves(first, k - 1);
      RemainingCompose(first, 4 * (k - 1), 4);
      var r := Remaining(first, 4 * (k - 1));
      RemainingMonotone(first, 0, 4 * (k - 1));
      assert Remaining(r, 1) == 0.82 * r;
      assert Remaining(r, 2) == 0.82 * (0.82 * r);
      assert Remaining(r, 4) == 0.82 * (0.82 * Remaining(r, 2));
    }
  }

  /** Starting at 0 and turning toward 90, the needle stays on the short
      arc [0,90) and is within 0.1 degree of 90 from the 40th step on. */
  lemma SmoothedToNinety(n: nat)
    ensures 0.0 <= Smoothed(0.0, 90.0, n) < 90.0
    ensures n >= 40 ==> 90.0 - Smoothed(0.0, 90.0, n) < 0.1
  {
    SameAngleByTurns(0.0 + 90.0, 90.0, 0);
    ShortestAngleDiffUnique(90.0, 0.0, 90.0);
    SmoothedGap(0.0, 90.0, n);
    SmoothedInRange(0.0, 90.0, n);
    var s := Smoothed(0.0, 90.0, n);
    var r := Remaining(90.0, n);
    RemainingMonotone(90.0, 0, n);
    RemainingPositive(90.0, n);
    SameAngleShift(s + r, 90.0, -r);
    SameAngleInRange(s, 90.0 - r);
    if n >= 40 {
      RemainingMonotone(90.0, 40, n);
      RemainingHalves(90.0, 10);
      assert Halved(90.0, 10) == 90.0 / 1024.0;
    }
  }

  lemma {:induction false} RemainingPositive(first: real, n: nat)
    requires 0.0 < first
    ensures 0.0 < Remaining(first, n)
  {
    if n > 0 {
      RemainingPositive(first, n - 1);
    }
  }
}

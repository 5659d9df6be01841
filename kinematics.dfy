/**
 * Per-missile kinematics of the enemy-missile batch: the missile record, the
 * clamped per-tick movement, ground impact, the removal filter and the
 * velocity a new missile is launched with. Positions are exact reals.
 */
module Kinematics {

  /** A position or a velocity in episode coordinates; y = 0 is the ground. */
  datatype Vec = Vec(x: real, y: real)

  /**
   * One row of the batch: where the missile was launched, where it is now,
   * where it hits the ground, and its constant per-tick velocity.
   */
  datatype Missile = Missile(start: Vec, current: Vec, target: Vec, velocity: Vec)

  function Abs(v: real): real { if v < 0.0 then -v else v }

  function Min(a: real, b: real): real { if a <= b then a else b }

  /** -1, 0 or 1, as numpy's sign gives it. */
  function Sign(v: real): real { if v > 0.0 then 1.0 else if v < 0.0 then -1.0 else 0.0 }

  /** v lies between a and b inclusive, whichever of the two is larger. */
  predicate Between(v: real, a: real, b: real) { (a <= v <= b) || (b <= v <= a) }

  /** A velocity component v does not lead away from `to` when at `from`. */
  predicate PointsToward(from: real, to: real, v: real)
  {
    (from < to ==> v >= 0.0) && (to < from ==> v <= 0.0)
  }

  // ---------------------------------------------------------------------
  // Movement phase, one axis

  /** m * Sign(v), written by cases so that it stays linear for the solver. */
  function TimesSign(m: real, v: real): real
  {
    if v > 0.0 then m else if v < 0.0 then -m else 0.0
  }

  /** The case form is the product with the sign that the movement phase takes. */
  lemma TimesSignIsProduct(m: real, v: real)
    ensures TimesSign(m, v) == m * Sign(v)
  {
  }

  /**
   * One axis of the movement phase: move by |v| in the direction of v, but
   * never by more than the remaining distance to the target.
   */
  function AxisStep(cur: real, tgt: real, v: real): real
  {
    cur + TimesSign(Min(Abs(v), Abs(tgt - cur)), v)
  }

  /** The move is exactly min(|v|, distance left), in v's direction; v = 0 means no move. */
  lemma AxisStepMovesClamped(cur: real, tgt: real, v: real)
    ensures Abs(AxisStep(cur, tgt, v) - cur) == Min(Abs(v), Abs(tgt - cur))
    ensures Abs(AxisStep(cur, tgt, v) - cur) <= Abs(v)
    ensures Abs(AxisStep(cur, tgt, v) - cur) <= Abs(tgt - cur)
    ensures v >= 0.0 ==> AxisStep(cur, tgt, v) >= cur
    ensures v <= 0.0 ==> AxisStep(cur, tgt, v) <= cur
    ensures v == 0.0 ==> AxisStep(cur, tgt, v) == cur
  {
  }

  /**
   * When v does not point away from the target, the distance left shrinks by
   * exactly the clamped move, and the new position lies between the old one
   * and the target: the axis never overshoots.
   */
  lemma AxisStepApproaches(cur: real, tgt: real, v: real)
    requires PointsToward(cur, tgt, v)
    ensures Abs(tgt - AxisStep(cur, tgt, v)) == Abs(tgt - cur) - Min(Abs(v), Abs(tgt - cur))
    ensures Abs(tgt - AxisStep(cur, tgt, v)) <= Abs(tgt - cur)
    ensures Between(AxisStep(cur, tgt, v), cur, tgt)
    ensures Abs(v) >= Abs(tgt - cur) ==> AxisStep(cur, tgt, v) == tgt
  {
  }

  /** Far from the target, an axis moves by its full velocity. */
  lemma AxisStepFullSpeed(cur: real, tgt: real, v: real)
    requires Abs(v) <= Abs(tgt - cur)
    ensures AxisStep(cur, tgt, v) == cur + v
  {
  }

  /** A point between start and target sees the velocity point toward the target too. */
  lemma PointsTowardFromBetween(s: real, cur: real, tgt: real, v: real)
    requires Between(cur, s, tgt) && PointsToward(s, tgt, v)
    ensures PointsToward(cur, tgt, v)
  {
  }

  /** The no-overshoot guarantee on one axis: a position between start and target stays there. */
  lemma AxisStepStaysBetween(s: real, cur: real, tgt: real, v: real)
    requires Between(cur, s, tgt) && PointsToward(s, tgt, v)
    ensures Between(AxisStep(cur, tgt, v), s, tgt)
  {
    PointsTowardFromBetween(s, cur, tgt, v);
    AxisStepApproaches(cur, tgt, v);
  }

  // ---------------------------------------------------------------------
  // Movement phase, whole missile and whole batch

  /**
   * The missile lies on the box spanned by its start and its target, axis by
   * axis, and its velocity points from its start toward its target.
   */
  predicate OnCourse(m: Missile)
  {
    && Between(m.current.x, m.start.x, m.target.x)
    && Between(m.current.y, m.start.y, m.target.y)
    && PointsToward(m.start.x, m.target.x, m.velocity.x)
    && PointsToward(m.start.y, m.target.y, m.velocity.y)
  }

  /** A missile has hit the ground when its current position equals its target on both axes. */
  predicate Impacted(m: Missile) { m.current == m.target }

  /** The movement phase applied to one missile: only the current position changes. */
  function Advance(m: Missile): (r: Missile)
    ensures r.start == m.start && r.target == m.target && r.velocity == m.velocity
  {
    m.(current := Vec(AxisStep(m.current.x, m.target.x, m.velocity.x),
                      AxisStep(m.current.y, m.target.y, m.velocity.y)))
  }

  /** The movement phase applied to every missile of the batch, each independently. */
  function AdvanceAll(ms: seq<Missile>): seq<Missile>
  {
    seq(|ms|, i requires 0 <= i < |ms| => Advance(ms[i]))
  }

  /**
   * The movement phase keeps a missile on course and never increases its
   * distance to the target on either axis.
   */
  lemma AdvanceKeepsOnCourse(m: Missile)
    requires OnCourse(m)
    ensures OnCourse(Advance(m))
    ensures Abs(m.target.x - Advance(m).current.x) <= Abs(m.target.x - m.current.x)
    ensures Abs(m.target.y - Advance(m).current.y) <= Abs(m.target.y - m.current.y)
  {
    AxisStepStaysBetween(m.start.x, m.current.x, m.target.x, m.velocity.x);
    AxisStepStaysBetween(m.start.y, m.current.y, m.target.y, m.velocity.y);
    PointsTowardFromBetween(m.start.x, m.current.x, m.target.x, m.velocity.x);
    PointsTowardFromBetween(m.start.y, m.current.y, m.target.y, m.velocity.y);
    AxisStepApproaches(m.current.x, m.target.x, m.velocity.x);
    AxisStepApproaches(m.current.y, m.target.y, m.velocity.y);
  }

  // ---------------------------------------------------------------------
  // Time to impact

  /** n ticks at speed |v| cover distance d. */
  predicate Covers(n: nat, v: real, d: real) { (n as real) * Abs(v) >= d }

  /** The position on one axis after n movement phases. */
  function AxisAfter(cur: real, tgt: real, v: real, n: nat): real
    decreases n
  {
    if n == 0 then cur else AxisAfter(AxisStep(cur, tgt, v), tgt, v, n - 1)
  }

  /**
   * An axis whose velocity points toward its target is at the target after n
   * ticks exactly when n ticks at full speed cover the distance.
   */
  lemma {:induction false} AxisArrivesIff(cur: real, tgt: real, v: real, n: nat)
    requires PointsToward(cur, tgt, v)
    ensures AxisAfter(cur, tgt, v, n) == tgt <==> Covers(n, v, Abs(tgt - cur))
    decreases n
  {
    if n > 0 {
      var next := AxisStep(cur, tgt, v);
      var left := if Abs(v) >= Abs(tgt - cur) then 0.0 else Abs(tgt - cur) - Abs(v);
      AxisStepApproaches(cur, tgt, v);
      assert Abs(tgt - next) == left;
      PointsTowardFromBetween(cur, next, tgt, v);
      AxisArrivesIff(next, tgt, v, n - 1);
      CoversStep(n, v, Abs(tgt - cur));
    }
  }

  /** Covering d in n ticks is covering what one tick leaves of d in n - 1 ticks. */
  lemma CoversStep(n: nat, v: real, d: real)
    requires n > 0 && d >= 0.0
    ensures Covers(n, v, d) <==> Covers(n - 1, v, if Abs(v) >= d then 0.0 else d - Abs(v))
  {
    var k, a := (n - 1) as real, Abs(v);
    assert (n as real) * a == k * a + a;
    assert k * a >= 0.0;
  }

  /** The missile after n movement phases. */
  function AdvanceTimes(m: Missile, n: nat): Missile
    decreases n
  {
    if n == 0 then m else AdvanceTimes(Advance(m), n - 1)
  }

  /** n movement phases move each axis independently. */
  lemma {:induction false} AdvanceTimesAxes(m: Missile, n: nat)
    ensures AdvanceTimes(m, n).start == m.start
    ensures AdvanceTimes(m, n).target == m.target
    ensures AdvanceTimes(m, n).velocity == m.velocity
    ensures AdvanceTimes(m, n).current.x == AxisAfter(m.current.x, m.target.x, m.velocity.x, n)
    ensures AdvanceTimes(m, n).current.y == AxisAfter(m.current.y, m.target.y, m.velocity.y, n)
    decreases n
  {
    if n > 0 {
      AdvanceTimesAxes(Advance(m), n - 1);
    }
  }

  /**
   * A missile on course hits the ground after n ticks exactly when n ticks at
   * its speed cover the remaining distance on both axes.
   */
  lemma ImpactAfterIff(m: Missile, n: nat)
    requires OnCourse(m)
    ensures Impacted(AdvanceTimes(m, n)) <==>
              && Covers(n, m.velocity.x, Abs(m.target.x - m.current.x))
              && Covers(n, m.velocity.y, Abs(m.target.y - m.current.y))
  {
    AdvanceTimesAxes(m, n);
    var after := AdvanceTimes(m, n);
    PointsTowardFromBetween(m.start.x, m.current.x, m.target.x, m.velocity.x);
    PointsTowardFromBetween(m.start.y, m.current.y, m.target.y, m.velocity.y);
    AxisArrivesIff(m.current.x, m.target.x, m.velocity.x, n);
    AxisArrivesIff(m.current.y, m.target.y, m.velocity.y, n);
    var arrivedX := after.current.x == m.target.x;
    var arrivedY := after.current.y == m.target.y;
    assert after.target == m.target;
    assert Impacted(after) <==> arrivedX && arrivedY;
  }

  // ---------------------------------------------------------------------
  // Removal phase

  /** The batch with every impacted missile removed, the others kept in order. */
  function Survivors(ms: seq<Missile>): (r: seq<Missile>)
    ensures |r| <= |ms|
  {
    if ms == [] then []
    else if Impacted(ms[0]) then Survivors(ms[1..])
    else [ms[0]] + Survivors(ms[1..])
  }

  /** Removal distributes over concatenation, so survivors keep their relative order. */
  lemma {:induction false} SurvivorsConcat(a: seq<Missile>, b: seq<Missile>)
    ensures Survivors(a + b) == Survivors(a) + Survivors(b)
  {
    if a == [] {
      assert a + b == b;
    } else {
      assert (a + b)[0] == a[0];
      assert (a + b)[1..] == a[1..] + b;
      SurvivorsConcat(a[1..], b);
    }
  }

  /** A single missile survives exactly when it has not hit the ground. */
  lemma SurvivorsSingle(m: Missile)
    ensures Survivors([m]) == if Impacted(m) then [] else [m]
  {
    assert [m][1..] == [];
  }

  /** A record is kept exactly when it was in the batch and has not hit the ground. */
  lemma {:induction false} SurvivorsMembership(ms: seq<Missile>, m: Missile)
    ensures m in Survivors(ms) <==> m in ms && !Impacted(m)
  {
    if ms != [] {
      SurvivorsMembership(ms[1..], m);
      assert ms == [ms[0]] + ms[1..];
    }
  }

  /** Removal leaves the batch as it is exactly when no missile in it has hit the ground. */
  lemma {:induction false} SurvivorsUnchangedIff(ms: seq<Missile>)
    ensures Survivors(ms) == ms <==> forall i :: 0 <= i < |ms| ==> !Impacted(ms[i])
  {
    if ms != [] {
      SurvivorsUnchangedIff(ms[1..]);
      if Impacted(ms[0]) {
        assert |Survivors(ms)| < |ms|;
      } else {
        assert ms == [ms[0]] + ms[1..];
        assert (forall i :: 0 <= i < |ms| ==> !Impacted(ms[i])) <==>
               (forall i :: 0 <= i < |ms[1..]| ==> !Impacted(ms[1..][i]));
      }
    }
  }

  // ---------------------------------------------------------------------
  // Launch

  /** norm is the Euclidean distance from a to b, and it is not zero. */
  predicate IsDistance(norm: real, a: Vec, b: Vec)
  {
    norm > 0.0 && norm * norm == (b.x - a.x) * (b.x - a.x) + (b.y - a.y) * (b.y - a.y)
  }

  /** The velocity of a new missile: speed times the unit vector from start to target. */
  function LaunchVelocity(start: Vec, target: Vec, speed: real, norm: real): Vec
    requires norm != 0.0
  {
    Vec(speed * ((target.x - start.x) / norm), speed * ((target.y - start.y) / norm))
  }

  /** A non-negative speed makes each launch velocity component point toward the target. */
  lemma LaunchVelocityPointsToward(start: Vec, target: Vec, speed: real, norm: real)
    requires speed >= 0.0 && norm > 0.0
    ensures PointsToward(start.x, target.x, LaunchVelocity(start, target, speed, norm).x)
    ensures PointsToward(start.y, target.y, LaunchVelocity(start, target, speed, norm).y)
  {
    var ux, uy := (target.x - start.x) / norm, (target.y - start.y) / norm;
    assert start.x < target.x ==> ux > 0.0;
    assert target.x < start.x ==> ux < 0.0;
    assert start.y < target.y ==> uy > 0.0;
    assert target.y < start.y ==> uy < 0.0;
  }

  /** With norm the true distance, the launch velocity has magnitude exactly speed. */
  lemma LaunchVelocityMagnitude(start: Vec, target: Vec, speed: real, norm: real)
    requires IsDistance(norm, start, target)
    ensures var v := LaunchVelocity(start, target, speed, norm);
            v.x * v.x + v.y * v.y == speed * speed
  {
    var dx, dy := target.x - start.x, target.y - start.y;
    var ux, uy := dx / norm, dy / norm;
    UnitVector(ux, uy, norm, dx, dy);
    ScaledSquares(speed, ux, uy);
  }

  /** (ux, uy) scaled by norm is a vector (dx, dy) of length norm: it is a unit vector. */
  lemma UnitVector(ux: real, uy: real, norm: real, dx: real, dy: real)
    requires norm > 0.0 && ux * norm == dx && uy * norm == dy
    requires dx * dx + dy * dy == norm * norm
    ensures ux * ux + uy * uy == 1.0
  {
    var s := ux * ux + uy * uy;
    calc {
      s * (norm * norm);
      (ux * norm) * (ux * norm) + (uy * norm) * (uy * norm);
      dx * dx + dy * dy;
      norm * norm;
    }
    assert (s - 1.0) * (norm * norm) == 0.0;
    assert norm * norm > 0.0;
  }

  lemma ScaledSquares(speed: real, ux: real, uy: real)
    requires ux * ux + uy * uy == 1.0
    ensures (speed * ux) * (speed * ux) + (speed * uy) * (speed * uy) == speed * speed
  {
    assert (speed * ux) * (speed * ux) + (speed * uy) * (speed * uy)
        == (speed * speed) * (ux * ux + uy * uy);
  }

  /** The record of a missile launched at (x0, height) toward (x1, 0). */
  function NewMissile(x0: real, height: real, x1: real, speed: real, norm: real): Missile
    requires norm != 0.0
  {
    var start := Vec(x0, height);
    var target := Vec(x1, 0.0);
    Missile(start, start, target, LaunchVelocity(start, target, speed, norm))
  }

  /** A new missile starts on course and, since height > 0, not yet on the ground. */
  lemma NewMissileInFlight(x0: real, height: real, x1: real, speed: real, norm: real)
    requires height > 0.0 && speed >= 0.0 && norm > 0.0
    ensures OnCourse(NewMissile(x0, height, x1, speed, norm))
    ensures !Impacted(NewMissile(x0, height, x1, speed, norm))
  {
    LaunchVelocityPointsToward(Vec(x0, height), Vec(x1, 0.0), speed, norm);
  }

  /**
   * On one axis with offset dx, the launch velocity component speed * dx / norm
   * covers |dx| in n ticks exactly when dx is zero or n ticks at speed cover norm.
   */
  lemma CoversX(dx: real, speed: real, norm: real, n: nat)
    requires norm > 0.0 && speed >= 0.0
    ensures Covers(n, speed * (dx / norm), Abs(dx)) <==> dx == 0.0 || (n as real) * speed >= norm
  {
    var a, k := Abs(dx), n as real;
    var u := dx / norm;
    assert Abs(u) * norm == a;
    assert Abs(speed * u) == speed * Abs(u);
    var lhs := k * (speed * Abs(u));
    assert lhs * norm == (k * speed) * a;
    if a > 0.0 {
      assert lhs >= a <==> lhs * norm >= a * norm;
      assert (k * speed) * a >= norm * a <==> k * speed >= norm;
    }
  }

  /**
   * The time to impact: a missile launched from (x0, height) toward (x1, 0) at
   * the given speed, norm being the launch distance, is on the ground after n
   * ticks exactly when n ticks at that speed cover the distance, i.e. from
   * tick ceil(norm / speed) on.
   */
  lemma ImpactAfterLaunchIff(x0: real, height: real, x1: real, speed: real, norm: real, n: nat)
    requires height > 0.0 && speed >= 0.0 && norm > 0.0
    ensures Impacted(AdvanceTimes(NewMissile(x0, height, x1, speed, norm), n)) <==>
              (n as real) * speed >= norm
  {
    var m := NewMissile(x0, height, x1, speed, norm);
    NewMissileInFlight(x0, height, x1, speed, norm);
    var dx, dy := x1 - x0, 0.0 - height;
    assert m.velocity == Vec(speed * (dx / norm), speed * (dy / norm));
    assert m.target.x - m.current.x == dx && m.target.y - m.current.y == dy;
    ImpactAfterOffsets(m, speed, norm, dx, dy, n);
  }

  /** Time to impact of an on-course missile whose velocity is speed times its offset over norm. */
  lemma ImpactAfterOffsets(m: Missile, speed: real, norm: real, dx: real, dy: real, n: nat)
    requires OnCourse(m) && norm > 0.0 && speed >= 0.0
    requires m.velocity == Vec(speed * (dx / norm), speed * (dy / norm))
    requires m.target.x - m.current.x == dx && m.target.y - m.current.y == dy
    ensures Impacted(AdvanceTimes(m, n)) <==>
              (dx == 0.0 || (n as real) * speed >= norm) && (dy == 0.0 || (n as real) * speed >= norm)
  {
    ImpactAfterIff(m, n);
    CoversX(dx, speed, norm, n);
    CoversX(dy, speed, norm, n);
  }
}

/**
 * The enemy-missile batch: the ordered collection of missiles in flight, the
 * launch counter and the two curriculum queues, advanced one tick at a time.
 * The random draws of the game (launch decision, launch and target x) and the
 * square root of the launch distance are parameters supplied by the caller.
 */
module EnemyMissileBatch {
  import opened Kinematics
  import opened Curriculum

  class EnemyMissiles {
    // Configuration, fixed at construction.
    const width: real
    const height: real
    const number: nat
    const probaIn: real
    const speed: real

    /** The missiles in flight, in launch order. */
    var missiles: seq<Missile>
    /** How many missiles this episode has launched so far. */
    var launched: nat
    /** The active horizontal ranges for launch and target x, as fractions of the width. */
    var startPosRange: Range
    var endPosRange: Range
    /** The ranges still to come in the curriculum. */
    var startPosQueue: seq<Range>
    var endPosQueue: seq<Range>

    /** m was launched from the top toward the ground and has stayed on course. */
    ghost predicate Tracked(m: Missile)
    {
      m.start.y == height && m.target.y == 0.0 && OnCourse(m)
    }

    /** The invariant between the phases of a tick. */
    ghost predicate Consistent()
      reads this
    {
      && height > 0.0 && speed >= 0.0
      && |missiles| <= launched <= number
      && forall i :: 0 <= i < |missiles| ==> Tracked(missiles[i])
    }

    /** The object invariant: also, no missile left in the batch is on the ground. */
    ghost predicate Valid()
      reads this
    {
      Consistent() && forall i :: 0 <= i < |missiles| ==> !Impacted(missiles[i])
    }

    /** Whether this tick launches, given the launch draw (the value of random()). */
    predicate Launches(draw: real)
      reads this
    {
      launched < number && draw <= probaIn
    }

    /**
     * The launch point x0 lies in the active start range, the target x1 in the
     * active end range (both scaled by the width), and norm is their distance.
     */
    ghost predicate LaunchFits(x0: real, x1: real, norm: real)
      reads this
    {
      && Between(x0, startPosRange.left * width, startPosRange.right * width)
      && Between(x1, endPosRange.left * width, endPosRange.right * width)
      && IsDistance(norm, Vec(x0, height), Vec(x1, 0.0))
    }

    constructor (width: real, height: real, number: nat, probaIn: real, speed: real,
                 startConfig: Option<seq<Range>>, endConfig: Option<seq<Range>>)
      requires height > 0.0 && speed >= 0.0
      requires InitialQueue(startConfig) != [] && InitialQueue(endConfig) != []
      ensures Valid()
      ensures this.width == width && this.height == height && this.number == number
      ensures this.probaIn == probaIn && this.speed == speed
      ensures startPosRange == InitialQueue(startConfig)[0]
      ensures startPosQueue == InitialQueue(startConfig)[1..]
      ensures endPosRange == InitialQueue(endConfig)[0]
      ensures endPosQueue == InitialQueue(endConfig)[1..]
      ensures missiles == [] && launched == 0
    {
      this.width, this.height, this.number := width, height, number;
      this.probaIn, this.speed := probaIn, speed;
      var startQueue := InitialQueue(startConfig);
      var endQueue := InitialQueue(endConfig);
      startPosRange, startPosQueue := startQueue[0], startQueue[1..];
      endPosRange, endPosQueue := endQueue[0], endQueue[1..];
      missiles, launched := [], 0;
    }

    /** Move each queue on by one range, independently of the other. */
    method AdvanceCurriculum()
      requires Valid()
      modifies this`startPosRange, this`startPosQueue, this`endPosRange, this`endPosQueue
      ensures Valid()
      ensures (startPosRange, startPosQueue) == NextRange(old(startPosQueue))
      ensures (endPosRange, endPosQueue) == NextRange(old(endPosQueue))
    {
      if |startPosQueue| > 0 {
        startPosRange, startPosQueue := startPosQueue[0], startPosQueue[1..];
      } else {
        startPosRange := FullRange;
      }
      if |endPosQueue| > 0 {
        endPosRange, endPosQueue := endPosQueue[0], endPosQueue[1..];
      } else {
        endPosRange := FullRange;
      }
    }

    /** Override the active launch range; refused unless both bounds lie in [-0.5, 0.5]. */
    method SetStartPosRange(left: real, right: real) returns (ok: bool)
      requires Valid()
      modifies this`startPosRange
      ensures Valid()
      ensures ok <==> InHalfUnit(left) && InHalfUnit(right)
      ensures startPosRange == if ok then Range(left, right) else old(startPosRange)
    {
      ok := InHalfUnit(left) && InHalfUnit(right);
      if ok {
        startPosRange := Range(left, right);
      }
    }

    /** Override the active target range; refused unless both bounds lie in [-0.5, 0.5]. */
    method SetEndPosRange(left: real, right: real) returns (ok: bool)
      requires Valid()
      modifies this`endPosRange
      ensures Valid()
      ensures ok <==> InHalfUnit(left) && InHalfUnit(right)
      ensures endPosRange == if ok then Range(left, right) else old(endPosRange)
    {
      ok := InHalfUnit(left) && InHalfUnit(right);
      if ok {
        endPosRange := Range(left, right);
      }
    }

    /** Start a new episode: no missile in flight and none launched; the curriculum is kept. */
    method Reset()
      requires Valid()
      modifies this`missiles, this`launched
      ensures Valid()
      ensures missiles == [] && launched == 0
    {
      missiles, launched := [], 0;
    }

    /** Movement phase: advance every missile by its clamped velocity, in place. */
    method MoveMissiles()
      requires Valid()
      modifies this`missiles
      ensures Consistent()
      ensures missiles == AdvanceAll(old(missiles))
    {
      var i := 0;
      while i < |missiles|
        invariant 0 <= i <= |missiles| == |old(missiles)|
        invariant forall j :: 0 <= j < i ==> missiles[j] == Advance(old(missiles)[j])
        invariant forall j :: i <= j < |missiles| ==> missiles[j] == old(missiles)[j]
      {
        missiles := missiles[i := Advance(missiles[i])];
        i := i + 1;
      }
      forall j | 0 <= j < |missiles|
        ensures Tracked(missiles[j])
      {
        AdvanceKeepsOnCourse(old(missiles)[j]);
      }
    }

    /**
     * Append a missile launched at (x0, height) toward (x1, 0), where norm is
     * the distance between the two points, and count it.
     */
    method LaunchMissile(x0: real, x1: real, norm: real)
      requires Consistent() && launched < number
      requires LaunchFits(x0, x1, norm)
      modifies this`missiles, this`launched
      ensures Consistent()
      ensures missiles == old(missiles) + [NewMissile(x0, height, x1, speed, norm)]
      ensures launched == old(launched) + 1
    {
      var m := NewMissile(x0, height, x1, speed, norm);
      NewMissileInFlight(x0, height, x1, speed, norm);
      missiles := missiles + [m];
      launched := launched + 1;
    }

    /** Removal phase: drop every missile whose current position equals its target. */
    method RemoveImpacted()
      requires Consistent()
      modifies this`missiles
      ensures Valid()
      ensures missiles == Survivors(old(missiles))
    {
      var ms := missiles;
      var kept: seq<Missile> := [];
      var i := 0;
      while i < |ms|
        invariant 0 <= i <= |ms|
        invariant kept == Survivors(ms[..i])
      {
        assert ms[..i + 1] == ms[..i] + [ms[i]];
        SurvivorsConcat(ms[..i], [ms[i]]);
        SurvivorsSingle(ms[i]);
        if !Impacted(ms[i]) {
          kept := kept + [ms[i]];
        }
        i := i + 1;
      }
      assert ms[..i] == ms;
      missiles := kept;
      forall j | 0 <= j < |missiles|
        ensures Tracked(missiles[j]) && !Impacted(missiles[j])
      {
        SurvivorsMembership(ms, missiles[j]);
      }
    }

    /**
     * One tick: move, maybe launch (draw is the value of random() compared
     * with the launch probability; x0, x1 and norm describe the missile it
     * would launch), remove impacted missiles, and report whether the episode
     * is over. The action plays no part.
     */
    method Step(action: int, draw: real, x0: real, x1: real, norm: real) returns (done: bool)
      requires Valid()
      requires 0.0 <= draw < 1.0
      requires Launches(draw) ==> LaunchFits(x0, x1, norm)
      modifies this`missiles, this`launched
      ensures Valid()
      ensures launched == if old(Launches(draw)) then old(launched) + 1 else old(launched)
      ensures old(Launches(draw)) ==>
                missiles == Survivors(AdvanceAll(old(missiles))) + [NewMissile(x0, height, x1, speed, norm)]
      ensures !old(Launches(draw)) ==> missiles == Survivors(AdvanceAll(old(missiles)))
      ensures done <==> missiles == [] && launched == number
      ensures old(missiles) == [] && old(launched) == number ==> done
    {
      ghost var launching := Launches(draw);
      MoveMissiles();
      ghost var moved := missiles;
      if launched < number {
        if draw <= probaIn {
          LaunchMissile(x0, x1, norm);
          NewMissileInFlight(x0, height, x1, speed, norm);
          SurvivorsConcat(moved, [NewMissile(x0, height, x1, speed, norm)]);
          SurvivorsSingle(NewMissile(x0, height, x1, speed, norm));
        }
      }
      RemoveImpacted();
      done := |missiles| == 0 && launched == number;
    }
  }

  /** x = 0 lies in the full range at any non-negative width. */
  lemma CentreInFullRange(width: real)
    requires width >= 0.0
    ensures Between(0.0, FullRange.left * width, FullRange.right * width)
  {
  }

  /** The missile of the vertical-drop episode: from (0, 10) to (0, 0) at speed 2. */
  function DropMissile(y: real): Missile
  {
    Missile(Vec(0.0, 10.0), Vec(0.0, y), Vec(0.0, 0.0), Vec(0.0, -2.0))
  }

  /** The batch contents after the launch tick of the vertical drop: the drop missile alone. */
  lemma DropLaunched(ms: seq<Missile>, height: real, speed: real)
    requires height == 10.0 && speed == 2.0
    requires ms == Survivors(AdvanceAll([])) + [NewMissile(0.0, height, 0.0, speed, 10.0)]
    ensures ms == [DropMissile(10.0)]
  {
    DropLaunch(height, speed);
    assert AdvanceAll([]) == [];
  }

  /** Launching at x = 0 toward x = 0 from height 10 at speed 2 gives the drop missile. */
  lemma DropLaunch(height: real, speed: real)
    requires height == 10.0 && speed == 2.0
    ensures NewMissile(0.0, height, 0.0, speed, 10.0) == DropMissile(10.0)
  {
    assert (0.0 - 0.0) / 10.0 == 0.0 && (0.0 - height) / 10.0 == -1.0;
    assert speed * 0.0 == 0.0 && speed * -1.0 == -2.0;
    assert LaunchVelocity(Vec(0.0, height), Vec(0.0, 0.0), speed, 10.0) == Vec(0.0, -2.0);
  }

  /** The two axes of a vertical drop: x does not move, y falls by two. */
  lemma DropAxes(x: real, y: real)
    requires 2.0 <= y <= 10.0
    ensures AxisStep(x, x, 0.0) == x
    ensures AxisStep(y, 0.0, -2.0) == y - 2.0
  {
    AxisStepMovesClamped(x, x, 0.0);
    AxisStepFullSpeed(y, 0.0, -2.0);
  }

  /** One movement phase of the vertical drop: two units down. */
  lemma DropAdvance(y: real)
    requires 2.0 <= y <= 10.0
    ensures Advance(DropMissile(y)) == DropMissile(y - 2.0)
  {
    DropAxes(0.0, y);
  }

  /** In a batch of width and height 10 over the full ranges, x = 0 launches straight down. */
  lemma DropLaunchFits(batch: EnemyMissiles)
    requires batch.width == 10.0 && batch.height == 10.0
    requires batch.startPosRange == FullRange && batch.endPosRange == FullRange
    ensures batch.LaunchFits(0.0, 0.0, 10.0)
  {
    CentreInFullRange(batch.width);
    assert IsDistance(10.0, Vec(0.0, 10.0), Vec(0.0, 0.0));
  }

  /** One movement and removal phase of the vertical drop: removed on landing. */
  lemma DropFall(y: real)
    requires 2.0 <= y <= 10.0
    ensures Survivors(AdvanceAll([DropMissile(y)])) ==
              if y == 2.0 then [] else [DropMissile(y - 2.0)]
  {
    var moved := AdvanceAll([DropMissile(y)]);
    assert |moved| == 1 && moved[0] == Advance(DropMissile(y));
    DropAdvance(y);
    assert moved == [DropMissile(y - 2.0)];
    SurvivorsSingle(DropMissile(y - 2.0));
  }

  /**
   * The first tick of the vertical drop: a fresh batch of one missile, height
   * 10, width 10 and speed 2, whose certain launch (draw 0, probability 1)
   * goes from x = 0 straight down; the missile is in the air at height 10.
   */
  method DropFirstTick() returns (batch: EnemyMissiles, done: bool)
    ensures fresh(batch)
    ensures batch.Valid() && batch.launched == batch.number == 1
    ensures batch.missiles == [DropMissile(10.0)]
    ensures !done
  {
    batch := new EnemyMissiles(10.0, 10.0, 1, 1.0, 2.0, None, None);
    DropLaunchFits(batch);
    assert batch.Launches(0.0);
    done := batch.Step(0, 0.0, 0.0, 0.0, 10.0);
    DropLaunched(batch.missiles, batch.height, batch.speed);
  }

  /** A later tick of the vertical drop: nothing is launched and the missile falls by two. */
  method DropLaterTick(batch: EnemyMissiles, y: real) returns (done: bool)
    requires batch.Valid() && batch.launched == batch.number == 1
    requires batch.missiles == [DropMissile(y)] && 2.0 <= y <= 10.0
    modifies batch`missiles, batch`launched
    ensures batch.Valid() && batch.launched == 1
    ensures batch.missiles == if y == 2.0 then [] else [DropMissile(y - 2.0)]
    ensures done <==> y == 2.0
  {
    DropFall(y);
    done := batch.Step(0, 0.0, 0.0, 0.0, 10.0);
  }

  /**
   * The whole vertical drop: the episode reports done on the sixth tick, the
   * one in which the missile reaches the ground and is removed.
   */
  method VerticalDrop() returns (dones: seq<bool>)
    ensures dones == [false, false, false, false, false, true]
  {
    var batch, done := DropFirstTick();
    dones := [done];
    var k := 1;
    while k < 5
      invariant 1 <= k <= 5 && |dones| == k
      invariant batch.Valid() && batch.launched == batch.number == 1
      invariant batch.missiles == [DropMissile(12.0 - 2.0 * k as real)]
      invariant forall i :: 0 <= i < k ==> !dones[i]
    {
      done := DropLaterTick(batch, 12.0 - 2.0 * k as real);
      dones := dones + [done];
      k := k + 1;
    }
    done := DropLaterTick(batch, 2.0);
    dones := dones + [done];
  }
}

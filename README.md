# Enemy missiles of Missile Command, in Dafny

This project models the enemy-missile batch of the `gym_missile_command`
game (`gym_missile_command/game/enemy_missiles.py`). The batch holds the
enemy missiles now in flight, in launch order. Each missile has a launch
point, a current position, a ground target and a constant per-tick velocity.
The batch also counts the missiles launched this episode and keeps two
curriculum queues of horizontal ranges, one for launch x and one for target x.

Each tick (`step`) runs three phases in a fixed order:

1. every missile moves by its velocity, clamped per axis so that it never
   passes its target;
2. while fewer than the configured number of missiles have been launched, a
   missile is launched when the random draw is at most the launch
   probability;
3. every missile whose position equals its target is removed.

The tick then reports `done`. That is true exactly when the batch is empty and
the launch counter equals the configured number.

Three modules:

- `Kinematics` (`kinematics.dfy`) is pure. It holds the missile record, the
  clamped one-axis move, the move of a whole batch, the removal filter
  `Survivors`, and the velocity of a new missile. It also holds the lemmas
  about them: no overshoot, the distance to target never grows, the exact
  tick of impact (a launched missile is on the ground exactly from tick
  ceil(launch distance / speed) after its launch on), and the removal filter
  keeps exactly the airborne missiles in order.
- `Curriculum` (`curriculum.dfy`) is pure. It holds the range queue with its
  fallback to the full width `(-0.5, 0.5)`.
- `EnemyMissileBatch` (`enemy_missiles.dfy`) is imperative. The class
  `EnemyMissiles` has the game's state as fields, and its methods change them
  in place. Each method is proved against the functions of the other two
  modules.
  - `Valid()` is the object invariant. Every missile was launched from the
    top toward the ground, lies between its start and its target and heads
    toward the target, none is on the ground, and
    `|missiles| <= launched <= number`.
  - The module ends with the vertical-drop episode worked through tick by
    tick: one missile, certain launch, height 10, speed 2.

The batch's configuration is fixed when it is constructed: width, height,
number of missiles, launch probability and speed. Positions are exact
reals. The random draws and the square root are supplied by the caller:
the launch draw, the launch x, the target x, and the launch distance
`norm`. The distance is tied to the two points by
`norm * norm == dx * dx + dy * dy`.

On the vertical drop, the code launches the missile in tick 1, after that
tick's movement phase, at y = 10. It then falls 8, 6, 4, 2, 0 in ticks 2 to 6.
Removal follows movement within a tick, so the missile is removed in the same
tick it lands, and `done` is first true in tick 6. `VerticalDrop` proves
exactly this sequence of `done` values.

## Model

| member | source | states |
|---|---|---|
| Kinematics.TimesSignIsProduct | gym_missile_command/game/enemy_missiles.py:163-165 | the case-split form used for the move equals the clamped magnitude times numpy's sign of the velocity |
| Kinematics.AxisStepMovesClamped | gym_missile_command/game/enemy_missiles.py:155-169 | one axis moves by exactly min(\|v\|, distance left), so by no more than either, in the direction of v; a zero velocity does not move |
| Kinematics.AxisStepApproaches | gym_missile_command/game/enemy_missiles.py:155-169 | with v pointing toward the target, the distance left shrinks by exactly the clamped move and never grows; the new position lies between the old one and the target; if \|v\| covers the distance, the axis lands exactly on the target |
| Kinematics.AxisStepFullSpeed | gym_missile_command/game/enemy_missiles.py:159-169 | while the distance left is at least \|v\|, the axis moves by the full velocity, in either direction |
| Kinematics.AxisStepStaysBetween | gym_missile_command/game/enemy_missiles.py:155-169 | no overshoot: a position between the start and the target stays between them after a move |
| Kinematics.Advance | gym_missile_command/game/enemy_missiles.py:155-169 | moving a missile changes only its current position; start, target and velocity are untouched |
| Kinematics.AdvanceKeepsOnCourse | gym_missile_command/game/enemy_missiles.py:155-169 | a missile between its start and target, heading toward the target, still is after a move, and its distance to the target does not grow on either axis |
| Kinematics.AxisArrivesIff | gym_missile_command/game/enemy_missiles.py:155-169 | an axis reaches its target after n ticks if and only if n * \|v\| >= the distance |
| Kinematics.AdvanceTimesAxes | gym_missile_command/game/enemy_missiles.py:155-169 | n ticks of movement move the two axes independently and keep start, target and velocity |
| Kinematics.ImpactAfterIff | gym_missile_command/game/enemy_missiles.py:155-184 | a missile on course is at its target after n ticks if and only if n ticks at its speed cover the distance on both axes, each axis at its own velocity component |
| Kinematics.CoversX | gym_missile_command/game/enemy_missiles.py:79-88 | on one axis, the launch velocity component covers that axis's offset in n ticks if and only if the offset is zero or n ticks at the configured speed cover the launch distance |
| Kinematics.ImpactAfterOffsets | gym_missile_command/game/enemy_missiles.py:79-184 | an on-course missile whose velocity is speed times its offset over norm is on the ground after n ticks if and only if, on each axis, the offset is zero or n * speed >= norm |
| Kinematics.ImpactAfterLaunchIff | gym_missile_command/game/enemy_missiles.py:79-184 | a missile launched at the configured speed is on the ground after n ticks if and only if n * speed >= the launch distance, so it lands in exactly ceil(distance / speed) ticks |
| Kinematics.Survivors | gym_missile_command/game/enemy_missiles.py:181-187 | the removal filter never lengthens the batch |
| Kinematics.SurvivorsConcat | gym_missile_command/game/enemy_missiles.py:181-187 | removal distributes over concatenation, so the kept missiles stay in their relative order |
| Kinematics.SurvivorsSingle | gym_missile_command/game/enemy_missiles.py:181-187 | a single missile is removed exactly when its current position equals its target |
| Kinematics.SurvivorsMembership | gym_missile_command/game/enemy_missiles.py:181-187 | a missile record is kept if and only if it was in the batch and has not reached its target; kept records are unchanged |
| Kinematics.SurvivorsUnchangedIff | gym_missile_command/game/enemy_missiles.py:181-187 | removal leaves the batch as it is if and only if no missile in it is at its target |
| Kinematics.UnitVector | gym_missile_command/game/enemy_missiles.py:79-84 | dividing the offset by its length gives a unit vector |
| Kinematics.LaunchVelocityPointsToward | gym_missile_command/game/enemy_missiles.py:79-88 | with a non-negative speed, each component of the launch velocity points from the launch point toward the target |
| Kinematics.LaunchVelocityMagnitude | gym_missile_command/game/enemy_missiles.py:79-88 | when norm is the true distance, the launch velocity has magnitude exactly the configured speed |
| Kinematics.NewMissileInFlight | gym_missile_command/game/enemy_missiles.py:66-97 | a new missile starts at its launch point on course toward its target and, with a positive height, is not on the ground |
| Curriculum.NextRange | gym_missile_command/game/enemy_missiles.py:36-44 | a non-empty queue gives up its front as the active range; an empty queue yields the full range (-0.5, 0.5) and stays empty |
| Curriculum.AdvanceTimesYields | gym_missile_command/game/enemy_missiles.py:36-44 | after n >= 1 advances, the active range is the n-th entry of the remaining queue while there is one, and the full range afterwards |
| EnemyMissileBatch.EnemyMissiles.constructor | gym_missile_command/game/enemy_missiles.py:27-34 | the active ranges are the first entries of the configured queues, or the full range when none is configured; the queues keep the rest |
| EnemyMissileBatch.EnemyMissiles.AdvanceCurriculum | gym_missile_command/game/enemy_missiles.py:36-44 | each of the two queues advances by one, independently, with the full-range fallback; the invariant is kept |
| EnemyMissileBatch.EnemyMissiles.SetStartPosRange | gym_missile_command/game/enemy_missiles.py:46-49 | the active launch range is replaced if and only if both bounds lie in [-0.5, 0.5]; otherwise the call is refused and nothing changes |
| EnemyMissileBatch.EnemyMissiles.SetEndPosRange | gym_missile_command/game/enemy_missiles.py:51-54 | the same for the active target range |
| EnemyMissileBatch.EnemyMissiles.Reset | gym_missile_command/game/enemy_missiles.py:106-120 | the batch is emptied and the launch counter is zeroed; the curriculum ranges and queues are untouched |
| EnemyMissileBatch.EnemyMissiles.MoveMissiles | gym_missile_command/game/enemy_missiles.py:152-169 | the movement phase replaces each missile by its advanced copy, element by element, and keeps every missile on course |
| EnemyMissileBatch.EnemyMissiles.LaunchMissile | gym_missile_command/game/enemy_missiles.py:56-104 | a launch appends exactly the new missile, from (x0, height) toward (x1, 0) at the launch velocity, and increments the counter |
| EnemyMissileBatch.EnemyMissiles.RemoveImpacted | gym_missile_command/game/enemy_missiles.py:178-187 | the removal phase leaves exactly the survivors of the batch, in order, and none of them is on the ground |
| EnemyMissileBatch.EnemyMissiles.Step | gym_missile_command/game/enemy_missiles.py:122-191 | a tick moves, launches only when below the configured number and the draw is at most the probability, and removes; the counter grows by one exactly on a launch; done is true if and only if the batch is empty and all missiles are launched; once done, the next tick is done again; the action plays no part |
| EnemyMissileBatch.DropFirstTick | gym_missile_command/game/enemy_missiles.py:122-191 | in the vertical drop, the first tick launches the missile at height 10 and does not report done |
| EnemyMissileBatch.DropLaterTick | gym_missile_command/game/enemy_missiles.py:122-191 | in the vertical drop, each later tick lowers the missile by 2, launches nothing, and reports done exactly on the tick it lands |
| EnemyMissileBatch.VerticalDrop | gym_missile_command/game/enemy_missiles.py:122-191 | the vertical drop reports done for the first time in tick 6, the tick in which the missile lands and is removed |

## Left out

- `render` (lines 193-231) draws with OpenCV; drawing is not part of this model.
- The random number generator is left out. `reset` creates it from its seed and `step` and `_launch_missile` consume it (lines 67-73, 120, 175). The draws are parameters of `Step` and `LaunchMissile` instead: the launch draw in [0, 1), and x0 and x1 required to lie in the active ranges scaled by the width. The same draws give the same results, which is the model's form of reproducibility under a fixed seed.
- `Reset` has no seed parameter, because the generator is not modelled.
- Float32 storage and `np.sqrt` are left out. Positions and velocities are exact reals, and `norm` is any positive number whose square is the squared distance. Float32 rounding could make `cur + (tgt - cur)` differ from `tgt`, so the arrival test could behave differently; the model does not capture this.
- The configuration object is not modelled. Its values are constructor parameters, and the batch's copy of them never changes. A configuration changed at run time, for example a lower number of missiles, cannot be expressed. `done` keeps the code's exact equality between the counter and the configured number (line 190).
- The configured queues are popped in place, so the shared configuration lists shrink as the curriculum advances. Here each batch gets its own copy, and that sharing is not modelled.
- EnemyMissileBatch.EnemyMissiles.constructor: in the code, `__init__` only sets up the curriculum, and `reset` creates the missile array and the counter. The constructor here also starts them empty, as `reset` would.
- EnemyMissileBatch.EnemyMissiles.constructor: requires each configured queue to be non-empty, because `pop(0)` on an empty list raises. It also requires height > 0 and speed >= 0; the invariant's on-course facts depend on both.
- EnemyMissileBatch.EnemyMissiles.SetStartPosRange: a failed `assert` in the code becomes a refused call (`ok == false`) that leaves the state as it was.
- EnemyMissileBatch.EnemyMissiles.SetEndPosRange: the same.
- EnemyMissileBatch.EnemyMissiles.Step: returns only `done`. The observation, reward and info results are always `None` in the code.
- The DQN training script (`rl/rllib/scripts/dqn.py`) is not part of this model.

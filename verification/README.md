# Asteroid roulette in Dafny

A model of the game engine of *asteroid roulette*, a one-player dice game.
The player starts on square 0 and wins by reaching square 6, normally by
rolling each next number in turn. Rolling the same value twice in a row
fires a hazard. With the shield up, the hazard depends on the value:

- 1 loses the shield;
- 2 does nothing;
- 3 sends the player back to 0;
- 4 makes the next roll a jump to the rolled value;
- 5 sticks the player, and a later 5 frees them;
- 6 is death by the dwarf planet Ceres.

Without the shield, any repeated roll is fatal.

The engine is one deterministic state machine, and the model keeps its
shape:

- `Game` (game.dfy) holds the `State` record and the enums
  `CauseOfDeath`, `PositionDelta` and `StateDelta`. It also holds `New`,
  `Update` and `Victory`. `Update` is a pure function from a state and a die
  value to a `Transition`, which is the next state plus the two deltas the
  engine reports. Its body runs the engine's steps in the engine's order:
  movement, clearing the jump, unsticking on a 5, the repeat check, and the
  history update.
- `Rules` (rules.dfy) states the rule table one roll at a time.
- `Runs` (runs.dfy) folds `Update` over a sequence of rolls (`Run`). It
  lifts the invariants to whole games and gives an imperative replay that
  logs every transition.
- `Scenarios` (scenarios.dfy) restates each game from the test suite as a
  lemma about `Run`.

The die is a parameter: every roll is a value the caller supplies, and
`IsDie` (1 to 6) is required of it.

A repeated 2 is not always harmless. The shield check runs before the hazard
table, so `[1, 1, 2, 2]` kills the player with cause `Shields`. The model
follows the code here (`DeathByNoShields`), not a reading of the rules in
which die 2 never checks the shield.

## Model

| member | source | states |
|---|---|---|
| Rules.NewGame | src/lib.rs:39-49 | A new game is valid and undecided. It is on square 0 with no history and the shield up, and it is not jumping, stuck or dead. |
| Game.Update | src/lib.rs:51-118 | One roll leaves the position at its old value, the die value or 0. The history becomes the die value or 0. Death is never undone, and a lost shield never comes back. The player is dead afterwards exactly when they were dead before or the roll reported `Death`. A `Death` report always records a cause, and any other report leaves the cause unchanged. A jump is armed only when `Jumping` is reported. |
| Rules.UpdatePreservesValid | src/lib.rs:51-118 | A roll keeps position and history within 0..6, and keeps the cause of death set exactly when the player is dead. |
| Rules.Movement | src/lib.rs:55-67 | A pending jump lands on the die value, even when stuck. Otherwise, rolling the next square moves there with `Forward`, or reports `Stuck` without moving when stuck. Any other roll reports `Nothing` and does not move. A shielded double three overrides all of these with `ToZero` and position 0. |
| Rules.JumpIsOneShot | src/lib.rs:69 | After a roll the jump flag is set exactly when that roll was a shielded double four. So a pending jump is consumed by one roll. |
| Rules.Unstick | src/lib.rs:70-73 | After a roll the player is stuck exactly when it was a shielded double five, or when they were stuck and did not roll a 5. `Unstuck` is reported exactly when a stuck player rolls a 5 that is not a repeat. A shielded double five reports `Stuck` instead. |
| Rules.UnshieldedRepeatIsFatal | src/lib.rs:75-84 | An unshielded repeat reports `Death` and sets `dead`. The cause is `Both` for a 6 and `Shields` otherwise. It returns before the history update, so the history keeps the repeated value. The step-1 position, the cleared jump flag and any unstick still apply. |
| Rules.ShieldedHazard | src/lib.rs:86-112 | A shielded repeat resets the history to 0. The shield is lost exactly on a 1. Death, with cause `Ceres`, happens exactly on a 6. The status is `Shield`, `Jumping`, `Stuck` or `Death` for 1, 4, 5 or 6, and `Nothing` for 2 or 3. `ToZero` is reported exactly on a 3. |
| Rules.NonRepeatRecordsHistory | src/lib.rs:113-115 | A roll that is not a repeat becomes the history. It leaves shield, death and cause untouched, clears the jump flag, and reports only `Nothing` or `Unstuck`. |
| Rules.HazardConsumesHistory | src/lib.rs:86 | Right after a shielded repeat, no die value is a repeat. |
| Rules.ThreeEqualRolls | src/lib.rs:75-115 | Of the second and third of three equal rolls, at most one fires a hazard that the shield survives. |
| Game.Victory | src/lib.rs:120-126 | The result is `Some(false)` exactly when dead. It is `Some(true)` exactly when alive on square 6, and `None` exactly when alive elsewhere. |
| Runs.Run | tests/tests.rs:11 | Rolling a sequence of dice never revives the dead, never restores a lost shield, and keeps a valid state valid. |
| Runs.RunSnoc | tests/tests.rs:11 | Rolling one more die extends a run by exactly one `Update`. |
| Runs.RunAppend | tests/tests.rs:11 | Running two blocks of rolls in turn equals running their concatenation. |
| Runs.EveryPrefixIsValid | src/lib.rs:55-115 | In every game started with `New`, each intermediate state is valid, with the position within 0..6. |
| Runs.LossIsFinal | src/lib.rs:120-126 | Once `Victory` reports a loss, it reports a loss after any further rolls. |
| Runs.Replay | tests/tests.rs:16-17 | Updating one state in place roll by roll ends in the state `Run` describes. The log holds, for each roll, the transition from the state reached before it. |
| Scenarios.BaseGame | tests/tests.rs:9-13 | Rolling 1, 2, 3, 4, 5, 6 reaches square 6 and wins. |
| Scenarios.JumpToSix | tests/tests.rs:15-19 | Rolling 4, 4, 6 jumps to square 6. |
| Scenarios.DeathByCeres | tests/tests.rs:21-26 | Rolling 6, 6 is death by `Ceres`. |
| Scenarios.DeathByNoShields | tests/tests.rs:28-33 | Rolling 1, 1, 2, 2 is death by `Shields`. |
| Scenarios.NoShieldsButAlive | tests/tests.rs:35-39 | Rolling 2, 2, 1, 1 leaves the player alive without a shield. |
| Scenarios.StuckAtFive | tests/tests.rs:41-45 | Rolling 1, 2, 3, 4, 5, 5, 6 leaves the player stuck on square 5. |
| Scenarios.StuckAndUnstuck | tests/tests.rs:47-53 | Rolling 1, 2, 3, 4, 5, 5, 6, 5, 6 reaches square 6, no longer stuck. |
| Scenarios.HistoryIsClearedAfterHittingAsteroid | tests/tests.rs:55-59 | Rolling 1, 1, 1 leaves the player alive without a shield, with history 1. |
| Scenarios.JumpingWorksWhenStuck | tests/tests.rs:61-65 | Rolling 5, 5, 4, 4, 6 jumps a stuck player to square 6. |
| Scenarios.DeathByBothCeresAndNoShieldsAtOnce | tests/tests.rs:67-72 | Rolling 1, 1, 6, 6 is death by `Both`. |
| Scenarios.NoDoubleJumping | tests/tests.rs:73-78 | Rolling 4, 4, 3, 2 ends on square 3 with no jump pending. |

## Left out

- The command-line driver (src/main.rs) is left out. It is a random-number loop that prints a message for the outcome, so it is I/O and presentation.
- The `victory_probabilities` test is left out. It samples random games and prints `f32` ratios.
- Die values outside 1..6 are left out. `Update` requires `IsDie(dice)`. The engine validates nothing up front: its only panic sits inside the repeat branch, after the state has already changed. So it offers no "reject and leave the state untouched" path to model.
- Game.Update: `position` and `history` are `nat`, not `u8`. The check `position + 1 == dice` would overflow only on square 255, and no game reaches that square, because `Valid` keeps it within 0..6.
- The model adds no guard against calls after death, because the engine has none. Such a call runs the whole rule table again. The model proves only that `dead` stays true and a cause stays recorded.

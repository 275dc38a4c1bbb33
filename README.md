# Snake game engine — a Dafny model

This project models the game logic of a browser Snake game. The game runs on a fixed
20 × 20 board that wraps at the edges (a torus). The snake moves one cell per tick. Running
into its own body or an obstacle ends the run unless the shield is up. Eating food grows the
snake by one and scores 10 points times the current multiplier. Eating may also spawn a
power-up or an obstacle at a random cell. There are three kinds of power-up:

- **speed**: multiplies the tick interval by 0.7;
- **multiply**: doubles the points;
- **shield**: grants collision immunity.

Each effect is undone by its own later expiry. The shell around the game switches between the
menu, the running or paused game and the game-over screen, and keeps the best score.

Files:

- `snake_rules.dfy`, module `SnakeRules`, holds the pure rules:
  - positions, directions and power-ups;
  - the wrapped step of the head, with JavaScript's truncating `%`;
  - the collision tests and the arrow-key rule `Steer`;
  - `Step`, the whole effect of one tick as a function of the previous state, the score and
    the tick's random choices (`Dice`);
  - the lemmas about `Step`.
- `snake_engine.dfy`, module `SnakeEngine`, holds the game component as the class `Engine`.
  Its fields are the component's state fields. `Tick`, `SetDirection`, `HandleKey`, `Frame`
  and the three expiries update them in place. Each method is proved to perform the
  transition `Step` defines, or to change exactly the one field it names. The walk over the
  power-ups inside a tick is the loop method `CollectPowerUps`.
- `snake_app.dfy`, module `SnakeApp`, holds the class `App`. It has the screen state machine
  `Menu | Playing | Paused | GameOverScreen`, the score of the run and the best score. It
  mounts a fresh `Engine` on every start. It forwards key presses and animation frames to the
  engine and applies the engine's score update or game-over signal.
- `powerup_findings.dfy`, module `PowerUpFindings`, models how the component actually leaves
  the power-up list after a tick (see Findings).

Semantics chosen for the power-ups. A tick walks the power-ups present before the tick, in
order. It removes every one on the new head and applies its effect. Each speed power-up
multiplies the interval by 0.7. The power-up spawned by the same tick (when the food is
eaten) is appended afterwards. The score of an eating tick uses the multiplier in force
before the tick's pickups. This is the behaviour the component evidently intends. The
component as written differs in three ways. The first two are recorded under Findings:

- A tick that both spawns and picks up loses the spawned power-up.
- Of several power-ups on one cell, only the last is removed from the list. `Step` removes
  all of them. Only `PowerUpFindings.PowerUpsAsWritten` keeps the code's behaviour.
- With several speed power-ups on the head, the component cuts the interval by 0.7 only
  once per tick, because every pickup reads the speed from before the tick. The model cuts
  it once per pickup (see "Left out").

The key rule compares each press with the direction set by the previous press, not with the
direction of the last step. So two presses between ticks can turn the snake around
(`SnakeRules.TwoPressesCanReverse`). The model keeps this behaviour.

In these places the model follows the code as written:

- Food, power-ups and obstacles are placed without checking whether the cell is occupied. A
  new food cell may equal the old one.
- Pausing does not reset the frame clock. After a resume, the first frame fires a tick as
  soon as `speed` ms have passed since the last tick before the pause.

## Model

| member | source | states |
|---|---|---|
| `SnakeRules.CheckCollision` | src/components/Game.tsx:51-53 | two cells collide exactly when they are the same position |
| `SnakeRules.Occupies` | src/components/Game.tsx:75-81 | the `some(checkCollision)` scan over the body or the obstacles is true exactly when the cell is in the list |
| `SnakeRules.NextHead` | src/components/Game.tsx:59-72 | from a cell of the board the new head is on the board, moved by ±1 modulo 20 on the axis of the direction only, and differs from the old head |
| `SnakeRules.WrapsAtEdges` | src/components/Game.tsx:61-70 | RIGHT from x=19 gives x=0, LEFT from x=0 gives x=19, DOWN from y=19 gives y=0, UP from y=0 gives y=19; otherwise ±1 |
| `SnakeRules.Steer` | src/components/Game.tsx:140-151 | an arrow for the exact opposite of the current direction leaves it unchanged; any other arrow sets that direction |
| `SnakeRules.SteerNeverReverses` | src/components/Game.tsx:140-151 | one key press never yields the opposite of the current direction |
| `SnakeRules.TwoPressesCanReverse` | src/components/Game.tsx:137-160 | two accepted presses between ticks (a side turn, then the reverse) turn the snake around |
| `SnakeRules.KeptMembers` | src/components/Game.tsx:111-115 | after a pickup, the remaining power-ups are exactly the old ones not on the head: each power-up not on the head keeps its number of occurrences and none on the head remains; there are no more of them than before |
| `SnakeRules.KeptIsFilter` | src/components/Game.tsx:111-115 | removal keeps the order of the survivors: the list is filtered piece by piece (the result for a concatenation is the concatenation of the results), and a single power-up stays exactly when it is not on the head |
| `SnakeRules.KeptAllWhenNoneAtHead` | src/components/Game.tsx:111-112 | with no power-up on the head the list is unchanged |
| `SnakeRules.PickupEffects` | src/components/Game.tsx:117-130 | the interval is multiplied by 0.7 once per speed power-up on the head (counted as a multiset); a multiply power-up sets the multiplier to 2; a shield power-up raises the shield; kinds absent from the head leave their effect unchanged |
| `SnakeRules.AfterPickupsInOrder` | src/components/Game.tsx:111-130 | pickups take effect one after the other in list order: the effects after two lists in a row are those after the second, starting from the effects after the first |
| `SnakeRules.BoostedBounds` | src/components/Game.tsx:118-119 | boosting a positive interval keeps it positive and never lengthens it; one or more boosts make it strictly shorter |
| `SnakeRules.SpeedStaysInRange` | src/components/Game.tsx:118-120 | picking up never slows the game and never makes the interval zero or negative |
| `SnakeRules.PowerUpsAfter` | src/components/Game.tsx:94-116 | the new list holds exactly the old power-ups not on the head plus the spawned one, which ends the list |
| `SnakeRules.PowerUpsAfterCounts` | src/components/Game.tsx:94-116 | each power-up occurs in the new list as often as it did before if it is not on the head, not at all if it is, plus the spawned occurrences |
| `SnakeRules.Step` | src/components/Game.tsx:55-135 | a fatal tick leaves every field as it was and reports the current score; a surviving tick keeps a non-empty snake whose head is one step from the old head in the current direction, and keeps the direction |
| `SnakeRules.GameOverExactlyOnCollision` | src/components/Game.tsx:74-84 | a tick reports game over iff the shield is down and the new head is a current segment (tail included) or an obstacle |
| `SnakeRules.ShieldPreventsGameOver` | src/components/Game.tsx:75-81 | while the shield is up no body or obstacle collision reports game over |
| `SnakeRules.GrowthAndScoring` | src/components/Game.tsx:86-108 | on a surviving tick the snake is the new head followed by the old cells; it is one longer and scores exactly 10 × multiplier when the head is on the food, otherwise it keeps its length and the score; food moves only when eaten; direction is unchanged |
| `SnakeRules.ScoreNeverDecreases` | src/components/Game.tsx:89-90 | the score after a tick is never lower, is strictly higher on an eating tick, and game over carries the current score |
| `SnakeRules.ObstaclesAppendOnly` | src/components/Game.tsx:102-105 | the old obstacles are a prefix of the new ones; at most one is added, only on an eating tick with the obstacle spawn rolled, at the rolled cell; and a surviving eating tick with the spawn rolled does add the rolled cell |
| `SnakeRules.PowerUpPickup` | src/components/Game.tsx:93-132 | on a surviving tick every power-up on the new head is removed and takes effect, the rest stay with their number of occurrences, and a spawned power-up is added once |
| `SnakeRules.AdvancePickup` | src/components/Game.tsx:93-132 | after a surviving move to a head, the power-ups are exactly those not on the head plus the spawned one; the interval is boosted once per speed power-up on the head; a multiply power-up on the head sets the multiplier to 2; a shield power-up raises the shield |
| `SnakeRules.AdvancePowerUpCounts` | src/components/Game.tsx:93-116 | after a surviving move, each power-up occurs as often as before if it is off the head, not at all if it is on it, plus once if it is the one spawned |
| `SnakeRules.AdvanceSpeed` | src/components/Game.tsx:111-120 | after a surviving move the interval is the old one boosted once per speed power-up on the head |
| `SnakeRules.AdvancePreservesWellFormed` | src/components/Game.tsx:86-134 | a surviving move to a cell of the board keeps the state well formed |
| `SnakeRules.AdvanceKeepsCellsInGrid` | src/components/Game.tsx:86-116 | a surviving move to a cell of the board keeps a non-empty snake and every snake, food, obstacle and power-up cell on the board |
| `SnakeRules.StepPreservesWellFormed` | src/components/Game.tsx:55-135 | a tick keeps a non-empty snake, every cell on the board, 0 < speed ≤ 150 and a multiplier of 1 or 2 |
| `SnakeRules.InitialIsWellFormed` | src/components/Game.tsx:32-39 | the initial state (one cell at (10,10), RIGHT, food at (15,10), no obstacles or power-ups, speed 150, no shield, multiplier 1) is well formed |
| `SnakeRules.FiveTicksReachFirstFood` | src/components/Game.tsx:32-39 | from the initial state five ticks reach the food: score 10, snake [(15,10), (14,10)] |
| `SnakeEngine.CollectPowerUps` | src/components/Game.tsx:111-132 | the loop over the power-ups keeps exactly `Kept` and yields exactly the effects of the pickups in list order |
| `SnakeEngine.TickDueIsMonotone` | src/components/Game.tsx:168-172 | with a positive interval, no tick is due at or before the last tick's timestamp, and once due a tick stays due at every later frame |
| `SnakeEngine.Engine.constructor` | src/components/Game.tsx:32-42 | a new game component is in the initial state, with frame clock 0 |
| `SnakeEngine.Engine.Tick` | src/components/Game.tsx:55-135 | the collision checks run first; the tick then updates the fields in place to exactly `Step` of the old state and returns its outcome; the state stays well formed |
| `SnakeEngine.Engine.MoveTo` | src/components/Game.tsx:86-134 | a tick that survives updates the fields in place to exactly the state `Advance` describes, and returns the score raised by 10 × the old multiplier exactly when the head is on the old food |
| `SnakeEngine.Engine.SetDirection` | src/components/Game.tsx:141-150 | the direction becomes `Steer(old direction, requested)`; nothing else changes |
| `SnakeEngine.Engine.HandleKey` | src/components/Game.tsx:138-156 | arrows steer, space asks to resume when paused and to pause otherwise, other keys do nothing |
| `SnakeEngine.Engine.Frame` | src/components/Game.tsx:162-176 | while running, a frame at least `speed` ms after the last tick performs `Step` and records its timestamp; otherwise (paused or too early) nothing changes |
| `SnakeEngine.Engine.ExpireSpeed` | src/components/Game.tsx:120 | the interval returns to 150, all else unchanged |
| `SnakeEngine.Engine.ExpireMultiplier` | src/components/Game.tsx:124 | the multiplier returns to 1, all else unchanged |
| `SnakeEngine.Engine.ExpireShield` | src/components/Game.tsx:128 | the shield drops, all else unchanged |
| `SnakeApp.ViewsPartitionScreens` | src/App.tsx:32-57 | each screen state shows exactly one of the menu, the game (playing or paused) and the game-over view |
| `SnakeApp.NewHighScore` | src/App.tsx:17-20 | the new best score is the larger of the old best and the final score |
| `SnakeApp.HighScoreIsBestOfRuns` | src/App.tsx:15-22 | after any series of runs the best score is the largest of the stored one and all final scores |
| `SnakeApp.App.constructor` | src/App.tsx:8-13 | start on the menu with score 0 and the stored best score, or 0 when none is stored |
| `SnakeApp.App.StartGame` | src/App.tsx:24-27 | from the menu or the game-over screen: score 0, playing, a fresh game in its initial state, best score kept |
| `SnakeApp.App.HandleGameOver` | src/App.tsx:15-22 | score := final score, best := max(best, final score), game-over screen |
| `SnakeApp.App.SetScore` | src/App.tsx:41-42 | the game's score update replaces the score |
| `SnakeApp.App.Pause` | src/App.tsx:38-39 | the state becomes paused and the game receives `isPaused` true |
| `SnakeApp.App.Resume` | src/App.tsx:38-40 | the state becomes playing and the game receives `isPaused` false |
| `SnakeApp.App.KeyPress` | src/App.tsx:36-43 | arrows steer the mounted game and change nothing else in it (not even its frame clock); space toggles between playing and paused; scores are unchanged |
| `SnakeApp.App.AnimationFrame` | src/App.tsx:35-43 | while playing, a due frame puts the game in exactly the state `Step` gives for the current score and records the timestamp; a surviving tick sets the score to the tick's score and stays playing; a fatal one leads to the game-over screen with the score it had and best := max(best, score). A frame that is not due, or any frame while paused, changes nothing. The scores never go down, and the best score changes only when a run ends |
| `PowerUpFindings.LastIndexAt` | src/components/Game.tsx:111-115 | the index of the last power-up on the head, the only removal whose list update survives, or -1 when none is there |
| `PowerUpFindings.PowerUpsAsWritten` | src/components/Game.tsx:94-116 | as written, a tick with a power-up on the head removes exactly one occurrence, the last one on the head, and adds nothing, so the spawned power-up is lost; with none on the head the spawned one is appended |
| `PowerUpFindings.AsWrittenAgreesWithoutPickup` | src/components/Game.tsx:94-116 | on a tick that picks nothing up, the component's list and the corrected list agree |
| `PowerUpFindings.AsWrittenLosesSpawnedPowerUp` | src/components/Game.tsx:94-116 | as written, a tick that picks up a power-up loses the power-up it spawns; the corrected list keeps it |
| `PowerUpFindings.AsWrittenKeepsPickedUpDuplicate` | src/components/Game.tsx:111-130 | as written, of two power-ups on the head only the last is removed although both take effect; the corrected list removes both |

## Findings

| source | as written | input that shows it | evidently intended | confidence | as-written member | corrected member |
|---|---|---|---|---|---|---|
| src/components/Game.tsx:94-116 | the spawn and each pickup replace the whole list, each starting from the list as it was before the tick; the last replacement wins | a speed power-up lies on the food cell (3,4); the tick eats the food and rolls a shield spawn at (7,7): the list ends up empty, so the spawned shield is lost. Two power-ups on the head: the first stays on the board | the power-ups on the head are removed, the others stay, and the spawned one is added | not executed; high (React batches the state updates of one handler and keeps the last value) | `PowerUpFindings.AsWrittenLosesSpawnedPowerUp` | `SnakeRules.PowerUpsAfter` |

## Left out

- Rendering, animation and icons (src/components/Game.tsx:182-295) and the whole static menu in src/components/Menu.tsx.
- Registering and removing the key listener, and the `requestAnimationFrame` plumbing. Only the "elapsed ≥ speed" gate is kept, as `Engine.Frame`, with integer millisecond timestamps.
- Wall-clock timers: each 5000 ms expiry is an explicit method that may be called at any point between ticks. A timer started in one run and firing in a later run is not modelled.
- Random choices: every `Math.random` result is an argument of the tick (`Dice`), so the model says nothing about the probabilities (0.3, uniform cells, uniform kind).
- Persisting the best score in local storage and reading it back: the stored value is a constructor argument (`Option<int>`). A stored string that does not parse as a number is not modelled.
- Floating point: the interval is a `real`, so `speed * 0.7` is exact rather than an IEEE double.
- Values captured by earlier renders: the tick callback is rebuilt only when the snake, direction, food, pause flag or speed change. So the first tick after a shield or multiplier expiry can still see the old value. The model's tick always sees the current fields.
- PickupEffects: applies one factor of 0.7 per speed power-up picked up in a tick. The component applies it only once however many speed power-ups lie on the head, because every pickup reads the speed from before the tick.
- PowerUpPickup: states the interval the same way as `PickupEffects`, one factor of 0.7 per speed power-up on the head. The component applies the factor only once per tick, for the same reason.
- AdvancePickup: states the interval the same way as `PickupEffects`, one factor of 0.7 per speed power-up on the head. The component applies the factor only once per tick, for the same reason.
- AdvanceSpeed: states the interval the same way as `PickupEffects`, one factor of 0.7 per speed power-up on the head. The component applies the factor only once per tick, for the same reason.
- The pause button is the same toggle as the space key and is not modelled separately.

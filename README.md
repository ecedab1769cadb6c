# Four-lane car dodger: a verified model of the game step

The repository is a browser game. The player's car drives in one of four
lanes while enemy cars and coins fall towards it. Hitting an enemy ends the
run, and picking up a coin adds to the score. The game logic exists twice:

- **js/game.js** is the current version. Its `Game` class is time-based:
  update(delta) takes milliseconds.
  - Enemies spawn on a timer, capped at `maxEnemies`. Coins spawn on their own timer.
  - Every entity falls at its own speed. The speed grows with the score, with no cap.
  - Collisions are axis-aligned rectangle tests.
  - Passive points accrue through a fractional accumulator.
  - `endGame` records the high score, and `restart` resets the run.
- **game.js** is the older version. Its state is a set of module-level
  variables, and it counts frames rather than milliseconds.
  - A countdown timer spawns one item per delay.
  - The score rises by one every frame, and the speed steps up every 500 points.
  - A hit needs an item in the player's lane between y 400 and 450.
  - `startGame` and `endGame` manage the run.

Each version is modelled as a class whose methods update its fields the way
the source does. Each method is proved against pure functions that describe
one frame phase by phase. The properties below are proved about those
functions:
- lane bounds;
- the spawn cap;
- no double collection;
- a score that never drops;
- carry conservation in the accumulator;
- reset on restart;
- a high score that only rises.

| file | module | what it holds |
|---|---|---|
| dodger_rules.dfy | DodgerRules | CONFIG, lane geometry, random draws, spawning, movement and filtering, collision geometry, the collision pass as a function, the passive accumulator |
| dodger_frame.dfy | DodgerFrame | one call of `update(delta)` as `Step` on the fields it writes, and what a frame guarantees |
| dodger_game.dfy | DodgerGame | class `Game` of js/game.js |
| legacy_rules.dfy | LegacyRules | the rules of game.js as functions, and one frame as `LegacyTick` |
| legacy_game.dfy | LegacyGame | class `Game` holding the module state of game.js |

Modelling choices:
- Positions, speeds and the accumulator are `real`.
- Scores are `int`. In js/game.js every change to the score is a whole number: `coinValue`, or `Math.floor` of the accumulator.
- Every `Math.random()` value is a parameter `u` with `0 <= u < 1`. A frame's draws are bundled as `Draws` or `SpawnDraws`.
- Clock readings are parameters: `delta` for update, `now` for loop, start and restart.
- The stored high score is a constructor argument.
- In game.js the canvas height is read from the page. It becomes the constant `canvasHeight`, fixed when the object is made.

## Model

| member | source | states |
|---|---|---|
| DodgerRules.Rand | js/game.js:88 | `rand(min,max)` lies in [min, max) when min < max, and equals min when they are equal |
| DodgerRules.RandInt | js/game.js:89 | `randInt(min,max)` lies in [min, max], both ends included |
| DodgerRules.PlayerSprite | js/game.js:143-147 | computes the player sprite of `initPlayer`: 64 by 128, 34 pixels above the canvas bottom, centred in its lane; `Game.Valid` keeps `player` equal to it |
| DodgerRules.LaneCenterX | js/game.js:149 | computes the x of lane i's centre: the left margin, i lane widths and half a lane; its consequence is LanesApart |
| DodgerRules.LaneWidthFromMargins | js/game.js:109-112 | the lane width is the road between the left and right margins of 32 split into the four lanes |
| DodgerRules.LaneXForSprite | js/game.js:150 | computes the x that centres a sprite of width w in lane i |
| DodgerRules.LanesApart | js/game.js:149-150 | two sprites at most 64 wide, centred in different lanes 104 wide, leave a gap between them |
| DodgerRules.AabbCollide | js/game.js:249-251 | computes `aabbCollide`: the closed rectangles intersect; its properties are AabbSymmetric, AabbTouchingCollide, AabbStackedCollide and CollisionMeansSameLane |
| DodgerRules.AabbSymmetric | js/game.js:249-251 | `aabbCollide(a,b)` holds exactly when `aabbCollide(b,a)` does |
| DodgerRules.AabbTouchingCollide | js/game.js:249-251 | rectangles that meet side by side, on either side, with overlapping vertical extents, collide |
| DodgerRules.AabbStackedCollide | js/game.js:249-251 | rectangles that meet one above the other, either way round, with overlapping horizontal extents, collide: an enemy whose bottom reaches the player's top ends the run |
| DodgerRules.CollisionMeansSameLane | js/game.js:249-251 | with the CONFIG geometry, an entity colliding with the player is in the player's lane |
| DodgerRules.EnemySpeed | js/game.js:188 | the enemy speed is at least `enemyBaseSpeed` for any non-negative score |
| DodgerRules.EnemySpeedMonotone | js/game.js:188 | the enemy speed never decreases as the score grows |
| DodgerRules.NoSpeedCap | js/game.js:188 | for every bound there is a score whose enemy speed exceeds it |
| DodgerRules.NewEnemy | js/game.js:192-199 | a spawned enemy is in a lane and centred there, starts fully above the field by less than 120 more, is not dead, and moves at `enemySpeed()` |
| DodgerRules.NewCoin | js/game.js:203-210 | a spawned coin is in a lane and centred there, starts above the field, and moves at 0.85 of `enemySpeed()` |
| DodgerRules.EnemyCount | js/game.js:191 | counts the entries of kind enemy, at most the list's length; the cap is stated by AfterEnemySpawn and SpawnedRespectsCap |
| DodgerRules.AfterEnemySpawn | js/game.js:191-199 | at or above `maxEnemies` live enemies the list is unchanged; below it exactly the new enemy `NewEnemy(score, uLane, uJitter)` is appended and the rest of the list is kept; the cap is never exceeded |
| DodgerRules.Moved | js/game.js:230 | computes one entity after delta milliseconds: y grows by `vy * delta/1000`; AdvanceAt applies it entry by entry |
| DodgerRules.Advance | js/game.js:230 | movement keeps the number of entities |
| DodgerRules.AdvanceAt | js/game.js:230 | entry i after movement is entry i moved by `vy * delta/1000`, and nothing else changes |
| DodgerRules.AdvanceKeepsShape | js/game.js:230 | movement keeps the enemy count and the placement of every entity in its lane |
| DodgerRules.AdvanceFalls | js/game.js:230 | with a non-negative delta and speed, an entity never moves up |
| DodgerRules.Keep | js/game.js:231 | the filter's test: above `canvasHeight + 200` and not dead; PruneKeeps states what the filter keeps |
| DodgerRules.Hits | js/game.js:234 | the collision loop's test: an entry of kind enemy or coin whose rectangle meets the player's (AabbCollide); CollisionMeansSameLane states that such an entry is in the player's lane |
| DodgerRules.Crashes | js/game.js:234-235 | an enemy that the collision test hits, the entry at which the loop runs endGame and returns; CrashIndexFirst states that the loop stops at the first one |
| DodgerRules.Collects | js/game.js:234-236 | a coin that the collision test hits, the entry the loop marks dead and pays `coinValue` for; CollectPaysOncePerCoin states the payment |
| DodgerRules.Prune | js/game.js:231 | the filter never lengthens the list |
| DodgerRules.PruneKeeps | js/game.js:231 | the filter keeps exactly the entities above `canvasHeight + 200` that are not dead, and never adds an enemy |
| DodgerRules.PruneConcat | js/game.js:231 | the filter keeps entities in their order: filtering two joined lists is joining the two filtered lists |
| DodgerRules.CrashIndex | js/game.js:233-235 | the index where the collision loop stops lies within the list or just past its end |
| DodgerRules.CrashIndexFirst | js/game.js:233-235 | the loop stops at the first enemy that collides with the player: no enemy before that index collides, and one at it does unless the index is the end |
| DodgerRules.Collect | js/game.js:236 | marking collected coins keeps the number of entries |
| DodgerRules.CollectKeepsShape | js/game.js:236 | collection changes only the dead flag, so kinds, lanes, positions, the enemy count and the placement invariant are kept |
| DodgerRules.CollectPaysOncePerCoin | js/game.js:233-236 | over a list with nothing dead, the entries a pass marks dead are exactly the coins it pays for |
| DodgerRules.CollectedCoinsInLane | js/game.js:233-236 | everything a pass marks dead is a coin in the player's lane |
| DodgerRules.FrameDelta | js/game.js:297 | the delta loop passes is at most 60, non-negative when time runs forward, and zero on the first frame |
| DodgerRules.HighAfter | js/game.js:260-262 | the high score after endGame is the larger of the old high score and the score |
| DodgerRules.Accrue | js/game.js:240-245 | score plus accumulator grows by exactly `delta * scorePerSecond/1000`; the score never drops; an accumulator in [0,1) stays in [0,1) |
| DodgerRules.AccrueAllConserves | js/game.js:240-245 | over any sequence of non-negative deltas the carry is conserved, the score never drops and the accumulator stays a fraction |
| DodgerRules.NoLeakage | js/game.js:240-245 | frames that add up to a whole number of points, starting from an empty accumulator, score exactly those points and leave it empty, however the time was split |
| DodgerFrame.SpawnPhase | js/game.js:217-228 | computes the two timer blocks: the enemy timer counts up to `nextSpawn`, then spawnEnemy runs, the timer restarts at 0 and a new interval is drawn; the coin timer counts down to 0, then spawnCoin runs and a new countdown is drawn |
| DodgerFrame.Spawned | js/game.js:217-228 | the entity list after both spawn blocks: AfterEnemySpawn when the enemy timer is due, then one NewCoin appended when the coin countdown is due; SpawnedRespectsCap states the cap and lane placement it keeps |
| DodgerFrame.MovePhase | js/game.js:230-231 | computes movement followed by the filter |
| DodgerFrame.CollisionPhase | js/game.js:233-238 | computes the collision loop: coins before the first colliding enemy are marked dead and paid; that enemy, if any, ends the run through endGame |
| DodgerFrame.ScorePhase | js/game.js:240-245 | computes passive scoring through Accrue |
| DodgerFrame.Step | js/game.js:213-247 | computes update: nothing while paused or over; otherwise SpawnPhase, MovePhase, CollisionPhase, then ScorePhase unless the run ended; what it guarantees is stated by the Step lemmas below |
| DodgerFrame.SpawnedRespectsCap | js/game.js:217-228 | after both spawn timers the list keeps the enemy cap, and every entry is an enemy or coin placed in its lane |
| DodgerFrame.LiveShape | js/game.js:217-231 | the list the collision loop walks holds no dead entry, only entities placed in lanes, and no more enemies than the cap |
| DodgerFrame.StepKeepsValid | js/game.js:213-247 | update keeps the enemy cap, lane placement, a non-negative score and `nextSpawn` within its interval |
| DodgerFrame.StepScoreNeverDrops | js/game.js:213-247 | update never lowers the score |
| DodgerFrame.StepKeepsFraction | js/game.js:240-245 | with a non-negative delta, an accumulator in [0,1) stays in [0,1) across update |
| DodgerFrame.StepConservesCarry | js/game.js:233-245 | in a frame without a crash, score plus accumulator grows by exactly `delta * scorePerSecond/1000` plus `coinValue` per coin collected in that frame |
| DodgerFrame.StepCrash | js/game.js:233-235 | an enemy hit ends the run without passive points; the score carries only the coins collected before the enemy; the high score is lifted to the score if beaten; a colliding enemy is in the list |
| DodgerFrame.CoinAfterEnemyNotPaid | js/game.js:233-236 | the loop returns at an overlapping enemy: a coin overlapping the player after it in the list is neither paid nor marked dead, the score is unchanged and the run is over |
| DodgerFrame.StepHighscoreRises | js/game.js:253-265 | update never lowers the high score |
| DodgerFrame.StepCollectsInLane | js/game.js:233-236 | whatever a frame marks dead is a coin in the player's lane |
| DodgerFrame.NothingDeadInLive | js/game.js:231-236 | the filter at the start of a frame drops every dead entry, so the list the collision pass walks holds no dead entry and a coin collected in one frame is never paid again |
| DodgerFrame.FreshFrameIsQuiet | js/game.js:267-274 | the zero-delta frame that restart runs changes nothing |
| DodgerGame.Game.constructor | js/game.js:103-141 | a fresh game: lane 1, an empty list, zero score and accumulator, the stored high score, timers drawn from their intervals, and no flag set |
| DodgerGame.Game.MoveLeft | js/game.js:175 | one lane left, keeping the sprite centred; in lane 0 nothing changes |
| DodgerGame.Game.MoveRight | js/game.js:176 | one lane right, keeping the sprite centred; in the last lane nothing changes |
| DodgerGame.Game.TogglePause | js/game.js:178 | flips the pause flag in every phase, game over included |
| DodgerGame.Game.Pause | js/game.js:179 | sets the pause flag to the given value |
| DodgerGame.Game.SpawnEnemy | js/game.js:190-200 | the list becomes AfterEnemySpawn of the old list, and the lane placement and enemy cap are kept |
| DodgerGame.Game.SpawnCoin | js/game.js:202-211 | exactly one new coin is appended, and the lane placement and enemy cap are kept |
| DodgerGame.Game.EndGame | js/game.js:253-265 | a second call changes nothing; the first ends the run and lifts the high score to the score if higher; the high score never drops |
| DodgerGame.Game.Update | js/game.js:213-247 | the written fields become `Step` of their old values, the object invariant is kept, and the score and high score never drop |
| DodgerGame.Game.Tick | js/game.js:214-247 | a no-op while paused or over; otherwise the spawn, movement, collision and scoring phases in source order |
| DodgerGame.Game.SpawnAndMove | js/game.js:217-231 | the spawn timers, then movement and the filter |
| DodgerGame.Game.CollideAndScore | js/game.js:233-245 | the collision pass, then passive scoring unless the pass ended the game |
| DodgerGame.Game.RunSpawnTimers | js/game.js:217-228 | the enemy timer counts up to `nextSpawn` and the coin timer counts down to zero; each spawns and re-rolls when due |
| DodgerGame.Game.RunEnemyTimer | js/game.js:217-222 | the timer grows by delta; once it reaches `nextSpawn` the list becomes AfterEnemySpawn of the old list, the timer restarts at 0 and `nextSpawn` is re-rolled; the lane placement and enemy cap are kept |
| DodgerGame.Game.RunCoinTimer | js/game.js:224-228 | the countdown drops by delta; at zero or below exactly one coin is appended and the countdown is re-rolled; the lane placement and enemy cap are kept |
| DodgerGame.Game.CheckCollisions | js/game.js:233-238 | the fields become CollisionPhase of their old values: coins before the first colliding enemy are paid, and that enemy runs endGame |
| DodgerGame.Game.CollectCoins | js/game.js:233-236 | the loop stops at CrashIndex, the coins before it are marked dead, and each is paid `coinValue` once |
| DodgerGame.Game.Fall | js/game.js:230 | the movement loop computes Advance |
| DodgerGame.Game.Restart | js/game.js:267-274 | an empty list, zero score and accumulator, no game over, lane 1, a zero spawn timer, both intervals re-rolled, running, the high score and pause flag kept; the first loop frame changes nothing |
| DodgerGame.Game.ResetRun | js/game.js:269-272 | the resets of restart, keeping the invariant |
| DodgerGame.Game.Loop | js/game.js:295-302 | nothing unless running; otherwise lastTime becomes now and the fields become `Step` with the clamped delta |
| DodgerGame.Game.Start | js/game.js:304-311 | running is set, lastTime becomes now and the first loop frame runs `Step` with a zero delta; on a fresh game that frame changes nothing but the running flag |
| LegacyRules.NewItem | game.js:75-80 | the pushed item is a coin exactly when the draw is below 0.15, lies in a lane of 0..3, and starts at y = -50 |
| LegacyRules.SpawnDelay | game.js:81 | the next spawn delay lies in [50, 80) |
| LegacyRules.Fallen | game.js:65-68 | falling keeps the number of items |
| LegacyRules.FallenAt | game.js:65-68 | item i after falling is item i moved down by `speed`, and nothing else changes |
| LegacyRules.OnScreen | game.js:70 | the filter never lengthens the list |
| LegacyRules.OnScreenKeeps | game.js:70 | the filter keeps exactly the items with `y < canvas.height + 50` |
| LegacyRules.OnScreenConcat | game.js:70 | the filter keeps items in their order: filtering two joined lists is joining the two filtered lists |
| LegacyRules.DriftKeepsLanes | game.js:65-70 | falling and filtering keep every item in a lane |
| LegacyRules.SpeedAfter | game.js:85 | computes the speed after the increment: one step more when the score is a multiple of 500; its properties are SpeedSteps |
| LegacyRules.SpeedSteps | game.js:84-85 | the speed never drops, and rises by exactly 0.5 precisely when the incremented score is a multiple of 500 |
| LegacyRules.Park | game.js:96 | parking collected coins keeps the number of items |
| LegacyRules.InHitZone | game.js:91 | the collision test: the item is in the player's lane and its y lies strictly between 400 and 450 |
| LegacyRules.Crashes | game.js:91-93 | an enemy in the hit zone, the item for which the forEach runs endGame; SweepFacts states that the run stops exactly when there is one |
| LegacyRules.Collects | game.js:91-97 | a coin in the hit zone, the item the forEach pays 100 for and moves below the canvas; SweepFacts and ParkedCoinsLeave state what follows |
| LegacyRules.Visit | game.js:91-97 | computes one step of the collision forEach: an enemy in the hit zone runs endGame, a coin in it adds 100 |
| LegacyRules.Sweep | game.js:90-99 | computes the collision forEach over the whole list, not stopping at an enemy; its properties are SweepFacts and SweepMisses |
| LegacyRules.SweepFacts | game.js:90-99 | every coin in the hit zone pays 100, those after an enemy included; the run goes on exactly when no enemy was in the zone; the high score never drops, reaches the score once an enemy was hit, and never exceeds both the old high score and the final score |
| LegacyRules.SweepMisses | game.js:90-99 | a list with nothing in the hit zone leaves score, high score and the running flag alone |
| LegacyRules.HighAfterSettles | game.js:114-119 | endGame run again with the same score leaves the high score unchanged |
| LegacyRules.CoinAfterCrashStillPays | game.js:90-99 | an enemy followed by a coin in the hit zone stops the run, and still pays the coin's 100, which the recorded high score lacks |
| LegacyRules.ParkedCoinsLeave | game.js:70-96 | a collected coin is moved below the keep line, so the next frame's filter removes it and it is never collected twice |
| LegacyRules.ParkKeepsLanes | game.js:96 | parking keeps every item in a lane |
| LegacyRules.DriftPhase | game.js:65-70 | computes the moving forEach followed by the filter |
| LegacyRules.SpawnPhase | game.js:73-82 | computes the spawn timer block: the timer drops by one; at zero or below an item is pushed and a new delay drawn |
| LegacyRules.CountPhase | game.js:84-85 | computes the score increment and the speed step |
| LegacyRules.CollidePhase | game.js:90-99 | computes the collision forEach on the module variables: Sweep for score, high score and running flag, Park for the list |
| LegacyRules.LegacyTick | game.js:60-104 | computes update: drift in every frame; spawn, count and collide only while running; what it guarantees is stated by the Tick lemmas below |
| LegacyRules.TickKeepsValid | game.js:60-104 | update keeps every item in a lane, the score non-negative and the speed at least 2 |
| LegacyRules.CollideKeepsValid | game.js:90-99 | the collision pass keeps the score non-negative, every item in a lane and the speed |
| LegacyRules.IdleTick | game.js:65-72 | a frame while not running only moves and filters the items |
| LegacyRules.RunningTick | game.js:72-100 | a running frame scores one point plus 100 per coin in the hit zone; the run stops exactly when an enemy is in the zone; the high score never drops |
| LegacyRules.TickSpawns | game.js:73-82 | the timer drops by one; at zero or below exactly one item in a lane at y = -50 is appended and the timer restarts in [50, 80) |
| LegacyRules.TickSpeed | game.js:84-85 | in a running frame the speed never drops, and steps by 0.5 exactly when the incremented score is a multiple of 500 |
| LegacyRules.CoinCanSkipSpeedStep | game.js:84-97 | from score 449, a coin in the hit zone takes the score to 550 with no speed step for 500 |
| LegacyGame.Game.constructor | game.js:31-37 | the initial module state: not running, score 0, the stored high score, lane 1, speed 2, no items, spawn timer 0 |
| LegacyGame.Game.MoveLeft | game.js:142-147 | one lane left unless in lane 0, where nothing changes; the lane stays in 0..3 |
| LegacyGame.Game.MoveRight | game.js:143-150 | one lane right unless in lane 3, where nothing changes; the lane stays in 0..3 |
| LegacyGame.Game.StartGame | game.js:106-112 | score 0, speed 2, no items, lane 1 and running; the spawn timer and high score are kept |
| LegacyGame.Game.EndGame | game.js:114-122 | the run stops, and the high score becomes the larger of itself and the score |
| LegacyGame.Game.Update | game.js:60-104 | the module variables become LegacyTick of their old values, and the invariant is kept |
| LegacyGame.Game.Frame | game.js:65-100 | drift in every frame; spawn, count and collide only while running |
| LegacyGame.Game.Drift | game.js:65-70 | the moving loop and the filter compute DriftPhase |
| LegacyGame.Game.Spawn | game.js:73-82 | the spawn block computes SpawnPhase |
| LegacyGame.Game.Count | game.js:84-85 | the score increment and speed step compute CountPhase |
| LegacyGame.Game.FallAll | game.js:65-68 | the moving loop computes Fallen |
| LegacyGame.Game.CollisionPass | game.js:90-99 | the collision loop computes CollidePhase: it visits every item, runs endGame per enemy in the hit zone, and parks and pays every coin in it |
| LegacyGame.Game.Collide | game.js:91-97 | one visit: the Visit step on score, high score and running flag, and a coin in the hit zone parked in place |

## Left out

- Rendering is not modelled: canvas drawing, `Entity.draw`, `drawRoad`, `draw` and `roadOffset` in js/game.js, and every `ctx.drawImage` in game.js. It is output only.
- Audio is not modelled: `playSfx`, `toggleMute`, `muted` and the background engine sound. It has no effect on the game state.
- Asset loading is not modelled: `loader.loadAll`, `updateProgress` and `loadAssets`. These are asynchronous browser callbacks.
- DOM wiring is not modelled: `attachListeners`, `visibilitychange`, the boot function, the button handlers of game.js, and `showCountdown` with its `setInterval`. Their effects on the state are the plain method calls modelled here.
- `localStorage` is not modelled. The stored high score is a constructor argument, and the write-back in endGame is left out.
- The HUD text is not modelled.
- `requestAnimationFrame` and `performance.now` are not modelled. Each frame is one call with the time as a parameter. Loop does not model the rescheduling on line 301, which stops after game over.
- `Math.random` becomes parameters in [0, 1).
- IEEE-754 rounding becomes exact `real` arithmetic.
- Entities are values in a sequence. The in-place writes `e.y += …`, `e.dead = true` and `ent.y = …` become replacement of one element. Aliasing of entity objects is not modelled; the source never shares them between lists.
- The player's `lane` is `null` in the source. Here it is `NoLane` (-1), which is never compared with anything.
- `LaneWidth` is written as the literal 104 and not as the division `(LaneRight - LaneLeft) / Lanes`; LaneWidthFromMargins proves the two equal.
- update in both files is split into methods, one per phase of its body. Each method changes the same fields in the same order as the source.
- DodgerRules.Advance: its own contract gives only the length. What each entry becomes is stated by AdvanceAt, so that the verifier does not carry it into every caller.
- DodgerRules.Prune: its own contract gives only that the list does not grow. What it keeps is stated by PruneKeeps.
- DodgerRules.CrashIndex: its own contract gives only the range. That it is the first colliding enemy is stated by CrashIndexFirst.
- DodgerRules.Collect: its own contract gives only the length. What it changes is stated by CollectKeepsShape and CollectPaysOncePerCoin.
- LegacyRules.Fallen: its own contract gives only the length. What each item becomes is stated by FallenAt.
- LegacyRules.OnScreen: its own contract gives only that the list does not grow. What it keeps is stated by OnScreenKeeps.
- LegacyRules.Park: its own contract gives only the length. Its effect is stated by ParkedCoinsLeave and ParkKeepsLanes.

Behaviour of the code that a player might not expect:
- There is no speed cap in js/game.js (NoSpeedCap).
- restart puts the player in lane 1, not in a computed centre.
- togglePause has no phase guard.
- In game.js an enemy hit does not stop the collision loop:
  - coins after it are still paid (CoinAfterCrashStillPays);
  - a second enemy in the zone runs endGame again.
- js/game.js, by contrast, returns at the first overlapping enemy, so coins after it are neither paid nor marked dead (CoinAfterEnemyNotPaid).
- In game.js a coin can carry the score past a multiple of 500. The speed step for that multiple is then skipped (CoinCanSkipSpeedStep).

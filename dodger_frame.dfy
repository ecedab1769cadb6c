/** One call of update(delta) in js/game.js as a function on the part of the
    Game state that it changes, and what that function guarantees: the spawn
    cap, no double collection, a score that never drops, a conserved passive
    carry, and game over with its high score on an enemy hit. */
module DodgerFrame {
  import opened DodgerRules

  /** The Math.random() values one call of update may consume. */
  datatype Draws = Draws(enemyLane: real, enemyJitter: real, spawnInterval: real,
                         coinLane: real, coinInterval: real)
  {
    predicate Valid()
    {
      IsUnit(enemyLane) && IsUnit(enemyJitter) && IsUnit(spawnInterval) &&
      IsUnit(coinLane) && IsUnit(coinInterval)
    }
  }

  /** The Game fields that update writes. */
  datatype Frame = Frame(spawnTimer: real, nextSpawn: real, nextCoin: real,
                         entities: seq<Entity>, score: int, scoreAcc: real,
                         gameOver: bool, running: bool, highscore: int)

  /** The entity list once both spawners have had their turn. */
  function Spawned(f: Frame, delta: real, d: Draws): seq<Entity>
    requires d.Valid()
  {
    var withEnemy := if f.spawnTimer + delta >= f.nextSpawn
                     then AfterEnemySpawn(f.entities, f.score, d.enemyLane, d.enemyJitter)
                     else f.entities;
    if f.nextCoin - delta <= 0.0 then withEnemy + [NewCoin(f.score, d.coinLane)] else withEnemy
  }

  /** The list the collision pass walks: spawned, moved, and filtered. */
  function Live(f: Frame, delta: real, d: Draws): seq<Entity>
    requires d.Valid()
  {
    Prune(Advance(Spawned(f, delta, d), delta))
  }

  /** The two timer blocks of update: the enemy timer counts up to
      nextSpawn, then spawnEnemy runs, the timer restarts at zero and a new
      interval is drawn; the coin timer counts down to zero, then spawnCoin
      runs and a new countdown is drawn. */
  function SpawnPhase(f: Frame, delta: real, d: Draws): Frame
    requires d.Valid()
  {
    var enemyDue := f.spawnTimer + delta >= f.nextSpawn;
    var coinDue := f.nextCoin - delta <= 0.0;
    f.(spawnTimer := if enemyDue then 0.0 else f.spawnTimer + delta,
       nextSpawn := if enemyDue then Rand(d.spawnInterval, SpawnIntervalMin, SpawnIntervalMax)
                    else f.nextSpawn,
       nextCoin := if coinDue then Rand(d.coinInterval, CoinSpawnMin, CoinSpawnMax)
                   else f.nextCoin - delta,
       entities := Spawned(f, delta, d))
  }

  /** Movement, then the filter. */
  function MovePhase(f: Frame, delta: real): Frame
  {
    f.(entities := Prune(Advance(f.entities, delta)))
  }

  /** The collision loop: coins overlapping the player before the first
      overlapping enemy are marked dead and paid; an overlapping enemy ends
      the game through endGame. */
  function CollisionPhase(player: Entity, f: Frame): Frame
  {
    var k := CrashIndex(player, f.entities);
    var score := f.score + CoinValue * CoinsHit(player, f.entities, k);
    if k < |f.entities| then
      f.(entities := Collect(player, f.entities, k), score := score, gameOver := true,
         running := false, highscore := HighAfter(f.highscore, score))
    else
      f.(entities := Collect(player, f.entities, k), score := score)
  }

  /** Passive scoring. */
  function ScorePhase(f: Frame, delta: real): Frame
  {
    var acc := Accrue(f.score, f.scoreAcc, delta);
    f.(score := acc.0, scoreAcc := acc.1)
  }

  /** update(delta) with the player's sprite and the pause flag as read-only
      inputs: nothing while paused or over; otherwise the timers and spawns,
      movement and removal, the collision pass in list order, and then,
      unless an enemy was hit, passive scoring. */
  function Step(player: Entity, paused: bool, f: Frame, delta: real, d: Draws): Frame
    requires d.Valid()
  {
    if paused || f.gameOver then f
    else
      var c := CollisionPhase(player, MovePhase(SpawnPhase(f, delta, d), delta));
      if c.gameOver then c else ScorePhase(c, delta)
  }

  /** What the Game invariant asks of these fields. */
  predicate FrameValid(f: Frame)
  {
    f.score >= 0 &&
    SpawnIntervalMin <= f.nextSpawn < SpawnIntervalMax &&
    ListValid(f.entities)
  }

  // ---------------------------------------------------------------------
  // Spawning and list shape
  // ---------------------------------------------------------------------

  /** Both spawners keep entities placed in lanes, and the enemy spawner's
      cap keeps the number of enemies at most MaxEnemies. */
  lemma SpawnedRespectsCap(f: Frame, delta: real, d: Draws)
    requires d.Valid() && FrameValid(f)
    ensures EnemyCount(Spawned(f, delta, d)) <= MaxEnemies
    ensures forall e | e in Spawned(f, delta, d) :: WellPlaced(e) && e.kind != Player
  {
    var withEnemy := if f.spawnTimer + delta >= f.nextSpawn
                     then AfterEnemySpawn(f.entities, f.score, d.enemyLane, d.enemyJitter)
                     else f.entities;
    assert forall e | e in withEnemy :: WellPlaced(e) by {
      if f.spawnTimer + delta >= f.nextSpawn && EnemyCount(f.entities) < MaxEnemies {
        assert withEnemy == f.entities + [NewEnemy(f.score, d.enemyLane, d.enemyJitter)];
      }
    }
    if f.nextCoin - delta <= 0.0 {
      EnemyCountAppend(withEnemy, NewCoin(f.score, d.coinLane));
    }
  }

  /** The list the collision pass walks holds no dead entry and only
      entities placed in lanes, and no more enemies than the cap. */
  lemma LiveShape(f: Frame, delta: real, d: Draws)
    requires d.Valid() && FrameValid(f)
    ensures forall e | e in Live(f, delta, d) :: WellPlaced(e) && !e.dead
    ensures EnemyCount(Live(f, delta, d)) <= MaxEnemies
  {
    SpawnedRespectsCap(f, delta, d);
    AdvanceKeepsShape(Spawned(f, delta, d), delta);
    PruneKeeps(Advance(Spawned(f, delta, d), delta));
  }

  /** update keeps the invariant: entities stay in their lanes, the enemy
      cap holds, the score stays non-negative and the next enemy interval
      stays within its configured range. */
  lemma StepKeepsValid(player: Entity, paused: bool, f: Frame, delta: real, d: Draws)
    requires d.Valid() && FrameValid(f)
    ensures FrameValid(Step(player, paused, f, delta, d))
  {
    if !(paused || f.gameOver) {
      var live := Live(f, delta, d);
      LiveShape(f, delta, d);
      CollectKeepsShape(player, live, CrashIndex(player, live));
    }
  }

  // ---------------------------------------------------------------------
  // Score
  // ---------------------------------------------------------------------

  /** The score never decreases during update. */
  lemma StepScoreNeverDrops(player: Entity, paused: bool, f: Frame, delta: real, d: Draws)
    requires d.Valid()
    ensures Step(player, paused, f, delta, d).score >= f.score
  {
  }

  /** The passive accumulator starts and ends each frame as a fraction
      when time runs forward. */
  lemma StepKeepsFraction(player: Entity, paused: bool, f: Frame, delta: real, d: Draws)
    requires d.Valid() && 0.0 <= f.scoreAcc < 1.0 && delta >= 0.0
    ensures 0.0 <= Step(player, paused, f, delta, d).scoreAcc < 1.0
  {
  }

  /** A frame without a crash: score plus accumulator grows by exactly the
      passive points for delta plus CoinValue per coin this frame marked
      dead, i.e. per coin collected, each of which counts once. */
  lemma StepConservesCarry(player: Entity, f: Frame, delta: real, d: Draws)
    requires d.Valid() && !f.gameOver
    requires !Step(player, false, f, delta, d).gameOver
    ensures var r := Step(player, false, f, delta, d);
            r.score as real + r.scoreAcc ==
              f.score as real + f.scoreAcc + (CoinValue * DeadCount(r.entities)) as real +
              delta * (ScorePerSecond / 1000.0)
  {
    var live := Live(f, delta, d);
    var k := CrashIndex(player, live);
    NothingDeadInLive(f, delta, d);
    CollectPaysOncePerCoin(player, live, k);
  }

  /** An enemy hit: the frame ends in game over with no passive points, the
      coins collected before the enemy in list order are paid once each, the
      high score is lifted to the score if beaten, and there is an enemy
      overlapping the player in the list. */
  lemma StepCrash(player: Entity, f: Frame, delta: real, d: Draws)
    requires d.Valid() && !f.gameOver
    requires Step(player, false, f, delta, d).gameOver
    ensures var r := Step(player, false, f, delta, d);
            && !r.running
            && r.score == f.score + CoinValue * DeadCount(r.entities)
            && r.scoreAcc == f.scoreAcc
            && r.highscore == HighAfter(f.highscore, r.score)
            && exists e | e in r.entities :: Crashes(player, e)
  {
    var live := Live(f, delta, d);
    var k := CrashIndex(player, live);
    NothingDeadInLive(f, delta, d);
    CollectPaysOncePerCoin(player, live, k);
    CrashIndexFirst(player, live);
    assert Collect(player, live, k)[k] == live[k];
  }

  /** The filter at the start of every frame drops each dead entry, so a coin
      collected in one frame is never walked, or paid, again. */
  lemma NothingDeadInLive(f: Frame, delta: real, d: Draws)
    requires d.Valid()
    ensures forall i :: 0 <= i < |Live(f, delta, d)| ==> !Live(f, delta, d)[i].dead
  {
    var live := Live(f, delta, d);
    PruneKeeps(Advance(Spawned(f, delta, d), delta));
    assert forall i :: 0 <= i < |live| ==> live[i] in live;
  }

  /** The collision loop returns at the first overlapping enemy: a coin that
      overlaps the player after that enemy in the list is neither paid nor
      marked dead, and the run ends. */
  lemma CoinAfterEnemyNotPaid(p: Entity, f: Frame, enemy: Entity, coin: Entity)
    requires Crashes(p, enemy) && Collects(p, coin)
    ensures var r := CollisionPhase(p, f.(entities := [enemy, coin]));
            r.score == f.score && r.entities == [enemy, coin] && r.gameOver && !r.running
  {
    var es := [enemy, coin];
    assert CrashIndex(p, es) == 0;
    assert Collect(p, es, 0) == es;
  }

  /** The high score never drops in update. */
  lemma StepHighscoreRises(player: Entity, paused: bool, f: Frame, delta: real, d: Draws)
    requires d.Valid()
    ensures Step(player, paused, f, delta, d).highscore >= f.highscore
  {
  }

  /** Everything a frame marks dead is a coin in the player's lane, and the
      next frame's filter drops it before its collision pass. */
  lemma StepCollectsInLane(lane: int, f: Frame, delta: real, d: Draws)
    requires d.Valid() && FrameValid(f) && 0 <= lane < Lanes && !f.gameOver
    ensures var r := Step(PlayerSprite(lane), false, f, delta, d);
            forall e | e in r.entities && e.dead :: e.kind == Coin && e.lane == lane
  {
    var live := Live(f, delta, d);
    LiveShape(f, delta, d);
    CollectedCoinsInLane(lane, live, CrashIndex(PlayerSprite(lane), live));
  }

  /** The first frame after a restart changes nothing: the list is empty, the
      enemy timer is below its interval and the coin timer above zero. */
  lemma FreshFrameIsQuiet(player: Entity, paused: bool, f: Frame, d: Draws)
    requires d.Valid() && f.entities == [] && !f.gameOver
    requires f.spawnTimer < f.nextSpawn && f.nextCoin > 0.0
    requires f.score >= 0 && f.scoreAcc == 0.0
    ensures Step(player, paused, f, 0.0, d) == f
  {
    if !paused {
      assert Spawned(f, 0.0, d) == [];
      var live := Live(f, 0.0, d);
      assert live == [];
      assert Collect(player, live, 0) == [];
    }
  }
}

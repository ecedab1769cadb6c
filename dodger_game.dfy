/** The Game object of js/game.js: its fields, the input handlers, the
    spawners, the per-frame update, game over, restart and the frame loop's
    delta clamp. Drawing, audio, the DOM and localStorage are not modelled;
    the clock reading and every Math.random() value are parameters. */
module DodgerGame {
  import opened DodgerRules
  import opened DodgerFrame

  class Game {
    var playerLane: int
    var player: Entity
    var entities: seq<Entity>
    var spawnTimer: real
    var nextSpawn: real
    var nextCoin: real
    var score: int
    var scoreAcc: real
    var highscore: int
    var running: bool
    var paused: bool
    var gameOver: bool
    var lastTime: real

    /** The object invariant: the player is in a lane and drawn there, every
        entity is placed in its lane, at most MaxEnemies enemies are live, the
        score is non-negative and the next enemy is due within the configured
        interval. */
    ghost predicate Valid()
      reads this
    {
      0 <= playerLane < Lanes && player == PlayerSprite(playerLane) && FrameValid(Snap())
    }

    /** The fields that update writes, as one value. */
    function Snap(): Frame
      reads this`spawnTimer, this`nextSpawn, this`nextCoin, this`entities, this`score,
            this`scoreAcc, this`gameOver, this`running, this`highscore
    {
      Frame(spawnTimer, nextSpawn, nextCoin, entities, score, scoreAcc, gameOver, running, highscore)
    }

    /** A fresh game with the stored high score and two draws for the first
        enemy and coin intervals. */
    constructor (storedHighscore: int, uSpawn: real, uCoin: real)
      requires IsUnit(uSpawn) && IsUnit(uCoin)
      ensures Valid()
      ensures playerLane == 1 && entities == [] && score == 0 && scoreAcc == 0.0
      ensures spawnTimer == 0.0 && nextSpawn == Rand(uSpawn, SpawnIntervalMin, SpawnIntervalMax)
      ensures nextCoin == Rand(uCoin, CoinSpawnMin, CoinSpawnMax)
      ensures highscore == storedHighscore
      ensures !running && !paused && !gameOver && lastTime == 0.0
    {
      playerLane := 1;
      player := PlayerSprite(1);
      entities := [];
      spawnTimer := 0.0;
      nextSpawn := Rand(uSpawn, SpawnIntervalMin, SpawnIntervalMax);
      nextCoin := Rand(uCoin, CoinSpawnMin, CoinSpawnMax);
      score := 0;
      scoreAcc := 0.0;
      highscore := storedHighscore;
      running, paused, gameOver, lastTime := false, false, false, 0.0;
    }

    /** moveLeft: one lane to the left, nothing at the leftmost lane. */
    method MoveLeft()
      requires Valid()
      modifies this`playerLane, this`player
      ensures Valid()
      ensures old(playerLane) > 0 ==> playerLane == old(playerLane) - 1
      ensures old(playerLane) == 0 ==> unchanged(this)
    {
      if playerLane > 0 {
        playerLane := playerLane - 1;
        player := player.(x := LaneXForSprite(playerLane, player.w));
      }
    }

    /** moveRight: one lane to the right, nothing at the rightmost lane. */
    method MoveRight()
      requires Valid()
      modifies this`playerLane, this`player
      ensures Valid()
      ensures old(playerLane) < Lanes - 1 ==> playerLane == old(playerLane) + 1
      ensures old(playerLane) == Lanes - 1 ==> unchanged(this)
    {
      if playerLane < Lanes - 1 {
        playerLane := playerLane + 1;
        player := player.(x := LaneXForSprite(playerLane, player.w));
      }
    }

    /** togglePause: flips the flag whatever the phase, game over included. */
    method TogglePause()
      modifies this`paused
      ensures paused == !old(paused)
    {
      paused := !paused;
    }

    /** pause(val): sets the flag; calling it twice with one value is the
        same as calling it once. */
    method Pause(val: bool)
      modifies this`paused
      ensures paused == val
    {
      paused := val;
    }

    /** spawnEnemy: skipped when MaxEnemies enemies are live, otherwise one
        enemy in a random lane above the field at the current enemy speed. */
    method SpawnEnemy(uLane: real, uJitter: real)
      requires ListValid(entities) && IsUnit(uLane) && IsUnit(uJitter)
      modifies this`entities
      ensures ListValid(entities)
      ensures entities == AfterEnemySpawn(old(entities), score, uLane, uJitter)
    {
      if EnemyCount(entities) >= MaxEnemies {
        return;
      }
      var lane := RandInt(uLane, 0, Lanes - 1);
      var w, h := EnemyW, EnemyH;
      var x := LaneXForSprite(lane, w);
      var y := -h - Rand(uJitter, 0.0, EnemyJitter);
      var ent := Entity(x, y, w, h, Enemy, EnemySpeed(score), false, lane);
      assert ent == NewEnemy(score, uLane, uJitter);
      entities := entities + [ent];
    }

    /** spawnCoin: always one coin in a random lane above the field. */
    method SpawnCoin(uLane: real)
      requires ListValid(entities) && IsUnit(uLane)
      modifies this`entities
      ensures ListValid(entities)
      ensures entities == old(entities) + [NewCoin(score, uLane)]
    {
      var lane := RandInt(uLane, 0, Lanes - 1);
      var size := CoinSize;
      var x := LaneXForSprite(lane, size);
      var y := -size - CoinGap;
      var ent := Entity(x, y, size, size, Coin, EnemySpeed(score) * CoinSpeedFactor, false, lane);
      assert ent == NewCoin(score, uLane);
      EnemyCountAppend(entities, ent);
      entities := entities + [ent];
    }

    /** endGame: the first call ends the run and lifts the high score to the
        score if it is higher; later calls change nothing. */
    method EndGame()
      modifies this`gameOver, this`running, this`highscore
      ensures old(gameOver) ==> unchanged(this)
      ensures !old(gameOver) ==> gameOver && !running && highscore == HighAfter(old(highscore), score)
      ensures highscore >= old(highscore)
    {
      if gameOver {
        return;
      }
      gameOver, running := true, false;
      if score > highscore {
        highscore := score;
      }
    }

    /** update(delta): one frame as Step describes it; a no-op while paused
        or over. */
    method Update(delta: real, d: Draws)
      requires Valid() && d.Valid()
      modifies this`spawnTimer, this`nextSpawn, this`nextCoin, this`entities, this`score,
               this`scoreAcc, this`gameOver, this`running, this`highscore
      ensures Valid()
      ensures Snap() == Step(player, paused, old(Snap()), delta, d)
      ensures score >= old(score) && highscore >= old(highscore)
    {
      ghost var f := Snap();
      StepKeepsValid(player, paused, f, delta, d);
      StepScoreNeverDrops(player, paused, f, delta, d);
      StepHighscoreRises(player, paused, f, delta, d);
      Tick(delta, d);
    }

    /** The body of update, phase by phase. */
    method Tick(delta: real, d: Draws)
      requires ListValid(entities) && d.Valid()
      modifies this`spawnTimer, this`nextSpawn, this`nextCoin, this`entities, this`score,
               this`scoreAcc, this`gameOver, this`running, this`highscore
      ensures Snap() == Step(player, paused, old(Snap()), delta, d)
    {
      if paused || gameOver {
        return;
      }
      SpawnAndMove(delta, d);
      CollideAndScore(delta);
    }

    /** The first half of update: the spawn timers, then movement and the
        filter. */
    method SpawnAndMove(delta: real, d: Draws)
      requires ListValid(entities) && d.Valid()
      modifies this`spawnTimer, this`nextSpawn, this`nextCoin, this`entities
      ensures Snap() == MovePhase(SpawnPhase(old(Snap()), delta, d), delta)
    {
      ghost var f := Snap();
      RunSpawnTimers(delta, d);
      assert Snap() == SpawnPhase(f, delta, d);
      // every entity falls at its own speed, then the filter
      var es := Fall(entities, delta);
      entities := Prune(es);
    }

    /** The second half of update: the collision pass, then, unless it ended
        the game, passive score with a fractional carry. */
    method CollideAndScore(delta: real)
      requires !gameOver
      modifies this`entities, this`score, this`scoreAcc, this`gameOver, this`running,
               this`highscore
      ensures var c := CollisionPhase(player, old(Snap()));
              Snap() == if c.gameOver then c else ScorePhase(c, delta)
    {
      CheckCollisions();
      if gameOver {
        return;
      }
      scoreAcc := scoreAcc + delta * (ScorePerSecond / 1000.0);
      if scoreAcc >= 1.0 {
        var add := scoreAcc.Floor;
        score := score + add;
        scoreAcc := scoreAcc - add as real;
      }
    }

    /** The two timer blocks at the start of update. */
    method RunSpawnTimers(delta: real, d: Draws)
      requires ListValid(entities) && d.Valid()
      modifies this`spawnTimer, this`nextSpawn, this`nextCoin, this`entities
      ensures Snap() == SpawnPhase(old(Snap()), delta, d)
    {
      RunEnemyTimer(delta, d);
      RunCoinTimer(delta, d);
    }

    /** The enemy timer counts up by delta; once it reaches nextSpawn,
        spawnEnemy runs, the timer restarts at zero and a new interval is
        drawn. */
    method RunEnemyTimer(delta: real, d: Draws)
      requires ListValid(entities) && d.Valid()
      modifies this`spawnTimer, this`nextSpawn, this`entities
      ensures ListValid(entities)
      ensures var due := old(spawnTimer) + delta >= old(nextSpawn);
              && spawnTimer == (if due then 0.0 else old(spawnTimer) + delta)
              && nextSpawn == (if due then Rand(d.spawnInterval, SpawnIntervalMin, SpawnIntervalMax)
                               else old(nextSpawn))
              && entities == (if due then AfterEnemySpawn(old(entities), score, d.enemyLane, d.enemyJitter)
                              else old(entities))
    {
      spawnTimer := spawnTimer + delta;
      if spawnTimer >= nextSpawn {
        SpawnEnemy(d.enemyLane, d.enemyJitter);
        spawnTimer := 0.0;
        nextSpawn := Rand(d.spawnInterval, SpawnIntervalMin, SpawnIntervalMax);
      }
    }

    /** The coin timer counts down by delta; at zero or below, spawnCoin runs
        and a new countdown is drawn. */
    method RunCoinTimer(delta: real, d: Draws)
      requires ListValid(entities) && d.Valid()
      modifies this`nextCoin, this`entities
      ensures ListValid(entities)
      ensures var due := old(nextCoin) - delta <= 0.0;
              && nextCoin == (if due then Rand(d.coinInterval, CoinSpawnMin, CoinSpawnMax)
                              else old(nextCoin) - delta)
              && entities == (if due then old(entities) + [NewCoin(score, d.coinLane)]
                              else old(entities))
    {
      nextCoin := nextCoin - delta;
      if nextCoin <= 0.0 {
        SpawnCoin(d.coinLane);
        nextCoin := Rand(d.coinInterval, CoinSpawnMin, CoinSpawnMax);
      }
    }

    /** The collision loop of update, in list order: an overlapping coin is
        marked dead and paid, an overlapping enemy calls endGame and stops
        the loop. */
    method CheckCollisions()
      requires !gameOver
      modifies this`entities, this`score, this`gameOver, this`running, this`highscore
      ensures Snap() == CollisionPhase(player, old(Snap()))
    {
      var k := CollectCoins();
      if k < |entities| {
        EndGame();
      }
    }

    /** The collision loop up to the first overlapping enemy, whose index it
        returns (|entities| when there is none): every overlapping coin
        before it is marked dead and paid. */
    method CollectCoins() returns (k: nat)
      modifies this`entities, this`score
      ensures k == CrashIndex(player, old(entities))
      ensures entities == Collect(player, old(entities), k)
      ensures score == old(score) + CoinValue * CoinsHit(player, old(entities), k)
    {
      ghost var live := entities;
      CrashIndexFirst(player, live);
      assert Collect(player, live, 0) == live;
      k := 0;
      while k < |entities|
        invariant k <= |live| == |entities|
        invariant k <= CrashIndex(player, live)
        invariant entities == Collect(player, live, k)
        invariant score == old(score) + CoinValue * CoinsHit(player, live, k)
      {
        var e := entities[k];
        CollectNext(player, live, k);
        if (e.kind == Enemy || e.kind == Coin) && AabbCollide(player, e) {
          if e.kind == Enemy {
            return;
          }
          if e.kind == Coin {
            entities := entities[k := e.(dead := true)];
            score := score + CoinValue;
          }
        }
        k := k + 1;
      }
    }

    /** The loop of update that moves every entity by its speed times delta
        milliseconds. */
    static method Fall(es: seq<Entity>, delta: real) returns (r: seq<Entity>)
      ensures r == Advance(es, delta)
    {
      AdvanceAt(es, delta);
      r := es;
      var i := 0;
      while i < |r|
        invariant 0 <= i <= |r| == |es|
        invariant forall j :: 0 <= j < i ==> r[j] == Moved(es[j], delta)
        invariant forall j :: i <= j < |r| ==> r[j] == es[j]
      {
        r := r[i := r[i].(y := r[i].y + r[i].vy * (delta / 1000.0))];
        i := i + 1;
      }
    }

    /** restart: the list emptied, score and accumulator zeroed, game over
        cleared, the player back in lane 1, both spawn timers re-rolled, and
        the frame loop started again, whose first frame has a zero delta and
        so changes nothing. The pause flag is left as it was. */
    method Restart(now: real, uSpawn: real, uCoin: real, d: Draws)
      requires Valid() && IsUnit(uSpawn) && IsUnit(uCoin) && d.Valid()
      modifies this`playerLane, this`player, this`lastTime, this`spawnTimer, this`nextSpawn,
               this`nextCoin, this`entities, this`score, this`scoreAcc, this`gameOver,
               this`running, this`highscore
      ensures Valid()
      ensures Snap() == Frame(0.0, Rand(uSpawn, SpawnIntervalMin, SpawnIntervalMax),
                              Rand(uCoin, CoinSpawnMin, CoinSpawnMax), [], 0, 0.0,
                              false, true, old(highscore))
      ensures playerLane == 1 && lastTime == now
    {
      ResetRun(uSpawn, uCoin);
      running := true;
      lastTime := now;
      ghost var f := Snap();
      FreshFrameIsQuiet(player, paused, f, d);
      Loop(lastTime, d);
      assert Snap() == f;
    }

    /** start: the run begins and the frame loop is entered at `now`. That
        first frame has a zero delta; on a fresh game (nothing on the road,
        the enemy timer below its interval, the coin timer above zero) it
        changes nothing but the running flag. */
    method Start(now: real, d: Draws)
      requires Valid() && d.Valid()
      modifies this`lastTime, this`spawnTimer, this`nextSpawn, this`nextCoin, this`entities,
               this`score, this`scoreAcc, this`gameOver, this`running, this`highscore
      ensures Valid()
      ensures lastTime == now
      ensures Snap() == Step(player, paused, old(Snap()).(running := true), 0.0, d)
      ensures old(entities) == [] && old(scoreAcc) == 0.0 && !old(gameOver) &&
              old(spawnTimer) < old(nextSpawn) && old(nextCoin) > 0.0 ==>
                Snap() == old(Snap()).(running := true)
    {
      running := true;
      lastTime := now;
      ghost var f := Snap();
      if f.entities == [] && f.scoreAcc == 0.0 && !f.gameOver &&
         f.spawnTimer < f.nextSpawn && f.nextCoin > 0.0 {
        FreshFrameIsQuiet(player, paused, f, d);
      }
      assert FrameDelta(now, now) == 0.0;
      Loop(lastTime, d);
    }

    /** The resets at the start of restart. */
    method ResetRun(uSpawn: real, uCoin: real)
      requires Valid() && IsUnit(uSpawn) && IsUnit(uCoin)
      modifies this`playerLane, this`player, this`spawnTimer, this`nextSpawn,
               this`nextCoin, this`entities, this`score, this`scoreAcc, this`gameOver
      ensures Valid()
      ensures Snap() == Frame(0.0, Rand(uSpawn, SpawnIntervalMin, SpawnIntervalMax),
                              Rand(uCoin, CoinSpawnMin, CoinSpawnMax), [], 0, 0.0,
                              false, old(running), old(highscore))
      ensures playerLane == 1
    {
      entities := [];
      score := 0;
      scoreAcc := 0.0;
      spawnTimer := 0.0;
      nextSpawn := Rand(uSpawn, SpawnIntervalMin, SpawnIntervalMax);
      nextCoin := Rand(uCoin, CoinSpawnMin, CoinSpawnMax);
      gameOver := false;
      playerLane := 1;
      player := player.(x := LaneXForSprite(playerLane, player.w));
    }

    /** loop(now): one animation frame. Nothing happens unless running;
        otherwise lastTime moves to now and, unless paused or over, update
        runs with the clamped delta. */
    method Loop(now: real, d: Draws)
      requires Valid() && d.Valid()
      modifies this`lastTime, this`spawnTimer, this`nextSpawn, this`nextCoin, this`entities,
               this`score, this`scoreAcc, this`gameOver, this`running, this`highscore
      ensures Valid()
      ensures !old(running) ==> unchanged(this)
      ensures old(running) ==> lastTime == now
      ensures old(running) ==> Snap() == Step(player, paused, old(Snap()), FrameDelta(now, old(lastTime)), d)
    {
      if !running {
        return;
      }
      var delta := FrameDelta(now, lastTime);
      lastTime := now;
      if !paused && !gameOver {
        Update(delta, d);
      }
    }
  }
}

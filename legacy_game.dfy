/** The module-level state of game.js as an object: the variables that
    update, startGame, endGame and the lane handlers change. Drawing, the
    countdown, asset loading and localStorage are not modelled; the canvas
    height, read from the page, is fixed when the object is made, and the
    Math.random() values of a frame are parameters. */
module LegacyGame {
  import DodgerRules
  import opened LegacyRules

  class Game {
    const canvasHeight: real
    var gameRunning: bool
    var score: int
    var highScore: int
    var playerLane: int
    var speed: real
    var entities: seq<Item>
    var spawnTimer: real

    /** The player is in a lane, the score is non-negative, the speed has
        not dropped below its start value and every item is in a lane. */
    ghost predicate Valid()
      reads this
    {
      FirstLane <= playerLane <= LastLane && WorldValid(Snap())
    }

    /** The variables that update writes, as one value. */
    function Snap(): World
      reads this`gameRunning, this`score, this`highScore, this`speed, this`entities,
            this`spawnTimer
    {
      World(gameRunning, score, highScore, speed, entities, spawnTimer)
    }

    /** The initial values of the module variables, with the stored high
        score. */
    constructor (height: real, storedHighScore: int)
      ensures Valid() && canvasHeight == height
      ensures Snap() == World(false, 0, storedHighScore, StartSpeed, [], 0.0)
      ensures playerLane == StartLane
    {
      canvasHeight := height;
      gameRunning := false;
      score := 0;
      highScore := storedHighScore;
      playerLane := StartLane;
      speed := StartSpeed;
      entities := [];
      spawnTimer := 0.0;
    }

    /** The ArrowLeft key and the left button: one lane left unless in lane 0,
        whether or not the game is running. */
    method MoveLeft()
      requires Valid()
      modifies this`playerLane
      ensures Valid()
      ensures old(playerLane) > FirstLane ==> playerLane == old(playerLane) - 1
      ensures old(playerLane) == FirstLane ==> playerLane == FirstLane
    {
      if playerLane > FirstLane {
        playerLane := playerLane - 1;
      }
    }

    /** The ArrowRight key and the right button: one lane right unless in
        lane 3. */
    method MoveRight()
      requires Valid()
      modifies this`playerLane
      ensures Valid()
      ensures old(playerLane) < LastLane ==> playerLane == old(playerLane) + 1
      ensures old(playerLane) == LastLane ==> playerLane == LastLane
    {
      if playerLane < LastLane {
        playerLane := playerLane + 1;
      }
    }

    /** startGame: a fresh run; the spawn timer and the high score are kept. */
    method StartGame()
      modifies this`score, this`speed, this`entities, this`playerLane, this`gameRunning
      ensures Valid()
      ensures Snap() == World(true, 0, old(highScore), StartSpeed, [], old(spawnTimer))
      ensures playerLane == StartLane
    {
      score := 0;
      speed := StartSpeed;
      entities := [];
      playerLane := StartLane;
      gameRunning := true;
    }

    /** endGame: the run stops and the high score becomes the score if that
        is higher. Calling it again with the same score changes nothing. */
    method EndGame()
      modifies this`gameRunning, this`highScore
      ensures !gameRunning && highScore == DodgerRules.HighAfter(old(highScore), score)
    {
      gameRunning := false;
      if score > highScore {
        highScore := score;
      }
    }

    /** update: one animation frame, LegacyTick on the module variables. */
    method Update(d: SpawnDraws)
      requires Valid() && d.Valid()
      modifies this`gameRunning, this`score, this`highScore, this`speed, this`entities,
               this`spawnTimer
      ensures Valid()
      ensures Snap() == LegacyTick(old(Snap()), playerLane, canvasHeight, d)
    {
      TickKeepsValid(Snap(), playerLane, canvasHeight, d);
      Frame(d);
    }

    /** The body of update, phase by phase. */
    method Frame(d: SpawnDraws)
      requires d.Valid()
      modifies this`gameRunning, this`score, this`highScore, this`speed, this`entities,
               this`spawnTimer
      ensures Snap() == LegacyTick(old(Snap()), playerLane, canvasHeight, d)
    {
      Drift();
      if gameRunning {
        Spawn(d);
        Count();
        CollisionPass();
      }
    }

    /** The moving forEach and the filter, which run in every frame. */
    method Drift()
      modifies this`entities
      ensures Snap() == DriftPhase(old(Snap()), canvasHeight)
    {
      var moved := FallAll(entities, speed);
      entities := OnScreen(moved, canvasHeight);
    }

    /** The spawn timer of a running frame. */
    method Spawn(d: SpawnDraws)
      requires d.Valid()
      modifies this`entities, this`spawnTimer
      ensures Snap() == SpawnPhase(old(Snap()), d)
    {
      spawnTimer := spawnTimer - 1.0;
      if spawnTimer <= 0.0 {
        var kind := if d.kind < CoinChance then Coin else Enemy;
        entities := entities + [Item(kind, (d.lane * 4.0).Floor, SpawnY)];
        spawnTimer := SpawnDelayBase + d.delay * SpawnDelaySpread;
      }
    }

    /** The frame's point and the speed step at every multiple of 500. */
    method Count()
      modifies this`score, this`speed
      ensures Snap() == CountPhase(old(Snap()))
    {
      score := score + 1;
      if score % SpeedEvery == 0 {
        speed := speed + SpeedStep;
      }
    }

    /** The forEach that adds the speed to every item's y. */
    static method FallAll(es: seq<Item>, speed: real) returns (r: seq<Item>)
      ensures r == Fallen(es, speed)
    {
      FallenAt(es, speed);
      r := es;
      var i := 0;
      while i < |r|
        invariant 0 <= i <= |r| == |es|
        invariant forall j :: 0 <= j < i ==> r[j] == es[j].(y := es[j].y + speed)
        invariant forall j :: i <= j < |r| ==> r[j] == es[j]
      {
        r := r[i := r[i].(y := r[i].y + speed)];
        i := i + 1;
      }
    }

    /** The collision forEach: every item is handed to Collide, and an enemy
        in the hit zone does not stop the loop. */
    method CollisionPass()
      modifies this`entities, this`score, this`gameRunning, this`highScore
      ensures Snap() == CollidePhase(old(Snap()), playerLane, canvasHeight)
    {
      ghost var es := entities;
      ghost var parked := Park(es, playerLane, canvasHeight);
      ghost var t0 := Tally(score, highScore, gameRunning);
      var i := 0;
      while i < |entities|
        invariant i <= |es| == |entities|
        invariant forall j :: 0 <= j < i ==> entities[j] == parked[j]
        invariant forall j :: i <= j < |es| ==> entities[j] == es[j]
        invariant Tally(score, highScore, gameRunning) == Sweep(t0, playerLane, es[..i])
      {
        assert es[..i + 1][..i] == es[..i];
        Collide(i);
        i := i + 1;
      }
      assert es[..i] == es;
    }

    /** The body of the collision forEach for the item at index i: an enemy
        in the hit zone runs endGame; a coin in the hit zone adds 100 and is
        moved to 100 pixels below the canvas. */
    method Collide(i: nat)
      requires i < |entities|
      modifies this`entities, this`score, this`gameRunning, this`highScore
      ensures Tally(score, highScore, gameRunning) ==
              Visit(old(Tally(score, highScore, gameRunning)), playerLane, old(entities[i]))
      ensures entities == old(entities)[i := Park(old(entities), playerLane, canvasHeight)[i]]
    {
      var ent := entities[i];
      if ent.lane == playerLane && ent.y > HitTop && ent.y < HitBottom {
        if ent.kind == Enemy {
          EndGame();
        } else if ent.kind == Coin {
          score := score + CoinBonus;
          entities := entities[i := ent.(y := canvasHeight + ParkMargin)];
        }
      }
    }
  }
}

/** The rules of the older, frame-counted car dodger in game.js, as functions
    on values: the falling items, the off-screen filter, spawning, the
    per-frame score and speed, and the collision pass with its hit zone. One
    frame of update is LegacyTick, built from the four phases of its body. */
module LegacyRules {
  import DodgerRules

  // ---------------------------------------------------------------------
  // Constants written into game.js
  // ---------------------------------------------------------------------

  const FirstLane: int := 0
  const LastLane: int := 3
  const StartLane: int := 1
  const StartSpeed: real := 2.0
  const SpeedStep: real := 0.5
  const SpeedEvery: int := 500
  const CoinChance: real := 0.15
  const SpawnDelayBase: real := 50.0
  const SpawnDelaySpread: real := 30.0
  const SpawnY: real := -50.0
  const KeepMargin: real := 50.0      // kept while y < canvas.height + 50
  const HitTop: real := 400.0         // a hit needs 400 < y < 450
  const HitBottom: real := 450.0
  const CoinBonus: int := 100
  const ParkMargin: real := 100.0     // a collected coin moves to canvas.height + 100

  // ---------------------------------------------------------------------
  // Items and draws
  // ---------------------------------------------------------------------

  datatype ItemType = Coin | Enemy

  /** An entry of `entities`: its type, its lane and its vertical position. */
  datatype Item = Item(kind: ItemType, lane: int, y: real)

  predicate InLanes(es: seq<Item>)
  {
    forall e | e in es :: FirstLane <= e.lane <= LastLane
  }

  /** The three Math.random() values a spawn consumes: the type, the lane and
      the next delay. */
  datatype SpawnDraws = SpawnDraws(kind: real, lane: real, delay: real)
  {
    predicate Valid()
    {
      DodgerRules.IsUnit(kind) && DodgerRules.IsUnit(lane) && DodgerRules.IsUnit(delay)
    }
  }

  /** The item update pushes: a coin with probability 0.15, otherwise an
      enemy, in lane floor(u * 4), just above the top of the canvas. */
  function NewItem(uKind: real, uLane: real): (e: Item)
    requires DodgerRules.IsUnit(uLane)
    ensures FirstLane <= e.lane <= LastLane && e.y == SpawnY
    ensures e.kind == Coin <==> uKind < CoinChance
  {
    Item(if uKind < CoinChance then Coin else Enemy, (uLane * 4.0).Floor, SpawnY)
  }

  /** The frame count until the next spawn: 50 + u * 30. */
  function SpawnDelay(u: real): (r: real)
    requires DodgerRules.IsUnit(u)
    ensures SpawnDelayBase <= r < SpawnDelayBase + SpawnDelaySpread
  {
    SpawnDelayBase + u * SpawnDelaySpread
  }

  // ---------------------------------------------------------------------
  // Falling and the off-screen filter
  // ---------------------------------------------------------------------

  /** Every item moved down by `speed` pixels. */
  function Fallen(es: seq<Item>, speed: real): (r: seq<Item>)
    ensures |r| == |es|
  {
    if es == [] then []
    else Fallen(es[..|es| - 1], speed) + [es[|es| - 1].(y := es[|es| - 1].y + speed)]
  }

  /** Falling moves each item on its own and touches nothing but y. */
  lemma {:induction false} FallenAt(es: seq<Item>, speed: real)
    ensures forall i :: 0 <= i < |es| ==> Fallen(es, speed)[i] == es[i].(y := es[i].y + speed)
  {
    if es != [] {
      FallenAt(es[..|es| - 1], speed);
    }
  }

  /** The filter of update: items still above canvas.height + 50. */
  function OnScreen(es: seq<Item>, height: real): (r: seq<Item>)
    ensures |r| <= |es|
  {
    if es == [] then []
    else
      var front := OnScreen(es[..|es| - 1], height);
      if es[|es| - 1].y < height + KeepMargin then front + [es[|es| - 1]] else front
  }

  /** The filter keeps exactly the items above the line. */
  lemma {:induction false} OnScreenKeeps(es: seq<Item>, height: real)
    ensures forall e :: e in OnScreen(es, height) <==> e in es && e.y < height + KeepMargin
  {
    if es != [] {
      OnScreenKeeps(es[..|es| - 1], height);
      assert es == es[..|es| - 1] + [es[|es| - 1]];
    }
  }

  /** The filter keeps the items in their order: filtering a list made of
      two parts is filtering each part and joining the results. Order
      matters here, because the collision pass visits items in list order. */
  lemma {:induction false} OnScreenConcat(a: seq<Item>, b: seq<Item>, height: real)
    ensures OnScreen(a + b, height) == OnScreen(a, height) + OnScreen(b, height)
  {
    if b == [] {
      assert a + b == a;
    } else {
      var init := b[..|b| - 1];
      OnScreenConcat(a, init, height);
      assert (a + b)[..|a + b| - 1] == a + init;
      assert (a + b)[|a + b| - 1] == b[|b| - 1];
    }
  }

  /** Falling and filtering keep every item in a lane. */
  lemma DriftKeepsLanes(es: seq<Item>, speed: real, height: real)
    requires InLanes(es)
    ensures InLanes(OnScreen(Fallen(es, speed), height))
  {
    var f := Fallen(es, speed);
    FallenAt(es, speed);
    OnScreenKeeps(f, height);
    forall e | e in f ensures FirstLane <= e.lane <= LastLane {
      var i :| 0 <= i < |f| && f[i] == e;
      assert es[i] in es;
    }
  }

  // ---------------------------------------------------------------------
  // Speed
  // ---------------------------------------------------------------------

  /** The speed after a running frame whose incremented score is `score`. */
  function SpeedAfter(speed: real, score: int): (r: real)
  {
    if score % SpeedEvery == 0 then speed + SpeedStep else speed
  }

  /** The speed never drops, and it rises, by exactly one step, precisely
      when the incremented score is a multiple of 500. */
  lemma SpeedSteps(speed: real, score: int)
    ensures SpeedAfter(speed, score) >= speed
    ensures SpeedAfter(speed, score) > speed <==> score % SpeedEvery == 0
    ensures SpeedAfter(speed, score) > speed ==> SpeedAfter(speed, score) == speed + SpeedStep
  {
  }

  // ---------------------------------------------------------------------
  // Collisions
  // ---------------------------------------------------------------------

  /** The collision test: the player's lane, strictly between y 400 and 450. */
  predicate InHitZone(lane: int, e: Item)
  {
    e.lane == lane && e.y > HitTop && e.y < HitBottom
  }

  predicate Crashes(lane: int, e: Item) { e.kind == Enemy && InHitZone(lane, e) }

  predicate Collects(lane: int, e: Item) { e.kind == Coin && InHitZone(lane, e) }

  /** The list after the collision forEach: every coin in the hit zone is
      moved to canvas.height + 100; everything else is left alone. */
  function Park(es: seq<Item>, lane: int, height: real): (r: seq<Item>)
    ensures |r| == |es|
  {
    seq(|es|, i requires 0 <= i < |es| =>
      if Collects(lane, es[i]) then es[i].(y := height + ParkMargin) else es[i])
  }

  /** The variables the collision pass changes through `score += 100` and
      endGame. */
  datatype Tally = Tally(score: int, high: int, running: bool)

  /** One step of the forEach: an enemy in the hit zone runs endGame, a coin
      in the hit zone adds 100. */
  function Visit(t: Tally, lane: int, e: Item): Tally
  {
    if Crashes(lane, e) then
      Tally(t.score, DodgerRules.HighAfter(t.high, t.score), false)
    else if Collects(lane, e) then t.(score := t.score + CoinBonus)
    else t
  }

  /** The forEach over the whole list; it does not stop at an enemy. */
  function Sweep(t: Tally, lane: int, es: seq<Item>): Tally
  {
    if es == [] then t else Visit(Sweep(t, lane, es[..|es| - 1]), lane, es[|es| - 1])
  }

  /** The number of coins in the hit zone. */
  function CoinsInZone(lane: int, es: seq<Item>): (n: nat)
    ensures n <= |es|
  {
    if es == [] then 0
    else CoinsInZone(lane, es[..|es| - 1]) + (if Collects(lane, es[|es| - 1]) then 1 else 0)
  }

  /** The number of enemies in the hit zone. */
  function EnemiesInZone(lane: int, es: seq<Item>): (n: nat)
    ensures n <= |es|
  {
    if es == [] then 0
    else EnemiesInZone(lane, es[..|es| - 1]) + (if Crashes(lane, es[|es| - 1]) then 1 else 0)
  }

  /** Every coin in the hit zone pays 100, those after an enemy included; the
      game keeps running exactly when no enemy was in the hit zone; the high
      score never drops, is at least the score the pass started with once an
      enemy was hit, and never exceeds both the old high score and the final
      score. */
  lemma {:induction false} SweepFacts(t: Tally, lane: int, es: seq<Item>)
    ensures Sweep(t, lane, es).score == t.score + CoinBonus * CoinsInZone(lane, es)
    ensures Sweep(t, lane, es).running <==> t.running && EnemiesInZone(lane, es) == 0
    ensures Sweep(t, lane, es).high >= t.high
    ensures EnemiesInZone(lane, es) > 0 ==> Sweep(t, lane, es).high >= t.score
    ensures Sweep(t, lane, es).high <= t.high || Sweep(t, lane, es).high <= Sweep(t, lane, es).score
  {
    if es != [] {
      SweepFacts(t, lane, es[..|es| - 1]);
    }
  }

  /** A list with nothing in the hit zone leaves the tally alone. */
  lemma {:induction false} SweepMisses(t: Tally, lane: int, es: seq<Item>)
    requires forall e | e in es :: !InHitZone(lane, e)
    ensures Sweep(t, lane, es) == t
  {
    if es != [] {
      assert es[|es| - 1] in es;
      assert forall e | e in es[..|es| - 1] :: e in es;
      SweepMisses(t, lane, es[..|es| - 1]);
    }
  }

  /** endGame run again with the same score leaves the high score where the
      first call put it. */
  lemma HighAfterSettles(high: int, score: int)
    ensures DodgerRules.HighAfter(DodgerRules.HighAfter(high, score), score) ==
            DodgerRules.HighAfter(high, score)
  {
  }

  /** In the crashing frame an enemy followed by a coin in the hit zone still
      pays the coin: the run is over, the score has the coin's 100, and the
      high score recorded by endGame does not. */
  lemma CoinAfterCrashStillPays(lane: int, y: real, score: int, high: int)
    requires HitTop < y < HitBottom && score > high
    ensures var r := Sweep(Tally(score, high, true), lane, [Item(Enemy, lane, y), Item(Coin, lane, y)]);
            !r.running && r.score == score + CoinBonus && r.high == score
  {
    var t := Tally(score, high, true);
    var es := [Item(Enemy, lane, y), Item(Coin, lane, y)];
    assert es[..1] == [Item(Enemy, lane, y)];
    assert es[..1][..0] == [];
    assert Sweep(t, lane, es[..1]) == Visit(t, lane, es[0]);
  }

  /** A collected coin is parked below the keep line, so the next frame's
      filter drops it and it is never collected twice. */
  lemma ParkedCoinsLeave(es: seq<Item>, lane: int, height: real, speed: real)
    requires speed >= 0.0
    ensures forall i :: 0 <= i < |es| && Collects(lane, es[i]) ==>
              Park(es, lane, height)[i].y >= height + KeepMargin &&
              Park(es, lane, height)[i].(y := Park(es, lane, height)[i].y + speed)
                !in OnScreen(Fallen(Park(es, lane, height), speed), height)
  {
    OnScreenKeeps(Fallen(Park(es, lane, height), speed), height);
  }

  /** Parking changes only y, so items stay in their lanes. */
  lemma ParkKeepsLanes(es: seq<Item>, lane: int, height: real)
    requires InLanes(es)
    ensures InLanes(Park(es, lane, height))
  {
    var r := Park(es, lane, height);
    forall e | e in r ensures FirstLane <= e.lane <= LastLane {
      var i :| 0 <= i < |r| && r[i] == e;
      assert es[i] in es;
    }
  }

  // ---------------------------------------------------------------------
  // One frame
  // ---------------------------------------------------------------------

  /** The module variables that update writes. */
  datatype World = World(running: bool, score: int, high: int, speed: real,
                         entities: seq<Item>, spawnTimer: real)

  /** The forEach that moves every item, then the filter; this happens
      whether or not the game is running. */
  function DriftPhase(w: World, height: real): World
  {
    w.(entities := OnScreen(Fallen(w.entities, w.speed), height))
  }

  /** The spawn timer counts down one frame; at zero or below one item is
      pushed and a new delay drawn. */
  function SpawnPhase(w: World, d: SpawnDraws): World
    requires d.Valid()
  {
    var timer := w.spawnTimer - 1.0;
    if timer <= 0.0 then
      w.(entities := w.entities + [NewItem(d.kind, d.lane)], spawnTimer := SpawnDelay(d.delay))
    else w.(spawnTimer := timer)
  }

  /** One point per frame, and the speed step at every multiple of 500. */
  function CountPhase(w: World): World
  {
    w.(score := w.score + 1, speed := SpeedAfter(w.speed, w.score + 1))
  }

  /** The collision forEach. */
  function CollidePhase(w: World, lane: int, height: real): World
  {
    var t := Sweep(Tally(w.score, w.high, w.running), lane, w.entities);
    w.(entities := Park(w.entities, lane, height), score := t.score, high := t.high,
       running := t.running)
  }

  /** One call of update with the player in `lane` on a canvas `height`
      pixels tall. */
  function LegacyTick(w: World, lane: int, height: real, d: SpawnDraws): World
    requires d.Valid()
  {
    var drifted := DriftPhase(w, height);
    if w.running then CollidePhase(CountPhase(SpawnPhase(drifted, d)), lane, height)
    else drifted
  }

  /** What the game invariant asks of these variables. */
  predicate WorldValid(w: World)
  {
    w.score >= 0 && w.speed >= StartSpeed && InLanes(w.entities)
  }

  // ---------------------------------------------------------------------
  // What one frame guarantees
  // ---------------------------------------------------------------------

  /** The entity list the collision pass walks in a running frame. */
  function Walked(w: World, height: real, d: SpawnDraws): seq<Item>
    requires d.Valid()
  {
    SpawnPhase(DriftPhase(w, height), d).entities
  }

  /** update keeps every item in a lane, the score non-negative and the speed
      at least its starting value. */
  lemma TickKeepsValid(w: World, lane: int, height: real, d: SpawnDraws)
    requires d.Valid() && WorldValid(w)
    ensures WorldValid(LegacyTick(w, lane, height, d))
  {
    var drifted := DriftPhase(w, height);
    DriftKeepsLanes(w.entities, w.speed, height);
    if w.running {
      var counted := CountPhase(SpawnPhase(drifted, d));
      SpeedSteps(w.speed, w.score + 1);
      assert WorldValid(counted);
      CollideKeepsValid(counted, lane, height);
    }
  }

  /** The collision pass keeps the score non-negative and every item in a
      lane, and does not touch the speed. */
  lemma CollideKeepsValid(w: World, lane: int, height: real)
    requires WorldValid(w)
    ensures WorldValid(CollidePhase(w, lane, height))
  {
    SweepFacts(Tally(w.score, w.high, w.running), lane, w.entities);
    ParkKeepsLanes(w.entities, lane, height);
  }

  /** A frame while not running only moves and filters the items. */
  lemma IdleTick(w: World, lane: int, height: real, d: SpawnDraws)
    requires d.Valid() && !w.running
    ensures var r := LegacyTick(w, lane, height, d);
            r.score == w.score && r.high == w.high && r.speed == w.speed &&
            r.spawnTimer == w.spawnTimer && !r.running &&
            forall e :: e in r.entities <==> e in Fallen(w.entities, w.speed) && e.y < height + KeepMargin
  {
    OnScreenKeeps(Fallen(w.entities, w.speed), height);
  }

  /** A running frame: one point plus 100 per coin in the hit zone, whether
      or not an enemy was hit first; the game stops exactly when an enemy is
      in the hit zone; the high score never drops. */
  lemma RunningTick(w: World, lane: int, height: real, d: SpawnDraws)
    requires d.Valid() && w.running
    ensures var r := LegacyTick(w, lane, height, d);
            var es := Walked(w, height, d);
            && r.score == w.score + 1 + CoinBonus * CoinsInZone(lane, es)
            && (r.running <==> EnemiesInZone(lane, es) == 0)
            && r.high >= w.high
            && (!r.running ==> r.high >= w.score + 1)
  {
    SweepFacts(Tally(w.score + 1, w.high, true), lane, Walked(w, height, d));
  }

  /** The spawn timer of a running frame: when the decremented timer reaches
      zero exactly one item is appended, in a lane, at y = -50, and the timer
      restarts in [50, 80); otherwise nothing is appended and the timer has
      dropped by one. */
  lemma TickSpawns(w: World, lane: int, height: real, d: SpawnDraws)
    requires d.Valid() && w.running
    ensures var r := LegacyTick(w, lane, height, d);
            var drifted := DriftPhase(w, height).entities;
            if w.spawnTimer - 1.0 <= 0.0 then
              |r.entities| == |drifted| + 1 &&
              r.entities[|drifted|] == NewItem(d.kind, d.lane) &&
              SpawnDelayBase <= r.spawnTimer < SpawnDelayBase + SpawnDelaySpread
            else
              |r.entities| == |drifted| && r.spawnTimer == w.spawnTimer - 1.0
  {
  }

  /** The speed of a running frame never drops and steps by 0.5 exactly when
      the incremented score is a multiple of 500. */
  lemma TickSpeed(w: World, lane: int, height: real, d: SpawnDraws)
    requires d.Valid() && w.running
    ensures var r := LegacyTick(w, lane, height, d);
            r.speed >= w.speed &&
            (r.speed > w.speed <==> (w.score + 1) % SpeedEvery == 0) &&
            (r.speed > w.speed ==> r.speed == w.speed + SpeedStep)
  {
    SpeedSteps(w.speed, w.score + 1);
  }

  /** A coin can carry the score over a multiple of 500, and then that speed
      step never comes: at score 449 a frame with a coin in the hit zone ends
      at 550, without the step for 500. */
  lemma CoinCanSkipSpeedStep(lane: int, y: real, high: int)
    requires HitTop < y < HitBottom
    ensures var w := World(true, 449, high, StartSpeed, [Item(Coin, lane, y)], 10.0);
            var r := CollidePhase(CountPhase(w), lane, 1000.0);
            r.score == 550 && r.speed == StartSpeed
  {
    var es := [Item(Coin, lane, y)];
    assert es[..0] == [];
    assert Sweep(Tally(450, high, true), lane, es) == Tally(550, high, true);
  }
}

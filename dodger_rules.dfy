/** The rules of the four-lane car dodger (js/game.js) that do not depend on
    the mutable Game object: the CONFIG constants, lane geometry, the random
    draws, entity creation, collision geometry, and the per-frame
    transformations of the entity list and of the score accumulator. */
module DodgerRules {

  // ---------------------------------------------------------------------
  // CONFIG
  // ---------------------------------------------------------------------

  const Lanes: int := 4
  const CanvasWidth: real := 480.0
  const CanvasHeight: real := 800.0
  const SpawnIntervalMin: real := 800.0    // ms
  const SpawnIntervalMax: real := 1200.0   // ms
  const CoinSpawnMin: real := 6000.0       // ms
  const CoinSpawnMax: real := 12000.0      // ms
  const EnemyBaseSpeed: real := 180.0      // px/sec
  const MaxEnemies: int := 12
  const SpeedIncreasePer100Score: real := 0.08
  const CoinValue: int := 25
  const ScorePerSecond: real := 10.0

  // Geometry fixed by the Game constructor and the spawn methods.
  const LaneLeft: real := 32.0
  const LaneRight: real := CanvasWidth - 32.0
  const LaneWidth: real := 104.0           // LaneWidthFromMargins
  const PlayerW: real := 64.0
  const PlayerH: real := 128.0
  const PlayerY: real := CanvasHeight - PlayerH - 34.0
  const EnemyW: real := 64.0
  const EnemyH: real := 128.0
  const EnemyJitter: real := 120.0
  const CoinSize: real := 36.0
  const CoinGap: real := 10.0
  const CoinSpeedFactor: real := 0.85
  const DespawnMargin: real := 200.0
  // The frame loop never hands more than this many milliseconds to update.
  const MaxDelta: real := 60.0
  // The player sprite has no lane of its own (null in the source).
  const NoLane: int := -1

  // ---------------------------------------------------------------------
  // Entities
  // ---------------------------------------------------------------------

  datatype Kind = Enemy | Coin | Player

  /** A sprite: position, size, kind, vertical speed in px/sec, the removal
      flag and the lane it was spawned in. */
  datatype Entity = Entity(x: real, y: real, w: real, h: real, kind: Kind,
                           vy: real, dead: bool, lane: int)

  /** The player's sprite when the player is in `lane`. */
  function PlayerSprite(lane: int): Entity
  {
    Entity(LaneXForSprite(lane, PlayerW), PlayerY, PlayerW, PlayerH, Player, 0.0, false, NoLane)
  }

  /** What every spawned entity satisfies for its whole life: a lane in range,
      a width no wider than the player's, and an x that centres it in its lane. */
  predicate WellPlaced(e: Entity)
  {
    e.kind != Player && 0 <= e.lane < Lanes && 0.0 < e.w <= PlayerW &&
    e.x == LaneXForSprite(e.lane, e.w)
  }

  // ---------------------------------------------------------------------
  // Random draws: `u` stands for one value of Math.random(), in [0, 1)
  // ---------------------------------------------------------------------

  predicate IsUnit(u: real) { 0.0 <= u < 1.0 }

  /** rand(min, max) */
  function Rand(u: real, lo: real, hi: real): (r: real)
    requires IsUnit(u)
    ensures lo < hi ==> lo <= r < hi
    ensures lo == hi ==> r == lo
  {
    Scaled(u, hi - lo) + lo
  }

  /** A draw scaled to a span: below the span when it is positive. */
  function Scaled(u: real, span: real): (r: real)
    requires IsUnit(u)
    ensures span >= 0.0 ==> 0.0 <= r <= span
    ensures span > 0.0 ==> r < span
  {
    assert span - u * span == (1.0 - u) * span;
    assert span > 0.0 ==> (1.0 - u) * span > 0.0;
    assert span == 0.0 ==> u * span == 0.0;
    u * span
  }

  /** randInt(min, max): an integer from min to max inclusive. */
  function RandInt(u: real, lo: int, hi: int): (r: int)
    requires IsUnit(u)
    ensures lo <= hi ==> lo <= r <= hi
  {
    Rand(u, lo as real, (hi + 1) as real).Floor
  }

  // ---------------------------------------------------------------------
  // Lane geometry
  // ---------------------------------------------------------------------

  /** The lane width is the road between the two margins split into Lanes
      equal lanes. */
  lemma LaneWidthFromMargins()
    ensures LaneWidth == (LaneRight - LaneLeft) / (Lanes as real)
  {
  }

  function LaneCenterX(i: int): real
  {
    LaneLeft + LaneWidth * (i as real) + LaneWidth / 2.0
  }

  function LaneXForSprite(i: int, w: real): real
  {
    LaneCenterX(i) - w / 2.0
  }

  /** Two sprites no wider than the player, each centred in a different lane,
      leave a horizontal gap between them. */
  lemma LanesApart(i: int, wi: real, j: int, wj: real)
    requires i < j && 0.0 < wi <= PlayerW && 0.0 < wj <= PlayerW
    ensures LaneXForSprite(i, wi) + wi < LaneXForSprite(j, wj)
  {
    assert (j as real) >= (i as real) + 1.0;
  }

  // ---------------------------------------------------------------------
  // Collision geometry
  // ---------------------------------------------------------------------

  /** aabbCollide: the closed rectangles of `a` and `b` intersect. */
  predicate AabbCollide(a: Entity, b: Entity)
  {
    !(a.x + a.w < b.x || a.x > b.x + b.w || a.y + a.h < b.y || a.y > b.y + b.h)
  }

  lemma AabbSymmetric(a: Entity, b: Entity)
    ensures AabbCollide(a, b) <==> AabbCollide(b, a)
  {
  }

  /** Rectangles that meet side by side, one's right edge on the other's
      left edge with their vertical extents overlapping, collide. */
  lemma AabbTouchingCollide(a: Entity, b: Entity)
    requires a.w >= 0.0 && a.h >= 0.0 && b.w >= 0.0 && b.h >= 0.0
    requires a.x + a.w == b.x || b.x + b.w == a.x
    requires a.y <= b.y + b.h && b.y <= a.y + a.h
    ensures AabbCollide(a, b)
  {
  }

  /** Rectangles that meet one above the other, one's bottom edge on the
      other's top edge with their horizontal extents overlapping, collide:
      an enemy whose bottom reaches the player's top ends the run. */
  lemma AabbStackedCollide(a: Entity, b: Entity)
    requires a.w >= 0.0 && a.h >= 0.0 && b.w >= 0.0 && b.h >= 0.0
    requires a.y + a.h == b.y || b.y + b.h == a.y
    requires a.x <= b.x + b.w && b.x <= a.x + a.w
    ensures AabbCollide(a, b)
  {
  }

  /** With the CONFIG geometry a collision with the player can only happen
      in the player's lane. */
  lemma CollisionMeansSameLane(lane: int, e: Entity)
    requires 0 <= lane < Lanes && WellPlaced(e)
    requires AabbCollide(PlayerSprite(lane), e)
    ensures e.lane == lane
  {
    if e.lane < lane {
      LanesApart(e.lane, e.w, lane, PlayerW);
    } else if lane < e.lane {
      LanesApart(lane, PlayerW, e.lane, e.w);
    }
  }

  // ---------------------------------------------------------------------
  // Difficulty
  // ---------------------------------------------------------------------

  /** enemySpeed: the base speed scaled by 8% per 100 points; never slower
      than the base speed for a non-negative score. */
  function EnemySpeed(score: int): (r: real)
    ensures score >= 0 ==> r >= EnemyBaseSpeed
  {
    EnemyBaseSpeed * (1.0 + (score as real / 100.0) * SpeedIncreasePer100Score)
  }

  lemma EnemySpeedMonotone(s1: int, s2: int)
    requires s1 <= s2
    ensures EnemySpeed(s1) <= EnemySpeed(s2)
  {
  }

  /** There is no speed cap: any speed is exceeded at some score. */
  lemma NoSpeedCap(bound: real) returns (score: int)
    ensures score >= 0 && EnemySpeed(score) > bound
  {
    if bound < EnemyBaseSpeed {
      score := 0;
    } else {
      score := ((bound - EnemyBaseSpeed) * 10.0).Floor + 1;
    }
  }

  // ---------------------------------------------------------------------
  // Spawning
  // ---------------------------------------------------------------------

  /** The enemy that spawnEnemy builds: a random lane, fully above the field
      by up to EnemyJitter more, moving at the current enemy speed. */
  function NewEnemy(score: int, uLane: real, uJitter: real): (e: Entity)
    requires IsUnit(uLane) && IsUnit(uJitter)
    ensures WellPlaced(e) && e.kind == Enemy && !e.dead
    ensures e.y <= -e.h && e.y > -e.h - EnemyJitter
    ensures e.vy == EnemySpeed(score)
  {
    var lane := RandInt(uLane, 0, Lanes - 1);
    Entity(LaneXForSprite(lane, EnemyW), -EnemyH - Rand(uJitter, 0.0, EnemyJitter),
           EnemyW, EnemyH, Enemy, EnemySpeed(score), false, lane)
  }

  /** The coin that spawnCoin builds: a random lane, above the field, moving
      at 85% of the enemy speed. */
  function NewCoin(score: int, uLane: real): (e: Entity)
    requires IsUnit(uLane)
    ensures WellPlaced(e) && e.kind == Coin && !e.dead
    ensures e.y < -e.h
    ensures e.vy == EnemySpeed(score) * CoinSpeedFactor
  {
    var lane := RandInt(uLane, 0, Lanes - 1);
    Entity(LaneXForSprite(lane, CoinSize), -CoinSize - CoinGap,
           CoinSize, CoinSize, Coin, EnemySpeed(score) * CoinSpeedFactor, false, lane)
  }

  /** The number of live-list entries of kind enemy. */
  function EnemyCount(es: seq<Entity>): (n: nat)
    ensures n <= |es|
  {
    if es == [] then 0
    else EnemyCount(es[..|es| - 1]) + (if es[|es| - 1].kind == Enemy then 1 else 0)
  }

  lemma EnemyCountAppend(es: seq<Entity>, e: Entity)
    ensures EnemyCount(es + [e]) == EnemyCount(es) + (if e.kind == Enemy then 1 else 0)
  {
    assert (es + [e])[..|es|] == es;
  }

  /** Two lists with the same kinds position by position hold as many enemies. */
  lemma {:induction false} EnemyCountByKinds(a: seq<Entity>, b: seq<Entity>)
    requires |a| == |b|
    requires forall i :: 0 <= i < |a| ==> a[i].kind == b[i].kind
    ensures EnemyCount(a) == EnemyCount(b)
  {
    if a != [] {
      EnemyCountByKinds(a[..|a| - 1], b[..|b| - 1]);
    }
  }

  /** The shape every live entity list keeps: each entry placed in its lane,
      and no more than MaxEnemies enemies. */
  predicate ListValid(es: seq<Entity>)
  {
    (forall e | e in es :: WellPlaced(e)) && EnemyCount(es) <= MaxEnemies
  }

  /** The entity list after spawnEnemy: unchanged when MaxEnemies enemies are
      already live, otherwise one more enemy at the end. */
  function AfterEnemySpawn(es: seq<Entity>, score: int, uLane: real, uJitter: real): (r: seq<Entity>)
    requires IsUnit(uLane) && IsUnit(uJitter)
    ensures EnemyCount(es) >= MaxEnemies ==> r == es
    ensures EnemyCount(es) < MaxEnemies ==>
              |r| == |es| + 1 && r[..|es|] == es && r[|es|] == NewEnemy(score, uLane, uJitter) &&
              EnemyCount(r) == EnemyCount(es) + 1
    ensures EnemyCount(es) <= MaxEnemies ==> EnemyCount(r) <= MaxEnemies
  {
    if EnemyCount(es) >= MaxEnemies then es
    else
      var r := es + [NewEnemy(score, uLane, uJitter)];
      EnemyCountAppend(es, NewEnemy(score, uLane, uJitter));
      assert r[..|es|] == es;
      r
  }

  // ---------------------------------------------------------------------
  // Movement and removal
  // ---------------------------------------------------------------------

  /** One entity after `delta` milliseconds at its own speed. */
  function Moved(e: Entity, delta: real): Entity
  {
    e.(y := e.y + e.vy * (delta / 1000.0))
  }

  /** Every entity moved by `delta` milliseconds. */
  function Advance(es: seq<Entity>, delta: real): (r: seq<Entity>)
    ensures |r| == |es|
  {
    if es == [] then []
    else Advance(es[..|es| - 1], delta) + [Moved(es[|es| - 1], delta)]
  }

  /** Each entry is moved on its own; nothing else changes. */
  lemma {:induction false} AdvanceAt(es: seq<Entity>, delta: real)
    ensures forall i :: 0 <= i < |es| ==> Advance(es, delta)[i] == Moved(es[i], delta)
  {
    if es != [] {
      AdvanceAt(es[..|es| - 1], delta);
    }
  }

  /** Moving changes only y: kinds, lanes, sizes and x stay, so the enemy
      count and the placement invariant survive. */
  lemma AdvanceKeepsShape(es: seq<Entity>, delta: real)
    ensures EnemyCount(Advance(es, delta)) == EnemyCount(es)
    ensures (forall e | e in es :: WellPlaced(e)) ==>
              forall e | e in Advance(es, delta) :: WellPlaced(e)
  {
    var r := Advance(es, delta);
    AdvanceAt(es, delta);
    EnemyCountByKinds(r, es);
    if forall e | e in es :: WellPlaced(e) {
      forall e | e in r ensures WellPlaced(e) {
        var i :| 0 <= i < |r| && r[i] == e;
        assert es[i] in es;
      }
    }
  }

  /** Moving down never moves an entity up when time runs forward. */
  lemma AdvanceFalls(es: seq<Entity>, delta: real, i: int)
    requires 0 <= i < |es| && delta >= 0.0 && es[i].vy >= 0.0
    ensures Advance(es, delta)[i].y >= es[i].y
  {
    AdvanceAt(es, delta);
    assert delta / 1000.0 >= 0.0;
  }

  /** The filter of update: an entity stays while it has not fallen
      DespawnMargin past the canvas bottom and has not been collected. */
  predicate Keep(e: Entity)
  {
    e.y < CanvasHeight + DespawnMargin && !e.dead
  }

  function Prune(es: seq<Entity>): (r: seq<Entity>)
    ensures |r| <= |es|
  {
    if es == [] then []
    else
      var front := Prune(es[..|es| - 1]);
      if Keep(es[|es| - 1]) then front + [es[|es| - 1]] else front
  }

  /** The filter keeps exactly the entities that satisfy Keep, and so never
      adds an enemy. */
  lemma {:induction false} PruneKeeps(es: seq<Entity>)
    ensures forall e :: e in Prune(es) <==> e in es && Keep(e)
    ensures EnemyCount(Prune(es)) <= EnemyCount(es)
  {
    if es != [] {
      var init, last := es[..|es| - 1], es[|es| - 1];
      PruneKeeps(init);
      assert es == init + [last];
      EnemyCountAppend(Prune(init), last);
    }
  }

  /** The filter keeps the entities in their order: filtering a list made of
      two parts is filtering each part and joining the results. */
  lemma {:induction false} PruneConcat(a: seq<Entity>, b: seq<Entity>)
    ensures Prune(a + b) == Prune(a) + Prune(b)
  {
    if b == [] {
      assert a + b == a;
    } else {
      var init := b[..|b| - 1];
      PruneConcat(a, init);
      assert (a + b)[..|a + b| - 1] == a + init;
      assert (a + b)[|a + b| - 1] == b[|b| - 1];
    }
  }

  // ---------------------------------------------------------------------
  // Collisions
  // ---------------------------------------------------------------------

  /** The update loop reacts to an enemy or a coin overlapping the player. */
  predicate Hits(p: Entity, e: Entity)
  {
    (e.kind == Enemy || e.kind == Coin) && AabbCollide(p, e)
  }

  predicate Crashes(p: Entity, e: Entity) { e.kind == Enemy && Hits(p, e) }

  predicate Collects(p: Entity, e: Entity) { e.kind == Coin && Hits(p, e) }

  /** The position of the first enemy that hits the player, or |es| when
      none does: the collision loop stops there. */
  function CrashIndex(p: Entity, es: seq<Entity>): (k: nat)
    ensures k <= |es|
  {
    if es == [] then 0
    else if Crashes(p, es[0]) then 0
    else 1 + CrashIndex(p, es[1..])
  }

  /** CrashIndex finds the first enemy that hits the player: none before it,
      and one at it unless it is |es|. */
  lemma {:induction false} CrashIndexFirst(p: Entity, es: seq<Entity>)
    ensures forall i :: 0 <= i < CrashIndex(p, es) ==> !Crashes(p, es[i])
    ensures CrashIndex(p, es) < |es| ==> Crashes(p, es[CrashIndex(p, es)])
  {
    if es != [] && !Crashes(p, es[0]) {
      CrashIndexFirst(p, es[1..]);
      assert forall i :: 1 <= i < |es| ==> es[i] == es[1..][i - 1];
    }
  }

  /** The list after the collision loop has visited the first `k` entries:
      each coin among them that overlaps the player is marked dead. */
  function Collect(p: Entity, es: seq<Entity>, k: int): (r: seq<Entity>)
    ensures |r| == |es|
  {
    seq(|es|, i requires 0 <= i < |es| =>
      if i < k && Collects(p, es[i]) then es[i].(dead := true) else es[i])
  }

  /** One more step of the collision loop: entry `i` is marked dead when it
      is a coin overlapping the player, and nothing else changes. */
  lemma CollectNext(p: Entity, es: seq<Entity>, i: int)
    requires 0 <= i < |es|
    ensures Collects(p, es[i]) ==> Collect(p, es, i + 1) == Collect(p, es, i)[i := es[i].(dead := true)]
    ensures !Collects(p, es[i]) ==> Collect(p, es, i + 1) == Collect(p, es, i)
    ensures Collect(p, es, i)[i] == es[i]
  {
  }

  /** The number of coins among the first `k` entries that overlap the player. */
  function CoinsHit(p: Entity, es: seq<Entity>, k: nat): (n: nat)
    requires k <= |es|
    ensures n <= k
  {
    if k == 0 then 0
    else CoinsHit(p, es, k - 1) + (if Collects(p, es[k - 1]) then 1 else 0)
  }

  /** The number of entries marked dead. */
  function DeadCount(es: seq<Entity>): (n: nat)
    ensures n <= |es|
  {
    if es == [] then 0
    else DeadCount(es[..|es| - 1]) + (if es[|es| - 1].dead then 1 else 0)
  }

  /** Collecting only marks coins dead: the kind, lane and position of every
      entry are kept, so the enemy count and the placement invariant are too. */
  lemma CollectKeepsShape(p: Entity, es: seq<Entity>, k: int)
    ensures forall i :: 0 <= i < |es| ==>
              Collect(p, es, k)[i] == es[i].(dead := Collect(p, es, k)[i].dead)
    ensures EnemyCount(Collect(p, es, k)) == EnemyCount(es)
    ensures (forall e | e in es :: WellPlaced(e)) ==>
              forall e | e in Collect(p, es, k) :: WellPlaced(e)
  {
    var r := Collect(p, es, k);
    EnemyCountByKinds(r, es);
    if forall e | e in es :: WellPlaced(e) {
      forall e | e in r ensures WellPlaced(e) {
        var i :| 0 <= i < |r| && r[i] == e;
        assert es[i] in es;
      }
    }
  }

  /** No double collection: over a list with nothing dead yet (the list the
      collision loop sees, just after Prune), the coin bonus of a pass is paid
      once per entry that it turns dead, and each such entry is gone after
      the next Prune. */
  lemma {:induction false} CollectPaysOncePerCoin(p: Entity, es: seq<Entity>, k: nat)
    requires k <= |es|
    requires forall i :: 0 <= i < |es| ==> !es[i].dead
    ensures DeadCount(Collect(p, es, k)) == CoinsHit(p, es, k)
  {
    var c := Collect(p, es, k);
    DeadCountPrefix(p, es, k, |es|);
    assert c[..|es|] == c;
  }

  lemma {:induction false} DeadCountPrefix(p: Entity, es: seq<Entity>, k: nat, n: nat)
    requires k <= |es| && n <= |es|
    requires forall i :: 0 <= i < |es| ==> !es[i].dead
    ensures DeadCount(Collect(p, es, k)[..n]) == CoinsHit(p, es, if n < k then n else k)
  {
    var c := Collect(p, es, k);
    if n > 0 {
      DeadCountPrefix(p, es, k, n - 1);
      assert c[..n][..n - 1] == c[..n - 1];
    } else {
      assert c[..n] == [];
    }
  }

  /** Over a list with nothing dead, placed in lanes, whatever a collision
      pass marks dead is a coin in the player's lane. */
  lemma CollectedCoinsInLane(lane: int, es: seq<Entity>, k: int)
    requires 0 <= lane < Lanes
    requires forall e | e in es :: WellPlaced(e) && !e.dead
    ensures forall e | e in Collect(PlayerSprite(lane), es, k) && e.dead :: e.kind == Coin && e.lane == lane
  {
    var r := Collect(PlayerSprite(lane), es, k);
    forall e | e in r && e.dead ensures e.kind == Coin && e.lane == lane {
      var i :| 0 <= i < |r| && r[i] == e;
      assert es[i] in es;
      CollisionMeansSameLane(lane, es[i]);
    }
  }

  // ---------------------------------------------------------------------
  // Frame timing and game over
  // ---------------------------------------------------------------------

  /** The delta that loop hands to update: the time since the previous frame
      (zero on the first frame, when lastTime is still 0), clamped to MaxDelta. */
  function FrameDelta(now: real, lastTime: real): (delta: real)
    ensures delta <= MaxDelta
    ensures now >= lastTime ==> delta >= 0.0
    ensures lastTime == 0.0 ==> delta == 0.0
  {
    var since := if lastTime == 0.0 then now else lastTime;
    if now - since < MaxDelta then now - since else MaxDelta
  }

  /** The high score after endGame: the run's score when it beats the old
      high score, else the old high score, i.e. the larger of the two. */
  function HighAfter(high: int, score: int): (r: int)
    ensures r >= high && r >= score
    ensures r == high || r == score
  {
    if score > high then score else high
  }

  // ---------------------------------------------------------------------
  // Passive score
  // ---------------------------------------------------------------------

  /** The passive-score step of update: time is added to the fractional
      accumulator and its whole part, when at least one, moves into the score.
      Nothing is lost: score plus accumulator grows by exactly the points earned. */
  function Accrue(score: int, acc: real, delta: real): (r: (int, real))
    ensures r.0 as real + r.1 == score as real + acc + delta * (ScorePerSecond / 1000.0)
    ensures r.0 >= score
    ensures 0.0 <= acc < 1.0 && delta >= 0.0 ==> 0.0 <= r.1 < 1.0
  {
    var a := acc + delta * (ScorePerSecond / 1000.0);
    if a >= 1.0 then (score + a.Floor, a - a.Floor as real) else (score, a)
  }

  function Sum(ds: seq<real>): real
  {
    if ds == [] then 0.0 else Sum(ds[..|ds| - 1]) + ds[|ds| - 1]
  }

  /** The accumulator run over a sequence of frame deltas. */
  function AccrueAll(score: int, acc: real, ds: seq<real>): (r: (int, real))
  {
    if ds == [] then (score, acc)
    else
      var prev := AccrueAll(score, acc, ds[..|ds| - 1]);
      Accrue(prev.0, prev.1, ds[|ds| - 1])
  }

  /** Over many frames the carry is conserved, the score never drops and the
      accumulator stays a fraction. */
  lemma {:induction false} AccrueAllConserves(score: int, acc: real, ds: seq<real>)
    requires 0.0 <= acc < 1.0
    requires forall i :: 0 <= i < |ds| ==> ds[i] >= 0.0
    ensures AccrueAll(score, acc, ds).0 as real + AccrueAll(score, acc, ds).1
            == score as real + acc + Sum(ds) * (ScorePerSecond / 1000.0)
    ensures AccrueAll(score, acc, ds).0 >= score
    ensures 0.0 <= AccrueAll(score, acc, ds).1 < 1.0
  {
    if ds != [] {
      AccrueAllConserves(score, acc, ds[..|ds| - 1]);
    }
  }

  /** No fractional leakage: when the frames add up to a whole number of points
      and the accumulator starts empty, exactly that many points are scored and
      the accumulator ends empty, however the time was split into frames. */
  lemma NoLeakage(score: int, ds: seq<real>, points: int)
    requires forall i :: 0 <= i < |ds| ==> ds[i] >= 0.0
    requires Sum(ds) * (ScorePerSecond / 1000.0) == points as real
    ensures AccrueAll(score, 0.0, ds) == (score + points, 0.0)
  {
    AccrueAllConserves(score, 0.0, ds);
    var r := AccrueAll(score, 0.0, ds);
    WholeCarry(r.0, r.1, score + points);
  }

  /** A whole number plus a fraction that make a whole number: the fraction
      is zero. */
  lemma WholeCarry(n: int, frac: real, total: int)
    requires 0.0 <= frac < 1.0 && n as real + frac == total as real
    ensures n == total && frac == 0.0
  {
    assert frac == (total - n) as real;
  }
}

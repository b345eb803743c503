/** main()'s loop as an object: its locals become fields, and one call of
    Tick runs one pass of `while run`, changing them in place. */
module GameLoop {
  import opened Geometry
  import opened Ships
  import opened Collisions
  import opened Progression
  import opened Game

  /** The `for _ in range(...)` loop of a burst: one asteroid appended per
      draw, in draw order. */
  method SpawnBurst(stars: seq<Rect>, xs: seq<int>) returns (spawned: seq<Rect>)
    ensures spawned == stars + Burst(xs)
  {
    spawned := stars;
    var n := 0;
    while n < |xs|
      invariant 0 <= n <= |xs|
      invariant spawned == stars + Burst(xs[..n])
    {
      assert xs[..n + 1][..n] == xs[..n];
      spawned := spawned + [SpawnAt(xs[n])];
      n := n + 1;
    }
    assert xs[..n] == xs;
  }

  class Session {
    const player: Player
    const startTime: int
    var stars: seq<Rect>
    var aliens: seq<Rect>
    var score: int
    var baseScore: int
    var level: int
    var starVelHalf: int
    var starCount: int
    var starAddIncrement: int
    var alienSpawnTime: int
    var level5MessageShown: bool
    var hit: bool
    var run: bool

    function State(): World
      reads this, player
    {
      World(player.State(), stars, aliens, score, baseScore, level, starVelHalf,
            starCount, starAddIncrement, alienSpawnTime, startTime,
            level5MessageShown, hit, run)
    }

    /** main() up to its loop, with time.time() read as start. */
    constructor (start: int)
      ensures State() == Init(start) && fresh(player)
    {
      player := new Player(START_X, HEIGHT - PLAYER_HEIGHT, PLAYER_WIDTH, PLAYER_HEIGHT);
      startTime := start;
      stars, aliens := [], [];
      score, baseScore := 0, 0;
      level, starVelHalf := FIRST_LEVEL, START_STAR_VEL_HALF;
      starCount, starAddIncrement := 0, STAR_ADD_START;
      alienSpawnTime := 0;
      level5MessageShown, hit, run := false, false, true;
    }

    /** One pass of the loop; the pass returns early once the ship is hit. */
    method Tick(inp: Input)
      requires run && !hit && ValidInput(inp)
      modifies this, player
      ensures State() == Step(old(State()), inp)
    {
      ChargeClock(inp);
      SpawnObstacles(inp);
      Steer(inp);
      ResolveShots();
      DropObstacles();
      if hit {
        return;
      }
      Progress(inp);
    }

    /** Lines 407-414. */
    method ChargeClock(inp: Input)
      modifies this
      ensures State() == Clocked(old(State()), inp)
    {
      starCount := starCount + inp.dt;
      var elapsed := inp.now - startTime;
      var timePoints := TimePoints(elapsed);
      if timePoints > baseScore {
        score := score + (timePoints - baseScore);
        baseScore := timePoints;
      }
    }

    /** Lines 417-430. */
    method SpawnObstacles(inp: Input)
      requires ValidInput(inp)
      modifies this
      ensures State() == Spawned(old(State()), inp)
    {
      if starCount >= starAddIncrement {
        stars := SpawnBurst(stars, inp.starXs);
        starAddIncrement := Max(STAR_ADD_FLOOR, starAddIncrement - STAR_ADD_STEP);
        starCount := 0;
      }
      if level >= SHOOTING_LEVEL && inp.now - alienSpawnTime >= ALIEN_SPAWN_INTERVAL {
        aliens := aliens + [SpawnAt(inp.alienX)];
        alienSpawnTime := inp.now;
      }
    }

    /** Lines 432-445. */
    method Steer(inp: Input)
      modifies this, player
      ensures State() == Steered(old(State()), inp)
    {
      if inp.quit {
        run := false;
      }
      player.Move(inp.keys);
      if level >= SHOOTING_LEVEL && inp.keys.fire {
        player.Shoot(inp.ticks);
      }
      player.UpdateLasers();
    }

    /** Lines 448-474. */
    method ResolveShots()
      modifies this, player
      ensures State() == Shooting(old(State()))
    {
      var lasersLeft, aliensLeft, newScore := LaserAlienPass(player.lasers, aliens, score);
      player.lasers := lasersLeft;
      aliens := aliensLeft;
      score := newScore;
    }

    /** Lines 480-497. */
    method DropObstacles()
      modifies this
      ensures State() == Fell(old(State()))
    {
      var step := FallStep(starVelHalf);
      var starsLeft, starHit := FallPass(stars, step, player.rect, true);
      stars := starsLeft;
      if starHit {
        hit := true;
      }
      var aliensLeft, alienHit := FallPass(aliens, step, player.rect, false);
      aliens := aliensLeft;
      if alienHit {
        hit := true;
      }
    }

    /** Lines 529-549. */
    method Progress(inp: Input)
      modifies this, player
      ensures State() == Progressed(old(State()), inp)
    {
      if TimePoints(inp.now - startTime) + 1 > level {
        level := level + 1;
        starVelHalf := starVelHalf + if level < FORWARD_LEVEL then 2 else 1;
      }
      if level >= FORWARD_LEVEL && !level5MessageShown {
        level5MessageShown := true;
        player.forwardMovementEnabled := true;
      }
    }
  }
}

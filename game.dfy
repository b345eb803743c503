/** One pass of main()'s `while run` loop as a function on the whole game
    state, phase by phase in the source's order, with the invariant every
    pass keeps. */
module Game {
  import opened Geometry
  import opened Ships
  import opened Collisions
  import opened Progression

  /** Aliens spawn at most once per three seconds (time.time() units, here ms). */
  const ALIEN_SPAWN_INTERVAL: int := 3000
  /** The ship's starting column. */
  const START_X: int := 200

  /** main()'s local state; the ship is the Player object's value. */
  datatype World = World(
    ship: Ship, stars: seq<Rect>, aliens: seq<Rect>,
    score: int, baseScore: int, level: int, starVelHalf: int,
    starCount: int, starAddIncrement: int,
    alienSpawnTime: int, startTime: int,
    level5Shown: bool, hit: bool, running: bool)

  /** What one pass reads from outside: time.time() (now) and
      pygame.time.get_ticks() (ticks) in milliseconds, the milliseconds
      clock.tick(60) returns (dt), the keys held, whether a quit event
      arrived, and the random.randint draws for a burst and an alien. */
  datatype Input = Input(now: int, ticks: int, dt: nat, keys: Keys, quit: bool,
                         starXs: seq<int>, alienX: int)

  predicate SpawnColumn(x: int) { 0 <= x <= WIDTH - STAR_WIDTH }

  /** random.randint(0, WIDTH - STAR_WIDTH) is inclusive at both ends. */
  predicate ValidInput(inp: Input) {
    |inp.starXs| == BURST &&
    (forall i :: 0 <= i < |inp.starXs| ==> SpawnColumn(inp.starXs[i])) &&
    SpawnColumn(inp.alienX)
  }

  /** A new asteroid or alien: star-sized, just above the top edge. */
  function SpawnAt(x: int): (r: Rect)
    ensures SpawnColumn(x) ==> ObstacleShape(r)
    ensures r.Bottom() == 0 && r.x == x
  {
    Rect(x, -STAR_HEIGHT, STAR_WIDTH, STAR_HEIGHT)
  }

  /** The asteroids of one burst, in the order they are drawn. */
  function Burst(xs: seq<int>): (r: seq<Rect>)
    ensures |r| == |xs|
    ensures forall i :: 0 <= i < |xs| ==> r[i] == SpawnAt(xs[i])
  {
    if xs == [] then [] else Burst(xs[..|xs| - 1]) + [SpawnAt(xs[|xs| - 1])]
  }

  function Elapsed(w: World, inp: Input): int { inp.now - w.startTime }

  ghost predicate AllShaped(s: seq<Rect>) { forall o :: o in s ==> ObstacleShape(o) }

  /** The state main() sets up before its loop. */
  function Init(startTime: int): (w: World)
    ensures Inv(w) && w.running && !w.hit
  {
    World(Ship(Rect(START_X, HEIGHT - PLAYER_HEIGHT, PLAYER_WIDTH, PLAYER_HEIGHT), [], 0, false),
          [], [], 0, 0, FIRST_LEVEL, START_STAR_VEL_HALF, 0, STAR_ADD_START, 0, startTime,
          false, false, true)
  }

  /** What holds between passes. */
  ghost predicate Inv(w: World) {
    FIRST_LEVEL <= w.level <= w.baseScore + 1 &&
    0 <= w.baseScore <= w.score &&
    w.starVelHalf == StarVelHalfAt(w.level) &&
    w.ship.forward == w.level5Shown == (w.level >= FORWARD_LEVEL) &&
    STAR_ADD_FLOOR <= w.starAddIncrement <= STAR_ADD_START &&
    (w.level < SHOOTING_LEVEL ==> w.ship.lasers == [] && w.aliens == []) &&
    0 <= w.ship.rect.x <= WIDTH - PLAYER_WIDTH &&
    0 <= w.ship.rect.y <= HEIGHT - PLAYER_HEIGHT &&
    w.ship.rect.w == PLAYER_WIDTH && w.ship.rect.h == PLAYER_HEIGHT &&
    AllShaped(w.stars) && AllShaped(w.aliens)
  }

  /** Lines 407-414: the spawn budget is charged and new ten-second
      intervals are paid into both score and base_score. */
  function Clocked(w: World, inp: Input): (r: World)
    ensures r.starCount == w.starCount + inp.dt
    ensures r.baseScore == Max(w.baseScore, TimePoints(Elapsed(w, inp)))
    ensures r.score - w.score == r.baseScore - w.baseScore
    ensures r.(starCount := w.starCount, score := w.score, baseScore := w.baseScore) == w
  {
    var t := AccrueTime(Tally(w.score, w.baseScore), Elapsed(w, inp));
    w.(starCount := w.starCount + inp.dt, score := t.score, baseScore := t.baseScore)
  }

  predicate BurstDue(w: World) { w.starCount >= w.starAddIncrement }

  predicate AlienDue(w: World, inp: Input) {
    w.level >= SHOOTING_LEVEL && inp.now - w.alienSpawnTime >= ALIEN_SPAWN_INTERVAL
  }

  /** Lines 417-430: a due burst appends three asteroids above the top edge
      and lowers the threshold; from level 10 a due alien is appended. */
  function Spawned(w: World, inp: Input): (r: World)
    requires ValidInput(inp)
    ensures BurstDue(w) ==> r.stars == w.stars + Burst(inp.starXs)
    ensures BurstDue(w) ==> r.starCount == 0 && r.starAddIncrement == NextThreshold(w.starAddIncrement)
    ensures !BurstDue(w) ==> r.stars == w.stars && r.starCount == w.starCount && r.starAddIncrement == w.starAddIncrement
    ensures AlienDue(w, inp) ==> r.aliens == w.aliens + [SpawnAt(inp.alienX)] && r.alienSpawnTime == inp.now
    ensures !AlienDue(w, inp) ==> r.aliens == w.aliens && r.alienSpawnTime == w.alienSpawnTime
    ensures r.(stars := w.stars, aliens := w.aliens, starCount := w.starCount,
               starAddIncrement := w.starAddIncrement, alienSpawnTime := w.alienSpawnTime) == w
  {
    var w1 := if BurstDue(w) then
        w.(stars := w.stars + Burst(inp.starXs), starAddIncrement := NextThreshold(w.starAddIncrement), starCount := 0)
      else w;
    if AlienDue(w1, inp) then w1.(aliens := w1.aliens + [SpawnAt(inp.alienX)], alienSpawnTime := inp.now)
    else w1
  }

  predicate Fires(w: World, inp: Input) { w.level >= SHOOTING_LEVEL && inp.keys.fire }

  /** Lines 432-445: a quit event ends the loop after this pass; the ship
      moves, fires from level 10 when space is held, and its lasers advance. */
  function Steered(w: World, inp: Input): (r: World)
    ensures r.running == (w.running && !inp.quit)
    ensures r.ship.rect == Moved(w.ship, inp.keys).rect && r.ship.forward == w.ship.forward
    ensures !Fires(w, inp) ==> r.ship.lasers == LasersAdvanced(w.ship.lasers) && r.ship.lastShot == w.ship.lastShot
    ensures Fires(w, inp) ==> r.ship.lasers == LasersAdvanced(Shot(Moved(w.ship, inp.keys), inp.ticks).lasers)
    ensures r.ship.lastShot != w.ship.lastShot ==> Fires(w, inp) && inp.ticks - w.ship.lastShot >= LASER_COOLDOWN && r.ship.lastShot == inp.ticks
    ensures r.(ship := w.ship, running := w.running) == w
  {
    var moved := Moved(w.ship, inp.keys);
    var armed := if Fires(w, inp) then Shot(moved, inp.ticks) else moved;
    w.(running := w.running && !inp.quit, ship := armed.(lasers := LasersAdvanced(armed.lasers)))
  }

  /** Lines 448-474: the laser-versus-alien pass; one point per alien shot. */
  function Shooting(w: World): (r: World)
    ensures r.score - w.score == |w.ship.lasers| - |r.ship.lasers| == |w.aliens| - |r.aliens|
    ensures r.ship == w.ship.(lasers := r.ship.lasers)
    ensures r.(ship := w.ship, aliens := w.aliens, score := w.score) == w
  {
    var p := LaserPass(w.ship.lasers, w.aliens);
    w.(ship := w.ship.(lasers := p.lasers), aliens := p.aliens, score := w.score + p.hits)
  }

  /** Lines 480-497: the asteroid loop, then the alien loop, each stopping at
      the first obstacle that hits the ship. */
  function Fell(w: World): (r: World)
    ensures r.hit == (w.hit || Fall(w.stars, FallStep(w.starVelHalf), w.ship.rect, true).hit
                             || Fall(w.aliens, FallStep(w.starVelHalf), w.ship.rect, false).hit)
    ensures |r.stars| <= |w.stars| && |r.aliens| <= |w.aliens|
    ensures r.(stars := w.stars, aliens := w.aliens, hit := w.hit) == w
  {
    var step := FallStep(w.starVelHalf);
    var s := Fall(w.stars, step, w.ship.rect, true);
    var a := Fall(w.aliens, step, w.ship.rect, false);
    w.(stars := s.obstacles, aliens := a.obstacles, hit := w.hit || s.hit || a.hit)
  }

  /** Lines 529-549: the level follows the elapsed time one step per pass,
      and reaching level 5 unlocks forward movement for good. */
  function Progressed(w: World, inp: Input): (r: World)
    ensures Pace(r.level, r.starVelHalf) == LevelUp(Pace(w.level, w.starVelHalf), Elapsed(w, inp))
    ensures r.ship.forward == (w.ship.forward || (!w.level5Shown && r.level >= FORWARD_LEVEL))
    ensures r.level5Shown == (w.level5Shown || r.level >= FORWARD_LEVEL)
    ensures r.(level := w.level, starVelHalf := w.starVelHalf, level5Shown := w.level5Shown,
               ship := w.ship) == w
    ensures r.ship == w.ship.(forward := r.ship.forward)
  {
    var p := LevelUp(Pace(w.level, w.starVelHalf), Elapsed(w, inp));
    var w1 := w.(level := p.level, starVelHalf := p.starVelHalf);
    if w1.level >= FORWARD_LEVEL && !w1.level5Shown then
      w1.(level5Shown := true, ship := w1.ship.(forward := true))
    else w1
  }

  /** The state after the phases up to and including the laser upkeep
      (update_lasers); the laser-versus-alien pass comes after it. */
  function Armed(w: World, inp: Input): (r: World)
    requires ValidInput(inp)
    ensures r.level == w.level && r.starVelHalf == w.starVelHalf && r.startTime == w.startTime
    ensures r.level5Shown == w.level5Shown && r.ship.forward == w.ship.forward && r.hit == w.hit
    ensures r.running == (w.running && !inp.quit)
    ensures r.ship.rect == Moved(w.ship, inp.keys).rect
  {
    Steered(Spawned(Clocked(w, inp), inp), inp)
  }

  /** One pass of the loop; on a hit the pass returns before the level-up. */
  function Step(w: World, inp: Input): (r: World)
    requires ValidInput(inp)
    ensures r.startTime == w.startTime && r.running == (w.running && !inp.quit)
    ensures r.hit == (w.hit || Fell(Shooting(Armed(w, inp))).hit)
    ensures r.hit ==> r.level == w.level && r.starVelHalf == w.starVelHalf && r.level5Shown == w.level5Shown
    ensures !r.hit ==> Pace(r.level, r.starVelHalf) == LevelUp(Pace(w.level, w.starVelHalf), Elapsed(w, inp))
  {
    var w1 := Fell(Shooting(Armed(w, inp)));
    if w1.hit then w1 else Progressed(w1, inp)
  }

  // ------------------------------------------------------------- lemmas

  lemma SpawnedKeepsInv(w: World, inp: Input)
    requires Inv(w) && ValidInput(inp)
    ensures Inv(Spawned(w, inp))
  {
    var r := Spawned(w, inp);
    if BurstDue(w) {
      var b := Burst(inp.starXs);
      forall o | o in r.stars ensures ObstacleShape(o) {
        var i :| 0 <= i < |r.stars| && r.stars[i] == o;
        if i < |w.stars| {
          assert r.stars[i] == w.stars[i];
        } else {
          assert r.stars[i] == b[i - |w.stars|] == SpawnAt(inp.starXs[i - |w.stars|]);
        }
      }
    }
  }

  lemma ArmedKeepsInv(w: World, inp: Input)
    requires Inv(w) && ValidInput(inp)
    ensures Inv(Armed(w, inp))
    ensures Armed(w, inp).level == w.level && Armed(w, inp).starVelHalf == w.starVelHalf
  {
    SpawnedKeepsInv(Clocked(w, inp), inp);
  }

  lemma ShootingKeepsInv(w: World)
    requires Inv(w)
    ensures Inv(Shooting(w))
  {
    var p := LaserPass(w.ship.lasers, w.aliens);
    LaserPassOnlyRemoves(w.ship.lasers, w.aliens);
    SubMultisetMembers(p.aliens, w.aliens);
  }

  lemma FellKeepsInv(w: World)
    requires Inv(w)
    ensures Inv(Fell(w))
  {
    var step := FallStep(w.starVelHalf);
    FallKeepsShape(w.stars, step, w.ship.rect, true);
    FallKeepsShape(w.aliens, step, w.ship.rect, false);
  }

  lemma ProgressedKeepsInv(w: World, inp: Input)
    requires Inv(w) && w.baseScore >= TimePoints(Elapsed(w, inp))
    ensures Inv(Progressed(w, inp))
  {
  }

  /** Every pass keeps the invariant: the level stays within the time paid
      for, the fall speed matches the level's closed form, forward movement
      is on exactly from level 5, the spawn threshold stays in [200, 2000],
      no laser or alien exists before level 10, the ship stays on screen and
      every obstacle keeps its spawn column and size. */
  lemma StepKeepsInv(w: World, inp: Input)
    requires Inv(w) && ValidInput(inp) && !w.hit
    ensures Inv(Step(w, inp))
  {
    var a := Armed(w, inp);
    ArmedKeepsInv(w, inp);
    ShootingKeepsInv(a);
    FellKeepsInv(Shooting(a));
    var w1 := Fell(Shooting(a));
    if !w1.hit {
      assert w1.startTime == w.startTime;
      ProgressedKeepsInv(w1, inp);
    }
  }

  /** The level never falls, rises by at most one per pass and never
      outruns int(elapsed) // 10 + 1 of this pass or an earlier one; the
      fall speed grows by 1 below level 5 and by 0.5 from it on. */
  lemma StepLevel(w: World, inp: Input)
    requires ValidInput(inp)
    ensures var r := Step(w, inp);
      w.level <= r.level <= w.level + 1 &&
      (r.level > w.level ==> r.level <= TimePoints(Elapsed(w, inp)) + 1) &&
      (r.level > w.level ==> r.starVelHalf - w.starVelHalf == if r.level < FORWARD_LEVEL then 2 else 1) &&
      (r.level == w.level ==> r.starVelHalf == w.starVelHalf)
  {
  }

  /** Forward movement, once unlocked, stays unlocked, and it is unlocked by
      the end of every pass that leaves the level at 5 or more. */
  lemma StepForwardMovement(w: World, inp: Input)
    requires Inv(w) && ValidInput(inp) && !w.hit
    ensures w.ship.forward ==> Step(w, inp).ship.forward
    ensures Step(w, inp).level >= FORWARD_LEVEL ==> Step(w, inp).ship.forward
  {
    StepKeepsInv(w, inp);
  }

  /** Time score: base_score becomes max(old base_score, int(elapsed) // 10)
      and the score grows by exactly that much plus one point per alien
      shot, which equals the number of lasers the pass consumed. */
  lemma StepScore(w: World, inp: Input)
    requires ValidInput(inp)
    ensures var r := Step(w, inp);
      var inFlight := Armed(w, inp).ship.lasers;
      r.baseScore == Max(w.baseScore, TimePoints(Elapsed(w, inp))) &&
      r.score - w.score == (r.baseScore - w.baseScore) + (|inFlight| - |r.ship.lasers|)
  {
  }

  /** The spawn budget: a burst is due exactly when the charged counter has
      reached the threshold; then the threshold drops to max(200, t - 50) and
      the counter restarts, otherwise neither changes but the charge. */
  lemma StepSpawnBudget(w: World, inp: Input)
    requires ValidInput(inp)
    ensures var r := Step(w, inp);
      var due := w.starCount + inp.dt >= w.starAddIncrement;
      (due ==> r.starCount == 0 && r.starAddIncrement == NextThreshold(w.starAddIncrement)) &&
      (!due ==> r.starCount == w.starCount + inp.dt && r.starAddIncrement == w.starAddIncrement)
  {
  }

  /** A new shot needs level 10, space held and the cooldown elapsed since
      the previous one; it is stamped with this pass's tick reading. */
  lemma StepCooldown(w: World, inp: Input)
    requires ValidInput(inp)
    ensures var r := Step(w, inp);
      r.ship.lastShot != w.ship.lastShot ==>
        w.level >= SHOOTING_LEVEL && inp.keys.fire &&
        inp.ticks - w.ship.lastShot >= LASER_COOLDOWN && r.ship.lastShot == inp.ticks
  {
  }
}

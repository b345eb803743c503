# Space Dodge — a verified model of the game-state update

Space Dodge is a pygame arcade game. The player steers a ship along the bottom
of a 1920×800 field and dodges falling asteroids. From level 5 the ship can also
move up and down. From level 10 aliens fall too, and the ship can shoot them.
The score is one point per completed ten seconds of survival, plus one point per
alien shot. When the ship is hit, the final score may enter a five-entry table of
top scores.

This project models the non-drawing part of `main()` in `Python_Games/main.py`.
One pass of its `while run` loop is modelled as:

- **`Game.Step`**: a pure function on a `World` value that holds all of main()'s
  local state. It runs the phases in the source's order: charge the clock, spawn,
  steer and shoot, laser pass, fall loops, level-up. It returns early on a hit,
  as the source does.
- **`GameLoop.Session`**: a class whose fields are main()'s locals. Its `Tick`
  method changes them in place, one method per phase. It is proved to leave
  exactly `Step(old state, input)`.
- **`Ships.Player`**: the source's `Player` class. `Move`, `Shoot` and
  `UpdateLasers` update its fields. Each is proved against a pure function on
  the `Ship` value.
- **`Collisions`**: the two collision passes. The laser-versus-alien pass and each
  fall loop is turned into a method that repeats the source's loop and removes
  from a live list while it walks a snapshot. Each method is proved equal to a
  recursive reference function. Lemmas then state what the pass does.
- **`Progression`**: the time score, the level and fall speed, and the spawn
  budget.
- **`ScoreBoard`**: the ranking step of `update_top_scores`.
- **`Scrolling`**: `Background.update`. main() never calls it; it scrolls the background with two counters of its own, which only drawing reads.

Collision is pygame's `colliderect`, defined in `Geometry.Overlaps` as strict
overlap on both axes. `STAR_VEL` is kept as an integer number of half pixels
(`starVelHalf`, starting at 6), because it later grows by 0.5.

Inputs that the source reads from outside become fields of `Game.Input`:

- `time.time()` as `now`, in milliseconds;
- `pygame.time.get_ticks()` as `ticks`;
- the return value of `clock.tick(60)` as `dt`;
- the keys held (`Keys`) and whether a quit event arrived;
- the `random.randint` draws, as `starXs` (three values) and `alienX`.

`ValidInput` bounds each draw to `0 .. WIDTH - STAR_WIDTH`, both ends inclusive,
as `randint` does. `int(elapsed_time)` is truncation toward zero
(`Progression.WholeSeconds`). Python's `//` with a positive divisor is Dafny's `/`.

Python's `list.remove` on a list of pygame Rects compares values, not identities.
The fall loops and the alien removal therefore use a value-based
`Collisions.Remove`. `Collisions.RemoveFirstOccurrence` proves that it removes
the element being visited. Lasers are objects, so they are removed by position.

The code does some things differently from how the game is usually described:

- The decreasing key is tried first, and the increasing key is then tried from
  the position it left. So holding both keys of one axis cancels out, except at
  the low edge. At x = 0, a cannot move the ship but d still moves it 5 pixels
  right (`Ships.OppositeKeysAtLowEdge`).
- The level rises by at most one per pass. A pass that takes ten seconds or more
  can cross two ten-second boundaries, and then the level lags behind
  `int(elapsed) // 10 + 1` for a few passes (`Progression.LagAfterLongPass`).
  Shorter pauses, such as the 3-second level messages, cannot cause this
  (`Progression.NoLagFromShortPause`). The level never runs ahead of that value
  (`Game.StepLevel`, `Game.Inv`).
- A destroyed alien scores +1, as the code adds. The "+10 points per hit" text in
  `Game.draw` is display only.
- In `main()` aliens spawn every 3 seconds. The spawn timer starts at 0, and
  `time.time()` is an absolute clock reading, so the first alien appears on the
  very first pass at level 10.
- Both removal tests of the asteroid loop are modelled: `star.y + star.height >=
  player.rect.y` and `colliderect`. The first is implied by the second
  (`Collisions.StrikeGuardRedundant`), so asteroids and aliens fall by the same
  rule (`Collisions.FallGuardIrrelevant`).

## Model

| member | source | states |
|---|---|---|
| `Geometry.Overlaps` | Python_Games/main.py:450 | `colliderect`; for rectangles of positive size it holds exactly when the pixel at (larger left edge, larger top edge) lies in both |
| `Geometry.OverlapsIffSharedPixel` | Python_Games/main.py:450 | for rectangles of positive size, `colliderect` holds iff they share a pixel; touching edges do not collide |
| `Ships.StepAxis` | Python_Games/main.py:172-182 | one axis of `Player.move`: a held key with room moves the ship by exactly `PLAYER_VEL` that way; starting inside `[0, hi]` it stays inside; it moves at most `PLAYER_VEL`, and only toward a held key; no key means no move |
| `Ships.OppositeKeysCancel` | Python_Games/main.py:173-176 | holding both keys of an axis leaves the ship where it is when it is at least `PLAYER_VEL` from the low edge |
| `Ships.OppositeKeysAtLowEdge` | Python_Games/main.py:173-176 | near the low edge, holding both keys moves the ship `PLAYER_VEL` toward the high edge |
| `Ships.Moved` | Python_Games/main.py:172-182 | `Player.move` keeps x in `[0, WIDTH-PLAYER_WIDTH]` and y in `[0, HEIGHT-PLAYER_HEIGHT]` when they start there; each axis changes by at most `PLAYER_VEL`; x takes the `StepAxis` step for a and d, and y the one for w and s once forward movement is enabled, so a held key with room moves the ship; y does not change otherwise; lasers, cooldown stamp and size are untouched |
| `Ships.LaserFrom` | Python_Games/main.py:187-190 | a new laser is horizontally centred on the ship, starts at the ship's top, and is `LASER_WIDTH`×`LASER_HEIGHT` |
| `Ships.Shot` | Python_Games/main.py:184-192 | if `now - last_shot >= LASER_COOLDOWN`, exactly one laser is appended and `last_shot := now`; otherwise nothing changes; the ship rectangle never changes |
| `Ships.NoShotWithinCooldown` | Python_Games/main.py:184-192 | after a shot at t1, a shot attempted before t1 + 500 ms fires nothing, even if the ship moved in between |
| `Ships.Advance` | Python_Games/main.py:239-240 | `Laser.move`: the laser keeps its column and size and its bottom edge rises by `LASER_VEL` |
| `Ships.LasersAdvanced` | Python_Games/main.py:200-204 | every surviving laser is an original moved up by `LASER_VEL` whose bottom edge is still at `y >= 0`; every moved laser with bottom `>= 0` survives; the list never grows |
| `Ships.LasersAdvancedConcat` | Python_Games/main.py:200-204 | the upkeep keeps the survivors in their original order: the upkeep of a concatenation is the concatenation of the upkeeps |
| `Ships.Player.constructor` | Python_Games/main.py:165-170 | a new player has the given rectangle, no lasers, `last_shot == 0` and forward movement off |
| `Ships.Player.Move` | Python_Games/main.py:172-182 | the in-place move leaves exactly `Moved(old state, keys)` |
| `Ships.Player.Shoot` | Python_Games/main.py:184-192 | the in-place shot leaves exactly `Shot(old state, now)` |
| `Ships.Player.UpdateLasers` | Python_Games/main.py:200-204 | walking a snapshot and removing from the live list leaves exactly `LasersAdvanced(old lasers)`; nothing else changes |
| `Collisions.Remove` | Python_Games/main.py:456 | `list.remove` by value on a list that holds the value removes exactly one element |
| `Collisions.RemoveTakesOneCopy` | Python_Games/main.py:456 | `list.remove` takes exactly one copy of the value out, as a multiset |
| `Collisions.RemoveFirstOccurrence` | Python_Games/main.py:456 | `list.remove` by value removes the visited element when no earlier element equals it |
| `Collisions.FirstHit` | Python_Games/main.py:449-450 | the alien a laser hits is one it overlaps, and no earlier alien in list order overlaps it; no result means the laser overlaps no alien |
| `Collisions.LaserPass` | Python_Games/main.py:448-474 | lasers removed = aliens removed = hits, which is the score increase |
| `Collisions.LaserPassOnlyRemoves` | Python_Games/main.py:448-474 | the surviving lasers and aliens are sub-multisets of the ones the pass started with |
| `Collisions.LaserPassLeavesNoOverlap` | Python_Games/main.py:448-474 | after the pass no surviving laser overlaps a surviving alien |
| `Collisions.UntouchedLaserSurvives` | Python_Games/main.py:448-474 | a laser that overlaps no alien survives the pass |
| `Collisions.UntouchedAlienSurvives` | Python_Games/main.py:448-474 | an alien that no laser overlaps survives the pass |
| `Collisions.ScanAliens` | Python_Games/main.py:449-474 | the inner loop that breaks at the first overlap returns the first overlapping alien |
| `Collisions.LaserAlienPass` | Python_Games/main.py:448-474 | the nested loops, with in-place removal and one point per hit, compute `LaserPass`; the score never decreases |
| `Collisions.Fallen` | Python_Games/main.py:481 | an obstacle's move: `y` grows by the step, and column and size are kept, so a star-sized obstacle in the spawn range stays one |
| `Collisions.Sweep` | Python_Games/main.py:480-483 | with no hit the fall loop never produces more obstacles than it was given |
| `Collisions.SweepSurvivors` | Python_Games/main.py:480-483 | every survivor is an original obstacle moved down by the step and is not below the bottom edge (`y <= HEIGHT`); every moved obstacle with `y <= HEIGHT` survives |
| `Collisions.SweepKeepsShape` | Python_Games/main.py:480-483 | when every obstacle is star-sized in the spawn column range, the survivors of the sweep are on screen (`y <= HEIGHT`) and still star-sized in that range |
| `Collisions.SweepConcat` | Python_Games/main.py:480-483 | surviving obstacles keep their order |
| `Collisions.StrikeGuardRedundant` | Python_Games/main.py:484 | the asteroid loop's bottom-below-top test is implied by `colliderect` |
| `Collisions.Fall` | Python_Games/main.py:480-497 | a fall loop never adds obstacles, and a hit always removes one |
| `Collisions.FallKeepsShape` | Python_Games/main.py:480-497 | when every obstacle is star-sized in the spawn column range, so is every survivor of a fall loop |
| `Collisions.FallKeepsColumns` | Python_Games/main.py:480-497 | every survivor of a fall loop has the column and size of an obstacle the loop was given |
| `Collisions.FallBreaksAtFirstLanding` | Python_Games/main.py:480-497 | `break` semantics: the result is the sweep of the obstacles before the first one that lands on the ship; that one is removed, hit is set, and the ones after it are left unmoved; with no landing it is the full sweep and no hit; obstacles past the bottom never set hit |
| `Collisions.FallGuardIrrelevant` | Python_Games/main.py:480-497 | the asteroid loop and the alien loop compute the same result |
| `Collisions.FallPass` | Python_Games/main.py:480-497 | the loop that moves each obstacle in place, removes it by value and breaks on a hit computes `Fall` |
| `Progression.WholeSeconds` | Python_Games/main.py:411 | `int()` of a time in ms truncates toward zero to whole seconds |
| `Progression.TimePoints` | Python_Games/main.py:411 | for t >= 0 ms, `int(t) // 10` is the number of completed ten-second intervals |
| `Progression.TimePointsMonotone` | Python_Games/main.py:411 | a later reading never gives fewer time points |
| `Progression.AccrueTime` | Python_Games/main.py:411-414 | `base_score := max(base_score, time_points)` and the score grows by exactly the growth of `base_score` |
| `Progression.AccrueRunTotals` | Python_Games/main.py:411-414 | over any run of passes, the score gained from time equals the growth of `base_score`, which ends at the best interval count seen |
| `Progression.MonotoneClockPaysEachIntervalOnce` | Python_Games/main.py:411-414 | with a non-decreasing clock, total time points equal `int(elapsed) // 10` of the last reading: nothing is counted twice |
| `Progression.TenSecondBoundary` | Python_Games/main.py:411-414 | crossing the 10 s mark adds exactly one point, and further passes in the same interval add none |
| `Progression.StarVelGrowsWithLevel` | Python_Games/main.py:537-540 | fall speed strictly increases with the level |
| `Progression.LevelUp` | Python_Games/main.py:529-540 | the level rises by one exactly when `int(elapsed)//10 + 1 > LEVEL`, and never by more; the speed grows by 1 (2 half pixels) when the new level is below 5, else by 0.5; it keeps `STAR_VEL` equal to the level's closed form |
| `Progression.NoLagFromShortPause` | Python_Games/main.py:529-530 | a level in step with `int(elapsed)//10 + 1` stays in step across any pass shorter than ten seconds |
| `Progression.LagAfterLongPass` | Python_Games/main.py:529-530 | at level 1, a first reading of 20 s raises the level only to 2 while `int(elapsed)//10 + 1` is 3 |
| `Progression.FallStep` | Python_Games/main.py:481 | obstacles move by the whole part of `STAR_VEL` (half pixels, halved, rounded down), never backwards |
| `Progression.NextThreshold` | Python_Games/main.py:422 | the threshold never goes below 200 and never increases from a valid value |
| `Progression.ThresholdClosedForm` | Python_Games/main.py:417-423 | after n bursts the threshold is `max(200, t - 50n)` |
| `Game.SpawnAt` | Python_Games/main.py:419-428 | a spawned obstacle sits just above the top edge (bottom at 0), is star-sized, and lies in the spawn column range when x does |
| `Game.Burst` | Python_Games/main.py:418-421 | one burst spawns one obstacle per draw, in draw order |
| `Game.Init` | Python_Games/main.py:375-401 | the state main() sets up satisfies the invariant and has not been hit |
| `Game.Clocked` | Python_Games/main.py:407-414 | the spawn counter is charged by `dt`, `base_score` becomes `max(old, time_points)`, and the score grows by exactly as much |
| `Game.Spawned` | Python_Games/main.py:417-430 | a due burst appends exactly `Burst` of the three draws (one star-sized obstacle just above the top edge per draw, in draw order), resets the counter and lowers the threshold; from level 10 a due alien is appended and the timer restarts; nothing else changes |
| `Game.Steered` | Python_Games/main.py:432-445 | quit ends the loop after this pass; the ship moves; it fires only from level 10 with space held; lasers advance; `last_shot` changes only on a shot that passed the cooldown |
| `Game.Shooting` | Python_Games/main.py:448-474 | score gained = lasers consumed = aliens destroyed; only lasers, aliens and score change |
| `Game.Fell` | Python_Games/main.py:480-497 | hit is set exactly when either fall loop reports a hit; the lists never grow; only the lists and hit change |
| `Game.Progressed` | Python_Games/main.py:529-549 | level and speed follow `LevelUp`; reaching level 5 turns forward movement on once, for good |
| `Game.Armed` | Python_Games/main.py:407-445 | the phases up to the laser upkeep leave level, speed, clock start, the level-5 flag and hit alone, end the loop after a quit, and move the ship by `Moved` |
| `Game.Step` | Python_Games/main.py:403-549 | one pass: hit is the fall loops' verdict; on a hit the pass returns before the level-up, so level and speed are unchanged; otherwise they follow `LevelUp` of the elapsed time; a quit ends the loop after the pass |
| `Game.StepKeepsInv` | Python_Games/main.py:403-549 | each pass keeps the invariant: 1 <= level <= base_score+1; 0 <= base_score <= score; `STAR_VEL` matches the level's closed form; forward movement is on iff level >= 5; threshold in [200, 2000]; no lasers or aliens before level 10; the ship on screen; every obstacle star-sized in the spawn range |
| `Game.StepLevel` | Python_Games/main.py:529-540 | per pass the level never falls, rises by at most 1, never past `int(elapsed)//10 + 1`, and on a rise the speed grows by 1 below level 5, else 0.5 |
| `Game.StepForwardMovement` | Python_Games/main.py:542-549 | forward movement, once on, stays on, and it is on after any pass that ends at level 5 or more |
| `Game.StepScore` | Python_Games/main.py:411-458 | `base_score := max(old, int(elapsed)//10)`; the score grows by that increase plus one per laser consumed in the alien pass |
| `Game.StepSpawnBudget` | Python_Games/main.py:407-423 | a burst is due iff the charged counter reaches the threshold; then the counter resets and the threshold becomes `max(200, t-50)`; otherwise only the charge changes |
| `Game.StepCooldown` | Python_Games/main.py:441-442 | a new shot needs level 10, space held and 500 ms since the last shot, and it stamps this pass's tick reading |
| `GameLoop.Session.constructor` | Python_Games/main.py:375-401 | the new session holds `Game.Init(start)` |
| `GameLoop.Session.Tick` | Python_Games/main.py:403-549 | one in-place pass leaves exactly `Step(old state, input)` |
| `GameLoop.Session.ChargeClock` | Python_Games/main.py:407-414 | the in-place phase leaves exactly `Clocked` |
| `GameLoop.SpawnBurst` | Python_Games/main.py:418-421 | the `range(3)` loop appends one asteroid per draw, in draw order: exactly `Burst` of the draws |
| `GameLoop.Session.SpawnObstacles` | Python_Games/main.py:417-430 | the in-place phase leaves exactly `Spawned` |
| `GameLoop.Session.Steer` | Python_Games/main.py:432-445 | the in-place phase leaves exactly `Steered` |
| `GameLoop.Session.ResolveShots` | Python_Games/main.py:448-474 | the in-place phase leaves exactly `Shooting` |
| `GameLoop.Session.DropObstacles` | Python_Games/main.py:480-497 | the in-place phase leaves exactly `Fell` |
| `GameLoop.Session.Progress` | Python_Games/main.py:529-549 | the in-place phase leaves exactly `Progressed` |
| `ScoreBoard.MinScore` | Python_Games/main.py:101 | the result is at most every entry's score and equals one of them |
| `ScoreBoard.InsertDesc` | Python_Games/main.py:104 | placing an entry adds exactly that entry (as a multiset) |
| `ScoreBoard.InsertDescSorted` | Python_Games/main.py:104 | placing an entry into a descending table keeps it descending |
| `ScoreBoard.SortDesc` | Python_Games/main.py:104 | the sort is a permutation of its input |
| `ScoreBoard.SortDescSorted` | Python_Games/main.py:104 | the sort's result is descending by score |
| `ScoreBoard.SortDescOfSorted` | Python_Games/main.py:104 | sorting an already descending table changes nothing (ties keep their order) |
| `ScoreBoard.UpdateTopScores` | Python_Games/main.py:99-105 | the entry is inserted iff `len < 5` or `score > min`; the result is then sorted descending, has `min(5, len+1)` entries, all drawn from the old table plus the new entry; otherwise the table is unchanged |
| `ScoreBoard.TopScoresOfSortedTable` | Python_Games/main.py:99-105 | for a descending table, the new entry goes after every entry scoring at least as much, and the table is cut to five |
| `ScoreBoard.MinScoreOfPermutation` | Python_Games/main.py:101 | reordering a table does not change its lowest score |
| `ScoreBoard.QualifyingEntryIsKept` | Python_Games/main.py:99-105 | with a table of at most five entries in any order, a qualifying score is always in the new table |
| `ScoreBoard.CutKeepsTheBest` | Python_Games/main.py:104 | the entries cut off by `[:5]` score no more than any kept entry |
| `ScoreBoard.FirstScoreFillsEmptyTable` | Python_Games/main.py:99-105 | an empty table and a final score of 12 give exactly one entry, with that name and 12 |
| `Scrolling.Background.constructor` | Python_Games/main.py:147-150 | the two scroll offsets start at 0 and -HEIGHT and satisfy the tiling invariant |
| `Scrolling.Background.Update` | Python_Games/main.py:152-158 | each offset advances by one and wraps to -HEIGHT once it reaches HEIGHT; offsets that were in [-HEIGHT, HEIGHT) and one screen apart stay so |

## Left out

- Drawing is not modelled, because it is presentation only. This covers `draw`, `draw_background`, `draw_button`, the `draw` methods, the explosion position and image, the level-5 and level-10 messages, and the main() scroll counters that only feed `draw_background`.
- Sound is not modelled, because it has no effect on game state. This covers the laser and explosion sounds with their `try/except`, and the music calls.
- `pygame.time.delay` is not modelled. Its pauses affect the state only through the clock readings, which are inputs.
- File I/O is not modelled. `load_top_scores` and `save_top_scores` read and write JSON: the table is a parameter and the result is returned. The name from `get_player_name` is a string parameter.
- `ask_play_again`, the restart through `main()`/`menu()`, `menu`, `options_menu` (float volume arithmetic) and `display_top_scores` are not modelled. They are interactive screens and unbounded control flow between them, not game logic. A game over is the `hit` flag of the last pass, followed by `ScoreBoard.UpdateTopScores` on the final score.
- The `Game` class loop (`Game.update`, `spawn_asteroid`, `spawn_alien`, `run_game`, main.py:245-369) is a second, unused variant. It has fixed 3 s and 2 s spawn timers. Its laser pass (main.py:279-305) is the same pass as `Collisions.LaserPass`, but it reads `alien.rect` where main() has bare Rects.
- Time is whole milliseconds. `time.time()` and `get_ticks()` are read as integers, so sub-millisecond differences in the 3 s alien timer and the 500 ms cooldown are lost.
- Fractional fall speed is simplified. From level 5 `STAR_VEL` has a half pixel, and pygame's float-to-int Rect rounding is not modelled. Obstacles move by the whole part of `STAR_VEL` (`Progression.FallStep`). The half-pixel speed itself is tracked exactly.
- Rectangles of zero or negative size are not modelled. Every rectangle the game builds has positive size, and `Geometry.Overlaps` is pygame's collision test for those.
- `random.randint` is not modelled. Its draws are inputs, bounded by `Game.ValidInput`.
- `Python_Games/main.py`'s quit handling only leaves the event loop; the rest of that pass still runs. The model has the same effect: `running` becomes false and the pass completes.
- A top-score table given to `UpdateTopScores` may hold any entries. A table that is not sorted is sorted by the update, as in the source. Malformed JSON records (missing keys, non-integer scores) are not modelled.

/** Time score, level progression and the asteroid spawn budget: the
    counters main() keeps between ticks. */
module Progression {
  import opened Geometry

  /** int(elapsed_time) for an elapsed time given in milliseconds: Python's
      int() truncates toward zero. */
  function WholeSeconds(ms: int): (s: int)
    ensures ms >= 0 ==> 0 <= s && s * 1000 <= ms < s * 1000 + 1000
    ensures ms < 0 ==> s <= 0 && s * 1000 - 1000 < ms <= s * 1000
  {
    if ms >= 0 then ms / 1000 else -((-ms) / 1000)
  }

  /** time_points = int(elapsed_time) // 10: one point per completed ten
      seconds. Python's // floors, as Dafny's / does for a positive divisor. */
  function TimePoints(ms: int): (p: int)
    ensures ms >= 0 ==> 0 <= p && p * 10000 <= ms < p * 10000 + 10000
  {
    WholeSeconds(ms) / 10
  }

  lemma TimePointsMonotone(a: int, b: int)
    requires a <= b
    ensures TimePoints(a) <= TimePoints(b)
  {
    assert WholeSeconds(a) <= WholeSeconds(b) by {
      if a < 0 && b < 0 {
        assert (-b) / 1000 <= (-a) / 1000;
      }
    }
  }

  // ------------------------------------------------------------ time score

  /** The score and the part of it already paid for survival time. */
  datatype Tally = Tally(score: int, baseScore: int)

  /** Lines 411-414: the intervals completed since the last payment are
      added to the score, and base_score records them. */
  function AccrueTime(t: Tally, ms: int): (r: Tally)
    ensures r.baseScore == Max(t.baseScore, TimePoints(ms))
    ensures r.score - t.score == r.baseScore - t.baseScore
  {
    var timePoints := TimePoints(ms);
    if timePoints > t.baseScore then Tally(t.score + (timePoints - t.baseScore), timePoints) else t
  }

  /** The time score over a run of ticks with elapsed readings `readings`. */
  function AccrueRun(t: Tally, readings: seq<int>): Tally
    decreases readings
  {
    if readings == [] then t else AccrueRun(AccrueTime(t, readings[0]), readings[1..])
  }

  /** The largest payment any reading (or b itself) calls for. */
  function PeakPoints(b: int, readings: seq<int>): int
    decreases readings
  {
    if readings == [] then b else PeakPoints(Max(b, TimePoints(readings[0])), readings[1..])
  }

  /** Over any run the score gained from time equals the growth of
      base_score, which ends at the best interval count seen: nothing is
      paid twice. */
  lemma {:induction false} AccrueRunTotals(t: Tally, readings: seq<int>)
    ensures AccrueRun(t, readings).score - t.score == AccrueRun(t, readings).baseScore - t.baseScore
    ensures AccrueRun(t, readings).baseScore == PeakPoints(t.baseScore, readings)
    decreases readings
  {
    if readings != [] {
      AccrueRunTotals(AccrueTime(t, readings[0]), readings[1..]);
    }
  }

  predicate NonDecreasing(readings: seq<int>) {
    forall i, j :: 0 <= i <= j < |readings| ==> readings[i] <= readings[j]
  }

  /** With a clock that never goes back, the time score of a run is exactly
      one point per completed ten seconds of the last reading. */
  lemma {:induction false} MonotoneClockPaysEachIntervalOnce(t: Tally, readings: seq<int>)
    requires |readings| > 0 && NonDecreasing(readings)
    requires t.baseScore <= TimePoints(readings[0])
    ensures var last := TimePoints(readings[|readings| - 1]);
      AccrueRun(t, readings) == Tally(t.score + last - t.baseScore, last)
    decreases readings
  {
    var t1 := AccrueTime(t, readings[0]);
    if |readings| > 1 {
      TimePointsMonotone(readings[0], readings[1]);
      MonotoneClockPaysEachIntervalOnce(t1, readings[1..]);
    }
  }

  /** The ten second boundary: from a fresh tally, ticks before and
      after the ten second mark add exactly one point. */
  lemma TenSecondBoundary(a: int, b: int)
    requires 0 <= a < 10000 <= b < 20000
    ensures AccrueTime(AccrueTime(Tally(0, 0), a), b) == Tally(1, 1)
    ensures AccrueTime(AccrueTime(Tally(1, 1), b), b) == Tally(1, 1)
  {
  }

  // ------------------------------------------------------------- level-up

  const FIRST_LEVEL: int := 1
  /** STAR_VEL is kept in half pixels: it starts at 3 and later grows by 0.5. */
  const START_STAR_VEL_HALF: int := 6
  /** The level at which forward and backward movement is unlocked. */
  const FORWARD_LEVEL: int := 5
  /** The level from which the ship may shoot and aliens spawn. */
  const SHOOTING_LEVEL: int := 10

  /** STAR_VEL (in half pixels) at a level, in closed form: 3 at level 1,
      one more per level up to level 4, then half a pixel more per level. */
  function StarVelHalfAt(level: int): int {
    if level <= 4 then 2 * level + 4 else level + 8
  }

  lemma StarVelGrowsWithLevel(a: int, b: int)
    requires a < b
    ensures StarVelHalfAt(a) < StarVelHalfAt(b)
  {
  }

  /** The level and the fall speed. */
  datatype Pace = Pace(level: int, starVelHalf: int)

  /** Lines 529-540: one level at a time while the elapsed time is ahead of
      the level; the speed grows by 1 below level 5 and by 0.5 from it on. */
  function LevelUp(p: Pace, ms: int): (r: Pace)
    ensures p.level <= r.level <= p.level + 1
    ensures r.level > p.level <==> TimePoints(ms) + 1 > p.level
    ensures r.level == p.level ==> r == p
    ensures r.level > p.level ==> r.starVelHalf == p.starVelHalf + (if r.level < FORWARD_LEVEL then 2 else 1)
    ensures p.starVelHalf == StarVelHalfAt(p.level) && p.level >= FIRST_LEVEL ==> r.starVelHalf == StarVelHalfAt(r.level)
  {
    if TimePoints(ms) + 1 > p.level then
      var level := p.level + 1;
      Pace(level, p.starVelHalf + if level < FORWARD_LEVEL then 2 else 1)
    else p
  }

  /** A level that is in step with the clock stays in step across any pass
      shorter than ten seconds: such a pass crosses at most one boundary. */
  lemma NoLagFromShortPause(level: int, sv: int, e1: int, e2: int)
    requires 0 <= e1 <= e2 < e1 + 10000 && level == TimePoints(e1) + 1
    ensures LevelUp(Pace(level, sv), e2).level == TimePoints(e2) + 1
  {
    assert TimePoints(e2) <= TimePoints(e1) + 1;
  }

  /** A pass of twenty seconds crosses two boundaries, and the level, which
      rises one step per pass, falls behind the clock. */
  lemma LagAfterLongPass()
    ensures LevelUp(Pace(FIRST_LEVEL, START_STAR_VEL_HALF), 20000).level == 2
    ensures TimePoints(20000) + 1 == 3
  {
  }

  /** Obstacles move by whole pixels: the half pixel of a fractional STAR_VEL
      is dropped. */
  function FallStep(starVelHalf: int): (step: int)
    ensures 2 * step <= starVelHalf < 2 * step + 2
    ensures starVelHalf >= 0 ==> step >= 0
  {
    starVelHalf / 2
  }

  // ---------------------------------------------------------- spawn budget

  const STAR_ADD_START: int := 2000
  const STAR_ADD_FLOOR: int := 200
  const STAR_ADD_STEP: int := 50
  /** Asteroids spawned per burst. */
  const BURST: int := 3

  /** Line 422: the threshold shrinks by a step, never below the floor. */
  function NextThreshold(t: int): (r: int)
    ensures r >= STAR_ADD_FLOOR
    ensures t >= STAR_ADD_FLOOR ==> r <= t
    ensures t > STAR_ADD_FLOOR ==> r < t
  {
    Max(STAR_ADD_FLOOR, t - STAR_ADD_STEP)
  }

  /** The threshold after n bursts. */
  function ThresholdAfter(t: int, n: nat): int {
    if n == 0 then t else NextThreshold(ThresholdAfter(t, n - 1))
  }

  /** After n bursts the threshold is n steps lower, or at the floor:
      from 2000 it reaches 200 after 36 bursts and stays there. */
  lemma {:induction false} ThresholdClosedForm(t: int, n: nat)
    requires t >= STAR_ADD_FLOOR
    ensures ThresholdAfter(t, n) == Max(STAR_ADD_FLOOR, t - STAR_ADD_STEP * n)
  {
    if n > 0 {
      ThresholdClosedForm(t, n - 1);
    }
  }
}

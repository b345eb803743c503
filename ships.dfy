/** The player's ship: keyboard movement inside the field, firing under a
    cooldown, and the upkeep of the lasers it owns. */
module Ships {
  import opened Geometry

  /** The keys that Player.move and the firing test look at:
      a (left), d (right), w (up), s (down) and space (fire). */
  datatype Keys = Keys(left: bool, right: bool, up: bool, down: bool, fire: bool)

  /** The value held by a Player object. */
  datatype Ship = Ship(rect: Rect, lasers: seq<Rect>, lastShot: int, forward: bool)

  /** One axis of Player.move: the decreasing key is tried first, then the
      increasing key against the position the first step left behind. */
  function StepAxis(v: int, dec: bool, inc: bool, hi: int): (r: int)
    ensures 0 <= v <= hi ==> 0 <= r <= hi
    ensures v - PLAYER_VEL <= r <= v + PLAYER_VEL
    ensures !dec && !inc ==> r == v
    ensures r < v ==> dec && r == v - PLAYER_VEL
    ensures r > v ==> inc && r == v + PLAYER_VEL
    ensures dec && !inc && v - PLAYER_VEL >= 0 ==> r == v - PLAYER_VEL
    ensures inc && !dec && v + PLAYER_VEL <= hi ==> r == v + PLAYER_VEL
  {
    var v1 := if dec && v - PLAYER_VEL >= 0 then v - PLAYER_VEL else v;
    if inc && v1 + PLAYER_VEL <= hi then v1 + PLAYER_VEL else v1
  }

  /** Holding both keys of an axis leaves the ship where it is away from the
      low edge ... */
  lemma OppositeKeysCancel(v: int, hi: int)
    requires PLAYER_VEL <= v <= hi
    ensures StepAxis(v, true, true, hi) == v
  {
  }

  /** ... but near the low edge the decreasing step is refused and the
      increasing one is not, so the ship moves. */
  lemma OppositeKeysAtLowEdge(v: int, hi: int)
    requires 0 <= v < PLAYER_VEL && v + PLAYER_VEL <= hi
    ensures StepAxis(v, true, true, hi) == v + PLAYER_VEL
  {
  }

  /** Player.move: the horizontal step always, the vertical step only once
      forward movement is unlocked. */
  function Moved(s: Ship, keys: Keys): (r: Ship)
    ensures r.lasers == s.lasers && r.lastShot == s.lastShot && r.forward == s.forward
    ensures r.rect.w == s.rect.w && r.rect.h == s.rect.h
    ensures 0 <= s.rect.x <= WIDTH - PLAYER_WIDTH ==> 0 <= r.rect.x <= WIDTH - PLAYER_WIDTH
    ensures 0 <= s.rect.y <= HEIGHT - PLAYER_HEIGHT ==> 0 <= r.rect.y <= HEIGHT - PLAYER_HEIGHT
    ensures s.rect.x - PLAYER_VEL <= r.rect.x <= s.rect.x + PLAYER_VEL
    ensures s.rect.y - PLAYER_VEL <= r.rect.y <= s.rect.y + PLAYER_VEL
    ensures !s.forward ==> r.rect.y == s.rect.y
    ensures r.rect.x == StepAxis(s.rect.x, keys.left, keys.right, WIDTH - PLAYER_WIDTH)
    ensures s.forward ==> r.rect.y == StepAxis(s.rect.y, keys.up, keys.down, HEIGHT - PLAYER_HEIGHT)
  {
    var x := StepAxis(s.rect.x, keys.left, keys.right, WIDTH - PLAYER_WIDTH);
    var y := if s.forward then StepAxis(s.rect.y, keys.up, keys.down, HEIGHT - PLAYER_HEIGHT) else s.rect.y;
    s.(rect := s.rect.(x := x, y := y))
  }

  /** The laser Player.shoot creates: centred on the ship, starting at its top. */
  function LaserFrom(r: Rect): (l: Rect)
    ensures l.CenterX() == r.CenterX() && l.y == r.y
    ensures l.w == LASER_WIDTH && l.h == LASER_HEIGHT
  {
    Rect(r.CenterX() - LASER_WIDTH / 2, r.y, LASER_WIDTH, LASER_HEIGHT)
  }

  predicate CooledDown(s: Ship, now: int) { now - s.lastShot >= LASER_COOLDOWN }

  /** Player.shoot at clock reading now (milliseconds). */
  function Shot(s: Ship, now: int): (r: Ship)
    ensures r.rect == s.rect && r.forward == s.forward
    ensures CooledDown(s, now) ==> r.lasers == s.lasers + [LaserFrom(s.rect)] && r.lastShot == now
    ensures !CooledDown(s, now) ==> r == s
  {
    if CooledDown(s, now) then s.(lasers := s.lasers + [LaserFrom(s.rect)], lastShot := now) else s
  }

  /** After a shot fired at t1, no shot fires before t1 + LASER_COOLDOWN,
      whatever the ship did in between without shooting. */
  lemma NoShotWithinCooldown(s: Ship, t1: int, keys: Keys, t2: int)
    requires CooledDown(s, t1) && t2 - t1 < LASER_COOLDOWN
    ensures Shot(Moved(Shot(s, t1), keys), t2) == Moved(Shot(s, t1), keys)
  {
  }

  /** Laser.move: one step up the screen, in the same column. */
  function Advance(l: Rect): (r: Rect)
    ensures r.x == l.x && r.w == l.w && r.h == l.h
    ensures r.Bottom() == l.Bottom() - LASER_VEL
  {
    l.(y := l.y - LASER_VEL)
  }

  /** Player.update_lasers: every laser moves up, and those whose bottom edge
      has left the top of the screen are dropped. */
  function LasersAdvanced(ls: seq<Rect>): (r: seq<Rect>)
    ensures |r| <= |ls|
    ensures forall m :: m in r ==> m.Bottom() >= 0 && exists l :: l in ls && m == Advance(l)
    ensures forall l :: l in ls && Advance(l).Bottom() >= 0 ==> Advance(l) in r
  {
    if ls == [] then []
    else
      var rest := LasersAdvanced(ls[1..]);
      var m := Advance(ls[0]);
      assert forall l :: l in ls[1..] ==> l in ls;
      if m.Bottom() < 0 then rest else [m] + rest
  }

  /** The survivors keep their order: the upkeep of a concatenation is the
      concatenation of the upkeeps. */
  lemma {:induction false} LasersAdvancedConcat(a: seq<Rect>, b: seq<Rect>)
    ensures LasersAdvanced(a + b) == LasersAdvanced(a) + LasersAdvanced(b)
  {
    if a == [] {
      assert a + b == b;
    } else {
      assert (a + b)[1..] == a[1..] + b;
      LasersAdvancedConcat(a[1..], b);
    }
  }

  /** The upkeep loop's invariant after i lasers of the snapshot: the live
      list from k on holds the unvisited lasers, and the ones before k are
      the survivors so far. */
  ghost predicate UpkeepInv(snapshot: seq<Rect>, live: seq<Rect>, k: nat, i: nat) {
    i <= |snapshot| && k <= |live| && live[k..] == snapshot[i..] &&
    LasersAdvanced(snapshot) == live[..k] + LasersAdvanced(snapshot[i..])
  }

  /** One laser of the upkeep loop keeps the invariant, whether it survives
      or is dropped. */
  lemma UpkeepStep(snapshot: seq<Rect>, live: seq<Rect>, k: nat, i: nat)
    requires UpkeepInv(snapshot, live, k, i) && i < |snapshot|
    ensures var m := Advance(live[k]); var moved := live[k := m];
      if m.Bottom() < 0 then UpkeepInv(snapshot, moved[..k] + moved[k + 1..], k, i + 1)
      else UpkeepInv(snapshot, moved, k + 1, i + 1)
  {
    assert snapshot[i..] == [snapshot[i]] + snapshot[i + 1..];
    var m := Advance(live[k]);
    var moved := live[k := m];
    assert moved[..k] == live[..k];
    assert moved[k + 1..] == live[k + 1..];
    if m.Bottom() < 0 {
      var rest := moved[..k] + moved[k + 1..];
      assert rest[..k] == live[..k];
      assert rest[k..] == live[k + 1..];
    } else {
      assert moved[..k + 1] == live[..k] + [m];
    }
  }

  class Player {
    var rect: Rect
    var lasers: seq<Rect>
    var lastShot: int
    var forwardMovementEnabled: bool

    function State(): Ship
      reads this
    {
      Ship(rect, lasers, lastShot, forwardMovementEnabled)
    }

    constructor (x: int, y: int, width: int, height: int)
      ensures State() == Ship(Rect(x, y, width, height), [], 0, false)
    {
      rect := Rect(x, y, width, height);
      lasers := [];
      lastShot := 0;
      forwardMovementEnabled := false;
    }

    method Move(keys: Keys)
      modifies this
      ensures State() == Moved(old(State()), keys)
    {
      if keys.left && rect.x - PLAYER_VEL >= 0 {
        rect := rect.(x := rect.x - PLAYER_VEL);
      }
      if keys.right && rect.x + PLAYER_VEL <= WIDTH - PLAYER_WIDTH {
        rect := rect.(x := rect.x + PLAYER_VEL);
      }
      if forwardMovementEnabled {
        if keys.up && rect.y - PLAYER_VEL >= 0 {
          rect := rect.(y := rect.y - PLAYER_VEL);
        }
        if keys.down && rect.y + PLAYER_VEL <= HEIGHT - PLAYER_HEIGHT {
          rect := rect.(y := rect.y + PLAYER_VEL);
        }
      }
    }

    method Shoot(now: int)
      modifies this
      ensures State() == Shot(old(State()), now)
    {
      if now - lastShot >= LASER_COOLDOWN {
        var laser := Rect(rect.CenterX() - LASER_WIDTH / 2, rect.y, LASER_WIDTH, LASER_HEIGHT);
        lasers := lasers + [laser];
        lastShot := now;
      }
    }

    /** Walks a snapshot of the lasers; each laser is moved where it stands
        in the live list and, once off screen, removed from it. */
    method UpdateLasers()
      modifies this
      ensures State() == old(State()).(lasers := LasersAdvanced(old(lasers)))
    {
      var snapshot := lasers;
      var live := lasers;
      var i, k := 0, 0;
      while i < |snapshot|
        invariant UpkeepInv(snapshot, live, k, i)
        invariant unchanged(this)
      {
        UpkeepStep(snapshot, live, k, i);
        var laser := Advance(live[k]);
        live := live[k := laser];
        if laser.Bottom() < 0 {
          live := live[..k] + live[k + 1..];
        } else {
          k := k + 1;
        }
        i := i + 1;
      }
      assert snapshot[i..] == [];
      assert live[..k] == live;
      lasers := live;
    }
  }
}

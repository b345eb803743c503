/** The two collision passes of the game loop: lasers against aliens, and
    the falling obstacles (asteroids, aliens) against the player. Each pass
    is a pure reference definition plus a method that replays the source's
    loop, which removes from the live list while it walks a snapshot. */
module Collisions {
  import opened Geometry

  datatype Option<T> = None | Some(value: T)

  /** The position of the first element satisfying p, if any. */
  function FirstIndex<T>(s: seq<T>, p: T -> bool): (r: Option<nat>)
    ensures r.Some? ==> r.value < |s| && p(s[r.value]) && forall k :: 0 <= k < r.value ==> !p(s[k])
    ensures r.None? ==> forall k :: 0 <= k < |s| ==> !p(s[k])
  {
    if s == [] then None
    else if p(s[0]) then Some(0)
    else match FirstIndex(s[1..], p)
      case None => assert forall k :: 1 <= k < |s| ==> s[k] == s[1..][k - 1]; None
      case Some(j) => assert forall k :: 1 <= k < |s| ==> s[k] == s[1..][k - 1]; Some(j + 1)
  }

  function RemoveAt(s: seq<Rect>, i: nat): (r: seq<Rect>)
    requires i < |s|
    ensures |r| == |s| - 1
    ensures multiset(r) == multiset(s) - multiset{s[i]}
  {
    assert s == s[..i] + [s[i]] + s[i + 1..];
    s[..i] + s[i + 1..]
  }

  /** Python's list.remove on a list of pygame Rects, which compare by value:
      the first element equal to v goes. */
  function Remove(s: seq<Rect>, v: Rect): (r: seq<Rect>)
    requires v in s
    ensures |r| == |s| - 1
  {
    if s[0] == v then s[1..] else [s[0]] + Remove(s[1..], v)
  }

  /** Exactly one copy of v leaves the list. */
  lemma {:induction false} RemoveTakesOneCopy(s: seq<Rect>, v: Rect)
    requires v in s
    ensures multiset(Remove(s, v)) == multiset(s) - multiset{v}
  {
    assert s == [s[0]] + s[1..];
    if s[0] != v {
      RemoveTakesOneCopy(s[1..], v);
    }
  }

  /** Removing by value removes the element at i when no earlier element
      equals it. */
  lemma {:induction false} RemoveFirstOccurrence(s: seq<Rect>, i: nat)
    requires i < |s| && s[i] !in s[..i]
    ensures Remove(s, s[i]) == RemoveAt(s, i)
  {
    if i > 0 {
      assert s[1..][i - 1] == s[i];
      assert s[1..][..i - 1] == s[1..i];
      assert s[..i] == [s[0]] + s[1..i];
      RemoveFirstOccurrence(s[1..], i - 1);
      assert [s[0]] + s[1..][..i - 1] == s[..i];
      assert s[1..][i..] == s[i + 1..];
    }
  }

  lemma SubMultisetMembers(a: seq<Rect>, b: seq<Rect>)
    requires multiset(a) <= multiset(b)
    ensures forall x :: x in a ==> x in b
  {
    forall x | x in a ensures x in b {
      assert x in multiset(a);
    }
  }

  // ---------------------------------------------------------------- lasers

  /** The alien a laser destroys: the first one in list order it overlaps. */
  function FirstHit(l: Rect, aliens: seq<Rect>): (r: Option<nat>)
    ensures r.Some? ==> r.value < |aliens| && Overlaps(l, aliens[r.value])
    ensures r.Some? ==> forall k :: 0 <= k < r.value ==> !Overlaps(l, aliens[k])
    ensures r.None? ==> forall a :: a in aliens ==> !Overlaps(l, a)
  {
    FirstIndex(aliens, a => Overlaps(l, a))
  }

  datatype PassResult = PassResult(lasers: seq<Rect>, aliens: seq<Rect>, hits: nat)

  /** The laser-versus-alien pass: lasers are taken in order, each against
      the aliens still alive; a laser that overlaps one destroys the first such
      alien and itself, and scores one hit. */
  function LaserPass(lasers: seq<Rect>, aliens: seq<Rect>): (r: PassResult)
    ensures |r.lasers| + r.hits == |lasers|
    ensures |r.aliens| + r.hits == |aliens|
  {
    if lasers == [] then PassResult([], aliens, 0)
    else
      match FirstHit(lasers[0], aliens)
      case None =>
        var rest := LaserPass(lasers[1..], aliens);
        PassResult([lasers[0]] + rest.lasers, rest.aliens, rest.hits)
      case Some(j) =>
        var rest := LaserPass(lasers[1..], RemoveAt(aliens, j));
        PassResult(rest.lasers, rest.aliens, rest.hits + 1)
  }

  /** The pass only removes: the surviving lasers and aliens are drawn from
      the ones it started with. */
  lemma {:induction false} LaserPassOnlyRemoves(lasers: seq<Rect>, aliens: seq<Rect>)
    ensures multiset(LaserPass(lasers, aliens).lasers) <= multiset(lasers)
    ensures multiset(LaserPass(lasers, aliens).aliens) <= multiset(aliens)
  {
    if lasers != [] {
      assert lasers == [lasers[0]] + lasers[1..];
      match FirstHit(lasers[0], aliens)
      case None =>
        LaserPassOnlyRemoves(lasers[1..], aliens);
      case Some(j) =>
        LaserPassOnlyRemoves(lasers[1..], RemoveAt(aliens, j));
    }
  }

  /** After the pass no surviving laser overlaps a surviving alien. */
  lemma {:induction false} LaserPassLeavesNoOverlap(lasers: seq<Rect>, aliens: seq<Rect>)
    ensures var r := LaserPass(lasers, aliens);
      forall m, a :: m in r.lasers && a in r.aliens ==> !Overlaps(m, a)
  {
    if lasers != [] {
      match FirstHit(lasers[0], aliens)
      case None =>
        var rest := LaserPass(lasers[1..], aliens);
        LaserPassLeavesNoOverlap(lasers[1..], aliens);
        LaserPassOnlyRemoves(lasers[1..], aliens);
        SubMultisetMembers(rest.aliens, aliens);
      case Some(j) =>
        LaserPassLeavesNoOverlap(lasers[1..], RemoveAt(aliens, j));
    }
  }

  /** A laser that overlaps no alien survives the pass. */
  lemma {:induction false} UntouchedLaserSurvives(lasers: seq<Rect>, aliens: seq<Rect>, m: Rect)
    requires m in lasers
    requires forall a :: a in aliens ==> !Overlaps(m, a)
    ensures m in LaserPass(lasers, aliens).lasers
  {
    assert lasers == [lasers[0]] + lasers[1..];
    match FirstHit(lasers[0], aliens)
    case None =>
      if m != lasers[0] {
        UntouchedLaserSurvives(lasers[1..], aliens, m);
      }
    case Some(j) =>
      assert m != lasers[0];
      var rest := RemoveAt(aliens, j);
      SubMultisetMembers(rest, aliens);
      UntouchedLaserSurvives(lasers[1..], rest, m);
  }

  /** An alien that no laser overlaps survives the pass. */
  lemma {:induction false} UntouchedAlienSurvives(lasers: seq<Rect>, aliens: seq<Rect>, a: Rect)
    requires a in aliens
    requires forall m :: m in lasers ==> !Overlaps(m, a)
    ensures a in LaserPass(lasers, aliens).aliens
  {
    if lasers != [] {
      assert lasers == [lasers[0]] + lasers[1..];
      match FirstHit(lasers[0], aliens)
      case None =>
        UntouchedAlienSurvives(lasers[1..], aliens, a);
      case Some(j) =>
        assert aliens[j] != a;
        var rest := RemoveAt(aliens, j);
        assert a in multiset(aliens);
        assert a in multiset(rest);
        UntouchedAlienSurvives(lasers[1..], rest, a);
    }
  }

  /** The pass run on the lasers after `done` were already settled with
      `hits` hits. */
  function Resume(done: seq<Rect>, hits: nat, r: PassResult): PassResult {
    PassResult(done + r.lasers, r.aliens, hits + r.hits)
  }

  lemma ResumeMiss(done: seq<Rect>, hits: nat, laser: Rect, rest: seq<Rect>, aliens: seq<Rect>)
    requires FirstHit(laser, aliens).None?
    ensures Resume(done, hits, LaserPass([laser] + rest, aliens)) == Resume(done + [laser], hits, LaserPass(rest, aliens))
  {
    assert ([laser] + rest)[1..] == rest;
  }

  lemma ResumeHit(done: seq<Rect>, hits: nat, laser: Rect, rest: seq<Rect>, aliens: seq<Rect>)
    requires FirstHit(laser, aliens).Some?
    ensures Resume(done, hits, LaserPass([laser] + rest, aliens))
         == Resume(done, hits + 1, LaserPass(rest, RemoveAt(aliens, FirstHit(laser, aliens).value)))
  {
    assert ([laser] + rest)[1..] == rest;
  }

  /** The inner loop of the pass: walks a snapshot of the aliens and stops
      at the first one the laser overlaps. */
  method ScanAliens(laser: Rect, aliens: seq<Rect>) returns (target: Option<nat>)
    ensures target == FirstHit(laser, aliens)
  {
    target := None;
    var j := 0;
    while j < |aliens|
      invariant 0 <= j <= |aliens|
      invariant forall m :: 0 <= m < j ==> !Overlaps(laser, aliens[m])
    {
      if Overlaps(laser, aliens[j]) {
        target := Some(j);
        break;
      }
      j := j + 1;
    }
  }

  /** The outer loop's invariant after i lasers of the snapshot: the live
      lasers from k on are the unvisited ones, and settling them against the
      live aliens completes the pass with `hits` hits already scored. */
  ghost predicate PassInv(snapshot: seq<Rect>, aliens0: seq<Rect>, lasers: seq<Rect>, k: nat, i: nat,
                          aliens: seq<Rect>, hits: nat)
  {
    i <= |snapshot| && k <= |lasers| && lasers[k..] == snapshot[i..] &&
    LaserPass(snapshot, aliens0) == Resume(lasers[..k], hits, LaserPass(snapshot[i..], aliens))
  }

  /** A laser that hits nothing stays in place, and the walk moves past it. */
  lemma MissStep(snapshot: seq<Rect>, aliens0: seq<Rect>, lasers: seq<Rect>, k: nat, i: nat,
                 aliens: seq<Rect>, hits: nat)
    requires PassInv(snapshot, aliens0, lasers, k, i, aliens, hits) && i < |snapshot|
    requires FirstHit(snapshot[i], aliens).None?
    ensures PassInv(snapshot, aliens0, lasers, k + 1, i + 1, aliens, hits)
  {
    assert snapshot[i..] == [snapshot[i]] + snapshot[i + 1..];
    ResumeMiss(lasers[..k], hits, snapshot[i], snapshot[i + 1..], aliens);
    assert lasers[..k + 1] == lasers[..k] + [snapshot[i]];
  }

  /** A laser that hits leaves the live list together with the alien. */
  lemma HitStep(snapshot: seq<Rect>, aliens0: seq<Rect>, lasers: seq<Rect>, k: nat, i: nat,
                aliens: seq<Rect>, hits: nat, j: nat)
    requires PassInv(snapshot, aliens0, lasers, k, i, aliens, hits) && i < |snapshot|
    requires FirstHit(snapshot[i], aliens) == Some(j)
    ensures PassInv(snapshot, aliens0, lasers[..k] + lasers[k + 1..], k, i + 1, Remove(aliens, aliens[j]), hits + 1)
  {
    assert snapshot[i..] == [snapshot[i]] + snapshot[i + 1..];
    ResumeHit(lasers[..k], hits, snapshot[i], snapshot[i + 1..], aliens);
    RemoveFirstOccurrence(aliens, j);
    var rest := lasers[..k] + lasers[k + 1..];
    assert rest[..k] == lasers[..k];
    assert rest[k..] == lasers[k + 1..];
  }

  /** The source's nested loops: the outer one walks a snapshot of the
      lasers; when a laser hits, the alien (by value) and the laser (by
      identity) leave the live lists and the score rises by one. */
  method LaserAlienPass(lasers0: seq<Rect>, aliens0: seq<Rect>, score0: int)
    returns (lasers: seq<Rect>, aliens: seq<Rect>, score: int)
    ensures score >= score0
    ensures PassResult(lasers, aliens, score - score0) == LaserPass(lasers0, aliens0)
  {
    var snapshot := lasers0;
    lasers, aliens, score := lasers0, aliens0, score0;
    var i, k := 0, 0;
    while i < |snapshot|
      invariant score >= score0
      invariant PassInv(snapshot, aliens0, lasers, k, i, aliens, score - score0)
    {
      var target := ScanAliens(snapshot[i], aliens);
      match target {
        case None =>
          MissStep(snapshot, aliens0, lasers, k, i, aliens, score - score0);
          k := k + 1;
        case Some(j) =>
          HitStep(snapshot, aliens0, lasers, k, i, aliens, score - score0, j);
          aliens := Remove(aliens, aliens[j]);
          lasers := lasers[..k] + lasers[k + 1..];
          score := score + 1;
      }
      i := i + 1;
    }
    assert snapshot[i..] == [];
    assert lasers[..k] == lasers;
  }

  // ------------------------------------------------------------- falling

  /** An obstacle's move down by the fall speed, in whole pixels. */
  function Fallen(o: Rect, step: int): (r: Rect)
    ensures r.x == o.x && r.w == o.w && r.h == o.h && r.y == o.y + step
    ensures ObstacleShape(o) ==> ObstacleShape(r)
  {
    o.(y := o.y + step)
  }

  /** The fall loop when nothing hits the player: every obstacle falls and
      the ones now below the bottom edge are dropped. */
  function Sweep(obs: seq<Rect>, step: int): (r: seq<Rect>)
    ensures |r| <= |obs|
  {
    if obs == [] then []
    else
      var o := Fallen(obs[0], step);
      var rest := Sweep(obs[1..], step);
      if o.y > HEIGHT then rest else [o] + rest
  }

  /** Exactly the moved obstacles still on screen survive the sweep. */
  lemma {:induction false} SweepSurvivors(obs: seq<Rect>, step: int)
    ensures forall m :: m in Sweep(obs, step) ==> m.y <= HEIGHT && exists o :: o in obs && m == Fallen(o, step)
    ensures forall o :: o in obs && Fallen(o, step).y <= HEIGHT ==> Fallen(o, step) in Sweep(obs, step)
  {
    if obs != [] {
      assert obs[0] in obs;
      assert forall l :: l in obs[1..] ==> l in obs;
      assert forall l :: l in obs ==> l == obs[0] || l in obs[1..];
      SweepSurvivors(obs[1..], step);
    }
  }

  /** What survives the sweep is on screen and stays star-sized inside the
      spawn column range. */
  lemma {:induction false} SweepKeepsShape(obs: seq<Rect>, step: int)
    requires forall o :: o in obs ==> ObstacleShape(o)
    ensures forall o :: o in Sweep(obs, step) ==> ObstacleShape(o) && o.y <= HEIGHT
  {
    if obs != [] {
      assert obs[0] in obs;
      assert forall o :: o in obs[1..] ==> o in obs;
      SweepKeepsShape(obs[1..], step);
    }
  }

  /** The survivors keep their order. */
  lemma {:induction false} SweepConcat(a: seq<Rect>, b: seq<Rect>, step: int)
    ensures Sweep(a + b, step) == Sweep(a, step) + Sweep(b, step)
  {
    if a == [] {
      assert a + b == b;
    } else {
      assert (a + b)[1..] == a[1..] + b;
      SweepConcat(a[1..], b, step);
    }
  }

  /** The hit test of a moved obstacle; the asteroid loop (guarded) first
      checks that the obstacle's bottom has reached the player's top. */
  predicate Strikes(o: Rect, player: Rect, guarded: bool) {
    (!guarded || o.y + o.h >= player.y) && Overlaps(o, player)
  }

  /** The asteroid loop's extra test is implied by the overlap test. */
  lemma StrikeGuardRedundant(o: Rect, player: Rect)
    ensures Strikes(o, player, true) == Strikes(o, player, false)
  {
  }

  /** An obstacle that, once moved, is still on screen and hits the player. */
  predicate Lands(o: Rect, step: int, player: Rect, guarded: bool) {
    var m := Fallen(o, step);
    m.y <= HEIGHT && Strikes(m, player, guarded)
  }

  datatype FallResult = FallResult(obstacles: seq<Rect>, hit: bool)

  /** One fall loop: obstacles move down in list order; one below the bottom
      edge is dropped, the first one that hits the player is dropped and ends
      the loop, so the obstacles after it do not move this tick. */
  function Fall(obs: seq<Rect>, step: int, player: Rect, guarded: bool): (r: FallResult)
    ensures |r.obstacles| <= |obs|
    ensures r.hit ==> |r.obstacles| < |obs|
  {
    if obs == [] then FallResult([], false)
    else
      var o := Fallen(obs[0], step);
      if o.y > HEIGHT then Fall(obs[1..], step, player, guarded)
      else if Strikes(o, player, guarded) then FallResult(obs[1..], true)
      else
        var rest := Fall(obs[1..], step, player, guarded);
        FallResult([o] + rest.obstacles, rest.hit)
  }

  /** Obstacles that survive a fall loop stay star-sized inside the spawn
      column range. */
  lemma {:induction false} FallKeepsShape(obs: seq<Rect>, step: int, player: Rect, guarded: bool)
    requires forall o :: o in obs ==> ObstacleShape(o)
    ensures forall o :: o in Fall(obs, step, player, guarded).obstacles ==> ObstacleShape(o)
  {
    if obs != [] {
      assert obs[0] in obs;
      assert forall o :: o in obs[1..] ==> o in obs;
      FallKeepsShape(obs[1..], step, player, guarded);
    }
  }

  /** Every obstacle that survives a fall loop has the column and size of
      an obstacle the loop was given: falling only moves obstacles down. */
  lemma {:induction false} FallKeepsColumns(obs: seq<Rect>, step: int, player: Rect, guarded: bool)
    ensures forall o :: o in Fall(obs, step, player, guarded).obstacles ==>
      exists q :: q in obs && o.x == q.x && o.w == q.w && o.h == q.h
  {
    if obs != [] {
      var tail := obs[1..];
      FallKeepsColumns(tail, step, player, guarded);
      assert obs[0] in obs;
      assert forall q :: q in tail ==> q in obs;
    }
  }

  function FirstLanding(obs: seq<Rect>, step: int, player: Rect, guarded: bool): Option<nat> {
    FirstIndex(obs, o => Lands(o, step, player, guarded))
  }

  /** The first landing of a non-empty list, from that of its tail. */
  lemma FirstLandingCons(obs: seq<Rect>, step: int, player: Rect, guarded: bool)
    requires obs != []
    ensures FirstLanding(obs, step, player, guarded) ==
      if Lands(obs[0], step, player, guarded) then Some(0)
      else match FirstLanding(obs[1..], step, player, guarded)
        case None => None
        case Some(i) => Some(i + 1)
  {
  }

  /** The break semantics, against a reference without the break: the loop
      is Sweep up to the first obstacle that lands on the player, which is
      removed and sets hit, and everything after it is left as it was; with
      no such obstacle it is Sweep of the whole list and hit stays false. */
  lemma {:induction false} FallBreaksAtFirstLanding(obs: seq<Rect>, step: int, player: Rect, guarded: bool)
    ensures Fall(obs, step, player, guarded) ==
      match FirstLanding(obs, step, player, guarded)
      case None => FallResult(Sweep(obs, step), false)
      case Some(i) => FallResult(Sweep(obs[..i], step) + obs[i + 1..], true)
  {
    if obs != [] {
      FirstLandingCons(obs, step, player, guarded);
      if Lands(obs[0], step, player, guarded) {
        assert Sweep(obs[..0], step) == [];
      } else {
        FallBreaksAtFirstLanding(obs[1..], step, player, guarded);
        match FirstLanding(obs[1..], step, player, guarded)
        case None =>
        case Some(i) =>
          LandingPrefix(obs, step, i);
      }
    }
  }

  /** Sweep of a prefix that reaches past the head. */
  lemma LandingPrefix(obs: seq<Rect>, step: int, i: nat)
    requires i + 1 < |obs|
    ensures Sweep(obs[..i + 1], step) ==
      var o := Fallen(obs[0], step);
      if o.y > HEIGHT then Sweep(obs[1..][..i], step) else [o] + Sweep(obs[1..][..i], step)
    ensures obs[1..][i + 1..] == obs[i + 2..]
  {
    assert obs[..i + 1][1..] == obs[1..][..i];
  }

  /** Stars and aliens fall by the same rule: the guard changes nothing. */
  lemma {:induction false} FallGuardIrrelevant(obs: seq<Rect>, step: int, player: Rect)
    ensures Fall(obs, step, player, true) == Fall(obs, step, player, false)
  {
    if obs != [] {
      StrikeGuardRedundant(Fallen(obs[0], step), player);
      FallGuardIrrelevant(obs[1..], step, player);
    }
  }

  function Prepend(done: seq<Rect>, r: FallResult): FallResult {
    FallResult(done + r.obstacles, r.hit)
  }

  /** The fall loop's invariant after i obstacles of the snapshot: the live
      list from k on holds the unvisited ones, the kept ones before k are on
      screen and clear of the player, and finishing the loop from here
      completes the reference. */
  ghost predicate FallInv(snapshot: seq<Rect>, step: int, player: Rect, guarded: bool,
                          live: seq<Rect>, k: nat, i: nat)
  {
    i <= |snapshot| && k <= |live| && live[k..] == snapshot[i..] &&
    (forall d :: d in live[..k] ==> d.y <= HEIGHT && !Strikes(d, player, guarded)) &&
    Fall(snapshot, step, player, guarded) == Prepend(live[..k], Fall(snapshot[i..], step, player, guarded))
  }

  /** The visited obstacle, once moved, is not equal to any kept one, so
      removing it by value removes it where it stands. */
  lemma VisitedIsFirst(snapshot: seq<Rect>, step: int, player: Rect, guarded: bool,
                       live: seq<Rect>, k: nat, i: nat)
    requires FallInv(snapshot, step, player, guarded, live, k, i) && i < |snapshot|
    requires var o := Fallen(live[k], step); o.y > HEIGHT || Strikes(o, player, guarded)
    ensures var moved := live[k := Fallen(live[k], step)];
      Remove(moved, moved[k]) == live[..k] + live[k + 1..]
  {
    var moved := live[k := Fallen(live[k], step)];
    assert moved[..k] == live[..k];
    RemoveFirstOccurrence(moved, k);
    assert moved[k + 1..] == live[k + 1..];
  }

  /** An obstacle that falls past the bottom edge leaves the live list. */
  lemma DropStep(snapshot: seq<Rect>, step: int, player: Rect, guarded: bool,
                 live: seq<Rect>, k: nat, i: nat)
    requires FallInv(snapshot, step, player, guarded, live, k, i) && i < |snapshot|
    requires Fallen(live[k], step).y > HEIGHT
    ensures FallInv(snapshot, step, player, guarded, live[..k] + live[k + 1..], k, i + 1)
  {
    assert snapshot[i..][0] == live[k] && snapshot[i..][1..] == snapshot[i + 1..];
    var rest := live[..k] + live[k + 1..];
    assert rest[..k] == live[..k];
    assert rest[k..] == live[k + 1..];
  }

  /** An obstacle that hits the player leaves the live list and ends the
      loop with the reference's result. */
  lemma StrikeStep(snapshot: seq<Rect>, step: int, player: Rect, guarded: bool,
                   live: seq<Rect>, k: nat, i: nat)
    requires FallInv(snapshot, step, player, guarded, live, k, i) && i < |snapshot|
    requires var o := Fallen(live[k], step); o.y <= HEIGHT && Strikes(o, player, guarded)
    ensures FallResult(live[..k] + live[k + 1..], true) == Fall(snapshot, step, player, guarded)
  {
    assert snapshot[i..][0] == live[k] && snapshot[i..][1..] == snapshot[i + 1..];
    assert live[k + 1..] == snapshot[i + 1..];
  }

  /** An obstacle that stays on screen and misses is kept, moved. */
  lemma KeepStep(snapshot: seq<Rect>, step: int, player: Rect, guarded: bool,
                 live: seq<Rect>, k: nat, i: nat)
    requires FallInv(snapshot, step, player, guarded, live, k, i) && i < |snapshot|
    requires var o := Fallen(live[k], step); o.y <= HEIGHT && !Strikes(o, player, guarded)
    ensures FallInv(snapshot, step, player, guarded, live[k := Fallen(live[k], step)], k + 1, i + 1)
  {
    assert snapshot[i..][0] == live[k] && snapshot[i..][1..] == snapshot[i + 1..];
    var o := Fallen(live[k], step);
    var moved := live[k := o];
    assert moved[..k + 1] == live[..k] + [o];
    assert moved[k + 1..] == live[k + 1..];
  }

  /** The source's fall loop over a snapshot: each obstacle is moved where it
      stands in the live list, and removed from it by value. */
  method FallPass(obstacles: seq<Rect>, step: int, player: Rect, guarded: bool)
    returns (live: seq<Rect>, hit: bool)
    ensures FallResult(live, hit) == Fall(obstacles, step, player, guarded)
  {
    var snapshot := obstacles;
    live, hit := obstacles, false;
    var i, k := 0, 0;
    while i < |snapshot|
      invariant FallInv(snapshot, step, player, guarded, live, k, i)
      invariant !hit
    {
      var o := Fallen(live[k], step);
      if o.y > HEIGHT {
        VisitedIsFirst(snapshot, step, player, guarded, live, k, i);
        DropStep(snapshot, step, player, guarded, live, k, i);
        live := live[k := o];
        live := Remove(live, o);
      } else if Strikes(o, player, guarded) {
        VisitedIsFirst(snapshot, step, player, guarded, live, k, i);
        StrikeStep(snapshot, step, player, guarded, live, k, i);
        live := live[k := o];
        live := Remove(live, o);
        hit := true;
        break;
      } else {
        KeepStep(snapshot, step, player, guarded, live, k, i);
        live := live[k := o];
        k := k + 1;
      }
      i := i + 1;
    }
    if !hit {
      assert snapshot[i..] == [];
      assert live[..k] == live;
    }
  }
}

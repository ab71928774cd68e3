/**
  The entities of a run and what one tick does to each of them, as functions:
  obstacles scroll and are marked passed, coins are pulled by the magnet,
  scroll and are collected, and both collections are swept of what has left
  the screen. The Runner module's loops are proved against these.
 */
module Entities {
  import opened Geometry

  const GroundH: real := 60.0
  const Gravity: real := 0.8
  const StartSpeed: real := 4.0
  const MaxSpeed: real := 12.0
  /** Speed gained for every obstacle passed. */
  const SpeedStep: real := 0.02
  /** Score gained for every obstacle passed. */
  const PassBonus: int := 5
  /** Entities are dropped once they are this far past the left edge. */
  const Margin: real := -30.0
  const CoinRadius: real := 10.0
  const MagnetRadius: real := 160.0

  datatype Obstacle = Obstacle(x: real, y: real, w: real, h: real, passed: bool)
  {
    function Box(): Rect { Rect(x, y, w, h) }
  }

  datatype Coin = Coin(x: real, y: real, r: real, collected: bool)
  {
    function Disc(): Circle { Circle(x, y, r) }
  }

  /** A displacement in the plane. */
  datatype Vec = Vec(dx: real, dy: real)

  /**
    rand(min, max) = Math.random() * (max - min) + min, with u standing for
    the value Math.random() returned.
   */
  function Rand(u: real, lo: real, hi: real): (v: real)
    requires 0.0 <= u < 1.0
    ensures lo <= hi ==> lo <= v <= hi
    ensures lo < hi ==> v < hi
  {
    var d := hi - lo;
    ScaledFraction(u, d);
    u * d + lo
  }

  /** A fraction u in [0, 1) of a non-negative length d lies in [0, d], and below d when d > 0. */
  lemma ScaledFraction(u: real, d: real)
    requires 0.0 <= u < 1.0
    ensures d >= 0.0 ==> 0.0 <= u * d <= d
    ensures d > 0.0 ==> u * d < d
  {
    assert d - u * d == (1.0 - u) * d;
  }

  /** Math.round: the nearest integer, halves rounded up. */
  function Round(x: real): (n: int)
    ensures n as real - 0.5 <= x < n as real + 0.5
  {
    (x + 0.5).Floor
  }

  /** Rounding a value drawn from [lo, hi) with integral bounds stays within [lo, hi]. */
  lemma RoundedDrawInRange(u: real, lo: int, hi: int)
    requires 0.0 <= u < 1.0 && lo < hi
    ensures lo <= Round(Rand(u, lo as real, hi as real)) <= hi
  {
  }

  /** What one tick's entity steps depend on: the scroll distance, the player's box, the magnet flag. */
  datatype Motion = Motion(rs: real, player: Rect, magnet: bool)

  // ---------------------------------------------------------------- obstacles

  /** Scroll left, then mark passed when the right edge is strictly left of the player's x. */
  function Advance(o: Obstacle, m: Motion): (a: Obstacle)
  {
    var s := o.(x := o.x - m.rs);
    if !s.passed && s.x + s.w < m.player.x then s.(passed := true) else s
  }

  /** This tick passes the obstacle for the first time, so it earns the bonus. */
  predicate NewlyPassed(o: Obstacle, m: Motion)
  {
    !o.passed && o.x - m.rs + o.w < m.player.x
  }

  /**
    Advance scrolls by exactly rs, keeps the obstacle's shape, and sets
    `passed` exactly when it was set before or the right edge is now strictly
    left of the player: touching (x + w == player x) does not count. An
    obstacle is newly passed only once: afterwards its flag stays set.
   */
  lemma AdvanceSpec(o: Obstacle, m: Motion)
    ensures var a := Advance(o, m);
      && a.x == o.x - m.rs && a.y == o.y && a.w == o.w && a.h == o.h
      && (a.passed <==> o.passed || a.x + a.w < m.player.x)
      && (NewlyPassed(o, m) <==> a.passed && !o.passed)
      && (forall m' :: !NewlyPassed(a, m') || !a.passed)
  {
  }

  /** Every obstacle of s through one tick, in order. */
  function AdvanceAll(s: seq<Obstacle>, m: Motion): (r: seq<Obstacle>)
    ensures |r| == |s|
  {
    if |s| == 0 then [] else AdvanceAll(s[..|s| - 1], m) + [Advance(s[|s| - 1], m)]
  }

  /** AdvanceAll over one more obstacle. */
  lemma AdvanceAllSnoc(s: seq<Obstacle>, o: Obstacle, m: Motion)
    ensures AdvanceAll(s + [o], m) == AdvanceAll(s, m) + [Advance(o, m)]
  {
    assert (s + [o])[..|s|] == s;
  }

  /** AdvanceAll advances each obstacle in place: the i-th result is the i-th obstacle advanced. */
  lemma {:induction false} AdvanceAllIndex(s: seq<Obstacle>, m: Motion)
    ensures forall i :: 0 <= i < |s| ==> AdvanceAll(s, m)[i] == Advance(s[i], m)
  {
    if |s| > 0 {
      var init := s[..|s| - 1];
      AdvanceAllIndex(init, m);
      forall i | 0 <= i < |s|
        ensures AdvanceAll(s, m)[i] == Advance(s[i], m)
      {
        if i < |init| {
          assert s[i] == init[i];
        }
      }
    }
  }

  /** The number of obstacles the tick passes for the first time. */
  function Passes(s: seq<Obstacle>, m: Motion): (n: nat)
    ensures n <= |s|
  {
    if |s| == 0 then 0
    else Passes(s[..|s| - 1], m) + (if NewlyPassed(s[|s| - 1], m) then 1 else 0)
  }

  /** An obstacle already passed earns nothing more. */
  lemma {:induction false} PassesOfPassed(s: seq<Obstacle>, m: Motion)
    requires forall i :: 0 <= i < |s| ==> s[i].passed
    ensures Passes(s, m) == 0
  {
    if |s| > 0 {
      PassesOfPassed(s[..|s| - 1], m);
    }
  }

  /** One speed-up: speed = Math.min(12, speed + 0.02). */
  function Bump(speed: real): (r: real)
    ensures r <= MaxSpeed && (speed <= MaxSpeed ==> speed <= r)
    ensures r == MaxSpeed || r == speed + SpeedStep
  {
    Min(MaxSpeed, speed + SpeedStep)
  }

  /** n speed-ups in a row. */
  function Bumps(speed: real, n: nat): (r: real)
    ensures speed <= MaxSpeed ==> speed <= r <= MaxSpeed
  {
    if n == 0 then speed else Bump(Bumps(speed, n - 1))
  }

  /** n speed-ups add 0.02 each, up to the cap of 12. */
  lemma {:induction false} BumpsClosedForm(speed: real, n: nat)
    requires speed <= MaxSpeed
    ensures Bumps(speed, n) == if n == 0 then speed else Min(MaxSpeed, speed + SpeedStep * n as real)
  {
    if n > 1 {
      BumpsClosedForm(speed, n - 1);
    }
  }

  /** The player's box overlaps some obstacle of s. */
  predicate AnyHit(s: seq<Obstacle>, player: Rect)
  {
    |s| > 0 && (AnyHit(s[..|s| - 1], player) || RectIntersect(player, s[|s| - 1].Box()))
  }

  /** Passes over one more obstacle. */
  lemma PassesSnoc(s: seq<Obstacle>, o: Obstacle, m: Motion)
    ensures Passes(s + [o], m) == Passes(s, m) + (if NewlyPassed(o, m) then 1 else 0)
  {
    assert (s + [o])[..|s|] == s;
  }

  /** AnyHit over one more obstacle. */
  lemma AnyHitSnoc(s: seq<Obstacle>, o: Obstacle, player: Rect)
    ensures AnyHit(s + [o], player) == (AnyHit(s, player) || RectIntersect(player, o.Box()))
  {
    assert (s + [o])[..|s|] == s;
  }

  /** AnyHit holds exactly when some obstacle of s overlaps the player's box. */
  lemma {:induction false} AnyHitMeans(s: seq<Obstacle>, player: Rect)
    ensures AnyHit(s, player) <==> exists i :: 0 <= i < |s| && RectIntersect(player, s[i].Box())
  {
    if |s| > 0 {
      var init := s[..|s| - 1];
      AnyHitMeans(init, player);
      if AnyHit(init, player) {
        var i :| 0 <= i < |init| && RectIntersect(player, init[i].Box());
        assert s[i] == init[i];
      }
      if exists i :: 0 <= i < |s| && RectIntersect(player, s[i].Box()) {
        var i :| 0 <= i < |s| && RectIntersect(player, s[i].Box());
        if i < |init| {
          assert init[i] == s[i];
        }
      }
    }
  }

  // -------------------------------------------------------------------- coins

  /** The magnet's reach: the coin is strictly within 160 of the player's centre. */
  predicate InMagnetRange(c: Coin, player: Rect)
  {
    var dx := (player.x + player.w / 2.0) - c.x;
    var dy := (player.y + player.h / 2.0) - c.y;
    dx * dx + dy * dy < MagnetRadius * MagnetRadius
  }

  /**
    The magnet's step (dx / dist * 6, dy / dist * 6), characterised without a
    square root: length 6, along (dx, dy), pointing the same way.
   */
  predicate IsMagnetStep(dx: real, dy: real, v: Vec)
  {
    v.dx * v.dx + v.dy * v.dy == 36.0 && v.dx * dy == v.dy * dx && v.dx * dx + v.dy * dy > 0.0
  }

  /** A magnet step moves the coin at most 6 along each axis. */
  lemma MagnetStepBounded(dx: real, dy: real, v: Vec)
    requires IsMagnetStep(dx, dy, v)
    ensures -6.0 <= v.dx <= 6.0 && -6.0 <= v.dy <= 6.0
  {
  }

  /**
    A magnet step brings a coin strictly closer to the player's centre,
    provided the coin is more than 3 away (closer than that, the step of 6
    overshoots).
   */
  lemma MagnetStepApproaches(dx: real, dy: real, v: Vec)
    requires IsMagnetStep(dx, dy, v)
    requires dx * dx + dy * dy > 9.0
    ensures (dx - v.dx) * (dx - v.dx) + (dy - v.dy) * (dy - v.dy) < dx * dx + dy * dy
  {
    var p := v.dx * dx + v.dy * dy;
    var d := dx * dx + dy * dy;
    var cross := v.dx * dy - v.dy * dx;
    assert p * p + cross * cross == (v.dx * v.dx + v.dy * v.dy) * d;
    assert p * p == 36.0 * d;
    assert p > 18.0 by {
      if p <= 18.0 {
        SquareMonotone(p, 18.0);
        assert false;
      }
    }
    assert (dx - v.dx) * (dx - v.dx) + (dy - v.dy) * (dy - v.dy) == d - 2.0 * p + 36.0;
  }

  /** Lines 177-186: the optional magnet pull, then the scroll. */
  function Moved(c: Coin, pull: Vec, m: Motion): (c': Coin)
    ensures c'.r == c.r && c'.collected == c.collected
  {
    var p := if m.magnet && InMagnetRange(c, m.player) then c.(x := c.x + pull.dx, y := c.y + pull.dy) else c;
    p.(x := p.x - m.rs)
  }

  /** The coin is collected this tick: not yet collected, and its disc touches the player's box. */
  predicate Catches(c: Coin, pull: Vec, m: Motion)
  {
    !c.collected && CircleRectIntersect(Moved(c, pull, m).Disc(), m.player)
  }

  /** One coin through one tick. */
  function CoinStep(c: Coin, pull: Vec, m: Motion): (c': Coin)
    ensures c'.collected <==> c.collected || Catches(c, pull, m)
  {
    var mv := Moved(c, pull, m);
    if Catches(c, pull, m) then mv.(collected := true) else mv
  }

  /** Every coin of cs through one tick, in order, the i-th with the i-th pull. */
  function CoinStepAll(cs: seq<Coin>, pulls: seq<Vec>, m: Motion): (r: seq<Coin>)
    requires |pulls| >= |cs|
    ensures |r| == |cs|
  {
    if |cs| == 0 then [] else CoinStepAll(cs[..|cs| - 1], pulls, m) + [CoinStep(cs[|cs| - 1], pulls[|cs| - 1], m)]
  }

  /** CoinStepAll over one more coin. */
  lemma CoinStepAllSnoc(cs: seq<Coin>, c: Coin, pulls: seq<Vec>, m: Motion)
    requires |pulls| > |cs|
    ensures CoinStepAll(cs + [c], pulls, m) == CoinStepAll(cs, pulls, m) + [CoinStep(c, pulls[|cs|], m)]
    ensures Collections(cs + [c], pulls, m) == Collections(cs, pulls, m) + (if Catches(c, pulls[|cs|], m) then 1 else 0)
  {
    assert (cs + [c])[..|cs|] == cs;
  }

  /** CoinStepAll steps each coin in place: the i-th result is the i-th coin stepped with the i-th pull. */
  lemma {:induction false} CoinStepAllIndex(cs: seq<Coin>, pulls: seq<Vec>, m: Motion)
    requires |pulls| >= |cs|
    ensures forall i :: 0 <= i < |cs| ==> CoinStepAll(cs, pulls, m)[i] == CoinStep(cs[i], pulls[i], m)
  {
    if |cs| > 0 {
      var init := cs[..|cs| - 1];
      CoinStepAllIndex(init, pulls, m);
      forall i | 0 <= i < |cs|
        ensures CoinStepAll(cs, pulls, m)[i] == CoinStep(cs[i], pulls[i], m)
      {
        if i < |init| {
          assert cs[i] == init[i];
        }
      }
    }
  }

  /** The number of coins the tick collects, each credited once. */
  function Collections(cs: seq<Coin>, pulls: seq<Vec>, m: Motion): (n: nat)
    requires |pulls| >= |cs|
    ensures n <= |cs|
  {
    if |cs| == 0 then 0
    else Collections(cs[..|cs| - 1], pulls, m) + (if Catches(cs[|cs| - 1], pulls[|cs| - 1], m) then 1 else 0)
  }

  /**
    With the magnet off, a coin scrolls by exactly rs and keeps its height;
    a coin collected before is never collected (credited) again.
   */
  lemma CoinStepSpec(c: Coin, pull: Vec, m: Motion)
    ensures !m.magnet ==> CoinStep(c, pull, m).x == c.x - m.rs && CoinStep(c, pull, m).y == c.y
    ensures c.collected ==> !Catches(c, pull, m)
  {
  }

  // ------------------------------------------------------------------- sweep

  /** obstacles.filter(o => o.x + o.w > -30) */
  predicate ObstacleKept(o: Obstacle)
  {
    o.x + o.w > Margin
  }

  /** coins.filter(c => c.x > -30 && !c.collected) */
  predicate CoinKept(c: Coin)
  {
    c.x > Margin && !c.collected
  }

  /** Array.prototype.filter: the elements that pass, in their original order. */
  function Filter<T(!new)>(s: seq<T>, keep: T -> bool): (r: seq<T>)
    ensures |r| <= |s|
    ensures forall x :: x in r <==> x in s && keep(x)
  {
    if |s| == 0 then []
    else (if keep(s[0]) then [s[0]] else []) + Filter(s[1..], keep)
  }

  /** Filtering a concatenation filters each part: the relative order is preserved. */
  lemma {:induction false} FilterConcat<T(!new)>(a: seq<T>, b: seq<T>, keep: T -> bool)
    ensures Filter(a + b, keep) == Filter(a, keep) + Filter(b, keep)
  {
    if |a| > 0 {
      assert (a + b)[0] == a[0];
      assert (a + b)[1..] == a[1..] + b;
      FilterConcat(a[1..], b, keep);
      var head := if keep(a[0]) then [a[0]] else [];
      calc {
        Filter(a + b, keep);
        head + Filter(a[1..] + b, keep);
        head + (Filter(a[1..], keep) + Filter(b, keep));
        (head + Filter(a[1..], keep)) + Filter(b, keep);
        Filter(a, keep) + Filter(b, keep);
      }
    } else {
      assert a + b == b;
    }
  }

  /** Filtering what is already filtered changes nothing. */
  lemma {:induction false} FilterIdempotent<T(!new)>(s: seq<T>, keep: T -> bool)
    ensures Filter(Filter(s, keep), keep) == Filter(s, keep)
  {
    if |s| > 0 {
      var rest := Filter(s[1..], keep);
      FilterIdempotent(s[1..], keep);
      if keep(s[0]) {
        var f := [s[0]] + rest;
        assert Filter(s, keep) == f;
        assert f[0] == s[0] && f[1..] == rest;
      } else {
        assert Filter(s, keep) == [] + rest == rest;
      }
    }
  }
}

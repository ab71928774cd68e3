/**
  The run simulation: the player object, the game's run-scoped variables, the
  per-frame tick with rendering and scheduling stripped out, and the commands
  (jump, pause, open the shop, start a run, the shop's buttons).

  Every random draw is a parameter: the value Math.random() returned, in
  [0, 1). The magnet's pull on each coin is a parameter too (see
  Entities.IsMagnetStep for what it stands for); every property proved here
  holds whatever the pulls are.
 */
module Runner {
  import opened Geometry
  import opened Entities
  import opened Economy

  /** The vertical speed a jump sets. */
  const JumpVelocity: real := -12.0
  /** The longest frame the simulation advances by, in milliseconds. */
  const MaxFrame: real := 40.0

  /**
    A jump takes effect: the player is alive, and stands on the ground or
    owns double jump and still has a jump left.
   */
  predicate JumpFires(alive: bool, onGround: bool, doubleOwned: bool, jumpsLeft: int)
  {
    alive && (onGround || (doubleOwned && jumpsLeft > 0))
  }

  /** The player's vertical state: what the fall of one frame changes. */
  datatype Body = Body(y: real, vy: real, onGround: bool, jumpsLeft: int)

  /** The pull of gravity in one frame: 0.8, 2% stronger with the speed perk. */
  function Weight(speedOwned: bool): (g: real)
    ensures g >= Gravity > 0.0
  {
    Gravity * (1.0 + (if speedOwned then 0.02 else 0.0))
  }

  /**
    Lines 141-150 on values: gravity accelerates, the player moves, and a
    player that reaches or passes the ground line lands on it: stopped, on
    the ground, with one jump in reserve if double jump is owned and none
    otherwise. An airborne player keeps its jumps and falls faster than
    before.
   */
  function Gravitate(b: Body, h: real, speedOwned: bool, doubleOwned: bool, groundY: real): (r: Body)
    ensures r.y + h <= groundY
    ensures r.onGround <==> b.y + b.vy + Weight(speedOwned) + h >= groundY
    ensures r.onGround ==> r.y + h == groundY && r.vy == 0.0 && r.jumpsLeft == (if doubleOwned then 1 else 0)
    ensures !r.onGround ==> r.vy == b.vy + Weight(speedOwned) > b.vy && r.y == b.y + r.vy && r.jumpsLeft == b.jumpsLeft
  {
    var vy := b.vy + Weight(speedOwned);
    var y := b.y + vy;
    if y + h >= groundY then Body(groundY - h, 0.0, true, if doubleOwned then 1 else 0)
    else Body(y, vy, false, b.jumpsLeft)
  }

  class Player {
    const x: real
    const w: real
    const h: real
    var y: real
    var vy: real
    var onGround: bool
    var jumpsLeft: int
    var alive: bool
    var shield: bool

    constructor ()
      ensures x == 80.0 && w == 46.0 && h == 46.0 && y == 0.0 && vy == 0.0
      ensures !onGround && jumpsLeft == 1 && alive && !shield
    {
      x, w, h := 80.0, 46.0, 46.0;
      y, vy := 0.0, 0.0;
      onGround, jumpsLeft, alive, shield := false, 1, true, false;
    }

    function Box(): Rect
      reads this
    {
      Rect(x, y, w, h)
    }

    /**
      What holds between frames: the player's bottom edge is never below the
      ground line, standing on the ground means resting on it, and an airborne
      player never has a jump left (jumpsLeft <= 0), so the double-jump perk
      never grants a jump in the air.
     */
    ghost predicate Consistent(groundY: real)
      reads this
    {
      && y + h <= groundY
      && (onGround ==> y + h == groundY && vy == 0.0)
      && (!onGround ==> jumpsLeft <= 0)
      && jumpsLeft <= 1
    }

    /**
      The player's part of startRun(): standing on the ground line, at rest,
      alive, with a shield exactly when one is given. Its jumps are not reset.
     */
    method Respawn(groundY: real, shielded: bool)
      requires jumpsLeft <= 1
      modifies this
      ensures y + h == groundY && vy == 0.0 && alive && onGround && shield == shielded
      ensures jumpsLeft == old(jumpsLeft)
      ensures Consistent(groundY)
    {
      y := groundY - h;
      vy, alive, onGround := 0.0, true, true;
      shield := shielded;
    }

    /**
      jump(): nothing when dead or when the jump does not fire; otherwise
      vy = -12, airborne, and one jump fewer. The decrement follows
      `onGround = false`, so it happens on every jump, from the ground too.
     */
    method Jump(doubleOwned: bool)
      modifies this
      ensures JumpFires(old(alive), old(onGround), doubleOwned, old(jumpsLeft)) ==>
        && vy == JumpVelocity && !onGround && jumpsLeft == old(jumpsLeft) - 1
        && y == old(y) && alive == old(alive) && shield == old(shield)
      ensures !JumpFires(old(alive), old(onGround), doubleOwned, old(jumpsLeft)) ==> unchanged(this)
      ensures forall g :: old(Consistent(g)) ==> Consistent(g)
    {
      if !alive {
        return;
      }
      if onGround || (doubleOwned && jumpsLeft > 0) {
        vy := JumpVelocity;
        onGround := false;
        if !onGround {
          jumpsLeft := jumpsLeft - 1;
        }
      }
    }

    /** The fields the fall of one frame changes. */
    function Kinematics(): Body
      reads this
    {
      Body(y, vy, onGround, jumpsLeft)
    }

    /** Lines 141-150: the fall of one frame, as Gravitate describes it. */
    method Fall(speedOwned: bool, doubleOwned: bool, groundY: real)
      modifies this`y, this`vy, this`onGround, this`jumpsLeft
      ensures Kinematics() == Gravitate(old(Kinematics()), h, speedOwned, doubleOwned, groundY)
      ensures old(Consistent(groundY)) ==> Consistent(groundY)
    {
      vy := vy + Gravity * (1.0 + (if speedOwned then 0.02 else 0.0));
      y := y + vy;
      if y + h >= groundY {
        y := groundY - h;
        vy := 0.0;
        onGround := true;
        jumpsLeft := if doubleOwned then 1 else 0;
      } else {
        onGround := false;
      }
    }
  }

  /** The values Math.random() returns during one tick, in the order the source draws them. */
  datatype Draws = Draws(obstacleGap: real, obstacleH: real, obstacleW: real, coinGap: real, coinY: real)
  {
    predicate Valid()
    {
      && 0.0 <= obstacleGap < 1.0 && 0.0 <= obstacleH < 1.0 && 0.0 <= obstacleW < 1.0
      && 0.0 <= coinGap < 1.0 && 0.0 <= coinY < 1.0
    }
  }

  /** The game's own variables, as one value. */
  datatype Fields = Fields(
    running: bool, paused: bool, lastTime: real, score: int, speed: real,
    obstacles: seq<Obstacle>, coins: seq<Coin>, spawnTimer: real, coinTimer: real, gameOver: bool)

  /** The values the obstacle loop updates: the score, the speed, player.alive and gameOver. */
  datatype Tally = Tally(score: int, speed: real, alive: bool, gameOver: bool)

  /**
    One obstacle meets the player: it scrolls and is marked passed (Advance);
    a first pass adds 5 to the score and one speed-up; a live, unshielded
    player touching it dies and the run is over.
   */
  function Meet(o: Obstacle, m: Motion, t: Tally, shield: bool): (Obstacle, Tally)
  {
    var a := Advance(o, m);
    var first := NewlyPassed(o, m);
    var dies := t.alive && !shield && RectIntersect(m.player, a.Box());
    (a, Tally(if first then t.score + PassBonus else t.score,
              if first then Bump(t.speed) else t.speed,
              t.alive && !dies,
              t.gameOver || dies))
  }

  /** Every obstacle of s meets the player in turn, from the values t. */
  function MeetAll(s: seq<Obstacle>, m: Motion, t: Tally, shield: bool): (seq<Obstacle>, Tally)
  {
    if |s| == 0 then ([], t)
    else
      var (moved, t') := MeetAll(s[..|s| - 1], m, t, shield);
      var (a, t'') := Meet(s[|s| - 1], m, t', shield);
      (moved + [a], t'')
  }

  /**
    What the obstacle loop does, in terms of the tick's counts: every obstacle
    is advanced, the score gains 5 per first pass and the speed one bump per
    first pass, and an unshielded live player dies exactly when some advanced
    obstacle touches it.
   */
  lemma {:induction false} MeetAllSpec(s: seq<Obstacle>, m: Motion, t: Tally, shield: bool)
    ensures var (moved, t') := MeetAll(s, m, t, shield);
      && moved == AdvanceAll(s, m)
      && t'.score == t.score + PassBonus * Passes(s, m)
      && t'.speed == Bumps(t.speed, Passes(s, m))
      && t'.alive == (t.alive && (shield || !AnyHit(moved, m.player)))
      && t'.gameOver == (t.gameOver || (t.alive && !shield && AnyHit(moved, m.player)))
  {
    if |s| > 0 {
      var init, o := s[..|s| - 1], s[|s| - 1];
      MeetAllSpec(init, m, t, shield);
      assert s == init + [o];
      AdvanceAllSnoc(init, o, m);
      PassesSnoc(init, o, m);
      AnyHitSnoc(AdvanceAll(init, m), Advance(o, m), m.player);
    }
  }

  /**
    The body of the obstacle loop for one obstacle (lines 155-173). The
    shield branch of the source cannot be taken: its guard already requires
    that the player has no shield.
   */
  method MeetObstacle(o: Obstacle, m: Motion, t: Tally, shield: bool, shieldOwned: bool)
    returns (a: Obstacle, t': Tally)
    ensures (a, t') == Meet(o, m, t, shield)
  {
    a, t' := o, t;
    a := a.(x := a.x - m.rs);
    if !a.passed && a.x + a.w < m.player.x {
      a := a.(passed := true);
      t' := t'.(score := t'.score + PassBonus, speed := Min(MaxSpeed, t'.speed + SpeedStep));
    }
    if !shield && RectIntersect(m.player, a.Box()) && t'.alive {
      if shieldOwned && shield {
        assert false;
      } else {
        t' := t'.(alive := false, gameOver := true);
      }
    }
  }

  /** The obstacle loop over s (lines 154-174), from the values t it starts with. */
  method MeetObstacles(s: seq<Obstacle>, m: Motion, t: Tally, shield: bool, shieldOwned: bool)
    returns (moved: seq<Obstacle>, t': Tally)
    ensures (moved, t') == MeetAll(s, m, t, shield)
  {
    moved, t' := [], t;
    var i := 0;
    while i < |s|
      invariant 0 <= i <= |s| && (moved, t') == MeetAll(s[..i], m, t, shield)
    {
      assert s[..i + 1][..i] == s[..i];
      var o;
      o, t' := MeetObstacle(s[i], m, t', shield, shieldOwned);
      moved := moved + [o];
      i := i + 1;
    }
    assert s[..|s|] == s;
  }

  /**
    The body of the coin loop for one coin (lines 176-191): the magnet's
    pull when it is owned and the coin is in reach, the scroll, and the
    collection when the coin touches the player; caught says whether this
    coin is to be credited.
   */
  method MeetCoin(c: Coin, pull: Vec, m: Motion) returns (c': Coin, caught: bool)
    ensures c' == CoinStep(c, pull, m) && caught == Catches(c, pull, m)
  {
    c' := c;
    if m.magnet && InMagnetRange(c', m.player) {
      c' := c'.(x := c'.x + pull.dx, y := c'.y + pull.dy);
    }
    c' := c'.(x := c'.x - m.rs);
    caught := false;
    if !c'.collected && CircleRectIntersect(c'.Disc(), m.player) {
      c' := c'.(collected := true);
      caught := true;
    }
  }

  class Game {
    const width: int
    const height: int
    const player: Player
    const state: Store
    var running: bool
    var paused: bool
    var lastTime: real
    var score: int
    var speed: real
    var obstacles: seq<Obstacle>
    var coins: seq<Coin>
    var spawnTimer: real
    var coinTimer: real
    var gameOver: bool

    /** The ground line: canvas.height - groundH. */
    function GroundY(): real
    {
      height as real - GroundH
    }

    function Snapshot(): Fields
      reads this
    {
      Fields(running, paused, lastTime, score, speed, obstacles, coins, spawnTimer, coinTimer, gameOver)
    }

    /**
      What holds between frames: the score is non-negative, the speed lies
      in [4, 12], the player is consistent, the run is over exactly when the
      player is dead, and every entity still listed is on screen (coins also
      uncollected).
     */
    ghost predicate Valid()
      reads this, player
    {
      && width >= 0
      && score >= 0
      && StartSpeed <= speed <= MaxSpeed
      && player.Consistent(GroundY())
      && gameOver == !player.alive
      && (forall o :: o in obstacles ==> ObstacleKept(o))
      && (forall c :: c in coins ==> CoinKept(c))
    }

    /**
      Boot: load the economy, create the player, set the game variables to
      their declared values, then init(): put the player on the ground, spawn
      three coins (startRun discards them at once) and start a run.
     */
    constructor (width: int, height: int, saved: Option<Saved>, u0: real, u1: real, u2: real)
      requires width >= 0
      requires 0.0 <= u0 < 1.0 && 0.0 <= u1 < 1.0 && 0.0 <= u2 < 1.0
      ensures Valid() && fresh(player) && fresh(state)
      ensures state.Value() == Load(saved)
      ensures Snapshot() == Fields(true, false, 0.0, 0, StartSpeed, [], [], 900.0, 700.0, false)
      ensures player.onGround && player.alive && player.jumpsLeft == 1 && player.vy == 0.0
      ensures player.shield == state.ownedPerks.shield
    {
      this.width, this.height := width, height;
      state := new Store(Load(saved));
      player := new Player();
      running, paused, lastTime := true, false, 0.0;
      score, speed := 0, StartSpeed;
      obstacles, coins, spawnTimer, coinTimer := [], [], 0.0, 0.0;
      gameOver := false;
      new;
      player.y := GroundY() - player.h;
      SpawnCoin(u0);
      SpawnCoin(u1);
      SpawnCoin(u2);
      StartRun();
    }

    /**
      startRun(): reset every run-scoped value, put the player back on the
      ground alive, give a shield exactly when the shield perk is owned, and
      resume. lastTime and jumpsLeft are not reset.
     */
    method StartRun()
      requires width >= 0 && player.jumpsLeft <= 1
      modifies this, player
      ensures Valid()
      ensures score == 0 && speed == StartSpeed && !gameOver && obstacles == [] && coins == []
      ensures spawnTimer == 900.0 && coinTimer == 700.0 && !paused
      ensures running == old(running) && lastTime == old(lastTime)
      ensures player.y + player.h == GroundY() && player.vy == 0.0 && player.alive && player.onGround
      ensures player.shield == state.ownedPerks.shield && player.jumpsLeft == old(player.jumpsLeft)
    {
      score, speed, gameOver := 0, StartSpeed, false;
      obstacles, coins := [], [];
      spawnTimer, coinTimer := 900.0, 700.0;
      player.Respawn(GroundY(), state.ownedPerks.shield);
      paused := false;
    }

    /** togglePause() */
    method TogglePause()
      requires Valid()
      modifies this`paused
      ensures Valid() && paused == !old(paused)
    {
      paused := !paused;
    }

    /** Opening the shop pauses the game. */
    method OpenShop()
      requires Valid()
      modifies this`paused
      ensures Valid() && paused
    {
      paused := true;
    }

    /** A click on the modal's backdrop closes it and clears paused. */
    method DismissModal()
      requires Valid()
      modifies this`paused
      ensures Valid() && !paused
    {
      paused := false;
    }

    /**
      jump() with the perk flag read from the economy. Because an airborne
      player never has a jump left, a jump in the air never fires, with or
      without the double-jump perk.
     */
    method Jump()
      requires Valid()
      modifies player
      ensures Valid()
      ensures old(player.alive && player.onGround) ==>
        player.vy == JumpVelocity && !player.onGround && player.jumpsLeft == old(player.jumpsLeft) - 1 &&
        player.y == old(player.y) && player.shield == old(player.shield) && player.alive
      ensures !old(player.alive && player.onGround) ==> unchanged(player)
    {
      player.Jump(state.ownedPerks.doubleJump);
    }

    /**
      The obstacle spawnObstacle() creates from the draws uh and uw: not yet
      passed, 20 beyond the right edge and standing on the ground, with
      height round(rand(28, 80)) and width round(rand(22, 44)).
     */
    function NewObstacle(uh: real, uw: real): (o: Obstacle)
      requires 0.0 <= uh < 1.0 && 0.0 <= uw < 1.0
      ensures o.x == width as real + 20.0 && o.y + o.h == GroundY() && !o.passed
      ensures o.h == Round(Rand(uh, 28.0, 80.0)) as real && o.w == Round(Rand(uw, 22.0, 44.0)) as real
      ensures 28.0 <= o.h <= 80.0 && 22.0 <= o.w <= 44.0
    {
      RoundedDrawInRange(uh, 28, 80);
      RoundedDrawInRange(uw, 22, 44);
      var h := Round(Rand(uh, 28.0, 80.0)) as real;
      var w := Round(Rand(uw, 22.0, 44.0)) as real;
      Obstacle(width as real + 20.0, height as real - GroundH - h, w, h, false)
    }

    /**
      The coin spawnCoin() creates from the draw uy: uncollected, of radius
      10, 20 beyond the right edge, at a height round(rand(...)) between 120
      and 40 above the ground.
     */
    function NewCoin(uy: real): (c: Coin)
      requires 0.0 <= uy < 1.0
      ensures c.x == width as real + 20.0 && c.r == CoinRadius && !c.collected
      ensures c.y == Round(Rand(uy, GroundY() - 120.0, GroundY() - 40.0)) as real
      ensures GroundY() - 120.0 <= c.y <= GroundY() - 40.0
    {
      RoundedDrawInRange(uy, height - 180, height - 100);
      var y := Round(Rand(uy, (height - 180) as real, (height - 100) as real));
      Coin(width as real + 20.0, y as real, CoinRadius, false)
    }

    /** spawnObstacle() appends NewObstacle. */
    method SpawnObstacle(uh: real, uw: real)
      requires 0.0 <= uh < 1.0 && 0.0 <= uw < 1.0
      modifies this`obstacles
      ensures obstacles == old(obstacles) + [NewObstacle(uh, uw)]
    {
      var h := Round(Rand(uh, 28.0, 80.0)) as real;
      var w := Round(Rand(uw, 22.0, 44.0)) as real;
      obstacles := obstacles + [Obstacle(width as real + 20.0, height as real - GroundH - h, w, h, false)];
    }

    /** spawnCoin() appends NewCoin. */
    method SpawnCoin(uy: real)
      requires 0.0 <= uy < 1.0
      modifies this`coins
      ensures coins == old(coins) + [NewCoin(uy)]
    {
      var y := Round(Rand(uy, (height - 180) as real, (height - 100) as real));
      coins := coins + [Coin(width as real + 20.0, y as real, CoinRadius, false)];
    }

    /**
      Lines 154-174: every obstacle scrolls and is marked passed (Advance);
      each first pass adds 5 to the score and one speed-up; a live, unshielded
      player touching an obstacle dies and the run is over. The loop keeps the
      score, the speed and the two flags in a Tally and stores them at the
      end; nothing reads them in between.
     */
    method ScrollObstacles(m: Motion)
      modifies this`obstacles, this`score, this`speed, this`gameOver, player`alive
      ensures obstacles == AdvanceAll(old(obstacles), m)
      ensures score == old(score) + PassBonus * Passes(old(obstacles), m)
      ensures speed == Bumps(old(speed), Passes(old(obstacles), m))
      ensures player.alive == (old(player.alive) && (player.shield || !AnyHit(obstacles, m.player)))
      ensures gameOver == (old(gameOver) || (old(player.alive) && !player.shield && AnyHit(obstacles, m.player)))
    {
      var t;
      MeetAllSpec(obstacles, m, Tally(score, speed, player.alive, gameOver), player.shield);
      obstacles, t := MeetObstacles(obstacles, m, Tally(score, speed, player.alive, gameOver),
                                    player.shield, state.ownedPerks.shield);
      score, speed, gameOver := t.score, t.speed, t.gameOver;
      player.alive := t.alive;
    }

    /**
      Lines 175-192: every coin is pulled by the magnet when it is owned and
      the coin is within reach, scrolls, and is collected when it touches the
      player (CoinStep); each coin collected credits exactly one unit.
     */
    method ScrollCoins(m: Motion, pulls: seq<Vec>)
      requires |pulls| >= |coins|
      modifies this`coins, state
      ensures coins == CoinStepAll(old(coins), pulls, m)
      ensures state.Value() == old(state.Value()).(coins := old(state.coins) + Collections(old(coins), pulls, m))
    {
      var cs, stepped := coins, [];
      var i := 0;
      while i < |cs|
        invariant 0 <= i <= |cs| && stepped == CoinStepAll(cs[..i], pulls, m)
        invariant state.coins == old(state.coins) + Collections(cs[..i], pulls, m)
        invariant state.Value() == old(state.Value()).(coins := state.coins)
      {
        assert cs[..i + 1] == cs[..i] + [cs[i]];
        CoinStepAllSnoc(cs[..i], cs[i], pulls, m);
        var c, caught := MeetCoin(cs[i], pulls[i], m);
        if caught {
          state.Credit();
        }
        stepped := stepped + [c];
        i := i + 1;
      }
      assert cs[..|cs|] == cs;
      coins := stepped;
    }

    /**
      Lines 120-122: a first frame (lastTime still 0) counts as no time;
      otherwise dt is the time since the last frame, at most 40.
     */
    method Clock(ts: real) returns (dt: real)
      modifies this`lastTime
      ensures lastTime == ts
      ensures dt == (if old(lastTime) == 0.0 then 0.0 else Min(MaxFrame, ts - old(lastTime)))
      ensures dt <= MaxFrame && (ts >= old(lastTime) ==> dt >= 0.0)
    {
      if lastTime == 0.0 {
        lastTime := ts;
      }
      dt := Min(MaxFrame, ts - lastTime);
      lastTime := ts;
    }

    /**
      Lines 125-126: the score grows by floor(speed * dt / 30) and never
      drops below 0; it never decreases when no time went backwards.
     */
    method AddScore(dt: real)
      requires score >= 0 && speed >= 0.0
      modifies this`score
      ensures var raw := old(score) + (speed * dt / 30.0).Floor;
              score == (if raw > 0 then raw else 0)
      ensures score >= 0
      ensures dt >= 0.0 ==> score >= old(score)
    {
      if dt >= 0.0 {
        assert speed * dt >= 0.0;
      }
      score := score + (speed * dt / 30.0).Floor;
      score := if score > 0 then score else 0;
    }

    /**
      Lines 129-138: each timer runs down by dt; one that reaches 0 is re-armed
      with a fresh gap and spawns an obstacle (or a coin). Everything listed
      before is kept, and whatever is spawned starts on screen.
     */
    method RunSpawners(dt: real, u: Draws)
      requires u.Valid() && width >= 0
      modifies this`spawnTimer, this`coinTimer, this`obstacles, this`coins
      ensures var t := old(spawnTimer) - dt;
              if t <= 0.0 then
                && spawnTimer == Rand(u.obstacleGap, 650.0 - score as real / 6.0, 1400.0 - score as real / 8.0)
                && obstacles == old(obstacles) + [NewObstacle(u.obstacleH, u.obstacleW)]
              else spawnTimer == t && obstacles == old(obstacles)
      ensures var t := old(coinTimer) - dt;
              if t <= 0.0 then
                && coinTimer == Rand(u.coinGap, 700.0, 1600.0)
                && coins == old(coins) + [NewCoin(u.coinY)]
              else coinTimer == t && coins == old(coins)
      ensures (forall o :: o in old(obstacles) ==> ObstacleKept(o)) ==> forall o :: o in obstacles ==> ObstacleKept(o)
      ensures (forall c :: c in old(coins) ==> CoinKept(c)) ==> forall c :: c in coins ==> CoinKept(c)
    {
      spawnTimer := spawnTimer - dt;
      if spawnTimer <= 0.0 {
        spawnTimer := Rand(u.obstacleGap, 650.0 - score as real / 6.0, 1400.0 - score as real / 8.0);
        SpawnObstacle(u.obstacleH, u.obstacleW);
      }
      coinTimer := coinTimer - dt;
      if coinTimer <= 0.0 {
        coinTimer := Rand(u.coinGap, 700.0, 1600.0);
        SpawnCoin(u.coinY);
      }
    }

    /**
      One frame, loop(ts). Paused or stopped: only lastTime moves. Otherwise
      the frame runs (Frame).
     */
    method Tick(ts: real, u: Draws, pulls: seq<Vec>)
      requires Valid() && u.Valid()
      requires |pulls| > |coins|
      modifies this, player, state
      ensures Valid()
      ensures !old(running) || old(paused) ==>
        Snapshot() == old(Snapshot()).(lastTime := ts) && unchanged(player) && unchanged(state)
      ensures old(running) && !old(paused) ==> lastTime == ts && running
      ensures old(running) && !old(paused) && ts >= old(lastTime) ==> score >= old(score)
      ensures old(speed) <= speed
      ensures player.shield == old(player.shield)
      ensures old(player.shield) ==> player.alive == old(player.alive)
      ensures !old(player.alive) ==> !player.alive
      ensures old(running) && !old(paused) && gameOver ==>
        paused && state.best == (if score > old(state.best) then score else old(state.best))
      ensures old(running) && !old(paused) && !gameOver ==> !paused && state.best == old(state.best)
      ensures old(state.coins) <= state.coins <= old(state.coins) + |old(coins)| + 1
      ensures state.ownedSkins == old(state.ownedSkins) && state.activeSkin == old(state.activeSkin)
      ensures state.ownedPerks == old(state.ownedPerks)
    {
      if !running || paused {
        lastTime := ts;
        return;
      }
      Frame(ts, u, pulls);
    }

    /**
      The body of loop(ts) on a running, unpaused game, in order: the clock
      (dt capped at 40), the score, the two spawn timers, the player's fall,
      obstacles, coins, the sweep of what left the screen or was collected,
      and on game over the best score and the pause of the game-over screen.
      The score does not decrease unless the clock went backwards, the speed
      never decreases, a shield is never lost, death is terminal, and the
      best score is updated exactly on game over.
     */
    method Frame(ts: real, u: Draws, pulls: seq<Vec>)
      requires Valid() && u.Valid()
      requires |pulls| > |coins|
      requires running && !paused
      modifies this, player, state
      ensures Valid()
      ensures lastTime == ts && running
      ensures ts >= old(lastTime) ==> score >= old(score)
      ensures old(speed) <= speed
      ensures player.shield == old(player.shield)
      ensures old(player.shield) ==> player.alive == old(player.alive)
      ensures !old(player.alive) ==> !player.alive
      ensures gameOver ==> paused && state.best == (if score > old(state.best) then score else old(state.best))
      ensures !gameOver ==> !paused && state.best == old(state.best)
      ensures old(state.coins) <= state.coins <= old(state.coins) + |old(coins)| + 1
      ensures state.ownedSkins == old(state.ownedSkins) && state.activeSkin == old(state.activeSkin)
      ensures state.ownedPerks == old(state.ownedPerks)
    {
      Prepare(ts, u);
      var _ := Move(pulls);
      if gameOver {
        state.RecordBest(score);
        paused := true;
      }
    }

    /** Lines 119-138: the clock, the score and the two spawn timers. */
    method Prepare(ts: real, u: Draws)
      requires Valid() && u.Valid()
      modifies this`lastTime, this`score, this`spawnTimer, this`coinTimer, this`obstacles, this`coins
      ensures Valid()
      ensures lastTime == ts
      ensures ts >= old(lastTime) ==> score >= old(score)
      ensures |coins| <= |old(coins)| + 1
    {
      var dt := Clock(ts);
      AddScore(dt);
      RunSpawners(dt, u);
    }

    /**
      What Scroll does with Motion m, from the game's fields f, the player's
      liveness alive and the balance credits before it.
     */
    ghost predicate Scrolled(m: Motion, pulls: seq<Vec>, f: Fields, alive: bool, credits: int)
      reads this, player, state
    {
      && |pulls| >= |f.coins|
      && obstacles == Filter(AdvanceAll(f.obstacles, m), ObstacleKept)
      && coins == Filter(CoinStepAll(f.coins, pulls, m), CoinKept)
      && score == f.score + PassBonus * Passes(f.obstacles, m)
      && speed == Bumps(f.speed, Passes(f.obstacles, m))
      && player.alive == (alive && (player.shield || !AnyHit(AdvanceAll(f.obstacles, m), m.player)))
      && gameOver == (f.gameOver || (alive && !player.shield && AnyHit(AdvanceAll(f.obstacles, m), m.player)))
      && state.coins == credits + Collections(f.coins, pulls, m)
    }

    /**
      Lines 140-196: the player's fall, then everything scrolls at the run's
      speed (2 more with the speed perk, line 153) and meets the player where
      it now is. m is the Motion the scroll used.
     */
    method Move(pulls: seq<Vec>) returns (m: Motion)
      requires Valid()
      requires |pulls| >= |coins|
      modifies this`obstacles, this`coins, this`score, this`speed, this`gameOver, player, state
      ensures Valid()
      ensures score >= old(score) && old(speed) <= speed
      ensures player.shield == old(player.shield)
      ensures old(player.shield) ==> player.alive == old(player.alive)
      ensures !old(player.alive) ==> !player.alive
      ensures old(state.coins) <= state.coins <= old(state.coins) + |old(coins)|
      ensures state.Value() == old(state.Value()).(coins := state.coins)
      ensures player.Kinematics() ==
        Gravitate(old(player.Kinematics()), player.h, state.ownedPerks.speed, state.ownedPerks.doubleJump, GroundY())
      ensures m == Motion(old(speed) + (if state.ownedPerks.speed then 2.0 else 0.0), player.Box(), state.ownedPerks.magnet)
      ensures Scrolled(m, pulls, old(Snapshot()), old(player.alive), old(state.coins))
    {
      var perks := state.ownedPerks;
      player.Fall(perks.speed, perks.doubleJump, GroundY());
      m := Motion(speed + (if perks.speed then 2.0 else 0.0), player.Box(), perks.magnet);
      var body := player.Kinematics();
      Scroll(m, pulls);
      assert player.Kinematics() == body && player.Box() == m.player && state.ownedPerks == perks;
    }

    /**
      Lines 154-196: obstacles, then coins, then the sweep of what left the
      screen or was collected.
     */
    method Scroll(m: Motion, pulls: seq<Vec>)
      requires Valid()
      requires |pulls| >= |coins|
      modifies this`obstacles, this`coins, this`score, this`speed, this`gameOver, player`alive, state
      ensures Valid()
      ensures score >= old(score) && old(speed) <= speed
      ensures old(player.shield) ==> player.alive == old(player.alive)
      ensures !old(player.alive) ==> !player.alive
      ensures obstacles == Filter(AdvanceAll(old(obstacles), m), ObstacleKept)
      ensures coins == Filter(CoinStepAll(old(coins), pulls, m), CoinKept)
      ensures score == old(score) + PassBonus * Passes(old(obstacles), m)
      ensures speed == Bumps(old(speed), Passes(old(obstacles), m))
      ensures player.alive == (old(player.alive) && (player.shield || !AnyHit(AdvanceAll(old(obstacles), m), m.player)))
      ensures gameOver == (old(gameOver) || (old(player.alive) && !player.shield && AnyHit(AdvanceAll(old(obstacles), m), m.player)))
      ensures state.coins == old(state.coins) + Collections(old(coins), pulls, m)
      ensures old(state.coins) <= state.coins <= old(state.coins) + |old(coins)|
      ensures state.Value() == old(state.Value()).(coins := state.coins)
    {
      ScrollObstacles(m);
      ScrollCoins(m, pulls);
      obstacles := Filter(obstacles, ObstacleKept);
      coins := Filter(coins, CoinKept);
    }

    /**
      The shop's button for skin `key` (lines 340-353): activate when owned,
      buy otherwise (ChooseSkin); a success closes the shop and clears paused.
     */
    method ClickSkin(key: string) returns (ok: bool)
      requires Valid()
      modifies state, this`paused
      ensures Valid()
      ensures ok == ChooseSkin(old(state.Value()), key).Ok?
      ensures state.Value() == After(old(state.Value()), ChooseSkin(old(state.Value()), key))
      ensures paused == (if ok then false else old(paused))
    {
      if key in state.ownedSkins {
        state.Activate(key);
        ok := true;
      } else {
        ok := state.PurchaseSkin(key);
      }
      if ok {
        paused := false;
      }
    }

    /**
      The shop's button for perk k (lines 372-383): disabled when owned, buy
      otherwise (ChoosePerk); a success closes the shop and clears paused.
     */
    method ClickPerk(k: Perk) returns (ok: bool)
      requires Valid()
      modifies state, this`paused
      ensures Valid()
      ensures ok == ChoosePerk(old(state.Value()), k).Ok?
      ensures state.Value() == After(old(state.Value()), ChoosePerk(old(state.Value()), k))
      ensures paused == (if ok then false else old(paused))
    {
      ok := false;
      if !state.ownedPerks.Has(k) {
        ok := state.PurchasePerk(k);
      }
      if ok {
        paused := false;
      }
    }
  }
}

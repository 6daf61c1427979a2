/** The game screen as an object: the fields GameScreen updates in place, and
    its methods, each proved to change the state exactly as the corresponding
    function of GameRules says. */
module Screen {
  import opened Entities
  import opened GameRules
  import opened GameRulesFacts
  import DrawManager

  class GameScreen {
    const config: Config
    const level: int
    /** The bullet pool shared by every screen. */
    const pool: BulletPool

    var score: int
    var lives: int
    var bulletsShot: int
    var shipsDestroyed: int
    var levelFinished: bool
    /** 1 while the bonus ship's big bullet is armed to cost two lives. */
    var bulletCode: int
    var isPause: bool
    var isResume: bool
    var isRunning: bool
    var returnCode: int
    var ship: Ship
    var enemyShipSpecial: Option<EnemyShip>
    /** The x position at which the bonus ship fires. */
    var position: int
    var formation: seq<EnemyShip>
    var bullets: map<BulletId, Bullet>
    /** The sounds started and stopped and the timers reset, in order. */
    var events: seq<Event>

    function Snapshot(): World
      reads this, pool
    {
      World(score, lives, bulletsShot, shipsDestroyed, levelFinished, bulletCode,
            isPause, isResume, isRunning, returnCode, ship, enemyShipSpecial, position,
            formation, bullets, pool.free, pool.next, events)
    }

    ghost predicate Valid()
      reads this, pool
    {
      && GameRules.Valid(Snapshot())
      && pool.bulletWidth == config.bulletWidth && pool.bulletHeight == config.bulletHeight
    }

    /** The constructor followed by initialize. */
    constructor (config: Config, gameState: GameState, ship: Ship, formation: seq<EnemyShip>, pool: BulletPool)
      requires pool.Valid()
      requires pool.bulletWidth == config.bulletWidth && pool.bulletHeight == config.bulletHeight
      ensures Valid()
      ensures this.config == config && this.pool == pool && level == gameState.level
      ensures Snapshot() == Init(config, gameState, ship, formation, pool.free, pool.next)
    {
      this.config := config;
      this.pool := pool;
      level := gameState.level;
      score := gameState.score;
      lives := gameState.livesRemaining;
      bulletsShot := gameState.bulletsShot;
      shipsDestroyed := gameState.shipsDestroyed;
      levelFinished, bulletCode := false, 0;
      isPause, isResume, isRunning, returnCode := false, false, false, 0;
      this.ship := ship;
      enemyShipSpecial, position := None, 0;
      this.formation := formation;
      bullets := map[];
      events := [Reset(SelectionTimer)];
      new;
      if config.bonusLife {
        lives := lives + 1;
      }
      events := events + [Reset(SpecialTimer), Reset(InputDelayTimer)];
    }

    /** run: the screen runs its frames, then the bonus for the lives left is
        added; the result is the code of the next screen. */
    method Run(frames: seq<Input>) returns (code: int)
      requires Valid()
      modifies this, pool
      ensures Valid()
      ensures Snapshot() == Settle(Play(config, old(Snapshot()).(isRunning := true), frames))
      ensures code == returnCode
    {
      isRunning := true;
      PlayFrames(frames);
      score := score + LifeScore * (lives - 1);
      isPause := false;
      code := returnCode;
    }

    /** The loop of Screen.run: one update per frame while the screen is running. */
    method PlayFrames(frames: seq<Input>)
      requires Valid()
      modifies this, pool
      ensures Valid()
      ensures Snapshot() == Play(config, old(Snapshot()), frames)
    {
      var k := 0;
      while k < |frames| && isRunning
        invariant 0 <= k <= |frames|
        invariant Valid()
        invariant Play(config, Snapshot(), frames[k..]) == Play(config, old(Snapshot()), frames)
      {
        ghost var before := Snapshot();
        Update(frames[k]);
        PlayStep(config, before, frames[k..]);
        assert frames[k..][1..] == frames[k + 1..];
        k := k + 1;
      }
      PlayStops(config, Snapshot(), frames[k..]);
    }

    /** update: a new frame, or, while a frame waits in the pause menu, one more
        pass of that menu. */
    method Update(i: Input)
      requires Valid()
      modifies this, pool
      ensures Valid()
      ensures Snapshot() == Step(config, old(Snapshot()), i)
    {
      if isPause {
        ResumeFrame(i);
      } else if i.inputDelayDone && !levelFinished {
        NewFrame(i);
      } else {
        EndFrame(i);
      }
    }

    /** The pause loop's next pass, and the rest of the frame once it closes. */
    method ResumeFrame(i: Input)
      requires Valid() && isPause
      modifies this, pool
      ensures Valid()
      ensures Snapshot() == Resume(config, old(Snapshot()), i)
    {
      ghost var w := Snapshot();
      if isResume {
        PollCheckoutMenu(i.keys);
        if !isResume {
          events := events + [Reset(SelectionTimer)];
        }
      } else {
        PollPauseMenu(i.keys);
      }
      PollsKeepBullets(w, i.keys);
      if !isPause {
        FinishFrame(i);
      }
    }

    /** A frame that accepts input: the ships act, the pause key may open the
        menu, and a frame whose menu stays open stops there. */
    method NewFrame(i: Input)
      requires Valid() && i.inputDelayDone && !levelFinished
      modifies this, pool
      ensures Valid()
      ensures Snapshot() == GameRules.Update(config, old(Snapshot()), i)
    {
      ShipsAct(i);
      if i.keys.pause {
        isPause := true;
      }
      if isPause {
        PollPauseMenu(i.keys);
      }
      if !isPause {
        FinishFrame(i);
      }
    }

    /** The player's ship and the bonus ship, before the pause key is read. */
    method ShipsAct(i: Input)
      requires Valid()
      modifies this, pool
      ensures Valid()
      ensures Snapshot() == Act(config, old(Snapshot()), i)
    {
      ControlShip(i);
      AdvanceSpecialShip(i);
      SpawnSpecialShip(i);
      EscapeSpecialShip();
    }

    /** The entities' updates and the end of the frame. */
    method FinishFrame(i: Input)
      requires Valid()
      modifies this, pool
      ensures Valid()
      ensures Snapshot() == EndOfFrame(config, Upkeep(config, old(Snapshot()), i), i)
    {
      UpdateEntities(i);
      EndFrame(i);
    }

    /** Collisions, cleanup, drawing and the end-of-level checks. */
    method EndFrame(i: Input)
      requires Valid()
      modifies this, pool
      ensures Valid()
      ensures Snapshot() == EndOfFrame(config, old(Snapshot()), i)
    {
      ManageCollisions();
      CleanBullets();
      CheckLevelEnd(i);
    }

    /** Movement and firing of a ship that is not destroyed. */
    method ControlShip(i: Input)
      requires Valid()
      modifies this, pool
      ensures Valid()
      ensures Snapshot() == Controls(config, old(Snapshot()), i)
    {
      if !ship.destroyed {
        SteerShip(i.keys);
        assert Valid();
        if i.keys.space {
          var fired := Shoot(i.shipReady);
          if fired {
            events := events + [Started(ShootClip)];
            bulletsShot := bulletsShot + 1;
          }
        }
      }
    }

    /** The arrow keys move the ship unless it stands at the border it would
        cross. */
    method SteerShip(keys: Keys)
      modifies this
      ensures Snapshot() == old(Snapshot()).(ship := Steer(config, old(ship), keys))
    {
      var isRightBorder := AtRightBorder(config, ship);
      var isLeftBorder := AtLeftBorder(ship);
      if keys.right && !isRightBorder {
        ship := ship.MovedRight();
      }
      if keys.left && !isLeftBorder {
        ship := ship.MovedLeft();
      }
    }

    /** Ship.shoot: when its firing timer allows, a bullet from the pool leaves
        the middle of the ship's top. */
    method Shoot(ready: bool) returns (fired: bool)
      requires Valid()
      modifies this, pool
      ensures Valid()
      ensures fired == ready
      ensures Snapshot() == if ready then Acquire(config, old(Snapshot()),
        Shot(old(ship.x) + Half(old(ship.width)), old(ship.y), config.shipBulletSpeed, config.shipBulletColour))
        else old(Snapshot())
    {
      fired := ready;
      if ready {
        AddBullet(Shot(ship.x + Half(ship.width), ship.y, config.shipBulletSpeed, config.shipBulletColour));
      }
    }

    /** BulletPool.getBullet, and the bullet joins the screen's set. */
    method AddBullet(s: Shot)
      requires Valid()
      modifies this, pool
      ensures Valid()
      ensures Snapshot() == Acquire(config, old(Snapshot()), s)
    {
      var id, b := pool.GetBullet(s.x, s.y, s.speed, s.colour);
      bullets := bullets[id := b];
      AcquireGrows(config, old(Snapshot()), s);
    }

    /** The bonus ship's move, its big bullet, and its removal after exploding. */
    method AdvanceSpecialShip(i: Input)
      requires Valid()
      modifies this, pool
      ensures Valid()
      ensures Snapshot() == AdvanceSpecial(config, old(Snapshot()), i)
    {
      if enemyShipSpecial.Some? {
        var e := enemyShipSpecial.value;
        if !e.destroyed {
          e := e.(x := e.x + SpecialStep);
          enemyShipSpecial := Some(e);
          if e.x == position {
            AddBullet(Shot(e.x + BigBulletOffset, e.y, BigBulletSpeed, DrawManager.Red));
            bulletCode := 1;
          }
        } else if i.explosionDone {
          enemyShipSpecial := None;
        }
      }
    }

    method SpawnSpecialShip(i: Input)
      requires Valid()
      modifies this
      ensures Valid()
      ensures Snapshot() == SpawnSpecial(config, old(Snapshot()), i)
    {
      if enemyShipSpecial.None? && i.specialDue {
        events := events + [Started(SpecialClip)];
        enemyShipSpecial := Some(config.special);
        events := events + [Reset(SpecialTimer)];
        position := FiringBase + i.draw * 2;
      }
    }

    method EscapeSpecialShip()
      requires Valid()
      modifies this
      ensures Valid()
      ensures Snapshot() == EscapeSpecial(config, old(Snapshot()))
    {
      if enemyShipSpecial.Some? && enemyShipSpecial.value.x > config.width {
        events := events + [Stopped(SpecialClip)];
        enemyShipSpecial := None;
      }
    }

    method NextMenuItem()
      modifies this
      ensures Snapshot() == old(Snapshot()).(returnCode := 1)
    {
      returnCode := 1;
    }

    method PreviousMenuItem()
      modifies this
      ensures Snapshot() == old(Snapshot()).(returnCode := 0)
    {
      returnCode := 0;
    }

    /** previousMenuItem on LEFT, then nextMenuItem on RIGHT. */
    method MoveSelection(keys: Keys)
      modifies this
      ensures Snapshot() == old(Snapshot()).(returnCode := Select(old(returnCode), keys))
    {
      if keys.left {
        PreviousMenuItem();
      }
      if keys.right {
        NextMenuItem();
      }
    }

    /** One pass of the checkout loop. */
    method PollCheckoutMenu(keys: Keys)
      modifies this
      ensures Snapshot() == PollCheckout(old(Snapshot()), keys)
    {
      MoveSelection(keys);
      if keys.enter {
        ConfirmCheckout();
      }
    }

    /** ENTER in the checkout menu, on the item already selected. */
    method ConfirmCheckout()
      modifies this
      ensures Snapshot() == PollCheckout(old(Snapshot()), Keys(false, false, false, false, true))
    {
      if returnCode == 1 {
        isPause, isResume := false, false;
      } else if returnCode == 0 {
        lives, isPause, isResume, isRunning := -1, false, false, false;
      }
    }

    /** One pass of the pause loop. */
    method PollPauseMenu(keys: Keys)
      requires Valid()
      modifies this
      ensures Valid()
      ensures Snapshot() == PollPause(old(Snapshot()), keys)
    {
      MoveSelection(keys);
      if keys.space {
        ChoosePauseItem(keys);
      }
      PollsKeepBullets(old(Snapshot()), keys);
    }

    /** SPACE in the pause menu, on the item already selected; the checkout
        menu it may open reads the same keys. */
    method ChoosePauseItem(keys: Keys)
      requires keys.space && Select(returnCode, keys) == returnCode
      modifies this
      ensures Snapshot() == PollPause(old(Snapshot()), keys.(left := false, right := false))
    {
      if returnCode == 0 {
        isPause := false;
        events := events + [Reset(SelectionTimer)];
      } else if returnCode == 1 {
        isResume := true;
        PollCheckoutMenu(keys);
        if !isResume {
          events := events + [Reset(SelectionTimer)];
        }
      } else {
        events := events + [Reset(SelectionTimer)];
      }
    }

    /** ship.update, enemyShipFormation.update and enemyShipFormation.shoot. */
    method UpdateEntities(i: Input)
      requires Valid()
      modifies this, pool
      ensures Valid()
      ensures Snapshot() == Upkeep(config, old(Snapshot()), i)
    {
      if ship.destroyed && i.shipRecovered {
        ship := ship.(destroyed := false);
      }
      ghost var w1 := Snapshot();
      var k := 0;
      while k < |i.volley|
        invariant 0 <= k <= |i.volley|
        invariant Valid()
        invariant Volley(config, Snapshot(), i.volley[k..]) == Volley(config, w1, i.volley)
      {
        assert i.volley[k..][1..] == i.volley[k + 1..];
        AddBullet(i.volley[k]);
        k := k + 1;
      }
    }

    /** manageCollisions: each bullet in turn, in increasing order of id. */
    method ManageCollisions()
      requires Valid()
      modifies this, pool
      ensures Valid()
      ensures Snapshot() == Collide(old(Snapshot()))
    {
      ghost var w0 := Snapshot();
      var recyclable: set<BulletId> := {};
      var n := pool.next;
      var id: BulletId := 0;
      while id < n
        invariant id <= n == w0.next
        invariant Sweep(Snapshot(), recyclable) == Resolve(w0, id)
      {
        recyclable := VisitBullet(id, recyclable);
        id := id + 1;
      }
      ResolveKeepsBullets(w0, n);
      bullets := bullets - recyclable;
      pool.Recycle(recyclable);
      CollideGrows(w0);
    }

    /** The body of manageCollisions' loop for one bullet. */
    method VisitBullet(id: BulletId, recyclable: set<BulletId>) returns (r: set<BulletId>)
      modifies this
      ensures Sweep(Snapshot(), r) == Visit(Sweep(old(Snapshot()), recyclable), id)
    {
      r := recyclable;
      if id in bullets {
        if bullets[id].speed > 0 {
          r := EnemyBulletHits(id, r);
        } else {
          r := PlayerBulletHits(id, r);
        }
      }
    }

    method EnemyBulletHits(id: BulletId, recyclable: set<BulletId>) returns (r: set<BulletId>)
      requires id in bullets
      modifies this
      ensures Sweep(Snapshot(), r) == EnemyBulletVisit(Sweep(old(Snapshot()), recyclable), id)
    {
      r := recyclable;
      if CheckCollision(bullets[id].Bounds(), ship.Bounds()) && !levelFinished {
        r := r + {id};
        if !ship.destroyed {
          ship := ship.(destroyed := true);
          events := events + [Started(ExplosionClip)];
          if bulletCode == 1 {
            lives := HitLives(lives, bulletCode);
            bulletCode := 0;
          } else {
            lives := lives - 1;
          }
        }
      }
    }

    method PlayerBulletHits(id: BulletId, recyclable: set<BulletId>) returns (r: set<BulletId>)
      requires id in bullets
      modifies this
      ensures Sweep(Snapshot(), r) == PlayerBulletVisit(Sweep(old(Snapshot()), recyclable), id)
    {
      var b := bullets[id].Bounds();
      r := FormationHits(b, id, recyclable);
      r := SpecialHit(b, id, r);
    }

    method FormationHits(b: Box, id: BulletId, recyclable: set<BulletId>) returns (r: set<BulletId>)
      modifies this
      ensures Sweep(Snapshot(), r) == FormationVisit(Sweep(old(Snapshot()), recyclable), b, id)
    {
      var st := StrikeFormation(formation, b);
      formation, score, shipsDestroyed := st.formation, score + st.gained, shipsDestroyed + st.kills;
      r := if st.hit then recyclable + {id} else recyclable;
    }

    method SpecialHit(b: Box, id: BulletId, recyclable: set<BulletId>) returns (r: set<BulletId>)
      modifies this
      ensures Sweep(Snapshot(), r) == SpecialVisit(Sweep(old(Snapshot()), recyclable), b, id)
    {
      r := recyclable;
      if enemyShipSpecial.Some? && Struck(enemyShipSpecial.value, b) {
        var e := enemyShipSpecial.value;
        score := score + e.pointValue;
        shipsDestroyed := shipsDestroyed + 1;
        enemyShipSpecial := Some(e.(destroyed := true));
        events := events + [Reset(ExplosionTimer)];
        r := r + {id};
      }
    }

    /** A player bullet tested against every member of the formation, in order:
        the formation after the hits, the points and kills they bring, and
        whether anything was hit. */
    method StrikeFormation(es: seq<EnemyShip>, b: Box) returns (st: Strikes)
      ensures st == StrikeAll(es, b)
    {
      st := Strikes([], 0, 0, false);
      var j := 0;
      while j < |es|
        invariant 0 <= j <= |es|
        invariant st == StrikeAll(es[..j], b)
      {
        var e := es[j];
        assert es[..j + 1][..j] == es[..j];
        if !e.destroyed && CheckCollision(b, e.Bounds()) {
          if e.hp == 1 {
            st := Strikes(st.formation + [e.(destroyed := true)], st.gained + e.pointValue, st.kills + 1, true);
          } else {
            st := Strikes(st.formation + [e.(hp := e.hp - 1)], st.gained + e.pointValue, st.kills, true);
          }
        } else {
          st := st.(formation := st.formation + [e]);
        }
        j := j + 1;
      }
      assert es[..|es|] == es;
    }

    /** cleanBullets: every bullet advances; those off screen go to the pool. */
    method CleanBullets()
      requires Valid()
      modifies this, pool
      ensures Valid()
      ensures Snapshot() == Clean(config, old(Snapshot()))
    {
      ghost var w := Snapshot();
      var moved, recyclable := AdvanceBullets();
      CleanBy(config, w, moved, recyclable);
      CleanBookkeeping(config, w);
      bullets := moved - recyclable;
      pool.Recycle(recyclable);
    }

    /** cleanBullets' loop: every bullet advanced once, and the ones then above
        the separation line or below the screen. */
    method AdvanceBullets() returns (moved: map<BulletId, Bullet>, recyclable: set<BulletId>)
      ensures moved.Keys == bullets.Keys
      ensures forall id :: id in moved ==> moved[id] == bullets[id].Advanced()
      ensures forall id :: id in recyclable <==> id in moved && OffScreen(config, moved[id])
    {
      moved := bullets;
      recyclable := {};
      var pending := bullets.Keys;
      while pending != {}
        invariant pending <= bullets.Keys && moved.Keys == bullets.Keys
        invariant forall id :: id in moved ==> moved[id] == if id in pending then bullets[id] else bullets[id].Advanced()
        invariant forall id :: id in recyclable <==> id in moved && id !in pending && OffScreen(config, moved[id])
        decreases pending
      {
        var id :| id in pending;
        var b := moved[id].Advanced();
        moved := moved[id := b];
        if b.y < SeparationLineHeight || b.y > config.height {
          recyclable := recyclable + {id};
        }
        pending := pending - {id};
      }
    }

    /** The end-of-level checks at the end of update. */
    method CheckLevelEnd(i: Input)
      requires Valid()
      modifies this
      ensures Valid()
      ensures Snapshot() == LevelCheck(old(Snapshot()), i)
    {
      if (FormationEmpty(formation) || lives == 0) && !levelFinished {
        levelFinished := true;
        events := events + [Started(GameOverClip), Reset(ScreenFinishedTimer)];
      }
      if levelFinished && i.screenFinishedDone {
        isRunning := false;
      }
    }

    /** getGameState: the summary handed to the next level. */
    function GetGameState(): (g: GameState)
      reads this, pool
      ensures g == StateOf(level, Snapshot())
    {
      GameState(level, score, lives, bulletsShot, shipsDestroyed)
    }
  }
}

/** Properties of a frame of the game screen: the collision test's geometry,
    hits, points and kills, lives lost, the player's controls, the bonus ship,
    the pause menus and the end of the level. */
module GameProperties {
  import opened Entities
  import opened GameRules
  import opened GameRulesFacts
  import DrawManager

  // ========================================================== the collision test

  /** The open rectangles of two boxes share a point. */
  predicate Overlap(a: Box, b: Box) {
    a.x < b.x + b.width && b.x < a.x + a.width && a.y < b.y + b.height && b.y < a.y + a.height
  }

  predicate NonNegative(a: Box) {
    a.width >= 0 && a.height >= 0
  }

  predicate EvenSized(a: Box) {
    a.width % 2 == 0 && a.height % 2 == 0
  }

  /** The test is symmetric; for boxes of non-negative size it never reports
      boxes that do not overlap; for even sizes it reports exactly the
      overlapping ones; two boxes whose half-widths add up to nothing
      positive, such as two boxes less than two units wide, never collide. */
  lemma CollisionGeometry(a: Box, b: Box)
    ensures CheckCollision(a, b) == CheckCollision(b, a)
    ensures NonNegative(a) && NonNegative(b) ==>
      && (CheckCollision(a, b) ==> Overlap(a, b))
      && (EvenSized(a) && EvenSized(b) ==> (CheckCollision(a, b) <==> Overlap(a, b)))
    ensures Half(a.width) + Half(b.width) <= 0 ==> !CheckCollision(a, b)
  {
  }

  // =========================================================== hit points

  /** n player bullets, one after the other, at a formation of one member. */
  function Pound(e: EnemyShip, b: Box, n: nat): (r: Strikes)
    ensures |r.formation| == 1
  {
    if n == 0 then Strikes([e], 0, 0, false)
    else
      var r0 := Pound(e, b, n - 1);
      var st := StrikeAll(r0.formation, b);
      Strikes(st.formation, r0.gained + st.gained, r0.kills + st.kills, st.hit)
  }

  /** An enemy with N >= 1 hit points that every bullet overlaps stays alive,
      one hit point less per bullet, for N - 1 bullets; the N-th destroys it;
      every one of these N bullets hits and is worth the enemy's point value;
      it counts as one kill; later bullets pass it by. */
  lemma {:induction false} HitPointsCountHits(e: EnemyShip, b: Box, n: nat)
    requires Struck(e, b) && e.hp >= 1
    ensures Pound(e, b, n).formation == [if n < e.hp then e.(hp := e.hp - n) else e.(hp := 1, destroyed := true)]
    ensures Pound(e, b, n).gained == (if n < e.hp then n else e.hp) * e.pointValue
    ensures Pound(e, b, n).kills == if n < e.hp then 0 else 1
    ensures Pound(e, b, n).hit == (1 <= n <= e.hp)
  {
    if n > 0 {
      HitPointsCountHits(e, b, n - 1);
      var before := if n - 1 < e.hp then e.(hp := e.hp - (n - 1)) else e.(hp := 1, destroyed := true);
      StrikeSingle(before, b);
      if n - 1 < e.hp {
        assert Struck(before, b);
        assert (n - 1) * e.pointValue + e.pointValue == (if n < e.hp then n else e.hp) * e.pointValue;
      } else {
        assert !Struck(before, b);
      }
    }
  }

  /** A formation of one member, struck once. */
  lemma StrikeSingle(e: EnemyShip, b: Box)
    ensures StrikeAll([e], b) == Strikes([Strike(e, b)],
      if Struck(e, b) then e.pointValue else 0,
      if Struck(e, b) && e.hp == 1 then 1 else 0,
      Struck(e, b))
  {
    assert [e][..0] == [];
  }

  // ================================================ points and kills are conserved

  /** The points still to be earned from a formation: each live member's point
      value for each hit point it has left. */
  function Worth(es: seq<EnemyShip>): int {
    if es == [] then 0
    else
      var e := es[|es| - 1];
      Worth(es[..|es| - 1]) + (if e.destroyed then 0 else e.hp * e.pointValue)
  }

  /** The number of destroyed members. */
  function DestroyedCount(es: seq<EnemyShip>): nat {
    if es == [] then 0
    else DestroyedCount(es[..|es| - 1]) + (if es[|es| - 1].destroyed then 1 else 0)
  }

  /** One bullet against the formation: each member is struck on its own, and
      the bullet counts as a hit exactly when it strikes some member. */
  lemma {:induction false} StrikeAllPointwise(es: seq<EnemyShip>, b: Box)
    ensures var r := StrikeAll(es, b);
      && (forall k :: 0 <= k < |es| ==> r.formation[k] == Strike(es[k], b))
      && (r.hit <==> exists k :: 0 <= k < |es| && Struck(es[k], b))
  {
    if es != [] {
      var init := es[..|es| - 1];
      StrikeAllPointwise(init, b);
      var r0 := StrikeAll(init, b);
      var r := StrikeAll(es, b);
      assert r.formation == r0.formation + [Strike(es[|es| - 1], b)];
      forall k | 0 <= k < |init| ensures r.formation[k] == Strike(es[k], b) {
        assert es[k] == init[k];
      }
      if r0.hit {
        var k :| 0 <= k < |init| && Struck(init[k], b);
        assert es[k] == init[k];
      }
      if exists k :: 0 <= k < |es| && Struck(es[k], b) {
        var k :| 0 <= k < |es| && Struck(es[k], b);
        if k < |init| {
          assert init[k] == es[k];
        }
      }
    }
  }

  /** A strike lowers the worth of a member by its point value exactly when it
      hits, and destroys it exactly when it hits its last hit point. */
  lemma StrikeWorth(e: EnemyShip, b: Box)
    ensures var e1 := Strike(e, b);
      && (if e.destroyed then 0 else e.hp * e.pointValue)
         - (if e1.destroyed then 0 else e1.hp * e1.pointValue)
         == (if Struck(e, b) then e.pointValue else 0)
      && e1.pointValue == e.pointValue
      && (e1.destroyed && !e.destroyed <==> Struck(e, b) && e.hp == 1)
      && (e.destroyed ==> e1.destroyed)
  {
    if Struck(e, b) && e.hp != 1 {
      assert e.hp * e.pointValue - (e.hp - 1) * e.pointValue == e.pointValue;
    }
  }

  /** The points a bullet gains are exactly the worth the formation loses, and
      its kills are exactly the members newly destroyed. */
  lemma {:induction false} StrikeAllConserves(es: seq<EnemyShip>, b: Box)
    ensures var r := StrikeAll(es, b);
      && r.gained == Worth(es) - Worth(r.formation)
      && r.kills == DestroyedCount(r.formation) - DestroyedCount(es)
  {
    if es != [] {
      var init := es[..|es| - 1];
      StrikeAllConserves(init, b);
      StrikeWorth(es[|es| - 1], b);
      var r0 := StrikeAll(init, b);
      var r := StrikeAll(es, b);
      assert r.formation[..|es| - 1] == r0.formation;
    }
  }

  /** What a live bonus ship is still worth, and whether a wreck of it is shown. */
  function SpecialWorth(s: Option<EnemyShip>): int {
    if s.Some? && !s.value.destroyed then s.value.pointValue else 0
  }

  function SpecialWrecked(s: Option<EnemyShip>): nat {
    if s.Some? && s.value.destroyed then 1 else 0
  }

  /** How often the screen-finished timer has been reset. */
  function FinishCount(w: World): nat {
    multiset(w.events)[Reset(ScreenFinishedTimer)]
  }

  /** The score together with the points still to be earned on screen. */
  function Potential(w: World): int {
    w.score + Worth(w.formation) + SpecialWorth(w.special)
  }

  /** The ships destroyed less the wrecks on screen. */
  function KillBalance(w: World): int {
    w.shipsDestroyed - DestroyedCount(w.formation) - SpecialWrecked(w.special)
  }

  lemma PlayerBulletConserves(s: Sweep, id: BulletId)
    requires id in s.w.bullets
    ensures Potential(PlayerBulletVisit(s, id).w) == Potential(s.w)
    ensures KillBalance(PlayerBulletVisit(s, id).w) == KillBalance(s.w)
  {
    StrikeAllConserves(s.w.formation, s.w.bullets[id].Bounds());
  }

  /** manageCollisions only moves points from what is left to earn to the score,
      and counts a kill for each ship it destroys. */
  lemma {:induction false} ResolveConserves(w: World, n: nat)
    ensures Potential(Resolve(w, n).w) == Potential(w)
    ensures KillBalance(Resolve(w, n).w) == KillBalance(w)
  {
    if n > 0 {
      ResolveConserves(w, n - 1);
      var s := Resolve(w, n - 1);
      if n - 1 in s.w.bullets && s.w.bullets[n - 1].speed <= 0 {
        PlayerBulletConserves(s, n - 1);
      }
    }
  }

  /** Every point scored in a frame is a hit point taken from a live enemy (or
      a live bonus ship destroyed), and every kill is a ship newly destroyed. */
  lemma CollideConserves(w: World)
    ensures Potential(Collide(w)) == Potential(w)
    ensures KillBalance(Collide(w)) == KillBalance(w)
  {
    ResolveConserves(w, w.next);
  }

  // ================================================================ lives

  /** The enemy bullet id overlaps the player's ship. */
  predicate HitsShip(w: World, id: BulletId) {
    id in w.bullets && w.bullets[id].speed > 0 && CheckCollision(w.bullets[id].Bounds(), w.ship.Bounds())
  }

  /** Some enemy bullet with an id below n overlaps the ship while the level is on. */
  ghost predicate ShipHitBelow(w: World, n: nat) {
    !w.levelFinished && exists id: BulletId :: id < n && HitsShip(w, id)
  }

  /** One bullet's visit: an enemy bullet overlapping the ship while the level
      is on destroys it and is marked; nothing else touches the ship, the lives
      or the armed big bullet. */
  lemma VisitShip(s: Sweep, id: BulletId)
    ensures var s' := Visit(s, id); var hit := HitsShip(s.w, id) && !s.w.levelFinished;
      && s'.w.ship == (if hit then s.w.ship.(destroyed := true) else s.w.ship)
      && s'.w.lives == (if hit && !s.w.ship.destroyed then HitLives(s.w.lives, s.w.bulletCode) else s.w.lives)
      && s'.w.bulletCode == (if hit && !s.w.ship.destroyed && s.w.bulletCode == 1 then 0 else s.w.bulletCode)
      && s'.w.levelFinished == s.w.levelFinished
      && (id in s.w.bullets && s.w.bullets[id].speed > 0 ==>
            s'.recyclable == if hit then s.recyclable + {id} else s.recyclable)
      && s.recyclable <= s'.recyclable <= s.recyclable + {id}
  {
    if id in s.w.bullets && s.w.bullets[id].speed <= 0 {
      var b := s.w.bullets[id].Bounds();
      var f := FormationVisit(s, b, id);
      assert f.w.ship == s.w.ship && f.w.lives == s.w.lives && f.w.bulletCode == s.w.bulletCode;
    }
  }

  lemma {:induction false} ResolveShip(w: World, n: nat)
    ensures var s := Resolve(w, n); var hit := ShipHitBelow(w, n);
      && s.w.ship == (if hit then w.ship.(destroyed := true) else w.ship)
      && s.w.lives == (if hit && !w.ship.destroyed then HitLives(w.lives, w.bulletCode) else w.lives)
      && s.w.bulletCode == (if hit && !w.ship.destroyed && w.bulletCode == 1 then 0 else w.bulletCode)
      && s.w.levelFinished == w.levelFinished
      && (forall id :: id in w.bullets && w.bullets[id].speed > 0 ==>
            (id in s.recyclable <==> id < n && HitsShip(w, id) && !w.levelFinished))
  {
    if n > 0 {
      ResolveShip(w, n - 1);
      ResolveKeepsBullets(w, n - 1);
      var s0 := Resolve(w, n - 1);
      var id := n - 1;
      VisitShip(s0, id);
      assert HitsShip(s0.w, id) == HitsShip(w, id);
      if ShipHitBelow(w, n - 1) {
        assert ShipHitBelow(w, n);
      } else if HitsShip(w, id) && !w.levelFinished {
        assert ShipHitBelow(w, n);
      } else {
        assert !ShipHitBelow(w, n);
      }
    }
  }

  /** Some enemy bullet overlaps the ship while the level is on. */
  ghost predicate ShipHit(w: World) {
    !w.levelFinished && exists id: BulletId :: HitsShip(w, id)
  }

  /** However many enemy bullets overlap the ship in a frame, a ship that is
      not destroyed is destroyed once and loses one life (two for the armed big
      bullet, one on the last life), and the armed big bullet is disarmed; each
      overlapping enemy bullet is taken off the screen, the others stay; after
      the level has finished no enemy bullet does anything. */
  lemma CollideShip(w: World)
    requires Valid(w)
    ensures var w' := Collide(w);
      && w'.ship == (if ShipHit(w) then w.ship.(destroyed := true) else w.ship)
      && w'.lives == (if ShipHit(w) && !w.ship.destroyed then HitLives(w.lives, w.bulletCode) else w.lives)
      && w'.bulletCode == (if ShipHit(w) && !w.ship.destroyed && w.bulletCode == 1 then 0 else w.bulletCode)
      && (forall id :: id in w.bullets && w.bullets[id].speed > 0 ==>
            (id in w'.bullets <==> !(HitsShip(w, id) && !w.levelFinished)))
  {
    ResolveShip(w, w.next);
    ResolveKeepsBullets(w, w.next);
    assert ShipHit(w) == ShipHitBelow(w, w.next);
  }

  // ============================================== the ship on its last life

  /** manageCollisions' hit on the ship as written. */
  function PlayerHitAsWritten(w: World): World {
    w.(ship := w.ship.(destroyed := true),
       lives := HitLivesAsWritten(w.lives, w.bulletCode),
       bulletCode := if w.bulletCode == 1 then 0 else w.bulletCode,
       events := w.events + [Started(ExplosionClip)])
  }

  /** As written, the big bullet on the last life leaves -1 lives; the level-end
      test looks for exactly 0, and no later hit brings a negative count back to
      0, so the level ends only once the formation is empty. */
  lemma LastLifeAsWritten(w: World, i: Input)
    requires w.lives == 1 && w.bulletCode == 1 && !w.levelFinished && !FormationEmpty(w.formation)
    ensures PlayerHitAsWritten(w).lives == -1
    ensures !LevelCheck(PlayerHitAsWritten(w), i).levelFinished
    ensures forall lives, code :: lives < 0 ==> HitLivesAsWritten(lives, code) < 0
  {
  }

  /** With the corrected count a hit never takes a positive count below 0, it
      differs from the written one only for the big bullet on the last life,
      and a frame in which the ship loses its last life ends the level. */
  lemma LastLifeEndsLevel(c: Config, w: World, i: Input)
    requires Valid(w) && ShipHit(w) && !w.ship.destroyed && w.lives >= 1
    ensures HitLives(w.lives, w.bulletCode) >= 0
    ensures !(w.lives == 1 && w.bulletCode == 1) ==> HitLives(w.lives, w.bulletCode) == HitLivesAsWritten(w.lives, w.bulletCode)
    ensures EndOfFrame(c, w, i).lives == HitLives(w.lives, w.bulletCode)
    ensures EndOfFrame(c, w, i).lives == 0 ==> EndOfFrame(c, w, i).levelFinished
    ensures w.lives == 1 ==> EndOfFrame(c, w, i).levelFinished
  {
    CollideShip(w);
    CollideGrows(w);
    CleanAdvancesAndReaps(c, Collide(w));
  }

  // ============================================ what a collision pass leaves alone

  /** v differs from w at most in the score, the lives, the kills, the big
      bullet's arming, the destruction and hit points of the ships, the bullets
      and the event log, and no screen-finished reset was logged. */
  predicate SameFrame(w: World, v: World) {
    && v.bulletsShot == w.bulletsShot && v.levelFinished == w.levelFinished
    && v.isPause == w.isPause && v.isResume == w.isResume && v.isRunning == w.isRunning
    && v.returnCode == w.returnCode && v.position == w.position
    && v.ship == w.ship.(destroyed := v.ship.destroyed)
    && FinishCount(v) == FinishCount(w)
  }

  lemma {:induction false} ResolveFrame(w: World, n: nat)
    ensures SameFrame(w, Resolve(w, n).w)
  {
    if n > 0 {
      ResolveFrame(w, n - 1);
      var s := Resolve(w, n - 1);
      var id := n - 1;
      if id in s.w.bullets {
        if s.w.bullets[id].speed > 0 {
          EnemyVisitFrame(s, id);
        } else {
          var b := s.w.bullets[id].Bounds();
          FormationVisitFrame(s, b, id);
          SpecialVisitFrame(FormationVisit(s, b, id), b, id);
        }
      }
    }
  }

  lemma EnemyVisitFrame(s: Sweep, id: BulletId)
    requires id in s.w.bullets
    ensures SameFrame(s.w, EnemyBulletVisit(s, id).w)
  {
    assert multiset(s.w.events + [Started(ExplosionClip)])[Reset(ScreenFinishedTimer)]
        == multiset(s.w.events)[Reset(ScreenFinishedTimer)];
  }

  lemma FormationVisitFrame(s: Sweep, b: Box, id: BulletId)
    ensures SameFrame(s.w, FormationVisit(s, b, id).w)
  {
  }

  lemma SpecialVisitFrame(s: Sweep, b: Box, id: BulletId)
    ensures SameFrame(s.w, SpecialVisit(s, b, id).w)
  {
    assert multiset(s.w.events + [Reset(ExplosionTimer)])[Reset(ScreenFinishedTimer)]
        == multiset(s.w.events)[Reset(ScreenFinishedTimer)];
  }

  lemma {:induction false} VolleyFrame(c: Config, w: World, shots: seq<Shot>)
    ensures var v := Volley(c, w, shots);
      v == w.(bullets := v.bullets, free := v.free, next := v.next)
    decreases |shots|
  {
    if shots != [] {
      VolleyFrame(c, Acquire(c, w, shots[0]), shots[1..]);
    }
  }

  /** The upkeep brings a destroyed ship back and adds the formation's shots,
      and changes nothing else. */
  lemma UpkeepFrame(c: Config, w: World, i: Input)
    ensures var v := Upkeep(c, w, i);
      && v == w.(ship := v.ship, bullets := v.bullets, free := v.free, next := v.next)
      && v.ship == w.ship.(destroyed := v.ship.destroyed)
      && FinishCount(v) == FinishCount(w)
  {
    var s := if w.ship.destroyed && i.shipRecovered then w.ship.(destroyed := false) else w.ship;
    VolleyFrame(c, w.(ship := s), i.volley);
  }

  /** Collisions, cleanup and the end-of-level checks leave the menus, the
      firing position, the shot counter and the ship's place alone; they may
      stop the screen but never start it. */
  lemma EndOfFrameFrame(c: Config, w: World, i: Input)
    ensures var w' := EndOfFrame(c, w, i);
      && w'.isPause == w.isPause && w'.isResume == w.isResume && w'.returnCode == w.returnCode
      && w'.position == w.position && w'.bulletsShot == w.bulletsShot
      && w'.ship == w.ship.(destroyed := w'.ship.destroyed)
      && (w'.isRunning ==> w.isRunning)
      && (w.levelFinished ==> w'.levelFinished)
  {
    ResolveFrame(w, w.next);
  }

  // ============================================================ the controls

  /** The playfield the ship must stay in: its left side at 1 or more, its
      right side at the playfield's width less 1 or less. */
  predicate InField(c: Config, s: Ship) {
    1 <= s.x && s.x + s.width <= c.fieldWidth - 1
  }

  /** A destroyed ship ignores the keyboard. Otherwise only the ship's x
      changes: right and left each move it by its speed unless the move would
      cross a border, both judged from where the ship stood, so a ship inside
      the playfield stays inside. */
  lemma ControlsMove(c: Config, w: World, i: Input)
    ensures var w' := Controls(c, w, i);
      var moveRight := !w.ship.destroyed && i.keys.right && !AtRightBorder(c, w.ship);
      var moveLeft := !w.ship.destroyed && i.keys.left && !AtLeftBorder(w.ship);
      && (w.ship.destroyed ==> w' == w)
      && w'.ship == w.ship.(x := w'.ship.x)
      && w'.ship.x == w.ship.x + (if moveRight then w.ship.speed else 0) - (if moveLeft then w.ship.speed else 0)
      && (w.ship.speed >= 0 && InField(c, w.ship) ==> InField(c, w'.ship))
  {
  }

  /** A shot, when SPACE is held and the ship's own timer allows, adds exactly
      one bullet, the ship's, from the middle of its top, and is counted;
      otherwise the bullets and the count stay as they were. */
  lemma ControlsFire(c: Config, w: World, i: Input)
    requires Valid(w)
    ensures var w' := Controls(c, w, i);
      var fires := !w.ship.destroyed && i.keys.space && i.shipReady;
      && w'.bulletsShot == w.bulletsShot + (if fires then 1 else 0)
      && |w'.bullets| == |w.bullets| + (if fires then 1 else 0)
      && (fires ==> exists id: BulletId :: id !in w.bullets && w'.bullets == w.bullets[id :=
            Bullet(w'.ship.x + Half(w'.ship.width), w'.ship.y, c.bulletWidth, c.bulletHeight,
                   c.shipBulletSpeed, c.shipBulletColour)])
      && (!fires ==> w'.bullets == w.bullets)
  {
    if !w.ship.destroyed && i.keys.space && i.shipReady {
      var w' := Controls(c, w, i);
      var id := Take(w.free, w.next).0;
      assert id !in w.bullets;
      assert w'.bullets == w.bullets[id := Bullet(w'.ship.x + Half(w'.ship.width), w'.ship.y, c.bulletWidth,
        c.bulletHeight, c.shipBulletSpeed, c.shipBulletColour)];
    }
  }

  // ============================================================ the bonus ship

  /** A bonus ship appears only when there is none and its timer has run out,
      and only then is a firing position drawn: an even number from 20 up to
      the screen's width less 32, reached exactly by a ship starting at an even
      x left of it and moving two at a time. */
  lemma SpawnSpecialEffect(c: Config, w: World, i: Input)
    requires ValidConfig(c) && ValidInput(c, i)
    ensures var w' := SpawnSpecial(c, w, i);
      && (w'.special != w.special || w'.position != w.position ==> w.special.None? && i.specialDue)
      && (w.special.None? && i.specialDue ==>
            && w'.special == Some(c.special)
            && w'.position % 2 == 0 && FiringBase <= w'.position <= c.width - 32
            && (c.special.x % 2 == 0 && c.special.x <= w'.position ==>
                  c.special.x + SpecialStep * ((w'.position - c.special.x) / 2) == w'.position)
            && w'.events == w.events + [Started(SpecialClip), Reset(SpecialTimer)])
  {
  }

  /** A live bonus ship moves two to the right; on arriving at the firing
      position it adds one enemy bullet, red, of speed 4, eight to the right of
      its left side, and arms the double life loss; a wreck is removed once its
      explosion has been shown. */
  lemma AdvanceSpecialEffect(c: Config, w: World, i: Input)
    requires Valid(w) && w.special.Some?
    ensures var w' := AdvanceSpecial(c, w, i); var e := w.special.value;
      var e1 := e.(x := e.x + SpecialStep);
      && (!e.destroyed ==> w'.special == Some(e1))
      && (!e.destroyed && e1.x == w.position ==>
            && w'.bulletCode == 1 && |w'.bullets| == |w.bullets| + 1
            && exists id: BulletId :: id !in w.bullets && w'.bullets == w.bullets[id :=
                 Bullet(e1.x + BigBulletOffset, e1.y, c.bulletWidth, c.bulletHeight, BigBulletSpeed, DrawManager.Red)])
      && (!(!e.destroyed && e1.x == w.position) ==> w'.bullets == w.bullets && w'.bulletCode == w.bulletCode)
      && (e.destroyed ==> w'.special == if i.explosionDone then None else w.special)
  {
    if !w.special.value.destroyed {
      var e1 := w.special.value.(x := w.special.value.x + SpecialStep);
      AcquireAddsOne(c, w.(special := Some(e1)), Shot(e1.x + BigBulletOffset, e1.y, BigBulletSpeed, DrawManager.Red));
    }
  }

  /** A bonus ship leaves the screen during the player's part of a frame only
      by flying past the right edge or, once destroyed, when its explosion has
      been shown. */
  lemma SpecialLeaves(c: Config, w: World, i: Input)
    requires w.special.Some? && Act(c, w, i).special.None?
    ensures var e := w.special.value;
      || (e.destroyed && (i.explosionDone || e.x > c.width))
      || (!e.destroyed && e.x + SpecialStep > c.width)
  {
    ControlsKeepsSpecial(c, w, i);
    AdvanceSpecialMoves(c, Controls(c, w, i), i);
  }

  /** Conversely, a live bonus ship whose next move takes it past the right
      edge is gone after the player's part of the frame. */
  lemma SpecialEscapes(c: Config, w: World, i: Input)
    requires w.special.Some? && !w.special.value.destroyed
    requires w.special.value.x + SpecialStep > c.width
    ensures Act(c, w, i).special.None?
  {
    ControlsKeepsSpecial(c, w, i);
    AdvanceSpecialMoves(c, Controls(c, w, i), i);
  }

  lemma ControlsKeepsSpecial(c: Config, w: World, i: Input)
    ensures Controls(c, w, i).special == w.special
  {
  }

  lemma AdvanceSpecialMoves(c: Config, w: World, i: Input)
    requires w.special.Some?
    ensures var e := w.special.value;
      AdvanceSpecial(c, w, i).special == if !e.destroyed then Some(e.(x := e.x + SpecialStep))
                                         else if i.explosionDone then None else Some(e)
  {
  }

  // ======================================================= pause and checkout

  /** While the pause or checkout menu stays open, nothing of the game
      changes: only the highlighted item, which menu is open and the log of
      timer resets. */
  lemma MenuFreezesGame(c: Config, w: World, i: Input)
    requires w.isPause
    ensures var w' := Step(c, w, i);
      w'.isPause ==> w' == w.(returnCode := w'.returnCode, isResume := w'.isResume, events := w'.events)
  {
    var rc := Select(w.returnCode, i.keys);
    var w1 := if w.isResume then CloseSelection(PollCheckout(w, i.keys)) else PollPause(w, i.keys);
    if !w1.isPause {
      UpkeepFrame(c, w1, i);
      EndOfFrameFrame(c, Upkeep(c, w1, i), i);
    }
    if w.isResume {
      var w1 := PollCheckout(w, i.keys);
      assert w1.isPause ==> w1 == w.(returnCode := rc);
    } else {
      var w1 := w.(returnCode := rc);
      if i.keys.space && rc == 1 {
        var w2 := PollCheckout(w1.(isResume := true), i.keys);
        assert w2.isPause ==> w2 == w1.(isResume := true);
      }
    }
  }

  /** Choosing "Yes" in the checkout menu ends the run after this frame, with
      -1 lives; choosing "No" goes back to the game with the lives untouched. */
  lemma CheckoutChoice(c: Config, w: World, i: Input, rest: seq<Input>)
    requires Valid(w) && w.isRunning && w.isPause && w.isResume && i.keys.enter
    ensures Select(w.returnCode, i.keys) == 0 ==>
      && !Step(c, w, i).isRunning && !Step(c, w, i).isPause && !Step(c, w, i).isResume
      && PollCheckout(w, i.keys).lives == -1
      && Play(c, w, [i] + rest) == Step(c, w, i)
    ensures Select(w.returnCode, i.keys) == 1 ==>
      && !Step(c, w, i).isPause && !Step(c, w, i).isResume && PollCheckout(w, i.keys).lives == w.lives
      && PollCheckout(w, i.keys).isRunning == w.isRunning
  {
    var w1 := CloseSelection(PollCheckout(w, i.keys));
    if !w1.isPause {
      UpkeepFrame(c, w1, i);
      EndOfFrameFrame(c, Upkeep(c, w1, i), i);
    }
    if Select(w.returnCode, i.keys) == 0 {
      assert ([i] + rest)[1..] == rest;
      PlayStops(c, Step(c, w, i), rest);
    }
  }

  /** SPACE in the pause menu: on "continue" (0) the menu closes and the frame
      goes on with lives and running untouched; on "exit" (1) the checkout menu
      opens, unless ENTER is also held, which answers it "No" at once. */
  lemma PauseChoice(c: Config, w: World, i: Input)
    requires w.isPause && !w.isResume && i.keys.space
    ensures Select(w.returnCode, i.keys) == 0 ==>
      && !PollPause(w, i.keys).isPause && !Step(c, w, i).isPause
      && PollPause(w, i.keys).lives == w.lives && PollPause(w, i.keys).isRunning == w.isRunning
    ensures Select(w.returnCode, i.keys) == 1 && !i.keys.enter ==>
      && Step(c, w, i) == PollPause(w, i.keys)
      && PollPause(w, i.keys).isPause && PollPause(w, i.keys).isResume
      && PollPause(w, i.keys).lives == w.lives
    ensures Select(w.returnCode, i.keys) == 1 && i.keys.enter ==>
      && !PollPause(w, i.keys).isPause && !Step(c, w, i).isPause && !Step(c, w, i).isResume
      && PollPause(w, i.keys).lives == w.lives && PollPause(w, i.keys).isRunning == w.isRunning
  {
    var w1 := PollPause(w, i.keys);
    if !w1.isPause {
      UpkeepFrame(c, w1, i);
      EndOfFrameFrame(c, Upkeep(c, w1, i), i);
    }
  }

  // ============================================================ end of level

  /** v has the same end-of-level status and logs no new screen-finished reset. */
  predicate Quiet(w: World, v: World) {
    v.levelFinished == w.levelFinished && FinishCount(v) == FinishCount(w)
  }

  lemma LogQuiet(w: World, more: seq<Event>)
    requires Reset(ScreenFinishedTimer) !in more
    ensures FinishCount(w.(events := w.events + more)) == FinishCount(w)
  {
    assert multiset(w.events + more) == multiset(w.events) + multiset(more);
  }

  lemma ControlsQuiet(c: Config, w: World, i: Input)
    ensures Quiet(w, Controls(c, w, i))
  {
    var w' := Controls(c, w, i);
    if w'.events != w.events {
      LogQuiet(w'.(events := w.events), [Started(ShootClip)]);
    }
  }

  lemma AdvanceSpecialQuiet(c: Config, w: World, i: Input)
    ensures Quiet(w, AdvanceSpecial(c, w, i))
  {
    assert AdvanceSpecial(c, w, i).events == w.events;
  }

  lemma SpawnSpecialQuiet(c: Config, w: World, i: Input)
    ensures Quiet(w, SpawnSpecial(c, w, i))
  {
    if w.special.None? && i.specialDue {
      var v := w.(special := Some(c.special), position := FiringBase + i.draw * 2);
      LogQuiet(v, [Started(SpecialClip), Reset(SpecialTimer)]);
    }
  }

  lemma EscapeSpecialQuiet(c: Config, w: World)
    ensures Quiet(w, EscapeSpecial(c, w))
  {
    if w.special.Some? && w.special.value.x > c.width {
      LogQuiet(w.(special := None), [Stopped(SpecialClip)]);
    }
  }

  lemma QuietTrans(w1: World, w2: World, w3: World)
    requires Quiet(w1, w2) && Quiet(w2, w3)
    ensures Quiet(w1, w3)
  {
  }

  lemma ActQuiet(c: Config, w: World, i: Input)
    ensures Quiet(w, Act(c, w, i))
  {
    var w1 := Controls(c, w, i);
    ControlsQuiet(c, w, i);
    var w2 := AdvanceSpecial(c, w1, i);
    AdvanceSpecialQuiet(c, w1, i);
    var w3 := SpawnSpecial(c, w2, i);
    SpawnSpecialQuiet(c, w2, i);
    EscapeSpecialQuiet(c, w3);
    QuietTrans(w, w1, w2);
    QuietTrans(w, w2, w3);
    QuietTrans(w, w3, EscapeSpecial(c, w3));
  }

  lemma CheckoutQuiet(w: World, keys: Keys)
    ensures Quiet(w, PollCheckout(w, keys))
  {
    assert PollCheckout(w, keys).events == w.events;
  }

  lemma CloseSelectionQuiet(w: World)
    ensures Quiet(w, CloseSelection(w))
  {
    if !w.isResume {
      LogQuiet(w, [Reset(SelectionTimer)]);
    }
  }

  lemma CheckoutPassQuiet(w: World, keys: Keys)
    ensures Quiet(w, CloseSelection(PollCheckout(w, keys)))
  {
    CheckoutQuiet(w, keys);
    CloseSelectionQuiet(PollCheckout(w, keys));
    QuietTrans(w, PollCheckout(w, keys), CloseSelection(PollCheckout(w, keys)));
  }

  lemma PausePassQuiet(w: World, keys: Keys)
    ensures Quiet(w, PollPause(w, keys))
  {
    var w1 := w.(returnCode := Select(w.returnCode, keys));
    if keys.space {
      var rc := Select(w.returnCode, keys);
      if rc == 1 {
        CheckoutPassQuiet(w1.(isResume := true), keys);
      } else if rc == 0 {
        LogQuiet(w1.(isPause := false), [Reset(SelectionTimer)]);
      } else {
        LogQuiet(w1, [Reset(SelectionTimer)]);
      }
    }
  }

  lemma MenuQuiet(w: World, keys: Keys)
    ensures Quiet(w, PollPause(w, keys))
    ensures Quiet(w, CloseSelection(PollCheckout(w, keys)))
  {
    PausePassQuiet(w, keys);
    CheckoutPassQuiet(w, keys);
  }

  /** The end-of-level check finishes the level when the formation is empty or
      no life is left, only once, logging the screen-finished reset exactly on
      that transition; once finished, the screen stops when its timer has run
      out. */
  lemma LevelCheckOnce(w: World, i: Input)
    ensures var w' := LevelCheck(w, i);
      && w'.levelFinished == (w.levelFinished || LevelOver(w))
      && FinishCount(w') == FinishCount(w) + (if !w.levelFinished && LevelOver(w) then 1 else 0)
      && (w'.isRunning <==> w.isRunning && !(w'.levelFinished && i.screenFinishedDone))
  {
    assert multiset(w.events + [Started(GameOverClip), Reset(ScreenFinishedTimer)])
        == multiset(w.events) + multiset([Started(GameOverClip), Reset(ScreenFinishedTimer)]);
  }

  lemma FinishFrameOnce(c: Config, w: World, i: Input)
    ensures var w' := EndOfFrame(c, w, i);
      && (w.levelFinished ==> w'.levelFinished)
      && FinishCount(w') == FinishCount(w) + (if !w.levelFinished && w'.levelFinished then 1 else 0)
  {
    ResolveFrame(w, w.next);
    LevelCheckOnce(Clean(c, Collide(w)), i);
  }

  lemma UpkeepAndFinishOnce(c: Config, w: World, i: Input)
    ensures var w' := EndOfFrame(c, Upkeep(c, w, i), i);
      && (w.levelFinished ==> w'.levelFinished)
      && FinishCount(w') == FinishCount(w) + (if !w.levelFinished && w'.levelFinished then 1 else 0)
  {
    UpkeepFrame(c, w, i);
    FinishFrameOnce(c, Upkeep(c, w, i), i);
  }

  /** A finished level stays finished, and a step logs the screen-finished
      reset exactly when it finishes the level. */
  lemma StepFinishesOnce(c: Config, w: World, i: Input)
    ensures var w' := Step(c, w, i);
      && (w.levelFinished ==> w'.levelFinished)
      && FinishCount(w') == FinishCount(w) + (if !w.levelFinished && w'.levelFinished then 1 else 0)
  {
    MenuQuiet(w, i.keys);
    if w.isPause {
      var w1 := if w.isResume then CloseSelection(PollCheckout(w, i.keys)) else PollPause(w, i.keys);
      if !w1.isPause {
        UpkeepAndFinishOnce(c, w1, i);
      }
    } else if i.inputDelayDone && !w.levelFinished {
      var w1 := Act(c, w, i);
      ActQuiet(c, w, i);
      var w2 := if i.keys.pause then w1.(isPause := true) else w1;
      MenuQuiet(w2, i.keys);
      var w3 := if w2.isPause then PollPause(w2, i.keys) else w2;
      if !w3.isPause {
        UpkeepAndFinishOnce(c, w3, i);
      }
    } else {
      FinishFrameOnce(c, w, i);
    }
  }

  /** Over any run, every bullet stays accounted for, and the screen-finished
      timer has been reset once if the level has finished and never otherwise. */
  lemma {:induction false} PlayInvariants(c: Config, w: World, frames: seq<Input>)
    requires Valid(w) && FinishCount(w) == (if w.levelFinished then 1 else 0)
    ensures var w' := Play(c, w, frames);
      && Grows(w, w')
      && FinishCount(w') == (if w'.levelFinished then 1 else 0)
      && (w.levelFinished ==> w'.levelFinished)
    decreases |frames|
  {
    if frames == [] || !w.isRunning {
      GrowsRefl(w);
    } else {
      var w1 := Step(c, w, frames[0]);
      StepGrows(c, w, frames[0]);
      StepFinishesOnce(c, w, frames[0]);
      PlayInvariants(c, w1, frames[1..]);
      GrowsTrans(w, w1, Play(c, w1, frames[1..]));
    }
  }

  /** A screen starts with the carried-over counters, a life more when the level
      awards a bonus life, nothing finished, and its pool's bullets accounted
      for; whatever frames it then runs, the invariants above hold. */
  lemma RunFromStart(c: Config, g: GameState, ship: Ship, formation: seq<EnemyShip>,
                     free: set<BulletId>, next: nat, frames: seq<Input>)
    requires forall id :: id in free ==> id < next
    ensures var w0 := Init(c, g, ship, formation, free, next).(isRunning := true);
      var w := Play(c, w0, frames);
      && StateOf(g.level, w0) == g.(livesRemaining := g.livesRemaining + (if c.bonusLife then 1 else 0))
      && Valid(w) && Accounted(w) >= free && w.next >= next
      && FinishCount(w) == (if w.levelFinished then 1 else 0)
  {
    var w0 := Init(c, g, ship, formation, free, next).(isRunning := true);
    assert FinishCount(w0) == 0;
    PlayInvariants(c, w0, frames);
  }

  /** While the game does not accept input (the countdown, or once the level
      has finished) the ship stays where it is, nothing is fired by the player
      and no menu opens. */
  lemma NoInputNoControl(c: Config, w: World, i: Input)
    requires !w.isPause && !(i.inputDelayDone && !w.levelFinished)
    ensures var w' := Step(c, w, i);
      && w'.ship.x == w.ship.x && w'.bulletsShot == w.bulletsShot
      && w'.position == w.position && !w'.isPause
  {
    EndOfFrameFrame(c, w, i);
  }
}

/** Bullet bookkeeping: every step of the screen keeps each bullet either on
    the screen or in the pool, never both, and loses none; getBullet, recycle
    and cleanBullets move exactly the bullets they name. */
module GameRulesFacts {
  import opened Entities
  import opened GameRules
  import DrawManager

  // ======================================================= bullet bookkeeping

  /** A later state keeps the bullet invariant, and the bullets accounted for
      are the ones accounted for before together with the ones newly created,
      whose ids run from the old count of created bullets to the new one. */
  ghost predicate Grows(w: World, w': World) {
    && Valid(w')
    && w.next <= w'.next
    && (forall id: BulletId :: id in Accounted(w') <==> id in Accounted(w) || w.next <= id < w'.next)
  }

  lemma GrowsRefl(w: World)
    requires Valid(w)
    ensures Grows(w, w)
  {
  }

  lemma GrowsTrans(w1: World, w2: World, w3: World)
    requires Grows(w1, w2) && Grows(w2, w3)
    ensures Grows(w1, w3)
  {
  }

  /** getBullet adds exactly one bullet, with the given position, speed and
      colour, under an id that was free or never used, and no bullet is lost. */
  lemma AcquireAddsOne(c: Config, w: World, s: Shot)
    requires Valid(w)
    ensures var w' := Acquire(c, w, s);
      && Grows(w, w')
      && (exists id :: id !in w.bullets && (id in w.free || id == w.next)
            && w'.bullets == w.bullets[id := Bullet(s.x, s.y, c.bulletWidth, c.bulletHeight, s.speed, s.colour)])
      && |w'.bullets| == |w.bullets| + 1
      && w' == w.(bullets := w'.bullets, free := w'.free, next := w'.next)
  {
    var w' := Acquire(c, w, s);
    var t := Take(w.free, w.next);
    assert t.0 !in w.bullets;
  }

  /** Recycling bullets of the screen: the set shrinks by exactly them and the
      pool gains exactly them, so none is in both and none is lost. */
  lemma RecycleMoves(w: World, r: set<BulletId>)
    requires Valid(w) && r <= w.bullets.Keys
    ensures var w' := Recycle(w, r);
      && Grows(w, w')
      && w'.bullets.Keys == w.bullets.Keys - r && w'.free == w.free + r
      && (forall id :: id in w'.bullets ==> w'.bullets[id] == w.bullets[id])
  {
  }

  lemma {:induction false} VolleyGrows(c: Config, w: World, shots: seq<Shot>)
    requires Valid(w)
    ensures Grows(w, Volley(c, w, shots))
    ensures Volley(c, w, shots) == w.(bullets := Volley(c, w, shots).bullets,
                                      free := Volley(c, w, shots).free, next := Volley(c, w, shots).next)
    decreases |shots|
  {
    if shots == [] {
      GrowsRefl(w);
    } else {
      var w1 := Acquire(c, w, shots[0]);
      AcquireAddsOne(c, w, shots[0]);
      VolleyGrows(c, w1, shots[1..]);
      GrowsTrans(w, w1, Volley(c, w1, shots[1..]));
    }
  }

  /** The collision sweep leaves the bullets and the pool alone and only marks
      bullets of the screen for recycling. */
  lemma {:induction false} ResolveKeepsBullets(w: World, n: nat)
    ensures var s := Resolve(w, n);
      && s.w.bullets == w.bullets && s.w.free == w.free && s.w.next == w.next
      && s.recyclable <= w.bullets.Keys
      && (forall id :: id in s.recyclable ==> id < n)
  {
    if n > 0 {
      ResolveKeepsBullets(w, n - 1);
    }
  }

  lemma CollideGrows(w: World)
    requires Valid(w)
    ensures Grows(w, Collide(w))
  {
    var s := Resolve(w, w.next);
    ResolveKeepsBullets(w, w.next);
    RecycleMoves(s.w, s.recyclable);
  }

  lemma CleanBookkeeping(c: Config, w: World)
    requires Valid(w)
    ensures var w' := Clean(c, w);
      && Grows(w, w')
      && w'.free == w.free + (w.bullets.Keys - w'.bullets.Keys)
      && w' == w.(bullets := w'.bullets, free := w'.free)
  {
    var moved := map id | id in w.bullets :: w.bullets[id].Advanced();
    var recyclable := set id | id in moved && OffScreen(c, moved[id]);
    var w1 := w.(bullets := moved);
    assert moved.Keys == w.bullets.Keys;
    assert Accounted(w1) == Accounted(w);
    RecycleMoves(w1, recyclable);
    var w' := Clean(c, w);
    assert w' == Recycle(w1, recyclable);
    assert w'.bullets.Keys == w.bullets.Keys - recyclable;
  }

  /** Clean, given the advanced bullets and the ones off screen. */
  lemma CleanBy(c: Config, w: World, moved: map<BulletId, Bullet>, recyclable: set<BulletId>)
    requires moved.Keys == w.bullets.Keys
    requires forall id :: id in moved ==> moved[id] == w.bullets[id].Advanced()
    requires forall id :: id in recyclable <==> id in moved && OffScreen(c, moved[id])
    ensures Clean(c, w) == w.(bullets := moved - recyclable, free := w.free + recyclable)
  {
    AdvancedAll(w.bullets, moved);
    OffScreenAll(c, moved, recyclable);
  }

  lemma OffScreenAll(c: Config, moved: map<BulletId, Bullet>, recyclable: set<BulletId>)
    requires forall id :: id in recyclable <==> id in moved && OffScreen(c, moved[id])
    ensures recyclable == set id | id in moved && OffScreen(c, moved[id])
  {
  }

  lemma AdvancedAll(bullets: map<BulletId, Bullet>, moved: map<BulletId, Bullet>)
    requires moved.Keys == bullets.Keys
    requires forall id :: id in moved ==> moved[id] == bullets[id].Advanced()
    ensures moved == map id | id in bullets :: bullets[id].Advanced()
  {
    var m := map id | id in bullets :: bullets[id].Advanced();
    assert m.Keys == moved.Keys;
  }

  /** cleanBullets advances every bullet once; the ones it keeps lie between the
      separation line and the bottom of the screen; exactly the others go to
      the pool. */
  lemma CleanAdvancesAndReaps(c: Config, w: World)
    requires Valid(w)
    ensures var w' := Clean(c, w);
      && Grows(w, w')
      && (forall id :: id in w'.bullets <==> id in w.bullets && !OffScreen(c, w.bullets[id].Advanced()))
      && (forall id :: id in w'.bullets ==> w'.bullets[id] == w.bullets[id].Advanced())
      && (forall id :: id in w'.bullets ==> SeparationLineHeight <= w'.bullets[id].y <= c.height)
      && w'.free == w.free + (w.bullets.Keys - w'.bullets.Keys)
      && w' == w.(bullets := w'.bullets, free := w'.free)
  {
    CleanBookkeeping(c, w);
  }

  /** A change that leaves the bullets and the pool alone keeps the bookkeeping. */
  lemma GrowsSameBullets(w0: World, w: World, w': World)
    requires Grows(w0, w)
    requires w'.bullets == w.bullets && w'.free == w.free && w'.next == w.next
    ensures Grows(w0, w')
  {
    assert Accounted(w') == Accounted(w);
  }

  lemma AcquireGrows(c: Config, w: World, s: Shot)
    requires Valid(w)
    ensures Grows(w, Acquire(c, w, s))
  {
    var t := Take(w.free, w.next);
    assert t.0 !in w.bullets;
  }

  lemma ControlsGrows(c: Config, w: World, i: Input)
    requires Valid(w)
    ensures Grows(w, Controls(c, w, i))
  {
    GrowsRefl(w);
    if !w.ship.destroyed {
      var s2 := Steer(c, w.ship, i.keys);
      var w1 := w.(ship := s2);
      GrowsSameBullets(w, w, w1);
      if i.keys.space && i.shipReady {
        var shot := Shot(s2.x + Half(s2.width), s2.y, c.shipBulletSpeed, c.shipBulletColour);
        var w2 := Acquire(c, w1, shot);
        AcquireGrows(c, w1, shot);
        GrowsTrans(w, w1, w2);
        var w3 := w2.(bulletsShot := w2.bulletsShot + 1, events := w2.events + [Started(ShootClip)]);
        assert Controls(c, w, i) == w3;
        GrowsSameBullets(w, w2, w3);
      } else {
        assert Controls(c, w, i) == w1;
      }
    }
  }

  lemma AdvanceSpecialGrows(c: Config, w: World, i: Input)
    requires Valid(w)
    ensures Grows(w, AdvanceSpecial(c, w, i))
  {
    GrowsRefl(w);
    if w.special.Some? && !w.special.value.destroyed {
      var e1 := w.special.value.(x := w.special.value.x + SpecialStep);
      var w1 := w.(special := Some(e1));
      GrowsSameBullets(w, w, w1);
      if e1.x == w.position {
        var w2 := Acquire(c, w1, Shot(e1.x + BigBulletOffset, e1.y, BigBulletSpeed, DrawManager.Red));
        AcquireGrows(c, w1, Shot(e1.x + BigBulletOffset, e1.y, BigBulletSpeed, DrawManager.Red));
        GrowsTrans(w, w1, w2);
        GrowsSameBullets(w, w2, AdvanceSpecial(c, w, i));
      }
    } else {
      GrowsSameBullets(w, w, AdvanceSpecial(c, w, i));
    }
  }

  lemma ActGrows(c: Config, w: World, i: Input)
    requires Valid(w)
    ensures Grows(w, Act(c, w, i))
  {
    var w1 := Controls(c, w, i);
    ControlsGrows(c, w, i);
    var w2 := AdvanceSpecial(c, w1, i);
    AdvanceSpecialGrows(c, w1, i);
    GrowsTrans(w, w1, w2);
    assert Accounted(SpawnSpecial(c, w2, i)) == Accounted(w2);
    assert Accounted(Act(c, w, i)) == Accounted(w2);
    GrowsRefl(w2);
  }

  lemma EndOfFrameGrows(c: Config, w: World, i: Input)
    requires Valid(w)
    ensures Grows(w, EndOfFrame(c, w, i))
  {
    var w1 := Collide(w);
    CollideGrows(w);
    CleanAdvancesAndReaps(c, w1);
    GrowsTrans(w, w1, Clean(c, w1));
    GrowsSameBullets(w, Clean(c, w1), EndOfFrame(c, w, i));
  }

  lemma UpkeepGrows(c: Config, w: World, i: Input)
    requires Valid(w)
    ensures Grows(w, Upkeep(c, w, i))
  {
    var s := if w.ship.destroyed && i.shipRecovered then w.ship.(destroyed := false) else w.ship;
    VolleyGrows(c, w.(ship := s), i.volley);
  }

  lemma CheckoutKeepsBullets(w: World, keys: Keys)
    ensures PollCheckout(w, keys).bullets == w.bullets && PollCheckout(w, keys).free == w.free
    ensures PollCheckout(w, keys).next == w.next
  {
  }

  lemma PollsKeepBullets(w: World, keys: Keys)
    ensures PollPause(w, keys).bullets == w.bullets && PollPause(w, keys).free == w.free
    ensures PollPause(w, keys).next == w.next
    ensures PollCheckout(w, keys).bullets == w.bullets && PollCheckout(w, keys).free == w.free
    ensures PollCheckout(w, keys).next == w.next
  {
    CheckoutKeepsBullets(w, keys);
    var w1 := w.(returnCode := Select(w.returnCode, keys));
    CheckoutKeepsBullets(w1.(isResume := true), keys);
  }

  /** Every bullet is, at every step boundary, either on the screen or in the
      pool and never both; none is lost, and new ones only come from the pool
      creating them. */
  lemma StepGrows(c: Config, w: World, i: Input)
    requires Valid(w)
    ensures Grows(w, Step(c, w, i))
  {
    if w.isPause {
      var w1 := if w.isResume then CloseSelection(PollCheckout(w, i.keys)) else PollPause(w, i.keys);
      PollsKeepBullets(w, i.keys);
      GrowsRefl(w);
      assert Grows(w, w1);
      if !w1.isPause {
        var w2 := Upkeep(c, w1, i);
        UpkeepGrows(c, w1, i);
        EndOfFrameGrows(c, w2, i);
        GrowsTrans(w, w1, w2);
        GrowsTrans(w, w2, EndOfFrame(c, w2, i));
      }
    } else if i.inputDelayDone && !w.levelFinished {
      var w1 := Act(c, w, i);
      ActGrows(c, w, i);
      var w2 := if i.keys.pause then w1.(isPause := true) else w1;
      var w3 := if w2.isPause then PollPause(w2, i.keys) else w2;
      PollsKeepBullets(w2, i.keys);
      assert Grows(w, w3);
      if !w3.isPause {
        var w4 := Upkeep(c, w3, i);
        UpkeepGrows(c, w3, i);
        EndOfFrameGrows(c, w4, i);
        GrowsTrans(w, w3, w4);
        GrowsTrans(w, w4, EndOfFrame(c, w4, i));
      }
    } else {
      EndOfFrameGrows(c, w, i);
    }
  }

  /** A running screen plays its first frame and then the rest. */
  lemma PlayStep(c: Config, w: World, frames: seq<Input>)
    requires frames != [] && w.isRunning
    ensures Play(c, w, frames) == Play(c, Step(c, w, frames[0]), frames[1..])
  {
  }

  lemma PlayStops(c: Config, w: World, frames: seq<Input>)
    requires frames == [] || !w.isRunning
    ensures Play(c, w, frames) == w
  {
  }
}

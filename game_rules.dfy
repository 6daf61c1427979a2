/** The rules of the game screen on values: the screen's state as a record, and
    one function per part of a frame. The class in module Screen keeps the same
    state in fields and its methods are proved to change it as these functions
    say. Time, the keyboard and the random draw come in as an Input per frame. */
module GameRules {
  import opened Entities
  import DrawManager

  type Colour = DrawManager.Colour

  /** Bonus score for each life remaining at the end of the level. */
  const LifeScore := 100
  /** Height of the interface separation line; bullets above it are reaped. */
  const SeparationLineHeight := 40
  /** Horizontal distance the bonus ship travels per frame. */
  const SpecialStep := 2
  /** Speed of the bonus ship's big bullet, and its offset from the ship's left side. */
  const BigBulletSpeed := 4
  const BigBulletOffset := 8
  /** Leftmost firing position of the bonus ship and the margin the random draw leaves. */
  const FiringBase := 20
  const FiringMargin := 50

  datatype Option<T> = None | Some(value: T)

  /** Sound clips and timers whose use the model records but does not simulate. */
  datatype Clip = ShootClip | ExplosionClip | GameOverClip | SpecialClip
  datatype Timer = SpecialTimer | ExplosionTimer | ScreenFinishedTimer | SelectionTimer | InputDelayTimer
  datatype Event = Started(clip: Clip) | Stopped(clip: Clip) | Reset(timer: Timer)

  /** The summary handed from one level's screen to the next. */
  datatype GameState = GameState(level: int, score: int, livesRemaining: int, bulletsShot: int, shipsDestroyed: int)

  /** What a screen is created with and never changes: whether the level awards
      a bonus life, the screen size, the playfield width in ship units (width / ratio),
      the player's bullet as Ship.shoot makes it, and the bonus ship as it
      appears. */
  datatype Config = Config(
    bonusLife: bool,
    width: int, height: int, fieldWidth: int,
    bulletWidth: int, bulletHeight: int,
    shipBulletSpeed: int, shipBulletColour: Colour,
    special: EnemyShip)

  /** Random.nextInt needs a positive bound, (width - 50) / 2. */
  predicate ValidConfig(c: Config) {
    c.width >= 52
  }

  /** Keys held down this frame: left is LEFT or A, right is RIGHT or D, pause is ESCAPE or P. */
  datatype Keys = Keys(left: bool, right: bool, space: bool, pause: bool, enter: bool)

  /** A bullet the enemy formation fires: where, how fast and in which colour. */
  datatype Shot = Shot(x: int, y: int, speed: int, colour: Colour)

  /** Everything a frame reads from outside the screen: the keys, what each timer's
      checkFinished answers, whether Ship.shoot's own timer allows a shot, whether
      the ship's destruction has run its course, the random draw for a new bonus
      ship and the shots the formation fires. */
  datatype Input = Input(
    keys: Keys,
    inputDelayDone: bool,
    shipReady: bool,
    shipRecovered: bool,
    specialDue: bool,
    explosionDone: bool,
    screenFinishedDone: bool,
    draw: int,
    volley: seq<Shot>)

  predicate ValidInput(c: Config, i: Input) {
    0 <= i.draw < (c.width - FiringMargin) / 2
  }

  /** The screen's changing state, with the bullet pool's. */
  datatype World = World(
    score: int, lives: int, bulletsShot: int, shipsDestroyed: int,
    levelFinished: bool, bulletCode: int,
    isPause: bool, isResume: bool, isRunning: bool, returnCode: int,
    ship: Ship, special: Option<EnemyShip>, position: int,
    formation: seq<EnemyShip>,
    bullets: map<BulletId, Bullet>, free: set<BulletId>, next: nat,
    events: seq<Event>)

  /** No bullet is both flying and free, and every bullet has been handed out. */
  predicate Valid(w: World) {
    && w.bullets.Keys !! w.free
    && (forall id :: id in w.bullets ==> id < w.next)
    && (forall id :: id in w.free ==> id < w.next)
  }

  /** The bullets the screen and the pool account for. */
  function Accounted(w: World): set<BulletId> {
    w.bullets.Keys + w.free
  }

  /** Java's n / 2 on an int: the quotient truncated toward zero. */
  function Half(n: int): (h: int)
    ensures n >= 0 ==> 0 <= n - 2 * h <= 1
    ensures n < 0 ==> -1 <= n - 2 * h <= 0
  {
    if n < 0 then -((-n) / 2) else n / 2
  }

  function Abs(n: int): nat {
    if n < 0 then -n else n
  }

  /** checkCollision: the distance between the centres is below the sum of the
      half-extents on both axes (halves truncated, strict comparison). */
  function CheckCollision(a: Box, b: Box): bool {
    var centreAX := a.x + Half(a.width);
    var centreAY := a.y + Half(a.height);
    var centreBX := b.x + Half(b.width);
    var centreBY := b.y + Half(b.height);
    var maxDistanceX := Half(a.width) + Half(b.width);
    var maxDistanceY := Half(a.height) + Half(b.height);
    Abs(centreAX - centreBX) < maxDistanceX && Abs(centreAY - centreBY) < maxDistanceY
  }

  // ---------------------------------------------------------------- the pool

  /** BulletPool.getBullet followed by adding the bullet to the screen's set. */
  function Acquire(c: Config, w: World, s: Shot): World {
    var t := Take(w.free, w.next);
    w.(bullets := w.bullets[t.0 := Bullet(s.x, s.y, c.bulletWidth, c.bulletHeight, s.speed, s.colour)],
       free := t.1, next := t.2)
  }

  /** bullets.removeAll(recyclable) followed by BulletPool.recycle(recyclable). */
  function Recycle(w: World, recyclable: set<BulletId>): World {
    w.(bullets := w.bullets - recyclable, free := w.free + recyclable)
  }

  // ---------------------------------------------------- movement and firing

  /** The ship cannot move right without its right side passing width / ratio - 1. */
  predicate AtRightBorder(c: Config, s: Ship) {
    s.x + s.width + s.speed > c.fieldWidth - 1
  }

  /** The ship cannot move left without its left side passing 1. */
  predicate AtLeftBorder(s: Ship) {
    s.x - s.speed < 1
  }

  /** The ship after the arrow keys: both borders are judged before moving,
      then right, then left. */
  function Steer(c: Config, s: Ship, keys: Keys): Ship {
    var s1 := if keys.right && !AtRightBorder(c, s) then s.MovedRight() else s;
    if keys.left && !AtLeftBorder(s) then s1.MovedLeft() else s1
  }

  /** The keyboard's effect on a ship that is not destroyed: both borders are
      judged before moving, then right, then left, then a shot. */
  function Controls(c: Config, w: World, i: Input): World {
    if w.ship.destroyed then w
    else
      var s2 := Steer(c, w.ship, i.keys);
      var w1 := w.(ship := s2);
      if i.keys.space && i.shipReady then
        var w2 := Acquire(c, w1, Shot(s2.x + Half(s2.width), s2.y, c.shipBulletSpeed, c.shipBulletColour));
        w2.(bulletsShot := w2.bulletsShot + 1, events := w2.events + [Started(ShootClip)])
      else w1
  }

  // ------------------------------------------------------------ bonus ship

  /** A live bonus ship moves on and, on reaching the firing position, drops a
      big bullet and arms the double life loss; a destroyed one is removed once
      its explosion has been shown. */
  function AdvanceSpecial(c: Config, w: World, i: Input): World {
    match w.special
    case None => w
    case Some(e) =>
      if !e.destroyed then
        var e1 := e.(x := e.x + SpecialStep);
        var w1 := w.(special := Some(e1));
        if e1.x == w.position then
          Acquire(c, w1, Shot(e1.x + BigBulletOffset, e1.y, BigBulletSpeed, DrawManager.Red)).(bulletCode := 1)
        else w1
      else if i.explosionDone then w.(special := None)
      else w
  }

  /** A new bonus ship appears when there is none and its timer has run out; its
      firing position is 20 plus twice the random draw. */
  function SpawnSpecial(c: Config, w: World, i: Input): World {
    if w.special.None? && i.specialDue then
      w.(special := Some(c.special), position := FiringBase + i.draw * 2,
         events := w.events + [Started(SpecialClip), Reset(SpecialTimer)])
    else w
  }

  /** The bonus ship escapes once its left side is past the screen's width. */
  function EscapeSpecial(c: Config, w: World): World {
    if w.special.Some? && w.special.value.x > c.width then
      w.(special := None, events := w.events + [Stopped(SpecialClip)])
    else w
  }

  // ------------------------------------------------------- pause and checkout

  /** previousMenuItem on LEFT, then nextMenuItem on RIGHT. */
  function Select(returnCode: int, keys: Keys): (rc: int)
    ensures keys.right ==> rc == 1
    ensures keys.left && !keys.right ==> rc == 0
    ensures !keys.left && !keys.right ==> rc == returnCode
  {
    var afterLeft := if keys.left then 0 else returnCode;
    if keys.right then 1 else afterLeft
  }

  /** One pass of the checkout loop: ENTER on "No" (1) returns to the game, ENTER
      on "Yes" (0) ends it with lives forced to -1. */
  function PollCheckout(w: World, keys: Keys): World {
    var rc := Select(w.returnCode, keys);
    var w1 := w.(returnCode := rc);
    if !keys.enter then w1
    else if rc == 1 then w1.(isPause := false, isResume := false)
    else if rc == 0 then w1.(lives := -1, isPause := false, isResume := false, isRunning := false)
    else w1
  }

  /** The rest of the pause loop's SPACE branch, once the checkout loop (if it
      was entered) is left: the selection timer is reset. */
  function CloseSelection(w: World): World {
    if w.isResume then w else w.(events := w.events + [Reset(SelectionTimer)])
  }

  /** One pass of the pause loop: SPACE on "Resume" (0) leaves the pause, SPACE
      on "Restart" (1) opens the checkout menu, whose first pass follows at once. */
  function PollPause(w: World, keys: Keys): World {
    var rc := Select(w.returnCode, keys);
    var w1 := w.(returnCode := rc);
    if !keys.space then w1
    else if rc == 0 then w1.(isPause := false, events := w1.events + [Reset(SelectionTimer)])
    else if rc == 1 then CloseSelection(PollCheckout(w1.(isResume := true), keys))
    else w1.(events := w1.events + [Reset(SelectionTimer)])
  }

  // ------------------------------------------------------------- upkeep

  /** The formation's shots, each a bullet from the pool, in order. */
  function Volley(c: Config, w: World, shots: seq<Shot>): World
    decreases |shots|
  {
    if shots == [] then w else Volley(c, Acquire(c, w, shots[0]), shots[1..])
  }

  /** ship.update (a destroyed ship is back once its destruction has run its
      course), enemyShipFormation.update (positions are not modelled) and
      enemyShipFormation.shoot. */
  function Upkeep(c: Config, w: World, i: Input): World {
    var s := if w.ship.destroyed && i.shipRecovered then w.ship.(destroyed := false) else w.ship;
    Volley(c, w.(ship := s), i.volley)
  }

  // ---------------------------------------------------------- collisions

  /** Lives left after a hit on the ship: the big bullet costs two, except on
      the last life, where it costs one like any other bullet. */
  function HitLives(lives: int, bulletCode: int): int {
    if bulletCode == 1 && lives != 1 then lives - 2 else lives - 1
  }

  /** The same as manageCollisions writes it: the big bullet always costs two
      lives, which takes a ship on its last life from 1 to -1. */
  function HitLivesAsWritten(lives: int, bulletCode: int): int {
    if bulletCode == 1 then lives - 2 else lives - 1
  }

  /** The ship is hit while it is not destroyed. */
  function PlayerHit(w: World): World {
    w.(ship := w.ship.(destroyed := true),
       lives := HitLives(w.lives, w.bulletCode),
       bulletCode := if w.bulletCode == 1 then 0 else w.bulletCode,
       events := w.events + [Started(ExplosionClip)])
  }

  /** A player bullet hits an enemy that is still there and overlaps it. */
  predicate Struck(e: EnemyShip, b: Box) {
    !e.destroyed && CheckCollision(b, e.Bounds())
  }

  /** An enemy after a player bullet's hit: with one hit point left it is
      destroyed, otherwise it loses a hit point. */
  function Strike(e: EnemyShip, b: Box): EnemyShip {
    if !Struck(e, b) then e
    else if e.hp == 1 then e.(destroyed := true)
    else e.(hp := e.hp - 1)
  }

  /** The formation after a player bullet has been tested against each member,
      with the points scored, the ships destroyed and whether anything was hit. */
  datatype Strikes = Strikes(formation: seq<EnemyShip>, gained: int, kills: nat, hit: bool)

  function StrikeAll(es: seq<EnemyShip>, b: Box): (r: Strikes)
    ensures |r.formation| == |es|
  {
    if es == [] then Strikes([], 0, 0, false)
    else
      var r0 := StrikeAll(es[..|es| - 1], b);
      var e := es[|es| - 1];
      var struck := Struck(e, b);
      Strikes(r0.formation + [Strike(e, b)],
              r0.gained + (if struck then e.pointValue else 0),
              r0.kills + (if struck && e.hp == 1 then 1 else 0),
              r0.hit || struck)
  }

  /** The state of manageCollisions partway: the world and the bullets to recycle. */
  datatype Sweep = Sweep(w: World, recyclable: set<BulletId>)

  /** manageCollisions' treatment of one bullet. */
  function Visit(s: Sweep, id: BulletId): Sweep {
    if id !in s.w.bullets then s
    else if s.w.bullets[id].speed > 0 then EnemyBulletVisit(s, id)
    else PlayerBulletVisit(s, id)
  }

  /** An enemy bullet that overlaps the ship before the level has finished is
      recycled, and hits the ship unless it is already destroyed. */
  function EnemyBulletVisit(s: Sweep, id: BulletId): Sweep
    requires id in s.w.bullets
  {
    var w := s.w;
    if CheckCollision(w.bullets[id].Bounds(), w.ship.Bounds()) && !w.levelFinished then
      Sweep(if w.ship.destroyed then w else PlayerHit(w), s.recyclable + {id})
    else s
  }

  /** A player bullet is tested against the formation, then against the bonus
      ship; it is recycled if it hit anything. */
  function PlayerBulletVisit(s: Sweep, id: BulletId): Sweep
    requires id in s.w.bullets
  {
    var b := s.w.bullets[id].Bounds();
    SpecialVisit(FormationVisit(s, b, id), b, id)
  }

  /** The hits of a player bullet on the formation: the points, the kills and
      the damaged or destroyed members. */
  function FormationVisit(s: Sweep, b: Box, id: BulletId): Sweep {
    var w := s.w;
    var st := StrikeAll(w.formation, b);
    Sweep(w.(formation := st.formation, score := w.score + st.gained,
             shipsDestroyed := w.shipsDestroyed + st.kills),
          if st.hit then s.recyclable + {id} else s.recyclable)
  }

  /** A hit of a player bullet on the bonus ship destroys it outright. */
  function SpecialVisit(s: Sweep, b: Box, id: BulletId): Sweep {
    var w := s.w;
    if w.special.Some? && Struck(w.special.value, b) then
      var e := w.special.value;
      Sweep(w.(score := w.score + e.pointValue, shipsDestroyed := w.shipsDestroyed + 1,
               special := Some(e.(destroyed := true)),
               events := w.events + [Reset(ExplosionTimer)]),
            s.recyclable + {id})
    else s
  }

  /** The bullets with ids below n visited in increasing order. */
  function Resolve(w: World, n: nat): Sweep {
    if n == 0 then Sweep(w, {}) else Visit(Resolve(w, n - 1), n - 1)
  }

  /** manageCollisions. */
  function Collide(w: World): World {
    var s := Resolve(w, w.next);
    Recycle(s.w, s.recyclable)
  }

  // --------------------------------------------------------------- cleanup

  /** Above the separation line or below the screen. */
  predicate OffScreen(c: Config, b: Bullet) {
    b.y < SeparationLineHeight || b.y > c.height
  }

  /** cleanBullets: every bullet advances once, and those now off screen go back
      to the pool. */
  function Clean(c: Config, w: World): World {
    var moved := map id | id in w.bullets :: w.bullets[id].Advanced();
    var recyclable := set id | id in moved && OffScreen(c, moved[id]);
    Recycle(w.(bullets := moved), recyclable)
  }

  // ------------------------------------------------------------ level end

  /** isEmpty: no member of the formation is left. */
  predicate FormationEmpty(es: seq<EnemyShip>) {
    forall k :: 0 <= k < |es| ==> es[k].destroyed
  }

  predicate LevelOver(w: World) {
    FormationEmpty(w.formation) || w.lives == 0
  }

  /** The level finishes once, when the formation is empty or no life is left;
      the screen stops running once the level has finished and its timer has run out. */
  function LevelCheck(w: World, i: Input): World {
    var w1 := if LevelOver(w) && !w.levelFinished then
      w.(levelFinished := true, events := w.events + [Started(GameOverClip), Reset(ScreenFinishedTimer)])
    else w;
    if w1.levelFinished && i.screenFinishedDone then w1.(isRunning := false) else w1
  }

  /** What every frame does whatever the input: collisions, cleanup, drawing
      (nothing to the state) and the end-of-level checks. */
  function EndOfFrame(c: Config, w: World, i: Input): World {
    LevelCheck(Clean(c, Collide(w)), i)
  }

  // ---------------------------------------------------------------- a frame

  /** The player's and the bonus ship's part of a frame, before the pause key. */
  function Act(c: Config, w: World, i: Input): World {
    EscapeSpecial(c, SpawnSpecial(c, AdvanceSpecial(c, Controls(c, w, i), i), i))
  }

  /** update, from its start: when the game accepts input the player and the
      bonus ship act and the pause key is read; a frame whose pause menu stays
      open stops there, otherwise it goes on with the upkeep and the end of the
      frame. */
  function Update(c: Config, w: World, i: Input): World {
    if i.inputDelayDone && !w.levelFinished then
      var w1 := Act(c, w, i);
      var w2 := if i.keys.pause then w1.(isPause := true) else w1;
      var w3 := if w2.isPause then PollPause(w2, i.keys) else w2;
      if w3.isPause then w3 else EndOfFrame(c, Upkeep(c, w3, i), i)
    else EndOfFrame(c, w, i)
  }

  /** One more pass of the open menu; when the menu closes the suspended frame
      finishes. */
  function Resume(c: Config, w: World, i: Input): World {
    var w1 := if w.isResume then CloseSelection(PollCheckout(w, i.keys)) else PollPause(w, i.keys);
    if w1.isPause then w1 else EndOfFrame(c, Upkeep(c, w1, i), i)
  }

  /** One step of the screen: a new frame, or a pass of the menu that holds one. */
  function Step(c: Config, w: World, i: Input): World {
    if w.isPause then Resume(c, w, i) else Update(c, w, i)
  }

  // ----------------------------------------------------- screen life cycle

  /** The constructor and initialize: the carried-over counters, one more life
      when a bonus life is awarded, no bullets of this screen yet. */
  function Init(c: Config, g: GameState, ship: Ship, formation: seq<EnemyShip>,
                free: set<BulletId>, next: nat): World {
    World(g.score, g.livesRemaining + (if c.bonusLife then 1 else 0), g.bulletsShot, g.shipsDestroyed,
          false, 0, false, false, false, 0,
          ship, None, 0, formation, map[], free, next,
          [Reset(SelectionTimer), Reset(SpecialTimer), Reset(InputDelayTimer)])
  }

  /** The frames the screen runs while it is running, one step each. */
  function Play(c: Config, w: World, frames: seq<Input>): World
    decreases |frames|
  {
    if frames == [] || !w.isRunning then w else Play(c, Step(c, w, frames[0]), frames[1..])
  }

  /** The end of run: the life bonus and the pause flag cleared. */
  function Settle(w: World): World {
    w.(score := w.score + LifeScore * (w.lives - 1), isPause := false)
  }

  /** getGameState. */
  function StateOf(level: int, w: World): GameState {
    GameState(level, w.score, w.lives, w.bulletsShot, w.shipsDestroyed)
  }
}

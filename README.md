# Space-invaders game screen, modelled in Dafny

This project models the per-frame logic of the game screen of a Java
space-invaders game (`GameScreen`) and the small pure decision tables of its
renderer (`DrawManager`). It then proves what that logic promises:
- the collision test;
- scoring and lives;
- bullet bookkeeping with the shared bullet pool;
- the bonus ship;
- the pause and checkout menus;
- the once-only end of a level.

Modules:

- `Decimal` (decimal.dfy): `Integer.toString` and `String.format("%04d", n)` on
  integers, with the number read back from its rendering.
- `DrawManager` (draw_manager.dfy) covers these tables:
  - the hit-point colour tiers;
  - the countdown caption;
  - menu highlighting;
  - the sprite size table;
  - the counters' `%04d`;
  - the summary screen's line positions.
- `Entities` (entities.dfy): the records the screen moves and tests (bullet,
  enemy ship, player ship, box). It also holds the class `BulletPool`, which
  hands out and takes back bullets.
- `GameRules` (game_rules.dfy): the screen's state as a value (`World`), and one
  function per part of `update`. Keys, cooldowns, the random draw and the
  formation's shots come in as an `Input` per frame.
- `GameRulesFacts` (game_rules_facts.dfy): bullet bookkeeping. Every bullet is
  either on the screen or in the pool, never both, and none is lost.
- `GameProperties` (game_properties.dfy): what the rules promise about
  collisions, scoring, lives, the bonus ship, the menus and the end of a level.
- `Screen` (game_screen.dfy): the class `GameScreen`, with the fields the Java
  screen updates in place. Each of its methods is proved to change them exactly
  as the matching `GameRules` function says.

How the Java code becomes state:
- The blocking `while (isPause)` / `while (isResume)` loops become states. One
  `Step` is either a new frame, or one more pass of the menu that holds the
  suspended frame. When the menu closes, the rest of that frame runs.
- Sounds started or stopped and cooldowns reset are appended to an `events`
  log.
- The bullets of the screen are a map from an identity (`BulletId`) to the
  bullet. The pool is a set of free identities plus the number of bullets made
  so far.

## Model

| member | source | states |
|---|---|---|
| GameRules.Half | src/main/java/screen/GameScreen.java:459-465 | Java's `/ 2` on an int truncates toward zero: for n ≥ 0, 2h ≤ n ≤ 2h + 1; for n < 0, 2h - 1 ≤ n ≤ 2h |
| GameProperties.CollisionGeometry | src/main/java/screen/GameScreen.java:457-471 | the test is symmetric for every pair of boxes; for non-negative sizes a collision implies the boxes overlap; for even sizes it is exactly overlap; for any boxes, when the truncated half-widths add up to 0 or less (for example two boxes narrower than 2) they never collide |
| GameProperties.HitPointsCountHits | src/main/java/screen/GameScreen.java:418-433 | an enemy with N ≥ 1 hit points that k bullets overlap in turn loses one hit point per bullet and is destroyed by the N-th; it yields min(k, N) × its point value and one kill once k ≥ N; the k-th bullet hits iff 1 ≤ k ≤ N |
| GameProperties.StrikeAllPointwise | src/main/java/screen/GameScreen.java:418-433 | one player bullet strikes each member of the formation independently; it is recycled iff some live member overlaps it |
| GameProperties.StrikeAllConserves | src/main/java/screen/GameScreen.java:418-433 | the points gained equal the worth of the hit points removed from the formation; the kills equal the number of newly destroyed members |
| GameProperties.PlayerBulletConserves | src/main/java/screen/GameScreen.java:418-442 | a player bullet's points and kills equal what the formation and the bonus ship lose |
| GameProperties.ResolveConserves | src/main/java/screen/GameScreen.java:398-446 | over the whole collision sweep, score plus what remains to be won, and kills minus destroyed ships, are unchanged |
| GameProperties.CollideConserves | src/main/java/screen/GameScreen.java:398-446 | manageCollisions keeps the score-to-worth and kills-to-wrecks balances |
| GameProperties.VisitShip | src/main/java/screen/GameScreen.java:400-416 | one bullet's visit: only an enemy bullet overlapping the ship while the level is on affects the ship, the lives or the armed big bullet, and it is marked for recycling |
| GameProperties.ResolveShip | src/main/java/screen/GameScreen.java:400-416 | after visiting the ids below n, the ship is destroyed iff some enemy bullet among them hit it before the level finished; a live ship loses lives once, by `HitLives`: one, or two for the armed big bullet except on the last life, where it is one; exactly the hitting enemy bullets are marked |
| GameProperties.CollideShip | src/main/java/screen/GameScreen.java:400-445 | however many enemy bullets hit, a live ship is destroyed once and loses one life, or two for the armed big bullet except on the last life (the corrected loss, see Findings), and the big bullet is disarmed; a destroyed ship loses nothing; hitting enemy bullets leave the screen and the others stay; after the level finished none does anything |
| GameRules.HitLives | src/main/java/screen/GameScreen.java:407-412 | the corrected life loss (see Findings) |
| GameRules.HitLivesAsWritten | src/main/java/screen/GameScreen.java:407-412 | the life loss as written: the big bullet always costs two |
| GameProperties.LastLifeAsWritten | src/main/java/screen/GameScreen.java:407-412 | as written, the big bullet on the last life leaves -1 lives; the level-end check then does not fire while enemies remain, and no later hit brings lives back to 0 |
| GameProperties.LastLifeEndsLevel | src/main/java/screen/GameScreen.java:295-297 | with the corrected loss, a hit ship never has negative lives; the loss differs from the written one only on the last life with the big bullet armed; losing the last life always finishes the level in the same frame |
| GameRulesFacts.AcquireAddsOne | src/main/java/screen/GameScreen.java:207-208 | getBullet adds exactly one bullet, with the requested position, speed and colour, under an identity that was free or new; no bullet is lost and nothing else changes |
| GameRulesFacts.RecycleMoves | src/main/java/screen/GameScreen.java:444-445 | `removeAll` plus `recycle`: the screen loses exactly the recycled bullets, the pool gains exactly them, none is in both, the others are unchanged |
| GameRulesFacts.ResolveKeepsBullets | src/main/java/screen/GameScreen.java:398-443 | the collision sweep leaves the bullets and the pool alone and marks only bullets of the screen |
| GameRulesFacts.CollideGrows | src/main/java/screen/GameScreen.java:398-446 | manageCollisions keeps every bullet accounted for |
| GameRulesFacts.CleanBookkeeping | src/main/java/screen/GameScreen.java:383-393 | cleanBullets keeps every bullet accounted for; the pool gains exactly the bullets removed |
| GameRulesFacts.CleanAdvancesAndReaps | src/main/java/screen/GameScreen.java:383-393 | every bullet advances once; a bullet stays iff it is on screen after advancing; the survivors lie between the separation line (40) and the screen height; exactly the others go to the pool |
| GameRulesFacts.StepGrows | src/main/java/screen/GameScreen.java:173-304 | a step of the screen keeps every bullet accounted for; new bullets only come from the pool creating them |
| GameProperties.ControlsMove | src/main/java/screen/GameScreen.java:178-194 | a destroyed ship ignores the keys; otherwise only the ship's x changes, by its speed to the right and to the left unless the border checks (judged before moving) forbid; a ship inside the playfield stays inside |
| GameProperties.ControlsFire | src/main/java/screen/GameScreen.java:195-199 | a shot is counted iff the ship is live, SPACE is held and the ship's cooldown allows; it adds exactly one bullet, the ship's, from the middle of its top; otherwise the bullets stay as they were |
| GameProperties.NoInputNoControl | src/main/java/screen/GameScreen.java:176-200 | during the input delay or after the level finished, the ship does not move, nothing is fired and no menu opens |
| GameProperties.SpawnSpecialEffect | src/main/java/screen/GameScreen.java:217-227 | a bonus ship appears only when none is present and its cooldown has finished; its firing position is even, between 20 and the width less 32, and reachable by the ship in steps of 2 |
| GameProperties.AdvanceSpecialEffect | src/main/java/screen/GameScreen.java:202-215 | a live bonus ship moves 2 to the right; at its firing position it drops one speed-4 red bullet 8 to the right of its left side and arms the big bullet; a destroyed one is removed once its explosion is shown |
| GameProperties.SpecialLeaves | src/main/java/screen/GameScreen.java:202-233 | the bonus ship leaves during a frame only by passing the right edge, or once destroyed and its explosion shown |
| GameProperties.SpecialEscapes | src/main/java/screen/GameScreen.java:228-233 | a live bonus ship whose next move takes its left side past the screen's width is removed in that frame |
| GameProperties.MenuFreezesGame | src/main/java/screen/GameScreen.java:238-284 | while the pause or checkout menu stays open, only the selected item, which menu is open and the reset log change |
| GameProperties.CheckoutChoice | src/main/java/screen/GameScreen.java:263-273 | ENTER on "Yes" stops the screen with -1 lives and closes the menus; ENTER on "No" closes the menus and keeps lives and the screen running |
| GameProperties.PauseChoice | src/main/java/screen/GameScreen.java:247-282 | SPACE on "continue" (0) closes the pause menu and keeps lives and running; on "exit" (1) it opens the checkout menu and the frame waits there, unless ENTER is held too, which answers "No" and closes both menus with lives kept |
| GameProperties.LevelCheckOnce | src/main/java/screen/GameScreen.java:295-303 | the level finishes when the formation is empty or lives are exactly 0; the screen-finished cooldown is reset only on that transition; a finished screen stops once the cooldown has run out |
| GameProperties.StepFinishesOnce | src/main/java/screen/GameScreen.java:173-304 | a finished level stays finished; a step resets the screen-finished cooldown exactly when it finishes the level |
| GameProperties.PlayInvariants | src/main/java/screen/GameScreen.java:173-304 | over any number of frames, every bullet stays accounted for, and the screen-finished cooldown has been reset once if the level finished and never otherwise |
| GameProperties.RunFromStart | src/main/java/screen/GameScreen.java:107-124 | the screen starts from the carried-over counters, with one more life when a bonus life is awarded; from there the invariants above hold for any frames |
| Entities.Take | src/main/java/screen/GameScreen.java:207-208 | the pool's choice: a free bullet when there is one, which is no longer free, otherwise a new one |
| Entities.BulletPool.GetBullet | test/engine/Bosstest.java:42-43 | the bullet has the given position, speed and colour; its identity is taken from the free ones or is new |
| Entities.BulletPool.Recycle | src/main/java/screen/GameScreen.java:392 | the given bullets become free |
| Screen.GameScreen.constructor | src/main/java/screen/GameScreen.java:107-124 | the fields are those of the carried-over game state, with one more life when a bonus life is awarded |
| Screen.GameScreen.Run | src/main/java/screen/GameScreen.java:160-168 | the screen plays its frames while it runs, then adds 100 per life beyond the first and returns the selected code |
| Screen.GameScreen.PlayFrames | src/main/java/screen/GameScreen.java:160-161 | the frame loop changes the state as `Play` says |
| Screen.GameScreen.Update | src/main/java/screen/GameScreen.java:173-304 | one step changes the fields as `Step` says |
| Screen.GameScreen.ResumeFrame | src/main/java/screen/GameScreen.java:238-289 | the next pass of the open menu; when it closes, the rest of the frame |
| Screen.GameScreen.NewFrame | src/main/java/screen/GameScreen.java:176-289 | a frame that accepts input |
| Screen.GameScreen.ShipsAct | src/main/java/screen/GameScreen.java:178-233 | the player's and the bonus ship's part of the frame |
| Screen.GameScreen.FinishFrame | src/main/java/screen/GameScreen.java:286-303 | the entities' updates and the end of the frame |
| Screen.GameScreen.EndFrame | src/main/java/screen/GameScreen.java:291-303 | collisions, cleanup and the level-end checks |
| Screen.GameScreen.ControlShip | src/main/java/screen/GameScreen.java:178-200 | movement and firing as `Controls` says |
| Screen.GameScreen.SteerShip | src/main/java/screen/GameScreen.java:184-194 | the arrow keys move the ship unless it stands at the border it would cross |
| Screen.GameScreen.Shoot | src/main/java/screen/GameScreen.java:196 | a shot, when allowed, is a pool bullet from the middle of the ship's top |
| Screen.GameScreen.AddBullet | src/main/java/screen/GameScreen.java:207-208 | getBullet, and the bullet joins the screen |
| Screen.GameScreen.AdvanceSpecialShip | src/main/java/screen/GameScreen.java:202-215 | the bonus ship's move, big bullet and removal |
| Screen.GameScreen.SpawnSpecialShip | src/main/java/screen/GameScreen.java:217-227 | a new bonus ship and its firing position |
| Screen.GameScreen.EscapeSpecialShip | src/main/java/screen/GameScreen.java:228-233 | the bonus ship escapes past the right edge |
| Screen.GameScreen.NextMenuItem | src/main/java/screen/GameScreen.java:308-310 | selects item 1 and changes nothing else |
| Screen.GameScreen.PreviousMenuItem | src/main/java/screen/GameScreen.java:315-317 | selects item 0 and changes nothing else |
| Screen.GameScreen.MoveSelection | src/main/java/screen/GameScreen.java:239-246 | LEFT then RIGHT change the selection |
| Screen.GameScreen.PollPauseMenu | src/main/java/screen/GameScreen.java:238-284 | one pass of the pause loop |
| Screen.GameScreen.ChoosePauseItem | src/main/java/screen/GameScreen.java:247-282 | SPACE on "Resume" closes the menu; on "Restart" it opens the checkout menu |
| Screen.GameScreen.PollCheckoutMenu | src/main/java/screen/GameScreen.java:254-277 | one pass of the checkout loop |
| Screen.GameScreen.ConfirmCheckout | src/main/java/screen/GameScreen.java:263-273 | ENTER on the selected checkout item |
| Screen.GameScreen.UpdateEntities | src/main/java/screen/GameScreen.java:286-288 | the ship's recovery and the formation's shots, each a pool bullet |
| Screen.GameScreen.ManageCollisions | src/main/java/screen/GameScreen.java:398-446 | the collision sweep over the bullets, then the recycling, as `Collide` says |
| Screen.GameScreen.VisitBullet | src/main/java/screen/GameScreen.java:400-443 | one bullet of the sweep |
| Screen.GameScreen.EnemyBulletHits | src/main/java/screen/GameScreen.java:401-416 | an enemy bullet against the ship |
| Screen.GameScreen.PlayerBulletHits | src/main/java/screen/GameScreen.java:417-443 | a player bullet against the formation, then the bonus ship |
| Screen.GameScreen.FormationHits | src/main/java/screen/GameScreen.java:418-433 | a player bullet's hits on the formation |
| Screen.GameScreen.StrikeFormation | src/main/java/screen/GameScreen.java:418-433 | the loop over the formation computes `StrikeAll` without changing the screen |
| Screen.GameScreen.SpecialHit | src/main/java/screen/GameScreen.java:434-442 | a hit on the bonus ship scores, counts a kill, destroys it and resets its explosion cooldown |
| Screen.GameScreen.CleanBullets | src/main/java/screen/GameScreen.java:383-393 | cleanBullets as `Clean` says |
| Screen.GameScreen.AdvanceBullets | src/main/java/screen/GameScreen.java:384-390 | the loop advances every bullet once and collects exactly those above the separation line or below the screen |
| Screen.GameScreen.CheckLevelEnd | src/main/java/screen/GameScreen.java:295-303 | the level-end checks as `LevelCheck` says |
| Screen.GameScreen.GetGameState | src/main/java/screen/GameScreen.java:478-481 | the summary handed to the next level holds the level, score, lives, shots and kills |
| DrawManager.HpColour | src/main/java/engine/DrawManager.java:243-266 | hit points 1 to 10 select a tier colour; any other value keeps the entity's own |
| DrawManager.HpTiers | src/main/java/engine/DrawManager.java:243-266 | 1 white, 2 orange, 3 yellow, 4 blue, 5 to 10 red; the first five tiers differ; the tier does not depend on the entity's colour |
| DrawManager.CountdownCaptionCases | src/main/java/engine/DrawManager.java:937-953 | 4 and above: "Level " and the level, then " - Bonus life!" iff a bonus life is awarded; any other non-zero number, negatives included, reads back as itself; 0 is "GO!" |
| DrawManager.TwoItemMenusHighlightOne | src/main/java/engine/DrawManager.java:540-591 | an item of the pause or checkout menu is lit iff the option is its position, so exactly one is lit for 0 or 1 |
| DrawManager.MenuHighlightsAtMostOne | src/main/java/engine/DrawManager.java:425-448 | at most one main-menu item is lit; one is lit iff the option is 0, 2, 3 or 4 |
| DrawManager.SpriteSizesConsistent | src/main/java/engine/DrawManager.java:104-116 | the size of every sprite type as the table gives it; the boss sprite is the largest in both directions |
| DrawManager.CounterText | src/main/java/engine/DrawManager.java:353 | the counters are `%04d` of the count: at least 4 characters, exactly 4 below 10000, digits reading back as the count when it is not negative |
| DrawManager.Format04NonNegativeOrNot | src/main/java/engine/DrawManager.java:296 | `%04d` of any count is at least four characters; a count that is not negative reads back from them |
| DrawManager.Quarter | src/main/java/engine/DrawManager.java:757-761 | Java's `getHeight() / 4` truncates toward zero: for n ≥ 0, 4q ≤ n ≤ 4q + 3; for n < 0, 4q - 3 ≤ n ≤ 4q |
| DrawManager.SummaryLayout | test/screen/GameSummaryTest.java:29-37 | lines are at least one adjustment apart, with gaps before the manual and the instructions; at height 520 they are the positions the test expects |
| Decimal.Format04NonNegative | src/main/java/engine/DrawManager.java:296 | `%04d` of n ≥ 0: four digits below 10000, otherwise all of n's digits, always reading back as n |
| Decimal.Format04Negative | src/main/java/engine/DrawManager.java:296 | `%04d` of n < 0: a minus sign and at least three digits, reading back as n |
| Decimal.IntToStringRoundTrip | src/main/java/engine/DrawManager.java:937-953 | `Integer.toString` is a numeral that reads back as the number |
| Decimal.ValueOfDigits | src/main/java/engine/DrawManager.java:949 | the digits of n read back as n |
| Decimal.DigitsLength | src/main/java/engine/DrawManager.java:296 | n has at most k digits iff n < 10^k |
| Decimal.PaddedValue | src/main/java/engine/DrawManager.java:296 | padding with zeros keeps the value |

## Left out

- Screen.java (the parent class and its `run` loop), Ship, EnemyShip, EnemyShipFormation, BulletPool, Bullet, Cooldown and GameState are not part of this model. They appear only through the contracts the screen relies on:
  - moving the ship shifts x by its speed;
  - `shoot` may add one bullet;
  - the formation is a sequence that can be iterated, whose members are destroyed in place and which is empty when every member is destroyed;
  - `getBullet` returns a bullet with the requested position, speed and colour;
  - `recycle` frees bullets.
- The formation's own movement and its firing pattern (`enemyShipFormation.update` and `shoot`): the shots of a frame come in as an input.
- `Ship.update` and the ship's recovery after a hit: whether the ship is live again comes in as an input.
- The order of a `HashSet`: manageCollisions visits the bullets in increasing identity order. cleanBullets does not depend on the order.
- Which free bullet the pool hands out: the model reuses the free bullet with the smallest identity.
- `width / getRatio()` is a floating-point ratio: the playfield width is a fixed integer of the configuration.
- Time and sleeps: every `checkFinished` becomes a boolean input, and `Thread.sleep` is dropped. Cooldown resets, the input delay's in `initialize` among them, are recorded in the event log; whether the input delay has expired comes in as an input.
- Randomness: the draw `k` of `Random.nextInt((width - 50) / 2)` is an input with 0 ≤ k < (width - 50) / 2.
- Sound: starting and stopping clips is recorded in the event log. Audio.java itself is not modelled.
- Drawing, fonts, window handling, logging, and the pixel loops of DrawManager.
- The game settings, the boss stage flag and the separator-line position are not used by the modelled logic.
- 32-bit overflow of score, lives and counters: the model uses unbounded integers.
- Screen.GameScreen.EnemyBulletHits, GameRules.PlayerHit, GameRules.Step, GameProperties.VisitShip, GameProperties.ResolveShip and GameProperties.CollideShip use the corrected life loss `HitLives`, not the `lives -= 2` of GameScreen.java:408: when the armed big bullet hits a ship on its last life, the model leaves 0 lives where the source leaves -1. The level then ends in that frame, and the end-of-screen bonus `100 * (lives - 1)` is -100 rather than -200. Only a single hit is modelled as written (GameProperties.PlayerHitAsWritten and GameProperties.LastLifeAsWritten). The other possible repair, testing `lives <= 0` at GameScreen.java:295, is not modelled.
- Screen.GameScreen.Run: the frames are a finite sequence, so Run can return, with the life bonus applied, while the screen is still running. The Java `run` returns only once the screen has stopped.
- `super.update()` (GameScreen.java:174) is the parent class's update. It is treated as changing nothing of the screen's state.
- Screen.GameScreen.Run: models the checkout "Yes" path as written: lives become -1, so the end-of-screen bonus `100 * (lives - 1)` takes 200 points off the score.
- GameSummaryScreen.java (an input-delay screen with file I/O) is not part of this model.

## Findings

| source | as written | input that shows it | evidently intended | confidence | as-written member | corrected member |
|---|---|---|---|---|---|---|
| src/main/java/screen/GameScreen.java:407-412 | the armed big bullet always takes two lives, so a ship on its last life goes from 1 to -1 lives; the level ends only when lives are exactly 0 | lives = 1, bulletCode = 1, the big bullet hits the live ship while enemies remain: lives become -1, and the level does not finish until the formation is empty, since no later hit brings lives back to 0 | losing the last life ends the level, so the count stops at 0 | not executed | GameProperties.LastLifeAsWritten | GameProperties.LastLifeEndsLevel |

The rest of the model uses the corrected loss `GameRules.HitLives`: on the last life, the big bullet costs one life.

/** The value choices the draw manager makes before it paints anything: which
    colour an entity is painted in, which caption the countdown shows, which menu
    item is highlighted, how large each sprite is, how the score and bullet
    counters are rendered and where the lines of the summary screen go. */
module DrawManager {
  import opened Decimal

  datatype Colour = White | Orange | Yellow | Blue | Red | Green | Gray | Black

  datatype SpriteType =
    | Ship | ShipDestroyed | Bullet | EnemyBullet
    | EnemyShipA1 | EnemyShipA2 | EnemyShipB1 | EnemyShipB2 | EnemyShipC1 | EnemyShipC2
    | EnemyShipSpecial | Explosion | EnemyBoss

  /** The colour drawEntity paints with: the first five hit points each have a
      tier colour, six to ten share red, and any other value keeps the entity's
      own colour. */
  function HpColour(hp: int, own: Colour): (c: Colour)
    ensures 1 <= hp <= 10 ==> c in {White, Orange, Yellow, Blue, Red}
    ensures !(1 <= hp <= 10) ==> c == own
  {
    match hp
    case 1 => White
    case 2 => Orange
    case 3 => Yellow
    case 4 => Blue
    case 5 => Red
    case 6 => Red
    case 7 => Red
    case 8 => Red
    case 9 => Red
    case 10 => Red
    case _ => own
  }

  /** Within 1..10 the tier alone decides the colour, whatever the entity's own
      colour; the tier colours of 1..5 are pairwise different, and every hp from
      5 to 10 is red. */
  lemma HpTiers(hp: int, own: Colour, other: Colour)
    ensures 1 <= hp <= 10 ==> HpColour(hp, own) == HpColour(hp, other)
    ensures forall i, j :: 1 <= i < j <= 5 ==> HpColour(i, own) != HpColour(j, own)
    ensures 5 <= hp <= 10 ==> HpColour(hp, own) == Red
    ensures HpColour(1, own) == White && HpColour(2, own) == Orange
    ensures HpColour(3, own) == Yellow && HpColour(4, own) == Blue
  {
  }

  /** The caption drawCountDown shows for a countdown number. */
  function CountdownCaption(level: int, number: int, bonusLife: bool): (s: string)
  {
    if number >= 4 then
      if !bonusLife then "Level " + IntToString(level)
      else "Level " + IntToString(level) + " - Bonus life!"
    else if number != 0 then IntToString(number)
    else "GO!"
  }

  /** From four on the caption names the level, which reads back from it, and
      ends in the bonus-life notice exactly when a bonus life is awarded; any
      other non-zero number, negative ones included, is shown as itself; zero is
      "GO!". */
  lemma CountdownCaptionCases(level: int, number: int, bonusLife: bool)
    ensures var s := CountdownCaption(level, number, bonusLife);
      && (number >= 4 ==>
            && |s| > 6 && s[..6] == "Level "
            && var n := if bonusLife then |s| - 14 else |s|;
               6 < n <= |s| && IsNumeral(s[6..n]) && ParseInt(s[6..n]) == level
               && (bonusLife <==> s[n..] == " - Bonus life!"))
      && (number < 4 && number != 0 ==> IsNumeral(s) && ParseInt(s) == number)
      && (number == 0 ==> s == "GO!")
  {
    var s := CountdownCaption(level, number, bonusLife);
    var t := IntToString(level);
    IntToStringRoundTrip(level);
    IntToStringRoundTrip(number);
    if number >= 4 {
      if bonusLife {
        assert s == "Level " + t + " - Bonus life!";
        assert s[6..|s| - 14] == t;
        assert s[|s| - 14..] == " - Bonus life!";
      } else {
        assert s[6..|s|] == t;
        assert s[|s|..] == [];
      }
    }
  }

  /** The pause menu offers Resume then Restart; the checkout menu Yes then No. */
  datatype PauseItem = Resume | Restart
  datatype CheckOutItem = Yes | No

  function PauseItemIndex(item: PauseItem): int {
    match item
    case Resume => 0
    case Restart => 1
  }

  function CheckOutItemIndex(item: CheckOutItem): int {
    match item
    case Yes => 0
    case No => 1
  }

  /** drawPause highlights the item whose position equals the selected option. */
  function PauseHighlighted(item: PauseItem, option: int): (on: bool)
    ensures on ==> option == 0 || option == 1
  {
    match item
    case Resume => option == 0
    case Restart => option == 1
  }

  /** drawCheckOut highlights the item whose position equals the selected option. */
  function CheckOutHighlighted(item: CheckOutItem, option: int): (on: bool)
    ensures on ==> option == 0 || option == 1
  {
    match item
    case Yes => option == 0
    case No => option == 1
  }

  /** Exactly one item of each two-item menu is lit when the option is 0 or 1,
      namely the one at that position, and none is lit for any other option. */
  lemma TwoItemMenusHighlightOne(option: int)
    ensures (option == 0 || option == 1) ==>
      && (PauseHighlighted(Resume, option) != PauseHighlighted(Restart, option))
      && (CheckOutHighlighted(Yes, option) != CheckOutHighlighted(No, option))
    ensures forall p :: PauseHighlighted(p, option) <==> PauseItemIndex(p) == option
    ensures forall c :: CheckOutHighlighted(c, option) <==> CheckOutItemIndex(c) == option
  {
    forall p ensures PauseHighlighted(p, option) <==> PauseItemIndex(p) == option {
      match p
      case Resume =>
      case Restart =>
    }
    forall c ensures CheckOutHighlighted(c, option) <==> CheckOutItemIndex(c) == option {
      match c
      case Yes =>
      case No =>
    }
  }

  /** The main menu's items and the option code that selects each. */
  datatype MenuItem = Play | Setting | HighScores | Exit

  function MenuCode(item: MenuItem): (code: int)
    ensures code in {0, 2, 3, 4}
  {
    match item
    case Play => 2
    case Setting => 3
    case HighScores => 4
    case Exit => 0
  }

  /** drawMenu paints an item green exactly when the option is its code. */
  function MenuHighlighted(item: MenuItem, option: int): bool {
    option == MenuCode(item)
  }

  /** Different items have different codes, so at most one item is lit; every
      option in {0, 2, 3, 4} lights exactly one item, and any other option,
      1 in particular, lights none. */
  lemma MenuHighlightsAtMostOne(option: int)
    ensures forall a, b :: MenuHighlighted(a, option) && MenuHighlighted(b, option) ==> a == b
    ensures option in {0, 2, 3, 4} ==> exists a :: MenuHighlighted(a, option)
    ensures option !in {0, 2, 3, 4} ==> forall a :: !MenuHighlighted(a, option)
  {
    forall a, b | MenuHighlighted(a, option) && MenuHighlighted(b, option) ensures a == b {
      match a
      case Play =>
      case Setting =>
      case HighScores =>
      case Exit =>
    }
    if option == 0 {
      assert MenuHighlighted(Exit, option);
    } else if option == 2 {
      assert MenuHighlighted(Play, option);
    } else if option == 3 {
      assert MenuHighlighted(Setting, option);
    } else if option == 4 {
      assert MenuHighlighted(HighScores, option);
    }
  }

  /** The cell grid the sprite map allocates for each sprite type: (columns, rows). */
  function SpriteSize(t: SpriteType): (size: (nat, nat))
    ensures size.0 > 0 && size.1 > 0
  {
    match t
    case Ship => (13, 8)
    case ShipDestroyed => (13, 8)
    case Bullet => (3, 5)
    case EnemyBullet => (3, 5)
    case EnemyShipA1 => (12, 8)
    case EnemyShipA2 => (12, 8)
    case EnemyShipB1 => (12, 8)
    case EnemyShipB2 => (12, 8)
    case EnemyShipC1 => (12, 8)
    case EnemyShipC2 => (12, 8)
    case EnemyShipSpecial => (16, 7)
    case Explosion => (13, 7)
    case EnemyBoss => (48, 32)
  }

  predicate IsFormationSprite(t: SpriteType) {
    t in {EnemyShipA1, EnemyShipA2, EnemyShipB1, EnemyShipB2, EnemyShipC1, EnemyShipC2}
  }

  /** Both animation frames of a sprite share one size (so does the player ship
      and its wreck, and both kinds of bullet), all formation ships are 12 by 8,
      and the boss is larger in both directions than every other sprite. */
  lemma SpriteSizesConsistent()
    ensures SpriteSize(Ship) == SpriteSize(ShipDestroyed) == (13, 8)
    ensures SpriteSize(Bullet) == SpriteSize(EnemyBullet) == (3, 5)
    ensures forall t :: IsFormationSprite(t) ==> SpriteSize(t) == (12, 8)
    ensures SpriteSize(EnemyShipSpecial) == (16, 7) && SpriteSize(Explosion) == (13, 7)
    ensures forall t :: t != EnemyBoss ==>
      SpriteSize(t).0 < SpriteSize(EnemyBoss).0 && SpriteSize(t).1 < SpriteSize(EnemyBoss).1
  {
  }

  /** The text drawScore and drawBulletCount render for a counter. */
  function CounterText(n: int): (s: string)
    ensures n >= 0 ==> IsDigits(s) && Value(s) == n
    ensures 0 <= n < 10000 ==> |s| == 4
    ensures |s| >= 4
  {
    Format04NonNegativeOrNot(n);
    Format04(n)
  }

  lemma Format04NonNegativeOrNot(n: int)
    ensures n >= 0 ==> IsDigits(Format04(n)) && Value(Format04(n)) == n
    ensures 0 <= n < 10000 ==> |Format04(n)| == 4
    ensures |Format04(n)| >= 4
  {
    if n >= 0 {
      Format04NonNegative(n);
    } else {
      Format04Negative(n);
    }
  }

  /** The lines of drawSummary, top to bottom. */
  datatype SummaryLine =
    | Title | Detail1 | Detail2 | Detail3 | Detail4
    | ManualTitle | Manual1 | Manual2 | Manual3 | Instructions

  /** Place adjustment between summary lines. */
  const Adjust := 30

  /** How many adjustments below a quarter of the height each line sits. */
  function SummarySlot(line: SummaryLine): int {
    match line
    case Title => -1
    case Detail1 => 0
    case Detail2 => 1
    case Detail3 => 2
    case Detail4 => 3
    case ManualTitle => 6
    case Manual1 => 7
    case Manual2 => 8
    case Manual3 => 9
    case Instructions => 11
  }

  /** Java's height / 4 on an int: the quotient truncated toward zero. */
  function Quarter(n: int): (q: int)
    ensures n >= 0 ==> 0 <= n - 4 * q <= 3
    ensures n < 0 ==> -3 <= n - 4 * q <= 0
  {
    if n < 0 then -((-n) / 4) else n / 4
  }

  function SummaryY(height: int, line: SummaryLine): int {
    Quarter(height) + Adjust * SummarySlot(line)
  }

  function SummaryOrder(): seq<SummaryLine> {
    [Title, Detail1, Detail2, Detail3, Detail4, ManualTitle, Manual1, Manual2, Manual3, Instructions]
  }

  /** The baselines of the summary screen for a given height, top to bottom. */
  function SummaryLines(height: int): (ys: seq<int>)
    ensures |ys| == |SummaryOrder()|
    ensures forall i :: 0 <= i < |ys| ==> ys[i] == SummaryY(height, SummaryOrder()[i])
  {
    seq(|SummaryOrder()|, i requires 0 <= i < |SummaryOrder()| => SummaryY(height, SummaryOrder()[i]))
  }

  /** The lines go strictly downwards, at least one adjustment apart, with a
      blank gap of two adjustments before the manual and one before the
      instructions; at height 520 they are the positions the game summary test
      expects. */
  lemma SummaryLayout(height: int)
    ensures var ys := SummaryLines(height);
      && (forall i :: 0 <= i < |ys| - 1 ==> ys[i] + Adjust <= ys[i + 1])
      && ys[5] - ys[4] == 3 * Adjust && ys[9] - ys[8] == 2 * Adjust
      && ys[0] == Quarter(height) - Adjust
    ensures SummaryLines(520) == [100, 130, 160, 190, 220, 310, 340, 370, 400, 460]
  {
    var ys := SummaryLines(520);
    assert ys[0] == 100 && ys[1] == 130 && ys[2] == 160 && ys[3] == 190 && ys[4] == 220;
    assert ys[5] == 310 && ys[6] == 340 && ys[7] == 370 && ys[8] == 400 && ys[9] == 460;
  }
}

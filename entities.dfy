/** The entities the game screen moves and tests against each other, with the
    small part of their own behaviour the screen relies on, and the pool that
    hands out and takes back bullets. */
module Entities {
  import DrawManager
  type Colour = DrawManager.Colour

  /** Bullets keep their identity while they are reused; an id stands for one
      bullet object. */
  type BulletId = nat

  /** Position of the upper left corner and size, in screen units. */
  datatype Box = Box(x: int, y: int, width: int, height: int)

  /** A bullet; a positive speed means it was fired by an enemy and travels
      down, any other speed means the player fired it and it travels up. */
  datatype Bullet = Bullet(x: int, y: int, width: int, height: int, speed: int, colour: Colour)
  {
    function Bounds(): Box {
      Box(x, y, width, height)
    }

    /** Bullet.update: one frame of vertical travel at the bullet's speed. */
    function Advanced(): (b: Bullet)
      ensures b.y == y + speed && b.(y := y) == this
    {
      this.(y := y + speed)
    }
  }

  /** An enemy ship: a member of the formation or the bonus ship. */
  datatype EnemyShip = EnemyShip(x: int, y: int, width: int, height: int, hp: int, pointValue: int, destroyed: bool)
  {
    function Bounds(): Box {
      Box(x, y, width, height)
    }
  }

  /** The player's ship. */
  datatype Ship = Ship(x: int, y: int, width: int, height: int, speed: int, destroyed: bool)
  {
    function Bounds(): Box {
      Box(x, y, width, height)
    }

    function MovedRight(): (s: Ship)
      ensures s.x == x + speed && s.(x := x) == this
    {
      this.(x := x + speed)
    }

    function MovedLeft(): (s: Ship)
      ensures s.x == x - speed && s.(x := x) == this
    {
      this.(x := x - speed)
    }
  }

  /** The smallest element of a non-empty set of ids. */
  function Least(s: set<BulletId>): (m: BulletId)
    requires s != {}
    ensures m in s && forall y :: y in s ==> m <= y
  {
    LeastExists(s);
    var m :| m in s && forall y :: y in s ==> m <= y; m
  }

  lemma LeastExists(s: set<BulletId>)
    requires s != {}
    ensures exists m :: m in s && forall y :: y in s ==> m <= y
  {
    var x :| x in s;
    LeastAtMost(s, x);
  }

  /** A set holding x has a least element, found by descending from x. */
  lemma {:induction false} LeastAtMost(s: set<BulletId>, x: BulletId)
    requires x in s
    ensures exists m :: m in s && forall y :: y in s ==> m <= y
    decreases x
  {
    if exists y :: y in s && y < x {
      var y :| y in s && y < x;
      LeastAtMost(s, y);
    } else {
      assert forall y :: y in s ==> x <= y;
    }
  }

  /** BulletPool.getBullet's choice of object: a free bullet when there is one
      (the model reuses the smallest free id), otherwise a new one. The result
      is the id, the free set left and the next id to allocate. */
  function Take(free: set<BulletId>, next: nat): (r: (BulletId, set<BulletId>, nat))
    ensures r.0 !in r.1 && r.1 <= free
    ensures free == {} ==> r == (next, {}, next + 1)
    ensures free != {} ==> r.0 in free && r.1 == free - {r.0} && r.2 == next
  {
    if free == {} then (next, {}, next + 1)
    else var id := Least(free); (id, free - {id}, next)
  }

  /** The bullet pool: the bullets waiting to be reused, and the number of
      bullet objects created so far (ids below it have been handed out once). */
  class BulletPool {
    var free: set<BulletId>
    var next: nat
    /** The size Bullet's constructor gives every bullet. */
    const bulletWidth: int
    const bulletHeight: int

    ghost predicate Valid()
      reads this
    {
      forall id :: id in free ==> id < next
    }

    constructor (bulletWidth: int, bulletHeight: int)
      ensures Valid() && free == {} && next == 0
      ensures this.bulletWidth == bulletWidth && this.bulletHeight == bulletHeight
    {
      this.bulletWidth, this.bulletHeight := bulletWidth, bulletHeight;
      free, next := {}, 0;
    }

    /** getBullet: a bullet reset to the given position, speed and colour, taken
        from the free ones or newly made; it is no longer free. */
    method GetBullet(x: int, y: int, speed: int, colour: Colour) returns (id: BulletId, b: Bullet)
      requires Valid()
      modifies this
      ensures Valid()
      ensures (id, free, next) == Take(old(free), old(next))
      ensures id !in free && (id in old(free) || id == old(next))
      ensures b == Bullet(x, y, bulletWidth, bulletHeight, speed, colour)
    {
      var r := Take(free, next);
      id, free, next := r.0, r.1, r.2;
      b := Bullet(x, y, bulletWidth, bulletHeight, speed, colour);
    }

    /** recycle: the given bullets become free. */
    method Recycle(ids: set<BulletId>)
      requires forall id :: id in ids ==> id < next
      requires Valid()
      modifies this
      ensures Valid()
      ensures free == old(free) + ids && next == old(next)
    {
      free := free + ids;
    }
  }
}

/**
  The three kinds of moving sprite that share one update rule: the aimed
  bomb (Bullet), the scripted bullet (FreeBullet) and the player's beam
  (Beam). Each moves by speed * (vx, vy) per tick and is killed as soon as
  its rectangle is no longer inside the window on both axes.
 */
module Sprites {
  import opened Geometry

  /** A moving sprite: its rectangle and the displacement speed * (vx, vy)
      it is moved by every tick. */
  datatype Sprite = Sprite(rect: Rect, dx: int, dy: int)

  /** speed of Bullet and FreeBullet */
  const BulletSpeed: int := 6
  /** speed of Beam and its fixed direction (vx, vy) = (0, -1) */
  const BeamSpeed: int := 10
  const BeamVx: int := 0
  const BeamVy: int := -1
  /** smallest and largest random radius of an aimed bomb */
  const MinBombRadius: int := 10
  const MaxBombRadius: int := 50

  /** The move half of an update. */
  function Advanced(s: Sprite): (r: Sprite)
    ensures r.dx == s.dx && r.dy == s.dy
    ensures r.rect.width == s.rect.width && r.rect.height == s.rect.height
  {
    s.(rect := s.rect.Move(s.dx, s.dy))
  }

  /** A beam fired by a player whose rectangle is bird: centred one player
      height above the player's centre, heading straight up. */
  function NewBeam(bird: Rect, width: nat, height: nat): (b: Sprite)
    ensures b.rect.CenterX() == bird.CenterX()
    ensures b.rect.CenterY() == bird.CenterY() - bird.height
    ensures b.dx == 0 && b.dy == -10
    ensures b.rect.width == width && b.rect.height == height
  {
    var r := Centered(bird.CenterX() + bird.width * BeamVx, bird.CenterY() + bird.height * BeamVy, width, height);
    Sprite(r, BeamSpeed * BeamVx, BeamSpeed * BeamVy)
  }

  /** A sprite after k updates that all kept it alive. */
  function Flight(s: Sprite, k: nat): Sprite
  {
    if k == 0 then s else Advanced(Flight(s, k - 1))
  }

  /** A beam keeps its column and rises by exactly 10 pixels on each update:
      after k updates its centre is 10 * k above where it was fired, and it
      still heads straight up. */
  lemma {:induction false} BeamRises(bird: Rect, width: nat, height: nat, k: nat)
    ensures var b := NewBeam(bird, width, height);
            Flight(b, k).rect.CenterX() == bird.CenterX() &&
            Flight(b, k).rect.CenterY() == bird.CenterY() - bird.height - BeamSpeed * k &&
            Flight(b, k).dx == 0 && Flight(b, k).dy == -BeamSpeed
  {
    if k > 0 {
      BeamRises(bird, width, height, k - 1);
    }
  }

  /** A bomb dropped by an enemy whose rectangle is emy: a circle of radius
      rad centred half an enemy height below the enemy's centre. */
  function NewBomb(emy: Rect, rad: nat, dx: int, dy: int): (b: Sprite)
    requires MinBombRadius <= rad <= MaxBombRadius
    ensures b.rect.CenterX() == emy.CenterX()
    ensures b.rect.CenterY() == emy.CenterY() + emy.height / 2
    ensures b.rect.width == b.rect.height == 2 * rad
  {
    Sprite(Centered(emy.CenterX(), emy.CenterY() + emy.height / 2, 2 * rad, 2 * rad), dx, dy)
  }

  /** A scripted bullet: a circle of radius rad centred at (x, y). */
  function NewFreeBullet(x: int, y: int, dx: int, dy: int, rad: nat): (b: Sprite)
    ensures b.rect.CenterX() == x && b.rect.CenterY() == y
    ensures b.rect.left == x - rad && b.rect.top == y - rad
    ensures b.rect.width == b.rect.height == 2 * rad
    ensures b.dx == dx && b.dy == dy
  {
    Sprite(Centered(x, y, 2 * rad, 2 * rad), dx, dy)
  }

  /** What group.update() leaves in a group: every member moved, in the
      group's order, without the ones whose moved rectangle left the window. */
  function Survivors(g: seq<Sprite>): seq<Sprite>
  {
    if g == [] then []
    else
      var m := Advanced(g[|g| - 1]);
      Survivors(g[..|g| - 1]) + (if InField(m.rect) then [m] else [])
  }

  /** A sprite is left after the update exactly when it is the moved form of
      some member and that moved form is inside the window; none is added. */
  lemma {:induction false} SurvivorsMembers(g: seq<Sprite>, s: Sprite)
    ensures s in Survivors(g) <==> exists i :: 0 <= i < |g| && s == Advanced(g[i]) && InField(s.rect)
    ensures |Survivors(g)| <= |g|
  {
    if g != [] {
      var init := g[..|g| - 1];
      SurvivorsMembers(init, s);
      if exists i :: 0 <= i < |g| && s == Advanced(g[i]) && InField(s.rect) {
        var i :| 0 <= i < |g| && s == Advanced(g[i]) && InField(s.rect);
        if i < |g| - 1 {
          assert init[i] == g[i];
        }
      }
      if s in Survivors(init) {
        var i :| 0 <= i < |init| && s == Advanced(init[i]) && InField(s.rect);
        assert g[i] == init[i];
      }
    }
  }

  /** Every sprite of the group is inside the window. */
  predicate AllInField(g: seq<Sprite>)
  {
    forall k :: 0 <= k < |g| ==> InField(g[k].rect)
  }

  /** A joined group is inside the window exactly when both parts are. */
  lemma AllInFieldAppend(a: seq<Sprite>, b: seq<Sprite>)
    ensures AllInField(a + b) <==> AllInField(a) && AllInField(b)
  {
    if AllInField(a) && AllInField(b) {
      forall k | 0 <= k < |a + b|
        ensures InField((a + b)[k].rect)
      {
        if k >= |a| {
          assert (a + b)[k] == b[k - |a|];
        }
      }
    }
    if AllInField(a + b) {
      forall k | 0 <= k < |a|
        ensures InField(a[k].rect)
      {
        assert (a + b)[k] == a[k];
      }
      forall k | 0 <= k < |b|
        ensures InField(b[k].rect)
      {
        assert (a + b)[|a| + k] == b[k];
      }
    }
  }

  /** Nothing outside the window survives an update. */
  lemma {:induction false} SurvivorsInField(g: seq<Sprite>)
    ensures AllInField(Survivors(g))
  {
    if g != [] {
      var m := Advanced(g[|g| - 1]);
      SurvivorsInField(g[..|g| - 1]);
      AllInFieldAppend(Survivors(g[..|g| - 1]), if InField(m.rect) then [m] else []);
    }
  }

  /** group.update() on a group of Bullet, FreeBullet or Beam sprites: each
      sprite moves by (dx, dy) and kills itself when check_bound of its new
      rectangle is not (True, True). */
  method UpdateGroup(g: seq<Sprite>) returns (r: seq<Sprite>)
    ensures r == Survivors(g)
    ensures AllInField(r)
    ensures |r| <= |g|
  {
    r := [];
    for i := 0 to |g|
      invariant r == Survivors(g[..i])
    {
      var s := g[i];
      s := s.(rect := s.rect.Move(s.dx, s.dy));
      assert g[..i + 1][..i] == g[..i];
      if CheckBound(s.rect) == (true, true) {
        r := r + [s];
      }
    }
    assert g[..|g|] == g;
    SurvivorsInField(g);
    SurvivorsMembers(g, Sprite(Field, 0, 0));
  }
}

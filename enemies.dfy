/**
  The enemy: it descends 6 pixels per tick from the top centre of the
  window, stops for good once its centre has passed the stop depth, and from
  then on drops an aimed bomb whenever the tick counter is a multiple of its
  firing interval.
 */
module Enemies {
  import opened Geometry
  import opened Sprites

  datatype EnemyState = Down | Stop

  /** Enemy: rectangle, velocity (vx, vy), stop depth bound, state and the
      firing interval drawn from randint(50, 300). */
  datatype Enemy = Enemy(rect: Rect, vx: int, vy: int, bound: int, state: EnemyState, interval: int)

  const DescentSpeed: int := 6
  /** HEIGHT // 4 - 50, the same for every enemy */
  const StopDepth: int := Height / 4 - 50
  const MinInterval: int := 50
  const MaxInterval: int := 300

  /** The random choices of one bomb drop: randint(10, 50) for the radius,
      and speed * calc_orientation(...) as an integer displacement. */
  datatype Aim = Aim(rad: nat, dx: int, dy: int)

  /** Enemy(): centred at (WIDTH // 2, 0), descending; width and height are
      those of the loaded image. */
  function NewEnemy(width: nat, height: nat, interval: int): (e: Enemy)
    requires MinInterval <= interval <= MaxInterval
    ensures e.rect.CenterX() == Width / 2 && e.rect.CenterY() == 0
    ensures WellFormed(e) && e.state == Down
  {
    Enemy(Centered(Width / 2, 0, width, height), 0, DescentSpeed, StopDepth, Down, interval)
  }

  /** What every enemy satisfies: no sideways motion, the fixed stop depth,
      an interval in range, and a vertical speed that matches the state. */
  ghost predicate WellFormed(e: Enemy)
  {
    e.vx == 0 && e.bound == StopDepth && MinInterval <= e.interval <= MaxInterval &&
    (e.state == Down ==> e.vy == DescentSpeed) &&
    (e.state == Stop ==> e.vy == 0)
  }

  /** Enemy.update: once the centre is below the stop depth, zero vy and stop;
      then move by (vx, vy). */
  function Update(e: Enemy): (r: Enemy)
    ensures r.rect.width == e.rect.width && r.rect.height == e.rect.height
    ensures r.bound == e.bound && r.interval == e.interval && r.vx == e.vx
    ensures WellFormed(e) ==> WellFormed(r)
    ensures e.rect.CenterY() > e.bound ==> r.state == Stop && r.vy == 0 && r.rect == e.rect.Move(e.vx, 0)
    ensures e.rect.CenterY() <= e.bound ==> r.state == e.state && r.rect == e.rect.Move(e.vx, e.vy)
    ensures WellFormed(e) && e.state == Stop ==> r == e
  {
    var e' := if e.rect.CenterY() > e.bound then e.(vy := 0, state := Stop) else e;
    e'.(rect := e'.rect.Move(e'.vx, e'.vy))
  }

  /** n successive updates. */
  function UpdateN(e: Enemy, n: nat): Enemy
  {
    if n == 0 then e else Update(UpdateN(e, n - 1))
  }

  /** A stopped enemy stays stopped, and where it is, forever. */
  lemma {:induction false} StopIsFinal(e: Enemy, n: nat)
    requires WellFormed(e) && e.state == Stop
    ensures UpdateN(e, n) == e
  {
    if n > 0 {
      StopIsFinal(e, n - 1);
    }
  }

  /** The life of a freshly created enemy: its centre goes down 6 pixels per
      update for 21 updates (to 126, the first value past the stop depth 125);
      the 22nd update sees it past the depth and stops it there, for good. */
  lemma {:induction false} FreshEnemyDescent(width: nat, height: nat, interval: int, n: nat)
    requires MinInterval <= interval <= MaxInterval
    ensures var e := UpdateN(NewEnemy(width, height, interval), n);
            WellFormed(e) &&
            e.rect.CenterY() == DescentSpeed * (if n <= 21 then n else 21) &&
            e.rect.CenterX() == Width / 2 &&
            (e.state == Stop <==> n >= 22)
  {
    if n > 0 {
      FreshEnemyDescent(width, height, interval, n - 1);
    }
  }

  /** The firing rule of the main loop: only a stopped enemy fires, on the
      ticks that are multiples of its interval. */
  predicate Fires(e: Enemy, tmr: nat)
    requires e.interval > 0
  {
    e.state == Stop && tmr % e.interval == 0
  }

  /** The bombs the enemies drop in one tick, in group order; the enemy at
      index i uses the random choices aim(i). */
  function Volley(es: seq<Enemy>, tmr: nat, aim: nat -> Aim): seq<Sprite>
    requires forall i :: 0 <= i < |es| ==> es[i].interval > 0
    requires forall i: nat :: MinBombRadius <= aim(i).rad <= MaxBombRadius
  {
    if es == [] then []
    else
      var n := |es| - 1;
      Volley(es[..n], tmr, aim) +
      (if Fires(es[n], tmr) then [NewBomb(es[n].rect, aim(n).rad, aim(n).dx, aim(n).dy)] else [])
  }

  /** A bomb is dropped exactly for each enemy that fires this tick; in
      particular no bomb comes from a descending enemy. */
  lemma {:induction false} VolleyMembers(es: seq<Enemy>, tmr: nat, aim: nat -> Aim, b: Sprite)
    requires forall i :: 0 <= i < |es| ==> es[i].interval > 0
    requires forall i: nat :: MinBombRadius <= aim(i).rad <= MaxBombRadius
    ensures b in Volley(es, tmr, aim) <==>
            exists i :: 0 <= i < |es| && Fires(es[i], tmr) &&
                        b == NewBomb(es[i].rect, aim(i).rad, aim(i).dx, aim(i).dy)
    ensures (forall i :: 0 <= i < |es| ==> es[i].state == Down) ==> Volley(es, tmr, aim) == []
  {
    if es != [] {
      var n := |es| - 1;
      var init := es[..n];
      VolleyMembers(init, tmr, aim, b);
      if exists i :: 0 <= i < |es| && Fires(es[i], tmr) &&
                     b == NewBomb(es[i].rect, aim(i).rad, aim(i).dx, aim(i).dy) {
        var i :| 0 <= i < |es| && Fires(es[i], tmr) &&
                 b == NewBomb(es[i].rect, aim(i).rad, aim(i).dx, aim(i).dy);
        if i < n {
          assert init[i] == es[i];
        }
      }
      if b in Volley(init, tmr, aim) {
        var i :| 0 <= i < |init| && Fires(init[i], tmr) &&
                 b == NewBomb(init[i].rect, aim(i).rad, aim(i).dx, aim(i).dy);
        assert es[i] == init[i];
      }
    }
  }

  /** emys.update(): every enemy updated, none removed. */
  method UpdateAll(es: seq<Enemy>) returns (r: seq<Enemy>)
    ensures |r| == |es|
    ensures forall i :: 0 <= i < |es| ==> r[i] == Update(es[i])
    ensures (forall i :: 0 <= i < |es| ==> WellFormed(es[i])) ==> forall i :: 0 <= i < |r| ==> WellFormed(r[i])
  {
    r := [];
    for i := 0 to |es|
      invariant |r| == i
      invariant forall j :: 0 <= j < i ==> r[j] == Update(es[j])
    {
      r := r + [Update(es[i])];
    }
  }
}

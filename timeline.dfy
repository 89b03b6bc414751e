/**
  The scripted bullet timeline of the second phase. While the enemy's
  health ratio is in (0.3, 0.6] the phase timer second_tmr counts the ticks
  of the phase, and each value of it spawns a fixed set of scripted bullets:
  one-shot walls at 0, 60, 120 and side shots at 240, 300, 360, 420; a pair
  from the top corners every 20 ticks from 120; an 8-way burst from two
  guns every 30 ticks in [180, 480); a 16-way burst every 30 ticks from 480.
 */
module Timeline {
  import opened Geometry
  import opened Sprites

  /** Pixels per tick of a straight bullet: speed 6 times the component 0.5. */
  const Drift: int := 3
  const WallRadius: nat := 25
  const Burst8Radius: nat := 10
  const Burst16Radius: nat := 5
  /** the two guns of the radial bursts, (150, 150) and (WIDTH - 150, 150) */
  const GunLeftX: int := 150
  const GunRightX: int := Width - 150
  const GunY: int := 150
  /** range(0, 250, 50) and range(0, 400, 50) have 5 and 8 steps */
  const WallSteps: nat := 5
  const RowSteps: nat := 8

  /** A white scripted bullet. */
  function Straight(x: int, y: int, dx: int, dy: int): (s: Sprite)
    ensures s.rect.CenterX() == x && s.rect.CenterY() == y
    ensures s.rect.width == s.rect.height == 2 * WallRadius
  {
    Sprite(Rect(x - WallRadius, y - WallRadius, 2 * WallRadius, 2 * WallRadius), dx, dy)
  }

  /** Straight is FreeBullet(x, y, (dx, dy), white, 25): its square is centred at (x, y). */
  lemma StraightIsFreeBullet(x: int, y: int, dx: int, dy: int)
    ensures Straight(x, y, dx, dy) == NewFreeBullet(x, y, dx, dy, WallRadius)
    ensures Straight(x, y, dx, dy).rect.CenterX() == x && Straight(x, y, dx, dy).rect.CenterY() == y
  {
  }

  /** for i in range(0, 50 * n, 50): a falling bullet at column 25 + i and
      one at column WIDTH - 25 - i, both at height 50. */
  function WallPairs(n: nat): (r: seq<Sprite>)
    ensures |r| == 2 * n
  {
    if n == 0 then [] else WallPairs(n - 1) + WallStep(50 * (n - 1))
  }

  /** The two falling bullets at offset i from the left and right edges. */
  function WallStep(i: int): seq<Sprite>
  {
    [Straight(25 + i, 50, 0, Drift), Straight(Width - 25 - i, 50, 0, Drift)]
  }

  /** for i in range(0, 50 * n, 50): a falling bullet at column 125 + i, height 50. */
  function Row(n: nat): (r: seq<Sprite>)
    ensures |r| == n
  {
    if n == 0 then []
    else Row(n - 1) + [Straight(125 + 50 * (n - 1), 50, 0, Drift)]
  }

  /** The one-shot cases of the if/elif chain: at most one applies. */
  function OneShot(t: int): seq<Sprite>
  {
    if t == 0 then WallPairs(WallSteps)
    else if t == 60 then Row(RowSteps)
    else if t == 120 then WallPairs(WallSteps)
    else if t == 240 then [Straight(25, 500, Drift, 0), Straight(Width - 25, 600, -Drift, 0)]
    else if t == 300 then [Straight(25, 600, Drift, 0), Straight(Width - 25, 500, -Drift, 0)]
    else if t == 360 then [Straight(25, 450, Drift, 0), Straight(Width - 25, 450, -Drift, 0)]
    else if t == 420 then [Straight(25, 650, Drift, 0), Straight(Width - 25, 550, -Drift, 0)]
    else []
  }

  predicate CornersDue(t: int) { 120 <= t && (t - 120) % 20 == 0 }
  predicate Burst8Due(t: int) { 180 <= t < 480 && (t - 180) % 30 == 0 }
  predicate Burst16Due(t: int) { 480 <= t && (t - 480) % 30 == 0 }

  /** The recurring pair falling from the two top corners. */
  function Corners(t: int): seq<Sprite>
  {
    if CornersDue(t) then [Straight(25, 25, 0, Drift), Straight(Width - 25, 25, 0, Drift)] else []
  }

  /** One radial burst: for each direction, a bullet from each gun. */
  function Burst(dirs: seq<(int, int)>, rad: nat): (r: seq<Sprite>)
    ensures |r| == 2 * |dirs|
  {
    if dirs == [] then []
    else
      var v := dirs[|dirs| - 1];
      Burst(dirs[..|dirs| - 1], rad) +
      [NewFreeBullet(GunLeftX, GunY, v.0, v.1, rad), NewFreeBullet(GunRightX, GunY, v.0, v.1, rad)]
  }

  /** Everything the timeline spawns at phase time t, in the order of the
      source. dirs8 and dirs16 are the per-tick displacements of the radial
      directions (6 * (cos, sin), the 16 of them rotated). */
  function Pattern(t: int, dirs8: seq<(int, int)>, dirs16: seq<(int, int)>): seq<Sprite>
  {
    OneShot(t) + Corners(t) +
    (if Burst8Due(t) then Burst(dirs8, Burst8Radius) else []) +
    (if Burst16Due(t) then Burst(dirs16, Burst16Radius) else [])
  }

  /** The size of the timeline's output, part by part. */
  lemma PatternSize(t: int, dirs8: seq<(int, int)>, dirs16: seq<(int, int)>)
    ensures |OneShot(t)| == (if t == 0 || t == 120 then 10 else if t == 60 then 8
                             else if t == 240 || t == 300 || t == 360 || t == 420 then 2 else 0)
    ensures |Pattern(t, dirs8, dirs16)| ==
            |OneShot(t)| + (if CornersDue(t) then 2 else 0) +
            (if Burst8Due(t) then 2 * |dirs8| else 0) + (if Burst16Due(t) then 2 * |dirs16| else 0)
  {
    OneShotSize(t);
    PatternLength(t, dirs8, dirs16);
  }

  /** The size of each one-shot case. */
  lemma OneShotSize(t: int)
    ensures |OneShot(t)| == (if t == 0 || t == 120 then 2 * WallSteps else if t == 60 then RowSteps
                             else if t == 240 || t == 300 || t == 360 || t == 420 then 2 else 0)
  {
    if t == 0 || t == 120 {
      WallsSize(t);
    } else if t == 60 {
      RowSize(t);
    }
  }

  /** The timeline's output is its four parts, one after the other. */
  lemma PatternLength(t: int, dirs8: seq<(int, int)>, dirs16: seq<(int, int)>)
    ensures |Pattern(t, dirs8, dirs16)| ==
            |OneShot(t)| + (if CornersDue(t) then 2 else 0) +
            (if Burst8Due(t) then 2 * |dirs8| else 0) + (if Burst16Due(t) then 2 * |dirs16| else 0)
  {
  }

  /** The two wall cases spawn five pairs. */
  lemma WallsSize(t: int)
    requires t == 0 || t == 120
    ensures |OneShot(t)| == 2 * WallSteps
  {
  }

  /** The row case spawns eight bullets. */
  lemma RowSize(t: int)
    requires t == 60
    ensures |OneShot(t)| == RowSteps
  {
  }

  /** How many bullets each phase time spawns with 8 and 16 directions:
      10, 8, 12, 18, 20 and 34 at 0, 60, 120, 180, 240 and 480, and no
      16-way burst before 480. */
  lemma PatternCounts(t: int, dirs8: seq<(int, int)>, dirs16: seq<(int, int)>)
    requires |dirs8| == 8 && |dirs16| == 16
    ensures t == 0 ==> |Pattern(t, dirs8, dirs16)| == 10
    ensures t == 60 ==> |Pattern(t, dirs8, dirs16)| == 8
    ensures t == 120 ==> |Pattern(t, dirs8, dirs16)| == 12
    ensures t == 180 ==> |Pattern(t, dirs8, dirs16)| == 18
    ensures t == 240 ==> |Pattern(t, dirs8, dirs16)| == 20
    ensures t == 480 ==> |Pattern(t, dirs8, dirs16)| == 34
    ensures t < 480 ==> !Burst16Due(t)
  {
    PatternSize(t, dirs8, dirs16);
  }

  lemma PatternAtMost34(t: int, dirs8: seq<(int, int)>, dirs16: seq<(int, int)>)
    requires |dirs8| == 8 && |dirs16| == 16
    ensures |Pattern(t, dirs8, dirs16)| <= 34
  {
    PatternSize(t, dirs8, dirs16);
  }

  /** From 480 on, for the same direction inputs, the timeline repeats with
      period 60, the least common multiple of the corner period 20 and the
      burst period 30. */
  lemma PatternPeriodic(t: int, dirs8: seq<(int, int)>, dirs16: seq<(int, int)>)
    requires 480 <= t
    ensures Pattern(t + 60, dirs8, dirs16) == Pattern(t, dirs8, dirs16)
  {
    assert (t + 60 - 120) % 20 == (t - 120) % 20;
    assert (t + 60 - 480) % 30 == (t - 480) % 30;
    assert OneShot(t) == [] && OneShot(t + 60) == [];
    assert !Burst8Due(t) && !Burst8Due(t + 60);
  }

  /** Every scripted bullet starts inside the window, so none is killed
      before its first move. */
  lemma PatternInField(t: int, dirs8: seq<(int, int)>, dirs16: seq<(int, int)>)
    ensures AllInField(Pattern(t, dirs8, dirs16))
  {
    OneShotInField(t);
    BurstInField(dirs8, Burst8Radius);
    BurstInField(dirs16, Burst16Radius);
    var b8 := if Burst8Due(t) then Burst(dirs8, Burst8Radius) else [];
    var b16 := if Burst16Due(t) then Burst(dirs16, Burst16Radius) else [];
    AllInFieldAppend(OneShot(t), Corners(t));
    AllInFieldAppend(OneShot(t) + Corners(t), b8);
    AllInFieldAppend(OneShot(t) + Corners(t) + b8, b16);
  }

  /** The walls, the row and the side shots all start inside the window. */
  lemma OneShotInField(t: int)
    ensures AllInField(OneShot(t))
  {
    if t == 0 {
      WallPairsInField(WallSteps);
    } else if t == 60 {
      RowInField(RowSteps);
    } else if t == 120 {
      WallPairsInField(WallSteps);
    }
  }

  lemma {:induction false} WallPairsInField(n: nat)
    requires n <= 5
    ensures AllInField(WallPairs(n))
  {
    if n > 0 {
      WallPairsInField(n - 1);
      WallStepInField(50 * (n - 1));
      AllInFieldAppend(WallPairs(n - 1), WallStep(50 * (n - 1)));
    }
  }

  lemma WallStepInField(i: int)
    requires 0 <= i <= 200
    ensures AllInField(WallStep(i))
  {
  }

  lemma {:induction false} RowInField(n: nat)
    requires n <= 8
    ensures AllInField(Row(n))
  {
    if n > 0 {
      RowInField(n - 1);
      AllInFieldAppend(Row(n - 1), [Straight(125 + 50 * (n - 1), 50, 0, Drift)]);
    }
  }

  lemma {:induction false} BurstInField(dirs: seq<(int, int)>, rad: nat)
    requires rad <= 100
    ensures AllInField(Burst(dirs, rad))
  {
    if dirs != [] {
      var v := dirs[|dirs| - 1];
      BurstInField(dirs[..|dirs| - 1], rad);
      AllInFieldAppend(Burst(dirs[..|dirs| - 1], rad),
                       [NewFreeBullet(GunLeftX, GunY, v.0, v.1, rad), NewFreeBullet(GunRightX, GunY, v.0, v.1, rad)]);
    }
  }
}

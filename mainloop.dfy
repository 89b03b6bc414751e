/**
  One pass of the main loop: read the events, spawn the enemy on the first
  tick, run the scripted timeline while the enemy's health ratio is in
  (0.3, 0.6] and let the enemy bomb the player otherwise, apply the beam
  hits to the enemy's health, end the game when the player is hit or the
  enemy's health is gone, and otherwise move everything one step.
 */
module MainLoop {
  import opened Geometry
  import opened Sprites
  import opened Player
  import opened Enemies
  import opened Health
  import opened Specials
  import opened Timeline
  import opened Collisions

  /** The events the loop reacts to: the window's close button, a press of
      the space bar, a press of the right shift key; anything else. */
  datatype Event = QuitEvent | SpaceDown | RShiftDown | OtherEvent

  /** Running, or why main() returned. */
  datatype Outcome = Running | Quit | Lost | Won

  /** What one tick reads from outside: the keys held down, the event queue,
      and the random or floating-point values the tick consumes (the firing
      interval of an enemy created this tick, the radius and displacement of
      each bomb, and the per-tick displacements of the radial bursts). */
  datatype TickInput = TickInput(held: set<Key>, events: seq<Event>, interval: int,
                                 aim: nat -> Aim, dirs8: seq<(int, int)>, dirs16: seq<(int, int)>)
  {
    /** The ranges of randint(50, 300) and randint(10, 50); a bomb moves at
        most BulletSpeed along each axis, speed 6 times a unit vector; the
        bursts have range(8) and range(16) directions, each also at most
        BulletSpeed along each axis. */
    ghost predicate InRange()
    {
      MinInterval <= interval <= MaxInterval &&
      (forall i: nat :: MinBombRadius <= aim(i).rad <= MaxBombRadius) &&
      (forall i: nat :: -BulletSpeed <= aim(i).dx <= BulletSpeed && -BulletSpeed <= aim(i).dy <= BulletSpeed) &&
      |dirs8| == 8 && |dirs16| == 16 &&
      (forall k :: 0 <= k < 8 ==> -BulletSpeed <= dirs8[k].0 <= BulletSpeed && -BulletSpeed <= dirs8[k].1 <= BulletSpeed) &&
      (forall k :: 0 <= k < 16 ==> -BulletSpeed <= dirs16[k].0 <= BulletSpeed && -BulletSpeed <= dirs16[k].1 <= BulletSpeed)
    }
  }

  /** The position of the first close event, or the length of the queue. */
  function FirstQuit(events: seq<Event>): (k: nat)
    ensures k <= |events|
    ensures forall i :: 0 <= i < k ==> events[i] != QuitEvent
    ensures k < |events| ==> events[k] == QuitEvent
  {
    if events == [] || events[0] == QuitEvent then 0
    else 1 + FirstQuit(events[1..])
  }

  /** How many times ev occurs in events. */
  function Count(ev: Event, events: seq<Event>): nat
  {
    if events == [] then 0
    else Count(ev, events[..|events| - 1]) + (if events[|events| - 1] == ev then 1 else 0)
  }

  /** n copies of the beam b, in firing order. */
  function Fired(b: Sprite, n: nat): (r: seq<Sprite>)
    ensures |r| == n
    ensures forall i :: 0 <= i < n ==> r[i] == b
  {
    if n == 0 then [] else Fired(b, n - 1) + [b]
  }

  /** Count counts: it is the size of the set of positions holding ev. */
  lemma {:induction false} CountIsPositions(ev: Event, events: seq<Event>)
    ensures Count(ev, events) == |set i | 0 <= i < |events| && events[i] == ev|
  {
    if events != [] {
      var n := |events| - 1;
      CountIsPositions(ev, events[..n]);
      var before := set i | 0 <= i < n && events[..n][i] == ev;
      var all := set i | 0 <= i < |events| && events[i] == ev;
      assert before == set i | 0 <= i < n && events[i] == ev;
      if events[n] == ev {
        assert all == before + {n};
      } else {
        assert all == before;
      }
    }
  }

  /** The event loop of one tick: every event before the first close event
      is handled in order; a space press adds a beam (all the same, as the
      player does not move while events are read), a right-shift press uses
      the special move while one is left. The result quit says the loop met
      a close event. */
  method HandleEvents(events: seq<Event>, special: Special, beam: Sprite,
                      beams: seq<Sprite>, bombs: seq<Sprite>, freeBullets: seq<Sprite>)
    returns (quit: bool, beams': seq<Sprite>, bombs': seq<Sprite>, freeBullets': seq<Sprite>)
    requires special.Valid()
    modifies special
    ensures special.Valid()
    ensures quit <==> QuitEvent in events
    ensures var handled := events[..FirstQuit(events)];
            var uses := Count(RShiftDown, handled);
            beams' == beams + Fired(beam, Count(SpaceDown, handled)) &&
            special.lives == (if old(special.lives) >= uses then old(special.lives) - uses else 0) &&
            (if old(special.lives) > 0 && uses > 0 then bombs' == [] && freeBullets' == []
             else bombs' == bombs && freeBullets' == freeBullets)
  {
    beams', bombs', freeBullets' := beams, bombs, freeBullets;
    var lives0 := special.lives;
    var i := 0;
    while i < |events| && events[i] != QuitEvent
      invariant 0 <= i <= FirstQuit(events)
      invariant special.Valid()
      invariant beams' == beams + Fired(beam, Count(SpaceDown, events[..i]))
      invariant var uses := Count(RShiftDown, events[..i]);
                special.lives == (if lives0 >= uses then lives0 - uses else 0) &&
                (if lives0 > 0 && uses > 0 then bombs' == [] && freeBullets' == []
                 else bombs' == bombs && freeBullets' == freeBullets)
      decreases |events| - i
    {
      assert events[..i + 1][..i] == events[..i];
      if events[i] == SpaceDown {
        beams' := beams' + [beam];
      }
      if events[i] == RShiftDown && special.lives > 0 {
        bombs', freeBullets' := special.Use(bombs', freeBullets');
      }
      i := i + 1;
    }
    quit := i < |events|;
  }

  /** for i in range(0, 250, 50): the two bullets of a wall step. */
  method SpawnWalls(freeBullets: seq<Sprite>, n: nat) returns (r: seq<Sprite>)
    ensures r == freeBullets + WallPairs(n)
  {
    r := freeBullets;
    for k := 0 to n
      invariant r == freeBullets + WallPairs(k)
    {
      var i := 50 * k;
      r := r + [Straight(25 + i, 50, 0, Drift), Straight(Width - 25 - i, 50, 0, Drift)];
    }
  }

  /** for i in range(0, 400, 50): one bullet of the row. */
  method SpawnRow(freeBullets: seq<Sprite>, n: nat) returns (r: seq<Sprite>)
    ensures r == freeBullets + Row(n)
  {
    r := freeBullets;
    for k := 0 to n
      invariant r == freeBullets + Row(k)
    {
      assert Row(k + 1) == Row(k) + [Straight(125 + 50 * k, 50, 0, Drift)];
      r := r + [Straight(125 + 50 * k, 50, 0, Drift)];
    }
  }

  /** for vector in direction_vectors: a bullet from each gun. */
  method SpawnBurst(freeBullets: seq<Sprite>, dirs: seq<(int, int)>, rad: nat) returns (r: seq<Sprite>)
    ensures r == freeBullets + Burst(dirs, rad)
  {
    r := freeBullets;
    for k := 0 to |dirs|
      invariant r == freeBullets + Burst(dirs[..k], rad)
    {
      assert dirs[..k + 1][..k] == dirs[..k];
      r := r + [NewFreeBullet(GunLeftX, GunY, dirs[k].0, dirs[k].1, rad)];
      r := r + [NewFreeBullet(GunRightX, GunY, dirs[k].0, dirs[k].1, rad)];
    }
    assert dirs[..|dirs|] == dirs;
  }

  /** The if/elif chain of the one-shot timeline cases. */
  method SpawnOneShot(freeBullets: seq<Sprite>, t: int) returns (r: seq<Sprite>)
    ensures r == freeBullets + OneShot(t)
  {
    r := freeBullets;
    if t == 0 {
      r := SpawnWalls(r, WallSteps);
    } else if t == 60 {
      r := SpawnRow(r, RowSteps);
    } else if t == 120 {
      r := SpawnWalls(r, WallSteps);
    } else if t == 240 {
      r := r + [Straight(25, 500, Drift, 0), Straight(Width - 25, 600, -Drift, 0)];
    } else if t == 300 {
      r := r + [Straight(25, 600, Drift, 0), Straight(Width - 25, 500, -Drift, 0)];
    } else if t == 360 {
      r := r + [Straight(25, 450, Drift, 0), Straight(Width - 25, 450, -Drift, 0)];
    } else if t == 420 {
      r := r + [Straight(25, 650, Drift, 0), Straight(Width - 25, 550, -Drift, 0)];
    }
  }

  lemma AppendAssoc(a: seq<Sprite>, b: seq<Sprite>, c: seq<Sprite>)
    ensures a + b + c == a + (b + c)
  {
  }

  /** The recurring corner pair, when it is due. */
  method SpawnCorners(freeBullets: seq<Sprite>, t: int) returns (r: seq<Sprite>)
    ensures r == freeBullets + Corners(t)
  {
    r := freeBullets;
    if 120 <= t && (t - 120) % 20 == 0 {
      r := r + [Straight(25, 25, 0, Drift), Straight(Width - 25, 25, 0, Drift)];
    }
  }

  /** The timeline step of the second phase at phase time t: the bullets it
      adds are Pattern(t), and every one of them starts inside the window. */
  method SpawnPattern(freeBullets: seq<Sprite>, t: int, dirs8: seq<(int, int)>, dirs16: seq<(int, int)>)
    returns (r: seq<Sprite>)
    ensures r == freeBullets + Pattern(t, dirs8, dirs16)
    ensures AllInField(freeBullets) ==> AllInField(r)
  {
    ghost var one, corners := OneShot(t), Corners(t);
    ghost var b8 := if Burst8Due(t) then Burst(dirs8, Burst8Radius) else [];
    ghost var b16 := if Burst16Due(t) then Burst(dirs16, Burst16Radius) else [];
    r := SpawnOneShot(freeBullets, t);
    r := SpawnCorners(r, t);
    AppendAssoc(freeBullets, one, corners);
    if 180 <= t < 480 && (t - 180) % 30 == 0 {
      r := SpawnBurst(r, dirs8, Burst8Radius);
    }
    AppendAssoc(freeBullets, one + corners, b8);
    if 480 <= t && (t - 480) % 30 == 0 {
      r := SpawnBurst(r, dirs16, Burst16Radius);
    }
    AppendAssoc(freeBullets, one + corners + b8, b16);
    PatternInField(t, dirs8, dirs16);
    AllInFieldAppend(freeBullets, Pattern(t, dirs8, dirs16));
  }

  /** The enemy group's firing pass: each enemy that fires drops one bomb. */
  method DropBombs(bombs: seq<Sprite>, es: seq<Enemy>, tmr: nat, aim: nat -> Aim) returns (r: seq<Sprite>)
    requires forall i :: 0 <= i < |es| ==> es[i].interval > 0
    requires forall i: nat :: MinBombRadius <= aim(i).rad <= MaxBombRadius
    ensures r == bombs + Volley(es, tmr, aim)
  {
    r := bombs;
    for i := 0 to |es|
      invariant r == bombs + Volley(es[..i], tmr, aim)
    {
      assert es[..i + 1][..i] == es[..i];
      if es[i].state == Stop && tmr % es[i].interval == 0 {
        r := r + [NewBomb(es[i].rect, aim(i).rad, aim(i).dx, aim(i).dy)];
      }
    }
    assert es[..|es|] == es;
  }

  /** The damage pass: 10 off the health for each enemy hit, raising the
      victory flag whenever the health is then zero or below. A flag that
      starts as "health <= 0", as the freshly built bar's does, ends as
      "health <= 0" too. */
  method TakeHits(hp: int, victory: bool, n: nat) returns (hp': int, victory': bool)
    ensures hp' == hp - HitDamage * n
    ensures victory' <==> victory || (n > 0 && hp' <= 0)
    ensures victory == (hp <= 0) ==> (victory' <==> hp' <= 0)
  {
    hp', victory' := hp, victory;
    for i := 0 to n
      invariant hp' == hp - HitDamage * i
      invariant victory' <==> victory || (i > 0 && hp' <= 0)
    {
      hp' := hp' - HitDamage;
      if hp' <= 0 {
        victory' := true;
      }
    }
  }

  /** The two player-hit checks: spritecollide against the bombs, and only
      when no bomb hit, against the scripted bullets. The player is lost
      exactly when some bomb or bullet collides with it; the hitting sprites
      are taken out of their group, so a player that is not hit leaves both
      groups as they were. */
  method CheckPlayerHit(player: Rect, bombs: seq<Sprite>, freeBullets: seq<Sprite>)
    returns (lost: bool, bombs': seq<Sprite>, freeBullets': seq<Sprite>)
    ensures lost <==> HitBy(player, bombs) || HitBy(player, freeBullets)
    ensures bombs' == Misses(player, bombs)
    ensures !lost ==> bombs' == bombs && freeBullets' == freeBullets
  {
    var hit;
    hit, bombs' := SpriteCollide(player, bombs);
    freeBullets' := freeBullets;
    if hit != [] {
      return true, bombs', freeBullets';
    }
    NoHitsKeepsGroup(player, bombs);
    hit, freeBullets' := SpriteCollide(player, freeBullets);
    NoHitsKeepsGroup(player, freeBullets);
    lost := hit != [];
  }

  /** With at most one enemy a tick takes off 0 or 10 of a positive health
      that is a multiple of 10: the result is a multiple of 10 again, and it
      cannot go below zero. */
  lemma OneHitStep(hp: int, n: nat)
    requires 0 < hp && hp % HitDamage == 0 && n <= 1
    ensures (hp - HitDamage * n) % HitDamage == 0
    ensures hp - HitDamage * n >= 0
  {
    if n == 1 {
      assert hp - HitDamage * n == hp - 10;
    }
  }

  /** In the second phase the health is in (60, 120], which with hits of 10
      from 200 down are the six values 70, 80, ..., 120. */
  lemma PhaseTwoHealth(hp: int)
    ensures InPhaseTwo(hp, MaxHp) <==> 60 < hp <= 120
    ensures hp % HitDamage == 0 ==> (InPhaseTwo(hp, MaxHp) <==> hp in {70, 80, 90, 100, 110, 120})
  {
  }

  /** The state of main(): the player, the special move, the four groups
      (exps is never filled and is not modelled), the enemy's health and the
      two timers. The image sizes are those of the loaded images. */
  class Game {
    const bird: Bird
    const special: Special
    const beamWidth: nat
    const beamHeight: nat
    const enemyWidth: nat
    const enemyHeight: nat
    var beams: seq<Sprite>
    var bombs: seq<Sprite>
    var freeBullets: seq<Sprite>
    var enemies: seq<Enemy>
    var hp: int
    var secondTmr: nat
    var tmr: nat
    var outcome: Outcome

    /** What holds at every point of a tick: the player faces one of the
        eight directions, the special counter is in range, the health is a
        multiple of 10 no higher than the maximum, every enemy is well formed. */
    ghost predicate Sound()
      reads this, bird, special
    {
      bird.Valid() && special.Valid() &&
      hp <= MaxHp && hp % HitDamage == 0 &&
      (forall i :: 0 <= i < |enemies| ==> WellFormed(enemies[i]))
    }

    /** The invariant of the loop: while the game runs the health is above
        zero, there is one enemy once the first tick has created it, and
        every flying sprite is inside the window between ticks. */
    ghost predicate Valid()
      reads this, bird, special
    {
      Sound() &&
      (outcome == Running ==>
         0 < hp && |enemies| == (if tmr == 0 then 0 else 1) &&
         AllInField(beams) && AllInField(bombs) && AllInField(freeBullets))
    }

    /** The set-up of main(): the player centred at (WIDTH / 2, HEIGHT - 100)
        facing right, three special moves, empty groups, full health. */
    constructor (birdWidth: nat, birdHeight: nat, beamWidth: nat, beamHeight: nat,
                 enemyWidth: nat, enemyHeight: nat)
      ensures Valid() && outcome == Running
      ensures bird.rect == Centered(Width / 2, Height - 100, birdWidth, birdHeight) && bird.dire == (1, 0)
      ensures special.lives == SpecialLives
      ensures beams == [] && bombs == [] && freeBullets == [] && enemies == []
      ensures hp == MaxHp && secondTmr == 0 && tmr == 0
      ensures this.beamWidth == beamWidth && this.beamHeight == beamHeight
      ensures this.enemyWidth == enemyWidth && this.enemyHeight == enemyHeight
    {
      bird := new Bird(Width / 2, Height - 100, birdWidth, birdHeight);
      special := new Special();
      this.beamWidth := beamWidth;
      this.beamHeight := beamHeight;
      this.enemyWidth := enemyWidth;
      this.enemyHeight := enemyHeight;
      beams, bombs, freeBullets, enemies := [], [], [], [];
      hp := MaxHp;
      secondTmr, tmr := 0, 0;
      outcome := Running;
    }

    /** The event loop, on the game's groups and special move; the player
        fires from where it stands. Nothing else changes. */
    method ReadEvents(events: seq<Event>) returns (quit: bool)
      requires Sound()
      modifies this, special
      ensures Sound()
      ensures quit <==> QuitEvent in events
      ensures var handled := events[..FirstQuit(events)];
              var uses := Count(RShiftDown, handled);
              beams == old(beams) + Fired(NewBeam(bird.rect, beamWidth, beamHeight), Count(SpaceDown, handled)) &&
              special.lives == (if old(special.lives) >= uses then old(special.lives) - uses else 0) &&
              (if old(special.lives) > 0 && uses > 0 then bombs == [] && freeBullets == []
               else bombs == old(bombs) && freeBullets == old(freeBullets))
      ensures enemies == old(enemies) && hp == old(hp) && outcome == old(outcome)
      ensures secondTmr == old(secondTmr) && tmr == old(tmr)
    {
      quit, beams, bombs, freeBullets :=
        HandleEvents(events, special, NewBeam(bird.rect, beamWidth, beamHeight), beams, bombs, freeBullets);
    }

    /** The enemy appears on the first tick, and only then. */
    method AddEnemy(interval: int)
      requires Sound() && MinInterval <= interval <= MaxInterval
      requires |enemies| == (if tmr == 0 then 0 else 1)
      modifies this
      ensures Sound() && |enemies| == 1
      ensures enemies == if tmr == 0 then old(enemies) + [NewEnemy(enemyWidth, enemyHeight, interval)]
                         else old(enemies)
      ensures hp == old(hp) && tmr == old(tmr) && secondTmr == old(secondTmr) && outcome == old(outcome)
      ensures beams == old(beams) && bombs == old(bombs) && freeBullets == old(freeBullets)
    {
      if tmr == 0 {
        enemies := enemies + [NewEnemy(enemyWidth, enemyHeight, interval)];
      }
    }

    /** The phase gate: in the second phase the timeline spawns its bullets
        and the phase timer advances; otherwise the enemies fire. */
    method PhaseStep(input: TickInput)
      requires Sound() && input.InRange()
      modifies this
      ensures Sound()
      ensures InPhaseTwo(hp, MaxHp) ==>
                freeBullets == old(freeBullets) + Pattern(old(secondTmr), input.dirs8, input.dirs16) &&
                bombs == old(bombs) && secondTmr == old(secondTmr) + 1 &&
                |freeBullets| <= |old(freeBullets)| + 34
      ensures !InPhaseTwo(hp, MaxHp) ==>
                bombs == old(bombs) + Volley(enemies, tmr, input.aim) &&
                freeBullets == old(freeBullets) && secondTmr == old(secondTmr)
      ensures AllInField(old(freeBullets)) ==> AllInField(freeBullets)
      ensures enemies == old(enemies) && hp == old(hp) && tmr == old(tmr)
      ensures beams == old(beams) && outcome == old(outcome)
    {
      if InPhaseTwo(hp, MaxHp) {
        PatternAtMost34(secondTmr, input.dirs8, input.dirs16);
        freeBullets := SpawnPattern(freeBullets, secondTmr, input.dirs8, input.dirs16);
        secondTmr := secondTmr + 1;
      } else {
        bombs := DropBombs(bombs, enemies, tmr, input.aim);
      }
    }

    /** The beam hits on the enemy, then the two player-hit checks, then the
        victory check: a hit player loses even on the tick the health runs
        out. The flag victory is the one the tick's health bar was built with. */
    method Resolve(victory: bool)
      requires Sound() && outcome == Running && 0 < hp && |enemies| <= 1
      requires victory == (hp <= 0)
      modifies this
      ensures Sound()
      ensures outcome != Quit
      ensures hp <= old(hp) <= hp + HitDamage
      ensures outcome == Won ==> hp == 0
      ensures outcome == Running ==> 0 < hp
      ensures beams == Untouched(old(enemies), old(beams))
      ensures hp == old(hp) - HitDamage * |Crashed(old(enemies), old(beams)).0|
      ensures outcome == Lost <==> HitBy(bird.rect, old(bombs)) || HitBy(bird.rect, old(freeBullets))
      ensures bombs == Misses(bird.rect, old(bombs))
      ensures outcome == Won <==> outcome != Lost && hp <= 0
      ensures outcome == Running ==> bombs == old(bombs) && freeBullets == old(freeBullets)
      ensures enemies == old(enemies) && secondTmr == old(secondTmr) && tmr == old(tmr)
    {
      var crashed, rest := GroupCollide(enemies, beams);
      var hp', won := TakeHits(hp, victory, |crashed|);
      OneHitStep(hp, |crashed|);
      var lost, bombs', freeBullets' := CheckPlayerHit(bird.rect, bombs, freeBullets);
      beams, hp, bombs, freeBullets := rest, hp', bombs', freeBullets';
      if lost {
        outcome := Lost;
      } else if won {
        outcome := Won;
      }
    }

    /** The update pass: the player moves, each group updates, the tick
        counter advances. */
    method MoveAll(held: set<Key>)
      requires Sound()
      modifies this, bird
      ensures Sound()
      ensures var moved := old(bird.rect).Move(PlayerSpeed * NetMove(held).0, PlayerSpeed * NetMove(held).1);
              bird.rect == if InField(moved) then moved else old(bird.rect)
      ensures bird.dire == if NetMove(held) == (0, 0) then old(bird.dire) else NetMove(held)
      ensures InField(old(bird.rect)) ==> InField(bird.rect)
      ensures beams == Survivors(old(beams)) && bombs == Survivors(old(bombs)) &&
              freeBullets == Survivors(old(freeBullets))
      ensures AllInField(beams) && AllInField(bombs) && AllInField(freeBullets)
      ensures |enemies| == |old(enemies)| && forall i :: 0 <= i < |enemies| ==> enemies[i] == Update(old(enemies)[i])
      ensures tmr == old(tmr) + 1
      ensures hp == old(hp) && secondTmr == old(secondTmr) && outcome == old(outcome)
    {
      bird.Update(held);
      beams := UpdateGroup(beams);
      enemies := UpdateAll(enemies);
      bombs := UpdateGroup(bombs);
      freeBullets := UpdateGroup(freeBullets);
      tmr := tmr + 1;
    }

    /** One pass of the while loop of main(). */
    method Tick(input: TickInput)
      requires Valid() && outcome == Running
      requires input.InRange()
      modifies this, bird, special
      ensures Valid()
      ensures outcome == Quit <==> QuitEvent in input.events
      ensures outcome == Running ==> tmr == old(tmr) + 1
      ensures outcome != Running ==> tmr == old(tmr)
      ensures secondTmr == old(secondTmr) + (if outcome != Quit && InPhaseTwo(old(hp), MaxHp) then 1 else 0)
      ensures hp <= old(hp) <= hp + HitDamage
      ensures outcome == Quit ==> hp == old(hp)
      ensures outcome == Won ==> hp == 0
      ensures special.lives <= old(special.lives)
      ensures InField(old(bird.rect)) ==> InField(bird.rect)
    {
      var victory := NewHpBar(hp, MaxHp).victory;
      var quit := ReadEvents(input.events);
      if quit {
        outcome := Quit;
        return;
      }
      Step(input, victory);
    }

    /** The rest of a pass once the events are read without a close event:
        the enemy on the first tick, the phase step, the hits, and the moves
        when the game goes on. */
    method Step(input: TickInput, victory: bool)
      requires Sound() && outcome == Running && 0 < hp && |enemies| == (if tmr == 0 then 0 else 1)
      requires input.InRange() && victory == (hp <= 0)
      modifies this, bird
      ensures Valid() && outcome != Quit
      ensures outcome == Running ==> tmr == old(tmr) + 1
      ensures outcome != Running ==> tmr == old(tmr)
      ensures secondTmr == old(secondTmr) + (if InPhaseTwo(old(hp), MaxHp) then 1 else 0)
      ensures hp <= old(hp) <= hp + HitDamage
      ensures outcome == Won ==> hp == 0
      ensures InField(old(bird.rect)) ==> InField(bird.rect)
      ensures var es := old(enemies) + (if old(tmr) == 0 then [NewEnemy(enemyWidth, enemyHeight, input.interval)] else []);
              var p2 := InPhaseTwo(old(hp), MaxHp);
              hp == old(hp) - HitDamage * |Crashed(es, old(beams)).0| &&
              (outcome == Lost <==>
                 HitBy(old(bird.rect), old(bombs) + (if p2 then [] else Volley(es, old(tmr), input.aim))) ||
                 HitBy(old(bird.rect), old(freeBullets) + (if p2 then Pattern(old(secondTmr), input.dirs8, input.dirs16) else []))) &&
              (outcome == Won <==> outcome != Lost && hp <= 0)
    {
      ghost var r0, h0, p2 := bird.rect, hp, InPhaseTwo(hp, MaxHp);
      AddEnemy(input.interval);
      ghost var es := enemies;
      PhaseStep(input);
      ghost var bombsR, freeR, beamsR := bombs, freeBullets, beams;
      assert bombsR == old(bombs) + (if p2 then [] else Volley(es, old(tmr), input.aim));
      assert freeR == old(freeBullets) + (if p2 then Pattern(old(secondTmr), input.dirs8, input.dirs16) else []);
      Resolve(victory);
      assert hp == h0 - HitDamage * |Crashed(es, beamsR).0|;
      assert outcome == Lost <==> HitBy(r0, bombsR) || HitBy(r0, freeR);
      if outcome == Running {
        MoveAll(input.held);
      }
    }

    /** The while loop of main(), fed one input per pass: it stops at the
        first pass that ends the game, or when the inputs run out. The
        enemy's health only goes down, and the special moves only get used up. */
    method Play(inputs: seq<TickInput>) returns (n: nat)
      requires Valid() && outcome == Running
      requires forall j :: 0 <= j < |inputs| ==> inputs[j].InRange()
      modifies this, bird, special
      ensures Valid()
      ensures n <= |inputs|
      ensures outcome == Running ==> n == |inputs| && tmr == old(tmr) + n
      ensures outcome != Running ==> 0 < n && tmr == old(tmr) + n - 1
      ensures outcome == Quit ==> QuitEvent in inputs[n - 1].events
      ensures outcome == Won ==> hp == 0
      ensures hp <= old(hp) && special.lives <= old(special.lives)
    {
      n := 0;
      while n < |inputs| && outcome == Running
        invariant Valid()
        invariant n <= |inputs|
        invariant outcome == Running ==> tmr == old(tmr) + n
        invariant outcome != Running ==> 0 < n && tmr == old(tmr) + n - 1
        invariant outcome == Quit ==> QuitEvent in inputs[n - 1].events
        invariant outcome == Won ==> hp == 0
        invariant hp <= old(hp) && special.lives <= old(special.lives)
        decreases |inputs| - n
      {
        Tick(inputs[n]);
        n := n + 1;
      }
    }
  }
}

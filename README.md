# Musou Kokaton: a verified model of the game rules

This project models the per-tick rules of the vertical shooter *Shin! Kokaton Musou* (`musou_kokaton.py`) in Dafny. The rules are:

- the player ("kokaton") moves with WASD inside a 600×700 window and fires beams with the space bar;
- one enemy descends from the top centre, stops at a fixed depth, and then drops aimed bombs at its firing interval;
- each tick in which a beam hits the enemy takes 10 of its 200 health;
- while the enemy's health ratio is in (0.3, 0.6], a scripted bullet timeline replaces the bombing;
- right shift spends one of three special moves, which clears every bomb and scripted bullet;
- the game ends when the player is hit, when the enemy's health reaches zero, or when the window is closed.

The model is split into modules that follow the source's classes:

- `Geometry` (`geometry.dfy`): pygame integer rectangles, `check_bound` and the overlap rule of the collision checks.
- `Sprites` (`sprites.dfy`): the sprites that share one update rule (bomb, scripted bullet, beam), and `group.update()` on a group of them.
- `Player` (`player.dfy`): the `Bird` class, with its key summing, move, undo and facing.
- `Enemies` (`enemies.dfy`): the enemy's descend/stop state machine and its firing rule.
- `Explosions` (`explosion.dfy`): the explosion countdown.
- `Health` (`health.dfy`): the `HP` victory flag and its colour bands.
- `Specials` (`special.dfy`): the `Special` use counter.
- `Timeline` (`timeline.dfy`): the scripted bullets of the second phase.
- `Collisions` (`collisions.dfy`): `spritecollide` and `groupcollide`.
- `MainLoop` (`mainloop.dfy`): the state of `main()` as the class `Game`. `Game.Tick` is one pass of its `while` loop and `Game.Play` is the loop.

Objects the source updates in place are classes with `modifies` clauses: the player, the special counter, the explosion and the game state. Members of sprite groups are values inside `seq` fields. Each group update is a loop method proved against a function that specifies it.

Some facts about the code that the model keeps:

- The enemy's stop depth is the fixed `HEIGHT // 4 - 50 = 125` (`musou_kokaton.py:249`).
- An enemy fires only in the stopped state (`musou_kokaton.py:468`).
- The one-shot timeline cases are at phase times 0, 60, 120, 240, 300, 360 and 420 (`musou_kokaton.py:413-435`).
- Damage is 10 per enemy hit in a tick, however many beams hit it (`musou_kokaton.py:472-475`).

## Model

| member | source | states |
|---|---|---|
| Geometry.Centered | musou_kokaton.py:74 | assigning `rect.center` gives a rectangle of the image's size centred at the given point |
| Geometry.CheckBound | musou_kokaton.py:15-26 | `check_bound` as (horizontally inside, vertically inside); its meaning is stated by `CheckBoundIsContainment` |
| Geometry.CheckBoundIsContainment | musou_kokaton.py:15-26 | for a non-empty rectangle, `yoko` is true iff every column it covers is a window column, `tate` likewise for rows, and (True, True) iff it lies inside the window |
| Geometry.InField | musou_kokaton.py:98 | the update test `check_bound(rect) == (True, True)` (also at lines 137, 176 and 206); `CheckBoundIsContainment` states that it means lying inside the window |
| Geometry.Rect.Move | musou_kokaton.py:97 | `move_ip`: the size is kept and the centre moves by exactly (dx, dy) |
| Geometry.Overlaps | musou_kokaton.py:472 | the rectangle test of `colliderect`; its meaning is stated by `OverlapsIsCommonPoint` |
| Geometry.OverlapsIsCommonPoint | musou_kokaton.py:472 | the rectangle collision rule holds exactly when the two rectangles share a point |
| Sprites.NewBeam | musou_kokaton.py:184-198 | a new beam is centred one player height above the player's centre, same column, moving (0, -10) per tick |
| Sprites.Advanced | musou_kokaton.py:205 | `move_ip` by the sprite's displacement, keeping its size and displacement |
| Sprites.Flight | musou_kokaton.py:200-207 | a sprite after k updates that kept it alive; `BeamRises` states it for beams |
| Sprites.BeamRises | musou_kokaton.py:190-207 | after k updates a fired beam is still in the player's column, its centre 10·k higher than where it was fired, still heading straight up |
| Sprites.NewBomb | musou_kokaton.py:118-129 | a bomb is a 2·rad square centred half an enemy height below the enemy's centre |
| Sprites.NewFreeBullet | musou_kokaton.py:146-164 | a scripted bullet is a 2·rad square centred at (x, y) with the given displacement |
| Sprites.Survivors | musou_kokaton.py:200-207 | what `group.update()` leaves; its meaning is stated by `SurvivorsMembers` and `SurvivorsInField` |
| Sprites.SurvivorsMembers | musou_kokaton.py:131-138 | after a group update a sprite is present iff it is the moved form of a member and `check_bound` of its moved rectangle is (True, True); the group never grows |
| Sprites.SurvivorsInField | musou_kokaton.py:170-177 | no sprite outside the window survives an update |
| Sprites.AllInFieldAppend | musou_kokaton.py:175-177 | a joined group is inside the window iff both parts are |
| Sprites.UpdateGroup | musou_kokaton.py:200-207 | the loop over a group returns exactly the survivors, all inside the window, in group order |
| Player.Delta | musou_kokaton.py:45-50 | the unit move of each key in `Bird.delta`; `SumDeltasIsNetMove` states what their sum is |
| Player.Bird.Valid | musou_kokaton.py:61-70 | the facing is one of the eight keys of `imgs` (`Facings`), so `imgs[dire]` always exists; `Bird.Update` keeps it |
| Player.SumDeltas | musou_kokaton.py:92-96 | the sum that the key loop accumulates in `sum_mv`; `SumDeltasIsNetMove` states its value |
| Player.NetMove | musou_kokaton.py:92-96 | the net key vector, axis by axis; `SumDeltasIsNetMove` ties it to the key loop |
| Player.Axis | musou_kokaton.py:92-96 | a summed axis is in {-1, 0, 1} and is zero iff both or neither of its keys are held |
| Player.SumDeltasIsNetMove | musou_kokaton.py:45-50 | summing the held keys in dictionary order gives the net move; it is non-zero iff it is one of the eight facings; W+S and A+D cancel |
| Player.Bird.constructor | musou_kokaton.py:71-75 | a new player faces right, centred at the given point |
| Player.Bird.Update | musou_kokaton.py:86-103 | the player ends exactly displaced by 10·sum or back where it was, never clamped per axis; a player inside the window stays inside; the facing changes only on a non-zero sum and is always one of the eight image keys |
| Enemies.NewEnemy | musou_kokaton.py:243-251 | a new enemy is centred at (WIDTH // 2, 0), descending at 6, with stop depth 125 and an interval in [50, 300] |
| Enemies.Update | musou_kokaton.py:253-262 | past the stop depth the enemy stops and zeroes vy before moving; otherwise it moves by (vx, vy); a stopped enemy never changes |
| Enemies.StopIsFinal | musou_kokaton.py:259-262 | once stopped, any number of updates leave the enemy unchanged |
| Enemies.FreshEnemyDescent | musou_kokaton.py:247-262 | after n updates a new enemy's centre is at 6·min(n, 21) in the centre column, and it is stopped iff n >= 22 |
| Enemies.UpdateN | musou_kokaton.py:253-262 | n successive calls of `Enemy.update`; `StopIsFinal` and `FreshEnemyDescent` state its result |
| Enemies.Fires | musou_kokaton.py:468 | the firing test `state == "stop" and tmr % interval == 0`; `VolleyMembers` states what it selects |
| Enemies.Volley | musou_kokaton.py:466-470 | the bombs one firing pass drops, in enemy order; `VolleyMembers` states its members and `DropBombs` computes it |
| Enemies.VolleyMembers | musou_kokaton.py:466-470 | a bomb is dropped exactly for each stopped enemy whose interval divides the tick counter; descending enemies drop none |
| Enemies.UpdateAll | musou_kokaton.py:509 | `emys.update()` updates every enemy in place, removes none, and keeps them well formed |
| Explosions.FrameIndex | musou_kokaton.py:233 | the frame index `life // 10 % 2` is 0 or 1 |
| Explosions.FrameOfBlock | musou_kokaton.py:233 | the frame is 0 on even blocks of ten ticks and 1 on odd ones, toggling every 10 ticks |
| Explosions.Explosion.constructor | musou_kokaton.py:214-225 | a new explosion shows the first image with the full countdown |
| Explosions.Explosion.Update | musou_kokaton.py:227-235 | the countdown drops by one, the frame is chosen from the new countdown, and the effect dies once the countdown is below zero |
| Health.NewHpBar | musou_kokaton.py:286-305 | the victory flag of a new bar is set iff the health is at most 0 |
| Health.DrawnColor | musou_kokaton.py:307-317 | nothing is drawn iff victory is set; otherwise the colour is the band of hp / max |
| Health.BandColor | musou_kokaton.py:312-317 | the colour band, by cross-multiplication; `BandIsRatio` ties it to the exact ratio |
| Health.InPhaseTwo | musou_kokaton.py:411 | the phase gate `0.3 < hp / max_hp <= 0.6`; `BandIsRatio` and `PhaseTwoHealth` state it |
| Health.BandIsRatio | musou_kokaton.py:312-317 | red iff hp/max <= 0.3, yellow iff 0.3 < hp/max <= 0.6, green otherwise, as exact ratios; the phase gate is the yellow band |
| Health.RatioAtMost | musou_kokaton.py:314-316 | hp/max <= k/10 iff 10·hp <= k·max |
| Specials.Special.constructor | musou_kokaton.py:328-330 | three uses at the start |
| Specials.Special.Use | musou_kokaton.py:342-350 | with a use left: exactly one fewer and both groups emptied; with none left: nothing changes; the counter stays in [0, 3] |
| Timeline.Straight | musou_kokaton.py:415 | a white scripted bullet is a 50-pixel square centred at its spawn point |
| Timeline.StraightIsFreeBullet | musou_kokaton.py:146-164 | the white bullet is exactly `FreeBullet(x, y, vector, white, 25)`, centred at (x, y) |
| Timeline.WallPairs | musou_kokaton.py:414-416 | the wall loop emits two bullets per step |
| Timeline.WallStep | musou_kokaton.py:415-416 | the loop body: one falling bullet at each edge, offset i; `WallStepInField` and `SpawnWalls` state it |
| Timeline.Row | musou_kokaton.py:418-419 | the row loop emits one bullet per step |
| Timeline.Burst | musou_kokaton.py:445-447 | a radial burst emits two bullets per direction |
| Timeline.CornersDue | musou_kokaton.py:438 | the corner-pair test; `PatternSize` and `PatternPeriodic` state what it selects |
| Timeline.Burst8Due | musou_kokaton.py:441 | the 8-way burst test; `PatternCounts` and `PatternPeriodic` state what it selects |
| Timeline.Burst16Due | musou_kokaton.py:448 | the 16-way burst test; `PatternCounts` states that it never holds before 480 |
| Timeline.OneShot | musou_kokaton.py:413-435 | the one-shot case of the if/elif chain; `OneShotSize`, `OneShotInField` and `SpawnOneShot` state it |
| Timeline.Corners | musou_kokaton.py:438-440 | the corner pair every 20 ticks from 120; `PatternSize` and `SpawnCorners` state it |
| Timeline.Pattern | musou_kokaton.py:411-463 | everything one phase time spawns, in order; `PatternSize`, `PatternInField` and `SpawnPattern` state it |
| Timeline.OneShotSize | musou_kokaton.py:413-435 | the one-shot cases spawn 10 at 0 and 120, 8 at 60, 2 at 240, 300, 360 and 420, and none at any other time |
| Timeline.PatternLength | musou_kokaton.py:411-463 | the number of bullets spawned is the sum of the one-shot, corner-pair and burst sizes |
| Timeline.PatternSize | musou_kokaton.py:411-464 | the number of bullets spawned at each phase time, part by part: one-shots 10/8/10/2/0, corner pair 2, and two per burst direction |
| Timeline.PatternCounts | musou_kokaton.py:411-464 | with 8 and 16 directions, phase times 0, 60, 120, 180, 240 and 480 spawn 10, 8, 12, 18, 20 and 34 bullets; no 16-way burst before 480 |
| Timeline.PatternAtMost34 | musou_kokaton.py:411-464 | no phase time spawns more than 34 bullets |
| Timeline.PatternPeriodic | musou_kokaton.py:438-463 | from 480 on, for the same direction inputs, the timeline spawns the same bullets every 60 ticks: spawn points, radii and counts repeat |
| Timeline.PatternInField | musou_kokaton.py:411-463 | every scripted bullet starts inside the window |
| Timeline.OneShotInField | musou_kokaton.py:413-435 | the walls, the row and the side shots start inside the window |
| Timeline.WallPairsInField | musou_kokaton.py:414-416 | every wall bullet starts inside the window |
| Timeline.WallStepInField | musou_kokaton.py:415-416 | both bullets of a wall step start inside the window |
| Timeline.RowInField | musou_kokaton.py:418-419 | every row bullet starts inside the window |
| Timeline.BurstInField | musou_kokaton.py:445-447 | every burst bullet starts inside the window |
| Collisions.Hits | musou_kokaton.py:485 | the members `spritecollide` returns; `HitsMissesMembers` states them |
| Collisions.Misses | musou_kokaton.py:485 | the members `spritecollide(..., True)` leaves; `HitsMissesMembers` states them |
| Collisions.HitBy | musou_kokaton.py:485-497 | some member collides with the target; `SpriteCollide` and `CheckPlayerHit` state when it holds |
| Collisions.HitsMissesMembers | musou_kokaton.py:485 | a sprite is among the hits iff it is a colliding member, and among the rest iff it is a member that does not collide |
| Collisions.HitsMissesSplit | musou_kokaton.py:485 | hits and rest together are exactly the group, as a multiset |
| Collisions.NoHitsKeepsGroup | musou_kokaton.py:485-497 | there are no hits iff nothing collides, and then the group is unchanged |
| Collisions.SpriteCollide | musou_kokaton.py:485 | `spritecollide(..., True)` returns the hits and leaves the rest, nothing lost or added |
| Collisions.UntouchedByNoEnemy | musou_kokaton.py:472 | with no enemies every beam is left |
| Collisions.MissesOfUntouched | musou_kokaton.py:472 | removing one more enemy's hits from the beams the others left gives the beams that touch none |
| Collisions.Crashed | musou_kokaton.py:472 | the hit enemies and leftover beams of `groupcollide(emys, beams, False, True)`; `CrashedLeavesUntouched`, `CrashedEnemies` and `SingleEnemyHitOnce` state them |
| Collisions.CrashedLeavesUntouched | musou_kokaton.py:472 | the beams `groupcollide` leaves are exactly those that touch no enemy |
| Collisions.CrashedEnemies | musou_kokaton.py:472-477 | each hit enemy is an enemy that some beam collides with; the hit enemies form a sub-multiset of the group, so each is counted at most once; the leftover beams are original beams |
| Collisions.SingleEnemyHitOnce | musou_kokaton.py:472-477 | a single enemy is hit once, not once per beam, iff any beam collides with it |
| Collisions.GroupCollide | musou_kokaton.py:472 | the loop over enemies computes the hit enemies and exactly the untouched beams |
| MainLoop.TickInput.InRange | musou_kokaton.py:119 | the random and float inputs of a pass lie in their ranges: `randint(10, 50)` radii, `randint(50, 300)` intervals (line 251), displacements of speed 6, and `range(8)` and `range(16)` directions (lines 444 and 451); `Game.Tick` requires it |
| MainLoop.FirstQuit | musou_kokaton.py:398-400 | events are handled up to the first close event, which ends the loop |
| MainLoop.Fired | musou_kokaton.py:401-402 | n presses fire n identical beams |
| MainLoop.CountIsPositions | musou_kokaton.py:398-404 | the press count is the number of positions holding that event |
| MainLoop.HandleEvents | musou_kokaton.py:398-404 | quit iff a close event came; every space press before it adds a beam; every right-shift press with a use left spends one; the groups are cleared iff a use was spent |
| MainLoop.SpawnWalls | musou_kokaton.py:414-416 | the wall loop appends exactly the wall pairs |
| MainLoop.SpawnRow | musou_kokaton.py:418-419 | the row loop appends exactly the row |
| MainLoop.SpawnBurst | musou_kokaton.py:445-447 | the burst loop appends exactly the burst |
| MainLoop.SpawnOneShot | musou_kokaton.py:413-435 | the if/elif chain appends exactly the one-shot case of its time |
| MainLoop.SpawnCorners | musou_kokaton.py:438-440 | the corner pair is appended iff due |
| MainLoop.SpawnPattern | musou_kokaton.py:411-463 | a timeline step appends exactly Pattern(t), all inside the window |
| MainLoop.DropBombs | musou_kokaton.py:466-470 | the firing loop appends exactly the volley of the tick |
| MainLoop.TakeHits | musou_kokaton.py:472-477 | health drops by 10 per hit enemy, and a flag that starts as health <= 0 ends as health <= 0 |
| MainLoop.CheckPlayerHit | musou_kokaton.py:485-497 | the player is lost iff some bomb or scripted bullet collides with it; without a hit both groups are unchanged |
| MainLoop.OneHitStep | musou_kokaton.py:475 | a positive multiple of 10 minus at most one hit stays a multiple of 10 and never goes below 0 |
| MainLoop.PhaseTwoHealth | musou_kokaton.py:411 | the second phase is health in (60, 120], i.e. 70 to 120 in steps of 10 |
| MainLoop.Game.constructor | musou_kokaton.py:381-393 | the set-up: player at (300, 600) facing right, three uses, empty groups, health 200, both timers 0 |
| MainLoop.Game.ReadEvents | musou_kokaton.py:396-404 | the event loop on the game's own groups and special counter; nothing else changes |
| MainLoop.Game.AddEnemy | musou_kokaton.py:408-409 | the enemy is created on tick 0 only, so there is exactly one from then on |
| MainLoop.Game.PhaseStep | musou_kokaton.py:411-470 | in the second phase the timeline spawns Pattern(second_tmr), at most 34 bullets, and second_tmr advances; otherwise the enemies' volley is added |
| MainLoop.Game.Resolve | musou_kokaton.py:472-504 | the beams left are exactly those touching no enemy; health drops by 10 per hit enemy; the game is lost iff a bomb or scripted bullet collides with the player, and the hit bombs are removed; it is won iff it is not lost and health is 0 or below, which leaves health exactly 0 |
| MainLoop.Game.MoveAll | musou_kokaton.py:506-521 | the player is moved by 10·net key vector or put back, and faces a non-zero net vector; each group becomes its survivors; every enemy is updated; the tick counter advances |
| MainLoop.Game.Tick | musou_kokaton.py:395-522 | one pass keeps the invariant; it quits iff a close event came; second_tmr grows by 1 exactly on a second-phase pass that does not quit; health drops by at most 10; a win means health 0; between passes every sprite is inside the window |
| MainLoop.Game.Step | musou_kokaton.py:406-521 | after the events: the pass restores the invariant; health drops by 10 per enemy (the one created this pass included) that a beam hits; the pass is lost iff a bomb or scripted bullet, including those spawned this pass, collides with the player; it is won iff not lost and health is 0 or below; the tick counter advances iff the game goes on; second_tmr advances iff the pass starts in the second phase |
| MainLoop.Game.Play | musou_kokaton.py:395-522 | the loop stops at the first pass that ends the game; health and special uses only go down |

## Left out

- Rendering, image loading, fonts, `blit`, `draw`, `display.update`, `Score` (never used), the HP bar's pixel geometry and `Bird.change_img` are not modelled. They are drawing only. Image sizes are constructor parameters of `Game`.
- `Special.play_video`, the OpenCV capture and the `time.sleep` calls are not modelled. They are video I/O and wall-clock pauses. `clock.tick(50)` is left out for the same reason.
- Event polling and `pg.key.get_pressed` become the `TickInput` of each pass.
- `random.randint` and `random.choice` become inputs within their ranges (`TickInput.InRange`). The bomb colour is drawing only. `InRange` also pins 8 and 16 burst directions and bounds every displacement by the speed 6.
- `calc_orientation` and the `cos`/`sin` burst directions are not modelled. They are floating point. Each bomb's displacement (`Aim`) and the per-tick displacements of the bursts (`dirs8`, `dirs16`) are inputs. The division by zero when the enemy and player centres coincide is therefore not modelled.
- The burst rotation angle at `musou_kokaton.py:453` is not modelled. It is float only, and it parses as `second_tmr - (480 // 30) * angle_step`, so the 16 directions turn from one burst to the next.
- Timeline.PatternPeriodic: states the 60-tick repetition for a fixed direction input only. The source rotates the 16 burst directions with `second_tmr` (`musou_kokaton.py:453-460`), so its bullets repeat in spawn point, radius and count but not in direction.
- The straight scripted bullets move exactly 3 pixels per tick (6 × 0.5). pygame's float-to-int truncation in `move_ip` is not modelled for the radial and aimed displacements, which are taken as the integers pygame would use.
- `FreeBullet.set_wait_time` and `wait_time` are not modelled: nothing reads them.
- `exps` is always empty because its only `add` is commented out, so the game holds no explosions. The `Explosion` class is modelled on its own.
- Sprite group members are values in sequences, not shared objects. Aliasing of one sprite in two groups cannot arise in the game and is not modelled.
- Integers are unbounded. The game's values stay far from Python's limits.
- Collisions use pygame's rectangle rule (non-empty rectangles that overlap), not pixel masks. The source uses the default rectangle test.
- MainLoop.Game.Tick: does not state the new contents of every group, only the invariant and the timers. The content of each stage is stated by `ReadEvents`, `AddEnemy`, `PhaseStep`, `Resolve` and `MoveAll`, composed by `Step`, whose contract states the damage of the pass and when it is lost or won.

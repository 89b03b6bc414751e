/**
  The collision checks of the main loop, as pygame runs them:
  spritecollide(sprite, group, True) collects and removes every member of
  the group that collides with the sprite, and
  groupcollide(enemies, beams, False, True) runs spritecollide for each
  enemy in turn against the beams the earlier enemies left.
 */
module Collisions {
  import opened Geometry
  import opened Sprites
  import opened Enemies

  /** The members of g that collide with target, in group order. */
  function Hits(target: Rect, g: seq<Sprite>): seq<Sprite>
  {
    if g == [] then []
    else
      var s := g[|g| - 1];
      Hits(target, g[..|g| - 1]) + (if Overlaps(target, s.rect) then [s] else [])
  }

  /** The members of g that do not collide with target, in group order. */
  function Misses(target: Rect, g: seq<Sprite>): seq<Sprite>
  {
    if g == [] then []
    else
      var s := g[|g| - 1];
      Misses(target, g[..|g| - 1]) + (if Overlaps(target, s.rect) then [] else [s])
  }

  /** A sprite is among the hits exactly when it is a colliding member, and
      among the misses exactly when it is a member that does not collide. */
  lemma {:induction false} HitsMissesMembers(target: Rect, g: seq<Sprite>, s: Sprite)
    ensures s in Hits(target, g) <==> s in g && Overlaps(target, s.rect)
    ensures s in Misses(target, g) <==> s in g && !Overlaps(target, s.rect)
  {
    if g != [] {
      var n := |g| - 1;
      HitsMissesMembers(target, g[..n], s);
      assert g == g[..n] + [g[n]];
    }
  }

  /** Hits and Misses split the group: nothing is lost or added. */
  lemma {:induction false} HitsMissesSplit(target: Rect, g: seq<Sprite>)
    ensures multiset(Hits(target, g)) + multiset(Misses(target, g)) == multiset(g)
  {
    if g != [] {
      var n := |g| - 1;
      var init, last := g[..n], g[n];
      HitsMissesSplit(target, init);
      assert g == init + [last];
      var hx: seq<Sprite> := if Overlaps(target, last.rect) then [last] else [];
      var mx: seq<Sprite> := if Overlaps(target, last.rect) then [] else [last];
      SplitStep(Hits(target, init), Misses(target, init), init, last, hx, mx);
    }
  }

  /** One more sprite goes to exactly one side of a split. */
  lemma SplitStep(h: seq<Sprite>, m: seq<Sprite>, init: seq<Sprite>, last: Sprite, hx: seq<Sprite>, mx: seq<Sprite>)
    requires multiset(h) + multiset(m) == multiset(init)
    requires (hx == [last] && mx == []) || (hx == [] && mx == [last])
    ensures multiset(h + hx) + multiset(m + mx) == multiset(init + [last])
  {
  }

  /** Nothing collides exactly when there are no hits, and then the misses
      are the whole group, in order. */
  lemma {:induction false} NoHitsKeepsGroup(target: Rect, g: seq<Sprite>)
    ensures Hits(target, g) == [] <==> forall i :: 0 <= i < |g| ==> !Overlaps(target, g[i].rect)
    ensures Hits(target, g) == [] ==> Misses(target, g) == g
  {
    if g != [] {
      var n := |g| - 1;
      NoHitsKeepsGroup(target, g[..n]);
      assert forall i :: 0 <= i < n ==> g[..n][i] == g[i];
      assert g == g[..n] + [g[n]];
    }
  }

  /** Some sprite of g collides with target. */
  predicate HitBy(target: Rect, g: seq<Sprite>)
  {
    exists i :: 0 <= i < |g| && Overlaps(target, g[i].rect)
  }

  /** spritecollide(target, g, True): the colliding members, and the group
      without them. */
  method SpriteCollide(target: Rect, g: seq<Sprite>) returns (hit: seq<Sprite>, rest: seq<Sprite>)
    ensures hit == Hits(target, g) && rest == Misses(target, g)
    ensures multiset(hit) + multiset(rest) == multiset(g)
    ensures hit == [] <==> forall i :: 0 <= i < |g| ==> !Overlaps(target, g[i].rect)
  {
    hit, rest := [], [];
    for i := 0 to |g|
      invariant hit == Hits(target, g[..i]) && rest == Misses(target, g[..i])
    {
      assert g[..i + 1][..i] == g[..i];
      if Overlaps(target, g[i].rect) {
        hit := hit + [g[i]];
      } else {
        rest := rest + [g[i]];
      }
    }
    assert g[..|g|] == g;
    HitsMissesSplit(target, g);
    NoHitsKeepsGroup(target, g);
  }

  /** Some enemy of es collides with the rectangle r. */
  predicate TouchesAny(es: seq<Enemy>, r: Rect)
  {
    exists i :: 0 <= i < |es| && Overlaps(es[i].rect, r)
  }

  /** groupcollide(es, beams, False, True): the enemies that were hit, in
      group order, and the beams that are left. Each enemy takes the beams
      that collide with it out of what the enemies before it left. */
  function Crashed(es: seq<Enemy>, beams: seq<Sprite>): (seq<Enemy>, seq<Sprite>)
  {
    if es == [] then ([], beams)
    else
      var n := |es| - 1;
      var before := Crashed(es[..n], beams);
      var e := es[n];
      (if Hits(e.rect, before.1) != [] then before.0 + [e] else before.0, Misses(e.rect, before.1))
  }

  /** The beams that collide with no enemy of es. */
  function Untouched(es: seq<Enemy>, beams: seq<Sprite>): seq<Sprite>
  {
    if beams == [] then []
    else
      var b := beams[|beams| - 1];
      Untouched(es, beams[..|beams| - 1]) + (if TouchesAny(es, b.rect) then [] else [b])
  }

  lemma {:induction false} UntouchedByNoEnemy(beams: seq<Sprite>)
    ensures Untouched([], beams) == beams
  {
    if beams != [] {
      UntouchedByNoEnemy(beams[..|beams| - 1]);
    }
  }

  /** Taking one more enemy's hits out of the untouched beams gives the
      beams untouched by the longer enemy list. */
  lemma {:induction false} MissesOfUntouched(es: seq<Enemy>, beams: seq<Sprite>)
    requires es != []
    ensures Misses(es[|es| - 1].rect, Untouched(es[..|es| - 1], beams)) == Untouched(es, beams)
  {
    var n := |es| - 1;
    var t := es[n].rect;
    if beams != [] {
      var m := |beams| - 1;
      var b := beams[m];
      MissesOfUntouched(es, beams[..m]);
      var u := Untouched(es[..n], beams[..m]);
      assert beams[..|beams| - 1] == beams[..m];
      if TouchesAny(es[..n], b.rect) {
        assert Untouched(es[..n], beams) == u;
        var i :| 0 <= i < n && Overlaps(es[..n][i].rect, b.rect);
        assert es[i] == es[..n][i];
        assert TouchesAny(es, b.rect);
      } else {
        assert (u + [b])[..|u|] == u;
        if Overlaps(t, b.rect) {
          assert TouchesAny(es, b.rect);
        } else {
          forall i | 0 <= i < |es|
            ensures !Overlaps(es[i].rect, b.rect)
          {
            if i < n {
              assert es[..n][i] == es[i];
            }
          }
        }
      }
    }
  }

  /** The beams groupcollide leaves are exactly those that touch no enemy:
      the order in which the enemies take their beams does not matter for
      what is left. */
  lemma {:induction false} CrashedLeavesUntouched(es: seq<Enemy>, beams: seq<Sprite>)
    ensures Crashed(es, beams).1 == Untouched(es, beams)
  {
    if es == [] {
      UntouchedByNoEnemy(beams);
    } else {
      CrashedLeavesUntouched(es[..|es| - 1], beams);
      MissesOfUntouched(es, beams);
    }
  }

  /** Every hit enemy is one of es that some beam collided with, and each
      enemy counts at most once however many beams hit it. */
  lemma {:induction false} CrashedEnemies(es: seq<Enemy>, beams: seq<Sprite>, e: Enemy)
    ensures |Crashed(es, beams).0| <= |es|
    ensures multiset(Crashed(es, beams).0) <= multiset(es)
    ensures e in Crashed(es, beams).0 ==>
            e in es && exists j :: 0 <= j < |beams| && Overlaps(e.rect, beams[j].rect)
    ensures forall b :: b in Crashed(es, beams).1 ==> b in beams
  {
    if es != [] {
      var n := |es| - 1;
      var before := Crashed(es[..n], beams);
      CrashedEnemies(es[..n], beams, e);
      assert es == es[..n] + [es[n]];
      var hits := Hits(es[n].rect, before.1);
      forall b | b in Crashed(es, beams).1
        ensures b in beams
      {
        HitsMissesMembers(es[n].rect, before.1, b);
      }
      if e in Crashed(es, beams).0 {
        if e in before.0 {
          assert e in es[..n];
        } else {
          assert e == es[n] && hits != [];
          var s := hits[0];
          HitsMissesMembers(es[n].rect, before.1, s);
          var j :| 0 <= j < |beams| && beams[j] == s;
        }
      }
    }
  }

  /** With the single enemy the game has, the damage is one hit when any
      beam collides with it, not one per colliding beam. */
  lemma SingleEnemyHitOnce(e: Enemy, beams: seq<Sprite>)
    ensures Crashed([e], beams).0 == if exists j :: 0 <= j < |beams| && Overlaps(e.rect, beams[j].rect) then [e] else []
  {
    assert [e][..0] == [];
    NoHitsKeepsGroup(e.rect, beams);
  }

  /** groupcollide(es, beams, False, True) as pygame runs it. */
  method GroupCollide(es: seq<Enemy>, beams: seq<Sprite>) returns (crashed: seq<Enemy>, rest: seq<Sprite>)
    ensures (crashed, rest) == Crashed(es, beams)
    ensures rest == Untouched(es, beams)
    ensures |crashed| <= |es|
  {
    crashed, rest := [], beams;
    for i := 0 to |es|
      invariant (crashed, rest) == Crashed(es[..i], beams)
      invariant |crashed| <= i
    {
      assert es[..i + 1][..i] == es[..i];
      var hit, left := SpriteCollide(es[i].rect, rest);
      assert Crashed(es[..i + 1], beams) == (if hit != [] then crashed + [es[i]] else crashed, left);
      if hit != [] {
        crashed := crashed + [es[i]];
      }
      rest := left;
    }
    assert es[..|es|] == es;
    CrashedLeavesUntouched(es, beams);
  }
}

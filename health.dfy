/**
  The enemy's health bar (HP): a victory flag that is set once health is
  zero or below, and a bar colour chosen from three bands of the health
  ratio. The same ratio band gates the scripted bullet timeline.
 */
module Health {

  /** max_hp of the main loop, and the damage a tick does for each enemy that
      some beam hits, however many beams hit it */
  const MaxHp: int := 200
  const HitDamage: int := 10

  /** (0, 255, 0), (255, 255, 0) and (255, 0, 0) */
  datatype Color = Green | Yellow | Red

  datatype Option<T> = None | Some(value: T)

  /** The bar's state: current and maximum health and the victory flag. */
  datatype HpBar = HpBar(hp: int, max: int, victory: bool)

  /** HP(x, y, width, now, max): the flag starts out as now <= 0. The
      position and pixel geometry of the bar are not modelled. */
  function NewHpBar(now: int, max: int): (bar: HpBar)
    requires max > 0
    ensures bar.hp == now && bar.max == max
    ensures bar.victory <==> now <= 0
  {
    HpBar(now, max, now <= 0)
  }

  /** The colour band of hp / max, compared by cross-multiplication:
      10 * hp <= 3 * max is hp / max <= 0.3. */
  function BandColor(hp: int, max: int): Color
    requires max > 0
  {
    if 10 * hp <= 3 * max then Red
    else if 10 * hp <= 6 * max then Yellow
    else Green
  }

  /** hp_draw: the colour the bar is filled with, or nothing once the
      victory flag is set. */
  function DrawnColor(bar: HpBar): (c: Option<Color>)
    requires bar.max > 0
    ensures c.None? <==> bar.victory
    ensures c.Some? ==> c.value == BandColor(bar.hp, bar.max)
  {
    if bar.victory then None else Some(BandColor(bar.hp, bar.max))
  }

  /** The phase gate of the main loop, 0.3 < hp / max <= 0.6. */
  predicate InPhaseTwo(hp: int, max: int)
    requires max > 0
  {
    3 * max < 10 * hp <= 6 * max
  }

  /** The integer comparisons are the comparisons of the exact ratio
      hp / max with 0.3 and 0.6; and the phase gate is the yellow band. */
  lemma BandIsRatio(hp: int, max: int)
    requires max > 0
    ensures BandColor(hp, max) == Red <==> (hp as real) / (max as real) <= 0.3
    ensures BandColor(hp, max) == Yellow <==> 0.3 < (hp as real) / (max as real) <= 0.6
    ensures BandColor(hp, max) == Green <==> 0.6 < (hp as real) / (max as real)
    ensures InPhaseTwo(hp, max) <==> BandColor(hp, max) == Yellow
  {
    RatioAtMost(hp, max, 3);
    RatioAtMost(hp, max, 6);
  }

  /** hp / max <= k / 10 exactly when 10 * hp <= k * max. */
  lemma RatioAtMost(hp: int, max: int, k: int)
    requires max > 0
    ensures (hp as real) / (max as real) <= (k as real) / 10.0 <==> 10 * hp <= k * max
  {
    var m := max as real;
    var r := (hp as real) / m;
    assert r * m == hp as real;
    if r <= (k as real) / 10.0 {
      assert r * m <= (k as real) / 10.0 * m;
    } else {
      assert r * m > (k as real) / 10.0 * m;
    }
  }
}

/**
  The explosion effect: a countdown that flips between two images every 10
  ticks and kills the effect once the countdown has gone below zero. The
  main loop never creates one; it is modelled for its own rule.
 */
module Explosions {

  /** imgs[life // 10 % 2]: Python's // and % floor, and with the positive
      divisors 10 and 2 Dafny's Euclidean / and % give the same values,
      also for the life of -1 the last update sees. */
  function FrameIndex(life: int): (k: int)
    ensures k == 0 || k == 1
  {
    life / 10 % 2
  }

  /** The frame depends only on which block of 10 ticks life is in, block q
      being the q with 10 * q <= life < 10 * q + 10 (Python's life // 10),
      and it is 0 on even blocks and 1 on odd ones. */
  lemma {:induction false} FrameOfBlock(q: int, r: int)
    requires 0 <= r < 10
    ensures FrameIndex(10 * q + r) == (if q % 2 == 0 then 0 else 1)
    ensures FrameIndex(10 * q + r + 10) == 1 - FrameIndex(10 * q + r)
  {
    assert (10 * q + r) / 10 == q;
    assert (10 * q + r + 10) / 10 == q + 1;
  }

  class Explosion {
    var life: int
    var frame: int
    var alive: bool

    /** Explosion(obj, life): first image, full countdown. */
    constructor (life: int)
      ensures this.life == life && frame == 0 && alive
    {
      this.life := life;
      frame := 0;
      alive := true;
    }

    /** Explosion.update: count down, pick the image, kill below zero. */
    method Update()
      modifies this
      ensures life == old(life) - 1
      ensures frame == FrameIndex(life) && (frame == 0 || frame == 1)
      ensures alive == (old(alive) && life >= 0)
    {
      life := life - 1;
      frame := life / 10 % 2;
      if life < 0 {
        alive := false;
      }
    }
  }
}

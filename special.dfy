/**
  The special move: three uses, each of which clears every bomb and every
  scripted bullet from the field.
 */
module Specials {
  import opened Sprites

  /** SPECIAL_LIVES */
  const SpecialLives: int := 3

  class Special {
    var lives: int

    /** The use counter never goes below zero or above its start value. */
    ghost predicate Valid()
      reads this
    {
      0 <= lives <= SpecialLives
    }

    constructor ()
      ensures Valid() && lives == SpecialLives
    {
      lives := SpecialLives;
    }

    /** Special.use without the video: with a use left, spend it and empty
        both projectile groups; with none left, change nothing. The groups
        are passed in and their new contents handed back. */
    method Use(bombs: seq<Sprite>, freeBullets: seq<Sprite>) returns (bombs': seq<Sprite>, freeBullets': seq<Sprite>)
      requires Valid()
      modifies this
      ensures Valid()
      ensures old(lives) > 0 ==> lives == old(lives) - 1 && bombs' == [] && freeBullets' == []
      ensures old(lives) == 0 ==> lives == 0 && bombs' == bombs && freeBullets' == freeBullets
    {
      bombs', freeBullets' := bombs, freeBullets;
      if lives > 0 {
        lives := lives - 1;
        bombs' := [];
        freeBullets' := [];
      }
    }
  }
}

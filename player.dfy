/**
  The player character (Bird): WASD movement at 10 pixels per tick that is
  undone as a whole when it would leave the window, and the facing among
  eight directions that follows the net key vector.
 */
module Player {
  import opened Geometry

  /** The four movement keys, W up, S down, A left, D right. */
  datatype Key = W | S | A | D

  /** The order in which Bird.delta lists the keys. */
  const KeyOrder: seq<Key> := [W, S, A, D]

  const PlayerSpeed: int := 10

  /** Bird.delta: the unit move of one key. */
  function Delta(k: Key): (int, int)
  {
    match k
    case W => (0, -1)
    case S => (0, 1)
    case A => (-1, 0)
    case D => (1, 0)
  }

  /** The 8 facings that have an image in Bird.imgs. */
  const Facings: set<(int, int)> :=
    {(1, 0), (1, -1), (0, -1), (-1, -1), (-1, 0), (-1, 1), (0, 1), (1, 1)}

  /** The sum of the moves of the held keys among ks, as the loop in
      Bird.update accumulates it in sum_mv. */
  function SumDeltas(held: set<Key>, ks: seq<Key>): (int, int)
  {
    if ks == [] then (0, 0)
    else
      var s := SumDeltas(held, ks[..|ks| - 1]);
      var k := ks[|ks| - 1];
      if k in held then (s.0 + Delta(k).0, s.1 + Delta(k).1) else s
  }

  /** One axis of the net move: +1, -1, or 0 when both or neither key is held. */
  function Axis(plus: bool, minus: bool): (v: int)
    ensures -1 <= v <= 1
    ensures v == 0 <==> plus == minus
  {
    (if plus then 1 else 0) - (if minus then 1 else 0)
  }

  /** The net key vector, axis by axis: D against A, S against W. */
  function NetMove(held: set<Key>): (int, int)
  {
    (Axis(D in held, A in held), Axis(S in held, W in held))
  }

  /** The loop over Bird.delta sums the keys to the axis-by-axis net vector:
      opposite keys cancel, every component is -1, 0 or 1, and any non-zero
      result is one of the 8 facings that have an image. */
  lemma SumDeltasIsNetMove(held: set<Key>)
    ensures SumDeltas(held, KeyOrder) == NetMove(held)
    ensures NetMove(held) != (0, 0) <==> NetMove(held) in Facings
    ensures W in held && S in held ==> NetMove(held).1 == 0
    ensures A in held && D in held ==> NetMove(held).0 == 0
  {
    var w := if W in held then 1 else 0;
    var s := if S in held then 1 else 0;
    var a := if A in held then 1 else 0;
    var d := if D in held then 1 else 0;
    assert [W][..0] == [];
    assert SumDeltas(held, [W]) == (0, -w);
    assert [W, S][..1] == [W];
    assert SumDeltas(held, [W, S]) == (0, s - w);
    assert [W, S, A][..2] == [W, S];
    assert SumDeltas(held, [W, S, A]) == (-a, s - w);
    assert KeyOrder[..3] == [W, S, A];
    assert SumDeltas(held, KeyOrder) == (d - a, s - w);
  }

  /** The player: its rectangle and the facing that selects its image. */
  class Bird {
    var rect: Rect
    var dire: (int, int)

    /** Every facing the player takes has an image (no KeyError in imgs[dire]). */
    ghost predicate Valid()
      reads this
    {
      dire in Facings
    }

    /** Bird(num, xy): facing right, centred at (cx, cy); width and height
        are those of the loaded image. */
    constructor (cx: int, cy: int, width: nat, height: nat)
      ensures Valid()
      ensures dire == (1, 0) && rect == Centered(cx, cy, width, height)
    {
      dire := (1, 0);
      rect := Centered(cx, cy, width, height);
    }

    /** Bird.update without the drawing: sum the held keys, move by
        speed * sum, move back by the same amount when check_bound of the new
        rectangle is not (True, True), and face the sum when it is non-zero. */
    method Update(held: set<Key>)
      requires Valid()
      modifies this
      ensures Valid()
      ensures var moved := old(rect).Move(PlayerSpeed * NetMove(held).0, PlayerSpeed * NetMove(held).1);
              rect == if InField(moved) then moved else old(rect)
      ensures InField(old(rect)) ==> InField(rect)
      ensures dire == if NetMove(held) == (0, 0) then old(dire) else NetMove(held)
    {
      var sumX, sumY := 0, 0;
      for i := 0 to |KeyOrder|
        invariant (sumX, sumY) == SumDeltas(held, KeyOrder[..i])
      {
        var k := KeyOrder[i];
        assert KeyOrder[..i + 1][..i] == KeyOrder[..i];
        if k in held {
          sumX := sumX + Delta(k).0;
          sumY := sumY + Delta(k).1;
        }
      }
      assert KeyOrder[..|KeyOrder|] == KeyOrder;
      SumDeltasIsNetMove(held);
      rect := rect.Move(PlayerSpeed * sumX, PlayerSpeed * sumY);
      if CheckBound(rect) != (true, true) {
        rect := rect.Move(-PlayerSpeed * sumX, -PlayerSpeed * sumY);
      }
      if !(sumX == 0 && sumY == 0) {
        dire := (sumX, sumY);
      }
    }
  }
}

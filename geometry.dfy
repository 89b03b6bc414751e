/**
  The play field and the integer rectangles that pygame attaches to every
  sprite, with the bounds test every moving sprite runs each tick and the
  rectangle-overlap rule the collision checks use.
 */
module Geometry {

  /** Size of the game window (WIDTH, HEIGHT). */
  const Width: int := 600
  const Height: int := 700

  /** A pygame rectangle: it covers the points (x, y) with
      left <= x < left + width and top <= y < top + height. */
  datatype Rect = Rect(left: int, top: int, width: nat, height: nat) {

    function Right(): int { left + width }

    function Bottom(): int { top + height }

    function CenterX(): int { left + width / 2 }

    function CenterY(): int { top + height / 2 }

    predicate SpansX(x: int) { left <= x < Right() }

    predicate SpansY(y: int) { top <= y < Bottom() }

    predicate Contains(x: int, y: int) { SpansX(x) && SpansY(y) }

    /** move_ip: shift by (dx, dy), keeping the size. */
    function Move(dx: int, dy: int): (r: Rect)
      ensures r.width == width && r.height == height
      ensures r.CenterX() == CenterX() + dx && r.CenterY() == CenterY() + dy
    {
      Rect(left + dx, top + dy, width, height)
    }
  }

  /** The whole window as a rectangle. */
  const Field: Rect := Rect(0, 0, Width, Height)

  /** A rectangle of the given size whose centre is (cx, cy): what assigning
      rect.center (or rect.centerx and rect.centery) to a fresh get_rect() gives. */
  function Centered(cx: int, cy: int, width: nat, height: nat): (r: Rect)
    ensures r.CenterX() == cx && r.CenterY() == cy
    ensures r.width == width && r.height == height
  {
    Rect(cx - width / 2, cy - height / 2, width, height)
  }

  /** check_bound: (horizontally inside, vertically inside). */
  function CheckBound(r: Rect): (inside: (bool, bool))
  {
    var yoko := !(r.left < 0 || Width < r.Right());
    var tate := !(r.top < 0 || Height < r.Bottom());
    (yoko, tate)
  }

  /** The test every sprite update applies: keep it iff check_bound is (True, True). */
  predicate InField(r: Rect)
  {
    CheckBound(r) == (true, true)
  }

  /** For a rectangle that covers at least one point, each component of
      check_bound says exactly that every column (row) it covers is a column
      (row) of the window. */
  lemma CheckBoundIsContainment(r: Rect)
    requires r.width > 0 && r.height > 0
    ensures CheckBound(r).0 <==> forall x :: r.SpansX(x) ==> Field.SpansX(x)
    ensures CheckBound(r).1 <==> forall y :: r.SpansY(y) ==> Field.SpansY(y)
    ensures InField(r) <==> forall x, y :: r.Contains(x, y) ==> Field.Contains(x, y)
  {
    if !CheckBound(r).0 {
      // one of the two end columns lies outside the window
      if r.left < 0 {
        assert r.SpansX(r.left) && !Field.SpansX(r.left);
      } else {
        assert r.SpansX(r.Right() - 1) && !Field.SpansX(r.Right() - 1);
      }
    }
    if !CheckBound(r).1 {
      if r.top < 0 {
        assert r.SpansY(r.top) && !Field.SpansY(r.top);
      } else {
        assert r.SpansY(r.Bottom() - 1) && !Field.SpansY(r.Bottom() - 1);
      }
    }
    if !InField(r) {
      var x := if CheckBound(r).0 then r.left else if r.left < 0 then r.left else r.Right() - 1;
      var y := if CheckBound(r).1 then r.top else if r.top < 0 then r.top else r.Bottom() - 1;
      assert r.Contains(x, y) && !Field.Contains(x, y);
    }
  }

  /** pygame 2's colliderect for rectangles of non-negative size: empty
      rectangles touch nothing, others collide when they overlap strictly. */
  predicate Overlaps(a: Rect, b: Rect)
  {
    a.width > 0 && a.height > 0 && b.width > 0 && b.height > 0 &&
    a.left < b.Right() && b.left < a.Right() &&
    a.top < b.Bottom() && b.top < a.Bottom()
  }

  /** Two rectangles collide exactly when some point lies in both. */
  lemma OverlapsIsCommonPoint(a: Rect, b: Rect)
    ensures Overlaps(a, b) <==> exists x, y :: a.Contains(x, y) && b.Contains(x, y)
  {
    if Overlaps(a, b) {
      var x := if a.left < b.left then b.left else a.left;
      var y := if a.top < b.top then b.top else a.top;
      assert a.Contains(x, y) && b.Contains(x, y);
    }
  }
}

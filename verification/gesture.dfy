/** The geometry of a tape gesture: which way the finger moved, and which
    band of the canvas the stripe then covers. Screen coordinates: x grows
    to the right, y grows downwards. */
module Gesture {

  datatype Direction = Right | Left | Up | Down

  /** Half the stroke width of the tape line: a stripe covers the 40 rows
      (or columns) from `loc - 20` up to `loc + 19`. */
  const HalfBand := 20

  function Abs(n: int): nat { if n < 0 then -n else n }

  predicate IsHorizontal(d: Direction) { d == Right || d == Left }

  /** How far a move of (dx, dy) goes in direction `d`. */
  function Reach(d: Direction, dx: int, dy: int): int
  {
    match d
    case Right => dx
    case Left => -dx
    case Down => dy
    case Up => -dy
  }

  /** The direction of a move of (dx, dy): the one the move goes furthest
      in; a tie between the axes goes to the vertical one, and a move of
      zero counts as up. */
  function Classify(dx: int, dy: int): (d: Direction)
    ensures forall e: Direction :: Reach(e, dx, dy) <= Reach(d, dx, dy)
    ensures IsHorizontal(d) ==> Abs(dx) > Abs(dy)
    ensures d == Down ==> dy != 0
  {
    if Abs(dx) > Abs(dy) then
      if dx > 0 then Right else Left
    else
      if dy > 0 then Down else Up
  }

  /** The three conditions above leave no choice: they describe Classify. */
  lemma ClassifyUnique(dx: int, dy: int, d: Direction)
    requires forall e: Direction :: Reach(e, dx, dy) <= Reach(d, dx, dy)
    requires IsHorizontal(d) ==> Abs(dx) > Abs(dy)
    requires d == Down ==> dy != 0
    ensures d == Classify(dx, dy)
  {
    assert Reach(Right, dx, dy) <= Reach(d, dx, dy) && Reach(Left, dx, dy) <= Reach(d, dx, dy);
    assert Reach(Up, dx, dy) <= Reach(d, dx, dy) && Reach(Down, dx, dy) <= Reach(d, dx, dy);
  }

  /** Equal movement along both axes is classified as vertical. */
  lemma ClassifyTieIsVertical(dx: int, dy: int)
    requires Abs(dx) == Abs(dy)
    ensures Classify(dx, dy) == (if dy > 0 then Down else Up)
  {
  }

  function Opposite(d: Direction): Direction
  {
    match d
    case Right => Left
    case Left => Right
    case Up => Down
    case Down => Up
  }

  /** Reversing a move reverses its direction, except for the move of zero. */
  lemma ClassifyReversed(dx: int, dy: int)
    requires dx != 0 || dy != 0
    ensures Classify(-dx, -dy) == Opposite(Classify(dx, dy))
  {
  }

  /** Worked cases: a tie with dx = 5, dy = -5 is up, the move of zero is up,
      a drag 40 pixels to the right is right. */
  lemma ClassifyExamples()
    ensures Classify(5, -5) == Up
    ensures Classify(0, 0) == Up
    ensures Classify(40, 0) == Right
    ensures Classify(-3, 2) == Left
  {
  }

  /** The band a stripe through (xLoc, yLoc) in direction `d` covers: for a
      horizontal stripe all columns and the rows `yLoc - 20 .. yLoc + 19`; for
      a vertical one all rows and the columns `xLoc - 20 .. xLoc + 19`. */
  predicate InBand(d: Direction, xLoc: int, yLoc: int, i: int, j: int)
  {
    if IsHorizontal(d) then yLoc - HalfBand <= j < yLoc + HalfBand
    else xLoc - HalfBand <= i < xLoc + HalfBand
  }

  /** Whether that band lies inside a `width` x `height` canvas; the band is
      not clamped, so any other band reaches a pixel that does not exist. */
  predicate BandFits(d: Direction, xLoc: int, yLoc: int, width: int, height: int)
  {
    if IsHorizontal(d) then 0 <= yLoc - HalfBand && yLoc + HalfBand <= height
    else 0 <= xLoc - HalfBand && xLoc + HalfBand <= width
  }

  /** The band as a rectangle of columns [i0, i1) and rows [j0, j1): the
      ranges the caching loops walk. When the band fits, the rectangle lies
      inside the canvas and holds exactly the positions InBand names. */
  function BandRect(d: Direction, xLoc: int, yLoc: int, width: int, height: int): (r: (int, int, int, int))
    ensures BandFits(d, xLoc, yLoc, width, height) && 0 <= width && 0 <= height ==>
      0 <= r.0 <= r.1 <= width && 0 <= r.2 <= r.3 <= height &&
      forall i, j :: 0 <= i < width && 0 <= j < height ==>
        (InBand(d, xLoc, yLoc, i, j) <==> r.0 <= i < r.1 && r.2 <= j < r.3)
  {
    if IsHorizontal(d) then (0, width, yLoc - HalfBand, yLoc + HalfBand)
    else (xLoc - HalfBand, xLoc + HalfBand, 0, height)
  }
}

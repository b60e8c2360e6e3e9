/** Whole-canvas consequences of the per-position lemmas, stated as clients
    of the drawing view: what a sequence of calls does to the bitmap and the
    mask, proved from the methods' contracts alone. */
module Scenarios {
  import opened Colors
  import opened Cells
  import opened Gesture
  import opened Canvas

  /** Placing tape on a canvas with nothing cached and removing it again
      gives back every pixel and a clear mask. */
  method TapeRoundTrip(v: DrawingView, dir: Direction, xLoc: int, yLoc: int)
    requires v.Valid() && v.MaskClear()
    requires BandFits(dir, xLoc, yLoc, v.Width(), v.Height())
    modifies v.bitmap, v.stripes
    ensures forall i, j :: v.OnCanvas(i, j) ==> v.bitmap[i, j] == old(v.bitmap[i, j])
    ensures v.MaskClear()
  {
    var ok := v.PlaceTapeAt(dir, xLoc, yLoc);
    v.RemoveAllTape();
    forall i, j | v.OnCanvas(i, j) ensures v.bitmap[i, j] == old(v.bitmap[i, j]) {
      PlaceThenRestore(old(v.At(i, j)), InBand(dir, xLoc, yLoc, i, j));
      assert v.bitmap[i, j] == v.At(i, j).pixel;
    }
  }

  /** The same round trip driven by touch events: a tape gesture from
      (startX, startY) to (endX, endY), then any touch with the remove tool. */
  method GestureRoundTrip(v: DrawingView, startX: int, startY: int, endX: int, endY: int, action: Action)
    requires v.Valid() && v.MaskClear()
    requires BandFits(Classify(endX - startX, endY - startY), startX, startY, v.Width(), v.Height())
    modifies v`x1, v`y1, v`x2, v`y2, v`dx, v`dy, v.bitmap, v.stripes
    ensures forall i, j :: v.OnCanvas(i, j) ==> v.bitmap[i, j] == old(v.bitmap[i, j])
    ensures v.MaskClear()
  {
    var down := v.OnTouchEvent(PlaceTape, ActionDown, startX, startY);
    assert forall i, j :: v.OnCanvas(i, j) ==> v.At(i, j) == old(v.At(i, j));
    var up := v.OnTouchEvent(PlaceTape, ActionUp, endX, endY);
    assert up == Consumed;
    ghost var dir := Classify(endX - startX, endY - startY);
    var removed := v.OnTouchEvent(RemoveTape, action, endX, endY);
    forall i, j | v.OnCanvas(i, j) ensures v.bitmap[i, j] == old(v.bitmap[i, j]) {
      PlaceThenRestore(old(v.At(i, j)), InBand(dir, startX, startY, i, j));
      assert v.bitmap[i, j] == v.At(i, j).pixel;
    }
  }

  /** A second removal right after a first changes nothing. */
  method RemoveTwice(v: DrawingView)
    requires v.Valid()
    modifies v.bitmap, v.stripes
    ensures forall i, j :: v.OnCanvas(i, j) ==> v.At(i, j) == Restore(old(v.At(i, j)))
  {
    v.RemoveAllTape();
    v.RemoveAllTape();
    forall i, j | v.OnCanvas(i, j) ensures v.At(i, j) == Restore(old(v.At(i, j))) {
      RestoreIdempotent(old(v.At(i, j)));
    }
  }

  /** Painting a stripe: on a 100 x 100 canvas, paint with `first`, drag
      from (50, 50) to (90, 50), paint with `second`, remove the tape. Rows
      30 to 69 show the first fill colour again across the whole width; every
      other row keeps the second. */
  method PaintStripe(first: Argb, second: Argb) returns (v: DrawingView)
    requires FillColor(first) != BlueTape
    ensures v.Valid() && v.Width() == 100 && v.Height() == 100
    ensures forall i, j :: v.OnCanvas(i, j) ==>
      v.bitmap[i, j] == if 30 <= j < 70 then FillColor(first) else FillColor(second)
    ensures v.MaskClear()
  {
    v := new DrawingView(100, 100);
    v.SetColor(first);
    var painted := v.OnTouchEvent(Paint, ActionDown, 10, 10);
    assert forall i, j :: v.OnCanvas(i, j) ==> v.At(i, j) == Cell(FillColor(first), BlueTape);
    var down := v.OnTouchEvent(PlaceTape, ActionDown, 50, 50);
    var up := v.OnTouchEvent(PlaceTape, ActionUp, 90, 50);
    assert Classify(40, 0) == Right;
    assert forall i, j :: v.OnCanvas(i, j) ==>
      v.At(i, j) == if 30 <= j < 70 then Cell(BlueTape, FillColor(first)) else Cell(FillColor(first), BlueTape);
    v.SetColor(second);
    var repainted := v.OnTouchEvent(Paint, ActionOther, 10, 10);
    var removed := v.OnTouchEvent(RemoveTape, ActionDown, 10, 10);
    forall i, j | v.OnCanvas(i, j)
      ensures v.bitmap[i, j] == if 30 <= j < 70 then FillColor(first) else FillColor(second)
    {
      assert v.bitmap[i, j] == v.At(i, j).pixel;
    }
  }
}

/** The drawing view: an ARGB bitmap, a mask of the same size caching the
    colours that tape covers, and the touch handling that paints, places
    tape and removes it. Both buffers are indexed [x, y], x below the width
    and y below the height. */
module Canvas {
  import opened Colors
  import opened Cells
  import opened Gesture

  /** The tool selected in the activity; exactly one of its three flags is set. */
  datatype Mode = Paint | PlaceTape | RemoveTape

  /** What a touch event reports: the finger went down, came up, or anything
      else (a move, a cancel, ...). */
  datatype Action = ActionDown | ActionUp | ActionOther

  /** How a touch event ends: the handler returns true, it returns false, or
      reading the bitmap fails because the tape band reaches past its edge. */
  datatype Outcome = Consumed | Declined | BandOutsideBitmap

  class DrawingView {
    var paintColor: Argb
    var bitmap: array2<int>
    var stripes: array2<int>
    /** Start and end of the last tape gesture, and the move between them. */
    var x1: int, y1: int, x2: int, y2: int, dx: int, dy: int

    ghost predicate Valid()
      reads this`bitmap, this`stripes
    {
      bitmap != stripes &&
      0 < bitmap.Length0 && 0 < bitmap.Length1 &&
      stripes.Length0 == bitmap.Length0 && stripes.Length1 == bitmap.Length1
    }

    function Width(): int reads this`bitmap { bitmap.Length0 }
    function Height(): int reads this`bitmap { bitmap.Length1 }

    ghost predicate OnCanvas(i: int, j: int)
      reads this`bitmap
    {
      0 <= i < Width() && 0 <= j < Height()
    }

    /** Pixel and mask entry at (i, j). */
    ghost function At(i: int, j: int): Cell
      requires Valid() && OnCanvas(i, j)
      reads this`bitmap, this`stripes, bitmap, stripes
    {
      Cell(bitmap[i, j], stripes[i, j])
    }

    /** No mask entry holds a cached colour. */
    ghost predicate MaskClear()
      requires Valid()
      reads this`bitmap, this`stripes, stripes
    {
      forall i, j :: 0 <= i < stripes.Length0 && 0 <= j < stripes.Length1 ==> stripes[i, j] == BlueTape
    }

    ghost function Touches(): (int, int, int, int, int, int)
      reads this
    {
      (x1, y1, x2, y2, dx, dy)
    }

    /** The view as laid out: its drawing set up, then its first size given. */
    constructor (w: int, h: int)
      requires 0 < w && 0 < h
      ensures Valid() && fresh(bitmap) && fresh(stripes)
      ensures Width() == w && Height() == h
      ensures forall i, j :: 0 <= i < w && 0 <= j < h ==> At(i, j) == Blank
      ensures paintColor == InitialPaint && Touches() == (0, 0, 0, 0, 0, 0)
    {
      paintColor := InitialPaint;
      bitmap, stripes := new int[0, 0], new int[0, 0];
      x1, y1, x2, y2, dx, dy := 0, 0, 0, 0, 0, 0;
      new;
      OnSizeChanged(w, h);
    }

    /** A new size: a fresh transparent bitmap and a fresh mask with every
        entry set to the sentinel. */
    method OnSizeChanged(w: int, h: int)
      requires 0 < w && 0 < h
      modifies this
      ensures Valid() && fresh(bitmap) && fresh(stripes)
      ensures Width() == w && Height() == h
      ensures forall i, j :: 0 <= i < w && 0 <= j < h ==> At(i, j) == Blank
      ensures MaskClear()
      ensures paintColor == old(paintColor) && Touches() == old(Touches())
    {
      var pixels := new int[w, h]((i, j) => 0);
      var mask := new int[w, h];
      var i := 0;
      while i < w
        modifies mask
        invariant 0 <= i <= w
        invariant forall a, b :: 0 <= a < i && 0 <= b < h ==> mask[a, b] == BlueTape
      {
        var j := 0;
        while j < h
          modifies mask
          invariant 0 <= j <= h
          invariant forall a, b :: 0 <= a < i && 0 <= b < h ==> mask[a, b] == BlueTape
          invariant forall b :: 0 <= b < j ==> mask[i, b] == BlueTape
        {
          mask[i, j] := BlueTape;
          j := j + 1;
        }
        i := i + 1;
      }
      bitmap, stripes := pixels, mask;
    }

    /** A new paint colour; it is used by the next fill. */
    method SetColor(colour: Argb)
      modifies this`paintColor
      ensures paintColor == colour
    {
      paintColor := colour;
    }

    /** The paint tool: the whole bitmap takes the paint colour made opaque;
        the mask is not touched. */
    method SetCanvasColor()
      requires Valid()
      modifies bitmap
      ensures forall i, j :: OnCanvas(i, j) ==> At(i, j) == PaintOver(old(At(i, j)), FillColor(paintColor))
    {
      var r, g, b := Red(paintColor), Green(paintColor), Blue(paintColor);
      var colour := PackArgb(0xFF, r, g, b);
      FillColorChannels(paintColor);
      // drawing the colour over the whole canvas
      forall i, j | 0 <= i < bitmap.Length0 && 0 <= j < bitmap.Length1 {
        bitmap[i, j] := colour;
      }
    }

    /** The caching loop over columns [i0, i1) and rows [j0, j1): every
        position there whose pixel is not tape caches that pixel. */
    method CacheRect(i0: int, i1: int, j0: int, j1: int)
      requires Valid()
      requires 0 <= i0 <= i1 <= Width() && 0 <= j0 <= j1 <= Height()
      modifies stripes
      ensures forall a, b :: OnCanvas(a, b) ==>
        stripes[a, b] == if i0 <= a < i1 && j0 <= b < j1
                         then CacheIfUncovered(old(stripes[a, b]), bitmap[a, b])
                         else old(stripes[a, b])
    {
      var i := i0;
      while i < i1
        invariant i0 <= i <= i1
        invariant forall a, b :: OnCanvas(a, b) ==>
          stripes[a, b] == if i0 <= a < i && j0 <= b < j1
                           then CacheIfUncovered(old(stripes[a, b]), bitmap[a, b])
                           else old(stripes[a, b])
      {
        var j := j0;
        while j < j1
          invariant j0 <= j <= j1
          invariant forall a, b :: OnCanvas(a, b) ==>
            stripes[a, b] == if (i0 <= a < i && j0 <= b < j1) || (a == i && j0 <= b < j)
                             then CacheIfUncovered(old(stripes[a, b]), bitmap[a, b])
                             else old(stripes[a, b])
        {
          if bitmap[i, j] != BlueTape {
            stripes[i, j] := bitmap[i, j];
          }
          j := j + 1;
        }
        i := i + 1;
      }
    }

    /** Tape along `dir` through (xLoc, yLoc): cache the band, then cover it.
        The line of tape is taken to cover exactly the band the caching loop
        walks. A band that does not fit the bitmap fails before anything is
        written. */
    method PlaceTapeAt(dir: Direction, xLoc: int, yLoc: int) returns (ok: bool)
      requires Valid()
      modifies bitmap, stripes
      ensures ok == BandFits(dir, xLoc, yLoc, Width(), Height())
      ensures forall i, j :: OnCanvas(i, j) ==>
        At(i, j) == if ok then PlaceOn(old(At(i, j)), InBand(dir, xLoc, yLoc, i, j)) else old(At(i, j))
    {
      if !BandFits(dir, xLoc, yLoc, Width(), Height()) {
        return false;
      }
      var (i0, i1, j0, j1) := BandRect(dir, xLoc, yLoc, Width(), Height());
      CacheRect(i0, i1, j0, j1);
      // the line of tape
      forall i, j | i0 <= i < i1 && j0 <= j < j1 {
        bitmap[i, j] := BlueTape;
      }
      ok := true;
    }

    /** The remove tool: every cached colour is written back into the bitmap
        and every mask entry is reset to the sentinel. */
    method RemoveAllTape()
      requires Valid()
      modifies bitmap, stripes
      ensures forall i, j :: OnCanvas(i, j) ==> At(i, j) == Restore(old(At(i, j)))
      ensures MaskClear()
    {
      var i := 0;
      while i < stripes.Length0
        invariant 0 <= i <= Width()
        invariant forall a, b :: OnCanvas(a, b) ==>
          At(a, b) == if a < i then Restore(old(At(a, b))) else old(At(a, b))
      {
        var j := 0;
        while j < stripes.Length1
          invariant 0 <= j <= Height()
          invariant forall a, b :: OnCanvas(a, b) ==>
            At(a, b) == if a < i || (a == i && b < j) then Restore(old(At(a, b))) else old(At(a, b))
        {
          if stripes[i, j] != BlueTape {
            bitmap[i, j] := stripes[i, j];
          }
          stripes[i, j] := BlueTape;
          j := j + 1;
        }
        i := i + 1;
      }
      forall a, b | OnCanvas(a, b) ensures stripes[a, b] == BlueTape {
        assert stripes[a, b] == At(a, b).cached;
      }
    }

    /** One touch event at (touchX, touchY) under the selected tool. */
    method OnTouchEvent(mode: Mode, action: Action, touchX: int, touchY: int) returns (outcome: Outcome)
      requires Valid()
      modifies this`x1, this`y1, this`x2, this`y2, this`dx, this`dy, bitmap, stripes
      // paint: any action floods the canvas
      ensures mode == Paint ==>
        outcome == Consumed && Touches() == old(Touches()) &&
        forall i, j :: OnCanvas(i, j) ==> At(i, j) == PaintOver(old(At(i, j)), FillColor(paintColor))
      // place tape, finger down: remember where the gesture starts
      ensures mode == PlaceTape && action == ActionDown ==>
        outcome == Consumed && Touches() == (touchX, touchY, old(x2), old(y2), old(dx), old(dy)) &&
        unchanged(bitmap, stripes)
      // place tape, finger up: classify the move and tape from its start
      ensures mode == PlaceTape && action == ActionUp ==>
        Touches() == (old(x1), old(y1), touchX, touchY, touchX - old(x1), touchY - old(y1)) &&
        var dir := Classify(dx, dy);
        outcome == (if BandFits(dir, x1, y1, Width(), Height()) then Consumed else BandOutsideBitmap) &&
        forall i, j :: OnCanvas(i, j) ==>
          At(i, j) == if outcome == Consumed then PlaceOn(old(At(i, j)), InBand(dir, x1, y1, i, j)) else old(At(i, j))
      // place tape, any other action: declined, nothing changes
      ensures mode == PlaceTape && action == ActionOther ==>
        outcome == Declined && Touches() == old(Touches()) && unchanged(bitmap, stripes)
      // remove tape: any action restores every cached colour
      ensures mode == RemoveTape ==>
        outcome == Consumed && Touches() == old(Touches()) && MaskClear() &&
        forall i, j :: OnCanvas(i, j) ==> At(i, j) == Restore(old(At(i, j)))
    {
      if mode == Paint {
        SetCanvasColor();
      } else if mode == PlaceTape {
        match action
        case ActionDown =>
          x1, y1 := touchX, touchY;
        case ActionUp =>
          x2, y2 := touchX, touchY;
          dx, dy := x2 - x1, y2 - y1;
          var dir := Classify(dx, dy);
          var ok := PlaceTapeAt(dir, x1, y1);
          if !ok {
            return BandOutsideBitmap;
          }
        case ActionOther =>
          return Declined;
      } else if mode == RemoveTape {
        RemoveAllTape();
      }
      outcome := Consumed;
    }
  }
}

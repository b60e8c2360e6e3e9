/** One canvas position: the bitmap pixel and the mask cell beside it.
    Every operation of the drawing view changes each position on its own,
    looking at no other position, so what the view does to the whole canvas
    is one of the functions below applied at every (x, y). The lemmas here
    are therefore the canvas-wide properties, read cell by cell. */
module Cells {
  import opened Colors

  /** `pixel` is the bitmap colour; `cached` is the mask entry, `BlueTape`
      when nothing is cached, else the colour the pixel had before tape
      covered it. */
  datatype Cell = Cell(pixel: int, cached: int)

  /** The state after resizing: a transparent pixel with nothing cached. */
  const Blank := Cell(0, BlueTape)

  predicate Clean(c: Cell) { c.cached == BlueTape }

  /** The caching guard: a colour that is not tape replaces the cache entry;
      tape leaves the entry as it was. */
  function CacheIfUncovered(cached: int, observed: int): int
  {
    if observed != BlueTape then observed else cached
  }

  /** Placing tape: a position inside the band first caches what it shows,
      then is painted in tape colour; a position outside is left alone. */
  function PlaceOn(c: Cell, inBand: bool): Cell
  {
    if inBand then Cell(BlueTape, CacheIfUncovered(c.cached, c.pixel)) else c
  }

  /** Removing tape: a cached colour is written back, then the cache is reset. */
  function Restore(c: Cell): Cell
  {
    Cell(if c.cached != BlueTape then c.cached else c.pixel, BlueTape)
  }

  /** Painting: the pixel takes the fill colour, the mask is not touched. */
  function PaintOver(c: Cell, colour: int): Cell
  {
    Cell(colour, c.cached)
  }

  /** Several tape placements in turn; `bands[k]` says whether the k-th band
      covers this position. */
  function PlaceAll(c: Cell, bands: seq<bool>): Cell
    decreases |bands|
  {
    if bands == [] then c else PlaceOn(PlaceAll(c, bands[..|bands| - 1]), bands[|bands| - 1])
  }

  /** Removal leaves nothing cached, so a second removal changes nothing. */
  lemma RestoreIdempotent(c: Cell)
    ensures Clean(Restore(c))
    ensures Restore(Restore(c)) == Restore(c)
  {
  }

  /** Tape over tape keeps the oldest cached original: once a position shows
      tape, placing tape again leaves its cache entry as it was. */
  lemma RetapeKeepsOldest(c: Cell, inBand: bool)
    ensures PlaceOn(PlaceOn(c, true), inBand).cached == PlaceOn(c, true).cached
    ensures c.pixel == BlueTape ==> PlaceOn(c, inBand).cached == c.cached
  {
  }

  /** A position that none of a run of stripes covers keeps its pixel and
      its mask entry, whatever lies under it. */
  lemma {:induction false} PlaceOutsideBand(c: Cell, bands: seq<bool>)
    requires forall k :: 0 <= k < |bands| ==> !bands[k]
    ensures PlaceAll(c, bands) == c
    decreases |bands|
  {
    if bands != [] {
      PlaceOutsideBand(c, bands[..|bands| - 1]);
    }
  }

  /** Round trip: from a position with nothing cached, placing tape and then
      removing it gives back the pixel and leaves nothing cached. */
  lemma PlaceThenRestore(c: Cell, inBand: bool)
    requires Clean(c)
    ensures Restore(PlaceOn(c, inBand)) == Cell(c.pixel, BlueTape)
  {
  }

  /** From a position with nothing cached, any number of overlapping tape
      placements either leave it alone or cover it with tape while caching
      its original colour. */
  lemma {:induction false} PlaceAllCovers(c: Cell, bands: seq<bool>)
    requires Clean(c)
    ensures PlaceAll(c, bands) == c || PlaceAll(c, bands) == Cell(BlueTape, c.pixel)
    decreases |bands|
  {
    if bands != [] {
      PlaceAllCovers(c, bands[..|bands| - 1]);
    }
  }

  /** The round trip for any number of overlapping stripes: one removal brings
      back the colour the position had before the first of them. */
  lemma {:induction false} PlaceAllThenRestore(c: Cell, bands: seq<bool>)
    requires Clean(c)
    ensures Restore(PlaceAll(c, bands)) == Cell(c.pixel, BlueTape)
  {
    PlaceAllCovers(c, bands);
  }

  /** The stripe effect the tool exists for: tape a clean canvas, paint over
      everything, remove the tape. Positions under the tape show their old
      colour again, the others keep the new paint. */
  lemma PaintBetweenPlaceAndRestore(c: Cell, inBand: bool, colour: int)
    requires Clean(c)
    ensures Restore(PaintOver(PlaceOn(c, inBand), colour)).pixel
            == if inBand && c.pixel != BlueTape then c.pixel else colour
  {
  }

  /** Painting does not touch the mask, whatever the position holds. */
  lemma PaintLeavesMask(c: Cell, colour: int)
    ensures PaintOver(c, colour).cached == c.cached
  {
  }

  /** So a cached colour outlives a paint fill: removal afterwards writes the
      cached colour over the paint. */
  lemma PaintKeepsCache(c: Cell, colour: int)
    requires !Clean(c)
    ensures Restore(PaintOver(c, colour)).pixel == c.cached
  {
  }

  /** The guard looks at the bitmap, not at the mask: tape placed again after
      a paint fill caches the paint colour, and the original cached under the
      earlier tape is lost. */
  lemma RetapeAfterPaint(c: Cell, colour: int)
    requires colour != BlueTape
    ensures PlaceOn(PaintOver(PlaceOn(c, true), colour), true).cached == colour
  {
  }

  /** "A position shows tape exactly when its mask caches a colour." */
  ghost predicate CoveredIffCached(c: Cell) { c.pixel == BlueTape <==> c.cached != BlueTape }

  /** A freshly resized position satisfies the invariant, and placing and
      removing tape keep it. */
  lemma PlaceAndRestoreKeepCovered(c: Cell, inBand: bool)
    ensures CoveredIffCached(Blank)
    ensures CoveredIffCached(c) ==> CoveredIffCached(PlaceOn(c, inBand))
    ensures CoveredIffCached(c) ==> CoveredIffCached(Restore(c))
  {
  }

  /** A paint fill breaks the invariant both ways: over tape with a colour
      cached, any fill colour other than tape leaves a cached colour under a
      non-tape pixel; over a clean position, a fill in the tape colour shows
      tape with nothing cached. */
  lemma PaintBreaksCovered(c: Cell, colour: int)
    ensures !Clean(c) && colour != BlueTape ==> !CoveredIffCached(PaintOver(c, colour))
    ensures Clean(c) && colour == BlueTape ==> !CoveredIffCached(PaintOver(c, colour))
  {
  }

  /** One call of a tool at this position: a tape placement whose band does
      or does not cover it, a paint fill, or a removal. */
  datatype Step = Taped(covers: bool) | Filled(colour: int) | Removed

  function Apply(c: Cell, s: Step): Cell
  {
    match s
    case Taped(covers) => PlaceOn(c, covers)
    case Filled(colour) => PaintOver(c, colour)
    case Removed => Restore(c)
  }

  /** A run of tool calls, applied first to last. */
  function Run(c: Cell, steps: seq<Step>): Cell
    decreases |steps|
  {
    if steps == [] then c else Apply(Run(c, steps[..|steps| - 1]), steps[|steps| - 1])
  }

  /** A position that no stripe ever covers keeps a sentinel mask entry
      through any interleaving of placements, paint fills and removals. */
  lemma {:induction false} RunUncoveredStaysClean(c: Cell, steps: seq<Step>)
    requires Clean(c)
    requires forall k :: 0 <= k < |steps| ==> steps[k] != Taped(true)
    ensures Clean(Run(c, steps))
    decreases |steps|
  {
    if steps != [] {
      RunUncoveredStaysClean(c, steps[..|steps| - 1]);
    }
  }

  /** Without a paint fill, "shows tape exactly when cached" holds from a
      resize through any run of placements and removals. */
  lemma {:induction false} RunWithoutFillKeepsCovered(c: Cell, steps: seq<Step>)
    requires CoveredIffCached(c)
    requires forall k :: 0 <= k < |steps| ==> !steps[k].Filled?
    ensures CoveredIffCached(Run(c, steps))
    decreases |steps|
  {
    if steps != [] {
      var prev := Run(c, steps[..|steps| - 1]);
      RunWithoutFillKeepsCovered(c, steps[..|steps| - 1]);
      PlaceAndRestoreKeepCovered(prev, steps[|steps| - 1].Taped? && steps[|steps| - 1].covers);
    }
  }
}

# Stripes canvas model

A Dafny model of the canvas at the centre of the Stripes prototype, an
Android app for painting stripes with masking tape. The view owns a
`width x height` ARGB bitmap and a mask (`stripeArray`) of the same size.
Each mask entry holds either the tape colour `0xFF00AAFF`, which means
"nothing cached here", or the colour the pixel had before tape covered it.
Touches are handled by whichever tool the activity has selected:

- **paint** floods the whole bitmap with the paint colour, alpha forced to 0xFF;
- **place tape** records where a drag starts, classifies the drag as
  right, left, up or down when the finger lifts, caches the colours of a
  40-pixel band through the start point, and paints that band in tape colour;
- **remove tape** writes every cached colour back into the bitmap and
  resets the whole mask.

Painting over tape and then removing it leaves a stripe of the old colour
on the new one. That effect is the point of the app.

Layout:

- `colors.dfy` (module `Colors`): colour words, channel extraction, the
  packing done by `drawARGB`, and the fill colour.
- `cells.dfy` (module `Cells`): one position (pixel, mask entry) and what
  each tool does to it. Every operation of the view acts on each position
  independently, so the lemmas here are the canvas-wide properties, stated
  cell by cell.
- `gesture.dfy` (module `Gesture`): direction classification and band geometry.
- `drawing_view.dfy` (module `Canvas`): the view as a class. It holds two
  `array2<int>` buffers indexed `[x, y]`, the paint colour, and the gesture
  fields `x1, y1, x2, y2, dx, dy`. Each method is proved against the `Cells`
  functions, position by position.
- `scenarios.dfy` (module `Scenarios`): whole-canvas sequences of calls,
  proved from the methods' contracts.

A colour is the 32-bit ARGB word read as an unsigned number. The code only
compares colours for equality and takes them apart with shifts and masks, so
this reading agrees with Java's signed `int`. The tool mode is a parameter
`Mode = Paint | PlaceTape | RemoveTape` of `OnTouchEvent`. It stands for the
activity's three one-hot flags (src/mss/stripesprototype/MainActivity.java:23-25,
66-78), and they are checked in the same order as the code: paint, then place,
then remove.

Three behaviours of the code are easy to get wrong, and the model keeps them
as written:

- A drag with `|dx| == |dy|` is classified as vertical, not horizontal:
  `dx = 5, dy = -5` gives up, and the zero drag gives up.
- The band is not clamped to the bitmap. A band that reaches past an edge
  makes `getPixel` throw, and the model reports `BandOutsideBitmap`.
- "A pixel shows tape exactly when the mask caches a colour for it" holds
  from every resize through any run of tape placements and removals
  (`Cells.PlaceAndRestoreKeepCovered`, `Cells.RunWithoutFillKeepsCovered`),
  and the first paint fill can break it (`Cells.PaintBreaksCovered`). Paint
  leaves cached colours under non-tape pixels, and a fill in the tape colour
  covers clean pixels with nothing cached; a later placement over such a
  pixel then caches nothing for it.

## Model

| member | source | states |
|---|---|---|
| Colors.PackArgb | src/mss/stripesprototype/DrawingView.java:135 | the word `drawARGB(a, r, g, b)` paints with has exactly the channels a, r, g, b (unpacking inverts packing) |
| Colors.PackChannels | src/mss/stripesprototype/DrawingView.java:130-134 | packing the four channels taken from a colour by shift-and-mask gives that colour back (packing inverts unpacking) |
| Colors.FillColorChannels | src/mss/stripesprototype/DrawingView.java:129-135 | the fill colour `0xFF000000 \| (paint & 0x00FFFFFF)` is the `drawARGB(255, r, g, b)` of the paint colour's channels: alpha 0xFF, red, green and blue unchanged |
| Colors.FillColorFixedPoints | src/mss/stripesprototype/DrawingView.java:129-135 | filling keeps a colour exactly when it is opaque; the fill colour is idempotent |
| Cells.RestoreIdempotent | src/mss/stripesprototype/DrawingView.java:109-117 | after removal nothing is cached, and a second removal changes nothing |
| Cells.RetapeKeepsOldest | src/mss/stripesprototype/DrawingView.java:139-158 | tape placed over tape keeps the cache entry of the first placement; a pixel already showing tape never changes its cache entry |
| Cells.PlaceOutsideBand | src/mss/stripesprototype/DrawingView.java:151-194 | a position that no stripe of a whole run of placements covers keeps its pixel and its mask entry, cached colour or not |
| Cells.PlaceThenRestore | src/mss/stripesprototype/DrawingView.java:109-160 | from a position with nothing cached, placing tape and removing it gives back the pixel and a sentinel mask entry |
| Cells.PlaceAllCovers | src/mss/stripesprototype/DrawingView.java:139-158 | from a clean position, any sequence of tape placements leaves it untouched or shows tape with its original colour cached |
| Cells.PlaceAllThenRestore | src/mss/stripesprototype/DrawingView.java:109-197 | any number of overlapping stripes on a clean position, then one removal, restore the position's original colour |
| Cells.PaintBetweenPlaceAndRestore | src/mss/stripesprototype/DrawingView.java:76-117 | tape, paint, remove: a taped position shows its pre-tape colour again, all others show the new paint |
| Cells.PaintLeavesMask | src/mss/stripesprototype/DrawingView.java:129-137 | a paint fill leaves every mask entry as it was |
| Cells.PaintKeepsCache | src/mss/stripesprototype/DrawingView.java:109-137 | at a position with a colour cached, removal after a paint fill writes the cached colour over the paint |
| Cells.RetapeAfterPaint | src/mss/stripesprototype/DrawingView.java:152-158 | the guard tests the bitmap: tape placed again after a paint caches the paint colour, not the earlier original |
| Cells.PlaceAndRestoreKeepCovered | src/mss/stripesprototype/DrawingView.java:52-158 | "shows tape exactly when a colour is cached" holds for a freshly resized position, and placing and removing tape each keep it |
| Cells.PaintBreaksCovered | src/mss/stripesprototype/DrawingView.java:129-137 | a paint fill breaks that invariant both ways: a non-tape fill over cached tape, and a tape-coloured fill over a clean position |
| Cells.RunUncoveredStaysClean | src/mss/stripesprototype/DrawingView.java:71-197 | a position no stripe covers keeps a sentinel mask entry through any interleaving of placements, fills and removals |
| Cells.RunWithoutFillKeepsCovered | src/mss/stripesprototype/DrawingView.java:52-197 | with no paint fill, the invariant holds through any run of placements and removals |
| Gesture.Classify | src/mss/stripesprototype/DrawingView.java:94-101 | the direction goes furthest along the drag among the four; horizontal only when \|dx\| > \|dy\|; down only when dy != 0 |
| Gesture.ClassifyUnique | src/mss/stripesprototype/DrawingView.java:94-101 | those three conditions determine the direction: any direction meeting them is Classify's |
| Gesture.ClassifyTieIsVertical | src/mss/stripesprototype/DrawingView.java:95-100 | when \|dx\| == \|dy\| the direction is down if dy > 0, else up |
| Gesture.ClassifyReversed | src/mss/stripesprototype/DrawingView.java:95-101 | reversing a non-zero drag gives the opposite direction |
| Gesture.ClassifyExamples | src/mss/stripesprototype/DrawingView.java:91-101 | (5, -5) is up, (0, 0) is up, (40, 0) is right, (-3, 2) is left |
| Gesture.BandRect | src/mss/stripesprototype/DrawingView.java:152-194 | when the band fits, the rectangle the caching loops walk lies inside the canvas and is exactly the band: all columns x rows yLoc-20..yLoc+19, or columns xLoc-20..xLoc+19 x all rows |
| Canvas.DrawingView.constructor | src/mss/stripesprototype/DrawingView.java:17-62 | paint colour 0xFF660000, gesture fields zero, a `w x h` transparent bitmap and an all-sentinel mask |
| Canvas.DrawingView.OnSizeChanged | src/mss/stripesprototype/DrawingView.java:52-63 | fresh bitmap and mask of dimensions `w x h`, every pixel 0, every mask entry 0xFF00AAFF; paint colour and gesture fields kept |
| Canvas.DrawingView.SetColor | src/mss/stripesprototype/DrawingView.java:123-127 | the paint colour becomes the given colour |
| Canvas.DrawingView.SetCanvasColor | src/mss/stripesprototype/DrawingView.java:129-137 | every pixel becomes the fill colour of the paint colour; the mask is unchanged |
| Canvas.DrawingView.CacheRect | src/mss/stripesprototype/DrawingView.java:153-158 | inside the rectangle a mask entry takes the pixel's colour unless the pixel shows tape; outside it nothing changes |
| Canvas.DrawingView.PlaceTapeAt | src/mss/stripesprototype/DrawingView.java:151-197 | succeeds exactly when the band fits; then each band position caches (guarded) and shows tape, and every other position is unchanged; on failure nothing changes |
| Canvas.DrawingView.RemoveAllTape | src/mss/stripesprototype/DrawingView.java:109-118 | each pixel with a cached colour takes it; other pixels are unchanged; every mask entry becomes the sentinel |
| Canvas.DrawingView.OnTouchEvent | src/mss/stripesprototype/DrawingView.java:71-121 | paint fills on any action; place-tape down records x1, y1 only; up records x2, y2, dx, dy and tapes the classified band from (x1, y1); other actions return false and change nothing; remove restores on any action |
| Scenarios.TapeRoundTrip | src/mss/stripesprototype/DrawingView.java:109-160 | with nothing cached, placing tape and removing it leaves every pixel as before and the mask all-sentinel |
| Scenarios.GestureRoundTrip | src/mss/stripesprototype/DrawingView.java:83-117 | the same round trip driven by touch events: down, up, then any remove touch |
| Scenarios.RemoveTwice | src/mss/stripesprototype/DrawingView.java:109-117 | two removals in a row do what one does |
| Scenarios.PaintStripe | src/mss/stripesprototype/DrawingView.java:71-197 | 100 x 100 canvas: paint, drag (50, 50) to (90, 50), paint again, remove: rows 30-69 show the first fill colour, the rest the second |

## Left out

- Android view plumbing is not modelled: `onDraw`, `invalidate`, the
  construction of the `Paint`, `Canvas` and `Bitmap` objects, and the
  `drawPaint` stroke settings, which nothing draws with. These are rendering
  and framework calls.
- Canvas.DrawingView.PlaceTapeAt: `drawLine` with a 40-pixel stroke is
  assumed to set exactly the band the caching loop walks to the tape colour.
  This is a modelling assumption: the exact rasterisation (caps, sub-pixel
  coverage) belongs to the graphics library.
- Canvas.DrawingView.PlaceTapeAt: when the band leaves the bitmap, the code
  throws from `getPixel`, which each loop iteration calls before it writes the
  mask. What it has cached by then depends on the edge. A band past the top
  or the left edge throws on its first read, before anything is cached. A
  right/left band past the bottom edge first caches rows `yLoc-20 .. height-1`
  of column 0. An up/down band past the right edge first caches every row of
  columns `xLoc-20 .. width-1`. The exception is not caught, and the model
  reports `BandOutsideBitmap` without writing anything, so these partial
  writes are not modelled.
- Canvas.DrawingView.PlaceTapeAt: the right/left branches and the up/down
  branches of `placeTape` differ only in the end points given to `drawLine`.
  Under the band assumption they coincide, so they are modelled as one
  horizontal and one vertical case.
- Canvas.DrawingView.SetCanvasColor: `drawARGB` is modelled as setting every
  pixel to the packed word (`Colors.PackArgb`). The float locals of
  `setCanvasColor` hold channel values 0-255 exactly and are modelled as ints.
- Canvas.DrawingView.SetColor: takes the parsed colour. Parsing a colour name
  with `Color.parseColor`, and its failure on an unknown name, is a library
  call and is not modelled.
- Canvas.DrawingView.constructor: the view is modelled from its first
  layout on. The Java constructor (src/mss/stripesprototype/DrawingView.java:27-30)
  leaves the bitmap and `stripeArray` null until `onSizeChanged` runs; the
  model runs that first resize inside construction, so the state before
  layout, and a touch arriving in it, are not modelled.
- Canvas.DrawingView.OnSizeChanged: requires positive dimensions, because
  `Bitmap.createBitmap` refuses any other.
- Canvas.DrawingView.OnTouchEvent: touch coordinates are ints; the float to
  int casts of the event coordinates are not modelled. Directions are an
  enumeration, not the interned strings the code compares with `==`.
- The mode is one value of `Mode`. The case where none of the activity's
  three flags is set cannot arise under one-hot selection and is not modelled.
- MainActivity.java (menus, lifecycle, colour buttons) is not modelled, apart
  from the mode flags represented by `Mode`.

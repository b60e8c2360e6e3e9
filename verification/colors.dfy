/** ARGB colour words as the drawing view stores them: one 32-bit word per
    pixel, alpha in bits 24-31, red in 16-23, green in 8-15, blue in 0-7.
    A word is held here as the unsigned number with the same 32 bits; the
    view only compares colours for equality and takes them apart bit by
    bit, so the unsigned reading agrees with Java's signed `int`. */
module Colors {

  /** A 32-bit colour word read as an unsigned number. */
  type Argb = c: int | 0 <= c < 0x1_0000_0000

  /** The colour of tape; in the mask it is the sentinel "nothing cached here". */
  const BlueTape: Argb := 0xFF00AAFF

  /** The paint colour a freshly constructed view starts with. */
  const InitialPaint: Argb := 0xFF660000

  /** The factor `1 << shift` for a shift of 24, 16, 8 or 0 bits. */
  function Scale(shift: nat): nat
    requires shift in {0, 8, 16, 24}
  {
    if shift == 24 then 0x100_0000 else if shift == 16 then 0x1_0000
    else if shift == 8 then 0x100 else 1
  }

  /** `(c >> shift) & 0xFF`: the 8-bit channel of `c` whose lowest bit is bit
      `shift`, written as a quotient taken modulo 2^8. */
  function Channel(c: Argb, shift: nat): (v: int)
    requires shift in {0, 8, 16, 24}
    ensures 0 <= v < 0x100
  {
    c / Scale(shift) % 0x100
  }

  function Alpha(c: Argb): int { Channel(c, 24) }
  function Red(c: Argb): int { Channel(c, 16) }
  function Green(c: Argb): int { Channel(c, 8) }
  function Blue(c: Argb): int { Channel(c, 0) }

  predicate IsChannel(v: int) { 0 <= v < 0x100 }

  /** The colour word that `Canvas.drawARGB(a, r, g, b)` paints with:
      `(a << 24) | (r << 16) | (g << 8) | b`, whose four fields do not overlap. */
  function PackArgb(a: int, r: int, g: int, b: int): (c: Argb)
    requires IsChannel(a) && IsChannel(r) && IsChannel(g) && IsChannel(b)
    ensures Alpha(c) == a && Red(c) == r && Green(c) == g && Blue(c) == b
  {
    var c := a * 0x100_0000 + r * 0x1_0000 + g * 0x100 + b;
    DivPlus(a * 0x1_0000 + r * 0x100 + g, b, 0x100);
    DivPlus(a * 0x100 + r, g, 0x100);
    DivPlus(a * 0x100 + r, g * 0x100 + b, 0x1_0000);
    DivPlus(a, r, 0x100);
    DivPlus(a, r * 0x1_0000 + g * 0x100 + b, 0x100_0000);
    DivPlus(0, a, 0x100);
    c
  }

  /** A colour word is determined by its four channels: packing the channels
      of `c` gives `c` back (the other half of PackArgb's round trip). */
  lemma {:induction false} PackChannels(c: Argb)
    ensures PackArgb(Alpha(c), Red(c), Green(c), Blue(c)) == c
  {
    var q1, b := c / 0x100, c % 0x100;
    var q2, g := q1 / 0x100, q1 % 0x100;
    var a, r := q2 / 0x100, q2 % 0x100;
    assert c == q2 * 0x1_0000 + (g * 0x100 + b);
    DivPlus(q2, g * 0x100 + b, 0x1_0000);
    assert Red(c) == r;
    assert c == a * 0x100_0000 + (r * 0x1_0000 + g * 0x100 + b);
    DivPlus(a, r * 0x1_0000 + g * 0x100 + b, 0x100_0000);
    DivPlus(0, a, 0x100);
    assert Alpha(c) == a && Green(c) == g && Blue(c) == b;
    assert PackArgb(a, r, g, b) == a * 0x100_0000 + r * 0x1_0000 + g * 0x100 + b;
  }

  /** The colour the paint tool floods the canvas with: the paint colour with
      its alpha forced to 0xFF, `0xFF000000 | (paint & 0x00FFFFFF)`, the two
      operands sharing no set bit. */
  function FillColor(paint: Argb): Argb
  {
    0xFF00_0000 + paint % 0x100_0000
  }

  /** The fill colour is what `drawARGB(255, r, g, b)` paints with when r, g
      and b are taken from the paint colour by shifts and masks: alpha 0xFF,
      the colour channels of the paint colour. */
  lemma FillColorChannels(paint: Argb)
    ensures FillColor(paint) == PackArgb(0xFF, Red(paint), Green(paint), Blue(paint))
    ensures Alpha(FillColor(paint)) == 0xFF
    ensures Red(FillColor(paint)) == Red(paint) && Green(FillColor(paint)) == Green(paint)
    ensures Blue(FillColor(paint)) == Blue(paint)
  {
    PackChannels(paint);
    var rgb := Red(paint) * 0x1_0000 + Green(paint) * 0x100 + Blue(paint);
    DivPlus(Alpha(paint), rgb, 0x100_0000);
  }

  /** Filling leaves an opaque colour as it is, and only an opaque one; so
      filling twice is the same as filling once. */
  lemma FillColorFixedPoints(paint: Argb)
    ensures FillColor(paint) == paint <==> Alpha(paint) == 0xFF
    ensures FillColor(FillColor(paint)) == FillColor(paint)
  {
    var hi, lo := paint / 0x100_0000, paint % 0x100_0000;
    DivPlus(hi, lo, 0x100_0000);
    DivPlus(0xFF, lo, 0x100_0000);
    DivPlus(0, 0xFF, 0x100);
    DivPlus(0, hi, 0x100);
  }

  /** Division by `n` undoes `hi * n + lo` when `lo` is a remainder. */
  lemma DivPlus(hi: int, lo: int, n: int)
    requires 0 < n && 0 <= lo < n
    ensures (hi * n + lo) / n == hi && (hi * n + lo) % n == lo
  {
    var x := hi * n + lo;
    var q, m := x / n, x % n;
    assert x == q * n + m;
    if q > hi {
      MulAtLeast(q - hi, n);
      assert false;
    } else if q < hi {
      MulAtLeast(hi - q, n);
      assert false;
    }
  }

  lemma MulAtLeast(k: int, n: int)
    requires 1 <= k && 0 < n
    ensures n <= k * n
  {
    var j := k - 1;
    assert k * n == j * n + n;
    assert 0 <= j * n;
  }
}

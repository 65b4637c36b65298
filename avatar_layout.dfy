/** The integer arithmetic that places one or two glyphs on the avatar
    canvas: Go's truncating division, the conversion of a glyph advance from
    26.6 fixed point to whole pixels, and the horizontal layout. */
module AvatarLayout {

  const ImageWidth: int := 500
  const ImageHeight: int := 500
  const Spacer: int := 20
  const TextY: int := 320

  /** Go's integer division, which truncates toward zero (Dafny's `/` is
      Euclidean and differs for a negative dividend). */
  function GoDiv(a: int, b: int): int
    requires b > 0
  {
    if a >= 0 then a / b else -((-a) / b)
  }

  /** `int(float64(width) / 64)`: an advance in 26.6 fixed point in whole
      pixels. The advance is an int32, so dividing its float64 value by 64
      is exact and the conversion truncates toward zero: the result is
      Go's integer division by 64. */
  function PixelWidth(advance: int): (w: int)
    ensures advance >= 0 ==> 0 <= 64 * w <= advance < 64 * w + 64
    ensures advance < 0 ==> 64 * w - 64 < advance <= 64 * w <= 0
  {
    GoDiv(advance, 64)
  }

  /** The combined width of two glyphs and the gap between them. */
  function CombinedWidth(w0: int, w1: int): int {
    w0 + Spacer + w1
  }

  /** The x positions of the two glyphs: the block of both glyphs and the
      gap is centred on the canvas (truncating the half), and the second
      glyph starts one gap after the end of the first. */
  function Layout(w0: int, w1: int): (x: (int, int))
    ensures x.1 == x.0 + w0 + Spacer
  {
    var x0 := GoDiv(ImageWidth - CombinedWidth(w0, w1), 2);
    (x0, x0 + w0 + Spacer)
  }

  /** The blank space left of the first glyph. */
  function LeftMargin(w0: int, w1: int): int {
    Layout(w0, w1).0
  }

  /** The blank space right of the second glyph. */
  function RightMargin(w0: int, w1: int): int {
    ImageWidth - (Layout(w0, w1).1 + w1)
  }

  /** The two margins and the block fill the canvas exactly; when the block
      fits, the odd pixel, if any, goes to the right margin; when it does not
      fit, truncation toward zero puts it on the left. Either way the margins
      differ by at most one pixel. */
  lemma LayoutCentred(w0: int, w1: int)
    ensures LeftMargin(w0, w1) + CombinedWidth(w0, w1) + RightMargin(w0, w1) == ImageWidth
    ensures CombinedWidth(w0, w1) <= ImageWidth ==>
              0 <= LeftMargin(w0, w1) <= RightMargin(w0, w1) <= LeftMargin(w0, w1) + 1
    ensures CombinedWidth(w0, w1) > ImageWidth ==>
              RightMargin(w0, w1) <= LeftMargin(w0, w1) <= RightMargin(w0, w1) + 1 &&
              LeftMargin(w0, w1) <= 0
  {
    var d := ImageWidth - CombinedWidth(w0, w1);
    assert LeftMargin(w0, w1) == GoDiv(d, 2);
    assert RightMargin(w0, w1) == d - GoDiv(d, 2);
  }

  /** The first glyph's x is the unique integer that the centring
      determines: twice it is the free space, minus one when the free space
      is odd and non-negative, plus one when it is odd and negative. */
  lemma LayoutFirstX(w0: int, w1: int)
    ensures var free := ImageWidth - CombinedWidth(w0, w1);
            var x0 := Layout(w0, w1).0;
            (free % 2 == 0 ==> 2 * x0 == free) &&
            (free % 2 == 1 && free >= 0 ==> 2 * x0 == free - 1) &&
            (free % 2 == 1 && free < 0 ==> 2 * x0 == free + 1)
  {
  }
}

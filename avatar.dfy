/** The avatar generator proper: the image cache keyed by cleaned initials
    and createAvatar, which consults the cache, measures the glyphs, lays
    them out and stores the new image.

    Rendering is described rather than performed: an image records its size,
    its background and text colours and where each glyph is drawn. The font
    is an input: `None` when it could not be loaded, otherwise the advance of
    each glyph it has, in 26.6 fixed point. */
module Avatar {
  import opened AvatarText
  import opened AvatarLayout

  datatype Option<T> = None | Some(value: T)

  /** image.White, the colour of the text. */
  const White: Rgba := Rgba(255, 255, 255, 255)

  /** One character drawn with its baseline origin at (x, y). */
  datatype Glyph = Glyph(ch: char, x: int, y: int)

  /** A rendered avatar: a canvas filled with `background`, with `glyphs`
      drawn on it in `foreground`, in order. */
  datatype Image = Image(width: int, height: int, background: Rgba, foreground: Rgba, glyphs: seq<Glyph>)

  /** A parsed font, reduced to what layout uses: GlyphAdvance's answer for
      each rune it knows. */
  datatype Font = Font(advances: map<char, int>)

  /** Why createAvatar produced no image. The two panics are Go run-time
      errors: slicing the first byte of empty text, and storing a third
      glyph width into the two-element array. */
  datatype Failure = FontUnavailable | MissingGlyph(ch: char) | EmptyTextPanic | TooManyGlyphsPanic

  datatype Outcome = Drawn(image: Image) | Failed(failure: Failure)

  /** The outcome of the measuring loop from index `i` on: the first glyph
      the font lacks, or the index-out-of-range panic at the third glyph. */
  function Measure(text: string, advances: map<char, int>, i: nat): Option<Failure>
    requires i <= |text|
    decreases |text| - i
  {
    if i == |text| then None
    else if text[i] !in advances then Some(MissingGlyph(text[i]))
    else if i >= 2 then Some(TooManyGlyphsPanic)
    else Measure(text, advances, i + 1)
  }

  /** The measuring loop gets through exactly when at most two glyphs are
      left from `i` on... */
  lemma {:induction false} MeasurePasses(text: string, advances: map<char, int>, i: nat)
    requires i <= |text| && i <= 2
    ensures Measure(text, advances, i) == None <==>
              |text| <= 2 && forall k | i <= k < |text| :: text[k] in advances
    decreases |text| - i
  {
    if i < |text| && i < 2 {
      MeasurePasses(text, advances, i + 1);
    }
  }

  /** ...and otherwise reports the first glyph the font lacks among the
      first three, or the panic when there are three or more and the first
      three are all known. */
  lemma {:induction false} MeasureFails(text: string, advances: map<char, int>, j: nat)
    requires j < |text| && j <= 2
    requires forall k | 0 <= k < j :: text[k] in advances
    ensures text[j] !in advances ==> Measure(text, advances, 0) == Some(MissingGlyph(text[j]))
    ensures j == 2 && text[j] in advances ==> Measure(text, advances, 0) == Some(TooManyGlyphsPanic)
  {
    if j == 1 {
      assert Measure(text, advances, 0) == Measure(text, advances, 1);
    } else if j == 2 {
      assert Measure(text, advances, 0) == Measure(text, advances, 1) == Measure(text, advances, 2);
    }
  }

  /** The pixel widths of the first and, if present, second glyph; a
      missing second glyph has width 0. */
  function Widths(text: string, advances: map<char, int>): (int, int)
    requires 1 <= |text| <= 2 && forall k | 0 <= k < |text| :: text[k] in advances
  {
    (PixelWidth(advances[text[0]]),
     if |text| == 2 then PixelWidth(advances[text[1]]) else 0)
  }

  /** The image drawn for one or two glyphs the font knows. */
  function Compose(text: string, advances: map<char, int>): Image
    requires 1 <= |text| <= 2 && forall k | 0 <= k < |text| :: text[k] in advances
  {
    var w := Widths(text, advances);
    var x := Layout(w.0, w.1);
    Image(ImageWidth, ImageHeight, DefaultColor(text[..1]), White,
          seq(|text|, k requires 0 <= k < |text| => Glyph(text[k], if k == 0 then x.0 else x.1, TextY)))
  }

  /** What createAvatar produces for cleaned text that is not in the cache,
      in the order the code checks: the font, the first character, then each
      glyph in turn. */
  function Draw(text: string, font: Option<Font>): Outcome {
    if font.None? then Failed(FontUnavailable)
    else if text == [] then Failed(EmptyTextPanic)
    else
      var advances := font.value.advances;
      match Measure(text, advances, 0)
      case Some(f) => Failed(f)
      case None => MeasurePasses(text, advances, 0); Drawn(Compose(text, advances))
  }

  /** An image is drawn exactly when the font loaded and the text is one or
      two characters the font knows. */
  lemma DrawSucceeds(text: string, font: Option<Font>)
    ensures Draw(text, font).Drawn? <==>
              font.Some? && 1 <= |text| <= 2 &&
              forall k | 0 <= k < |text| :: text[k] in font.value.advances
  {
    if font.Some? && text != [] {
      MeasurePasses(text, font.value.advances, 0);
    }
  }

  /** A drawn image is the full canvas, with the background chosen by the
      first character and the glyphs, in text order, on the text baseline.
      With two glyphs, the second starts one gap after the first ends and
      the margins left and right of the glyphs differ by at most one pixel.
      With one glyph, the source still centres the glyph plus the 20-pixel
      gap, so the lone initial sits off centre: the space right of it
      exceeds the space left of it by the gap, or by one more pixel. */
  lemma DrawnImage(text: string, font: Option<Font>)
    requires Draw(text, font).Drawn?
    ensures font.Some? && 1 <= |text| <= 2
    ensures forall k | 0 <= k < |text| :: text[k] in font.value.advances
    ensures var img := Draw(text, font).image;
            img.width == ImageWidth && img.height == ImageHeight &&
            img.background == DefaultColor([text[0]]) && img.foreground == White &&
            |img.glyphs| == |text| &&
            (forall k | 0 <= k < |text| :: img.glyphs[k].ch == text[k] && img.glyphs[k].y == TextY)
    ensures var img := Draw(text, font).image;
            var w := Widths(text, font.value.advances);
            img.glyphs[0].x == LeftMargin(w.0, w.1) &&
            (|text| == 2 ==> img.glyphs[1].x == img.glyphs[0].x + w.0 + Spacer) &&
            (|text| == 2 ==> -1 <= LeftMargin(w.0, w.1) - RightMargin(w.0, w.1) <= 1)
    ensures var img := Draw(text, font).image;
            var w := Widths(text, font.value.advances);
            var left := img.glyphs[0].x;
            var right := ImageWidth - (img.glyphs[0].x + w.0);
            |text| == 1 ==>
              Spacer - 1 <= right - left <= Spacer + 1 &&
              (w.0 + Spacer <= ImageWidth ==> Spacer <= right - left <= Spacer + 1)
  {
    DrawSucceeds(text, font);
    var w := Widths(text, font.value.advances);
    LayoutCentred(w.0, w.1);
    assert text[..1] == [text[0]];
  }

  /** The image cache, a map from cleaned initials to images. */
  class ImageCache {
    var images: map<string, Image>

    constructor ()
      ensures images == map[]
    {
      images := map[];
    }

    /** getImage: the image stored under `initials`, or none. */
    method GetImage(initials: string) returns (r: Option<Image>)
      ensures initials in images ==> r == Some(images[initials])
      ensures initials !in images ==> r == None
    {
      if initials in images {
        r := Some(images[initials]);
      } else {
        r := None;
      }
    }

    /** setImage: stores `image` under `initials`, replacing what was there
        and leaving every other entry alone. */
    method SetImage(initials: string, image: Image)
      modifies this
      ensures images == old(images)[initials := image]
      ensures forall k | k in old(images) && k != initials :: k in images && images[k] == old(images)[k]
    {
      images := images[initials := image];
    }

    /** createAvatar: the image for the cleaned `initials`, from the cache
        when it is there; otherwise drawn and, when drawing succeeds, stored
        under the cleaned text. */
    method CreateAvatar(initials: string, font: Option<Font>) returns (result: Outcome)
      modifies this
      ensures var text := CleanString(initials);
              if text in old(images) then
                result == Drawn(old(images)[text]) && images == old(images)
              else
                result == Draw(text, font) &&
                images == if result.Drawn? then old(images)[text := result.image] else old(images)
    {
      var text := CleanString(initials);
      var cached := GetImage(text);
      if cached.Some? {
        return Drawn(cached.value);
      }
      if font.None? {
        return Failed(FontUnavailable);
      }
      result := DrawText(text, font.value);
      if result.Drawn? {
        SetImage(text, result.image);
      }
    }
  }

  /** The drawing part of createAvatar, once the font has loaded: choose the
      background from the first character, measure each glyph into a
      two-element array of widths, compute the two x positions and draw the
      glyphs there. */
  method DrawText(text: string, font: Font) returns (result: Outcome)
    ensures result == Draw(text, Some(font))
  {
    if |text| == 0 {
      return Failed(EmptyTextPanic);
    }
    var background := DefaultColor(text[..1]);
    var advances := font.advances;

    var xPoints := new int[2](_ => 0);
    var textWidths := new int[2](_ => 0);
    var i := 0;
    while i < |text|
      invariant 0 <= i <= |text| && i <= 2
      invariant Measure(text, advances, 0) == Measure(text, advances, i)
      invariant forall k | 0 <= k < i :: text[k] in advances && textWidths[k] == PixelWidth(advances[text[k]])
      invariant forall k | i <= k < 2 :: textWidths[k] == 0
    {
      if text[i] !in advances {
        return Failed(MissingGlyph(text[i]));
      }
      if i >= textWidths.Length {
        return Failed(TooManyGlyphsPanic);
      }
      textWidths[i] := PixelWidth(advances[text[i]]);
      i := i + 1;
    }
    // The source resets the second width when the array has length one;
    // the array always has length two, so that branch never runs.

    var combinedWidth := textWidths[0] + Spacer + textWidths[1];
    xPoints[0] := GoDiv(ImageWidth - combinedWidth, 2);
    xPoints[1] := xPoints[0] + textWidths[0] + Spacer;

    var glyphs: seq<Glyph> := [];
    for j := 0 to |text|
      invariant |glyphs| == j
      invariant forall k | 0 <= k < j :: glyphs[k] == Glyph(text[k], xPoints[k], TextY)
    {
      glyphs := glyphs + [Glyph(text[j], xPoints[j], TextY)];
    }

    MeasurePasses(text, advances, 0);
    ghost var w := Widths(text, advances);
    assert textWidths[0] == w.0 && textWidths[1] == w.1;
    assert xPoints[0] == Layout(w.0, w.1).0 && xPoints[1] == Layout(w.0, w.1).1;
    result := Drawn(Image(ImageWidth, ImageHeight, background, White, glyphs));
    assert result.image == Compose(text, advances);
  }

  /** Two names that clean to the same text share one cached image: once
      the first has been drawn, the second gets that very image, whatever
      font is passed the second time. */
  method SharedCacheEntry(cache: ImageCache, a: string, b: string, font1: Option<Font>, font2: Option<Font>)
      returns (r1: Outcome, r2: Outcome)
    requires CleanString(a) == CleanString(b)
    modifies cache
    ensures r1.Drawn? ==> r2 == r1
    ensures r1.Drawn? ==> CleanString(b) in cache.images && cache.images[CleanString(b)] == r1.image
  {
    r1 := cache.CreateAvatar(a, font1);
    r2 := cache.CreateAvatar(b, font2);
  }
}

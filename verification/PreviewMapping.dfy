/** The preview's letterbox in whole pixels, and the way back from the mouse to the source.
    Sizes are in pixels; quotients are exact and cut off towards zero where the source casts to
    an integer. */
module PreviewMapping {
  import opened Ratios

  predicate WiderThan(windowCX: int, windowCY: int, baseCX: int, baseCY: int)
    requires windowCY > 0 && baseCY > 0
  {
    (windowCX as real) / (windowCY as real) > (baseCX as real) / (baseCY as real)
  }

  /** Where a picture of the base size lies in the window, and how large. */
  datatype Layout = Layout(x: int, y: int, cx: int, cy: int, scale: real)

  function LayoutOf(baseCX: int, baseCY: int, windowCX: int, windowCY: int): Layout
    requires baseCX > 0 && baseCY > 0 && windowCX > 0 && windowCY > 0
  {
    if WiderThan(windowCX, windowCY, baseCX, baseCY) then FullHeight(baseCX, baseCY, windowCX, windowCY)
    else FullWidth(baseCX, baseCY, windowCX, windowCY)
  }

  function FullHeight(baseCX: int, baseCY: int, windowCX: int, windowCY: int): Layout
    requires baseCX > 0 && baseCY > 0 && windowCX > 0 && windowCY > 0
  {
    var cx := Truncated(windowCY as real * (baseCX as real / baseCY as real));
    Layout(windowCX / 2 - cx / 2, 0, cx, windowCY, windowCY as real / baseCY as real)
  }

  function FullWidth(baseCX: int, baseCY: int, windowCX: int, windowCY: int): Layout
    requires baseCX > 0 && baseCY > 0 && windowCX > 0 && windowCY > 0
  {
    Positive(baseCX as real, baseCY as real);
    var cy := Truncated(windowCX as real / (baseCX as real / baseCY as real));
    Layout(0, windowCY / 2 - cy / 2, windowCX, cy, windowCX as real / baseCX as real)
  }

  method GetScaleAndCenterPos(baseCX: int, baseCY: int, windowCX: int, windowCY: int) returns (x: int, y: int, scale: real)
    requires baseCX > 0 && baseCY > 0 && windowCX > 0 && windowCY > 0
    ensures var l := LayoutOf(baseCX, baseCY, windowCX, windowCY);
            x == l.x && y == l.y && scale == l.scale
  {
    var windowAspect := windowCX as real / windowCY as real;
    var baseAspect := baseCX as real / baseCY as real;
    var newCX, newCY;
    ghost var l := LayoutOf(baseCX, baseCY, windowCX, windowCY);
    if windowAspect > baseAspect {
      assert l == FullHeight(baseCX, baseCY, windowCX, windowCY);
      scale := windowCY as real / baseCY as real;
      newCX := Truncated(windowCY as real * baseAspect);
      newCY := windowCY;
    } else {
      Positive(baseCX as real, baseCY as real);
      assert l == FullWidth(baseCX, baseCY, windowCX, windowCY);
      scale := windowCX as real / baseCX as real;
      newCX := windowCX;
      newCY := Truncated(windowCX as real / baseAspect);
    }
    assert newCX == l.cx && newCY == l.cy;
    x := windowCX / 2 - newCX / 2;
    y := windowCY / 2 - newCY / 2;
  }

  /** The drawn size is the scaled base size cut to whole pixels, as the preview computes it for its
      viewport, and no larger than the window. */
  ghost predicate Drawn(l: Layout, baseCX: int, baseCY: int, windowCX: int, windowCY: int) {
    && l.scale > 0.0
    && l.cx as real <= l.scale * baseCX as real <= windowCX as real
    && l.cy as real <= l.scale * baseCY as real <= windowCY as real
    && l.cx == (l.scale * baseCX as real).Floor && l.cy == (l.scale * baseCY as real).Floor
    && 0 <= l.cx <= windowCX && 0 <= l.cy <= windowCY
  }

  /** The picture fills the window along one axis and lies inside it along the other, centred to
      within a pixel: at most one of the two offsets is not zero. */
  ghost predicate InWindow(l: Layout, windowCX: int, windowCY: int) {
    && 0 <= l.x && 0 <= l.cx && l.x + l.cx <= windowCX
    && 0 <= l.y && 0 <= l.cy && l.y + l.cy <= windowCY
    && ((l.x == 0 && l.cx == windowCX) || (l.y == 0 && l.cy == windowCY))
    && -1 <= windowCX - l.cx - 2 * l.x <= 1
    && -1 <= windowCY - l.cy - 2 * l.y <= 1
  }

  lemma WiderExactly(baseCX: int, baseCY: int, windowCX: int, windowCY: int)
    requires baseCX > 0 && baseCY > 0 && windowCX > 0 && windowCY > 0
    ensures WiderThan(windowCX, windowCY, baseCX, baseCY) <==>
              baseCX as real * windowCY as real < windowCX as real * baseCY as real
  {
    CompareRatios(baseCX as real, baseCY as real, windowCX as real, windowCY as real);
  }

  lemma PictureInWindow(baseCX: int, baseCY: int, windowCX: int, windowCY: int)
    requires baseCX > 0 && baseCY > 0 && windowCX > 0 && windowCY > 0
    ensures Drawn(LayoutOf(baseCX, baseCY, windowCX, windowCY), baseCX, baseCY, windowCX, windowCY)
    ensures InWindow(LayoutOf(baseCX, baseCY, windowCX, windowCY), windowCX, windowCY)
  {
    WiderExactly(baseCX, baseCY, windowCX, windowCY);
    if WiderThan(windowCX, windowCY, baseCX, baseCY) {
      FilledHeight(baseCX, baseCY, windowCX, windowCY);
    } else {
      FilledWidth(baseCX, baseCY, windowCX, windowCY);
    }
  }

  lemma Centred(window: int, drawn: int)
    requires 0 <= drawn <= window
    ensures var offset := window / 2 - drawn / 2;
            0 <= offset && offset + drawn <= window && -1 <= window - drawn - 2 * offset <= 1
  {
  }

  /** The drawn picture is put in the middle by halves of whole pixels, each cut off on its own. */
  lemma OffsetsInPixels(baseCX: int, baseCY: int, windowCX: int, windowCY: int)
    requires baseCX > 0 && baseCY > 0 && windowCX > 0 && windowCY > 0
    ensures var l := LayoutOf(baseCX, baseCY, windowCX, windowCY);
            l.x == windowCX / 2 - l.cx / 2 && l.y == windowCY / 2 - l.cy / 2
  {
  }

  lemma FilledHeight(baseCX: int, baseCY: int, windowCX: int, windowCY: int)
    requires baseCX > 0 && baseCY > 0 && windowCX > 0 && windowCY > 0
    requires baseCX as real * windowCY as real <= windowCX as real * baseCY as real
    ensures Drawn(FullHeight(baseCX, baseCY, windowCX, windowCY), baseCX, baseCY, windowCX, windowCY)
    ensures InWindow(FullHeight(baseCX, baseCY, windowCX, windowCY), windowCX, windowCY)
  {
    ByHeight(baseCX as real, baseCY as real, windowCX as real, windowCY as real);
    HeightDrawn(FullHeight(baseCX, baseCY, windowCX, windowCY), baseCX, baseCY, windowCX, windowCY);
  }

  lemma HeightDrawn(l: Layout, baseCX: int, baseCY: int, windowCX: int, windowCY: int)
    requires baseCX > 0 && baseCY > 0 && windowCX > 0 && windowCY > 0
    requires l.scale > 0.0 && l.scale * baseCY as real == windowCY as real
    requires 0.0 <= l.scale * baseCX as real <= windowCX as real
    requires l == Layout(windowCX / 2 - l.cx / 2, 0, (l.scale * baseCX as real).Floor, windowCY, l.scale)
    ensures Drawn(l, baseCX, baseCY, windowCX, windowCY) && InWindow(l, windowCX, windowCY)
  {
    WholePart(l.scale * baseCX as real, windowCX);
    Centred(windowCX, l.cx);
  }

  lemma FilledWidth(baseCX: int, baseCY: int, windowCX: int, windowCY: int)
    requires baseCX > 0 && baseCY > 0 && windowCX > 0 && windowCY > 0
    requires baseCX as real * windowCY as real >= windowCX as real * baseCY as real
    ensures Drawn(FullWidth(baseCX, baseCY, windowCX, windowCY), baseCX, baseCY, windowCX, windowCY)
    ensures InWindow(FullWidth(baseCX, baseCY, windowCX, windowCY), windowCX, windowCY)
  {
    ByWidth(baseCX as real, baseCY as real, windowCX as real, windowCY as real);
    WidthDrawn(FullWidth(baseCX, baseCY, windowCX, windowCY), baseCX, baseCY, windowCX, windowCY);
  }

  lemma WidthDrawn(l: Layout, baseCX: int, baseCY: int, windowCX: int, windowCY: int)
    requires baseCX > 0 && baseCY > 0 && windowCX > 0 && windowCY > 0
    requires l.scale > 0.0 && l.scale * baseCX as real == windowCX as real
    requires 0.0 <= l.scale * baseCY as real <= windowCY as real
    requires l == Layout(0, windowCY / 2 - l.cy / 2, windowCX, (l.scale * baseCY as real).Floor, l.scale)
    ensures Drawn(l, baseCX, baseCY, windowCX, windowCY) && InWindow(l, windowCX, windowCY)
  {
    WholePart(l.scale * baseCY as real, windowCY);
    Centred(windowCY, l.cy);
  }

  lemma ByHeight(bw: real, bh: real, ww: real, wh: real)
    requires bw > 0.0 && bh > 0.0 && ww > 0.0 && wh > 0.0 && bw * wh <= ww * bh
    ensures wh / bh > 0.0 && (wh / bh) * bh == wh
    ensures wh * (bw / bh) == (wh / bh) * bw
    ensures 0.0 <= (wh / bh) * bw <= ww
  {
    Scaled(bh, bw, wh);
    Positive(wh, bh);
    MulOrder(0.0, bw, wh / bh);
    Cancel((wh / bh) * bw, ww, bh);
  }

  lemma ByWidth(bw: real, bh: real, ww: real, wh: real)
    requires bw > 0.0 && bh > 0.0 && ww > 0.0 && wh > 0.0 && bw * wh >= ww * bh
    ensures ww / bw > 0.0 && (ww / bw) * bw == ww
    ensures bw / bh > 0.0 && ww / (bw / bh) == (ww / bw) * bh
    ensures 0.0 <= (ww / bw) * bh <= wh
  {
    DividedByRatio(ww, bw, bh);
    ByHeight(bh, bw, wh, ww);
  }

  // ---------------------------------------------------------------- from the mouse to the source

  /** The way back on one axis. */
  function Back(mouse: int, offset: int, scale: real): int
    requires scale > 0.0
  {
    Truncated((mouse - offset) as real / scale)
  }

  predicate Inside(rel: int, size: int) {
    0 <= rel <= size
  }

  /** Only one offset is taken off, since the other is zero. */
  method GetSourceRelativeXY(sourceCX: nat, sourceCY: nat, windowCX: int, windowCY: int, mouseX: int, mouseY: int)
    returns (inside: bool, relX: int, relY: int)
    requires windowCX > 0 && windowCY > 0
    ensures var cx, cy := if sourceCX < 1 then 1 else sourceCX, if sourceCY < 1 then 1 else sourceCY;
            var l := LayoutOf(cx, cy, windowCX, windowCY);
            && l.scale > 0.0
            && relX == Back(mouseX, l.x, l.scale) && relY == Back(mouseY, l.y, l.scale)
            && (inside <==> Inside(relX, cx) && Inside(relY, cy))
  {
    var cx := if sourceCX < 1 then 1 else sourceCX;
    var cy := if sourceCY < 1 then 1 else sourceCY;
    var x, y, scale := GetScaleAndCenterPos(cx, cy, windowCX, windowCY);
    PictureInWindow(cx, cy, windowCX, windowCY);
    if x > 0 {
      relX := Truncated((mouseX - x) as real / scale);
      relY := Truncated(mouseY as real / scale);
    } else {
      relX := Truncated(mouseX as real / scale);
      relY := Truncated((mouseY - y) as real / scale);
    }
    if relX < 0 || relX > cx {
      return false, relX, relY;
    }
    if relY < 0 || relY > cy {
      return false, relX, relY;
    }
    inside := true;
  }

  /** The way back in full: whole source pixels from the picture's edge, cut off towards it. */
  lemma BackExactly(mouse: int, offset: int, scale: real)
    requires scale > 0.0
    ensures var rel := Back(mouse, offset, scale);
            if mouse >= offset then rel >= 0 && rel as real * scale <= (mouse - offset) as real < (rel + 1) as real * scale
            else rel <= 0 && (rel - 1) as real * scale < (mouse - offset) as real <= rel as real * scale
  {
    var d := (mouse - offset) as real;
    var q := d / scale;
    var rel := Truncated(q);
    assert q * scale == d;
    if mouse >= offset {
      QuotientBounds(d, scale, rel as real, (rel + 1) as real);
      QuotientBounds(d, scale, 0.0, 0.0);
    } else {
      QuotientBounds(d, scale, (rel - 1) as real, rel as real);
      QuotientBounds(d, scale, 0.0, 0.0);
    }
  }

  /** Where a source pixel is drawn. */
  function Forth(pixel: int, offset: int, scale: real): int {
    offset + (pixel as real * scale).Floor
  }

  function Ceiling(r: real): int {
    -((-r).Floor)
  }

  /** Drawing a source pixel and pointing at it again leads back to it or to one at most the
      reciprocal scale, rounded up, before it. */
  lemma RoundTripIsClose(pixel: nat, offset: int, scale: real)
    requires scale > 0.0
    ensures 0 <= pixel - Back(Forth(pixel, offset, scale), offset, scale) <= Ceiling(1.0 / scale)
    ensures 0 <= Back(Forth(pixel, offset, scale), offset, scale)
  {
    DrawnIsNotNegative(pixel as real, scale);
    var drawn := (pixel as real * scale).Floor;
    PointedPixel(pixel, offset, drawn, scale);
    assert Forth(pixel, offset, scale) == offset + drawn;
  }

  lemma PointedPixel(pixel: nat, offset: int, drawn: nat, scale: real)
    requires scale > 0.0 && pixel as real * scale - 1.0 < drawn as real <= pixel as real * scale
    ensures 0 <= pixel - Back(offset + drawn, offset, scale) <= Ceiling(1.0 / scale)
    ensures 0 <= Back(offset + drawn, offset, scale)
  {
    PointedBack(pixel as real, scale, drawn as real);
    RoundedBack(pixel, drawn as real / scale, 1.0 / scale);
    assert offset + drawn - offset == drawn;
  }

  lemma DrawnIsNotNegative(n: real, scale: real)
    requires n >= 0.0 && scale > 0.0
    ensures n * scale >= 0.0
  {
    MulOrder(0.0, n, scale);
  }

  lemma PointedBack(n: real, scale: real, f: real)
    requires scale > 0.0 && 0.0 <= f && n * scale - 1.0 < f <= n * scale
    ensures 0.0 <= f / scale && n - 1.0 / scale < f / scale <= n
  {
    var e := 1.0 / scale;
    assert (n - e) * scale == n * scale - 1.0 by {
      assert e * scale == 1.0;
    }
    QuotientBounds(f, scale, n - e, n);
    QuotientBounds(f, scale, 0.0, n);
  }

  lemma RoundedBack(pixel: nat, q: real, error: real)
    requires 0.0 <= q && pixel as real - error < q <= pixel as real
    ensures 0 <= pixel - q.Floor <= Ceiling(error) && 0 <= q.Floor
  {
  }

  /** Enlarged or unscaled pictures are off by at most one pixel, and whole scales not at all. */
  lemma EnlargedRoundTrip(pixel: nat, offset: int, scale: real)
    requires scale >= 1.0
    ensures pixel - 1 <= Back(Forth(pixel, offset, scale), offset, scale) <= pixel
    ensures scale == scale.Floor as real ==> Back(Forth(pixel, offset, scale), offset, scale) == pixel
  {
    RoundTripIsClose(pixel, offset, scale);
    QuotientBounds(1.0, scale, 0.0, 1.0);
    AtMostOne(1.0 / scale);
    if scale == scale.Floor as real {
      WholeRoundTrip(pixel, offset, scale.Floor);
    }
  }

  lemma AtMostOne(r: real)
    requires r <= 1.0
    ensures Ceiling(r) <= 1
  {
  }

  lemma WholeRoundTrip(pixel: nat, offset: int, scale: nat)
    requires scale >= 1
    ensures Back(Forth(pixel, offset, scale as real), offset, scale as real) == pixel
  {
    var drawn := pixel * scale;
    assert pixel as real * scale as real == drawn as real;
    QuotientBounds(drawn as real, scale as real, pixel as real, pixel as real);
    assert offset + drawn - offset == drawn;
  }

  /** A mouse position counts as inside the source exactly if it lies less than one source pixel
      before the picture's edge and less than one behind the other. */
  lemma InsideExactly(mouse: int, offset: int, scale: real, size: nat)
    requires scale > 0.0
    ensures Inside(Back(mouse, offset, scale), size) <==>
              -scale < (mouse - offset) as real < (size + 1) as real * scale
  {
    var d := (mouse - offset) as real;
    QuotientBounds(d, scale, -1.0, (size + 1) as real);
    InsideByQuotient(d / scale, size);
  }

  lemma InsideByQuotient(q: real, size: nat)
    ensures Inside(Truncated(q), size) <==> -1.0 < q < (size + 1) as real
  {
  }

  /** Every point of the drawn picture is inside the source. */
  lemma PictureIsInside(baseCX: int, baseCY: int, windowCX: int, windowCY: int, l: Layout, mouseX: int, mouseY: int)
    requires baseCX > 0 && baseCY > 0 && Drawn(l, baseCX, baseCY, windowCX, windowCY)
    requires l.x <= mouseX < l.x + l.cx && l.y <= mouseY < l.y + l.cy
    ensures 0 <= Back(mouseX, l.x, l.scale) < baseCX && 0 <= Back(mouseY, l.y, l.scale) < baseCY
  {
    PointIsInside(mouseX - l.x, l.scale, baseCX, l.cx);
    PointIsInside(mouseY - l.y, l.scale, baseCY, l.cy);
  }

  lemma PointIsInside(d: int, scale: real, size: nat, drawn: int)
    requires scale > 0.0 && 0 <= d < drawn && drawn as real <= scale * size as real
    ensures 0 <= Truncated(d as real / scale) < size
  {
    QuotientBounds(d as real, scale, 0.0, size as real);
  }
}

/**
 * The region of a screenshot handed to text recognition (`cropForOcr`): the
 * band from 10% to 90% of the width and from 5% to 25% of the height, with
 * every bound clamped so that the region is never empty and never leaves the
 * frame.
 */
module OcrRegion {
  import opened Frames

  /** An axis-aligned rectangle in frame pixels; right and bottom are exclusive. */
  datatype Region = Region(left: int, top: int, right: int, bottom: int)

  /** Kotlin's `v.coerceIn(lo, hi)`; the source only calls it with lo <= hi. */
  function CoerceIn(v: int, lo: int, hi: int): (r: int)
    requires lo <= hi
    ensures lo <= r <= hi
    ensures lo <= v <= hi ==> r == v
    ensures v < lo ==> r == lo
    ensures v > hi ==> r == hi
  {
    if v < lo then lo else if v > hi then hi else v
  }

  /**
   * The crop rectangle for a w-by-h frame. `(w * 0.10f).toInt()` and the
   * other float products are taken as the exact percentages, truncated.
   */
  function CropRegion(w: int, h: int): (r: Region)
    requires w >= 1 && h >= 1
    ensures 0 <= r.left < r.right <= w
    ensures 0 <= r.top < r.bottom <= h
  {
    var left := CoerceIn(w * 10 / 100, 0, w - 1);
    var top := CoerceIn(h * 5 / 100, 0, h - 1);
    var right := CoerceIn(w * 90 / 100, left + 1, w);
    var bottom := CoerceIn(h * 25 / 100, top + 1, h);
    Region(left, top, right, bottom)
  }

  /**
   * Horizontally, for frames at least 2 pixels wide no clamp is active: the
   * region spans exactly 10%..90% of the width, whatever the height.
   */
  lemma CropUnclampedWidth(w: int, h: int)
    requires w >= 2 && h >= 1
    ensures CropRegion(w, h).left == w * 10 / 100 && CropRegion(w, h).right == w * 90 / 100
  {
  }

  /**
   * Vertically, for frames at least 4 pixels high no clamp is active: the
   * region spans exactly 5%..25% of the height, whatever the width.
   */
  lemma CropUnclampedHeight(w: int, h: int)
    requires w >= 1 && h >= 4
    ensures CropRegion(w, h).top == h * 5 / 100 && CropRegion(w, h).bottom == h * 25 / 100
  {
  }

  /**
   * Degenerate frames: a 1-pixel-wide frame keeps column 0 only, and a frame
   * at most 3 pixels high keeps row 0 only; the minimum span is one pixel.
   */
  lemma CropMinimumSpan(w: int, h: int)
    requires w >= 1 && h >= 1
    ensures w == 1 ==> CropRegion(w, h).left == 0 && CropRegion(w, h).right == 1
    ensures h <= 3 ==> CropRegion(w, h).top == 0 && CropRegion(w, h).bottom == 1
  {
  }

  /** The two frame sizes worked out by hand: 1x1 and 1000x2000. */
  lemma CropExamples()
    ensures CropRegion(1, 1) == Region(0, 0, 1, 1)
    ensures CropRegion(1000, 2000) == Region(100, 100, 900, 500)
  {
  }

  /**
   * `cropForOcr`: the sub-bitmap of the screenshot inside `CropRegion`; it
   * is never empty and holds the screenshot's own pixels.
   */
  function CropForOcr(b: Bitmap): (r: Bitmap)
    requires WellFormed(b)
    ensures WellFormed(r)
    ensures var reg := CropRegion(b.width, b.height);
            && r.width == reg.right - reg.left && r.height == reg.bottom - reg.top
            && forall row, col :: 0 <= row < r.height && 0 <= col < r.width ==>
                 At(r, row, col) == At(b, reg.top + row, reg.left + col)
  {
    var reg := CropRegion(b.width, b.height);
    SubBitmap(b, reg.left, reg.top, reg.right - reg.left, reg.bottom - reg.top)
  }
}

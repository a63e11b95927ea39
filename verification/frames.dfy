/**
 * Frames: the bitmaps handed around by the screenshot pipeline and the
 * conversion of a captured image plane, whose rows may be padded, into a
 * canonical bitmap (`imageToBitmap`).
 *
 * Pixels are ARGB_8888: four bytes each. An image plane is a flat byte
 * buffer addressed through `pixelStride` and `rowStride`, both in bytes.
 */
module Frames {
  import opened Wrappers

  newtype Byte = b: int | 0 <= b < 256

  /** One ARGB_8888 pixel: its four bytes in memory order. */
  datatype Pixel = Pixel(b0: Byte, b1: Byte, b2: Byte, b3: Byte)

  /** Bytes per pixel of an ARGB_8888 bitmap (and of an RGBA_8888 image plane). */
  const BytesPerPixel := 4

  /** A bitmap as its rows of pixels, top row first. */
  datatype Bitmap = Bitmap(width: int, height: int, rows: seq<seq<Pixel>>)

  /** What the platform guarantees of every bitmap it creates. */
  predicate WellFormed(b: Bitmap)
  {
    && b.width >= 1 && b.height >= 1
    && |b.rows| == b.height
    && forall r :: 0 <= r < |b.rows| ==> |b.rows[r]| == b.width
  }

  function At(b: Bitmap, row: int, col: int): Pixel
    requires WellFormed(b) && 0 <= row < b.height && 0 <= col < b.width
  {
    b.rows[row][col]
  }

  /**
   * `Bitmap.createBitmap(source, x, y, width, height)`: the width-by-height
   * window of `b` whose top-left corner is (x, y). The platform throws for a
   * window that is empty or leaves the source; the requires excludes exactly that.
   */
  function SubBitmap(b: Bitmap, x: int, y: int, width: int, height: int): (r: Bitmap)
    requires WellFormed(b)
    requires 0 <= x && 0 <= y && width >= 1 && height >= 1
    requires x + width <= b.width && y + height <= b.height
    ensures WellFormed(r) && r.width == width && r.height == height
    ensures forall row, col :: 0 <= row < height && 0 <= col < width ==>
              At(r, row, col) == At(b, y + row, x + col)
  {
    Bitmap(width, height, seq(height, row requires 0 <= row < height => b.rows[y + row][x .. x + width]))
  }

  /** The pixel made of the four bytes starting at `offset`. */
  function PixelFrom(buffer: seq<Byte>, offset: int): Pixel
    requires 0 <= offset && offset + BytesPerPixel <= |buffer|
  {
    Pixel(buffer[offset], buffer[offset + 1], buffer[offset + 2], buffer[offset + 3])
  }

  /** An image plane as `Image.getPlanes()[0]` describes it. */
  datatype Image = Image(width: int, height: int, pixelStride: int, rowStride: int, buffer: seq<Byte>)

  /** Kotlin's `Int` division, which truncates toward zero. */
  function TruncDiv(a: int, b: int): (q: int)
    requires b != 0
    ensures a >= 0 && b > 0 ==> q == a / b
  {
    var n := (if a < 0 then -a else a) / (if b < 0 then -b else b);
    if (a < 0) != (b < 0) then -n else n
  }

  /** Width of the intermediate bitmap: `image.width + rowPadding / pixelStride`. */
  function PaddedWidth(img: Image): (w: int)
    requires img.pixelStride != 0
    ensures img.pixelStride > 0 && img.rowStride >= img.pixelStride * img.width ==> w >= img.width
    ensures img.pixelStride > 0 && img.rowStride <= img.pixelStride * img.width ==> w <= img.width
    ensures img.pixelStride > 0 && img.rowStride >= img.pixelStride * img.width &&
            (img.rowStride - img.pixelStride * img.width) % img.pixelStride == 0 ==>
              w * img.pixelStride == img.rowStride
  {
    img.width + TruncDiv(img.rowStride - img.pixelStride * img.width, img.pixelStride)
  }

  /** The exceptions the conversion can raise, in the order the platform checks them. */
  datatype ConvertFault =
    | DivideByZero       // pixelStride == 0
    | NonPositiveSize    // the padded bitmap would have no pixels
    | BufferTooSmall     // copyPixelsFromBuffer: fewer bytes than the padded bitmap holds
    | EmptyWindow        // createBitmap(bitmap, 0, 0, width, height) with width <= 0
    | WindowTooWide      // ... with width larger than the padded width

  /** The message each fault carries, as the Android runtime (ART) and framework word it. */
  function FaultMessage(f: ConvertFault): string
  {
    match f
    case DivideByZero => "divide by zero"
    case NonPositiveSize => "width and height must be > 0"
    case BufferTooSmall => "Buffer not large enough for pixels"
    case EmptyWindow => "width must be > 0"
    case WindowTooWide => "x + width must be <= bitmap.width()"
  }

  lemma RowMajorBound(row: int, col: int, width: int, height: int)
    requires 0 <= row < height && 0 <= col < width
    ensures 0 <= row * width + col < width * height
  {
    assert row * width + col < (row + 1) * width;
    assert (row + 1) * width <= height * width;
  }

  /**
   * Pixel (row, col) of a width-by-height bitmap filled by
   * `copyPixelsFromBuffer`: pixel k, counted row by row, is bytes 4k..4k+3.
   */
  function BufferPixel(buffer: seq<Byte>, width: int, height: int, row: int, col: int): Pixel
    requires 0 <= row < height && 0 <= col < width
    requires |buffer| >= width * height * BytesPerPixel
  {
    RowMajorBound(row, col, width, height);
    PixelFrom(buffer, (row * width + col) * BytesPerPixel)
  }

  /** The padded bitmap that `copyPixelsFromBuffer` fills from the plane. */
  function Padded(buffer: seq<Byte>, width: int, height: int): (r: Bitmap)
    requires width >= 1 && height >= 1
    requires |buffer| >= width * height * BytesPerPixel
    ensures WellFormed(r) && r.width == width && r.height == height
    ensures forall row, col :: 0 <= row < height && 0 <= col < width ==>
              At(r, row, col) == BufferPixel(buffer, width, height, row, col)
  {
    Bitmap(width, height, seq(height, row requires 0 <= row < height =>
      seq(width, col requires 0 <= col < width => BufferPixel(buffer, width, height, row, col))))
  }

  /**
   * `imageToBitmap`: copy the plane into a bitmap of the padded width, then
   * cut out the image's own width-by-height window at the top left.
   */
  function ToBitmap(img: Image): (r: Result<Bitmap, ConvertFault>)
    ensures r.Success? <==>
              && img.pixelStride != 0
              && 1 <= img.width <= PaddedWidth(img)
              && img.height >= 1
              && |img.buffer| >= PaddedWidth(img) * img.height * BytesPerPixel
    ensures r.Success? ==>
              && WellFormed(r.value)
              && r.value.width == img.width && r.value.height == img.height
              && forall row, col :: 0 <= row < img.height && 0 <= col < img.width ==>
                   At(r.value, row, col) == BufferPixel(img.buffer, PaddedWidth(img), img.height, row, col)
  {
    if img.pixelStride == 0 then Failure(DivideByZero)
    else
      var pw := PaddedWidth(img);
      if pw <= 0 || img.height <= 0 then Failure(NonPositiveSize)
      else if |img.buffer| < pw * img.height * BytesPerPixel then Failure(BufferTooSmall)
      else if img.width <= 0 then Failure(EmptyWindow)
      else if img.width > pw then Failure(WindowTooWide)
      else Success(SubBitmap(Padded(img.buffer, pw, img.height), 0, 0, img.width, img.height))
  }

  /** The pixel the plane itself places at (row, col). */
  function ImagePixel(img: Image, row: int, col: int): Pixel
    requires 0 <= row && 0 <= col && img.pixelStride >= 0 && img.rowStride >= 0
    requires row * img.rowStride + col * img.pixelStride + BytesPerPixel <= |img.buffer|
  {
    PixelFrom(img.buffer, row * img.rowStride + col * img.pixelStride)
  }

  /** Two well-formed bitmaps with the same size and the same pixels are equal. */
  lemma SamePixelsSameBitmap(a: Bitmap, b: Bitmap)
    requires WellFormed(a) && WellFormed(b) && a.width == b.width && a.height == b.height
    requires forall row, col :: 0 <= row < a.height && 0 <= col < a.width ==> At(a, row, col) == At(b, row, col)
    ensures a == b
  {
    forall row | 0 <= row < a.height
      ensures a.rows[row] == b.rows[row]
    {
      assert |a.rows[row]| == a.width == |b.rows[row]|;
      forall col | 0 <= col < a.width
        ensures a.rows[row][col] == b.rows[row][col]
      {
        assert At(a, row, col) == At(b, row, col);
      }
    }
  }

  /**
   * `imageToBitmap` as the source runs it: the padded width from the strides,
   * then a row-by-row copy of the top-left width-by-height window out of the
   * padded buffer into a fresh two-dimensional pixel array.
   */
  method ImageToBitmap(img: Image) returns (r: Result<Bitmap, ConvertFault>)
    ensures r == ToBitmap(img)
  {
    if img.pixelStride == 0 {
      return Failure(DivideByZero);
    }
    var rowPadding := img.rowStride - img.pixelStride * img.width;
    var paddedWidth := img.width + TruncDiv(rowPadding, img.pixelStride);
    if paddedWidth <= 0 || img.height <= 0 {
      return Failure(NonPositiveSize);
    }
    if |img.buffer| < paddedWidth * img.height * BytesPerPixel {
      return Failure(BufferTooSmall);
    }
    if img.width <= 0 {
      return Failure(EmptyWindow);
    }
    if img.width > paddedWidth {
      return Failure(WindowTooWide);
    }
    var pixels := new Pixel[img.height, img.width];
    var row := 0;
    while row < img.height
      invariant 0 <= row <= img.height
      invariant forall i, j :: 0 <= i < row && 0 <= j < img.width ==>
                  pixels[i, j] == BufferPixel(img.buffer, paddedWidth, img.height, i, j)
    {
      var col := 0;
      while col < img.width
        invariant 0 <= col <= img.width
        invariant forall i, j :: 0 <= i < row && 0 <= j < img.width ==>
                    pixels[i, j] == BufferPixel(img.buffer, paddedWidth, img.height, i, j)
        invariant forall j :: 0 <= j < col ==>
                    pixels[row, j] == BufferPixel(img.buffer, paddedWidth, img.height, row, j)
      {
        pixels[row, col] := BufferPixel(img.buffer, paddedWidth, img.height, row, col);
        col := col + 1;
      }
      row := row + 1;
    }
    var rows := seq(img.height, i requires 0 <= i < img.height reads pixels =>
      seq(img.width, j requires 0 <= j < img.width reads pixels => pixels[i, j]));
    var bitmap := Bitmap(img.width, img.height, rows);
    SamePixelsSameBitmap(bitmap, ToBitmap(img).value);
    r := Success(bitmap);
  }

  /**
   * For an RGBA_8888 plane (four bytes per pixel) whose row padding is a
   * whole number of pixels and whose buffer holds every row, the conversion
   * succeeds, the padded width is exactly the row stride in pixels, and the
   * result holds at each (row, col) the pixel the plane places there: the
   * padding is stripped and nothing is shifted.
   */
  lemma TrimRecoversImage(img: Image)
    requires img.pixelStride == BytesPerPixel && img.width >= 1 && img.height >= 1
    requires img.rowStride >= BytesPerPixel * img.width
    requires (img.rowStride - BytesPerPixel * img.width) % BytesPerPixel == 0
    requires |img.buffer| >= img.rowStride * img.height
    ensures PaddedWidth(img) * BytesPerPixel == img.rowStride
    ensures ToBitmap(img).Success?
    ensures forall row, col :: 0 <= row < img.height && 0 <= col < img.width ==>
              row * img.rowStride + col * img.pixelStride + BytesPerPixel <= |img.buffer| &&
              At(ToBitmap(img).value, row, col) == ImagePixel(img, row, col)
  {
    var pw := PaddedWidth(img);
    assert pw * BytesPerPixel == img.rowStride;
    assert pw * img.height * BytesPerPixel == img.rowStride * img.height;
    forall row, col | 0 <= row < img.height && 0 <= col < img.width
      ensures row * img.rowStride + col * img.pixelStride + BytesPerPixel <= |img.buffer|
      ensures At(ToBitmap(img).value, row, col) == ImagePixel(img, row, col)
    {
      assert (row * pw + col) * BytesPerPixel == row * img.rowStride + col * img.pixelStride;
      RowMajorBound(row, col, pw, img.height);
    }
  }
}

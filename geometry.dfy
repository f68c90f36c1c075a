/**
  Pixel arithmetic of the window-capture loop: the border offset measured at
  discovery, the fullscreen test, the title-bar offset, the crop box, and the
  crop of a grabbed screen frame with numpy's slice normalisation.
 */
module WindowGeometry {

  /** A rectangle as the window manager reports it: (left, top, right, bottom).
      A client rectangle is reported as (0, 0, width, height). */
  datatype Rect = Rect(left: int, top: int, right: int, bottom: int)
  {
    function Width(): int { right - left }
    function Height(): int { bottom - top }
  }

  datatype Pixel = Rgb(red: bv8, green: bv8, blue: bv8)

  /** Colour channels per pixel of an RGB screen grab. */
  const Channels: nat := 3

  /** A grabbed or cropped frame: rows of pixels, every row `width` long. */
  datatype Frame = Frame(width: nat, rows: seq<seq<Pixel>>)
  {
    predicate WellFormed() {
      forall i :: 0 <= i < |rows| ==> |rows[i]| == width
    }

    function Height(): nat { |rows| }

    /** numpy's `size`: the number of scalar entries of the (height, width, 3) array. */
    function Size(): (n: nat)
      ensures n == 0 <==> |rows| == 0 || width == 0
    {
      |rows| * width * Channels
    }
  }

  /** An image as numpy holds it: rectangular by construction. */
  type Image = f: Frame | f.WellFormed() witness Frame(0, [])

  /** The border thickness measured at discovery: half the difference between
      the outer width and the client width, rounded down. */
  function WindowOffset(outer: Rect, client: Rect): (off: int)
    ensures 2 * off <= outer.Width() - client.right < 2 * off + 2
    ensures outer.Width() >= client.right ==> off >= 0
  {
    (outer.Width() - client.right) / 2
  }

  /** The window counts as fullscreen when its outer height is the screen height. */
  predicate IsFullscreen(screenHeight: int, outer: Rect) {
    screenHeight == outer.Height()
  }

  /** The title-bar height: zero in fullscreen, otherwise the vertical chrome
      (outer height minus client height) less the bottom border, which is
      taken to be the horizontal border offset. */
  function TitleOffset(screenHeight: int, outer: Rect, client: Rect, off: int): (t: int)
    ensures IsFullscreen(screenHeight, outer) ==> t == 0
    ensures !IsFullscreen(screenHeight, outer) ==> t + off == outer.Height() - client.bottom
  {
    if IsFullscreen(screenHeight, outer) then 0 else (outer.Height() - client.bottom) - off
  }

  /** The crop box: the outer rectangle with the border offset removed on the
      left, right and bottom, and the title offset removed on top. */
  function CropBox(outer: Rect, off: int, title: int): (box: Rect)
    ensures box.left - outer.left == off && outer.right - box.right == off
    ensures outer.bottom - box.bottom == off && box.top - outer.top == title
  {
    Rect(outer.left + off, outer.top + title, outer.right - off, outer.bottom - off)
  }

  /** A normalised slice `lo..hi` of an axis; `hi - lo` is its extent. */
  datatype Span = Span(lo: nat, hi: nat)
  {
    function Extent(): int { hi - lo }
  }

  /** One slice index normalised as Python does for a step of 1: a negative
      index counts from the end, and the result is clamped to `0..len`. */
  function ClampIndex(i: int, len: nat): (r: nat)
    ensures r <= len
    ensures 0 <= i <= len ==> r == i
    ensures i < 0 <= i + len ==> r == i + len
    ensures i + len < 0 ==> r == 0
    ensures i > len ==> r == len
  {
    if i < 0 then (if i + len < 0 then 0 else i + len)
    else if i > len then len
    else i
  }

  /** The slice `start:stop` of an axis of length `len`; a stop before the
      start gives an empty slice. */
  function SliceSpan(start: int, stop: int, len: nat): (s: Span)
    ensures s.lo <= s.hi <= len
    ensures s.lo == ClampIndex(start, len)
    ensures s.Extent() == if ClampIndex(stop, len) <= ClampIndex(start, len) then 0
                          else ClampIndex(stop, len) - ClampIndex(start, len)
  {
    var lo := ClampIndex(start, len);
    var hi := ClampIndex(stop, len);
    Span(lo, if hi < lo then lo else hi)
  }

  function RowSpan(img: Image, box: Rect): Span {
    SliceSpan(box.top, box.bottom, |img.rows|)
  }

  function ColSpan(img: Image, box: Rect): Span {
    SliceSpan(box.left, box.right, img.width)
  }

  /** `img[box.top:box.bottom, box.left:box.right]` with numpy semantics. */
  function Crop(img: Image, box: Rect): (r: Image)
    ensures |r.rows| == RowSpan(img, box).Extent() && r.width == ColSpan(img, box).Extent()
    ensures forall i, j :: 0 <= i < |r.rows| && 0 <= j < r.width ==>
              r.rows[i][j] == img.rows[RowSpan(img, box).lo + i][ColSpan(img, box).lo + j]
  {
    var rs := RowSpan(img, box);
    var cs := ColSpan(img, box);
    Frame(cs.hi - cs.lo, seq(rs.hi - rs.lo, i requires 0 <= i < rs.hi - rs.lo => img.rows[rs.lo + i][cs.lo..cs.hi]))
  }

  /** Inside the image a crop is exactly the pixels of the box. */
  lemma CropInsideImage(img: Image, box: Rect)
    requires 0 <= box.top <= box.bottom <= |img.rows|
    requires 0 <= box.left <= box.right <= img.width
    ensures |Crop(img, box).rows| == box.Height() && Crop(img, box).width == box.Width()
    ensures forall i, j :: 0 <= i < box.Height() && 0 <= j < box.Width() ==>
              Crop(img, box).rows[i][j] == img.rows[box.top + i][box.left + j]
  {
  }

  /** With every coordinate inside the image, the crop is empty exactly when
      the box is degenerate or inverted on some axis. */
  lemma CropEmptyIffDegenerate(img: Image, box: Rect)
    requires 0 <= box.top <= |img.rows| && 0 <= box.bottom <= |img.rows|
    requires 0 <= box.left <= img.width && 0 <= box.right <= img.width
    ensures Crop(img, box).Size() == 0 <==> box.bottom <= box.top || box.right <= box.left
  {
  }

  /** A crop that has gone past the left edge of the screen does not start at
      column 0: numpy counts the negative index from the right edge. */
  lemma CropPastLeftEdgeWraps(img: Image, box: Rect)
    requires box.left < 0 <= img.width + box.left
    requires 0 <= box.right <= img.width
    ensures ColSpan(img, box).lo == img.width + box.left
    ensures Crop(img, box).width == if box.right <= img.width + box.left then 0
                                    else box.right - (img.width + box.left)
  {
  }

  /** When the window has the rectangles it had at discovery and is not
      fullscreen, the crop box is exactly as tall as the client area, and as
      wide as it up to the one pixel lost when the border difference is odd. */
  lemma CropBoxMatchesClient(screenHeight: int, outer: Rect, client: Rect)
    requires !IsFullscreen(screenHeight, outer)
    ensures var off := WindowOffset(outer, client);
            var box := CropBox(outer, off, TitleOffset(screenHeight, outer, client, off));
            box.Height() == client.bottom &&
            box.Width() == client.right + (outer.Width() - client.right) % 2
  {
  }

  /** In fullscreen no title bar is removed: the crop keeps all but the bottom border. */
  lemma CropBoxFullscreen(screenHeight: int, outer: Rect, client: Rect, off: int)
    requires IsFullscreen(screenHeight, outer)
    ensures CropBox(outer, off, TitleOffset(screenHeight, outer, client, off)).Height() == screenHeight - off
  {
  }

  /** An 800-pixel-wide window around a 780-pixel client area has a 10-pixel border. */
  lemma WindowOffsetExample()
    ensures WindowOffset(Rect(100, 100, 900, 700), Rect(0, 0, 780, 580)) == 10
  {
  }

  /** A 620-pixel-high window around a 580-pixel client area with a 10-pixel
      border has a 30-pixel title bar. */
  lemma TitleOffsetExample()
    ensures TitleOffset(1080, Rect(100, 100, 900, 720), Rect(0, 0, 780, 580), 10) == 30
  {
  }
}

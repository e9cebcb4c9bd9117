/** The one HTML canvas `generateIcons` draws every icon on, with the three
    calls of its 2D context that the generator makes. Pixels are not
    modelled: the bitmap is represented by the paint operations applied
    since it was last blank, and PNG encoding keeps only that picture and
    the canvas dimensions. */
module Canvas2D {

  /** The decoded upload (`new Image()` after `onload`). */
  datatype SourceImage = SourceImage(width: nat, height: nat, pixels: seq<int>)

  /** A paint operation that leaves a mark on the bitmap. */
  datatype Paint =
    | Drawn(image: SourceImage, dx: int, dy: int, dw: int, dh: int)
    | Cleared(x: int, y: int, w: int, h: int)

  /** What `toDataURL('image/png')` yields, abstracted: the encoded
      dimensions and the picture that was on the canvas. */
  datatype PngImage = PngImage(width: nat, height: nat, picture: seq<Paint>)

  /** PNG encoding of a `width` x `height` bitmap, modelled as a record of
      the dimensions and of the paint operations kept since the bitmap was
      last blank. The key and dimension proofs use only the dimensions and
      the fact that the same canvas state encodes to the same PNG. */
  function EncodePng(width: nat, height: nat, picture: seq<Paint>): (png: PngImage)
    ensures png.width == width && png.height == height
  {
    PngImage(width, height, picture)
  }

  class Canvas {
    var width: nat
    var height: nat
    /** Everything painted since the bitmap was last entirely blank. */
    var picture: seq<Paint>

    /** `document.createElement('canvas')`: a blank 300 x 150 bitmap, the
        default size in the HTML standard. */
    constructor ()
      ensures width == 300 && height == 150 && picture == []
    {
      width := 300;
      height := 150;
      picture := [];
    }

    /** Whether the rectangle covers the whole bitmap. */
    predicate Covers(x: int, y: int, w: int, h: int)
      reads this
    {
      x <= 0 && y <= 0 && x + w >= width && y + h >= height
    }

    /** `ctx.clearRect(x, y, w, h)`: a rectangle that covers the whole bitmap
        leaves it blank; any other rectangle is one more mark on it. */
    method ClearRect(x: int, y: int, w: int, h: int)
      modifies this`picture
      ensures Covers(x, y, w, h) ==> picture == []
      ensures !Covers(x, y, w, h) ==> picture == old(picture) + [Cleared(x, y, w, h)]
    {
      if Covers(x, y, w, h) {
        picture := [];
      } else {
        picture := picture + [Cleared(x, y, w, h)];
      }
    }

    /** `ctx.drawImage(image, dx, dy, dw, dh)`: the whole image, scaled to the
        destination rectangle whatever its own aspect ratio. */
    method DrawImage(image: SourceImage, dx: int, dy: int, dw: int, dh: int)
      modifies this`picture
      ensures picture == old(picture) + [Drawn(image, dx, dy, dw, dh)]
    {
      picture := picture + [Drawn(image, dx, dy, dw, dh)];
    }

    /** `canvas.toDataURL('image/png')`. */
    function ToDataUrl(): (png: PngImage)
      reads this
      ensures png.width == width && png.height == height
      ensures png.picture == picture
    {
      EncodePng(width, height, picture)
    }
  }
}

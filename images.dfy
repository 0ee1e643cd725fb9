/**
 * Images and masks as rectangular grids: an image is a sequence of rows of
 * three-channel pixels, a mask a sequence of rows of booleans.  Every step of
 * the pipeline works pixel by pixel, so no operation here needs the rows to
 * be of equal length; shapes are compared row by row.
 */
module Images {

  /** A channel index: 0, 1 or 2 (blue, green, red in BGR order; hue, saturation, value in HSV). */
  type Channel = c: nat | c < 3

  datatype Px<T> = Px(c0: T, c1: T, c2: T) {
    function At(c: Channel): T {
      if c == 0 then c0 else if c == 1 then c1 else c2
    }
  }

  type Image<T> = seq<seq<Px<T>>>

  type Mask = seq<seq<bool>>

  /** A closed interval test, shared by the threshold ranges and the contour bounds. */
  predicate Within(lo: real, x: real, hi: real) {
    lo <= x <= hi
  }

  /** The 8-bit pixel the source images hold. */
  predicate IsByte(v: int) {
    0 <= v <= 255
  }

  predicate ValidPx(p: Px<int>) {
    IsByte(p.c0) && IsByte(p.c1) && IsByte(p.c2)
  }

  predicate ValidImage(img: Image<int>) {
    forall i, j :: 0 <= i < |img| && 0 <= j < |img[i]| ==> ValidPx(img[i][j])
  }

  /** Two grids have the same dimensions, row by row. */
  predicate SameShape<A, B>(a: seq<seq<A>>, b: seq<seq<B>>) {
    |a| == |b| && forall i :: 0 <= i < |a| ==> |a[i]| == |b[i]|
  }

  /** Builds a pixel from a per-channel function. */
  function PxOf<T>(f: Channel -> T): (p: Px<T>)
    ensures forall c: Channel :: p.At(c) == f(c)
  {
    Px(f(0), f(1), f(2))
  }

  /** Applies a per-pixel map to every pixel of an image, producing a new image. */
  function MapImage<A, B>(img: Image<A>, f: Px<A> -> Px<B>): (r: Image<B>)
    ensures SameShape(img, r)
    ensures forall i, j :: 0 <= i < |img| && 0 <= j < |img[i]| ==> r[i][j] == f(img[i][j])
  {
    seq(|img|, i requires 0 <= i < |img| =>
      seq(|img[i]|, j requires 0 <= j < |img[i]| => f(img[i][j])))
  }
}

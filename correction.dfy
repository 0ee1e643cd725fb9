/**
 * The two colour corrections of main.py.  Each copies the image and rebuilds
 * every channel from the same channel of the input, so both are modelled as
 * per-pixel maps lifted over the grid: the input is never changed.
 *
 * level adds max(ref) - ref[c] to channel c and floors the result at 0;
 * remap sends channel c through (v - black[c]) * (255 / (white[c] - black[c]))
 * and caps the result at 255.
 */
module Correction {
  import opened Wrappers
  import opened Images

  function Max(a: int, b: int): int {
    if a < b then b else a
  }

  /** max(bgr_background): the largest of the reference's three channels. */
  function MaxChannel(ref: Px<int>): (m: int)
    ensures forall c: Channel :: ref.At(c) <= m
    ensures m == ref.c0 || m == ref.c1 || m == ref.c2
  {
    Max(Max(ref.c0, ref.c1), ref.c2)
  }

  /** db, dg, dr: how far channel c of the reference lies below its largest channel. */
  function Shift(ref: Px<int>, c: Channel): (d: int)
    ensures d >= 0
    ensures ref.At(c) + d == MaxChannel(ref)
  {
    MaxChannel(ref) - ref.At(c)
  }

  /** One channel of level: shifted by Shift(ref, c), then floored at 0, never capped above. */
  function LevelChannel(v: int, ref: Px<int>, c: Channel): (r: int)
    ensures r >= 0 && r >= v
    ensures v + Shift(ref, c) >= 0 ==> r == v + Shift(ref, c)
    ensures v + Shift(ref, c) < 0 ==> r == 0
  {
    Max(v + Shift(ref, c), 0)
  }

  /** level on one pixel: output channel c depends only on input channel c. */
  function LevelPixel(p: Px<int>, ref: Px<int>): (r: Px<int>)
    ensures forall c: Channel :: r.At(c) == LevelChannel(p.At(c), ref, c)
  {
    PxOf(c => LevelChannel(p.At(c), ref, c))
  }

  /** level(img, bgr_background): a new image of the same dimensions, leveled pixel by pixel. */
  function Level(img: Image<int>, ref: Px<int>): (r: Image<int>)
    ensures SameShape(img, r)
    ensures forall i, j :: 0 <= i < |img| && 0 <= j < |img[i]| ==> r[i][j] == LevelPixel(img[i][j], ref)
  {
    MapImage(img, p => LevelPixel(p, ref))
  }

  /** A reference whose three channels are equal makes level the identity on an 8-bit image. */
  lemma LevelGrayReferenceIsIdentity(img: Image<int>, ref: Px<int>)
    requires ref.c0 == ref.c1 == ref.c2
    requires ValidImage(img)
    ensures Level(img, ref) == img
  {
    var r := Level(img, ref);
    forall i | 0 <= i < |img|
      ensures r[i] == img[i]
    {
      forall j | 0 <= j < |img[i]|
        ensures r[i][j] == img[i][j]
      {
        var p := img[i][j];
        assert ValidPx(p);
        assert LevelPixel(p, ref).At(0) == p.At(0);
        assert LevelPixel(p, ref).At(1) == p.At(1);
        assert LevelPixel(p, ref).At(2) == p.At(2);
      }
    }
    assert r == img;
  }

  /** The reference colour itself is leveled to the gray (m, m, m), m its largest channel. */
  lemma LevelEqualizesReference(ref: Px<int>)
    requires ValidPx(ref)
    ensures LevelPixel(ref, ref) == Px(MaxChannel(ref), MaxChannel(ref), MaxChannel(ref))
  {
  }

  /** level is monotone in each channel. */
  lemma LevelMonotone(v: int, w: int, ref: Px<int>, c: Channel)
    requires v <= w
    ensures LevelChannel(v, ref, c) <= LevelChannel(w, ref, c)
  {
  }

  function Min(a: real, b: real): real {
    if a < b then a else b
  }

  /** One channel of remap: the linear map sending black to 0 and white to 255, capped at 255. */
  function RemapChannel(v: int, white: int, black: int): (r: real)
    requires white != black
    ensures r <= 255.0
    ensures v == black ==> r == 0.0
    ensures v == white ==> r == 255.0
  {
    var scale := 255.0 / (white - black) as real;
    assert (white - black) as real * scale == 255.0;
    Min((v - black) as real * scale, 255.0)
  }

  /** The source divides by white[c] - black[c]; an equal pair of references leaves it no scale. */
  datatype RemapError = EqualReferences(channel: Channel)

  function RemapPixel(p: Px<int>, white: Px<int>, black: Px<int>): (r: Px<real>)
    requires forall c: Channel :: white.At(c) != black.At(c)
    ensures forall c: Channel :: r.At(c) == RemapChannel(p.At(c), white.At(c), black.At(c))
  {
    PxOf(c => RemapChannel(p.At(c), white.At(c), black.At(c)))
  }

  /** remap(img, white, black): a new image of the same dimensions, remapped channel by channel. */
  function Remap(img: Image<int>, white: Px<int>, black: Px<int>): (r: Result<Image<real>, RemapError>)
    ensures r.Failure? <==> exists c: Channel :: white.At(c) == black.At(c)
    ensures r.Success? ==> SameShape(img, r.value)
    ensures r.Success? ==>
              forall i, j :: 0 <= i < |img| && 0 <= j < |img[i]| ==>
                forall c: Channel :: r.value[i][j].At(c) == RemapChannel(img[i][j].At(c), white.At(c), black.At(c))
  {
    if white.At(0) == black.At(0) then Failure(EqualReferences(0))
    else if white.At(1) == black.At(1) then Failure(EqualReferences(1))
    else if white.At(2) == black.At(2) then Failure(EqualReferences(2))
    else Success(MapImage(img, p => RemapPixel(p, white, black)))
  }

  /** With white above black, remap is monotone non-decreasing in each channel. */
  lemma RemapMonotone(v: int, w: int, white: int, black: int)
    requires white > black && v <= w
    ensures RemapChannel(v, white, black) <= RemapChannel(w, white, black)
  {
    var scale := 255.0 / (white - black) as real;
    assert scale > 0.0;
    assert (v - black) as real * scale <= (w - black) as real * scale;
  }

  /** Between black and white (inclusive) remap stays within [0, 255] and the cap does not bite. */
  lemma RemapBetweenReferences(v: int, white: int, black: int)
    requires black <= v <= white && black < white
    ensures 0.0 <= RemapChannel(v, white, black) <= 255.0
    ensures RemapChannel(v, white, black) == (v - black) as real * 255.0 / (white - black) as real
  {
  }

  /** Remapping with white (255, 255, 255) and black (0, 0, 0) leaves an 8-bit image as it is. */
  lemma RemapFullRangeIsIdentity(img: Image<int>)
    requires ValidImage(img)
    ensures Remap(img, Px(255, 255, 255), Px(0, 0, 0)).Success?
    ensures forall i, j :: 0 <= i < |img| && 0 <= j < |img[i]| ==>
              forall c: Channel :: Remap(img, Px(255, 255, 255), Px(0, 0, 0)).value[i][j].At(c) == img[i][j].At(c) as real
  {
  }
}

/**
 * The colour sample of get_center_color in center.py: cv2.mean of the masked
 * image under the mask (the per-channel mean over the selected pixels, 0 when
 * none is selected), each channel then rounded by Python's round.  Sums and
 * counts are exact integers and the mean is the exact rational Sum / Count.
 */
module Sampler {
  import opened Images
  import opened Threshold

  function Abs(x: int): nat {
    if x < 0 then -x else x
  }

  function RowCount(mrow: seq<bool>): nat {
    if mrow == [] then 0 else (if mrow[0] then 1 else 0) + RowCount(mrow[1..])
  }

  /** The number of selected cells of a mask. */
  function Count(m: Mask): nat {
    if m == [] then 0 else RowCount(m[0]) + Count(m[1..])
  }

  function RowSum(row: seq<Px<int>>, mrow: seq<bool>, c: Channel): int
    requires |row| == |mrow|
  {
    if row == [] then 0
    else (if mrow[0] then row[0].At(c) else 0) + RowSum(row[1..], mrow[1..], c)
  }

  /** The sum of channel c over the selected pixels. */
  function Sum(img: Image<int>, m: Mask, c: Channel): int
    requires SameShape(img, m)
  {
    if img == [] then 0
    else
      assert SameShape(img[1..], m[1..]) by {
        forall i | 0 <= i < |img[1..]| ensures |img[1..][i]| == |m[1..][i]| {
          assert img[1..][i] == img[i + 1];
        }
      }
      RowSum(img[0], m[0], c) + Sum(img[1..], m[1..], c)
  }

  /** Python's round of n / d: the nearest integer, ties to the even one. */
  function RoundHalfEven(n: int, d: int): (r: int)
    requires d > 0
    ensures 2 * Abs(n - r * d) <= d
    ensures 2 * Abs(n - r * d) == d ==> r % 2 == 0
  {
    var q, rem := n / d, n % d;
    assert n == q * d + rem && 0 <= rem < d;
    assert n - (q + 1) * d == rem - d;
    if 2 * rem < d then q
    else if 2 * rem > d then q + 1
    else if q % 2 == 0 then q
    else q + 1
  }

  /**
   * One channel of the sample: the nearest integer to the mean over the
   * selected pixels, the even one at an exact half as Python's round, and 0
   * under a mask that selects nothing.
   */
  function MeanChannel(img: Image<int>, m: Mask, c: Channel): (r: int)
    requires SameShape(img, m)
    ensures Count(m) > 0 ==> 2 * Abs(Sum(img, m, c) - r * Count(m)) <= Count(m)
    ensures Count(m) > 0 && 2 * Abs(Sum(img, m, c) - r * Count(m)) == Count(m) ==> r % 2 == 0
    ensures Count(m) == 0 ==> r == 0
  {
    if Count(m) == 0 then 0 else RoundHalfEven(Sum(img, m, c), Count(m))
  }

  /** bgr_center: the rounded per-channel mean colour of the selected region. */
  function MeanColor(img: Image<int>, m: Mask): (p: Px<int>)
    requires SameShape(img, m)
    ensures forall c: Channel :: p.At(c) == MeanChannel(img, m, c)
  {
    PxOf(c => MeanChannel(img, m, c))
  }

  /** Every selected pixel has channel c in [lo, hi]. */
  ghost predicate SelectedWithin(img: Image<int>, m: Mask, c: Channel, lo: int, hi: int)
    requires SameShape(img, m)
  {
    forall i, j :: 0 <= i < |img| && 0 <= j < |img[i]| && m[i][j] ==> lo <= img[i][j].At(c) <= hi
  }

  lemma {:induction false} RowSumBounds(row: seq<Px<int>>, mrow: seq<bool>, c: Channel, lo: int, hi: int)
    requires |row| == |mrow|
    requires forall j :: 0 <= j < |row| && mrow[j] ==> lo <= row[j].At(c) <= hi
    ensures lo * RowCount(mrow) <= RowSum(row, mrow, c) <= hi * RowCount(mrow)
    decreases |row|
  {
    if row != [] {
      forall j | 0 <= j < |row[1..]| && mrow[1..][j]
        ensures lo <= row[1..][j].At(c) <= hi
      {
        assert row[1..][j] == row[j + 1];
      }
      RowSumBounds(row[1..], mrow[1..], c, lo, hi);
      Distribute(lo, RowCount(mrow[1..]), 1);
      Distribute(hi, RowCount(mrow[1..]), 1);
    }
  }

  lemma Distribute(x: int, a: int, b: int)
    ensures x * (a + b) == x * a + x * b
  {
  }

  /** The rows after the first still match the mask's and still lie within [lo, hi]. */
  lemma TailWithin(img: Image<int>, m: Mask, c: Channel, lo: int, hi: int)
    requires img != [] && SameShape(img, m) && SelectedWithin(img, m, c, lo, hi)
    ensures SameShape(img[1..], m[1..]) && SelectedWithin(img[1..], m[1..], c, lo, hi)
  {
    assert SameShape(img[1..], m[1..]) by {
      forall i | 0 <= i < |img[1..]| ensures |img[1..][i]| == |m[1..][i]| {
        assert img[1..][i] == img[i + 1];
      }
    }
    forall i, j | 0 <= i < |img[1..]| && 0 <= j < |img[1..][i]| && m[1..][i][j]
      ensures lo <= img[1..][i][j].At(c) <= hi
    {
      assert img[1..][i] == img[i + 1];
      assert m[1..][i] == m[i + 1];
    }
  }

  /** Values within [lo, hi] sum to between lo and hi times their number. */
  lemma {:induction false} SumBounds(img: Image<int>, m: Mask, c: Channel, lo: int, hi: int)
    requires SameShape(img, m) && SelectedWithin(img, m, c, lo, hi)
    ensures lo * Count(m) <= Sum(img, m, c) <= hi * Count(m)
    decreases |img|
  {
    if img != [] {
      RowSumBounds(img[0], m[0], c, lo, hi);
      TailWithin(img, m, c, lo, hi);
      SumBounds(img[1..], m[1..], c, lo, hi);
      Distribute(lo, RowCount(m[0]), Count(m[1..]));
      Distribute(hi, RowCount(m[0]), Count(m[1..]));
    }
  }

  lemma PositiveFactor(x: int, d: int)
    requires d > 0 && x * d > 0
    ensures x > 0
  {
  }

  /** Rounding a rational between lo and hi stays between lo and hi. */
  lemma RoundWithin(n: int, d: int, lo: int, hi: int)
    requires d > 0 && lo * d <= n <= hi * d
    ensures lo <= RoundHalfEven(n, d) <= hi
  {
    var r := RoundHalfEven(n, d);
    assert 2 * (n - r * d) <= d && 2 * (r * d - n) <= d;
    assert (r - lo + 1) * d == r * d - lo * d + d;
    PositiveFactor(r - lo + 1, d);
    assert (hi + 1 - r) * d == hi * d + d - r * d;
    PositiveFactor(hi + 1 - r, d);
  }

  /** When the selected pixels all have channel c in [lo, hi], so has the sampled colour. */
  lemma MeanWithin(img: Image<int>, m: Mask, c: Channel, lo: int, hi: int)
    requires SameShape(img, m) && SelectedWithin(img, m, c, lo, hi)
    requires Count(m) > 0
    ensures lo <= MeanColor(img, m).At(c) <= hi
  {
    SumBounds(img, m, c, lo, hi);
    RoundWithin(Sum(img, m, c), Count(m), lo, hi);
  }

  /** The sample of an 8-bit image is an 8-bit colour, so converting it back to uint8 does not wrap. */
  lemma MeanIsByte(img: Image<int>, m: Mask)
    requires SameShape(img, m) && ValidImage(img)
    ensures ValidPx(MeanColor(img, m))
  {
    if Count(m) > 0 {
      MeanWithin(img, m, 0, 0, 255);
      MeanWithin(img, m, 1, 0, 255);
      MeanWithin(img, m, 2, 0, 255);
    }
  }

  /** A region filled with one colour q is sampled as exactly q. */
  lemma MeanOfUniformRegion(img: Image<int>, m: Mask, q: Px<int>)
    requires SameShape(img, m) && Count(m) > 0
    requires forall i, j :: 0 <= i < |img| && 0 <= j < |img[i]| && m[i][j] ==> img[i][j] == q
    ensures MeanColor(img, m) == q
  {
    MeanWithin(img, m, 0, q.c0, q.c0);
    MeanWithin(img, m, 1, q.c1, q.c1);
    MeanWithin(img, m, 2, q.c2, q.c2);
  }

  lemma {:induction false} RowSumAgrees(a: seq<Px<int>>, b: seq<Px<int>>, mrow: seq<bool>, c: Channel)
    requires |a| == |mrow| && |b| == |mrow|
    requires forall j :: 0 <= j < |mrow| && mrow[j] ==> a[j] == b[j]
    ensures RowSum(a, mrow, c) == RowSum(b, mrow, c)
    decreases |mrow|
  {
    if mrow != [] {
      forall j | 0 <= j < |mrow[1..]| && mrow[1..][j]
        ensures a[1..][j] == b[1..][j]
      {
        assert a[1..][j] == a[j + 1] && b[1..][j] == b[j + 1];
      }
      RowSumAgrees(a[1..], b[1..], mrow[1..], c);
    }
  }

  /** Sums over a mask only see the selected pixels. */
  lemma {:induction false} SumAgrees(a: Image<int>, b: Image<int>, m: Mask, c: Channel)
    requires SameShape(a, m) && SameShape(b, m)
    requires forall i, j :: 0 <= i < |m| && 0 <= j < |m[i]| && m[i][j] ==> a[i][j] == b[i][j]
    ensures Sum(a, m, c) == Sum(b, m, c)
    decreases |m|
  {
    if m != [] {
      RowSumAgrees(a[0], b[0], m[0], c);
      assert SameShape(a[1..], m[1..]) && SameShape(b[1..], m[1..]) by {
        forall i | 0 <= i < |m[1..]| ensures |a[1..][i]| == |m[1..][i]| == |b[1..][i]| {
          assert a[1..][i] == a[i + 1] && b[1..][i] == b[i + 1] && m[1..][i] == m[i + 1];
        }
      }
      forall i, j | 0 <= i < |m[1..]| && 0 <= j < |m[1..][i]| && m[1..][i][j]
        ensures a[1..][i][j] == b[1..][i][j]
      {
        assert a[1..][i] == a[i + 1] && b[1..][i] == b[i + 1] && m[1..][i] == m[i + 1];
      }
      SumAgrees(a[1..], b[1..], m[1..], c);
    }
  }

  /** Sampling the masked image under its mask gives the colour of the source's selected pixels. */
  lemma MaskedSampleIsSourceSample(img: Image<int>, m: Mask)
    requires SameShape(img, m)
    ensures SameShape(ApplyMask(img, m).value, m)
    ensures MeanColor(ApplyMask(img, m).value, m) == MeanColor(img, m)
  {
    var masked := ApplyMask(img, m).value;
    SumAgrees(masked, img, m, 0);
    SumAgrees(masked, img, m, 1);
    SumAgrees(masked, img, m, 2);
  }
}

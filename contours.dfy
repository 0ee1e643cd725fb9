/**
 * filter_contours from center.py: keeps the contours whose bounding box,
 * area, closed perimeter, solidity, vertex count and width/height ratio all
 * lie within the configured bounds.
 *
 * A contour is an abstract value: its points (the vertex count is their
 * number) together with the geometry OpenCV measures on it (boundingRect's
 * width and height, contourArea, the closed arcLength and the area of its
 * convexHull), recorded as fields.
 */
module Contours {
  import opened Wrappers
  import opened Images

  type Point = (int, int)

  datatype Contour = Contour(
    points: seq<Point>,
    width: int,
    height: int,
    area: real,
    perimeter: real,
    hullArea: real)

  /** The twelve bounds the source passes to filter_contours; solidity is its two-element list. */
  datatype Criteria = Criteria(
    minArea: real,
    minPerimeter: real,
    minWidth: real,
    maxWidth: real,
    minHeight: real,
    maxHeight: real,
    minSolidity: real,
    maxSolidity: real,
    maxVertexCount: real,
    minVertexCount: real,
    minRatio: real,
    maxRatio: real)

  /** The two float divisions of the filter raise ZeroDivisionError on a zero divisor. */
  datatype FilterError = ZeroHullArea | ZeroHeight

  datatype Decision = Keep | Reject | Raise(error: FilterError)

  /** 100 * area / hullArea. */
  function Solidity(c: Contour): real
    requires c.hullArea != 0.0
  {
    100.0 * c.area / c.hullArea
  }

  /** float(width) / height. */
  function Ratio(c: Contour): real
    requires c.height != 0
  {
    c.width as real / c.height as real
  }

  /** The four checks that come before the first division. */
  predicate PassesSize(c: Contour, k: Criteria) {
    && Within(k.minWidth, c.width as real, k.maxWidth)
    && Within(k.minHeight, c.height as real, k.maxHeight)
    && k.minArea <= c.area
    && k.minPerimeter <= c.perimeter
  }

  /** The seven criteria as closed intervals (area and perimeter bounded below only). */
  predicate Accepted(c: Contour, k: Criteria) {
    && PassesSize(c, k)
    && c.hullArea != 0.0 && Within(k.minSolidity, Solidity(c), k.maxSolidity)
    && Within(k.minVertexCount, |c.points| as real, k.maxVertexCount)
    && c.height != 0 && Within(k.minRatio, Ratio(c), k.maxRatio)
  }

  /**
   * The loop body of filter_contours for one contour: rejected at the first
   * strict comparison that fails, or raising at a zero divisor.
   */
  function Decide(c: Contour, k: Criteria): (d: Decision)
    ensures d == Keep <==> Accepted(c, k)
    ensures d == Raise(ZeroHullArea) <==> PassesSize(c, k) && c.hullArea == 0.0
    ensures d == Raise(ZeroHeight) <==>
              && PassesSize(c, k)
              && c.hullArea != 0.0 && Within(k.minSolidity, Solidity(c), k.maxSolidity)
              && Within(k.minVertexCount, |c.points| as real, k.maxVertexCount)
              && c.height == 0
  {
    if c.width as real < k.minWidth || c.width as real > k.maxWidth then Reject
    else if c.height as real < k.minHeight || c.height as real > k.maxHeight then Reject
    else if c.area < k.minArea then Reject
    else if c.perimeter < k.minPerimeter then Reject
    else if c.hullArea == 0.0 then Raise(ZeroHullArea)
    else if Solidity(c) < k.minSolidity || Solidity(c) > k.maxSolidity then Reject
    else if (|c.points| as real) < k.minVertexCount || (|c.points| as real) > k.maxVertexCount then Reject
    else if c.height == 0 then Raise(ZeroHeight)
    else if Ratio(c) < k.minRatio || Ratio(c) > k.maxRatio then Reject
    else Keep
  }

  /** Puts kept contours in front of a later result, passing a failure through. */
  function Prepend(kept: seq<Contour>, rest: Result<seq<Contour>, FilterError>): Result<seq<Contour>, FilterError> {
    match rest
    case Success(v) => Success(kept + v)
    case Failure(e) => Failure(e)
  }

  lemma PrependNothing(rest: Result<seq<Contour>, FilterError>)
    ensures Prepend([], rest) == rest
  {
    if rest.Success? {
      assert [] + rest.value == rest.value;
    }
  }

  lemma PrependTwice(a: seq<Contour>, b: seq<Contour>, rest: Result<seq<Contour>, FilterError>)
    ensures Prepend(a, Prepend(b, rest)) == Prepend(a + b, rest)
  {
    if rest.Success? {
      assert a + (b + rest.value) == (a + b) + rest.value;
    }
  }

  /** What filter_contours returns or raises, contour by contour from the front. */
  function Filter(cs: seq<Contour>, k: Criteria): Result<seq<Contour>, FilterError> {
    if cs == [] then Success([])
    else
      match Decide(cs[0], k)
      case Raise(e) => Failure(e)
      case Reject => Filter(cs[1..], k)
      case Keep => Prepend([cs[0]], Filter(cs[1..], k))
  }

  /** a is b with some elements left out, in the same order. */
  ghost predicate Subsequence<T>(a: seq<T>, b: seq<T>)
    decreases |b|
  {
    if a == [] then true
    else if b == [] then false
    else (a[0] == b[0] && Subsequence(a[1..], b[1..])) || Subsequence(a, b[1..])
  }

  /**
   * filter_contours as the source writes it: a loop that skips a contour at
   * the first failing check and appends the others to the output.
   */
  method FilterContours(inputContours: seq<Contour>, k: Criteria) returns (r: Result<seq<Contour>, FilterError>)
    ensures r == Filter(inputContours, k)
  {
    var output: seq<Contour> := [];
    PrependNothing(Filter(inputContours, k));
    for idx := 0 to |inputContours|
      invariant Filter(inputContours, k) == Prepend(output, Filter(inputContours[idx..], k))
    {
      assert inputContours[idx..][1..] == inputContours[idx + 1..];
      var contour := inputContours[idx];
      var w, h := contour.width, contour.height;
      if w as real < k.minWidth || w as real > k.maxWidth {
        continue;
      }
      if h as real < k.minHeight || h as real > k.maxHeight {
        continue;
      }
      var area := contour.area;
      if area < k.minArea {
        continue;
      }
      if contour.perimeter < k.minPerimeter {
        continue;
      }
      if contour.hullArea == 0.0 {
        return Failure(ZeroHullArea);
      }
      var solid := 100.0 * area / contour.hullArea;
      if solid < k.minSolidity || solid > k.maxSolidity {
        continue;
      }
      if (|contour.points| as real) < k.minVertexCount || (|contour.points| as real) > k.maxVertexCount {
        continue;
      }
      if h == 0 {
        return Failure(ZeroHeight);
      }
      var ratio := w as real / h as real;
      if ratio < k.minRatio || ratio > k.maxRatio {
        continue;
      }
      PrependTwice(output, [contour], Filter(inputContours[idx + 1..], k));
      output := output + [contour];
    }
    assert output + [] == output;
    return Success(output);
  }

  /** The output never adds, duplicates or reorders contours. */
  lemma {:induction false} FilterIsSubsequence(cs: seq<Contour>, k: Criteria)
    requires Filter(cs, k).Success?
    ensures Subsequence(Filter(cs, k).value, cs)
    decreases |cs|
  {
    if cs != [] {
      FilterIsSubsequence(cs[1..], k);
      var rest := Filter(cs[1..], k).value;
      if Decide(cs[0], k) == Keep {
        var out := [cs[0]] + rest;
        assert out[1..] == rest;
      } else if rest != [] {
        assert Subsequence(rest, cs[1..]);
      }
    }
  }

  /** A contour is in the output iff it is in the input and meets all seven criteria. */
  lemma {:induction false} FilterMembers(cs: seq<Contour>, k: Criteria, c: Contour)
    requires Filter(cs, k).Success?
    ensures c in Filter(cs, k).value <==> c in cs && Accepted(c, k)
    decreases |cs|
  {
    if cs != [] {
      FilterMembers(cs[1..], k, c);
      assert cs == [cs[0]] + cs[1..];
    }
  }

  /** FilterMembers for every contour at once. */
  lemma FilterMembersAll(cs: seq<Contour>, k: Criteria)
    requires Filter(cs, k).Success?
    ensures forall c :: c in Filter(cs, k).value <==> c in cs && Accepted(c, k)
  {
    forall c
      ensures c in Filter(cs, k).value <==> c in cs && Accepted(c, k)
    {
      FilterMembers(cs, k, c);
    }
  }

  /** The filter fails iff some contour reaches a zero divisor, and it then raises the first one's error. */
  lemma {:induction false} FilterFailure(cs: seq<Contour>, k: Criteria)
    ensures Filter(cs, k).Failure? <==> exists i :: 0 <= i < |cs| && Decide(cs[i], k).Raise?
    ensures Filter(cs, k).Failure? ==>
              exists i :: 0 <= i < |cs| && Decide(cs[i], k) == Raise(Filter(cs, k).error) &&
                forall j :: 0 <= j < i ==> !Decide(cs[j], k).Raise?
    decreases |cs|
  {
    if cs != [] {
      FilterFailure(cs[1..], k);
      if Decide(cs[0], k).Raise? {
        assert Decide(cs[0], k) == Raise(Filter(cs, k).error);
      } else if Filter(cs, k).Failure? {
        var i :| 0 <= i < |cs[1..]| && Decide(cs[1..][i], k) == Raise(Filter(cs, k).error) &&
                 forall j :: 0 <= j < i ==> !Decide(cs[1..][j], k).Raise?;
        assert Decide(cs[i + 1], k) == Raise(Filter(cs, k).error);
        forall j | 0 <= j < i + 1
          ensures !Decide(cs[j], k).Raise?
        {
          if j > 0 {
            assert cs[j] == cs[1..][j - 1];
          }
        }
      } else {
        forall i | 0 <= i < |cs|
          ensures !Decide(cs[i], k).Raise?
        {
          if i > 0 {
            assert cs[i] == cs[1..][i - 1];
          }
        }
      }
    }
  }

  /** Contours that all meet the criteria pass through unchanged. */
  lemma {:induction false} FilterKeepsAccepted(cs: seq<Contour>, k: Criteria)
    requires forall i :: 0 <= i < |cs| ==> Accepted(cs[i], k)
    ensures Filter(cs, k) == Success(cs)
    decreases |cs|
  {
    if cs != [] {
      FilterKeepsAccepted(cs[1..], k);
      assert [cs[0]] + cs[1..] == cs;
    }
  }

  /** Filtering the output again with the same criteria returns it unchanged. */
  lemma FilterIdempotent(cs: seq<Contour>, k: Criteria)
    requires Filter(cs, k).Success?
    ensures Filter(Filter(cs, k).value, k) == Filter(cs, k)
  {
    var out := Filter(cs, k).value;
    forall i | 0 <= i < |out|
      ensures Accepted(out[i], k)
    {
      FilterMembers(cs, k, out[i]);
    }
    FilterKeepsAccepted(out, k);
  }

  /**
   * Area and perimeter are bounded below only: an accepted contour grown by a
   * factor t >= 1 in area, hull area and perimeter (same box, same vertices)
   * is still accepted.
   */
  lemma GrownContourAccepted(c: Contour, k: Criteria, t: real)
    requires Accepted(c, k)
    requires c.area >= 0.0 && c.perimeter >= 0.0 && t >= 1.0
    ensures Accepted(c.(area := t * c.area, hullArea := t * c.hullArea, perimeter := t * c.perimeter), k)
  {
    var g := c.(area := t * c.area, hullArea := t * c.hullArea, perimeter := t * c.perimeter);
    assert Solidity(g) == Solidity(c) by {
      assert 100.0 * (t * c.area) == t * (100.0 * c.area);
    }
    assert t * c.area >= c.area;
    assert t * c.perimeter >= c.perimeter;
  }
}

/**
 * Core Graphics quantities used by the editor. Every `CGFloat` is an exact `real`, so the
 * transforms below are exact affine maps; IEEE rounding, infinities and NaN are not modelled.
 * The two conversions the source makes from `CGFloat` to `Int` are written out:
 * `Int(_:)` truncates toward zero, and `.rounded(.toNearestOrEven)` rounds half to even.
 */
module Geometry {

  datatype Point = Point(x: real, y: real)

  datatype Size = Size(width: real, height: real)

  const ZeroSize: Size := Size(0.0, 0.0)

  // The componentwise `CGSize` operators `+`, `*` and `/` the view uses.

  function Plus(a: Size, b: Size): Size {
    Size(a.width + b.width, a.height + b.height)
  }

  function Times(a: Size, k: real): Size {
    Size(a.width * k, a.height * k)
  }

  function Over(a: Size, k: real): Size
    requires k != 0.0
  {
    Size(a.width / k, a.height / k)
  }

  function Abs(v: real): real {
    if v < 0.0 then -v else v
  }

  function Min(a: real, b: real): (m: real)
    ensures m <= a && m <= b && (m == a || m == b)
  {
    if b < a then b else a
  }

  /** `Int(v)` for a `CGFloat` v: the integer part, truncating toward zero. */
  function TruncatedInt(v: real): (n: int)
    ensures 0.0 <= v ==> n as real <= v < n as real + 1.0
    ensures v < 0.0 ==> n as real - 1.0 < v <= n as real
  {
    if 0.0 <= v then v.Floor else -((-v).Floor)
  }

  /** `Int(v.rounded(.toNearestOrEven))`: the nearest integer, ties going to the even one. */
  function RoundedToNearestOrEven(v: real): (n: int)
    ensures Abs(n as real - v) <= 0.5
    ensures Abs(n as real - v) == 0.5 ==> n % 2 == 0
  {
    var f := v.Floor;
    var d := v - f as real;
    if d < 0.5 then f
    else if 0.5 < d then f + 1
    else if f % 2 == 0 then f
    else f + 1
  }

  /** The contract of TruncatedInt admits exactly one integer. */
  lemma TruncationIsDetermined(v: real, n: int)
    requires 0.0 <= v ==> n as real <= v < n as real + 1.0
    requires v < 0.0 ==> n as real - 1.0 < v <= n as real
    ensures n == TruncatedInt(v)
  {
  }

  /** The contract of RoundedToNearestOrEven admits exactly one integer. */
  lemma RoundingIsDetermined(v: real, n: int)
    requires Abs(n as real - v) <= 0.5
    requires Abs(n as real - v) == 0.5 ==> n % 2 == 0
    ensures n == RoundedToNearestOrEven(v)
  {
  }

  /** Converting a whole number loses nothing: moving by whole points and scaling by 1 are exact. */
  lemma IntegersConvertExactly(n: int)
    ensures TruncatedInt(n as real) == n
    ensures RoundedToNearestOrEven(n as real) == n
  {
  }

  /** The zoom that fits an image of the given size into the viewport (`zoomToFit`). */
  function FitScale(image: Size, viewport: Size): real
    requires image.width > 0.0 && image.height > 0.0
  {
    Min(viewport.width / image.width, viewport.height / image.height)
  }

  /**
   * A viewport with no width or no height gives a fitting zoom of 0, after which the view
   * divides by its zoom scale.
   */
  lemma FitScaleOfEmptyViewport(image: Size, viewport: Size)
    requires image.width > 0.0 && image.height > 0.0
    requires viewport.width >= 0.0 && viewport.height >= 0.0
    requires viewport.width == 0.0 || viewport.height == 0.0
    ensures FitScale(image, viewport) == 0.0
  {
    assert viewport.width / image.width >= 0.0;
    assert viewport.height / image.height >= 0.0;
  }

  /** At the fitting zoom the image fits in both directions and fills at least one of them. */
  lemma FitScaleFits(image: Size, viewport: Size)
    requires image.width > 0.0 && image.height > 0.0
    ensures image.width * FitScale(image, viewport) <= viewport.width
    ensures image.height * FitScale(image, viewport) <= viewport.height
    ensures image.width * FitScale(image, viewport) == viewport.width
         || image.height * FitScale(image, viewport) == viewport.height
  {
    var h := viewport.width / image.width;
    var v := viewport.height / image.height;
    assert image.width * h == viewport.width;
    assert image.height * v == viewport.height;
    var z := FitScale(image, viewport);
    assert z <= h && z <= v;
    assert image.width * z <= image.width * h;
    assert image.height * z <= image.height * v;
  }
}

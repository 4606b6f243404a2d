/** The raster images that flow through the pipeline: what cv2.imread returns
    and cv2.imwrite accepts, an 8-bit, 3-channel (BGR) array of rows. */
module Imaging {

  datatype Option<+T> = None | Some(value: T)

  /** One 8-bit channel value (numpy uint8). */
  type Byte = v: int | 0 <= v < 256

  const Channels := 3

  /** Rectangular: every row has the width of the first, every pixel has three channels. */
  predicate IsRaster(px: seq<seq<seq<Byte>>>) {
    && (forall y :: 0 <= y < |px| ==> |px[y]| == |px[0]|)
    && (forall y, x :: 0 <= y < |px| && 0 <= x < |px[y]| ==> |px[y][x]| == Channels)
  }

  /** An image, indexed img[row][column][channel]. */
  type Image = px: seq<seq<seq<Byte>>> | IsRaster(px) witness []

  function Height(img: Image): nat { |img| }

  function Width(img: Image): nat { if |img| == 0 then 0 else |img[0]| }

  predicate SameDims(a: Image, b: Image) {
    Height(a) == Height(b) && Width(a) == Width(b)
  }

  /** Every channel value of the image equals v. */
  predicate Uniform(img: Image, v: Byte) {
    forall y, x, c :: 0 <= y < |img| && 0 <= x < |img[y]| && 0 <= c < |img[y][x]| ==> img[y][x][c] == v
  }

  // ---------------------------------------------------------------------------
  // Total intensity (the sum of every channel value). Two images of the same
  // dimensions hold the same number of values, so comparing totals compares means.

  function PixelSum(p: seq<int>): int {
    if p == [] then 0 else p[0] + PixelSum(p[1..])
  }

  function RowSum(row: seq<seq<int>>): int {
    if row == [] then 0 else PixelSum(row[0]) + RowSum(row[1..])
  }

  function Total(img: seq<seq<seq<int>>>): int {
    if img == [] then 0 else RowSum(img[0]) + Total(img[1..])
  }

  /** Pointwise comparison of two equally shaped value arrays, at each depth:
      Below* says every value of a is at most the matching value of b,
      Raised* says some value of a is strictly smaller than its match in b. */
  predicate BelowPixel(p: seq<int>, q: seq<int>) {
    |p| == |q| && forall c :: 0 <= c < |p| ==> p[c] <= q[c]
  }

  predicate RaisedPixel(p: seq<int>, q: seq<int>)
    requires |p| == |q|
  {
    exists c :: 0 <= c < |p| && p[c] < q[c]
  }

  predicate BelowRow(a: seq<seq<int>>, b: seq<seq<int>>) {
    |a| == |b| && forall x :: 0 <= x < |a| ==> BelowPixel(a[x], b[x])
  }

  predicate RaisedRow(a: seq<seq<int>>, b: seq<seq<int>>)
    requires BelowRow(a, b)
  {
    exists x :: 0 <= x < |a| && RaisedPixel(a[x], b[x])
  }

  predicate Below(a: seq<seq<seq<int>>>, b: seq<seq<seq<int>>>) {
    |a| == |b| && forall y :: 0 <= y < |a| ==> BelowRow(a[y], b[y])
  }

  predicate Raised(a: seq<seq<seq<int>>>, b: seq<seq<seq<int>>>)
    requires Below(a, b)
  {
    exists y :: 0 <= y < |a| && RaisedRow(a[y], b[y])
  }

  /** Summing pointwise larger values gives a larger sum, strictly larger exactly
      when some value is strictly larger. */
  lemma {:induction false} PixelSumMonotone(p: seq<int>, q: seq<int>)
    requires BelowPixel(p, q)
    ensures PixelSum(p) <= PixelSum(q)
    ensures PixelSum(p) < PixelSum(q) <==> RaisedPixel(p, q)
  {
    if p != [] {
      assert BelowPixel(p[1..], q[1..]) by {
        forall c | 0 <= c < |p| - 1 ensures p[1..][c] <= q[1..][c] {
          assert p[1..][c] == p[c + 1];
        }
      }
      PixelSumMonotone(p[1..], q[1..]);
      if RaisedPixel(p[1..], q[1..]) {
        var c :| 0 <= c < |p| - 1 && p[1..][c] < q[1..][c];
        assert p[c + 1] < q[c + 1];
      }
      if RaisedPixel(p, q) && p[0] == q[0] {
        var c :| 0 <= c < |p| && p[c] < q[c];
        assert p[1..][c - 1] < q[1..][c - 1];
      }
    }
  }

  lemma {:induction false} RowSumMonotone(a: seq<seq<int>>, b: seq<seq<int>>)
    requires BelowRow(a, b)
    ensures RowSum(a) <= RowSum(b)
    ensures RowSum(a) < RowSum(b) <==> RaisedRow(a, b)
  {
    if a != [] {
      assert BelowPixel(a[0], b[0]);
      assert BelowRow(a[1..], b[1..]) by {
        forall x | 0 <= x < |a| - 1 ensures BelowPixel(a[1..][x], b[1..][x]) {
          assert a[1..][x] == a[x + 1] && b[1..][x] == b[x + 1];
        }
      }
      PixelSumMonotone(a[0], b[0]);
      RowSumMonotone(a[1..], b[1..]);
      if RaisedRow(a[1..], b[1..]) {
        var x :| 0 <= x < |a| - 1 && RaisedPixel(a[1..][x], b[1..][x]);
        assert RaisedPixel(a[x + 1], b[x + 1]);
      }
      if RaisedRow(a, b) && !RaisedPixel(a[0], b[0]) {
        var x :| 0 <= x < |a| && RaisedPixel(a[x], b[x]);
        assert RaisedPixel(a[1..][x - 1], b[1..][x - 1]);
      }
    }
  }

  lemma {:induction false} TotalMonotone(a: seq<seq<seq<int>>>, b: seq<seq<seq<int>>>)
    requires Below(a, b)
    ensures Total(a) <= Total(b)
    ensures Total(a) < Total(b) <==> Raised(a, b)
  {
    if a != [] {
      assert BelowRow(a[0], b[0]);
      assert Below(a[1..], b[1..]) by {
        forall y | 0 <= y < |a| - 1 ensures BelowRow(a[1..][y], b[1..][y]) {
          assert a[1..][y] == a[y + 1] && b[1..][y] == b[y + 1];
        }
      }
      RowSumMonotone(a[0], b[0]);
      TotalMonotone(a[1..], b[1..]);
      if Raised(a[1..], b[1..]) {
        var y :| 0 <= y < |a| - 1 && RaisedRow(a[1..][y], b[1..][y]);
        assert RaisedRow(a[y + 1], b[y + 1]);
      }
      if Raised(a, b) && !RaisedRow(a[0], b[0]) {
        var y :| 0 <= y < |a| && RaisedRow(a[y], b[y]);
        assert RaisedRow(a[1..][y - 1], b[1..][y - 1]);
      }
    }
  }
}

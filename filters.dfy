/** The filter set of the filter endpoint: the four accepted names, the two
    integer pixel rules whose constants the handler fixes (`light` and
    `effect`), and the dispatch from a name to its transform. */
module Filters {
  import opened Imaging

  datatype Filter = Light | Effect | Magic | ColorToning

  /** The `filter` query value that selects each filter. */
  function Name(f: Filter): string {
    match f
    case Light => "light"
    case Effect => "effect"
    case Magic => "magic"
    case ColorToning => "color_toning"
  }

  const AcceptedNames: set<string> := {"light", "effect", "magic", "color_toning"}

  /** The handler's if/elif chain on the filter name: exact, case-sensitive matches only. */
  function Parse(s: string): (r: Option<Filter>)
    ensures r.Some? <==> s in AcceptedNames
    ensures r.Some? ==> Name(r.value) == s
  {
    if s == "light" then Some(Light)
    else if s == "effect" then Some(Effect)
    else if s == "magic" then Some(Magic)
    else if s == "color_toning" then Some(ColorToning)
    else None
  }

  /** Each filter is selected by its own name. */
  lemma ParseName(f: Filter)
    ensures Parse(Name(f)) == Some(f)
  {
  }

  /** No accepted filter name holds a '.' or a '/'. */
  lemma AcceptedNamesArePlain(s: string)
    requires Parse(s).Some?
    ensures '.' !in s && '/' !in s
  {
  }

  /** saturate_cast to 8 bits of an integral value. */
  function Saturate(v: int): (r: Byte)
    ensures 0 <= v < 256 ==> r == v
    ensures v < 0 ==> r == 0
    ensures v >= 256 ==> r == 255
  {
    if v < 0 then 0 else if v > 255 then 255 else v
  }

  // ---------------------------------------------------------------------------
  // light: convertScaleAbs(image, alpha=1.2, beta=30), i.e. saturate(round(|1.2 v + 30|)).
  // 1.2 v + 30 = (6 v + 150) / 5 is never negative and its fractional part is a
  // multiple of 1/5, never 1/2, so rounding to nearest is (6 v + 152) div 5.

  function Brighten(v: Byte): (r: Byte)
    // r is the integer nearest to 1.2 v + 30, or 255 when that is larger
    ensures -2 <= 5 * r - (6 * v + 150) <= 2 || (r == 255 && 6 * v + 150 > 5 * 255)
    ensures v <= r && 30 <= r
  {
    var rounded := (6 * v + 152) / 5;
    if rounded > 255 then 255 else rounded
  }

  lemma BrightenMonotone(u: Byte, v: Byte)
    requires u <= v
    ensures Brighten(u) <= Brighten(v)
  {
    assert (6 * u + 152) / 5 <= (6 * v + 152) / 5;
  }

  /** The brightened value saturates exactly for inputs of 188 and above. */
  lemma BrightenSaturatesFrom188(v: Byte)
    ensures Brighten(v) == 255 <==> v >= 188
  {
    if v < 188 {
      assert 6 * v + 152 < 5 * 255;
    }
  }

  /** Brightening strictly raises every value except the maximum 255. */
  lemma BrightenStrictlyRaises(v: Byte)
    ensures Brighten(v) > v <==> v < 255
  {
  }

  function BrightenImage(img: Image): (r: Image)
    ensures SameDims(r, img)
    ensures forall y, x :: 0 <= y < |img| && 0 <= x < |img[y]| ==> |r[y][x]| == |img[y][x]|
    ensures forall y, x, c :: 0 <= y < |img| && 0 <= x < |img[y]| && 0 <= c < |img[y][x]| ==>
              r[y][x][c] == Brighten(img[y][x][c])
  {
    seq(|img|, y requires 0 <= y < |img| =>
      seq(|img[y]|, x requires 0 <= x < |img[y]| =>
        seq(|img[y][x]|, c requires 0 <= c < |img[y][x]| => Brighten(img[y][x][c]))))
  }

  /** `light` never darkens a value, lifts every value to at least 30, and keeps
      the dimensions. */
  lemma BrightenImageNeverDarkens(img: Image)
    ensures SameDims(BrightenImage(img), img)
    ensures forall y, x, c :: 0 <= y < |img| && 0 <= x < |img[y]| && 0 <= c < |img[y][x]| ==>
              img[y][x][c] <= BrightenImage(img)[y][x][c] && 30 <= BrightenImage(img)[y][x][c]
  {
  }

  /** `light` raises the total (so the mean) intensity, strictly exactly when some
      channel value is below 255: an all-white image is returned unchanged. */
  lemma BrightenRaisesTotal(img: Image)
    ensures Total(img) <= Total(BrightenImage(img))
    ensures Total(img) < Total(BrightenImage(img)) <==>
            exists y, x, c :: 0 <= y < |img| && 0 <= x < |img[y]| && 0 <= c < |img[y][x]| && img[y][x][c] < 255
  {
    var r := BrightenImage(img);
    assert Below(img, r) by {
      forall y | 0 <= y < |img| ensures BelowRow(img[y], r[y]) {
        forall x | 0 <= x < |img[y]| ensures BelowPixel(img[y][x], r[y][x]) {
        }
      }
    }
    TotalMonotone(img, r);
    if Raised(img, r) {
      var y :| 0 <= y < |img| && RaisedRow(img[y], r[y]);
      var x :| 0 <= x < |img[y]| && RaisedPixel(img[y][x], r[y][x]);
      var c :| 0 <= c < |img[y][x]| && img[y][x][c] < r[y][x][c];
      BrightenStrictlyRaises(img[y][x][c]);
    }
    if exists y, x, c :: 0 <= y < |img| && 0 <= x < |img[y]| && 0 <= c < |img[y][x]| && img[y][x][c] < 255 {
      var y, x, c :| 0 <= y < |img| && 0 <= x < |img[y]| && 0 <= c < |img[y][x]| && img[y][x][c] < 255;
      BrightenStrictlyRaises(img[y][x][c]);
      assert RaisedPixel(img[y][x], r[y][x]);
      assert RaisedRow(img[y], r[y]);
    }
  }

  // ---------------------------------------------------------------------------
  // effect: filter2D(image, -1, kernel), a 3x3 correlation anchored at the centre,
  // per channel, output of the input's size and depth, saturated to 8 bits.
  // The border mode is OpenCV's default, BORDER_REFLECT_101 (gfedcb|abcdefgh|gfedcba).

  const SharpenKernel: seq<seq<int>> := [[0, -1, 0], [-1, 5, -1], [0, -1, 0]]

  predicate IsKernel3(k: seq<seq<int>>) {
    |k| == 3 && forall i :: 0 <= i < 3 ==> |k[i]| == 3
  }

  function KernelSum(k: seq<seq<int>>): int
    requires IsKernel3(k)
  {
    k[0][0] + k[0][1] + k[0][2] + k[1][0] + k[1][1] + k[1][2] + k[2][0] + k[2][1] + k[2][2]
  }

  /** The index read for position i of an axis of length n, at most one step
      outside [0, n), under reflect-101 (a single-element axis reads index 0). */
  function Reflect101(i: int, n: nat): (r: nat)
    requires n > 0 && -1 <= i <= n
    ensures r < n
    ensures 0 <= i < n ==> r == i
    ensures n > 1 && i == -1 ==> r == 1
    ensures n > 1 && i == n ==> r == n - 2
  {
    if n == 1 then 0 else if i < 0 then -i else if i >= n then 2 * n - 2 - i else i
  }

  /** Channel c at (y, x) of the border-extended image. */
  function Sample(img: Image, y: int, x: int, c: nat): Byte
    requires |img| > 0 && Width(img) > 0 && -1 <= y <= |img| && -1 <= x <= Width(img) && c < Channels
  {
    img[Reflect101(y, |img|)][Reflect101(x, Width(img))][c]
  }

  /** Sum over the 3x3 window of kernel weight times sample, the window centred on (y, x). */
  function Correlate(k: seq<seq<int>>, img: Image, y: nat, x: nat, c: nat): int
    requires IsKernel3(k) && y < |img| && x < Width(img) && c < Channels
  {
    k[0][0] * Sample(img, y - 1, x - 1, c) + k[0][1] * Sample(img, y - 1, x, c) + k[0][2] * Sample(img, y - 1, x + 1, c) +
    k[1][0] * Sample(img, y, x - 1, c)     + k[1][1] * Sample(img, y, x, c)     + k[1][2] * Sample(img, y, x + 1, c) +
    k[2][0] * Sample(img, y + 1, x - 1, c) + k[2][1] * Sample(img, y + 1, x, c) + k[2][2] * Sample(img, y + 1, x + 1, c)
  }

  function SharpenImage(img: Image): (r: Image)
    ensures SameDims(r, img)
  {
    seq(|img|, y requires 0 <= y < |img| =>
      seq(|img[y]|, x requires 0 <= x < |img[y]| =>
        seq(Channels, c requires 0 <= c < Channels => Saturate(Correlate(SharpenKernel, img, y, x, c)))))
  }

  /** The sharpen weights sum to 1. */
  lemma SharpenKernelIsUnit()
    ensures IsKernel3(SharpenKernel) && KernelSum(SharpenKernel) == 1
  {
  }

  /** A kernel whose weights sum to 1 leaves a value of a uniform image unchanged. */
  lemma UnitKernelFixesUniform(k: seq<seq<int>>, img: Image, v: Byte, y: nat, x: nat, c: nat)
    requires IsKernel3(k) && KernelSum(k) == 1
    requires Uniform(img, v) && y < |img| && x < Width(img) && c < Channels
    ensures Correlate(k, img, y, x, c) == v
  {
    assert Correlate(k, img, y, x, c) == KernelSum(k) * v;
  }

  /** `effect` returns a uniform image unchanged. */
  lemma SharpenFixesUniform(img: Image, v: Byte)
    requires Uniform(img, v)
    ensures SharpenImage(img) == img
  {
    var r := SharpenImage(img);
    SharpenKernelIsUnit();
    forall y | 0 <= y < |img| ensures r[y] == img[y] {
      forall x | 0 <= x < |img[y]| ensures r[y][x] == img[y][x] {
        forall c | 0 <= c < Channels ensures r[y][x][c] == img[y][x][c] {
          UnitKernelFixesUniform(SharpenKernel, img, v, y, x, c);
        }
      }
    }
  }

  /** Away from the border, `effect` is five times the centre minus its four
      edge neighbours, saturated. */
  lemma SharpenInterior(img: Image, y: nat, x: nat, c: nat)
    requires 0 < y < |img| - 1 && 0 < x < Width(img) - 1 && c < Channels
    ensures SharpenImage(img)[y][x][c] ==
            Saturate(5 * (img[y][x][c] as int) - img[y - 1][x][c] - img[y + 1][x][c] - img[y][x - 1][c] - img[y][x + 1][c])
  {
  }

  /** On the top row of an image at least two rows high, the missing upper
      neighbour is read from the second row (reflect-101). */
  lemma SharpenTopRow(img: Image, x: nat, c: nat)
    requires |img| > 1 && 0 < x < Width(img) - 1 && c < Channels
    ensures SharpenImage(img)[0][x][c] ==
            Saturate(5 * (img[0][x][c] as int) - 2 * (img[1][x][c] as int) - img[0][x - 1][c] - img[0][x + 1][c])
  {
  }

  // ---------------------------------------------------------------------------
  // Dispatch. `magic` (applyColorMap with the JET table) and `color_toning`
  // (BGR -> LAB, equalizeHist on L, LAB -> BGR) run inside OpenCV; they are the
  // parameters jet and tone.

  function Apply(f: Filter, img: Image, jet: Image -> Image, tone: Image -> Image): (r: Image)
    ensures f == Light ==> r == BrightenImage(img)
    ensures f == Effect ==> r == SharpenImage(img)
    ensures f == Light || f == Effect ==> SameDims(r, img)
    ensures f == Magic ==> r == jet(img)
    ensures f == ColorToning ==> r == tone(img)
  {
    match f
    case Light => BrightenImage(img)
    case Effect => SharpenImage(img)
    case Magic => jet(img)
    case ColorToning => tone(img)
  }
}

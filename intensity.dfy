/**
 * Min-max normalisation of decoded pixel data to the 8-bit range, as the two
 * DICOM viewers perform it: an optional rescale `p * slope + intercept`, then
 * `floor(255 * (p - min) / (max - min))` per sample, or all zeros when the
 * data is constant. Arithmetic is exact over the reals.
 */
module Intensity {
  import opened Wrappers

  /** `pixel_array * RescaleSlope + RescaleIntercept`, applied only when both attributes exist. */
  function Rescale(p: real, rescale: Option<(real, real)>): real {
    match rescale
    case None => p
    case Some((slope, intercept)) => p * slope + intercept
  }

  /** `np.min` of a non-empty array, with the array flattened. */
  function MinOf(s: seq<real>): (m: real)
    requires |s| > 0
    ensures m in s
    ensures forall i :: 0 <= i < |s| ==> m <= s[i]
  {
    if |s| == 1 then s[0]
    else
      var m := MinOf(s[1..]);
      assert forall i :: 1 <= i < |s| ==> s[i] == s[1..][i - 1];
      if s[0] <= m then s[0] else m
  }

  /** `np.max` of a non-empty array, with the array flattened. */
  function MaxOf(s: seq<real>): (m: real)
    requires |s| > 0
    ensures m in s
    ensures forall i :: 0 <= i < |s| ==> s[i] <= m
  {
    if |s| == 1 then s[0]
    else
      var m := MaxOf(s[1..]);
      assert forall i :: 1 <= i < |s| ==> s[i] == s[1..][i - 1];
      if s[0] >= m then s[0] else m
  }

  /**
   * One sample of the stretch, `floor(255 * (p - lo) / (hi - lo))`: the
   * lowest value goes to 0, the highest to 255, everything else in between.
   */
  function Stretch(p: real, lo: real, hi: real): (r: int)
    requires lo < hi && lo <= p <= hi
    ensures 0 <= r <= 255
    ensures r as real * (hi - lo) <= 255.0 * (p - lo) < (r as real + 1.0) * (hi - lo)
    ensures p == lo ==> r == 0
    ensures p == hi ==> r == 255
  {
    MulMono(p - lo, hi - lo, 255.0);
    FloorQuotientBounds(255.0 * (p - lo), hi - lo);
    (255.0 * (p - lo) / (hi - lo)).Floor
  }

  /** `floor(a / d)` for `0 <= a <= 255 * d` is a byte value bracketing `a` by multiples of `d`. */
  lemma FloorQuotientBounds(a: real, d: real)
    requires d > 0.0 && 0.0 <= a <= 255.0 * d
    ensures 0 <= (a / d).Floor <= 255
    ensures (a / d).Floor as real * d <= a < ((a / d).Floor as real + 1.0) * d
    ensures a == 255.0 * d ==> (a / d).Floor == 255
  {
    var x := a / d;
    assert x * d == a;
    if x > 255.0 {
      MulStrict(255.0, x, d);
    }
    if a == 255.0 * d && x != 255.0 {
      if x < 255.0 {
        MulStrict(x, 255.0, d);
      } else {
        MulStrict(255.0, x, d);
      }
    }
    var r := x.Floor;
    assert r as real <= x < r as real + 1.0;
    MulMono(r as real, x, d);
    MulStrict(x, r as real + 1.0, d);
    calc {
      a;
    ==
      x * d;
    <
      (r as real + 1.0) * d;
    }
  }

  lemma MulMono(a: real, b: real, c: real)
    requires a <= b && c >= 0.0
    ensures a * c <= b * c && c * a <= c * b
  {
    assert b * c - a * c == (b - a) * c;
  }

  lemma MulStrict(a: real, b: real, c: real)
    requires a < b && c > 0.0
    ensures a * c < b * c && c * a < c * b
  {
    assert b * c - a * c == (b - a) * c;
  }

  /** A brighter input sample never gives a darker output sample. */
  lemma StretchMonotone(p: real, q: real, lo: real, hi: real)
    requires lo < hi && lo <= p <= q <= hi
    ensures Stretch(p, lo, hi) <= Stretch(q, lo, hi)
  {
    var d := hi - lo;
    MulMono(p - lo, q - lo, 255.0);
    FloorsOrdered(Stretch(p, lo, hi), Stretch(q, lo, hi), d, 255.0 * (p - lo), 255.0 * (q - lo));
  }

  /** Two whole multiples of `d` bracketing ordered values are ordered themselves. */
  lemma FloorsOrdered(a: int, b: int, d: real, m: real, n: real)
    requires d > 0.0 && m <= n
    requires a as real * d <= m && n < (b as real + 1.0) * d
    ensures a <= b
  {
    if a > b {
      MulMono(b as real + 1.0, a as real, d);
    }
  }

  /** On whole numbers the stretch is the integer floor division `(p - lo) * 255 // (hi - lo)`. */
  lemma StretchOfIntegers(p: int, lo: int, hi: int)
    requires lo < hi && lo <= p <= hi
    ensures Stretch(p as real, lo as real, hi as real) == (p - lo) * 255 / (hi - lo)
  {
    var a, b := (p - lo) * 255, hi - lo;
    var r := Stretch(p as real, lo as real, hi as real);
    assert 255.0 * (p as real - lo as real) == a as real;
    assert (hi as real - lo as real) == b as real;
    assert r as real * b as real == (r * b) as real;
    assert (r as real + 1.0) * b as real == ((r + 1) * b) as real;
    FloorDivUnique(a, b, r);
  }

  /** The integer quotient is the only `r` with `r * b <= a < (r + 1) * b`. */
  lemma FloorDivUnique(a: int, b: int, r: int)
    requires b > 0 && r * b <= a < (r + 1) * b
    ensures r == a / b
  {
    var q := a / b;
    assert q * b <= a < (q + 1) * b;
    if r < q {
      IntMulMono(r + 1, q, b);
    } else if r > q {
      IntMulMono(q + 1, r, b);
    }
  }

  lemma IntMulMono(a: int, b: int, c: int)
    requires a <= b && c >= 0
    ensures a * c <= b * c
  {
    assert b * c - a * c == (b - a) * c;
  }

  /** One output sample of a whole array whose minimum is `lo` and maximum `hi`. */
  function Sample(p: real, lo: real, hi: real): (r: int)
    requires lo <= p <= hi
    ensures 0 <= r <= 255
  {
    if lo == hi then 0 else Stretch(p, lo, hi)
  }

  /**
   * Min-max normalisation of a flattened array: every output in [0, 255],
   * the minimum to 0, the maximum to 255, and all zeros when the array is
   * constant.
   */
  function Normalise(s: seq<real>): (r: seq<int>)
    requires |s| > 0
    ensures |r| == |s|
    ensures forall i :: 0 <= i < |s| ==> 0 <= r[i] <= 255
    ensures MinOf(s) == MaxOf(s) ==> forall i :: 0 <= i < |s| ==> r[i] == 0
    ensures MinOf(s) < MaxOf(s) ==> forall i :: 0 <= i < |s| && s[i] == MinOf(s) ==> r[i] == 0
    ensures MinOf(s) < MaxOf(s) ==> forall i :: 0 <= i < |s| && s[i] == MaxOf(s) ==> r[i] == 255
  {
    var lo, hi := MinOf(s), MaxOf(s);
    seq(|s|, i requires 0 <= i < |s| => Sample(s[i], lo, hi))
  }

  /** Normalisation keeps the order of samples. */
  lemma NormalisePreservesOrder(s: seq<real>, i: nat, j: nat)
    requires i < |s| && j < |s| && s[i] <= s[j]
    ensures Normalise(s)[i] <= Normalise(s)[j]
  {
    if MinOf(s) < MaxOf(s) {
      StretchMonotone(s[i], s[j], MinOf(s), MaxOf(s));
    }
  }

  /** A constant array normalises to zeros whatever its value. */
  lemma NormaliseConstant(s: seq<real>, v: real)
    requires |s| > 0 && forall i :: 0 <= i < |s| ==> s[i] == v
    ensures forall i :: 0 <= i < |s| ==> Normalise(s)[i] == 0
  {
    assert MinOf(s) == v == MaxOf(s);
  }

  // ---- Two-dimensional slices ----

  /** The samples of a 2-D array in row-major order (NumPy's flattening). */
  function Cells(g: seq<seq<real>>): (c: seq<real>)
    ensures |g| > 0 && |g[0]| > 0 ==> |c| > 0
  {
    if g == [] then [] else g[0] + Cells(g[1..])
  }

  lemma {:induction false} CellInCells(g: seq<seq<real>>, i: nat, j: nat)
    requires i < |g| && j < |g[i]|
    ensures g[i][j] in Cells(g)
  {
    if i > 0 {
      CellInCells(g[1..], i - 1, j);
    }
  }

  /** Every sample lies between the minimum and the maximum of the whole array. */
  lemma CellsBound(g: seq<seq<real>>)
    requires |Cells(g)| > 0
    ensures forall i, j :: 0 <= i < |g| && 0 <= j < |g[i]| ==> MinOf(Cells(g)) <= g[i][j] <= MaxOf(Cells(g))
  {
    forall i, j | 0 <= i < |g| && 0 <= j < |g[i]|
      ensures MinOf(Cells(g)) <= g[i][j] <= MaxOf(Cells(g))
    {
      CellInCells(g, i, j);
    }
  }

  /**
   * Per-slice normalisation of a 2-D slice: the same shape, each sample
   * stretched by the minimum and maximum of the whole slice.
   */
  function NormaliseGrid(g: seq<seq<real>>): (r: seq<seq<int>>)
    requires |Cells(g)| > 0
    ensures |r| == |g| && forall i :: 0 <= i < |g| ==> |r[i]| == |g[i]|
    ensures forall i, j :: 0 <= i < |g| && 0 <= j < |g[i]| ==> 0 <= r[i][j] <= 255
    ensures MinOf(Cells(g)) == MaxOf(Cells(g)) ==>
      forall i, j :: 0 <= i < |g| && 0 <= j < |g[i]| ==> r[i][j] == 0
    ensures MinOf(Cells(g)) < MaxOf(Cells(g)) ==>
      forall i, j :: 0 <= i < |g| && 0 <= j < |g[i]| && g[i][j] == MinOf(Cells(g)) ==> r[i][j] == 0
    ensures MinOf(Cells(g)) < MaxOf(Cells(g)) ==>
      forall i, j :: 0 <= i < |g| && 0 <= j < |g[i]| && g[i][j] == MaxOf(Cells(g)) ==> r[i][j] == 255
  {
    var lo, hi := MinOf(Cells(g)), MaxOf(Cells(g));
    CellsBound(g);
    seq(|g|, i requires 0 <= i < |g| =>
      seq(|g[i]|, j requires 0 <= j < |g[i]| => Sample(g[i][j], lo, hi)))
  }

  /** The rescale step applied to a whole 2-D slice of decoded integers. */
  function RescaleGrid(g: seq<seq<int>>, rescale: Option<(real, real)>): (r: seq<seq<real>>)
    ensures |r| == |g| && forall i :: 0 <= i < |g| ==> |r[i]| == |g[i]|
    ensures forall i, j :: 0 <= i < |g| && 0 <= j < |g[i]| ==> r[i][j] == Rescale(g[i][j] as real, rescale)
  {
    seq(|g|, i requires 0 <= i < |g| =>
      seq(|g[i]|, j requires 0 <= j < |g[i]| => Rescale(g[i][j] as real, rescale)))
  }

  // ---- The integer path of the volume viewer as written ----

  /**
   * `(pixel_array - min) * 255 / (max - min)` on an unsigned integer array
   * with no rescale pre-step: NumPy keeps the array's integer type for
   * `* 255`, so the product is taken modulo `modulus` (256 for uint8 data,
   * 65536 for uint16) before the true division; `astype(np.uint8)` then
   * truncates the non-negative quotient.
   */
  function StretchWrapped(p: int, lo: int, hi: int, modulus: nat): (r: int)
    requires lo < hi && lo <= p <= hi && modulus > 0
    ensures 0 <= r <= 255
  {
    var x := (p - lo) * 255;
    IntMulMono(p - lo, hi - lo, 255);
    WrappedQuotientBound(x, hi - lo, modulus);
    (x % modulus) / (hi - lo)
  }

  lemma WrappedQuotientBound(x: int, d: int, modulus: nat)
    requires 0 <= x <= d * 255 && d > 0 && modulus > 0
    ensures 0 <= (x % modulus) / d <= 255
  {
    var y := x % modulus;
    var q := y / d;
    assert 0 <= y <= x;
    assert q * d <= y;
    if q > 255 {
      IntMulMono(256, q, d);
    }
  }

  /**
   * The wrap loses the stretch: a uint8 slice holding only 0 and 2 maps its
   * maximum to 127 instead of 255.
   */
  lemma StretchWrappedLosesMaximum()
    ensures StretchWrapped(2, 0, 2, 256) == 127
    ensures Stretch(2.0, 0.0, 2.0) == 255
  {
  }

  /** Below the wrap-around point the code as written computes the intended stretch. */
  lemma StretchWrappedAgreesOnNarrowRange(p: int, lo: int, hi: int, modulus: nat)
    requires lo < hi && lo <= p <= hi && (hi - lo) * 255 < modulus
    ensures StretchWrapped(p, lo, hi, modulus) == Stretch(p as real, lo as real, hi as real)
  {
    var x := (p - lo) * 255;
    IntMulMono(p - lo, hi - lo, 255);
    assert 0 <= x < modulus;
    assert x % modulus == x;
    assert StretchWrapped(p, lo, hi, modulus) == x / (hi - lo);
    StretchOfIntegers(p, lo, hi);
  }
}

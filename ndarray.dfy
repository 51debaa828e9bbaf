/**
 * The part of a NumPy array the DICOM viewer relies on: a shape and its
 * samples in row-major order, subscripting along the first axis, `squeeze`,
 * and reading a 2-D array row by row.
 */
module NdArrays {
  import opened Wrappers
  import opened PyNum

  /** The number of samples an array of shape `shape` holds. */
  function Size(shape: seq<nat>): nat {
    if shape == [] then 1 else shape[0] * Size(shape[1..])
  }

  /** An n-dimensional array: its shape and its samples in row-major order. */
  datatype NdArray = NdArray(shape: seq<nat>, data: seq<real>) {
    predicate Wf() {
      |data| == Size(shape)
    }

    function Ndim(): nat {
      |shape|
    }
  }

  lemma SizeMul(n: nat, m: nat, k: nat)
    requires k < n
    ensures k * m + m <= n * m
  {
    var d: nat := n - k - 1;
    assert d * m >= 0;
    assert n * m == (k + 1 + d) * m == k * m + m + d * m;
  }

  /**
   * `a[i]` along the first axis: the sub-array of shape `shape[1..]` at
   * position `i` with Python's negative indexing; `None` when the index lies
   * outside the axis or the array has no axis left.
   */
  function At(a: NdArray, i: int): (r: Option<NdArray>)
    requires a.Wf()
    ensures r.Some? <==> a.Ndim() > 0 && PyIndex(i, a.shape[0]).Some?
    ensures r.Some? ==> r.value.Wf() && r.value.shape == a.shape[1..]
    ensures r.Some? ==> var k, m := PyIndex(i, a.shape[0]).value, Size(a.shape[1..]);
      k * m + m <= |a.data| && r.value.data == a.data[k * m..k * m + m]
  {
    if a.Ndim() == 0 then None
    else match PyIndex(i, a.shape[0])
      case None => None
      case Some(k) =>
        var m := Size(a.shape[1..]);
        SizeMul(a.shape[0], m, k);
        Some(NdArray(a.shape[1..], a.data[k * m..k * m + m]))
  }

  /** The shape without its axes of length 1. */
  function DropOnes(shape: seq<nat>): (r: seq<nat>)
    ensures forall i :: 0 <= i < |r| ==> r[i] != 1
    ensures |r| <= |shape|
    ensures Size(r) == Size(shape)
  {
    if shape == [] then []
    else if shape[0] == 1 then DropOnes(shape[1..])
    else [shape[0]] + DropOnes(shape[1..])
  }

  /** `np.squeeze(a)`: the same samples, every axis of length 1 removed. */
  function Squeeze(a: NdArray): (r: NdArray)
    requires a.Wf()
    ensures r.Wf() && r.data == a.data
    ensures forall i :: 0 <= i < r.Ndim() ==> r.shape[i] != 1
    ensures r.Ndim() <= a.Ndim()
  {
    NdArray(DropOnes(a.shape), a.data)
  }

  /** Squeezing twice is squeezing once. */
  lemma {:induction false} DropOnesIdempotent(shape: seq<nat>)
    ensures DropOnes(DropOnes(shape)) == DropOnes(shape)
  {
    if shape != [] {
      DropOnesIdempotent(shape[1..]);
      if shape[0] != 1 {
        assert DropOnes(shape)[1..] == DropOnes(shape[1..]);
      }
    }
  }

  /** An array with no axis of length 1 is left as it is by `squeeze`. */
  lemma {:induction false} DropOnesNoOnes(shape: seq<nat>)
    requires forall i :: 0 <= i < |shape| ==> shape[i] != 1
    ensures DropOnes(shape) == shape
  {
    if shape != [] {
      DropOnesNoOnes(shape[1..]);
      assert shape == [shape[0]] + shape[1..];
    }
  }

  lemma SizeMulAll(n: nat, m: nat)
    ensures forall k :: 0 <= k < n ==> k * m + m <= n * m
  {
    forall k | 0 <= k < n
      ensures k * m + m <= n * m
    {
      SizeMul(n, m, k);
    }
  }

  lemma SizeOfTwoAxes(shape: seq<nat>)
    requires |shape| == 2
    ensures Size(shape) == shape[0] * shape[1]
  {
    assert shape[1..][1..] == [];
    assert Size(shape[1..]) == shape[1];
  }

  /** The `h` consecutive runs of `w` samples in `data`. */
  function Chunks(data: seq<real>, h: nat, w: nat): (g: seq<seq<real>>)
    requires forall k :: 0 <= k < h ==> k * w + w <= |data|
    ensures |g| == h
    ensures forall r :: 0 <= r < h ==> g[r] == data[r * w..r * w + w]
  {
    seq(h, r requires 0 <= r < h => data[r * w..r * w + w])
  }

  /** The rows of a 2-D array: row `r` is the `r`-th run of `shape[1]` samples. */
  function Rows(a: NdArray): (g: seq<seq<real>>)
    requires a.Wf() && a.Ndim() == 2
    ensures |g| == a.shape[0]
    ensures forall r :: 0 <= r < |g| ==> (r * a.shape[1] + a.shape[1] <= |a.data| &&
      g[r] == a.data[r * a.shape[1]..r * a.shape[1] + a.shape[1]])
  {
    SizeOfTwoAxes(a.shape);
    SizeMulAll(a.shape[0], a.shape[1]);
    Chunks(a.data, a.shape[0], a.shape[1])
  }

  /** Sample `(r, c)` of the rows is sample `r * width + c` of the data. */
  lemma RowsAt(a: NdArray, r: nat, c: nat)
    requires a.Wf() && a.Ndim() == 2 && r < a.shape[0] && c < a.shape[1]
    ensures |Rows(a)[r]| == a.shape[1]
    ensures r * a.shape[1] + c < |a.data| && Rows(a)[r][c] == a.data[r * a.shape[1] + c]
  {
  }

  /**
   * `[a[i] for i in range(n)]`: the first `n` sub-arrays along the first axis,
   * or `None` for the IndexError raised when `n` exceeds that axis.
   */
  function Frames(a: NdArray, n: int): (r: Option<seq<NdArray>>)
    requires a.Wf()
    ensures n <= 0 ==> r == Some([])
    ensures n > 0 ==> (r.Some? <==> a.Ndim() > 0 && n <= a.shape[0])
    ensures r.Some? ==> (|r.value| == (if n <= 0 then 0 else n) &&
      forall i :: 0 <= i < |r.value| ==> At(a, i) == Some(r.value[i]))
  {
    if n <= 0 then Some([])
    else if a.Ndim() == 0 || n > a.shape[0] then None
    else Some(seq(n, i requires 0 <= i < n => At(a, i).value))
  }

  /** Every frame has the shape of the array without its first axis. */
  lemma FramesShape(a: NdArray, n: int)
    requires a.Wf() && Frames(a, n).Some?
    ensures forall i :: 0 <= i < |Frames(a, n).value| ==>
      Frames(a, n).value[i].Wf() && Frames(a, n).value[i].shape == a.shape[1..]
  {
    var fs := Frames(a, n).value;
    forall i | 0 <= i < |fs|
      ensures fs[i].Wf() && fs[i].shape == a.shape[1..]
    {
      assert At(a, i) == Some(fs[i]);
    }
  }
}

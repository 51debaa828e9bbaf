/**
 * The three orthogonal planes of a volume `V` of shape `(D0, D1, D2)` as the
 * volume viewer cuts them: the axial slice `V[a, :, :]` as indexed, the
 * sagittal slab `V[:, s, :]` turned by 180 degrees (`np.rot90(k=2)`), and the
 * coronal slab `V[:, :, c]` flipped top to bottom (`np.flip(axis=0)`); and the
 * axis permutation `np.transpose(raw, (2, 0, 1))` applied to NIfTI data.
 */
module Planes {
  import opened Wrappers
  import opened PyNum

  /** A 2-D array, row by row. */
  type Grid<T> = seq<seq<T>>
  /** A 3-D array, slice by slice. */
  type Volume<T> = seq<seq<seq<T>>>

  /** `g` has `rows` rows of `cols` samples each. */
  predicate IsGrid<T>(g: Grid<T>, rows: nat, cols: nat) {
    |g| == rows && forall i :: 0 <= i < |g| ==> |g[i]| == cols
  }

  /** `v` has shape `(d0, d1, d2)`. */
  predicate IsBox<T>(v: Volume<T>, d0: nat, d1: nat, d2: nat) {
    |v| == d0 && forall i :: 0 <= i < |v| ==> IsGrid(v[i], d1, d2)
  }

  /** A sequence read back to front. */
  function Reverse<T>(s: seq<T>): (r: seq<T>)
    ensures |r| == |s|
    ensures forall i :: 0 <= i < |s| ==> r[i] == s[|s| - 1 - i]
  {
    if s == [] then [] else Reverse(s[1..]) + [s[0]]
  }

  /** Reading back to front twice gives the sequence itself. */
  lemma ReverseInvolution<T>(s: seq<T>)
    ensures Reverse(Reverse(s)) == s
  {
    assert forall i :: 0 <= i < |s| ==> Reverse(Reverse(s))[i] == s[i];
  }

  /** `np.flip(g, axis=0)`: the rows in reverse order. */
  function FlipRows<T>(g: Grid<T>): (r: Grid<T>)
    ensures |r| == |g| && forall i :: 0 <= i < |g| ==> r[i] == g[|g| - 1 - i]
    ensures forall rows, cols :: IsGrid(g, rows, cols) ==> IsGrid(r, rows, cols)
  {
    Reverse(g)
  }

  /** `np.flip(g, axis=1)`: every row read back to front. */
  function FlipCols<T>(g: Grid<T>): (r: Grid<T>)
    ensures |r| == |g|
    ensures forall i :: 0 <= i < |g| ==> |r[i]| == |g[i]|
    ensures forall i, j :: 0 <= i < |g| && 0 <= j < |g[i]| ==> r[i][j] == g[i][|g[i]| - 1 - j]
  {
    seq(|g|, i requires 0 <= i < |g| => Reverse(g[i]))
  }

  /** `np.rot90(g, k=2)`, which NumPy computes as a flip along both axes. */
  function Rot180<T>(g: Grid<T>): Grid<T> {
    FlipCols(FlipRows(g))
  }

  /** The half turn sends sample `(i, j)` of a `rows x cols` grid to `(rows-1-i, cols-1-j)`. */
  lemma Rot180At<T>(g: Grid<T>, rows: nat, cols: nat)
    requires IsGrid(g, rows, cols)
    ensures IsGrid(Rot180(g), rows, cols)
    ensures forall i, j :: 0 <= i < rows && 0 <= j < cols ==>
      Rot180(g)[i][j] == g[rows - 1 - i][cols - 1 - j]
  {
  }

  /** Flipping the rows twice gives the grid back. */
  lemma FlipRowsInvolution<T>(g: Grid<T>)
    ensures FlipRows(FlipRows(g)) == g
  {
    ReverseInvolution(g);
  }

  /** Turning a rectangular grid twice by 180 degrees gives it back. */
  lemma Rot180Involution<T>(g: Grid<T>, rows: nat, cols: nat)
    requires IsGrid(g, rows, cols)
    ensures Rot180(Rot180(g)) == g
  {
    Rot180At(g, rows, cols);
    Rot180At(Rot180(g), rows, cols);
    var h := Rot180(Rot180(g));
    assert |h| == |g|;
    forall i | 0 <= i < rows
      ensures h[i] == g[i]
    {
      assert |h[i]| == |g[i]|;
      forall j | 0 <= j < cols
        ensures h[i][j] == g[i][j]
      {
        assert h[i][j] == Rot180(g)[rows - 1 - i][cols - 1 - j];
      }
    }
  }

  /** `V[a, :, :]`: the axial slice. */
  function AxialSlab<T>(v: Volume<T>, a: nat): (r: Grid<T>)
    requires a < |v|
    ensures forall d1, d2 :: IsBox(v, |v|, d1, d2) ==> IsGrid(r, d1, d2)
    ensures r == v[a]
  {
    v[a]
  }

  /** `V[:, s, :]`: the slab of shape `(D0, D2)` at sagittal position `s`. */
  function SagittalSlab<T>(v: Volume<T>, d1: nat, d2: nat, s: nat): (r: Grid<T>)
    requires IsBox(v, |v|, d1, d2) && s < d1
    ensures IsGrid(r, |v|, d2)
    ensures forall i, k :: 0 <= i < |v| && 0 <= k < d2 ==> r[i][k] == v[i][s][k]
  {
    seq(|v|, i requires 0 <= i < |v| => v[i][s])
  }

  /** `V[:, :, c]`: the slab of shape `(D0, D1)` at coronal position `c`. */
  function CoronalSlab<T>(v: Volume<T>, d1: nat, d2: nat, c: nat): (r: Grid<T>)
    requires IsBox(v, |v|, d1, d2) && c < d2
    ensures IsGrid(r, |v|, d1)
    ensures forall i, j :: 0 <= i < |v| && 0 <= j < d1 ==> r[i][j] == v[i][j][c]
  {
    seq(|v|, i requires 0 <= i < |v| => seq(d1, j requires 0 <= j < d1 => v[i][j][c]))
  }

  /** The sagittal view: its sample `(i, j)` is `V[D0-1-i, s, D2-1-j]`. */
  function SagittalView<T>(v: Volume<T>, d1: nat, d2: nat, s: nat): (r: Grid<T>)
    requires IsBox(v, |v|, d1, d2) && s < d1
    ensures IsGrid(r, |v|, d2)
    ensures forall i, j :: 0 <= i < |v| && 0 <= j < d2 ==> r[i][j] == v[|v| - 1 - i][s][d2 - 1 - j]
  {
    var slab := SagittalSlab(v, d1, d2, s);
    Rot180At(slab, |v|, d2);
    Rot180(slab)
  }

  /** The coronal view: its sample `(i, j)` is `V[D0-1-i, j, c]`. */
  function CoronalView<T>(v: Volume<T>, d1: nat, d2: nat, c: nat): (r: Grid<T>)
    requires IsBox(v, |v|, d1, d2) && c < d2
    ensures IsGrid(r, |v|, d1)
    ensures forall i, j :: 0 <= i < |v| && 0 <= j < d1 ==> r[i][j] == v[|v| - 1 - i][j][c]
  {
    FlipRows(CoronalSlab(v, d1, d2, c))
  }

  /** Undoing either reorientation gives back the slab as cut from the volume. */
  lemma ViewsUndo<T>(v: Volume<T>, d1: nat, d2: nat, s: nat, c: nat)
    requires IsBox(v, |v|, d1, d2) && s < d1 && c < d2
    ensures Rot180(SagittalView(v, d1, d2, s)) == SagittalSlab(v, d1, d2, s)
    ensures FlipRows(CoronalView(v, d1, d2, c)) == CoronalSlab(v, d1, d2, c)
  {
    Rot180Involution(SagittalSlab(v, d1, d2, s), |v|, d2);
    FlipRowsInvolution(CoronalSlab(v, d1, d2, c));
  }

  /**
   * The three views for indices `a`, `s`, `c` as Python subscripts them:
   * a negative index counts from the end of its axis, and `None` stands for
   * the IndexError an index outside the axis raises.
   */
  function Views<T>(v: Volume<T>, d1: nat, d2: nat, a: int, s: int, c: int): (r: Option<(Grid<T>, Grid<T>, Grid<T>)>)
    requires IsBox(v, |v|, d1, d2)
    ensures r.Some? <==> PyIndex(a, |v|).Some? && PyIndex(s, d1).Some? && PyIndex(c, d2).Some?
    ensures r.Some? ==>
      r.value.0 == AxialSlab(v, PyIndex(a, |v|).value) &&
      r.value.1 == SagittalView(v, d1, d2, PyIndex(s, d1).value) &&
      r.value.2 == CoronalView(v, d1, d2, PyIndex(c, d2).value)
  {
    match (PyIndex(a, |v|), PyIndex(s, d1), PyIndex(c, d2))
    case (Some(ka), Some(ks), Some(kc)) =>
      Some((AxialSlab(v, ka), SagittalView(v, d1, d2, ks), CoronalView(v, d1, d2, kc)))
    case _ => None
  }

  // ---- NIfTI axis order ----

  /**
   * `np.transpose(raw, (2, 0, 1))` for `raw` of shape `(X, Y, Z)`: the result
   * has shape `(Z, X, Y)` and `out[i][j][k] == raw[j][k][i]`.
   */
  function Transpose201<T>(raw: Volume<T>, x: nat, y: nat, z: nat): (r: Volume<T>)
    requires IsBox(raw, x, y, z)
    ensures IsBox(r, z, x, y)
    ensures forall i, j, k :: 0 <= i < z && 0 <= j < x && 0 <= k < y ==> r[i][j][k] == raw[j][k][i]
  {
    seq(z, i requires 0 <= i < z =>
      seq(x, j requires 0 <= j < x =>
        seq(y, k requires 0 <= k < y => raw[j][k][i])))
  }

  /**
   * `np.transpose(vol, (1, 2, 0))` for `vol` of shape `(Z, X, Y)`: the axis
   * order `(X, Y, Z)` with `out[j][k][i] == vol[i][j][k]`.
   */
  function Transpose120<T>(vol: Volume<T>, z: nat, x: nat, y: nat): (r: Volume<T>)
    requires IsBox(vol, z, x, y)
    ensures IsBox(r, x, y, z)
    ensures forall i, j, k :: 0 <= i < z && 0 <= j < x && 0 <= k < y ==> r[j][k][i] == vol[i][j][k]
  {
    seq(x, j requires 0 <= j < x =>
      seq(y, k requires 0 <= k < y =>
        seq(z, i requires 0 <= i < z => vol[i][j][k])))
  }

  /** The NIfTI permutation loses nothing: the inverse permutation gives the decoded data back. */
  lemma TransposeRoundTrip<T>(raw: Volume<T>, x: nat, y: nat, z: nat)
    requires IsBox(raw, x, y, z)
    ensures Transpose120(Transpose201(raw, x, y, z), z, x, y) == raw
  {
    var back := Transpose120(Transpose201(raw, x, y, z), z, x, y);
    forall j | 0 <= j < x
      ensures back[j] == raw[j]
    {
      forall k | 0 <= k < y
        ensures back[j][k] == raw[j][k]
      {
        assert forall i :: 0 <= i < z ==> back[j][k][i] == raw[j][k][i];
      }
    }
  }

  /** The axial slice `a` of the permuted NIfTI volume is the plane `raw[:, :, a]`. */
  lemma NiftiAxialIsLastAxis<T>(raw: Volume<T>, x: nat, y: nat, z: nat, a: nat)
    requires IsBox(raw, x, y, z) && a < z
    ensures forall j, k :: 0 <= j < x && 0 <= k < y ==>
      AxialSlab(Transpose201(raw, x, y, z), a)[j][k] == raw[j][k][a]
  {
  }
}

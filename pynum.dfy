/** The numeric and indexing conventions of Python that the applications rely on. */
module PyNum {
  import opened Wrappers

  /** Python's `int(r)` for a float: rounds toward zero. */
  function TruncToInt(r: real): (n: int)
    ensures r >= 0.0 ==> n >= 0 && n as real <= r < n as real + 1.0
    ensures r < 0.0 ==> n <= 0 && n as real - 1.0 < r <= n as real
  {
    if r >= 0.0 then r.Floor else -((-r).Floor)
  }

  /** `int(r)` never moves a value away from zero and is exact on whole numbers. */
  lemma TruncTowardZero(r: real)
    ensures var n := TruncToInt(r);
      (if n < 0 then -n else n) as real <= (if r < 0.0 then -r else r)
    ensures r == r.Floor as real ==> TruncToInt(r) == r.Floor
  {
  }

  /**
   * Python's subscript `s[i]` on an axis of length `n`: a negative index counts
   * from the end; `None` stands for the IndexError raised otherwise.
   */
  function PyIndex(i: int, n: nat): (k: Option<nat>)
    ensures k.Some? <==> -(n as int) <= i < n
    ensures k.Some? ==> k.value < n
    ensures k.Some? && i >= 0 ==> k.value == i
    ensures k.Some? && i < 0 ==> k.value == i + n
  {
    if 0 <= i < n then Some(i)
    else if -(n as int) <= i < 0 then Some(i + n)
    else None
  }

  /** Python's `n // 2` for a non-negative length: the midpoint slice of an axis. */
  function Midpoint(n: nat): (m: nat)
    ensures n > 0 ==> m < n
    ensures 2 * m <= n < 2 * m + 2
  {
    n / 2
  }
}

/**
 * Python's `sorted` / `list.sort` for the two orders the applications sort by:
 * integers (player IDs) and strings compared code point by code point (file
 * names). Sorting is modelled as insertion sort, which for a total order gives
 * the same list as Python's stable sort.
 */
module Sorting {

  /** `le` is total and transitive. */
  ghost predicate TotalPreorder<T(!new)>(le: (T, T) -> bool) {
    && (forall a, b :: le(a, b) || le(b, a))
    && (forall a, b, c :: le(a, b) && le(b, c) ==> le(a, c))
  }

  predicate SortedBy<T>(s: seq<T>, le: (T, T) -> bool) {
    forall i, j :: 0 <= i < j < |s| ==> le(s[i], s[j])
  }

  /** Puts `x` in front of the first element it is `le` to. */
  function Insert<T>(x: T, s: seq<T>, le: (T, T) -> bool): seq<T> {
    if s == [] then [x]
    else if le(x, s[0]) then [x] + s
    else [s[0]] + Insert(x, s[1..], le)
  }

  function Sort<T>(s: seq<T>, le: (T, T) -> bool): seq<T> {
    if s == [] then [] else Insert(s[0], Sort(s[1..], le), le)
  }

  lemma {:induction false} InsertPermutes<T>(x: T, s: seq<T>, le: (T, T) -> bool)
    ensures multiset(Insert(x, s, le)) == multiset(s) + multiset{x}
  {
    if s != [] && !le(x, s[0]) {
      InsertPermutes(x, s[1..], le);
      assert s == [s[0]] + s[1..];
    }
  }

  lemma {:induction false} InsertSorted<T(!new)>(x: T, s: seq<T>, le: (T, T) -> bool)
    requires TotalPreorder(le) && SortedBy(s, le)
    ensures SortedBy(Insert(x, s, le), le)
  {
    if s != [] && !le(x, s[0]) {
      InsertSorted(x, s[1..], le);
      var r := Insert(x, s[1..], le);
      InsertPermutes(x, s[1..], le);
      forall k | 0 <= k < |r| ensures le(s[0], r[k]) {
        assert r[k] in multiset(r);
        if r[k] != x {
          assert r[k] in multiset(s[1..]);
          var m :| 0 <= m < |s[1..]| && s[1..][m] == r[k];
          assert s[m + 1] == r[k];
        }
      }
    }
  }

  /** `Sort(s, le)` is ordered by `le` and holds exactly the elements of `s`. */
  lemma {:induction false} SortCorrect<T(!new)>(s: seq<T>, le: (T, T) -> bool)
    requires TotalPreorder(le)
    ensures SortedBy(Sort(s, le), le)
    ensures multiset(Sort(s, le)) == multiset(s)
  {
    if s != [] {
      SortCorrect(s[1..], le);
      InsertSorted(s[0], Sort(s[1..], le), le);
      InsertPermutes(s[0], Sort(s[1..], le), le);
      assert s == [s[0]] + s[1..];
    }
  }

  /** Python's comparison of strings: code point by code point, a proper prefix first. */
  predicate LexLe(a: string, b: string) {
    a == [] || (b != [] && (a[0] < b[0] || (a[0] == b[0] && LexLe(a[1..], b[1..]))))
  }

  lemma {:induction false} LexLeTotal(a: string, b: string)
    ensures LexLe(a, b) || LexLe(b, a)
  {
    if a != [] && b != [] && a[0] == b[0] {
      LexLeTotal(a[1..], b[1..]);
    }
  }

  lemma {:induction false} LexLeTransitive(a: string, b: string, c: string)
    requires LexLe(a, b) && LexLe(b, c)
    ensures LexLe(a, c)
  {
    if a != [] && a[0] == b[0] && b[0] == c[0] {
      LexLeTransitive(a[1..], b[1..], c[1..]);
    }
  }

  lemma {:induction false} LexLeAntisymmetric(a: string, b: string)
    requires LexLe(a, b) && LexLe(b, a)
    ensures a == b
  {
    if a != [] {
      LexLeAntisymmetric(a[1..], b[1..]);
    }
  }

  lemma LexLeIsTotalPreorder()
    ensures TotalPreorder(LexLe)
  {
    forall a, b ensures LexLe(a, b) || LexLe(b, a) {
      LexLeTotal(a, b);
    }
    forall a, b, c | LexLe(a, b) && LexLe(b, c) ensures LexLe(a, c) {
      LexLeTransitive(a, b, c);
    }
  }

  predicate IntLe(a: int, b: int) { a <= b }

  /** `sorted(xs)` for strings: in ascending code point order, with the same elements. */
  function SortStrings(xs: seq<string>): (r: seq<string>)
    ensures SortedBy(r, LexLe)
    ensures multiset(r) == multiset(xs)
  {
    LexLeIsTotalPreorder();
    SortCorrect(xs, LexLe);
    Sort(xs, LexLe)
  }

  /** `sorted(xs)` for integers: ascending, with the same elements. */
  function SortInts(xs: seq<int>): (r: seq<int>)
    ensures forall i, j :: 0 <= i < j < |r| ==> r[i] <= r[j]
    ensures multiset(r) == multiset(xs)
  {
    SortCorrect(xs, IntLe);
    Sort(xs, IntLe)
  }
}

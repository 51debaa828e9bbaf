/**
 * The few string operations of Python that the applications use: `str.lower`,
 * `str.strip`, the substring test `a in b`, `str.endswith` and
 * `os.path.basename`. White space is Python's full set; lower-casing changes
 * the ASCII letters only.
 */
module PyStr {

  predicate IsUpper(c: char) { 'A' <= c <= 'Z' }

  /** `c.lower()` for a single character (only ASCII letters change). */
  function LowerChar(c: char): (d: char)
    ensures IsUpper(c) ==> d as int == c as int + 32
    ensures !IsUpper(c) ==> d == c
    ensures !IsUpper(d)
  {
    if IsUpper(c) then (c as int + 32) as char else c
  }

  /** `s.lower()`. */
  function Lower(s: string): (r: string)
    ensures |r| == |s|
    ensures forall i :: 0 <= i < |s| ==> r[i] == LowerChar(s[i])
  {
    if s == [] then [] else [LowerChar(s[0])] + Lower(s[1..])
  }

  /** Lower-casing twice is lower-casing once. */
  lemma LowerIdempotent(s: string)
    ensures Lower(Lower(s)) == Lower(s)
  {
    assert forall i :: 0 <= i < |s| ==> Lower(Lower(s))[i] == Lower(s)[i];
  }

  /**
   * The characters `str.isspace` accepts, which `str.strip` removes: the
   * ASCII controls 9-13 and 28-31, the space, NEL, the no-break space and the
   * other Unicode space separators and line and paragraph separators.
   */
  predicate IsSpace(c: char) {
    var n := c as int;
    || 9 <= n <= 13 || 28 <= n <= 32
    || n == 0x85 || n == 0xA0 || n == 0x1680
    || 0x2000 <= n <= 0x200A || n == 0x2028 || n == 0x2029
    || n == 0x202F || n == 0x205F || n == 0x3000
  }

  /** `s.lstrip()`. */
  function StripLeft(s: string): (r: string)
    ensures |r| <= |s| && r == s[|s| - |r|..]
    ensures forall i :: 0 <= i < |s| - |r| ==> IsSpace(s[i])
    ensures r != [] ==> !IsSpace(r[0])
  {
    if s != [] && IsSpace(s[0]) then StripLeft(s[1..]) else s
  }

  /** `s.rstrip()`. */
  function StripRight(s: string): (r: string)
    ensures |r| <= |s| && r == s[..|r|]
    ensures forall i :: |r| <= i < |s| ==> IsSpace(s[i])
    ensures r != [] ==> !IsSpace(r[|r| - 1])
  {
    if s != [] && IsSpace(s[|s| - 1]) then StripRight(s[..|s| - 1]) else s
  }

  /** `s.strip()`: `s` without the white space at either end. */
  function Strip(s: string): (r: string)
    ensures exists i ::
      && 0 <= i <= |s| && OccursAt(s, r, i)
      && (forall k :: 0 <= k < i ==> IsSpace(s[k]))
      && (forall k :: i + |r| <= k < |s| ==> IsSpace(s[k]))
    ensures r != [] ==> !IsSpace(r[0]) && !IsSpace(r[|r| - 1])
    ensures forall k :: 0 <= k < |s| && !IsSpace(s[k]) ==> r != []
  {
    var l := StripLeft(s);
    var r := StripRight(l);
    var i := |s| - |l|;
    assert OccursAt(s, r, i);
    r
  }

  predicate IsPrefix(p: string, s: string) {
    |p| <= |s| && s[..|p|] == p
  }

  /** Python's `needle in hay` for strings. */
  predicate Contains(hay: string, needle: string) {
    exists i :: 0 <= i <= |hay| && OccursAt(hay, needle, i)
  }

  /** `needle` is the slice of `hay` that starts at `i`. */
  predicate OccursAt(hay: string, needle: string, i: int) {
    0 <= i && i + |needle| <= |hay| && hay[i..i + |needle|] == needle
  }

  /** The empty string is inside every string. */
  lemma ContainsEmpty(hay: string)
    ensures Contains(hay, "")
  {
    assert OccursAt(hay, "", 0);
  }

  /** `s.endswith(suffix)`. */
  predicate EndsWith(s: string, suffix: string) {
    |suffix| <= |s| && s[|s| - |suffix|..] == suffix
  }

  /** `r` is what follows the last `/` of `p`, or all of `p` when it has none. */
  predicate IsBaseName(p: string, r: string) {
    EndsWith(p, r) && '/' !in r && (|r| < |p| ==> p[|p| - |r| - 1] == '/')
  }

  /** `os.path.basename(p)`: what follows the last `/`. */
  function BaseName(p: string): (r: string)
    ensures IsBaseName(p, r)
  {
    if p == [] then []
    else if p[|p| - 1] == '/' then []
    else BaseName(p[..|p| - 1]) + [p[|p| - 1]]
  }
}

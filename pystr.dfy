/** The handful of Python string and list operations the adapters rely on,
    with Python's own semantics written out: slices that clamp and accept
    negative bounds, `str.find`, `str.startswith`, `sep.join(parts)` and an
    ASCII-only `str.upper`. */
module PyStr {

  /** Normalises one slice bound the way Python does for a step of 1:
      a negative bound counts from the end, then the bound is clamped to
      [0, n]. */
  function SliceBound(i: int, n: nat): (b: nat)
    ensures b <= n
    ensures 0 <= i <= n ==> b == i
    ensures i > n ==> b == n
    ensures i < 0 ==> b == if i + n < 0 then 0 else i + n
  {
    if i < 0 then (if i + n < 0 then 0 else i + n)
    else if i > n then n
    else i
  }

  /** `s[i:j]` in Python: never fails, empty when the normalised start is
      not before the normalised stop. */
  function PySlice<T>(s: seq<T>, i: int, j: int): (r: seq<T>)
    ensures |r| <= |s|
    ensures 0 <= i <= j <= |s| ==> r == s[i..j]
    ensures 0 <= j <= i ==> r == []
  {
    var a := SliceBound(i, |s|);
    var b := SliceBound(j, |s|);
    if a <= b then s[a..b] else []
  }

  /** `s[i:]` in Python. */
  function PySliceFrom<T>(s: seq<T>, i: int): (r: seq<T>)
    ensures 0 <= i <= |s| ==> r == s[i..]
    ensures i >= |s| ==> r == []
  {
    PySlice(s, i, |s|)
  }

  lemma SliceOfSlice<T>(s: seq<T>, i: nat, j: nat, a: nat, b: nat)
    requires i <= j <= |s| && a <= b <= j - i
    ensures s[i..j][a..b] == s[i + a..i + b]
  {
    var l, r := s[i..j][a..b], s[i + a..i + b];
    assert |l| == |r|;
    forall m | 0 <= m < |l| ensures l[m] == r[m] {
      assert l[m] == s[i..j][a + m] == s[i + a + m];
    }
  }

  lemma SliceConcat<T>(s: seq<T>, a: nat, b: nat, c: nat)
    requires a <= b <= c <= |s|
    ensures s[a..b] + s[b..c] == s[a..c]
  {
  }

  /** `s.startswith(p)`. */
  predicate StartsWith(s: string, p: string) {
    |p| <= |s| && s[..|p|] == p
  }

  /** `s.find(c)` for a one-character needle: the first index holding `c`,
      or -1. */
  function Find(s: string, c: char): (r: int)
    ensures -1 <= r < |s|
    ensures r == -1 <==> c !in s
    ensures r >= 0 ==> s[r] == c && c !in s[..r]
  {
    if |s| == 0 then -1
    else if s[0] == c then 0
    else
      var k := Find(s[1..], c);
      if k == -1 then -1
      else (assert s[..k + 1] == [s[0]] + s[1..][..k]; k + 1)
  }

  /** ASCII upper-casing of one character. */
  function UpperChar(c: char): char {
    if 'a' <= c <= 'z' then (c as int - 'a' as int + 'A' as int) as char else c
  }

  /** `s.upper()`, restricted to the ASCII letters. */
  function Upper(s: string): (r: string)
    ensures |r| == |s|
    ensures forall i :: 0 <= i < |s| ==> r[i] == UpperChar(s[i])
    ensures forall i :: 0 <= i < |r| ==> !('a' <= r[i] <= 'z')
    ensures forall i :: 0 <= i < |s| && !('a' <= s[i] <= 'z') ==> r[i] == s[i]
    ensures forall i :: 0 <= i < |s| && 'a' <= s[i] <= 'z' ==> r[i] as int == s[i] as int - 32
  {
    seq(|s|, i requires 0 <= i < |s| => UpperChar(s[i]))
  }

  /** `sep.join(parts)`. */
  function Join(sep: string, parts: seq<string>): string {
    if |parts| == 0 then ""
    else if |parts| == 1 then parts[0]
    else parts[0] + sep + Join(sep, parts[1..])
  }

  /** A position holding the character, with none before it, is what
      `find` returns. */
  lemma FindFirstAt(s: string, c: char, k: nat)
    requires k < |s| && s[k] == c && c !in s[..k]
    ensures Find(s, c) == k
  {
  }

  /** `s.split(sep)` for a one-character separator: the pieces between
      consecutive separators, always at least one. This is the inverse of
      `Join` on pieces that hold no separator (see SplitJoin). */
  function Split(sep: char, s: string): (r: seq<string>)
    ensures |r| >= 1
  {
    var k := Find(s, sep);
    if k == -1 then [s]
    else [s[..k]] + Split(sep, s[k + 1..])
  }

  /** Concatenation of a sequence of strings, as `''.join(parts)`. */
  function Concat(parts: seq<string>): string {
    if |parts| == 0 then "" else parts[0] + Concat(parts[1..])
  }

  /** Part `j` is the slice of `s` between cut `j` and cut `j + 1`. */
  predicate SliceAt(s: string, parts: seq<string>, cuts: seq<nat>, j: int) {
    && 0 <= j < |parts| && j + 1 < |cuts|
    && cuts[j] <= cuts[j + 1] <= |s|
    && parts[j] == s[cuts[j]..cuts[j + 1]]
  }

  /** Slices of one string laid end to end concatenate to the slice from
      the first cut to the last. */
  lemma {:induction false} ConcatOfSlices(s: string, parts: seq<string>, cuts: seq<nat>)
    requires |cuts| == |parts| + 1 && cuts[|parts|] <= |s|
    requires forall j :: 0 <= j < |parts| ==> SliceAt(s, parts, cuts, j)
    ensures cuts[0] <= cuts[|parts|]
    ensures Concat(parts) == s[cuts[0]..cuts[|parts|]]
  {
    if |parts| > 0 {
      forall j | 0 <= j < |parts| - 1
        ensures SliceAt(s, parts[1..], cuts[1..], j)
      {
        assert SliceAt(s, parts, cuts, j + 1);
      }
      ConcatOfSlices(s, parts[1..], cuts[1..]);
      assert SliceAt(s, parts, cuts, 0);
      SliceConcat(s, cuts[0], cuts[1], cuts[|parts|]);
    }
  }

  lemma {:induction false} ConcatAppend(a: seq<string>, b: seq<string>)
    ensures Concat(a + b) == Concat(a) + Concat(b)
  {
    if |a| == 0 {
      assert a + b == b;
    } else {
      assert (a + b)[1..] == a[1..] + b;
      ConcatAppend(a[1..], b);
    }
  }

  /** A separator-free first piece followed by the separator splits off
      as the first piece. */
  lemma SplitCons(sep: char, p0: string, rest: string)
    requires sep !in p0
    ensures Split(sep, p0 + [sep] + rest) == [p0] + Split(sep, rest)
  {
    var s := p0 + [sep] + rest;
    assert s[..|p0|] == p0 && s[|p0|] == sep;
    FindFirstAt(s, sep, |p0|);
    assert s[|p0| + 1..] == rest;
  }

  /** Splitting a joined sequence of separator-free pieces gives the pieces
      back: a tab-joined row can be read back field by field. */
  lemma {:induction false} SplitJoin(sep: char, parts: seq<string>)
    requires |parts| >= 1
    requires forall i :: 0 <= i < |parts| ==> sep !in parts[i]
    ensures Split(sep, Join([sep], parts)) == parts
  {
    if |parts| == 1 {
      assert Find(parts[0], sep) == -1;
    } else {
      assert sep !in parts[0];
      SplitCons(sep, parts[0], Join([sep], parts[1..]));
      SplitJoin(sep, parts[1..]);
      assert parts == [parts[0]] + parts[1..];
    }
  }
}

/** Order-preserving selections of a sequence. */
module Sequences {

  ghost predicate Subsequence<T>(x: seq<T>, y: seq<T>) {
    if x == [] then true
    else if y == [] then false
    else if x[0] == y[0] then Subsequence(x[1..], y[1..])
    else Subsequence(x, y[1..])
  }

  lemma {:induction false} SubsequenceSkip<T>(x: seq<T>, y: seq<T>)
    requires y != [] && Subsequence(x, y[1..])
    ensures Subsequence(x, y)
    decreases |y|, 0
  {
    if x != [] && x[0] == y[0] {
      SubsequenceTail(x, y[1..]);
    }
  }

  lemma {:induction false} SubsequenceTail<T>(x: seq<T>, y: seq<T>)
    requires x != [] && Subsequence(x, y)
    ensures Subsequence(x[1..], y)
    decreases |y|, 1
  {
    if x[0] == y[0] {
      SubsequenceSkip(x[1..], y);
    } else {
      SubsequenceTail(x, y[1..]);
      SubsequenceSkip(x[1..], y);
    }
  }

  lemma {:induction false} SubsequenceAppend<T>(x: seq<T>, y: seq<T>, m: T)
    requires Subsequence(x, y)
    ensures Subsequence(x, y + [m]) && Subsequence(x + [m], y + [m])
    decreases |y|
  {
    if y == [] {
      assert [m][1..] == [];
    } else {
      assert (y + [m])[1..] == y[1..] + [m];
      if x == [] {
        SubsequenceAppend(x, y[1..], m);
      } else if x[0] == y[0] {
        assert (x + [m])[1..] == x[1..] + [m];
        SubsequenceAppend(x[1..], y[1..], m);
      } else {
        SubsequenceAppend(x, y[1..], m);
      }
    }
  }

  lemma SliceOfSlice<T>(s: seq<T>, a: nat, b: nat, c: nat, d: nat)
    requires a <= b <= |s| && c <= d <= b - a
    ensures s[a..b][c..d] == s[a + c..a + d]
  {
    forall i | 0 <= i < d - c ensures s[a..b][c..d][i] == s[a + c..a + d][i] {
      assert s[a..b][c..d][i] == s[a..b][c + i];
    }
  }

  /** x occurs in y as consecutive elements. */
  ghost predicate Inside<T>(x: seq<T>, y: seq<T>) {
    exists i, j :: 0 <= i <= j <= |y| && x == y[i..j]
  }

  lemma InsideSelf<T>(x: seq<T>)
    ensures Inside(x, x)
  {
    assert x == x[0..|x|];
  }

  lemma InsideTrans<T>(x: seq<T>, y: seq<T>, z: seq<T>)
    requires Inside(x, y) && Inside(y, z)
    ensures Inside(x, z)
  {
    var i, j :| 0 <= i <= j <= |y| && x == y[i..j];
    var k, l :| 0 <= k <= l <= |z| && y == z[k..l];
    SliceOfSlice(z, k, l, i, j);
  }

  predicate IsSuffix<T(==)>(x: seq<T>, y: seq<T>) {
    |x| <= |y| && x == y[|y| - |x|..]
  }
}

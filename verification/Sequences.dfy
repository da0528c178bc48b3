// Concatenations and slices of slices.
module Sequences {

  function Concat<T>(parts: seq<seq<T>>): seq<T>
    decreases |parts|
  {
    if parts == [] then [] else parts[0] + Concat(parts[1..])
  }

  lemma SliceOfSlice<T>(s: seq<T>, a: nat, b: nat, i: nat, j: nat)
    requires a <= b <= |s| && i <= j <= b - a
    ensures s[a..b][i..j] == s[a + i..a + j]
  {
    var x, y := s[a..b][i..j], s[a + i..a + j];
    assert |x| == |y| && forall k :: 0 <= k < |x| ==> x[k] == s[a..b][i + k] == s[a + (i + k)] == y[k];
  }

  lemma SliceOfTail<T>(a: seq<T>, b: seq<T>, i: nat, j: nat)
    requires i <= j <= |b|
    ensures (a + b)[|a| + i..|a| + j] == b[i..j]
  {
    var x, y := (a + b)[|a| + i..|a| + j], b[i..j];
    assert forall k :: 0 <= k < |y| ==> x[k] == (a + b)[|a| + (i + k)] == b[i + k] == y[k];
  }

  // d continues at off with these elements.
  predicate Here<T(==)>(d: seq<T>, off: nat, x: seq<T>) { off + |x| <= |d| && d[off..off + |x|] == x }

  lemma HereSplit<T>(d: seq<T>, off: nat, a: seq<T>, b: seq<T>)
    requires Here(d, off, a + b)
    ensures Here(d, off, a) && Here(d, off + |a|, b)
  {
    var x := a + b;
    SliceOfSlice(d, off, off + |x|, 0, |a|);
    SliceOfSlice(d, off, off + |x|, |a|, |x|);
    assert x[0..|a|] == a && x[|a|..|x|] == b;
  }

  lemma HereInside<T>(d: seq<T>, off: nat, x: seq<T>)
    requires Here(d, off, x)
    ensures off + |x| <= |d|
  {}

  function Zeros8(n: nat): (r: seq<bv8>)
    ensures |r| == n && forall i :: 0 <= i < n ==> r[i] == 0
  {
    seq(n, _ => 0)
  }
}

// Polynomials over GF(2) as bit strings, highest power first, and schoolbook
// long division by a generator. The generator is written without its leading
// term, so it has as many bits as the remainder register.
module Gf2 {

  type Bits = seq<bool>

  function Xor(a: Bits, b: Bits): (r: Bits)
    requires |a| == |b|
    ensures |r| == |a|
    ensures forall i :: 0 <= i < |a| ==> r[i] == (a[i] != b[i])
  {
    seq(|a|, i requires 0 <= i < |a| => a[i] != b[i])
  }

  function Zeros(n: nat): (r: Bits)
    ensures |r| == n && forall i :: 0 <= i < n ==> !r[i]
  {
    seq(n, _ => false)
  }

  // Multiply the register by x and reduce it once.
  function Shift(g: Bits, r: Bits): (s: Bits)
    requires |g| == |r| > 0
    ensures |s| == |r|
    ensures forall i :: 0 <= i < |r| ==> s[i] == ((i + 1 < |r| && r[i + 1]) != (r[0] && g[i]))
  {
    if r[0] then Xor(r[1..] + [false], g) else r[1..] + [false]
  }

  function Shifts(g: Bits, n: nat, r: Bits): (s: Bits)
    requires |g| == |r| > 0
    ensures |s| == |r|
  {
    if n == 0 then r else Shifts(g, n - 1, Shift(g, r))
  }

  // Long division, one message bit at a time, starting from register r.
  function Divide(g: Bits, msg: Bits, r: Bits): (s: Bits)
    requires |g| == |r| > 0
    ensures |s| == |r|
    decreases |msg|
  {
    if msg == [] then r else Divide(g, msg[1..], Shift(g, r[0 := r[0] != msg[0]]))
  }

  function Pad(e: Bits, w: nat): (r: Bits)
    requires |e| <= w
    ensures |r| == w
  {
    e + Zeros(w - |e|)
  }

  lemma {:induction false} ShiftsLinear(g: Bits, n: nat, a: Bits, b: Bits)
    requires |g| == |a| == |b| > 0
    ensures Shifts(g, n, Xor(a, b)) == Xor(Shifts(g, n, a), Shifts(g, n, b))
  {
    if n > 0 {
      assert Shift(g, Xor(a, b)) == Xor(Shift(g, a), Shift(g, b));
      ShiftsLinear(g, n - 1, Shift(g, a), Shift(g, b));
    }
  }

  // A generator whose constant term is 1 loses nothing in a step.
  lemma ShiftInjective(g: Bits, a: Bits, b: Bits)
    requires |g| == |a| == |b| > 0 && g[|g| - 1]
    requires Shift(g, a) == Shift(g, b)
    ensures a == b
  {
    var w := |g|;
    assert Shift(g, a)[w - 1] == a[0] && Shift(g, b)[w - 1] == b[0];
    forall i | 0 <= i < w
      ensures a[i] == b[i]
    {
      if i > 0 { assert Shift(g, a)[i - 1] == Shift(g, b)[i - 1]; }
    }
  }

  lemma {:induction false} ShiftsInjective(g: Bits, n: nat, a: Bits, b: Bits)
    requires |g| == |a| == |b| > 0 && g[|g| - 1]
    requires Shifts(g, n, a) == Shifts(g, n, b)
    ensures a == b
  {
    if n > 0 {
      ShiftsInjective(g, n - 1, Shift(g, a), Shift(g, b));
      ShiftInjective(g, a, b);
    }
  }

  // A message no longer than the register is added to its top and shifted through.
  lemma {:induction false} DivideByShifts(g: Bits, msg: Bits, r: Bits)
    requires |g| == |r| > 0 && |msg| <= |r|
    ensures Divide(g, msg, r) == Shifts(g, |msg|, Xor(r, Pad(msg, |r|)))
    decreases |msg|
  {
    if msg == [] {
      assert Xor(r, Pad(msg, |r|)) == r;
    } else {
      var r1 := Shift(g, r[0 := r[0] != msg[0]]);
      DivideByShifts(g, msg[1..], r1);
      assert Shift(g, Xor(r, Pad(msg, |r|))) == Xor(r1, Pad(msg[1..], |r|));
    }
  }

  lemma {:induction false} DivideConcat(g: Bits, a: Bits, b: Bits, r: Bits)
    requires |g| == |r| > 0
    ensures Divide(g, a + b, r) == Divide(g, b, Divide(g, a, r))
    decreases |a|
  {
    if a == [] {
      assert a + b == b;
    } else {
      assert (a + b)[1..] == a[1..] + b;
      DivideConcat(g, a[1..], b, Shift(g, r[0 := r[0] != a[0]]));
    }
  }

  lemma {:induction false} DivideLinear(g: Bits, m: Bits, n: Bits, r: Bits, s: Bits)
    requires |g| == |r| == |s| > 0 && |m| == |n|
    ensures Divide(g, Xor(m, n), Xor(r, s)) == Xor(Divide(g, m, r), Divide(g, n, s))
    decreases |m|
  {
    if m == [] {
      assert Xor(m, n) == [];
    } else {
      var r0, s0 := r[0 := r[0] != m[0]], s[0 := s[0] != n[0]];
      var x := Xor(r, s);
      assert Xor(m, n)[1..] == Xor(m[1..], n[1..]);
      assert x[0 := x[0] != Xor(m, n)[0]] == Xor(r0, s0);
      assert Shift(g, Xor(r0, s0)) == Xor(Shift(g, r0), Shift(g, s0));
      DivideLinear(g, m[1..], n[1..], Shift(g, r0), Shift(g, s0));
    }
  }

  lemma {:induction false} DivideInjective(g: Bits, msg: Bits, r: Bits, s: Bits)
    requires |g| == |r| == |s| > 0 && g[|g| - 1]
    requires Divide(g, msg, r) == Divide(g, msg, s)
    ensures r == s
    decreases |msg|
  {
    if msg != [] {
      var r0, s0 := r[0 := r[0] != msg[0]], s[0 := s[0] != msg[0]];
      DivideInjective(g, msg[1..], Shift(g, r0), Shift(g, s0));
      ShiftInjective(g, r0, s0);
      assert forall i :: 0 <= i < |r| ==> r[i] == if i == 0 then r0[0] != msg[0] else r0[i];
      assert forall i :: 0 <= i < |r| ==> s[i] == if i == 0 then s0[0] != msg[0] else s0[i];
    }
  }

  // Two bursts of one length, no longer than the register, never collide.
  lemma DivideBurst(g: Bits, m: Bits, n: Bits, r: Bits)
    requires |g| == |r| > 0 && g[|g| - 1]
    requires |m| == |n| <= |r|
    requires Divide(g, m, r) == Divide(g, n, r)
    ensures m == n
  {
    DivideByShifts(g, m, r);
    DivideByShifts(g, n, r);
    var x, y := Xor(r, Pad(m, |r|)), Xor(r, Pad(n, |r|));
    ShiftsInjective(g, |m|, x, y);
    forall i | 0 <= i < |m|
      ensures m[i] == n[i]
    {
      assert x[i] == (r[i] != m[i]) && y[i] == (r[i] != n[i]);
    }
  }

  // Nor do two messages that differ within such a burst, wherever it stands.
  lemma DivideWindow(g: Bits, a: Bits, m: Bits, n: Bits, z: Bits, r: Bits)
    requires |g| == |r| > 0 && g[|g| - 1]
    requires |m| == |n| <= |r|
    requires Divide(g, (a + m) + z, r) == Divide(g, (a + n) + z, r)
    ensures m == n
  {
    hide Divide;
    var c := Divide(g, a, r);
    DivideConcat(g, a + m, z, r);
    DivideConcat(g, a, m, r);
    DivideConcat(g, a + n, z, r);
    DivideConcat(g, a, n, r);
    DivideInjective(g, z, Divide(g, m, c), Divide(g, n, c));
    DivideBurst(g, m, n, c);
  }

  // Bits that start k places down only move up when k steps are taken.
  lemma {:induction false} ShiftsLow(g: Bits, k: nat, low: Bits)
    requires |g| == k + |low| > 0
    ensures Shifts(g, k, Zeros(k) + low) == low + Zeros(k)
    decreases k
  {
    if k == 0 {
      assert Zeros(k) + low == low + Zeros(k);
    } else {
      var next := low + [false];
      assert Shift(g, Zeros(k) + low) == Zeros(k - 1) + next;
      ShiftsLow(g, k - 1, next);
      assert next + Zeros(k - 1) == low + Zeros(k);
    }
  }

  lemma SplitAt(r: Bits, e: Bits)
    requires |e| <= |r|
    ensures Xor(r, Pad(e, |r|)) == Xor(Pad(Xor(r[..|e|], e), |r|), Zeros(|e|) + r[|e|..])
  {
    var k := |e|;
    var a, b := Pad(Xor(r[..k], e), |r|), Zeros(k) + r[k..];
    forall i | 0 <= i < |r|
      ensures (r[i] != Pad(e, |r|)[i]) == (a[i] != b[i])
    {
      if i < k {
        assert !b[i] && a[i] == (r[i] != e[i]);
      } else {
        assert b[i] == r[i] && !a[i] && !Pad(e, |r|)[i];
      }
    }
  }

  // One table step: the top bits index the table, the rest moves up.
  lemma DivideChunk(g: Bits, e: Bits, r: Bits)
    requires |g| == |r| > 0 && |e| <= |r|
    ensures Divide(g, e, r) ==
      Xor(Shifts(g, |e|, Pad(Xor(r[..|e|], e), |r|)), r[|e|..] + Zeros(|e|))
  {
    var k := |e|;
    DivideByShifts(g, e, r);
    SplitAt(r, e);
    ShiftsLinear(g, k, Pad(Xor(r[..k], e), |r|), Zeros(k) + r[k..]);
    ShiftsLow(g, k, r[k..]);
  }
}

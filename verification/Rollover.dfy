// A producer's tick is wide but only its low sixteen bits are on the wire. The
// consumer recovers the rollover count, the next sixteen, from the timestamps
// it happens to receive.
module Rollover {

  const WRAP: nat := 0x1_0000

  type Word = x: int | 0 <= x < 0x1_0000

  // ---- The producer's side ----

  function Ts(p: nat): Word { p % WRAP }

  function Roll(p: nat): Word { p / WRAP % WRAP }

  function Add(a: Word, d: int): Word { (a + d) % WRAP }

  // Two counters, bumped one at a time, hold one position.
  predicate Holds(rollover: Word, ts: Word, p: nat) { rollover == Roll(p) && ts == Ts(p) }

  lemma CountersStep(rollover: Word, ts: Word, p: nat, d: Word)
    requires Holds(rollover, ts, p)
    ensures Holds(if Add(ts, d) < ts then Add(rollover, 1) else rollover, Add(ts, d), p + d)
  {
    Carry(p, d);
  }

  lemma Carry(p: nat, d: Word)
    ensures Ts(p + d) == Add(Ts(p), d)
    ensures Roll(p + d) == if Ts(p + d) < Ts(p) then Add(Roll(p), 1) else Roll(p)
  {
    var q, r := p / WRAP, p % WRAP;
    if r + d < WRAP {
      assert p + d == q * WRAP + (r + d);
      assert (p + d) / WRAP == q && (p + d) % WRAP == r + d;
    } else {
      assert p + d == (q + 1) * WRAP + (r + d - WRAP);
      assert (p + d) / WRAP == q + 1 && (p + d) % WRAP == r + d - WRAP;
    }
  }

  lemma IdlePosition(p: nat)
    ensures Ts(p) <= p && Ts(p - Ts(p)) == 0 && Roll(p - Ts(p)) == Roll(p)
  {
    assert p == p / WRAP * WRAP + Ts(p);
  }

  // ---- The consumer's side ----

  datatype Tracker = Tracker(initialized: bool, last: Word, count: Word)

  predicate Wrapped(last: Word, ts: Word) { ts - last < -0x4000 }

  function Track(t: Tracker, ts: Word): Tracker {
    Tracker(true, ts, if t.initialized && Wrapped(t.last, ts) then Add(t.count, 1) else t.count)
  }

  // The tracker has just seen position p.
  predicate At(t: Tracker, p: nat) { t.initialized && t.last == Ts(p) }

  // How far its count is behind the producer's.
  function Deficit(t: Tracker, p: nat): Word { Behind(Roll(p), t.count) }

  function Behind(count: Word, other: Word): Word { (count - other) % WRAP }

  // An advance of less than a full wrap is seen for what it is, unless it wraps
  // and is as long as 0xC000.
  lemma AdvanceExact(t: Tracker, p: nat, d: Word)
    requires At(t, p)
    ensures At(Track(t, Ts(p + d)), p + d)
    ensures Deficit(Track(t, Ts(p + d)), p + d) == Deficit(t, p) <==> d < 0xC000 || Ts(p) + d < WRAP
  {
    Carry(p, d);
  }

  // So 0xC000 is the exact limit of what is safe from every position.
  lemma LimitIsSharp(d: Word)
    ensures d < 0xC000 <==> (forall t, p: nat | At(t, p) :: Deficit(Track(t, Ts(p + d)), p + d) == Deficit(t, p))
  {
    if d < 0xC000 {
      forall t, p: nat | At(t, p)
        ensures Deficit(Track(t, Ts(p + d)), p + d) == Deficit(t, p)
      {
        AdvanceExact(t, p, d);
      }
    } else {
      var p := 0xFFFF;
      var t := Tracker(true, 0xFFFF, 0);
      assert At(t, p);
      AdvanceExact(t, p, d);
    }
  }

  // ---- Whole runs ----

  // One frame after the other: sent from position p, received or lost.
  function Received(p: nat, step: Word, fates: seq<bool>): (r: seq<nat>)
    decreases |fates|
  {
    if fates == [] then []
    else (if fates[0] then [p] else []) + Received(p + step, step, fates[1..])
  }

  // What the tracker's count is at each frame received.
  function Counts(t: Tracker, ps: seq<nat>): (r: seq<Word>)
    ensures |r| == |ps|
    decreases |ps|
  {
    if ps == [] then [] else
      var u := Track(t, Ts(ps[0]));
      [u.count] + Counts(u, ps[1..])
  }

  // The tracker can tell how it got from p to q.
  predicate Tells(p: nat, q: nat) { p <= q < p + WRAP && (q - p < 0xC000 || Ts(p) + (q - p) < WRAP) }

  // It can, from p on, for every two successive positions.
  predicate Close(p: nat, ps: seq<nat>)
    decreases |ps|
  {
    ps == [] || (Tells(p, ps[0]) && Close(ps[0], ps[1..]))
  }

  // The deficit a run starts with is the deficit at every frame received.
  lemma {:induction false} DeficitKept(t: Tracker, p: nat, ps: seq<nat>, i: nat)
    requires At(t, p) && Close(p, ps) && i < |ps|
    ensures Behind(Roll(ps[i]), Counts(t, ps)[i]) == Deficit(t, p)
    decreases |ps|
  {
    var u := Track(t, Ts(ps[0]));
    AdvanceExact(t, p, ps[0] - p);
    if i > 0 {
      DeficitKept(u, ps[0], ps[1..], i - 1);
    }
  }

  // At most m frames are lost in a row, k of them already.
  predicate LossAtMost(fates: seq<bool>, k: nat, m: nat)
    decreases |fates|
  {
    fates == [] || (if fates[0] then LossAtMost(fates[1..], 0, m) else k < m && LossAtMost(fates[1..], k + 1, m))
  }

  lemma {:induction false} LossKeepsClose(p: nat, k: nat, fates: seq<bool>, step: Word, m: nat)
    requires k <= m && (m + 1) * step < 0xC000 && LossAtMost(fates, k, m)
    ensures Close(p, Received(p + (k + 1) * step, step, fates))
    decreases |fates|
  {
    if fates != [] {
      var q := p + (k + 1) * step;
      assert (k + 1) * step <= (m + 1) * step;
      if fates[0] {
        LossKeepsClose(q, 0, fates[1..], step, m);
        assert q + (0 + 1) * step == q + step;
        var rest := Received(q + step, step, fates[1..]);
        assert ([q] + rest)[1..] == rest;
      } else {
        assert q + step == p + (k + 1 + 1) * step;
        LossKeepsClose(p, k + 1, fates[1..], step, m);
        assert [] + Received(q + step, step, fates[1..]) == Received(q + step, step, fates[1..]);
      }
    }
  }

  // The scanner produces 390 ticks a frame: 50 ms in units of 128 us.
  const TICKS: Word := 390

  // With the right count at one frame received, every later one is counted
  // right as long as at most 125 are lost in a row.
  lemma CountsAgree(t: Tracker, p: nat, fates: seq<bool>, i: nat)
    requires At(t, p) && t.count == Roll(p) && LossAtMost(fates, 0, 125)
    requires i < |Received(p + TICKS, TICKS, fates)|
    ensures Counts(t, Received(p + TICKS, TICKS, fates))[i] == Roll(Received(p + TICKS, TICKS, fates)[i])
  {
    var ps := Received(p + TICKS, TICKS, fates);
    LossKeepsClose(p, 0, fates, TICKS, 125);
    DeficitKept(t, p, ps, i);
  }

  // And a count that is wrong stays wrong.
  lemma WrongCountStays(t: Tracker, p: nat, fates: seq<bool>, i: nat)
    requires At(t, p) && t.count != Roll(p) && LossAtMost(fates, 0, 125)
    requires i < |Received(p + TICKS, TICKS, fates)|
    ensures Counts(t, Received(p + TICKS, TICKS, fates))[i] != Roll(Received(p + TICKS, TICKS, fates)[i])
  {
    var ps := Received(p + TICKS, TICKS, fates);
    LossKeepsClose(p, 0, fates, TICKS, 125);
    DeficitKept(t, p, ps, i);
  }

  // 126 lost in a row can break the count: a frame just before the wrap, then
  // one 127 steps on.
  lemma LossOf126Breaks()
    ensures var p := 0xFFFF; var q := p + 127 * TICKS;
      var t := Tracker(true, Ts(p), Roll(p));
      At(t, p) && Track(t, Ts(q)).count != Roll(q)
  {}
}

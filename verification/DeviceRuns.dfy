// A scanner that follows a device over a whole run: time coordination messages
// arrive, frames are produced, and some of them are received.
module DeviceRuns {
  import opened Rollover
  import opened SafetyFrame
  import opened SafetyLink
  import opened ColdStart
  import opened TimeCorrection

  // ---- How far the tick can go ----

  // The correction stays below two seconds.
  const CORRECTION: nat := 0x4000

  predicate Gentle(s: Setup, es: seq<TimeCorrection.Event>) {
    forall k :: 0 <= k <= |es| ==> Reached(s, es, k).value <= CORRECTION
  }

  function Larger(a: int, b: int): int { if a >= b then a else b }

  // What the local clock alone makes of a reading.
  function Raw(s: Setup, start: int, now: int): int { s.initialTs + Quotient(now - start, 128) }

  lemma RawGrows(s: Setup, start: int, now: int, later: int)
    requires start <= now <= later
    ensures s.initialTs <= Raw(s, start, now) <= Raw(s, start, later) <= Raw(s, start, now) + (later - now) / 128 + 1
  {}

  lemma StaysActive(s: Setup, t: Timing, e: TimeCorrection.Event)
    requires t.active
    ensures Step(s, t, e).active && Step(s, t, e).start == t.start
  {}

  // One event.
  lemma StepBound(s: Setup, t: Timing, e: TimeCorrection.Event, most: int)
    requires t.active && Step(s, t, e).value <= CORRECTION
    requires t.ticks <= most && Raw(s, t.start, e.now) + CORRECTION <= most
    ensures Step(s, t, e).ticks <= most + 1
    ensures e.Frame? ==> Raw(s, t.start, e.now) <= Step(s, t, e).ticks
  {
    hide Slew, Quotient;
  }

  lemma {:induction false} RangeBound(s: Setup, now: int, es: seq<TimeCorrection.Event>, i: nat, n: nat)
    requires Nondecreasing(now, es) && i < n <= |es| && es[i].Frame? && Reached(s, es, i).active && Gentle(s, es)
    ensures var t := Reached(s, es, i);
      Reached(s, es, n).active && Reached(s, es, n).start == t.start <= ClockAt(now, es, n) &&
      Raw(s, t.start, es[i].now) <= Reached(s, es, i + 1).ticks &&
      Reached(s, es, n).ticks <=
      Larger(Reached(s, es, i + 1).ticks, Raw(s, t.start, ClockAt(now, es, n)) + CORRECTION) + (n - i - 1)
    decreases n
  {
    hide Reached, Raw, Step, Nondecreasing;
    var t := Reached(s, es, i);
    ReachedSound(s, now, es, n);
    ReachedNext(s, es, n - 1);
    var most := Larger(Reached(s, es, i + 1).ticks, Raw(s, t.start, ClockAt(now, es, n)) + CORRECTION) + (n - i - 2);
    if n == i + 1 {
      ReachedSound(s, now, es, i);
      FirstBound(s, t, es[i]);
      StaysActive(s, t, es[i]);
    } else {
      RangeBound(s, now, es, i, n - 1);
      StaysActive(s, Reached(s, es, n - 1), es[n - 1]);
      ClockNext(now, es, n - 1);
      RawGrows(s, t.start, ClockAt(now, es, n - 1), ClockAt(now, es, n));
      StepBound(s, Reached(s, es, n - 1), es[n - 1], most);
    }
  }

  lemma FirstBound(s: Setup, t: Timing, e: TimeCorrection.Event)
    requires t.active && e.Frame?
    ensures Raw(s, t.start, e.now) <= Step(s, t, e).ticks
  {
    hide Slew, Quotient;
  }

  lemma {:induction false} ClockNext(now: int, es: seq<TimeCorrection.Event>, i: nat)
    requires Nondecreasing(now, es) && i < |es|
    ensures ClockAt(now, es, i) <= ClockAt(now, es, i + 1)
    decreases i
  {
    if i > 0 { ClockNext(es[0].now, es[1..], i - 1); }
  }

  // ---- Frames received ----

  // Between two frames received fewer than 3.1 seconds pass, and fewer events than
  // the wraps leave room for.
  predicate Paced(es: seq<TimeCorrection.Event>, a: nat, b: nat) {
    a < b < |es| && b - a < 0x2000 && es[b].now - es[a].now <= 0x6000 * 128 - 128
  }

  function Position(s: Setup, es: seq<TimeCorrection.Event>, a: nat): nat
    requires a < |es| && Reached(s, es, a + 1).ticks >= 0
  {
    Reached(s, es, a + 1).ticks + s.initialRollover * WRAP
  }

  predicate FrameAt(s: Setup, es: seq<TimeCorrection.Event>, a: nat) {
    a < |es| && es[a].Frame? && Reached(s, es, a).active && Reached(s, es, a + 1).ticks >= 0
  }

  lemma PacedTells(s: Setup, now: int, es: seq<TimeCorrection.Event>, a: nat, b: nat)
    requires Nondecreasing(now, es) && Gentle(s, es) && FrameAt(s, es, a) && FrameAt(s, es, b) && Paced(es, a, b)
    ensures Tells(Position(s, es, a), Position(s, es, b))
  {
    hide Reached, Raw, Nondecreasing;
    var t := Reached(s, es, a);
    RangeBound(s, now, es, a, a + 1);
    RangeBound(s, now, es, a, b + 1);
    TickNeverDecreases(s, now, es, a + 1, b + 1);
    ReachedSound(s, now, es, a);
    ClockNext(now, es, a);
    assert ClockAt(now, es, a + 1) == es[a].now && ClockAt(now, es, b + 1) == es[b].now;
    if es[a].now <= es[b].now {
      RawGrows(s, t.start, es[a].now, es[b].now);
    }
    Ordered(now, es, a, b);
  }

  lemma {:induction false} Ordered(now: int, es: seq<TimeCorrection.Event>, a: nat, b: nat)
    requires Nondecreasing(now, es) && a <= b < |es|
    ensures es[a].now <= es[b].now
    decreases b
  {
    if a < b {
      Ordered(now, es, a, b - 1);
      ClockNext(now, es, b);
    }
  }

  // The frames received are those of some of the events, paced as they must be.
  predicate Picks(s: Setup, es: seq<TimeCorrection.Event>, js: seq<nat>) {
    && (forall k :: 0 <= k < |js| ==> FrameAt(s, es, js[k]))
    && (forall k :: 0 <= k < |js| - 1 ==> Paced(es, js[k], js[k + 1]))
  }

  predicate FramesOf(s: Setup, es: seq<TimeCorrection.Event>, js: seq<nat>, fs: seq<Sent>)
    requires Picks(s, es, js)
  {
    |fs| == |js| && forall k :: 0 <= k < |fs| ==> ShortData(fs[k]) && fs[k].p == Position(s, es, js[k])
  }

  lemma {:induction false} PicksClose(s: Setup, now: int, es: seq<TimeCorrection.Event>, js: seq<nat>, fs: seq<Sent>)
    requires Nondecreasing(now, es) && Gentle(s, es) && Picks(s, es, js) && FramesOf(s, es, js, fs) && js != []
    ensures Close(fs[0].p, Positions(fs[1..]))
    decreases |js|
  {
    hide Position, FrameAt, Paced, Tells, ShortData, Gentle, Nondecreasing;
    if |js| > 1 {
      assert FrameAt(s, es, js[0]) && FrameAt(s, es, js[1]) && Paced(es, js[0], js[0 + 1]);
      PacedTells(s, now, es, js[0], js[1]);
      PicksClose(s, now, es, js[1..], fs[1..]);
      assert Positions(fs[1..])[0] == fs[1].p && Positions(fs[1..])[1..] == Positions(fs[1..][1..]);
    }
  }

  // Whatever the clock readings and the time coordination messages of a run: as
  // long as the correction stays below two seconds and no two frames received are
  // more than three seconds apart, a scanner that starts from the count of the
  // first takes every frame, and any other none.
  lemma ScannerFollowsDevice(
      s: Setup, now: int, es: seq<TimeCorrection.Event>, js: seq<nat>, fs: seq<Sent>, t: Tracker, seeds: Seeds, i: nat)
    requires Nondecreasing(now, es) && Gentle(s, es) && Picks(s, es, js) && FramesOf(s, es, js, fs)
    requires !t.initialized && i < |fs|
    ensures var u := Reached(s, es, js[i] + 1);
      OnWire(fs[i], seeds) ==
        Encode(SafetyFrame.Frame.Frame(fs[i].data, fs[i].mode, W(u.ts)), Extended, seeds, W(u.rollover))
    ensures ScannerRun(t, fs, seeds)[i].Checked?
    ensures
      if t.count == Roll(fs[0].p) then ScannerRun(t, fs, seeds)[i].result == Valid(FrameOf(fs[i]))
      else ScannerRun(t, fs, seeds)[i].result.Invalid?
  {
    hide Nondecreasing, Gentle, Close, ScannerRun, FrameOf, OnWire, Encode, W, Reached, Sound;
    PicksClose(s, now, es, js, fs);
    ScannerFromFirst(t, fs, seeds, i);
    assert FrameAt(s, es, js[i]);
    ReachedSound(s, now, es, js[i]);
    ClockNext(now, es, js[i]);
    SoundLater(Reached(s, es, js[i]), ClockAt(now, es, js[i]), es[js[i]].now);
    DeviceSends(s, Reached(s, es, js[i]), es[js[i]].now, fs[i].data, fs[i].mode, seeds);
    ReachedNext(s, es, js[i]);
  }

  lemma SoundLater(t: Timing, now: int, later: int)
    requires Sound(t, now) && now <= later
    ensures Sound(t, later)
  {}
}

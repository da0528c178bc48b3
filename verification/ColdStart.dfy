// The start of a connection: a producer that idles until it is activated, and
// consumers that have seen no frame yet.
module ColdStart {
  import opened Rollover
  import opened SafetyLink
  import opened SafetyFrame
  import TimeCorrection

  // ---- From the first frame on ----

  // A device takes the whole of a run of short frames, or none of it, by whether
  // the count it starts from is the one the first frame was built with.
  lemma DeviceFromFirst(t: Tracker, initial: Word, fs: seq<Sent>, s: Seeds, i: nat)
    requires !t.initialized && i < |fs| && forall f | f in fs :: ShortData(f)
    requires Close(fs[0].p, Positions(fs[1..]))
    ensures DeviceRun(t, initial, fs, s)[i].Checked?
    ensures
      if initial == Roll(fs[0].p) || (!RunIdle(fs[i].mode) && Roll(fs[i].p) == 0)
      then DeviceRun(t, initial, fs, s)[i].result == Valid(FrameOf(fs[i]))
      else DeviceRun(t, initial, fs, s)[i].result.Invalid?
  {
    hide OnWire, DeviceStep, FrameOf, RunIdle, SomeData;
    ShortIsSome(fs);
    DeviceFrame(t, initial, fs[0], s);
    if i > 0 {
      DeviceRunClose(DeviceTrack(t, initial, Ts(fs[0].p)), initial, fs[0].p, fs[1..], s, i - 1);
    }
  }

  lemma ScannerFromFirst(t: Tracker, fs: seq<Sent>, s: Seeds, i: nat)
    requires !t.initialized && i < |fs| && forall f | f in fs :: ShortData(f)
    requires Close(fs[0].p, Positions(fs[1..]))
    ensures ScannerRun(t, fs, s)[i].Checked?
    ensures if t.count == Roll(fs[0].p) then ScannerRun(t, fs, s)[i].result == Valid(FrameOf(fs[i]))
      else ScannerRun(t, fs, s)[i].result.Invalid?
  {
    hide OnWire, ScannerStep, FrameOf, SomeData;
    ShortIsSome(fs);
    ScannerFrame(t, fs[0], s);
    if i > 0 {
      ScannerRunClose(Track(t, Ts(fs[0].p)), fs[0].p, fs[1..], s, i - 1);
    }
  }

  // ---- The scanner's producer, from idle to active ----

  datatype Event = Activated | Produced(received: bool)

  function Fates(es: seq<Event>): seq<bool>
    decreases |es|
  {
    if es == [] then [] else (if es[0].Produced? then [es[0].received] else []) + Fates(es[1..])
  }

  // The positions of the frames received. An idle frame carries timestamp 0
  // under the count of position p; only an active one advances.
  function Seen(p: nat, active: bool, es: seq<Event>): seq<nat>
    decreases |es|
  {
    if es == [] then []
    else
      match es[0]
      case Activated => Seen(p, true, es[1..])
      case Produced(received) =>
        (if received then [if active then p else p - Ts(p)] else []) +
          Seen(if active then p + TICKS else p, active, es[1..])
  }

  lemma {:induction false} ActiveSeen(p: nat, es: seq<Event>)
    ensures Seen(p, true, es) == Received(p, TICKS, Fates(es))
    decreases |es|
  {
    if es != [] {
      match es[0]
      case Activated =>
        assert Fates(es) == Fates(es[1..]);
        ActiveSeen(p, es[1..]);
      case Produced(received) =>
        ActiveSeen(p + TICKS, es[1..]);
        assert Fates(es)[1..] == Fates(es[1..]);
    }
  }

  // No more than this, and 125 lost frames do not take an idle consumer past a
  // wrap it could not see.
  const LATEST: Word := 16785

  // The first active frame received, j frames after activation.
  lemma {:induction false} FirstActive(p: nat, j: nat, k: nat, fates: seq<bool>)
    requires Ts(p) <= LATEST && j <= k <= 125 && LossAtMost(fates, k, 125)
    ensures var ps := Received(p + j * TICKS, TICKS, fates);
      Close(p - Ts(p), ps) && (ps != [] ==> Roll(ps[0]) == Roll(p) && Close(ps[0], ps[1..]))
    decreases |fates|
  {
    if fates != [] {
      var r := p + j * TICKS;
      IdlePosition(p);
      if fates[0] {
        LossKeepsClose(r, 0, fates[1..], TICKS, 125);
        assert r + (0 + 1) * TICKS == r + TICKS;
        assert Received(r, TICKS, fates)[1..] == Received(r + TICKS, TICKS, fates[1..]);
        SameRoll(p, j * TICKS);
      } else {
        assert p + (j + 1) * TICKS == r + TICKS;
        FirstActive(p, j + 1, k + 1, fates[1..]);
        assert Received(r, TICKS, fates) == Received(r + TICKS, TICKS, fates[1..]);
      }
    }
  }

  lemma SameRoll(p: nat, d: nat)
    requires Ts(p) + d < WRAP
    ensures Roll(p + d) == Roll(p)
  {
    assert p + d == p / WRAP * WRAP + (Ts(p) + d);
  }

  lemma {:induction false} ColdClose(p: nat, k: nat, es: seq<Event>)
    requires Ts(p) <= LATEST && k <= 125 && LossAtMost(Fates(es), k, 125)
    ensures var ps := Seen(p, false, es);
      Close(p - Ts(p), ps) && (ps != [] ==> Roll(ps[0]) == Roll(p) && Close(ps[0], ps[1..]))
    decreases |es|
  {
    if es != [] {
      match es[0]
      case Activated =>
        assert Fates(es) == Fates(es[1..]);
        ActiveSeen(p, es[1..]);
        FirstActive(p, 0, k, Fates(es[1..]));
      case Produced(received) =>
        assert Fates(es)[1..] == Fates(es[1..]);
        IdlePosition(p);
        ColdClose(p, if received then 0 else k + 1, es[1..]);
        if received {
          assert Seen(p, false, es)[1..] == Seen(p, false, es[1..]);
        } else {
          assert Seen(p, false, es) == Seen(p, false, es[1..]);
        }
    }
  }

  // Whenever the connection is activated, with at most 125 frames lost in a row
  // and an initial timestamp of at most 16785: a device that starts from the
  // producer's rollover count takes every frame it receives; one that starts
  // from another takes none but the idle ones of rollover 0.
  lemma ColdStartExact(t: Tracker, initial: Word, p: nat, es: seq<Event>, fs: seq<Sent>, s: Seeds, i: nat)
    requires !t.initialized && Ts(p) <= LATEST && LossAtMost(Fates(es), 0, 125)
    requires Positions(fs) == Seen(p, false, es) && i < |fs| && forall f | f in fs :: ShortData(f)
    ensures DeviceRun(t, initial, fs, s)[i].Checked?
    ensures
      if initial == Roll(p) || (!RunIdle(fs[i].mode) && Roll(fs[i].p) == 0)
      then DeviceRun(t, initial, fs, s)[i].result == Valid(FrameOf(fs[i]))
      else DeviceRun(t, initial, fs, s)[i].result.Invalid?
  {
    hide DeviceRun, FrameOf, Seen, RunIdle, Close;
    ColdClose(p, 0, es);
    assert Positions(fs)[1..] == Positions(fs[1..]);
    assert Positions(fs)[0] == fs[0].p;
    DeviceFromFirst(t, initial, fs, s, i);
  }

  // ---- The bound on the initial timestamp is exact ----

  // A device that starts from the producer's count takes every frame of every
  // such run.
  ghost predicate AllTaken(p: nat) {
    forall t: Tracker, es: seq<Event>, fs: seq<Sent>, s: Seeds, i: nat |
      !t.initialized && ColdRun(p, es, fs) && i < |fs| :: TakesFrame(t, Roll(p), fs, s, i)
  }

  predicate ColdRun(p: nat, es: seq<Event>, fs: seq<Sent>) {
    LossAtMost(Fates(es), 0, 125) && Positions(fs) == Seen(p, false, es) && forall f | f in fs :: ShortData(f)
  }

  predicate TakesFrame(t: Tracker, initial: Word, fs: seq<Sent>, s: Seeds, i: nat)
    requires i < |fs|
  {
    DeviceRun(t, initial, fs, s)[i] == Checked(Valid(FrameOf(fs[i])))
  }

  function Lost(n: nat): (r: seq<Event>)
    ensures |r| == n
    decreases n
  {
    if n == 0 then [] else [Produced(false)] + Lost(n - 1)
  }

  lemma {:induction false} LostThenOne(p: nat, n: nat, k: nat)
    requires k + n <= 125
    ensures Seen(p, true, Lost(n) + [Produced(true)]) == [p + n * TICKS]
    ensures LossAtMost(Fates(Lost(n) + [Produced(true)]), k, 125)
    decreases n
  {
    var es := Lost(n) + [Produced(true)];
    if n == 0 {
      assert es == [Produced(true)];
      assert Fates(es) == [true];
    } else {
      assert es[1..] == Lost(n - 1) + [Produced(true)];
      LostThenOne(p + TICKS, n - 1, k + 1);
      assert Fates(es)[1..] == Fates(es[1..]);
    }
  }

  // An idle frame, activation, 125 lost frames and one more.
  function Gap(): seq<Event> { [Produced(true), Activated] + (Lost(125) + [Produced(true)]) }

  lemma IdleThenActive(p: nat, rest: seq<Event>)
    ensures Seen(p, false, [Produced(true), Activated] + rest) == [p - Ts(p)] + Seen(p, true, rest)
    ensures Fates([Produced(true), Activated] + rest) == [true] + Fates(rest)
  {
    hide Ts;
    var es, later := [Produced(true), Activated] + rest, [Activated] + rest;
    assert es[1..] == later && later[1..] == rest;
    assert Seen(p, false, later) == Seen(p, true, rest) && Fates(later) == [] + Fates(rest) == Fates(rest);
  }

  lemma GapSeen(p: nat)
    ensures Seen(p, false, Gap()) == [p - Ts(p), p + 125 * TICKS] && LossAtMost(Fates(Gap()), 0, 125)
  {
    hide Lost, Seen, Fates, Ts;
    var rest := Lost(125) + [Produced(true)];
    LostThenOne(p, 125, 0);
    IdleThenActive(p, rest);
    assert ([true] + Fates(rest))[1..] == Fates(rest);
  }

  function GapFrames(p: nat): seq<Sent> { [Sent(p - Ts(p), [0], 0x84), Sent(p + 125 * TICKS, [0], 0x84)] }

  lemma GapUnseen(p: nat)
    requires Ts(p) > LATEST
    ensures var q := p + 125 * TICKS; !Wrapped(Ts(p - Ts(p)), Ts(q)) && Roll(q) != Roll(p)
  {
    Carry(p, 125 * TICKS);
    IdlePosition(p);
  }

  lemma ShortPeeks(f: Sent, g: Sent, s: Seeds)
    requires ShortData(f) && ShortData(g)
    ensures Peeks([f, g], s)[..2] == [Ts(f.p), Ts(g.p)] &&
      Wraps(Ts(f.p), [Ts(g.p)]) == if Wrapped(Ts(f.p), Ts(g.p)) then 1 else 0
  {
    hide Ts, Wrapped, LastCode;
    assert [Ts(g.p)][1..] == [];
  }

  // With any later initial timestamp such a gap takes the producer past a wrap
  // that the device does not see.
  lemma GapBreaks(p: nat, s: Seeds)
    requires Ts(p) > LATEST
    ensures ColdRun(p, Gap(), GapFrames(p)) && !TakesFrame(Tracker(false, 0, 0), Roll(p), GapFrames(p), s, 1)
  {
    hide DeviceRun, FrameOf, Peeks, Wraps, Wrapped, Ts, Roll, Gap, Seen, Fates;
    var fs, q := GapFrames(p), p + 125 * TICKS;
    GapSeen(p);
    assert Positions(fs) == [p - Ts(p), q];
    ShortIsSome(fs);
    ShortPeeks(fs[0], fs[1], s);
    GapUnseen(p);
    assert RunIdle(fs[1].mode);
    assert [Ts(p - Ts(p)), Ts(q)][1..] == [Ts(q)];
    OneMore(Roll(p), 0);
    DeviceRunExact(Tracker(false, 0, 0), Roll(p), fs, s, 1);
  }

  // The bound is exact: with an initial timestamp of at most 16785 every run with
  // at most 125 frames lost in a row is taken whole, with a later one not.
  lemma LatestExact(p: nat)
    ensures Ts(p) <= LATEST <==> AllTaken(p)
  {
    hide DeviceRun, FrameOf, Seen, Fates, Gap;
    if Ts(p) <= LATEST {
      forall t: Tracker, es: seq<Event>, fs: seq<Sent>, s: Seeds, i: nat |
        !t.initialized && ColdRun(p, es, fs) && i < |fs|
        ensures TakesFrame(t, Roll(p), fs, s, i)
      {
        ColdStartExact(t, Roll(p), p, es, fs, s, i);
      }
    } else {
      GapBreaks(p, Seeds(0, 0, 0));
    }
  }

  // ---- The device's producer ----

  // What a device sends is the frame of its corrected tick, so that a scanner
  // follows it as it follows any run of positions.
  lemma DeviceSends(setup: TimeCorrection.Setup, t: TimeCorrection.Timing, now: int, data: seq<bv8>, mode: bv8,
    s: Seeds)
    requires TimeCorrection.Sound(t, now) && t.active
    ensures var u := TimeCorrection.Produce(setup, t, now);
      u.ticks >= 0 &&
      Encode(Frame(data, mode, W(u.ts)), Extended, s, W(u.rollover)) ==
      OnWire(Sent(u.ticks + setup.initialRollover * WRAP, data, mode), s)
  {
    hide Encode, W;
    TimeCorrection.ProduceAhead(setup, t, now);
    TimeCorrection.PairIsTick(setup, t, now);
  }
}

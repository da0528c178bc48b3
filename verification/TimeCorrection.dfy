// The tick a safety device sends: the local clock in units of 128 us, plus a
// correction that is slewed towards what the consumer's time messages ask for.
module TimeCorrection {
  import opened Rollover

  // A sixteen-bit difference, read as a signed number.
  function Signed(x: int): int { var r := x % WRAP; if r < 0x8000 then r else r - WRAP }

  // Division that truncates towards zero.
  function Quotient(x: int, d: nat): int
    requires d > 0
  {
    if x >= 0 then x / d else -(-x / d)
  }

  datatype Setup = Setup(initialTs: Word, initialRollover: Word, constant: Word, rpi: nat)

  datatype Timing = Timing(
    active: bool, start: int, lastFrame: int, produced: Word, settled: bool,
    value: Word, goal: Word, ticks: int, ts: Word, rollover: Word)

  // ---- A frame is produced ----

  // One step of the applied correction towards its goal.
  function Slew(value: Word, goal: Word): Word {
    var delta := Signed(goal - value);
    if value == goal then value
    else if delta > 0 then
      var step := if delta / 8 > 1 then delta / 8 else 1;
      Add(value, if step > delta then delta else step)
    else goal
  }

  function RawTicks(s: Setup, t: Timing, now: int): int { s.initialTs + Quotient(now - t.start, 128) }

  // Never back from what was sent before.
  function Forward(previous: int, corrected: int): int {
    if previous != 0 && corrected < previous then previous + 1 else corrected
  }

  function Produce(s: Setup, t: Timing, now: int): Timing {
    if !t.active then t
    else
      var raw := RawTicks(s, t, now);
      var value := Slew(t.value, t.goal);
      var ticks := Forward(t.ticks, raw + value);
      t.(lastFrame := now, produced := raw % WRAP, value := value, ticks := ticks,
         ts := ticks % WRAP, rollover := (s.initialRollover + ticks / WRAP) % WRAP)
  }

  // ---- A time coordination message arrives ----

  function Activate(s: Setup, t: Timing, now: int): Timing {
    if t.active then t
    else t.(active := true, ts := s.initialTs, rollover := s.initialRollover, start := now)
  }

  predicate Late(t: Timing, now: int) { t.lastFrame != 0 && now - t.lastFrame > 2000 }

  function WorstCase(s: Setup, t: Timing, consumerTime: Word): Word {
    (consumerTime - t.produced - s.constant) % WRAP
  }

  function Threshold(s: Setup): int { if s.rpi / 128 < 1 then 1 else s.rpi / 128 }

  function Adjust(s: Setup, t: Timing, worst: Word): Timing {
    var delta := Signed(worst - t.value);
    if delta <= 0 then t
    else if t.value == 0 || delta <= Threshold(s) then t.(value := worst, goal := worst)
    else if Signed(worst - t.goal) > 0 then t.(goal := worst)
    else t
  }

  function Coordinate(s: Setup, t0: Timing, now: int, consumerTime: Word): Timing {
    var t := Activate(s, t0, now);
    if Late(t, now) then t
    else if !t.settled then t.(settled := true)
    else Adjust(s, t, WorstCase(s, t, consumerTime))
  }

  // ---- What a message asks for ----

  // The correction asked for brings the last produced timestamp, with the
  // connection's constant, to the consumer's time; there is exactly one.
  predicate AsksFor(s: Setup, t: Timing, consumerTime: Word, w: Word) {
    (t.produced + w + s.constant) % WRAP == consumerTime
  }

  lemma AsksForOne(s: Setup, t: Timing, consumerTime: Word, v: Word, w: Word)
    ensures AsksFor(s, t, consumerTime, WorstCase(s, t, consumerTime))
    ensures AsksFor(s, t, consumerTime, v) && AsksFor(s, t, consumerTime, w) ==> v == w
  {}

  // Ahead by less than half a wrap.
  predicate AheadOf(w: Word, v: Word) { 0 < (w - v) % WRAP < 0x8000 }

  // A message is heard once one was skipped and if it comes no more than 2 ms after
  // a frame. It moves the correction at once if that is still zero or no more than
  // one interval of 128 us units behind; further ahead it moves the goal alone.
  lemma MessageExact(s: Setup, t: Timing, now: int, consumerTime: Word, w: Word)
    requires AsksFor(s, t, consumerTime, w)
    ensures
      var u := Coordinate(s, t, now, consumerTime);
      var inTime := t.lastFrame == 0 || now <= t.lastFrame + 2000;
      var ahead := inTime && t.settled && AheadOf(w, t.value);
      var step := (w - t.value) % WRAP;
      var atOnce := t.value == 0 || step == 1 || 128 * step <= s.rpi;
      u.value == (if ahead && atOnce then w else t.value) &&
      u.goal == (if ahead && (atOnce || AheadOf(w, t.goal)) then w else t.goal) &&
      u.settled == (t.settled || inTime)
  {
    AsksForOne(s, t, consumerTime, w, WorstCase(s, t, consumerTime));
  }

  // So whatever goal a message sets is the one it asks for.
  lemma GoalIsAsked(s: Setup, t: Timing, now: int, consumerTime: Word)
    ensures
      var u := Coordinate(s, t, now, consumerTime);
      (u.goal != t.goal ==> (t.produced + u.goal + s.constant) % WRAP == consumerTime) &&
      (u.value != t.value ==> (t.produced + u.value + s.constant) % WRAP == consumerTime)
  {
    AsksForOne(s, t, consumerTime, 0, 0);
    MessageExact(s, t, now, consumerTime, WorstCase(s, t, consumerTime));
  }

  // The rest of a message's effect: the first one starts the connection.
  lemma MessageStarts(s: Setup, t: Timing, now: int, consumerTime: Word)
    ensures
      var u := Coordinate(s, t, now, consumerTime);
      u.active && u.lastFrame == t.lastFrame && u.produced == t.produced && u.ticks == t.ticks &&
      if t.active then u.start == t.start && u.ts == t.ts && u.rollover == t.rollover
      else u.start == now && u.ts == s.initialTs && u.rollover == s.initialRollover
  {}

  // A frame sends the time since the start in units of 128 us, behind the initial
  // timestamp and moved by the correction, as long as the tick does not go back.
  lemma FrameExact(s: Setup, t: Timing, now: int, units: nat)
    requires t.active && 128 * units <= now - t.start < 128 * (units + 1)
    ensures
      var u := Produce(s, t, now);
      u.produced == (s.initialTs + units) % WRAP && u.lastFrame == now &&
      u.ticks == (
        if t.ticks != 0 && s.initialTs + units + u.value < t.ticks then t.ticks + 1
        else s.initialTs + units + u.value) &&
      u.ts == u.ticks % WRAP && (t.value == t.goal ==> u.value == t.value) &&
      u.goal == t.goal && u.start == t.start && u.active && u.settled == t.settled
  {
    assert (now - t.start) / 128 == units;
  }

  // Before the start the same holds, with the time rounded towards it.
  lemma EarlyFrameExact(s: Setup, t: Timing, now: int, units: nat)
    requires t.active && 128 * units <= t.start - now < 128 * (units + 1)
    ensures
      var u, raw := Produce(s, t, now), s.initialTs - units;
      u.produced == raw % WRAP &&
      u.ticks == if t.ticks != 0 && raw + u.value < t.ticks then t.ticks + 1 else raw + u.value
  {
    hide Slew;
    assert (t.start - now) / 128 == units;
  }

  // Together: a frame sent at the time of the last one, after a message that moved
  // the correction at once, carries the consumer's time less the constant.
  lemma CorrectionMeets(s: Setup, t: Timing, now: int, consumerTime: Word)
    requires t.active && t.value == t.goal && t.start <= now
    requires
      var u := Coordinate(s, Produce(s, t, now), now, consumerTime);
      u.value != t.value && u.value == u.goal && s.initialTs + (now - t.start) / 128 + u.value >= u.ticks
    ensures
      var u := Coordinate(s, Produce(s, t, now), now, consumerTime);
      (Produce(s, u, now).ts + s.constant) % WRAP == consumerTime
  {
    hide Coordinate, Produce;
    var sent := Produce(s, t, now);
    var u := Coordinate(s, sent, now, consumerTime);
    var units := (now - t.start) / 128;
    FrameExact(s, t, now, units);
    GoalIsAsked(s, sent, now, consumerTime);
    MessageStarts(s, sent, now, consumerTime);
    FrameExact(s, u, now, units);
    SumModulo(s.initialTs + units, u.value, s.constant);
  }

  lemma SumModulo(a: nat, b: nat, c: nat)
    ensures ((a + b) % WRAP + c) % WRAP == (a % WRAP + b + c) % WRAP
  {}

  // ---- Runs ----

  datatype Event = Frame(now: int) | Message(now: int, consumerTime: Word)

  function Step(s: Setup, t: Timing, e: Event): Timing {
    match e
    case Frame(now) => Produce(s, t, now)
    case Message(now, consumerTime) => Coordinate(s, t, now, consumerTime)
  }

  function Run(s: Setup, t: Timing, es: seq<Event>): Timing
    decreases |es|
  {
    if es == [] then t else Run(s, Step(s, t, es[0]), es[1..])
  }

  function Fresh(): Timing { Timing(false, 0, 0, 0, false, 0, 0, 0, 0, 0) }

  // The clock does not go back, from now on.
  predicate Nondecreasing(now: int, es: seq<Event>)
    decreases |es|
  {
    es == [] || (now <= es[0].now && Nondecreasing(es[0].now, es[1..]))
  }

  function Lag(t: Timing): Word { (t.goal - t.value) % WRAP }

  // The correction is behind its goal by less than half a wrap.
  predicate Sound(t: Timing, now: int) {
    Lag(t) < 0x8000 && t.ticks >= 0 && (t.active ==> t.start <= now)
  }

  // ---- What one slew step does ----

  function Shrink(lag: nat): nat
    ensures lag > 0 ==> Shrink(lag) < lag
  {
    if lag == 0 then 0 else if lag / 8 > 1 then lag - lag / 8 else lag - 1
  }

  lemma SlewShrinks(value: Word, goal: Word)
    requires (goal - value) % WRAP < 0x8000
    ensures (goal - Slew(value, goal)) % WRAP == Shrink((goal - value) % WRAP)
    ensures 0 <= Signed(Slew(value, goal) - value)
    ensures value != goal ==> Signed(goal - value) > 0
  {
    var lag := (goal - value) % WRAP;
    if goal >= value {
      assert goal - value == lag;
    } else {
      assert goal - value + WRAP == lag;
    }
  }

  lemma AdjustSound(s: Setup, t: Timing, worst: Word)
    requires Lag(t) < 0x8000
    ensures Lag(Adjust(s, t, worst)) < 0x8000
    ensures 0 <= Signed(Adjust(s, t, worst).value - t.value)
  {}

  // ---- Every step ----

  // What a step may not do: take the correction or the tick backwards.
  predicate Ahead(t: Timing, u: Timing) { 0 <= Signed(u.value - t.value) && t.ticks <= u.ticks }

  lemma ProduceAhead(s: Setup, t: Timing, now: int)
    requires Sound(t, now)
    ensures Sound(Produce(s, t, now), now) && Ahead(t, Produce(s, t, now))
  {
    SlewShrinks(t.value, t.goal);
  }

  lemma CoordinateAhead(s: Setup, t: Timing, now: int, consumerTime: Word)
    requires Sound(t, now)
    ensures Sound(Coordinate(s, t, now, consumerTime), now) && Ahead(t, Coordinate(s, t, now, consumerTime))
  {
    var u := Activate(s, t, now);
    if !Late(u, now) && u.settled {
      AdjustSound(s, u, WorstCase(s, u, consumerTime));
    }
  }

  // ---- Every run ----

  lemma {:induction false} RunSound(s: Setup, t: Timing, now: int, es: seq<Event>)
    requires Sound(t, now) && Nondecreasing(now, es)
    ensures Sound(Run(s, t, es), if es == [] then now else es[|es| - 1].now)
    ensures t.ticks <= Run(s, t, es).ticks
    decreases |es|
  {
    if es != [] {
      var e, u := es[0], Step(s, t, es[0]);
      assert Sound(t, e.now);
      if e.Frame? { ProduceAhead(s, t, e.now); } else { CoordinateAhead(s, t, e.now, e.consumerTime); }
      RunSound(s, u, e.now, es[1..]);
      if es[1..] != [] { assert es[1..][|es[1..]| - 1] == es[|es| - 1]; }
    }
  }

  lemma {:induction false} RunSplit(s: Setup, t: Timing, a: seq<Event>, b: seq<Event>)
    ensures Run(s, t, a + b) == Run(s, Run(s, t, a), b)
    decreases |a|
  {
    if a == [] {
      assert a + b == b;
    } else {
      assert (a + b)[1..] == a[1..] + b;
      RunSplit(s, Step(s, t, a[0]), a[1..], b);
    }
  }

  lemma {:induction false} NondecreasingSplit(now: int, es: seq<Event>, i: nat)
    requires Nondecreasing(now, es) && i <= |es|
    ensures Nondecreasing(now, es[..i])
    ensures Nondecreasing(if i == 0 then now else es[i - 1].now, es[i..])
    decreases |es|
  {
    if i == 0 {
      assert es[..0] == [] && es[0..] == es;
    } else {
      NondecreasingSplit(es[0].now, es[1..], i - 1);
      assert es[..i][1..] == es[1..][..i - 1] && es[i..] == es[1..][i - 1..];
      if i > 1 { assert es[i - 1] == es[1..][i - 2]; }
    }
  }

  function Reached(s: Setup, es: seq<Event>, i: nat): Timing
    requires i <= |es|
  {
    Run(s, Fresh(), es[..i])
  }

  function ClockAt(now: int, es: seq<Event>, i: nat): int
    requires i <= |es|
  {
    if i == 0 then now else es[i - 1].now
  }

  lemma ReachedSound(s: Setup, now: int, es: seq<Event>, i: nat)
    requires Nondecreasing(now, es) && i <= |es|
    ensures Sound(Reached(s, es, i), ClockAt(now, es, i)) && Nondecreasing(ClockAt(now, es, i), es[i..])
  {
    NondecreasingSplit(now, es, i);
    RunSound(s, Fresh(), now, es[..i]);
    if i > 0 { assert es[..i][|es[..i]| - 1] == es[i - 1]; }
  }

  lemma ReachedNext(s: Setup, es: seq<Event>, i: nat)
    requires i < |es|
    ensures Reached(s, es, i + 1) == Step(s, Reached(s, es, i), es[i])
  {
    hide Step;
    RunSplit(s, Fresh(), es[..i], [es[i]]);
    assert es[..i] + [es[i]] == es[..i + 1];
    assert Run(s, Reached(s, es, i), [es[i]]) == Run(s, Step(s, Reached(s, es, i), es[i]), []);
  }

  // Whatever the clock reads and the consumer asks for: each event of a run
  // moves the tick and the correction forward or not at all; and the correction
  // is behind its goal by at most 32767 and never in front of it, so that the
  // step back to the goal is never taken.
  lemma StepsForward(s: Setup, now: int, es: seq<Event>, i: nat)
    requires Nondecreasing(now, es) && i <= |es|
    ensures i < |es| ==> Ahead(Reached(s, es, i), Reached(s, es, i + 1))
    ensures var t := Reached(s, es, i); Lag(t) <= 32767 && (t.value != t.goal ==> Signed(t.goal - t.value) > 0)
  {
    hide Reached, Produce, Coordinate;
    var t := Reached(s, es, i);
    ReachedSound(s, now, es, i);
    if i < |es| {
      var e := es[i];
      ReachedNext(s, es, i);
      if e.Frame? { ProduceAhead(s, t, e.now); } else { CoordinateAhead(s, t, e.now, e.consumerTime); }
    }
  }

  lemma {:induction false} TickNeverDecreases(s: Setup, now: int, es: seq<Event>, i: nat, j: nat)
    requires Nondecreasing(now, es) && i <= j <= |es|
    ensures Reached(s, es, i).ticks <= Reached(s, es, j).ticks
    decreases j
  {
    hide Reached;
    if i < j {
      TickNeverDecreases(s, now, es, i, j - 1);
      StepsForward(s, now, es, j - 1);
    }
  }

  // The exact condition for one frame, with no assumption on the clock.
  lemma TickForwardExact(s: Setup, t: Timing, now: int)
    requires t.active
    ensures t.ticks <= Produce(s, t, now).ticks <==>
      t.ticks != 0 || RawTicks(s, t, now) + Slew(t.value, t.goal) >= 0
  {}

  // What goes out with a frame is that tick, counted from the initial rollover:
  // the timestamp is its low half, the rollover count the next sixteen bits.
  lemma PairIsTick(s: Setup, t: Timing, now: int)
    requires Sound(t, now) && t.active
    ensures var u := Produce(s, t, now); Holds(u.rollover, u.ts, u.ticks + s.initialRollover * WRAP)
  {
    ProduceAhead(s, t, now);
    var ticks := Produce(s, t, now).ticks;
    assert (ticks + s.initialRollover * WRAP) / WRAP == ticks / WRAP + s.initialRollover;
    assert (ticks + s.initialRollover * WRAP) % WRAP == ticks % WRAP;
  }

  // ---- Left alone, the correction settles ----

  function Frames(nows: seq<int>): (es: seq<Event>)
    ensures |es| == |nows| && forall i :: 0 <= i < |nows| ==> es[i] == Frame(nows[i])
  {
    seq(|nows|, i requires 0 <= i < |nows| => Frame(nows[i]))
  }

  function Shrinks(lag: nat, n: nat): nat
    decreases n
  {
    if n == 0 then lag else Shrinks(Shrink(lag), n - 1)
  }

  lemma {:induction false} FramesShrinkLag(s: Setup, t: Timing, nows: seq<int>)
    requires t.active && Lag(t) < 0x8000
    ensures Lag(Run(s, t, Frames(nows))) == Shrinks(Lag(t), |nows|)
    ensures Run(s, t, Frames(nows)).goal == t.goal
    decreases |nows|
  {
    if nows != [] {
      var u := Produce(s, t, nows[0]);
      SlewShrinks(t.value, t.goal);
      assert Frames(nows)[1..] == Frames(nows[1..]);
      FramesShrinkLag(s, u, nows[1..]);
    } else {
      assert Frames(nows) == [];
    }
  }

  lemma {:induction false} ShrinksSplit(lag: nat, m: nat, n: nat)
    ensures Shrinks(lag, m + n) == Shrinks(Shrinks(lag, m), n)
    decreases m
  {
    if m > 0 {
      ShrinksSplit(Shrink(lag), m - 1, n);
    }
  }

  lemma {:induction false} ZeroStays(n: nat)
    ensures Shrinks(0, n) == 0
    decreases n
  {
    if n > 0 { ZeroStays(n - 1); }
  }

  // Six steps halve a lag, or bring it below 64.
  lemma SixHalve(lag: nat)
    ensures Shrinks(lag, 6) <= if lag / 2 > 63 then lag / 2 else 63
    ensures lag <= 63 ==> Shrinks(lag, 6) <= 32
  {
    var a := Shrink(lag);
    var b := Shrink(a);
    var c := Shrink(b);
    var d := Shrink(c);
    var e := Shrink(d);
    var f := Shrink(e);
    assert Shrinks(lag, 6) == Shrinks(a, 5) == Shrinks(b, 4) == Shrinks(c, 3) == Shrinks(d, 2) == Shrinks(e, 1) == f;
    assert 8 * a <= 7 * lag + 7 && 8 * b <= 7 * a + 7 && 8 * c <= 7 * b + 7;
    assert 8 * d <= 7 * c + 7 && 8 * e <= 7 * d + 7 && 8 * f <= 7 * e + 7;
  }

  function Doubled(k: nat): nat { if k == 0 then 63 else 2 * Doubled(k - 1) + 1 }

  lemma {:induction false} Halvings(lag: nat, k: nat)
    requires lag <= Doubled(k)
    ensures Shrinks(lag, 6 * k) <= 63
    decreases k
  {
    if k > 0 {
      SixHalve(lag);
      AtLeast63(k - 1);
      ShrinksSplit(lag, 6, 6 * (k - 1));
      Halvings(Shrinks(lag, 6), k - 1);
    }
  }

  lemma AtLeast63(k: nat)
    ensures Doubled(k) >= 63
  {}

  lemma {:induction false} OneEach(lag: nat, n: nat)
    requires lag <= n
    ensures Shrinks(lag, n) == 0
    decreases n
  {
    if n > 0 { OneEach(Shrink(lag), n - 1); }
  }

  lemma Gone(lag: nat)
    requires lag <= 32767
    ensures Shrinks(lag, 92) == 0
  {
    assert Doubled(9) == 32767;
    hide Shrinks;
    Halvings(lag, 9);
    SixHalve(Shrinks(lag, 54));
    OneEach(Shrinks(Shrinks(lag, 54), 6), 32);
    ShrinksSplit(lag, 54, 38);
    ShrinksSplit(Shrinks(lag, 54), 6, 32);
  }

  // Any lag is gone after at most 92 frames without a message.
  lemma SettlesIn92(s: Setup, t: Timing, nows: seq<int>)
    requires t.active && Lag(t) < 0x8000 && |nows| >= 92
    ensures Run(s, t, Frames(nows)).value == t.goal
  {
    hide Run, Shrinks;
    FramesShrinkLag(s, t, nows);
    ShrinksSplit(Lag(t), 92, |nows| - 92);
    Gone(Lag(t));
    ZeroStays(|nows| - 92);
  }

  // ---- The producer as an object ----

  class DeviceProducer {
    const setup: Setup
    var active: bool
    var start: int
    var lastFrame: int
    var produced: Word
    var settled: bool
    var value: Word
    var goal: Word
    var ticks: int
    var ts: Word
    var rollover: Word

    constructor (s: Setup)
      ensures setup == s && State() == Fresh()
    {
      setup := s;
      active, start, lastFrame, produced, settled := false, 0, 0, 0, false;
      value, goal, ticks, ts, rollover := 0, 0, 0, 0, 0;
    }

    ghost function State(): Timing
      reads this
    {
      Timing(active, start, lastFrame, produced, settled, value, goal, ticks, ts, rollover)
    }

    // An idle frame carries timestamp 0.
    method ProduceFrame(now: int) returns (timestamp: Word)
      modifies this
      ensures State() == Produce(setup, old(State()), now)
      ensures timestamp == if active then ts else 0
    {
      hide Signed, Quotient, Add;
      timestamp := 0;
      if active {
        lastFrame := now;
        var raw: int := setup.initialTs + Quotient(now - start, 128);
        produced := raw % WRAP;
        var applied := value;
        if applied != goal {
          var slewDelta := Signed(goal - applied);
          if slewDelta > 0 {
            var step := if slewDelta / 8 > 1 then slewDelta / 8 else 1;
            if step > slewDelta { step := slewDelta; }
            value := Add(applied, step);
          } else {
            value := goal;
          }
        }
        var corrected: int := raw + value;
        if ticks != 0 && corrected - ticks < 0 {
          corrected := ticks + 1;
        }
        timestamp := corrected % WRAP;
        ts := timestamp;
        ticks := corrected;
        rollover := (setup.initialRollover + corrected / WRAP) % WRAP;
      }
    }

    method HandleTcoo(now: int, consumerTime: Word)
      modifies this
      ensures State() == Coordinate(setup, old(State()), now, consumerTime)
    {
      hide Signed;
      if !active {
        active := true;
        ts := setup.initialTs;
        rollover := setup.initialRollover;
        start := now;
      }
      if lastFrame != 0 && now - lastFrame > 2000 { return; }
      var worst: Word := (consumerTime - produced - setup.constant) % WRAP;
      var delta := Signed(worst - value);
      if !settled {
        settled := true;
        return;
      }
      var threshold := setup.rpi / 128;
      if threshold < 1 { threshold := 1; }
      if delta <= 0 {
      } else if value == 0 || delta <= threshold {
        value, goal := worst, worst;
      } else if Signed(worst - goal) > 0 {
        goal := worst;
      }
    }
  }
}

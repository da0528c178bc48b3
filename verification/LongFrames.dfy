// A run of Extended long frames that a consumer loses although no frame is lost:
// what it takes for the timestamps jumps back, and it counts a rollover.
module LongFrames {
  import opened Words
  import opened Crc
  import opened SafetyCrc
  import opened SafetyFrame
  import opened Rollover
  import opened SafetyLink
  import opened ColdStart

  // ---- The code of a few bytes, worked out ----

  function S5Steps8(c: bv32): bv32 {
    S5Step(S5Step(S5Step(S5Step(S5Step(S5Step(S5Step(S5Step(c))))))))
  }

  lemma S5TwoSteps(n: nat, c: bv32)
    requires n >= 2
    ensures S5Steps(n, c) == S5Steps(n - 2, S5Step(S5Step(c)))
  {
    hide S5Step;
  }

  lemma S5EntryIs(x: bv8)
    ensures S5Entry(x) == Mask24(S5Steps8((x as bv32) << 16))
  {
    hide S5Step, Mask24;
    var c := (x as bv32) << 16;
    var c2 := S5Step(S5Step(c));
    var c4 := S5Step(S5Step(c2));
    S5TwoSteps(8, c);
    S5TwoSteps(6, c2);
    S5TwoSteps(4, c4);
    S5TwoSteps(2, S5Step(S5Step(c4)));
  }

  // One byte, given the top byte of the register.
  lemma Next(b: bv8, c: bv32, x: bv8, next: bv32)
    requires B2(c) ^ b == x && next == Mask24(S5Steps8((x as bv32) << 16)) ^ ((c << 8) & 0xFF_FFFF)
    ensures S5Byte(b, c) == next
  {
    hide S5Entry, S5Steps8, Mask24, B2;
    S5EntryIs(x);
  }

  lemma ZeroNext()
    ensures S5Byte(0, 0) == 0
  {
    Next(0, 0, 0, 0);
  }

  lemma ModeNext()
    ensures S5Byte(0x04, 0) == 0x28_DAE7
  {
    Next(0x04, 0, 0x04, 0x28_DAE7);
  }

  lemma HighCode()
    ensures S5([0x04, 0x80, 0xE0, 0x94, 0x00, 0x00], 0) == 0xFF_0000
  {
    hide S5Byte;
    ModeNext();
    assert S5Byte(0x80, 0x28_DAE7) == 0xFE_03F1 by { Next(0x80, 0x28_DAE7, 0xA8, 0xFE_03F1); }
    assert S5Byte(0xE0, 0xFE_03F1) == 0x63_2E23 by { Next(0xE0, 0xFE_03F1, 0x1E, 0x63_2E23); }
    assert S5Byte(0x94, 0x63_2E23) == 0x00_00FF by { Next(0x94, 0x63_2E23, 0xF7, 0x00_00FF); }
    assert S5Byte(0x00, 0x00_00FF) == 0x00_FF00 by { Next(0x00, 0x00_00FF, 0x00, 0x00_FF00); }
    assert S5Byte(0x00, 0x00_FF00) == 0xFF_0000 by { Next(0x00, 0x00_FF00, 0x00, 0xFF_0000); }
    Six([0x04, 0x80, 0xE0, 0x94, 0x00, 0x00], 0);
  }

  lemma LowCode()
    ensures S5([0x04, 0x24, 0xE7, 0x97, 0x86, 0x01], 0) == 0
  {
    hide S5Byte;
    ModeNext();
    assert S5Byte(0x24, 0x28_DAE7) == 0xA3_8829 by { Next(0x24, 0x28_DAE7, 0x0C, 0xA3_8829); }
    assert S5Byte(0xE7, 0xA3_8829) == 0x97_8601 by { Next(0xE7, 0xA3_8829, 0x44, 0x97_8601); }
    assert S5Byte(0x97, 0x97_8601) == 0x86_0100 by { Next(0x97, 0x97_8601, 0x00, 0x86_0100); }
    assert S5Byte(0x86, 0x86_0100) == 0x01_0000 by { Next(0x86, 0x86_0100, 0x00, 0x01_0000); }
    assert S5Byte(0x01, 0x01_0000) == 0 by { Next(0x01, 0x01_0000, 0x00, 0); }
    Six([0x04, 0x24, 0xE7, 0x97, 0x86, 0x01], 0);
  }

  lemma Three(m: seq<bv8>, i: nat, seed: bv32)
    requires i + 3 <= |m|
    ensures S5(m[i..], seed) == S5(m[i + 3..], S5Byte(m[i + 2], S5Byte(m[i + 1], S5Byte(m[i], seed))))
  {
    hide S5, S5Byte;
    S5Next(m, i, seed);
    S5Next(m, i + 1, S5Byte(m[i], seed));
    S5Next(m, i + 2, S5Byte(m[i + 1], S5Byte(m[i], seed)));
  }

  lemma Six(m: seq<bv8>, seed: bv32)
    requires |m| == 6
    ensures S5(m, seed) ==
      S5Byte(m[5], S5Byte(m[4], S5Byte(m[3], S5Byte(m[2], S5Byte(m[1], S5Byte(m[0], seed))))))
  {
    hide S5, S5Byte;
    var r := S5Byte(m[2], S5Byte(m[1], S5Byte(m[0], seed)));
    assert m[0..] == m;
    Three(m, 0, seed);
    Three(m, 3, r);
    S5Done(m, S5Byte(m[5], S5Byte(m[4], S5Byte(m[3], r))));
  }

  lemma NothingYet()
    ensures S5([0, 0], 0) == 0
  {
    hide S5, S5Byte;
    var m: seq<bv8> := [0, 0];
    assert m[0..] == m;
    ZeroNext();
    S5Next(m, 0, 0);
    S5Next(m, 1, 0);
    S5Done(m, 0);
  }

  // ---- Two frames ----

  // Seeds under which a frame of rollover 0 starts from register 0.
  const SEEDS: Seeds := Seeds(0, 0, 0)

  const FIRST: Sent := Sent(0, [0x7F, 0x1F, 0x6B], 0x84)

  const SECOND: Sent := Sent(390, [0xDB, 0x18, 0x68], 0x84)

  lemma WordsOf()
    ensures Le16(W(0)) == [0, 0] && Le16(W(390)) == [0x86, 0x01]
  {}

  lemma Complements()
    ensures Complement(FIRST.data) == [0x80, 0xE0, 0x94] && Complement(SECOND.data) == [0x24, 0xE7, 0x97]
    ensures StampMask(0x84) == 0x04
  {}

  lemma SeedIsZero()
    ensures RolloverSeedS5(W(0), 0) == 0
  {
    hide S5, Mask24, W;
    WordsOf();
    NothingYet();
  }

  lemma CodeOf(f: Sent, msg: seq<bv8>)
    requires Roll(f.p) == 0 && msg == [StampMask(f.mode)] + Complement(f.data) + Le16(W(Ts(f.p)))
    ensures LastCode(f, SEEDS) == B2(S5(msg, 0))
  {
    hide S5, W, Le16, B2, StampMask, Complement, RolloverSeedS5;
    SeedIsZero();
  }

  lemma LastCodes()
    ensures LastCode(FIRST, SEEDS) == 0xFF && LastCode(SECOND, SEEDS) == 0x00
  {
    hide S5, W, Le16, StampMask, Complement, LastCode;
    Complements();
    WordsOf();
    CodeOf(FIRST, [0x04, 0x80, 0xE0, 0x94, 0x00, 0x00]);
    CodeOf(SECOND, [0x04, 0x24, 0xE7, 0x97, 0x86, 0x01]);
    HighCode();
    LowCode();
  }

  // The high bytes of the timestamps are 0 and 1.
  lemma PeekedAre()
    ensures Peeked(FIRST, SEEDS) == 0xFF00 && Peeked(SECOND, SEEDS) == 1
  {
    hide LastCode;
    LastCodes();
  }

  predicate RefusesFrame(t: Tracker, initial: Word, fs: seq<Sent>, s: Seeds, i: nat)
    requires i < |fs|
  {
    var r := DeviceRun(t, initial, fs, s)[i];
    r.Checked? && r.result.Invalid?
  }

  lemma TwoPeeks(f: Sent, g: Sent, s: Seeds)
    requires Wrapped(Peeked(f, s), Peeked(g, s))
    ensures WrapsSeen(Tracker(false, 0, 0), Peeks([f, g], s)[..1]) == 0
    ensures WrapsSeen(Tracker(false, 0, 0), Peeks([f, g], s)[..2]) == 1
  {
    hide Peeked, Wrapped;
    var p, q := Peeked(f, s), Peeked(g, s);
    assert Peeks([f, g], s)[..1] == [p] && [p][1..] == [];
    var peeks := Peeks([f, g], s)[..2];
    assert peeks[0] == p && peeks[1..] == [q];
    assert Wraps(p, [q]) == 1 + Wraps(q, [q][1..]) && [q][1..] == [];
  }

  // Frame f is taken, and g behind it refused, where the peeks jump back although
  // the timestamps do not.
  lemma JumpRefused(f: Sent, g: Sent, s: Seeds)
    requires SomeData(f) && SomeData(g) && RunIdle(g.mode)
    requires Roll(f.p) == Roll(g.p) == 0 && Wrapped(Peeked(f, s), Peeked(g, s))
    ensures TakesFrame(Tracker(false, 0, 0), 0, [f, g], s, 0) && RefusesFrame(Tracker(false, 0, 0), 0, [f, g], s, 1)
  {
    hide DeviceRun, FrameOf, Peeked, Wrapped, WrapsSeen, RunIdle, SomeData;
    TwoPeeks(f, g, s);
    DeviceRunExact(Tracker(false, 0, 0), 0, [f, g], s, 0);
    DeviceRunExact(Tracker(false, 0, 0), 0, [f, g], s, 1);
  }

  // A device that starts from the right count takes the first frame and refuses
  // the second, which the scanner sent 390 ticks later.
  lemma LossFreeRunBreaks()
    ensures Roll(FIRST.p) == Roll(SECOND.p) == 0 && SECOND.p == FIRST.p + TICKS && SomeData(FIRST) && SomeData(SECOND)
    ensures TakesFrame(Tracker(false, 0, 0), 0, [FIRST, SECOND], SEEDS, 0)
    ensures RefusesFrame(Tracker(false, 0, 0), 0, [FIRST, SECOND], SEEDS, 1)
  {
    hide DeviceRun, FrameOf, Peeked, TakesFrame, RefusesFrame;
    PeekedAre();
    JumpRefused(FIRST, SECOND, SEEDS);
  }
}

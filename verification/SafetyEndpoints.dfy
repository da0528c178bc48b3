// The endpoints as objects that keep their counters in fields: the scanner's
// producer and consumer, and the device's consumer.
module SafetyEndpoints {
  import opened SafetyFrame
  import opened FrameCodec
  import opened Rollover
  import opened SafetyLink

  class ScannerProducer {
    var timestamp: Rollover.Word
    var rollover: Rollover.Word
    var consumerActive: bool
    var runIdle: bool
    var pingCount: bv8
    var outputData: seq<bv8>
    // The tick of which the two counters are the low and the middle half.
    ghost var position: nat

    ghost predicate Valid()
      reads this
    {
      Holds(rollover, timestamp, position) && timestamp <= position
    }

    constructor (initialTimestamp: Rollover.Word, initialRollover: Rollover.Word, size: nat)
      ensures Valid() && position == initialRollover * WRAP + initialTimestamp
      ensures !consumerActive && !runIdle && outputData == seq(size, _ => 0)
    {
      timestamp := initialTimestamp;
      rollover := initialRollover;
      consumerActive := false;
      runIdle := false;
      pingCount := 0;
      outputData := seq(size, _ => 0);
      position := initialRollover * WRAP + initialTimestamp;
    }

    // The first time coordination from the target ends the cold start.
    method OnServerTcoo()
      requires Valid()
      modifies this`consumerActive, this`runIdle
      ensures Valid() && consumerActive
      ensures runIdle == if old(consumerActive) then old(runIdle) else true
    {
      if !consumerActive {
        consumerActive := true;
        runIdle := true;
      }
    }

    // The tick the next frame carries: while idle, timestamp 0 under the
    // current rollover count.
    ghost function Next(): Sent
      requires Valid()
      reads this
    {
      Sent(if consumerActive then position else position - timestamp, outputData,
           CreateMode(consumerActive && runIdle, pingCount))
    }

    // Every frame carries one tick in full, its low half in the open and its
    // rollover count in the seeds; only frames of an active connection advance.
    method ProduceServerData(table: array<bv32>, format: Format, s: Seeds) returns (frame: seq<bv8>)
      requires Valid() && S5Table(table[..])
      modifies this`timestamp, this`rollover, this`position
      ensures Valid()
      ensures position == old(position) + if consumerActive then TICKS else 0
      ensures frame == Encode(FrameOf(old(Next())), format, s, W(Roll(old(Next()).p)))
      ensures Ts(old(Next()).p) == (if old(consumerActive) then old(timestamp) else 0)
      ensures Roll(old(Next()).p) == old(rollover)
      ensures Tells(frame, outputData, old(consumerActive && runIdle), pingCount)
    {
      hide W, CreateMode, WireSize, Encode, S5Table;
      var active := consumerActive;
      var ts := if active then timestamp else 0;
      var sentRollover := rollover;
      ghost var sent := Next();
      IdlePosition(position);
      assert ts == Ts(sent.p) && sentRollover == Roll(sent.p);
      if active {
        CountersStep(rollover, timestamp, position, TICKS);
        var previous := timestamp;
        timestamp := Add(timestamp, TICKS);
        if timestamp < previous {
          rollover := Add(rollover, 1);
        }
        position := position + TICKS;
        StillBelow(position);
      }
      var buf := new bv8[2 * |outputData| + 16];
      Fits(|outputData|, format);
      var f := Frame(outputData, CreateMode(active && runIdle, pingCount), W(ts));
      var len := EncodeInto(table, buf, f, format, s, W(sentRollover));
      frame := buf[..len];
      SentTells(f, format, s, W(sentRollover), active && runIdle, pingCount);
    }

    // The data in the open, and behind it a sound mode byte with run state and count.
    static predicate Tells(frame: seq<bv8>, data: seq<bv8>, run: bool, ping: bv8) {
      && |frame| > |data| && frame[..|data|] == data && (RunIdle(frame[|data|]) <==> run)
      && frame[|data|] & 0x03 == ping & 0x03 && Redundant(frame[|data|])
    }

    static lemma SentTells(f: Frame, format: Format, s: Seeds, r: bv16, run: bool, ping: bv8)
      requires f.mode == CreateMode(run, ping)
      ensures Tells(Encode(f, format, s, r), f.data, run, ping)
    {
      hide CreateMode, RunIdle, Redundant, FieldsOf;
      ModeCarries(run, ping);
      ModeThere(f, format, s, r);
    }

    static lemma StillBelow(p: nat)
      ensures Ts(p) <= p
    {}

    static lemma Fits(n: nat, format: Format)
      ensures WireSize(n, format) <= 2 * n + 16
    {}
  }

  class ScannerConsumer {
    var initialized: bool
    var lastTs: Rollover.Word
    var count: Rollover.Word

    constructor ()
      ensures State() == Tracker(false, 0, 0)
    {
      initialized, lastTs, count := false, 0, 0;
    }

    ghost function State(): Tracker
      reads this
    {
      Tracker(initialized, lastTs, count)
    }

    method OnClientData(table: array<bv32>, payload: seq<bv8>, format: Format, s: Seeds) returns (r: Outcome)
      requires S5Table(table[..])
      modifies this
      ensures (State(), r) == ScannerStep(old(State()), payload, format, s)
    {
      hide W, Decode, ExtractTimestamp, I, S5Table;
      var wireSize := |payload|;
      if wireSize == 5 || wireSize == 6 { return Dropped; }
      var dataLen := -1;
      var shortLen := wireSize - 6;
      if 1 <= shortLen <= 2 {
        dataLen := shortLen;
      } else {
        var longLen := Half(wireSize - 8);
        if 3 <= longLen <= 250 && longLen * 2 + 8 == wireSize {
          dataLen := longLen;
        }
      }
      if dataLen <= 0 { return Dropped; }
      var ts := I(ExtractTimestamp(payload, dataLen, format));
      var wasInitialized, previous := initialized, lastTs;
      initialized, lastTs := true, ts;
      if wasInitialized {
        var delta: int := ts as int - previous;
        if delta < -0x4000 {
          count := Add(count, 1);
        }
      }
      var result := DecodeFrom(table, payload, dataLen, format, s, W(count));
      r := Checked(result);
    }
  }

  class DeviceConsumer {
    const initialRollover: Rollover.Word
    var initialized: bool
    var lastTs: Rollover.Word
    var count: Rollover.Word
    var assembly: seq<bv8>

    constructor (initial: Rollover.Word)
      ensures initialRollover == initial && !initialized
    {
      initialRollover := initial;
      initialized, lastTs, count, assembly := false, 0, 0, [];
    }

    ghost function State(): Tracker
      reads this
    {
      Tracker(initialized, lastTs, count)
    }

    // Only what passes its checks reaches the assembly.
    method HandleReceivedIoData(table: array<bv32>, data: seq<bv8>, format: Format, s: Seeds) returns (r: Outcome)
      requires S5Table(table[..])
      modifies this
      ensures (State(), r) == DeviceStep(old(State()), initialRollover, data, format, s)
      ensures assembly ==
        if r.Checked? && r.result.Valid? then r.result.frame.data else old(assembly)
    {
      hide W, Decode, ExtractTimestamp, I, S5Table, RunIdle;
      if |data| == 5 || |data| == 6 { return Dropped; }
      var dataLen := EstimateDataLength(|data|);
      if dataLen <= 0 { return Dropped; }
      var ts := I(ExtractTimestamp(data, dataLen, format));
      if !initialized {
        count := initialRollover;
        lastTs := ts;
        initialized := true;
      } else {
        var delta: int := ts as int - lastTs;
        if delta < -0x4000 {
          count := Add(count, 1);
        }
        lastTs := ts;
      }
      var result := DecodeFrom(table, data, dataLen, format, s, W(count));
      if result.Invalid? && dataLen < |data| && !RunIdle(data[dataLen]) && count != 0 {
        result := DecodeFrom(table, data, dataLen, format, s, W(0));
      }
      if result.Valid? {
        assembly := result.frame.data;
      }
      r := Checked(result);
    }
  }
}

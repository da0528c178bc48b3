# EtherNet/IP, CIP Safety and Logix tags: a verified model

This project models the deterministic core of the C++ stack in Dafny and proves what that core is
for. It has three parts.

**CIP Safety.** The five safety CRCs are defined as the table-driven loops the code runs, and each is
proved to be long division over GF(2): linear, blind to no changed byte, and one to one in its seed.
On that rest the four frame layouts (acceptance is the exact inverse of encoding), the rollover count
that a consumer re-derives from wrapped timestamps over runs with loss, the time correction loop of
the producer, and the Forward Open handshake in which originator and target compute the same path CRC.
The table form of S4 is the one in section 8 of RFC 1952, without the final complement.

**Logix tag memory.** Templates are laid out, paths are walked to bytes or bits, and the tag services
read and write there, whole or in fragments. Walks land inside the tag, different leaves share no bit,
and so a write of one leaf is read back and disturbs no other. The client and server loops around it
are proved against each other: fragmented transfer, browsing, template definitions, packed requests,
symbolic paths and snapshots.

**Connections.** Forward Open, Forward Close and timeout are one state machine that moves the
connection map, the safety validator table and the stored configuration id together; its invariants
hold on every run.

Loops of the modelled source are loops here, objects that change are classes, and buffers that are
filled are arrays; each such method is tied to a function, and the lemmas are about the functions. Bytes are
`bv8`; words on the wire are `bv16` and `bv32` where bits matter and bounded integers where arithmetic
does, with every wrap-around and truncating division written out. Clock readings are parameters.

## Files

| files | subject |
|---|---|
| `Gf2`, `Octets`, `Words`, `CrcTables`, `Crc`, `SafetyCrc`, `CrcLaws` | polynomials over GF(2), the CRCs and their laws |
| `SafetyFrame`, `FrameLaws`, `FrameCodes`, `FrameCodec`, `Identities` | the four layouts, what decoding accepts, their check fields as polynomials, the codec loops, frames of other connections |
| `Rollover`, `SafetyLink`, `LongFrames`, `ColdStart`, `SafetyEndpoints`, `TimeCorrection`, `DeviceRuns` | rollover tracking and time correction over whole runs |
| `NetworkSegment`, `ConnectionPath`, `PathItems`, `ForwardOpen`, `SafetyOpen`, `SafetyOpenWire`, `SafetyTamper`, `AnyPath` | the safety open handshake |
| `Connections`, `ConnectionManager`, `Lifecycle` | the connection lifecycle, from the bytes that open to the bytes that close |
| `TagLayout`, `NaturalLayout`, `Walker`, `TagDatabase`, `TagMemory`, `TagServices`, `CountedAccess`, `TagHandlers`, `Overruns`, `Fragments` | layout, path resolution, tag services |
| `Browse`, `TemplateRead`, `MultiService`, `Dispatch`, `SymbolicPath`, `PackedReads`, `Persistence`, `SnapshotFiles`, `Truncation` | the loops around the tags |
| `Numbers`, `Options`, `Sequences` | shared helpers |

## What the proofs found

Where a property that one would expect does not hold of the code, the model keeps the code as it is,
and the exact condition is proved.

- In Extended long frames the timestamp is looked for one byte late
  (src/safety/src/safety_frame_codec.cpp:35 against :256-257). What is read pairs the high byte of the
  timestamp with the last byte of the CRC; it is the timestamp exactly when both equal its low byte
  (`FrameLaws.PeekLateExact`). A consumer takes a frame of any length exactly when the wraps it saw in
  what it read make up the rollovers so far (`SafetyLink.ScannerRunExact`, `SafetyLink.DeviceRunExact`).
  For short frames these are the same as long as the frames are close; for long ones they are not: a run
  of two without any loss, and with the right count at its start, loses the second
  (`LongFrames.LossFreeRunBreaks`).
- Extended short frames leave the low five mode bits out of the CRC
  (src/safety/src/safety_frame_codec.cpp:189-194). A change confined to them is the only change of one
  byte that survives in any layout, and it leaves data and timestamp as they are
  (`FrameLaws.OneByteAltered`, `FrameLaws.AlteredModeTaken`).
- A consumer follows a producer over losses only if the tick advances by less than 0xC000 between
  frames received, or does not wrap (`Rollover.AdvanceExact`); at 390 ticks a frame 125 lost frames in a
  row are safe and 126 are not. From a cold start, where idle frames carry timestamp 0, every run with at
  most 125 frames lost in a row is taken whole if and only if the initial timestamp is at most 16785
  (`ColdStart.LatestExact`); with any later one the run of `ColdStart.GapBreaks` is not.
- A consumer whose count is wrong stays wrong for good (`Rollover.WrongCountStays`). A device starts its
  count at 0 (src/safety/src/safety_device.cpp:153-155) while the scanner starts at its configured value
  (src/safety/src/safety_scanner_connection.cpp:87), so with any other configured value a device takes
  no frame in run mode (`ColdStart.ColdStartExact`).
- `read_struct_bytes` strips four bytes from the first fragment and two from the others, as its comment
  describes (src/logix/src/tag_client.cpp:351-354, :371), but this server prefixes four bytes to every
  fragment (src/logix/src/tag_services.cpp:41-57). The structure is returned exactly when one reply holds
  it; of a longer one two bytes too many are returned, or the read fails (`Fragments.ReadStructBytes`).
- The watchdog works on a list of connections taken earlier (src/device/src/virtual_device.cpp:299-305),
  so it can time a connection out after it was closed; the removal callbacks then fire a second time for
  it (`Connections.LateTimeout`). Everything else stays intact, and each connection is removed at most
  once exactly on the runs in which every timeout finds its connection still in the map
  (`Connections.RemovedOnceExact`).
- The configuration check lets a zero on either side pass (src/safety/src/safety_device.cpp:117-122) and
  stores what it let through (:146), so live safety connections can disagree: opens with configuration
  CRCs 5, 0 and 7 are all accepted (`Connections.ZeroBreaksAgreement`). They agree throughout a run if and
  only if each safety open admitted beside another carried the stored value
  (`Connections.AgreementExact`), which runs without a zero always meet (`Connections.NonzeroRunsAgree`).
- A write to a leaf that names more than one element goes on into what stands behind the leaf. It leaves
  another leaf alone, whatever it writes, exactly when what its elements cover does not reach that leaf
  (`Overruns.OverrunExact`); in a structure of two SINTs two elements written to the first change the
  second (`Overruns.PairOverrun`). The read-back law is about writes of one element.
- A packed request cuts every embedded reply at 520 bytes (src/logix/src/multi_service_handler.cpp:65-85)
  where a request of its own has 4096 (src/protocol/src/eip_adapter.cpp:210-219). So a packed read gives a
  name what a read of its own would give exactly if that reply fits 520 bytes or fails anyway
  (`MultiService.PacketKeepsExact`). Replies to reads of a tag always fit, so for them only the size of all
  replies together counts: the read fails exactly if the message is longer than 4096 bytes, and is what
  the single reads are otherwise (`PackedReads.TagReadsExact`). Nine elements of an array of 476-byte
  structures can each be read, and eight of them in one packet, but not all nine (`PackedReads.NineFail`).
- A name written as text comes back from the path it is built into exactly if it has at most 255 bytes, no
  dot and no readable index group at its end (`SymbolicPath.PathRoundTrip`); the length of a longer one is
  cut to its low byte (src/logix/src/tag_client.cpp:704-710).
- What a path parse says it consumed lies inside the path for every even length, which is all that requests
  carry; of an odd length it is one byte more exactly if everything was read up to a last byte that
  begins a 16 or 32-bit logical segment (`SymbolicPath.ConsumedExact`, `SymbolicPath.OddConsumed`).
- A snapshot cut inside the data of its very last record is loaded with zeros for what is missing; cut
  anywhere else it is refused (`Truncation.TruncatedExact`).
- A byte of a built safety open that is replaced is noticed if and only if something reads it
  (`SafetyTamper.TamperAccepted`). But with a smaller path size, or a larger segment length, the walk
  captures no safety segment at all, and the request opens an ordinary connection
  (`SafetyTamper.TamperExact`).
- A controller tag is looked up in a snapshot by what stands in front of the first dot of its name, so a
  record finds its tag again exactly if the name has none (`Persistence.RootIsWhole`); program tags are
  looked up whole.
- An array of BOOLs that is given by its dimensions has one byte for each of them
  (src/logix/src/tag_database.cpp:86-103), but a walk packs eight into a byte (src/logix/src/walker.cpp:112-114),
  so indices reach only the first eighth of the buffer (`Walker.AtomicTagDimsExact`).
- The size a template advertises makes a client ask for exactly one byte more than the block has
  (`TemplateRead.AsksForAll`); the loop ends on the server's last chunk.

## Model

| member | source | states |
|---|---|---|
| `Gf2.DivideLinear` | src/safety/src/safety_crc.cpp:32-158 | for every generator the remainder of a sum of messages and registers is the sum of the remainders |
| `Gf2.DivideInjective` | src/safety/src/safety_crc.cpp:32-158 | when the generator has constant term 1, two registers that leave the same remainder behind one message are equal |
| `Gf2.DivideBurst` | src/safety/src/safety_crc.cpp:32-158 | two messages no longer than the register never leave the same remainder |
| `Gf2.DivideWindow` | src/safety/src/safety_crc.cpp:32-158 | nor do two messages that differ only within a window of that length, wherever it stands |
| `Gf2.DivideChunk` | src/safety/src/safety_crc.cpp:90-96 | the step of a table-driven CRC, a look-up by the top bits plus a shift of the rest, is division by that many message bits |
| `S1Table.EntryIsEightSteps` | src/safety/src/safety_crc.cpp:13-30 | each of the 256 literal S1 entries is what eight one-bit steps with 0x37 make of its index |
| `S2Table.EntryIsEightSteps` | src/safety/src/safety_crc.cpp:42-59 | each of the 256 literal S2 entries is what eight one-bit steps with 0x3B make of its index |
| `S3Table.EntryIsEightSteps` | src/safety/src/safety_crc.cpp:71-88 | each of the 256 literal S3 entries is what eight one-bit steps with 0x080F make of its index |
| `Crc.GeneratorsAreOdd` | src/safety/src/safety_crc.cpp:11-138 | all five generators have constant term 1, so no step of theirs loses anything |
| `Crc.S1IsDivision` | src/safety/src/safety_crc.cpp:32-38 | for every message and preset the S1 loop's result is the remainder of long division by 0x37 |
| `Crc.S2IsDivision` | src/safety/src/safety_crc.cpp:61-67 | the same for S2 and 0x3B |
| `Crc.S3ByteBits` | src/safety/src/safety_crc.cpp:98-100 | one table step, with any byte and any register, is division of the eight message bits by 0x080F |
| `Crc.S3IsDivision` | src/safety/src/safety_crc.cpp:90-96 | the same for S3 and 0x080F |
| `Crc.S4IsDivision` | src/safety/src/safety_crc.cpp:126-132 | the same for S4, with register and message bytes reflected |
| `Crc.S5EntryBits` | src/safety/src/safety_crc.cpp:137-148 | masking to 24 bits only when an entry is stored gives the entry that masking in every step would |
| `Crc.S5IsDivision` | src/safety/src/safety_crc.cpp:152-158 | the same for S5 and 0x5D6DCB |
| `SafetyCrc.ComputeS1` | src/safety/src/safety_crc.cpp:32-38 | the loop computes S1 of the whole message |
| `SafetyCrc.ComputeS2` | src/safety/src/safety_crc.cpp:61-67 | the loop computes S2 of the whole message |
| `SafetyCrc.ComputeS3` | src/safety/src/safety_crc.cpp:90-96 | the loop computes S3 of the whole message |
| `SafetyCrc.ComputeS3Byte` | src/safety/src/safety_crc.cpp:98-100 | the single step is S3 of the message of that one byte, behind any preset |
| `SafetyCrc.ComputeS3U16` | src/safety/src/safety_crc.cpp:102-107 | the unrolled two steps are S3 of the word's two bytes, low byte first |
| `SafetyCrc.MakeS4Table` | src/safety/src/safety_crc.cpp:112-122 | the generator fills slot k with eight reflected steps from k |
| `SafetyCrc.ComputeS4` | src/safety/src/safety_crc.cpp:126-132 | with that table the loop computes S4 of the whole message |
| `SafetyCrc.MakeS5Table` | src/safety/src/safety_crc.cpp:137-148 | the generator fills slot k with eight unmasked steps from k at the top, masked at the end |
| `SafetyCrc.ComputeS5Raw` | src/safety/src/safety_crc.cpp:152-158 | with that table the loop computes S5 of the whole message from the masked preset |
| `CrcLaws.S1Linear` | src/safety/src/safety_crc.cpp:32-38 | S1 of an exclusive-or of messages and seeds is the exclusive-or of the two codes |
| `CrcLaws.S2Linear` | src/safety/src/safety_crc.cpp:61-67 | the same for S2 |
| `CrcLaws.S3Linear` | src/safety/src/safety_crc.cpp:90-96 | the same for S3 |
| `CrcLaws.S4Linear` | src/safety/src/safety_crc.cpp:126-132 | the same for S4 |
| `CrcLaws.S5RawLinear` | src/safety/src/safety_crc.cpp:152-158 | the same for S5 |
| `CrcLaws.S1ByteSeen` | src/safety/src/safety_crc.cpp:32-38 | replacing any one message byte changes S1 |
| `CrcLaws.S2ByteSeen` | src/safety/src/safety_crc.cpp:61-67 | replacing any one message byte changes S2 |
| `CrcLaws.S3ByteSeen` | src/safety/src/safety_crc.cpp:90-96 | replacing any one message byte changes S3 |
| `CrcLaws.S4ByteSeen` | src/safety/src/safety_crc.cpp:126-132 | replacing any one message byte changes S4 |
| `CrcLaws.S5ByteSeen` | src/safety/src/safety_crc.cpp:152-158 | replacing any one message byte changes S5 |
| `CrcLaws.S3WindowSeen` | src/safety/src/safety_crc.cpp:90-96 | two different messages that agree outside two bytes in a row have different S3 codes |
| `CrcLaws.S4WindowSeen` | src/safety/src/safety_crc.cpp:126-132 | two different messages that agree outside four bytes in a row have different S4 codes |
| `CrcLaws.S5WindowSeen` | src/safety/src/safety_crc.cpp:152-158 | two different messages that agree outside three bytes in a row have different S5 codes |
| `CrcLaws.S5RawFits` | src/safety/src/safety_crc.cpp:152-158 | the S5 register never leaves its 24 bits |
| `CrcLaws.S3SeedSeen` | src/safety/src/safety_crc.cpp:90-96 | behind one message, equal S3 codes come from equal seeds |
| `CrcLaws.S5SeedSeen` | src/safety/src/safety_crc.cpp:152-158 | behind one message, equal S5 codes come from seeds with the same low 24 bits |
| `CrcLaws.RolloverSeedS3Injective` | src/safety/src/safety_crc.cpp:191-193 | two rollover counts never fold into the same S3 seed |
| `CrcLaws.RolloverSeedS5Injective` | src/safety/src/safety_crc.cpp:195-199 | two rollover counts never fold into the same S5 seed |
| `FrameLaws.AcceptsExactly` | src/safety/src/safety_frame_codec.cpp:43-332 | for every input, length, layout, seeds and rollover count, decoding yields a frame exactly when its data has that length and the input begins with what encoding that frame gives |
| `FrameLaws.RoundTrip` | src/safety/src/safety_frame_codec.cpp:14-24 | an encoded frame has the advertised wire size and decodes to its own data, mode and timestamp, in all four layouts |
| `FrameLaws.RolloverExact` | src/safety/src/safety_frame_codec.cpp:180-300 | an Extended frame built with one rollover count is accepted under another if and only if they are equal |
| `FrameLaws.BaseShortSeen` | src/safety/src/safety_frame_codec.cpp:74-107 | no valid Base short frame stays valid when any one byte is replaced, and which of the checks refuses it |
| `FrameLaws.BaseLongSeen` | src/safety/src/safety_frame_codec.cpp:141-176 | the same for Base long |
| `FrameLaws.ExtendedLongSeen` | src/safety/src/safety_frame_codec.cpp:262-300 | the same for Extended long |
| `FrameLaws.ExtendedShortSeen` | src/safety/src/safety_frame_codec.cpp:202-227 | a valid Extended short frame with one byte replaced is valid if and only if the byte is the mode byte and its top three bits are kept |
| `FrameLaws.OneByteAltered` | src/safety/src/safety_frame_codec.cpp:74-300 | over all layouts: an encoded frame with one byte replaced is accepted if and only if it is Extended short and only the low five mode bits changed; any other is refused with the fault of the check that covers that place |
| `FrameLaws.TruncatedSeen` | src/safety/src/safety_frame_codec.cpp:43-332 | a frame that ends too early is refused as too short, in all four layouts |
| `FrameLaws.AlteredModeTaken` | src/safety/src/safety_frame_codec.cpp:202-227 | what such a change lets through has the same data and timestamp |
| `FrameLaws.PeekIsTimestamp` | src/safety/src/safety_frame_codec.cpp:26-39 | in both Base layouts and Extended short, the timestamp read before the check is the encoded one |
| `FrameLaws.PeekIsLate` | src/safety/src/safety_frame_codec.cpp:34-38 | in Extended long it is the high timestamp byte followed by the last CRC byte |
| `FrameLaws.PeekLateExact` | src/safety/src/safety_frame_codec.cpp:34-38 | which is the encoded timestamp if and only if both bytes equal its low byte |
| `FrameLaws.PeekFailsAtOne` | src/safety/src/safety_frame_codec.cpp:34-38 | timestamp 1 is misread in every Extended long frame |
| `FrameCodes.MaskBits` | src/safety/src/safety_frame_codec.cpp:43-260 | the three masks: the top three mode bits, the same inverted, and the other five, with zeros where a code does not look |
| `FrameCodes.BaseShortCodes` | src/safety/src/safety_frame_codec.cpp:43-72 | byte by byte: data, mode, timestamp low byte first, and the three codes as remainders of mode bits and data, of both inverted, and of mode bits and timestamp |
| `FrameCodes.BaseLongCodes` | src/safety/src/safety_frame_codec.cpp:111-139 | the same for Base long, with the inverted data in the open |
| `FrameCodes.ExtendedShortCodes` | src/safety/src/safety_frame_codec.cpp:180-200 | the same for Extended short: one remainder, from a seed that is itself the remainder of the rollover count, split around the timestamp |
| `FrameCodes.ExtendedLongCodes` | src/safety/src/safety_frame_codec.cpp:231-260 | the same for Extended long: one code over the data, one over the inverted data and the timestamp |
| `FrameCodes.SeedCodes` | src/safety/src/safety_crc.cpp:166-189 | the seeds of a connection are the remainders of vendor, device serial number and connection serial number, low bytes first, from zero |
| `FrameCodec.EncodeBaseShort` | src/safety/src/safety_frame_codec.cpp:43-72 | writes exactly the Base short frame and nothing behind it |
| `FrameCodec.EncodeBaseLong` | src/safety/src/safety_frame_codec.cpp:111-139 | writes exactly the Base long frame and nothing behind it |
| `FrameCodec.EncodeExtendedShort` | src/safety/src/safety_frame_codec.cpp:180-200 | writes exactly the Extended short frame and nothing behind it |
| `FrameCodec.EncodeExtendedLong` | src/safety/src/safety_frame_codec.cpp:231-260 | writes exactly the Extended long frame and nothing behind it |
| `FrameCodec.EncodeInto` | src/safety/src/safety_frame_codec.cpp:304-317 | chooses the layout, returns the wire size, and leaves the frame of the specification in the buffer |
| `FrameCodec.FindMismatch` | src/safety/src/safety_frame_codec.cpp:155-159 | the loop finds a byte that is not the complement of its partner exactly when there is one |
| `FrameCodec.DecodeBaseShort` | src/safety/src/safety_frame_codec.cpp:74-107 | the checks in their order, with the error of the first that fails |
| `FrameCodec.DecodeBaseLong` | src/safety/src/safety_frame_codec.cpp:141-176 | the checks in their order, with the error of the first that fails |
| `FrameCodec.DecodeExtendedShort` | src/safety/src/safety_frame_codec.cpp:202-227 | the check, or too short |
| `FrameCodec.DecodeExtendedLong` | src/safety/src/safety_frame_codec.cpp:262-300 | the checks in their order, with the error of the first that fails |
| `FrameCodec.DecodeFrom` | src/safety/src/safety_frame_codec.cpp:319-332 | chooses the layout and computes the specified result, which `AcceptsExactly` characterises |
| `Identities.FoldExact` | src/safety/src/safety_frame_codec.cpp:180-300 | an Extended frame is accepted under other seeds and another rollover count if and only if folding the counts makes the seeds equal |
| `Identities.PidSeedsApart` | src/safety/src/safety_crc.cpp:166-189 | two connection serial numbers of one device never give the same S3 or the same S5 seed |
| `Identities.ForeignFrameRefused` | src/safety/src/safety_device.cpp:186-200 | at equal rollover counts an Extended frame of one connection is accepted on another of the same producer if and only if they are the same connection |
| `Rollover.CountersStep` | src/safety/src/safety_scanner_connection.cpp:247-265 | a 16-bit timestamp and rollover count bumped together on wrap remain the two halves of one wide tick |
| `Rollover.AdvanceExact` | src/safety/src/safety_device.cpp:420-432 | the tracked count keeps its distance from the producer's over an advance if and only if that is below 0xC000 or does not wrap |
| `Rollover.LimitIsSharp` | src/safety/src/safety_device.cpp:425-430 | an advance is safe from every position if and only if it is below 0xC000 |
| `Rollover.DeficitKept` | src/safety/src/safety_device.cpp:420-432 | over any run whose successive frames are that close, the distance at every frame is the distance at the start |
| `Rollover.LossKeepsClose` | src/safety/src/safety_scanner_connection.cpp:258-260 | any run in which at most m frames are lost in a row stays that close if (m + 1) steps are below 0xC000 |
| `Rollover.CountsAgree` | src/safety/src/safety_scanner_connection.cpp:322-336 | with the right count at one frame and at most 125 lost in a row, the consumer holds the producer's count at every later frame |
| `Rollover.WrongCountStays` | src/safety/src/safety_scanner_connection.cpp:322-336 | and a count once wrong is wrong at every later frame |
| `Rollover.LossOf126Breaks` | src/safety/src/safety_scanner_connection.cpp:322-336 | after 126 lost frames there is a position from which the count comes out wrong |
| `SafetyLink.EstimateExact` | src/safety/src/safety_device.cpp:34-40 | the data length recovered from a frame size is n if and only if n is 1 to 250 and the size is n's wire size |
| `SafetyLink.ModeCarries` | src/safety/include/ethernetip/safety/safety_types.hpp:46-72 | a created mode byte carries run state and ping count and passes the redundancy check |
| `SafetyLink.SentTaken` | src/safety/src/safety_device.cpp:434-438 | a frame sent from a tick is accepted under a count if and only if that is the tick's rollover count |
| `SafetyLink.ScannerFrame` | src/safety/src/safety_scanner_connection.cpp:305-363 | for any data of 1 to 250 bytes: the scanner tracks what it takes for the timestamp, and takes the frame exactly when the count behind that is the frame's own |
| `SafetyLink.DeviceFrame` | src/safety/src/safety_device.cpp:405-458 | the same for a device, which also takes idle frames of rollover 0 by its second attempt |
| `SafetyLink.ScannerExact` | src/safety/src/safety_scanner_connection.cpp:305-363 | for any payload, either format and any state: the scanner reports a frame if and only if it has 1 to 250 data bytes and the payload is its encoding in that format, under the count held then |
| `SafetyLink.DeviceExact` | src/safety/src/safety_device.cpp:405-458 | the same for a device, which also reports an idle frame encoded under rollover 0 |
| `SafetyLink.BaseTaken` | src/safety/src/safety_device.cpp:405-458 | from any state both consumers take every Base frame of 1 to 250 data bytes and move by its own timestamp |
| `SafetyLink.ScannerRunExact` | src/safety/src/safety_scanner_connection.cpp:305-363 | over any run of frames with any data and any losses, a frame is taken if and only if the wraps seen in what was read of the frames up to it, added to the count at the start, make its rollover count modulo 65536 |
| `SafetyLink.DeviceRunExact` | src/safety/src/safety_device.cpp:405-458 | the same for a device, up to its second attempt |
| `SafetyLink.ScannerRunClose` | src/safety/src/safety_scanner_connection.cpp:305-363 | over any run of close short frames the scanner takes every frame if its count was right at the start and none otherwise |
| `SafetyLink.DeviceRunClose` | src/safety/src/safety_device.cpp:405-458 | the same for a device, up to its second attempt |
| `SafetyLink.DeviceTakesAll` | src/safety/src/safety_device.cpp:405-458 | with at most 125 short frames lost in a row, a device right at one frame decodes every later frame it receives to what was sent |
| `LongFrames.JumpRefused` | src/safety/src/safety_device.cpp:405-458 | of two frames of one rollover count, a device that starts from that count takes the first and refuses the second whenever what it reads of them jumps back, although their timestamps do not |
| `LongFrames.LossFreeRunBreaks` | src/safety/src/safety_frame_codec.cpp:26-39 | two long frames one step apart, none lost, from the right count: the second is refused |
| `ColdStart.DeviceFromFirst` | src/safety/src/safety_device.cpp:421-424 | a device that has seen nothing takes the whole of a close run of short frames, or none of it, by whether its initial count is that of the first frame |
| `ColdStart.ScannerFromFirst` | src/safety/include/ethernetip/safety/safety_scanner_connection.hpp:156-158 | the same for the scanner's consumer |
| `ColdStart.ColdStartExact` | src/safety/src/safety_scanner_connection.cpp:239-265 | from idle production over activation at any moment, with at most 125 short frames lost in a row and an initial timestamp of at most 16785, a device takes every frame if and only if it starts from the producer's count, up to its second attempt |
| `ColdStart.LatestExact` | src/safety/src/safety_device.cpp:425-430 | the initial timestamp is at most 16785 if and only if every such run is taken whole by a device that starts from the producer's count |
| `ColdStart.GapBreaks` | src/safety/src/safety_scanner_connection.cpp:239-265 | for every later initial timestamp: an idle frame, activation and 125 lost frames take the producer past a wrap the device does not see |
| `ColdStart.DeviceSends` | src/safety/src/safety_device.cpp:293-324 | the frame a device sends is that of its corrected tick |
| `SafetyEndpoints.ScannerProducer.constructor` | src/safety/src/safety_scanner_connection.cpp:83-87 | counters start at the configured values, idle, with zero data |
| `SafetyEndpoints.ScannerProducer.OnServerTcoo` | src/safety/src/safety_scanner_connection.cpp:298-303 | the first time coordination message activates the connection and sets run; later ones change nothing |
| `SafetyEndpoints.ScannerProducer.ProduceServerData` | src/safety/src/safety_scanner_connection.cpp:239-285 | emits the Extended or Base frame of the current tick with its own rollover count, or of timestamp 0 while idle, with the run state and the ping count in its mode byte, and advances the tick by 390 only while active |
| `SafetyEndpoints.ScannerConsumer.OnClientData` | src/safety/src/safety_scanner_connection.cpp:305-363 | updates the tracking fields and decides about the payload as `ScannerFrame` and `ScannerExact` characterise, in either format |
| `SafetyEndpoints.DeviceConsumer.HandleReceivedIoData` | src/safety/src/safety_device.cpp:405-458 | updates the tracking fields and decides as `DeviceFrame` and `DeviceExact` characterise, in either format; the assembly changes exactly when a frame is valid, to its data |
| `TimeCorrection.SlewShrinks` | src/safety/src/safety_device.cpp:258-273 | one slew step moves the correction forward and shrinks its lag by an eighth or by one, never past the goal |
| `TimeCorrection.StepsForward` | src/safety/src/safety_device.cpp:248-298 | on every run of frames and messages with a clock that does not go back, no event takes the correction or the tick backwards, the lag is at most 32767, and the backward snap is never taken |
| `TimeCorrection.TickNeverDecreases` | src/safety/src/safety_device.cpp:275-295 | over any run, whatever is asked for, a later tick is at least an earlier one |
| `TimeCorrection.TickForwardExact` | src/safety/src/safety_device.cpp:275-291 | for one frame, with no assumption on the clock, exactly when the tick does not decrease |
| `TimeCorrection.PairIsTick` | src/safety/src/safety_device.cpp:293-297 | the transmitted rollover count and timestamp are the two halves of tick plus initial rollover times 65536 |
| `TimeCorrection.FramesShrinkLag` | src/safety/src/safety_device.cpp:258-273 | over frames without a message the lag is the iterated shrink of where it began |
| `TimeCorrection.SettlesIn92` | src/safety/src/safety_device.cpp:258-273 | so the correction reaches its goal within 92 frames from any lag |
| `TimeCorrection.AsksForOne` | src/safety/src/safety_device.cpp:363-367 | there is exactly one correction that brings the last produced timestamp, with the constant, to the consumer's time, and it is the one the code computes |
| `TimeCorrection.MessageExact` | src/safety/src/safety_device.cpp:337-403 | exactly when a message moves the correction, when only its goal, and when neither: on time, behind a skipped one, ahead by less than half a wrap; at once from zero or over at most one interval |
| `TimeCorrection.GoalIsAsked` | src/safety/src/safety_device.cpp:363-400 | whenever a message moves goal or correction, last timestamp plus the new value plus the constant is the consumer's time |
| `TimeCorrection.MessageStarts` | src/safety/src/safety_device.cpp:337-361 | what else a message does: the first one starts clock and counters, later ones change neither |
| `TimeCorrection.FrameExact` | src/safety/src/safety_device.cpp:245-298 | a frame sends the time since the start in units of 128 us behind the initial timestamp, moved by the correction, as long as the tick does not go back |
| `TimeCorrection.EarlyFrameExact` | src/safety/src/safety_device.cpp:245-298 | before the start the same holds, with the time rounded towards it |
| `TimeCorrection.CorrectionMeets` | src/safety/src/safety_device.cpp:245-403 | together: a frame sent at the time of the last one, after a message that moved the correction at once, carries the consumer's time less the constant |
| `TimeCorrection.DeviceProducer.ProduceFrame` | src/safety/src/safety_device.cpp:245-298 | the whole new timing state, and the timestamp sent |
| `TimeCorrection.DeviceProducer.HandleTcoo` | src/safety/src/safety_device.cpp:337-403 | the whole new timing state as `MessageExact` and `MessageStarts` characterise: activation, late messages, the skipped first one, instant and slewed corrections |
| `DeviceRuns.ScannerFollowsDevice` | src/safety/src/safety_device.cpp:245-403 | over any run of frames and time coordination messages whose correction stays at most 0x4000 ticks and whose received frames are at most 3.1 seconds of clock and 8191 events apart, a scanner that starts from the count of the first short frame received decodes every one to what the device sent, and any other none |
| `DeviceRuns.PacedTells` | src/safety/src/safety_device.cpp:275-298 | between two such frames the corrected tick advances by less than the consumer can follow |
| `NetworkSegment.RoundTrip` | src/safety/src/safety_network_segment.cpp:21-127 | an encoded Target or Extended segment, whatever follows it, parses back field for field with its size |
| `NetworkSegment.RouterRead` | src/safety/src/safety_network_segment.cpp:60-65 | a segment of the router format gives the id, interval and parameters of the time correction connection, and nothing else |
| `NetworkSegment.TruncatedRefused` | src/safety/src/safety_network_segment.cpp:21-36 | an encoded segment that ends too early is refused, as too small or, with less than three bytes, as no safety segment |
| `NetworkSegment.CountExact` | src/safety/src/safety_network_segment.cpp:21-58 | with any other count of words it is read all the same, with that size, unless the input or the format's minimum says otherwise |
| `NetworkSegment.HeadRefused` | src/safety/src/safety_network_segment.cpp:21-55 | with another type or an unknown format it is refused for that |
| `NetworkSegment.UnidRoundTrip` | src/safety/src/safety_types.cpp:21-31 | network number and node address survive their ten bytes |
| `NetworkSegment.FrontFields` | src/safety/src/safety_network_segment.cpp:99-119 | where each field of an encoded segment stands |
| `NetworkSegment.EncodeSegment` | src/safety/src/safety_network_segment.cpp:88-127 | refuses an output that is too small, and otherwise writes exactly the segment |
| `NetworkSegment.ParseFrom` | src/safety/src/safety_network_segment.cpp:21-86 | parses every input as specified, each malformed one to its own error |
| `ConnectionPath.CollectSegments` | src/connections/src/connection_path_parser.cpp:7-126 | the loop collects what the path names and captures the safety segment |
| `ConnectionPath.ParseConnectionPath` | src/connections/src/connection_path_parser.cpp:7-155 | and which of what was collected are the configuration, consumed and produced assemblies, by the class and the null directions |
| `ConnectionPath.FindSafetySegment` | src/connections/src/connection_path_parser.cpp:157-237 | the loop reports where the first safety segment stands, in coordinates of the whole path |
| `ConnectionPath.WalkPassesFound` | src/connections/src/connection_path_parser.cpp:31-237 | on every path the collecting walk reaches the place the searching walk reports without having captured anything before it |
| `ConnectionPath.CaptureIsFound` | src/connections/src/connection_path_parser.cpp:108-117 | whenever one walk captures a safety segment, the other finds one, complete |
| `PathItems.ItemsWalk` | src/connections/src/connection_path_parser.cpp:31-126 | for any list of key, class, instance, point, data, safety, network, port and other segments, written one behind the other: the walk keeps exactly what they name, in order, and the search stops at the first safety segment |
| `PathItems.PathWalked` | src/connections/src/connection_path_parser.cpp:7-126 | so for whole paths |
| `PathItems.WrappedWalked` | src/connections/src/connection_path_parser.cpp:12-19 | and behind the wrapper of an Unconnected_Send route |
| `PathItems.TwoPoints` | src/connections/src/connection_path_parser.cpp:129-132 | a configuration instance and two connection points name configuration, consumed and produced assembly |
| `PathItems.OnePoint` | src/connections/src/connection_path_parser.cpp:133-142 | one point is the assembly of the direction that is not null, or of both |
| `PathItems.ThreeInstances` | src/connections/src/connection_path_parser.cpp:143-148 | three instances without a point name all three |
| `PathItems.PointsAlone` | src/connections/src/connection_path_parser.cpp:149-152 | two points without an assembly class name the two directions, and an instance with a point names nothing |
| `ForwardOpen.SafetyParamsRead` | src/safety/src/safety_forward_open_builder.cpp:79-81 | the target reads the built parameters as point-to-point, high priority, fixed, with the size modulo 512 |
| `ForwardOpen.Params16Exact` | src/connections/src/forward_open_request.cpp:9-16 | a sixteen-bit word is read as given parameters if and only if these fit their fields and the word without its unused bits is theirs |
| `ForwardOpen.Params32Exact` | src/connections/src/forward_open_request.cpp:18-26 | the same for thirty-two bits |
| `ForwardOpen.ParseRequestFrom` | src/connections/src/forward_open_request.cpp:29-81 | both request forms are parsed as specified, truncated ones refused |
| `ForwardOpen.HeadRead` | src/connections/src/forward_open_request.cpp:29-81 | in both forms, every field of a head followed by a path of the announced length is read back as it was written |
| `SafetyOpen.ShortcutFound` | src/connections/src/connection_path_parser.cpp:31-237 | on a path that begins with a class and three assemblies in the usual form both walks find the one safety segment at offset 8 |
| `SafetyOpen.FoundIsJudge` | src/safety/src/safety_device.cpp:72-124 | for every request in which the search finds a complete segment at offset 8, whatever stands in front of it, parsing, walking and validating come down to comparing bytes in their places |
| `SafetyOpen.OpenIsJudge` | src/safety/src/safety_device.cpp:72-124 | so they do for every request of the usual shape |
| `SafetyOpen.BuiltCrcHolds` | src/safety/src/safety_forward_open_builder.cpp:109-121 | whatever the configuration, the built request has that shape and its CRC covers its own bytes |
| `SafetyOpen.BuiltRead` | src/safety/src/safety_forward_open_builder.cpp:89-106 | the target reads from a built request the originator's serial number, vendor and device, its ids, rates and parameters |
| `SafetyOpen.BuiltNames` | src/connections/src/connection_path_parser.cpp:128-155 | and from its path the three assemblies of the configuration |
| `SafetyOpen.BuiltRates` | src/safety/src/safety_forward_open_builder.cpp:70-106 | in terms of the configuration: what it leaves zero is filled in, both directions are point-to-point and of high priority, and the target's connection id is the serial number under a fixed top byte |
| `SafetyOpen.BuiltSegmentRead` | src/safety/src/safety_forward_open_builder.cpp:40-62 | the target reads every configured field of the safety segment, the last three in the extended format, and an unused time correction connection |
| `SafetyOpen.SameSeeds` | src/safety/src/safety_crc.cpp:166-189 | hence both ends compute the same three seeds |
| `SafetyOpen.OpenAgreement` | src/safety/src/safety_device.cpp:72-124 | the target's exact answer to any built request: refused for a foreign network identity, refused for a conflicting configuration CRC, accepted in every other case |
| `AnyPath.RouteWalked` | src/connections/src/connection_path_parser.cpp:7-237 | behind any list of segments that has no safety segment, in front of it the wrapper or not, both walks come to the safety segment that follows |
| `AnyPath.RouteAgreement` | src/safety/src/safety_device.cpp:72-124 | the same exact answer to a request built with any such application path of at most 448 bytes |
| `SafetyOpen.SegmentRefused` | src/safety/src/safety_device.cpp:72-96 | whatever the walk captures: no complete safety segment, one for another node, or one the search does not find is refused with 0x080E; a request that cannot be parsed with 0x0118 |
| `SafetyTamper.GuardedSeen` | src/safety/src/safety_cpcrc.cpp:32-50 | replacing one covered byte, or one byte of the CRC field, breaks the CRC of any request with a complete segment behind eight bytes |
| `SafetyTamper.TamperRefused` | src/safety/src/safety_device.cpp:92-115 | a built request is refused when any one of service data bytes 10-13 or 18-34, the class, an assembly number, or a segment byte from the fourth to the end of the CRC field is replaced |
| `SafetyTamper.TamperExact` | src/safety/src/safety_device.cpp:72-124 | the target's exact answer to a built request with any one byte replaced by any other, as long as the walk still comes to the segment, or ends: unchanged for a byte nobody reads, too short or an ordinary connection for the path size, an ordinary connection for a larger segment length, refused for an unknown format, decided by the shorter cover for the base format in place of the extended one, and refused for every other byte |
| `SafetyTamper.TamperAccepted` | src/safety/src/safety_device.cpp:92-115 | outside the seven bytes that say where segments begin, such a request is accepted if and only if the byte is one that nothing reads and the request was accepted as built |
| `SafetyOpenWire.ComputeFromRaw` | src/safety/src/safety_cpcrc.cpp:21-51 | assembling the covered bytes and overwriting the path size gives the CRC over them; wrong sizes are refused |
| `SafetyOpenWire.WriteHead` | src/safety/src/safety_forward_open_builder.cpp:89-106 | the fields of the request head in their places |
| `SafetyOpenWire.BuildRequest` | src/safety/src/safety_forward_open_builder.cpp:24-127 | filling the buffer and patching the CRC in place gives the specified request, for any route and application path |
| `SafetyOpenWire.ValidateSafetyOpen` | src/safety/src/safety_device.cpp:72-124 | the target's checks in their order |
| `Connections.AdmitSound` | src/connections/src/connection_manager.cpp:161-200 | a Forward Open that passes its checks keeps the whole invariant |
| `Connections.RemoveSound` | src/connections/src/connection_manager.cpp:69-87 | so does the removal of a live connection with its callback |
| `Connections.StaleRemoveSound` | src/connections/src/connection_manager.cpp:69-92 | so does a removal that comes too late, which changes nothing but fires the callbacks again |
| `Connections.StepSound` | src/connections/src/connection_manager.cpp:69-295 | every open, close and timeout keeps the invariant: keys are ids, live triads are distinct, the validator's maps are a bijection with the live safety connections, the configuration id is zero when none is live, every connection is live or removed |
| `Connections.KeyIsId` | src/connections/src/connection_manager.cpp:256-277 | the connection a close finds is the only one with its triad, under its own id |
| `Connections.RemovedOnceExact` | src/connections/src/connection_manager.cpp:79-92 | the callbacks fire at most once for every connection on a run if and only if every timeout on it finds its connection still in the map |
| `Connections.EveryRun` | src/connections/src/connection_manager.cpp:69-295 | all of it, from the empty state, for every run of fewer than 2^32 events |
| `Connections.LateTimeout` | src/device/src/virtual_device.cpp:299-305 | open, close and a timeout of what the watchdog still held: the callbacks fire twice for it |
| `Connections.AgreementExact` | src/safety/src/safety_device.cpp:117-146 | on every run the live safety connections agree on their configuration CRC at every moment if and only if each safety open admitted beside another carried the stored one |
| `Connections.NonzeroRunsAgree` | src/safety/src/safety_device.cpp:117-122 | from the empty state, without a configuration CRC of zero they always agree |
| `Connections.ZeroBreaksAgreement` | src/safety/src/safety_device.cpp:146 | with a zero between them, configuration CRCs 5 and 7 are live together |
| `Lifecycle.TriadExact` | src/connections/src/connection_manager.cpp:149-159 | two identities are one triad exactly if serial number, vendor and originator agree |
| `Lifecycle.CloseNames` | src/connections/src/connection_manager.cpp:252-254 | a close names the identity that stands in it at 2, 4 and 6, low bytes first |
| `Lifecycle.VerdictFirst` | src/connections/src/connection_manager.cpp:104-147 | what the target refuses of a request the manager refuses with the same status; otherwise it answers as for an ordinary connection |
| `Lifecycle.OpenThenClose` | src/connections/src/connection_manager.cpp:100-287 | from bytes to bytes: what a head of either form opens, a close with its serial number, vendor and originator removes again, and nothing else |
| `Lifecycle.CloseRemoves` | src/connections/src/connection_manager.cpp:256-277 | a close with the identity of a live connection removes exactly that one |
| `Lifecycle.OtherCloseLeaves` | src/connections/src/connection_manager.cpp:256-277 | a close with any other identity leaves it live |
| `Lifecycle.BuiltRequested` | src/connections/src/connection_manager.cpp:104-147 | a built safety request asks for the originator's identity, the two assemblies in their directions, and the configuration CRC |
| `Lifecycle.BuiltAnswer` | src/connections/src/connection_manager.cpp:104-204 | the manager's whole answer to a built request, in terms of the configuration and of what is live |
| `Lifecycle.BuiltOpens` | src/connections/src/connection_manager.cpp:161-200 | and the connection it then holds: identity, consumed and produced assembly, configuration CRC |
| `ConnectionManager.SafetyValidator.CreateInstance` | src/safety/src/safety_validator_object.cpp:27-56 | both maps and the id counter after an instance is created |
| `ConnectionManager.SafetyValidator.RemoveInstanceByConnection` | src/safety/src/safety_validator_object.cpp:63-84 | both maps after a removal, and whether there was anything to remove |
| `ConnectionManager.Manager.FindTriad` | src/connections/src/connection_manager.cpp:149-159 | the search finds a connection with the triad exactly when there is one |
| `ConnectionManager.Manager.AnySafety` | src/safety/src/safety_device.cpp:532-535 | the search for a remaining safety connection |
| `ConnectionManager.Manager.ForwardOpen` | src/connections/src/connection_manager.cpp:104-204 | the answer by the first check that fails, and the whole new state |
| `ConnectionManager.Manager.OnConnectionRemoved` | src/safety/src/safety_device.cpp:519-548 | the validator entry goes, and the configuration id with the last safety connection |
| `ConnectionManager.Manager.RemoveConnection` | src/connections/src/connection_manager.cpp:69-87 | the whole new state of a removal or timeout |
| `ConnectionManager.Manager.ForwardClose` | src/connections/src/connection_manager.cpp:243-287 | the answer, and the whole new state of a close of what `CloseNames` says it names; a request of fewer than ten bytes is refused and changes nothing |
| `TagLayout.PlaceOk` | src/logix/src/tag_database.cpp:366-410 | placing one more member keeps every placed member, hidden host bytes among them, on multiples of its own width, apart from the others and inside, and the open host byte last |
| `TagLayout.BuildOk` | src/logix/src/tag_database.cpp:351-425 | for any declarations: members stand on multiples of their width (of four for structures and strings); of any two, the earlier ends where the later begins or before, or it is a hidden host byte and the later one of the bits in it; each host byte is followed by its bits at its own offset; and all lie inside a size that is a multiple of four |
| `NaturalLayout.Sizes` | src/logix/include/ethernetip/logix/logix_data_types.hpp:65-85 | what each atomic type code occupies, and that no other has a size |
| `NaturalLayout.BuildTight` | src/logix/src/tag_database.cpp:331-425 | for any declarations: every member stands at the first multiple of its own width behind the ones before it (of four for structures and strings), BOOLs fill host bytes from the lowest bit, a new one only when the last is full or closed, and the size is the first multiple of four |
| `NaturalLayout.OnlyLayout` | src/logix/src/tag_database.cpp:366-410 | no other offsets do: the kinds of the members, in order, leave one choice |
| `NaturalLayout.BuildDeclares` | src/logix/src/tag_database.cpp:366-410 | for every declaration there is one member of its name, type, size and array size, in order, and nothing else but host bytes |
| `NaturalLayout.BuildHides` | src/logix/src/tag_database.cpp:364-375 | the host bytes are named by the structure and consecutive numbers, no two alike |
| `Walker.IntoExtent` | src/logix/src/walker.cpp:66-98 | entering a member narrows the reachable bits to exactly those its structure has for it |
| `Walker.AtExtent` | src/logix/src/walker.cpp:99-122 | an index narrows them to exactly one stride of the remaining dimensions |
| `Walker.TakeInside` | src/logix/src/walker.cpp:58-126 | every step stays inside what could be reached before |
| `Walker.TakeApart` | src/logix/src/walker.cpp:58-126 | two different steps from one place, not to a host byte, reach disjoint bits |
| `Walker.WalkLandsInside` | src/logix/src/walker.cpp:35-136 | every successful walk, at any depth and in any number of dimensions, ends inside the tag's buffer |
| `Walker.WalksDisjoint` | src/logix/src/walker.cpp:35-136 | two walks that end at different leaves, not through host bytes, have disjoint byte or bit footprints |
| `Walker.SameStepsSameSpot` | src/logix/src/walker.cpp:35-136 | two paths that take the same steps end at the same place, in whatever case their names are written |
| `Walker.SameNameExact` | src/logix/src/walker.cpp:15-27 | names match exactly if they differ in nothing but the case of letters |
| `Walker.CaseWalks` | src/logix/src/walker.cpp:35-136 | however the names in a path are written, it leads to the same place, or nowhere |
| `Walker.LogicalIgnored` | src/logix/src/walker.cpp:119-121 | logical segments between names and indices make no difference |
| `Walker.NameLeads` | src/logix/src/walker.cpp:58-98 | a name leads to the first member that has it, with that member's type, bit, structure or array, and nowhere if none has |
| `Walker.IndicesLead` | src/logix/src/walker.cpp:99-122 | one index for each remaining dimension leads to the element in row-major order, and nowhere if one of them is out of range |
| `Walker.TagElements` | src/logix/src/walker.cpp:99-130 | a tag takes exactly as many indices as it has dimensions, each inside its own; BOOLs of an array stand in bytes from the lowest bit |
| `Walker.AtomicTagExact` | src/logix/src/tag_database.cpp:53-84 | the buffer of an atomic tag or packed BOOL array is exactly what can be indexed |
| `Walker.AtomicTagDimsExact` | src/logix/src/tag_database.cpp:86-103 | so is that of an array by dimensions, but for BOOLs, of which only an eighth is |
| `Walker.StructTagExact` | src/logix/src/tag_database.cpp:105-121 | so is that of structures and arrays of them |
| `Walker.AtomicTagOk` | src/logix/src/tag_database.cpp:53-84 | the buffer of an atomic tag or packed BOOL array holds all that can be indexed |
| `Walker.AtomicTagDimsOk` | src/logix/src/tag_database.cpp:86-103 | the same for up to three dimensions |
| `Walker.StructTagOk` | src/logix/src/tag_database.cpp:105-121 | the same for structures and arrays of them |
| `TagDatabase.LayOut` | src/logix/src/tag_database.cpp:359-410 | the loop lays out the members as specified, which is as `BuildTight`, `OnlyLayout` and `BuildDeclares` characterise, or stops at an unregistered template |
| `TagDatabase.FindMemberIn` | src/logix/src/walker.cpp:15-27 | the search returns the first member of that name, in any case |
| `TagDatabase.KeyExact` | src/logix/src/tag_database.cpp:123-156 | two names have one key exactly if they differ in nothing but case |
| `TagDatabase.WalkTag` | src/logix/src/walker.cpp:35-136 | the loop over the segments ends where the specified walk ends, and fails where it fails |
| `TagDatabase.Database.AddTemplate` | src/logix/src/tag_database.cpp:351-425 | adds exactly the template laid out, so characterised, keeping every template and tag of the database sound |
| `TagDatabase.Database.Register` | src/logix/src/tag_database.cpp:123-156 | refuses a name that differs in case only, and keeps names and instance ids inverse to each other |
| `TagMemory.SetBitIsByteWide` | src/logix/include/ethernetip/logix/tag.hpp:160-176 | the update through the 32-bit word changes exactly one bit of exactly one byte, also at the ragged end of a buffer |
| `TagMemory.BitWith` | src/logix/include/ethernetip/logix/tag.hpp:160-176 | the bit written reads as written |
| `TagMemory.OtherBitWith` | src/logix/include/ethernetip/logix/tag.hpp:160-176 | the seven others read as before |
| `TagMemory.OverlayExact` | src/logix/include/ethernetip/logix/tag.hpp:127-141 | a bulk write replaces a byte exactly if it has one for it and its offset is inside |
| `TagMemory.Buffer.SetData` | src/logix/include/ethernetip/logix/tag.hpp:127-141 | the buffer after a bulk write, clipped at its end |
| `TagMemory.Buffer.AtomicSetBit` | src/logix/include/ethernetip/logix/tag.hpp:160-176 | the buffer after a bit write, unchanged for a bit or offset out of range |
| `TagMemory.Buffer.GetData` | src/logix/include/ethernetip/logix/tag.hpp:93-100 | the window asked for, or nothing if it is not inside |
| `TagServices.WrittenIsRead` | src/logix/src/tag_services.cpp:305-394 | an accepted write of one element is what a read of one element returns there |
| `CountedAccess.ReadExact` | src/logix/src/tag_services.cpp:305-344 | for any count: a read is refused if and only if its elements leave the tag; otherwise it carries their bytes, the first 476 of a structure and 478 of anything else, and is complete if that is all |
| `CountedAccess.ReadRefused` | src/logix/src/tag_services.cpp:305-323 | a request without a count is refused, and one of a bit for any count but one |
| `CountedAccess.PlainIsFirst` | src/logix/src/tag_services.cpp:305-452 | a plain read is the first reply of the fragmented one |
| `CountedAccess.WriteExact` | src/logix/src/tag_services.cpp:346-394 | for any count: a write is refused if its payload is too short, then if it leaves the tag; otherwise exactly its elements are overwritten, by exactly the payload |
| `CountedAccess.WriteBitExact` | src/logix/src/tag_services.cpp:346-384 | a write of a bit takes the lowest bit of its first byte and changes no other |
| `CountedAccess.WrittenAllRead` | src/logix/src/tag_services.cpp:305-394 | whatever number of elements was written is what reading as many returns |
| `CountedAccess.EchoLeaves` | src/logix/src/tag_services.cpp:305-394 | what a read returned can be written back under its own prefix, and changes nothing |
| `CountedAccess.FragmentExact` | src/logix/src/tag_services.cpp:396-452 | from any offset, inside the tag or not: refused behind the last byte asked for or behind the tag, otherwise as much as is asked for, is there and has room |
| `CountedAccess.FragmentWriteExact` | src/logix/src/tag_services.cpp:454-521 | a piece that leaves its elements, or the tag, is refused with its own error; otherwise exactly its bytes are overwritten |
| `CountedAccess.FragmentBitExact` | src/logix/src/tag_services.cpp:396-521 | a bit is read and written whole, from offset 0 |
| `CountedAccess.WrongType` | src/logix/src/tag_services.cpp:346-521 | a write that names another type or structure changes nothing |
| `TagServices.ElsewhereUnread` | src/logix/src/tag_services.cpp:346-394 | whatever shares no bit with what a write covers reads as before, for any count of elements and any memory |
| `TagServices.LeafWrite` | src/logix/src/tag_services.cpp:305-394 | by path: after a successful write of one leaf, reading any leaf of the tag returns what was written if it is that leaf and what it held before otherwise |
| `Overruns.OverrunExact` | src/logix/src/tag_services.cpp:346-394 | for two leaves by path and an accepted write of n elements to the first: the second reads as before for every payload and memory if and only if the n elements do not reach into it |
| `Overruns.PairOverrun` | src/logix/src/tag_services.cpp:385-392 | in a tag of a structure of two SINTs, laid out and walked, a write of two elements to the first member is accepted and changes what the second reads |
| `TagHandlers.HandleReadTagAt` | src/logix/src/tag_services.cpp:305-344 | the reply over the tag's own buffer, in every branch, as `ReadExact` and `ReadRefused` characterise it for any count |
| `TagHandlers.HandleWriteTagAt` | src/logix/src/tag_services.cpp:346-394 | the reply and the buffer afterwards, in every branch, as `WriteExact` and `WriteBitExact` characterise them |
| `TagHandlers.HandleReadTagFragmentedAt` | src/logix/src/tag_services.cpp:396-452 | the reply over the tag's own buffer, in every branch, as `FragmentExact` characterises it |
| `TagHandlers.HandleWriteTagFragmentedAt` | src/logix/src/tag_services.cpp:454-521 | the reply and the buffer afterwards, in every branch, as `FragmentWriteExact` characterises them |
| `Fragments.FragmentRead` | src/logix/src/tag_services.cpp:396-452 | inside a window each fragment is a piece of the window at the requested offset, complete exactly at its end |
| `Fragments.ReadWindow` | src/logix/src/tag_services.cpp:396-452 | repeating the read from where the last reply ended terminates after the least possible number of replies and gives exactly the window |
| `Fragments.PiecesWritten` | src/logix/src/tag_services.cpp:454-521 | after any sequence of fragments of one payload, in any order and overlap, a byte holds the payload where some fragment covered it and its old value elsewhere |
| `Fragments.WindowWritten` | src/logix/src/tag_services.cpp:454-521 | fragments that cover the window leave exactly the payload there and change nothing else |
| `Fragments.ReadStructBytes` | src/logix/src/tag_client.cpp:350-381 | the client's structure read terminates, and returns the structure if and only if one reply holds it |
| `Browse.RowsRead` | src/logix/src/tag_client.cpp:576-607 | the client reads from a page exactly the rows the server packed |
| `Browse.AscendingOnce` | src/logix/src/symbol_object.cpp:220-224 | the server's selection has every tag from the start id on, once, by increasing id |
| `Browse.Resumed` | src/logix/src/symbol_object.cpp:213-224 | what follows the first n rows is what a request from behind the last of them selects |
| `Browse.PageProgress` | src/logix/src/symbol_object.cpp:242-307 | a page has at least one row as long as one is left that fits the buffer |
| `Browse.PageExact` | src/logix/src/symbol_object.cpp:228-318 | a page holds the first rows in order, of no more than 480 bytes unless it is one alone, and stops only where the next would not fit |
| `Browse.AttributeRead` | src/logix/src/symbol_object.cpp:255-306 | what each attribute contributes: name, type, words that are zero, the count of an array, the access mark |
| `Browse.BrowseAll` | src/logix/src/tag_client.cpp:555-611 | browsing terminates and returns every tag exactly once, by increasing id, each with its own name and type |
| `Browse.PutRow` | src/logix/src/symbol_object.cpp:242-306 | the checks attribute by attribute with rollback pack a row exactly when the whole row fits, and leave the bytes before it as they were |
| `Browse.BuildPage` | src/logix/src/symbol_object.cpp:236-318 | the page loop returns the longest run of rows that fits, marked as continued exactly when rows are left |
| `TemplateRead.BlockParsed` | src/logix/src/tag_client.cpp:669-697 | from the block the client recovers every member's type, info, offset and name, and the template name with its suffix |
| `TemplateRead.AsksForAll` | src/logix/src/tag_database.cpp:29-41 | what a client derives from the advertised size is the padded block and one byte more |
| `TemplateRead.ChunkExact` | src/logix/src/template_object.cpp:118-148 | a chunk is refused from the end of the block on; before it, it has what is asked for and there, at most 480 bytes, and is the last exactly if it ends the block |
| `TemplateRead.BuildDefinition` | src/logix/src/template_object.cpp:150-191 | the loops fill the block as specified: entries, names, padding |
| `TemplateRead.ReadTemplate` | src/logix/src/tag_client.cpp:648-697 | the chunked read terminates after one reply for each 480 bytes and recovers the definition |
| `MultiService.MrRoundTrip` | src/cip/src/mr_codec.cpp:10-29 | an embedded request with an even path of at most 510 bytes parses back to itself |
| `MultiService.PackSplit` | src/logix/src/multi_service_handler.cpp:25-63 | a packet of parts passes the offset-table checks and is split into the same parts |
| `MultiService.FoundIsInPacket` | src/logix/src/tag_client.cpp:457-473 | what the client finds where the offset table of a delivered packet sends it is the outcome of the embedded reply, as cut to 520 bytes |
| `MultiService.PacketKeepsExact` | src/logix/src/multi_service_handler.cpp:65-85 | that outcome is the outcome of a read of its own, delivered in 4096 bytes, if and only if the reply fits 520 bytes or the read fails anyway |
| `MultiService.ReadReplyFits` | src/logix/src/tag_services.cpp:305-344 | every reply of a read of a tag fits |
| `MultiService.ReplyTells` | src/logix/src/tag_services.cpp:24-58 | a reply is marked as one, with status 0 or 6 by whether it is all there is, or with its error and what extends that; only data reaches the client |
| `MultiService.PacketHandled` | src/protocol/src/eip_adapter.cpp:207-219 | the handler's answer is delivered if it fits 4096 bytes, and replaced by an error otherwise |
| `MultiService.BuildPacket` | src/logix/src/tag_client.cpp:417-435 | the loops write count, offset table and parts as specified |
| `MultiService.SplitPacket` | src/logix/src/multi_service_handler.cpp:25-63 | the validation loop accepts exactly the tables whose offsets stand behind the table, inside the packet and in order |
| `MultiService.ReadMultiple` | src/logix/src/tag_client.cpp:404-475 | packed read, server split, replies, delivery and client split by the count in the reply compute the specified map: it fails exactly if the packed reply does not fit the message; otherwise a name gets the outcome of a read of its own if and only if that reply fits 520 bytes or fails, and nothing else is returned |
| `PackedReads.ReplyingFits` | src/logix/src/logix_dispatcher.cpp:145-284 | over a database of sound templates and tags, the reply to a read by path of any controller tag, there or not, has at most 520 bytes |
| `PackedReads.TagReadsExact` | src/logix/src/tag_client.cpp:404-475 | with the tag services behind it, a packed read of any names of controller scope fails exactly if the replies together do not fit the message, and otherwise gives every name what a read of its own gives |
| `PackedReads.NamesTold` | src/logix/src/logix_dispatcher.cpp:145-284 | from text to value: names and indices that survive being written are told what the walk of those names and indices reads in the tag they name |
| `PackedReads.ElementTold` | src/logix/src/tag_services.cpp:305-344 | from text to bytes: a name with indices is told its type and the bytes of the one element they number in row-major order, or as many as fit, and nothing if there is no such element |
| `PackedReads.BitTold` | src/logix/src/walker.cpp:112-114 | and of an array of BOOLs its bit |
| `PackedReads.WholeTold` | src/logix/src/logix_dispatcher.cpp:245-256 | a name without indices is told what stands at the beginning of its tag |
| `PackedReads.UnknownTold` | src/logix/src/logix_dispatcher.cpp:191-205 | a name no tag has is answered with status 0x05 |
| `PackedReads.LogicalSkipped` | src/logix/src/logix_dispatcher.cpp:248-253 | a logical segment among names and indices makes no difference |
| `PackedReads.FirstPartFound` | src/logix/src/tag_database.cpp:295-303 | a dotted name no tag has stands for the tag of its first part |
| `PackedReads.OthersUntouched` | src/logix/src/logix_dispatcher.cpp:145-190 | requests that are no reads, give a class, or name a program or nothing are left to others |
| `PackedReads.NineFail` | src/protocol/src/eip_adapter.cpp:210-219 | of nine array elements, each of which a request of its own reads, a packed read of the first n succeeds if and only if n is at most 8 |
| `Dispatch.DispatchesLinear` | src/cip/include/ethernetip/cip/dispatch_depth.hpp:1-48 | however Multiple_Service_Packet and Unconnected_Send are nested, a request makes at most one dispatch for every two bytes it carries, and one for itself |
| `Dispatch.SentIsAnswered` | src/connections/src/connection_manager.cpp:297-337 | an Unconnected_Send of a request is answered as that request, one level further in |
| `Dispatch.WrappedAnswered` | src/cip/include/ethernetip/cip/dispatch_depth.hpp:21-46 | wrapped any number of times, it is answered as itself if and only if the counter has room for all wrappers |
| `Dispatch.CutSendRefused` | src/connections/src/connection_manager.cpp:317-328 | one that ends inside what it carries is refused for lack of data |
| `Dispatch.HollowSendRefused` | src/connections/src/connection_manager.cpp:330-335 | one that carries no request, because its path is longer than what there is, is refused for its path |
| `Dispatch.LimitRefuses` | src/connections/src/connection_manager.cpp:306-309 | at the limit both services are refused, without a further dispatch |
| `Dispatch.PacketIsHandled` | src/logix/src/multi_service_handler.cpp:15-109 | below the limit a packet is answered as its handler answers it, with every part dispatched one level further in |
| `Dispatch.Dispatcher.Run` | src/cip/include/ethernetip/cip/dispatch_depth.hpp:21-46 | dispatch terminates, leaves the counter as it was, and the most handlers ever open at once, kept as a high-water mark, is at most three |
| `Dispatch.Dispatcher.RunMulti` | src/logix/src/multi_service_handler.cpp:15-109 | the packet handler under the counter: refused at the limit, otherwise one reply for each part |
| `Dispatch.Dispatcher.RunUnconnected` | src/connections/src/connection_manager.cpp:297-337 | the unwrapping handler under the same counter and bound |
| `SymbolicPath.IndicesRead` | src/logix/src/tag_client.cpp:737-769 | a rendered index list reads back as the same indices |
| `SymbolicPath.HexRead` | src/logix/src/tag_client.cpp:737-769 | so does an index in hexadecimal, in either case |
| `SymbolicPath.BlanksRead` | src/logix/src/tag_client.cpp:737-769 | blanks around an index change nothing |
| `SymbolicPath.BracketsSplit` | src/logix/src/tag_client.cpp:773-787 | a name with rendered index groups splits into that name and the same groups in order if and only if the name does not itself end in a readable group |
| `SymbolicPath.TextBuilt` | src/logix/src/tag_client.cpp:804-814 | the path built from dotted, bracketed text has the segments of its pieces |
| `SymbolicPath.FirstDotFree` | src/logix/src/tag_client.cpp:777-787 | whatever the text, the first name read from its path has no dot |
| `SymbolicPath.PathRoundTrip` | src/cip/src/cip_path.cpp:9-107 | for any list of names of bytes and index groups: rendered as text, built into a path and parsed they come back in order with every byte consumed, if and only if no name is longer than 255 bytes, holds a dot or ends in a readable group |
| `SymbolicPath.LogicalParsed` | src/cip/src/cip_path.cpp:51-101 | a logical segment of any kind, in one, two or four bytes, is read as what it stands for |
| `SymbolicPath.OtherKindPassed` | src/cip/src/cip_path.cpp:51-101 | one of a kind that is not known is passed over, in any width |
| `SymbolicPath.ForeignStops` | src/cip/src/cip_path.cpp:46-49 | a segment of any other kind ends what is read and is not consumed |
| `SymbolicPath.SplitGroups` | src/logix/src/tag_client.cpp:773-787 | the loop that takes groups off the end and reverses them computes the specified split |
| `SymbolicPath.BuildSymbolicPath` | src/logix/src/tag_client.cpp:791-814 | the loop over the dotted pieces builds the specified path |
| `SymbolicPath.ParsePathFrom` | src/cip/src/cip_path.cpp:15-107 | the parse loop yields the specified segments and stops at the specified byte, on every input |
| `SymbolicPath.ConsumedExact` | src/cip/src/cip_path.cpp:103-106 | the length said to be consumed is at most one more than the path has, and more exactly if the path is odd, was read whole up to its last byte, and that byte begins a 16 or 32-bit logical segment |
| `SymbolicPath.EvenConsumed` | src/cip/src/mr_codec.cpp:17-22 | so for the paths of requests, which are even, it lies inside the path |
| `SymbolicPath.OddConsumed` | src/cip/src/cip_path.cpp:62-66 | of the one-byte path 0x29 two bytes are said to be consumed |
| `Persistence.RecordRead` | src/logix/src/persistence.cpp:36-86 | a record written is read back, wherever it stands in a snapshot |
| `Persistence.LowerNameExact` | src/logix/src/persistence.cpp:140-174 | names have one key exactly if they differ in nothing but the case of letters |
| `Persistence.HeaderExact` | src/logix/src/persistence.cpp:140-150 | with any eight bytes in front, a snapshot is loaded if and only if the first four are the mark and the fifth no newer version |
| `Persistence.SavedIsLoaded` | src/logix/src/persistence.cpp:113-174 | loading what was saved stays in step with the records to the end, across skipped records and unregistered programs, into any database |
| `Persistence.RootIsWhole` | src/logix/src/tag_database.cpp:295-303 | a controller record is looked up under its own name if and only if that has no dot |
| `Persistence.RestoreAllExact` | src/logix/src/persistence.cpp:80-109 | for any records: a tag some record of which fits by key, type and size holds the bytes of the last such record, every other tag what it held, and every record is counted once, as restored exactly if it fitted |
| `Persistence.RestoreProgramsExact` | src/logix/src/persistence.cpp:158-172 | the same for the tags of every program |
| `Persistence.LoadExact` | src/logix/src/persistence.cpp:140-174 | all of it for a whole snapshot; restored plus skipped is the number of records saved |
| `Truncation.TruncatedExact` | src/logix/src/persistence.cpp:72-174 | of a saved snapshot that ends too early, one is loaded if and only if no more is missing than the data of its very last record, into any database, and then as the snapshot with zeros in the missing bytes |
| `SnapshotFiles.SaveTo` | src/logix/src/persistence.cpp:113-138 | the writing loops produce the specified bytes |
| `SnapshotFiles.RestoreTags` | src/logix/src/persistence.cpp:153-156 | the loop over records restores as specified, or fails where a read fails |
| `SnapshotFiles.SkipTags` | src/logix/src/persistence.cpp:163-171 | the loop over records of an unregistered program reads past them as specified |
| `SnapshotFiles.LoadFrom` | src/logix/src/persistence.cpp:140-174 | the whole load, with every check of header and lengths |

## Left out

- Sockets, threads, sleeps, watchdog timing, logging and the sample programs: foreign calls; each handler call and each produced frame is one step, and the clock is a parameter that does not go back.
- Encapsulation and CPF headers, the identity, TCP/IP and Ethernet Link objects and the standard attribute services: copies at fixed offsets.
- The encoders of time coordination messages, ping counting on the device and the CID seeds: short field copies over the CRCs modelled here.
- The final complement of S5 (`compute_s5`): one exclusive-or behind the code modelled here.
- The tag service handlers that do not walk, read-modify-write and the SHORT_STRING forms: the same branches as the walking ones at offset 0, and single-branch helpers.
- `add_template_prebuilt`: its layouts are taken as they come, so nothing is claimed of walks through them.
- Tags of program scope in the tag database: the same layout and buffers under a second name table; they are part of the snapshot model.
- `build_tag_path`: on this server it is not equivalent to the symbolic path, since handlers by instance id do not walk members.
- `CipPath` fields other than the ordered segments and the consumed length: copies of segment values.
- Responses parsed by `try_parse_response`, multi-tag writes and the attribute list of templates: the packed read covers the same tables.
- Value-changed, tag-added and dirty-tracking callbacks: they do not change tag memory.
- The field values in a Forward Open success reply, connection timing fields and configuration data: copies of request fields.
- The supervisor's other attributes and services: only the stored configuration CRC takes part in the handshake.
- Connections.OpenAnswer: opens are one step, although the source checks for a duplicate triad and inserts under two separate locks; the safety checks in front of the configuration check enter as their verdict, and a device without a safety handler is not modelled.
- Connections.EveryRun: assumes fewer than 2^32 events, so that connection and instance ids do not wrap around.
- SafetyOpen.OpenAgreement: the 36-byte request without a route prefix, as `AnyPath.RouteAgreement`; the path CRC of the source assumes that routers have taken the prefix off.
- SafetyTamper.TamperExact: has no law where a byte that says what kind of segment follows, or how long it is, sends the walk on from inside the safety segment: what it meets there are the bytes of the configuration.
- ColdStart.ColdStartExact: Extended short frames, as `ScannerFromFirst`, `DeviceFromFirst`, `SafetyLink.ScannerRunClose`, `SafetyLink.DeviceRunClose` and `SafetyLink.DeviceTakesAll`; for long ones, whose timestamp is misread, the exact law is `SafetyLink.ScannerRunExact` and `SafetyLink.DeviceRunExact`.
- DeviceRuns.ScannerFollowsDevice: the bounds on correction and pace are sufficient ones; short frames, as above.
- TagDatabase.Database.AddTemplate: fewer than 4096 templates, the ids a member's type code can name; sizes and offsets are unbounded integers.
- Overruns.OverrunExact: writes that stay inside the tag, since the others are refused, to a leaf that is not a bit and has a type code of sixteen bits, as every leaf of this database has.
- Walker.WalksDisjoint: leaves reached under the name of a hidden host byte are left out, since they overlap its bits by design.
- Fragments.ReadWindow: windows inside the tag, of 1 to 65535 elements and below 4 GB, which is what a request can name; the client is one that knows the server's prefix.
- Browse.BrowseAll: ids below 0xFFFF and names of at most 4088 bytes, at the level of the handler; the dispatcher in front of it lets a continuation pass only if an instance with the next id exists.
- TemplateRead.ReadTemplate: names without zero bytes and a block below 4 GB.
- MultiService.ReadMultiple: packed requests whose offsets fit sixteen bits; the dispatch of one part is a function of the request, so effects of one part on the next are not modelled.
- PackedReads.NamesTold: names whose path has at most 510 bytes, the most an embedded request can say; program scope and paths with a class are left to the other dispatchers.
- SymbolicPath.PathRoundTrip: indices below 2^32, as the client holds them.
- Persistence.LoadExact: program names distinct up to case, as the database keeps them; the state left behind by a load that fails part way is not modelled.
- TimeCorrection.TickNeverDecreases: ticks are unbounded integers rather than 64-bit ones.

# Verification of the SCION INT switch

This project models the in-band network telemetry (INT) switch of `simple_switch` for SCION and its control plane, and
proves what holds between the parts.

* `Bits`, `Headers`: big-endian codecs, and the headers with their wire format.
* `Parser`, `ParserStates`: the packet grammar, the parser as a function, and the parser as the state machine of the P4
  program. The two agree, parsing and deparsing are inverse to each other, and the running count `cpuHdrLen` is right.
* `RawPacket`: the same parser in terms of the bytes alone: which header is at which offset, which packets are accepted,
  and how many info fields a path has.
* `IntSwitch`, `Pipeline`: the two INT controls action by action, proved to have a net effect on the packet; parser,
  controls, checksums and deparser composed.
* `Emission`: the checksums of every packet sent out, by RFC 1071.
* `SourceSink`: what insertion, forwarding and deletion preserve. Sink undoes source, lengths stay right, both checksum
  lists agree, every INT-MD header is stripped and reported.
* `Decoder`, `CpuPacket`, `EndToEnd`: `handlePacketIn`, its offsets into the CPU copy, and the path from the source's
  measurement to the report.
* `HopStacks`: stacks of any number of hops and any bitmap, from what each node wrote to what the report says.
* `Wire`, `Report`, `ReportProofs`, `Messages`: the protobuf primitives, the report codec, round trip and concatenation,
  and the generated classes that update fields in place.
* `ProtoFields`: the fields of report.proto as a reference encoding, and the serialized messages as instances of it.
* `Text`, `IntTables`: SCION addresses and topic names; the configuration file and the table entries made from it.
* `Network`: a source and a sink configured from their files, and the report at the end.
* `L2`, `MacLearning`: the MAC-learning switch with its controller, and the protocol between them over whole runs.
* `ControlPlane`, `Reelection`: the event loop over the stack of controllers, and the INT tables while the primary
  controller changes.
* `Learning`: what the switch has learned after one frame, and after a whole stream of messages.
* `TcpClient`, `Subscriber`: the length-prefixed report stream with partial writes, and what its receiver parses.
* `Checksum`: the Internet checksum of RFC 1071, for concrete packets and for every packet sent out.
* `Examples`: concrete packets for which properties that one might expect do not hold, and a packet on a
  SCION path of two segments.
* `TestVectors`: the values that the repository's tests and its documentation expect.

Properties that turned out not to hold in general are stated with their exact condition:

* Source and sink restore a packet if and only if the outer UDP checksum that the source computes is not zero, or the
  packet has none: a zero is sent as it is, and the sink takes it for "no checksum". On a target that discards packets
  after a parser error, the sink must also be able to split off the payload: 8 to 8138 in the SCION payload length, and
  those bytes present, or an empty stack. A target that continues with the headers extracted so far, as v1model does,
  restores the packets that cannot be split as well.
* An accepted SCION path is cut as its path header says, one info field per non-zero segment length, if and only if the
  first length is not zero, and the second is not zero where the third is not (`RawPacket.InfoPerSegment`).
* A packet that the sink has stripped is parsed without INT if and only if its saved port is not the INT port 12345.
* Deletion keeps the length fields right if and only if the shim claims what the parser extracted: length 0 without an
  MD header; with one, length 3 to 68 and the bytes present. `Examples.OtherShimMiscounted` is a packet of another type
  with length 1. `Examples.StackTooLong` has an MD header and length 69: the varbit stack has room for 65 words, and a
  target that continues leaves the 66 words in front of the payload.
* The controller decodes a source's hop if and only if none of the bits `0x7280` of the bitmap is set and some field was
  written; with an empty stack it divides by zero.
* All runs of a class keep broadcast out of the forward table of an installed switch if and only if broadcast is never a
  source in it, or its switches start empty, the primary role is never lost and nobody else writes
  (`MacLearning.BroadcastStaysOut`). For each of the last three there is a run, with all messages in order, that fails
  for lack of it alone.
* A destination listed in the INT table file is found if and only if the host and the different destinations before its
  first line leave room for it; `IntTables.ListedNotFound` is a file with one too many, for every size of the table.
* An idle primary controller is sure to hold the installed INT tables and clone session if and only if it has handled
  all its elections (`Reelection.HandledIsExact`); `Reelection.Interrupted` is a run that fails before that.

Modelling assumptions:

* After an error in the parser a target discards the packet (`Discards`) or goes on with the headers extracted so far
  (`Continues`), as v1model does, where nothing in the program reads the error. Theorems hold for both, and for errors
  in every state. A failing extraction takes nothing from the packet.
* Metadata starts at zero. A clone is the ingress packet parsed again, with only `cpuHdrLen` preserved.
* Headers that are not valid contribute no bytes to `emit` or to a checksum list. `csum16` is an arbitrary function of a
  byte string; the concrete packets use the Internet checksum.
* A table write fails only on a duplicate key or a full table, or because this controller is not the primary. A pipeline
  reset empties all tables and turns digests off; before digests are configured none is sent. Digests go to the primary.
* Where documentation and code disagree, the code counts: `truncated_packet` is documented as the truncated headers but
  starts 8 bytes before them (int.cpp:261); the group for flooding from port n is n + 1, not n (mac_learn.cpp:106-110);
  the destination is read from the SCION address header, not from int_cpu (int.cpp:161-162).
* Fields have bounded integer types, and wrap-around in 5, 8, 9, 16, 32 and 64 bits is explicit.

Run `dafny verify dfyconfig.toml` to check the project.

## Model

| member | source | states |
|---|---|---|
| `Bits.FromBitstring` | simple_switch/control_plane/bitstring.h:11-24 | the loop from the last byte returns the big-endian value modulo 256^bytes, which is the value of the string cut or zero-padded to that many bytes |
| `Bits.ToBitstring` | simple_switch/control_plane/bitstring.h:28-37 | the loop writes the big-endian representation of the low bytes of the value |
| `Bits.NatOfBytesOf` | simple_switch/control_plane/bitstring.h:11-37 | decoding an encoded value gives it back modulo 256^n |
| `Bits.ReencodeResizes` | simple_switch/control_plane/bitstring.h:11-37 | encoding a decoded string cuts it to its last n bytes or pads it in front with zeros |
| `Bits.LeadingZeros` | simple_switch/control_plane/bitstring.h:11-24 | leading zero bytes never change the decoded value |
| `Bits.TakeUint` | simple_switch/control_plane/controllers/int/takeUint.h:3-42 | copying the bytes in reverse into a little-endian integer gives the big-endian value of the slice |
| `TestVectors.FromBitstringVectors` | simple_switch/control_plane/tests/test_bitstring.cpp:12-23 | the byte strings of the test decode to the values it expects |
| `TestVectors.ToBitstringVectors` | simple_switch/control_plane/tests/test_bitstring.cpp:25-44 | the values of the test are encoded as it expects |
| `TestVectors.TakeVectors` | simple_switch/control_plane/tests/test_int.cpp:79-89 | the slices of the test have the values it expects |
| `Headers.ReadEthernetBytes` | simple_switch/data_plane/headers/common.p4:54-58 | extracting an emitted Ethernet header gives it back (the reader's own contract states the converse) |
| `Headers.ReadIpv4Bytes` | simple_switch/data_plane/headers/common.p4:60-73 | the same for IPv4 |
| `Headers.ReadUdpBytes` | simple_switch/data_plane/headers/common.p4:84-89 | the same for UDP |
| `Headers.ReadScionCommonBytes` | simple_switch/data_plane/headers/scion.p4:53-66 | the same for the SCION common header with its sub-byte fields |
| `Headers.ReadAddrCommonBytes` | simple_switch/data_plane/headers/scion.p4:68-73 | the same for the SCION address header |
| `Headers.ReadPathMetaBytes` | simple_switch/data_plane/headers/scion.p4:96-103 | the same for the path meta header with its 6-bit segment lengths |
| `Headers.ReadIntShimBytes` | simple_switch/data_plane/headers/int.p4:11-17 | the same for the INT shim |
| `Headers.ReadIntMdBytes` | simple_switch/data_plane/headers/int.p4:23-35 | the same for the INT-MD header with its 5-bit hop length |
| `RawPacket.EthernetLayout` | simple_switch/data_plane/headers/common.p4:54-58 | an extracted Ethernet header, field by field from the bytes at fixed offsets |
| `RawPacket.Ipv4Layout` | simple_switch/data_plane/headers/common.p4:60-73 | the same for IPv4 |
| `RawPacket.UdpLayout` | simple_switch/data_plane/headers/common.p4:84-89 | the same for UDP |
| `RawPacket.ScionCommonLayout` | simple_switch/data_plane/headers/scion.p4:53-66 | the same for the SCION common header, bit fields included |
| `RawPacket.AddrCommonLayout` | simple_switch/data_plane/headers/scion.p4:68-73 | the same for the SCION address header: destination before source |
| `RawPacket.PathMetaLayout` | simple_switch/data_plane/headers/scion.p4:96-103 | the same for the path meta header with its 6-bit lengths |
| `RawPacket.IntShimLayout` | simple_switch/data_plane/headers/int.p4:11-17 | the same for the INT shim |
| `RawPacket.IntMdLayout` | simple_switch/data_plane/headers/int.p4:23-35 | the same for the INT-MD header with its flags |
| `Parser.ParseThenDeparse` | simple_switch/data_plane/int_switch.p4:103-215 | every accepted packet has the grammar's shape, and emitting headers_t followed by the unparsed rest gives back the input bytes |
| `Parser.ReceivedThenDeparse` | simple_switch/data_plane/int_switch.p4:103-215 | whatever error stops the parser and in whatever state, emitting the headers extracted so far and the bytes not yet parsed gives back the packet; up to the inner UDP header they have the grammar's shape if that one was reached |
| `Parser.AcceptedIsReceived` | simple_switch/data_plane/int_switch.p4:103-215 | on packets that the parser accepts, a target that discards and one that continues after an error see the same headers |
| `Parser.StackOfReceived` | simple_switch/data_plane/parser/intParser.p4:43-60 | stack and payload of a received packet are what the stack states extract from the bytes behind its MD header, errors included |
| `Parser.ParsePathSound` | simple_switch/data_plane/parser/scionParser.p4:266-340 | an accepted path has the shape its path type asks for, and emitting it gives back its bytes; how many info fields that is, is the subject of `RawPacket.InfoPerSegment` |
| `Parser.ParseStackSound` | simple_switch/data_plane/parser/intParser.p4:43-60 | an accepted stack and payload have the lengths their headers ask for, and emitting them gives back their bytes |
| `Parser.DeparseThenParse` | simple_switch/data_plane/int_switch.p4:34-65 | every header stack of that shape, emitted and followed by anything, parses back to itself |
| `Parser.Unambiguous` | simple_switch/data_plane/int_switch.p4:103-215 | no packet has two readings |
| `Parser.ParseUpToStack` | simple_switch/data_plane/int_switch.p4:164-207 | parsing reaches the INT stack with exactly the emitted headers, whatever bytes follow them |
| `Parser.HopsFit` | simple_switch/data_plane/parser/scionParser.p4:333-340 | three 6-bit segment lengths never exceed the 18144 bits of the hop field |
| `Parser.HeaderBytes` | simple_switch/data_plane/parser/scionParser.p4:70-340 | exact size of the headers from scion_common through int_md for all 16 address shapes and both path types, at most 2380 bytes |
| `RawPacket.HeadersRaw` | simple_switch/data_plane/int_switch.p4:103-215 | for every packet, whatever it holds and wherever it ends: the headers the controls get are the ones at literal offsets computed from the bytes alone, without the grammar's predicates |
| `RawPacket.AcceptedRaw` | simple_switch/data_plane/int_switch.p4:103-215 | in the same terms: the parser accepts a packet if and only if no announced header is cut off, path types are 1 or 2, and the stack and payload of an INT-MD packet fit their fields |
| `RawPacket.InfoPerSegment` | simple_switch/data_plane/parser/scionParser.p4:293-340 | an accepted SCION path has one info field per non-zero segment length, as the path header says, if and only if seg0Len is not zero and seg2Len is zero or seg1Len is not; its hop fields start at 4 + 8 * (info fields extracted) and take 12 bytes for each of the three lengths |
| `Examples.TwoSegmentsParse` | simple_switch/data_plane/parser/scionParser.p4:299-303 | a concrete packet on a path of an up and a down segment, given with its meta header bytes: both info fields, 60 bytes of hop fields, and behind them the shim, MD header and hop are found |
| `ParserStates.IntSwitchParser.OuterStates` | simple_switch/data_plane/int_switch.p4:122-162 | the Ethernet, IPv4 and UDP states do what the grammar's parse function says |
| `ParserStates.IntSwitchParser.ScionStates` | simple_switch/data_plane/parser/scionParser.p4:45-261 | common header and the 16 address states: the headers of the grammar, and cpuHdrLen equal to the bytes they emit |
| `ParserStates.IntSwitchParser.InfoAndHopStates` | simple_switch/data_plane/parser/scionParser.p4:306-340 | 1 to 3 info fields and the hop fields, with their bytes added to cpuHdrLen |
| `ParserStates.IntSwitchParser.PathStates` | simple_switch/data_plane/parser/scionParser.p4:266-340 | SCION and one-hop paths do what the parse function does, whose cut of the path is fixed by `RawPacket.InfoPerSegment`; every other path type is rejected; cpuHdrLen grows by the bytes of the path |
| `ParserStates.IntSwitchParser.InnerStates` | simple_switch/data_plane/parser/intParser.p4:21-41 | inner UDP, shim and MD header; cpuHdrLen grows by their bytes |
| `ParserStates.IntSwitchParser.StackStates` | simple_switch/data_plane/parser/intParser.p4:43-60 | the varbit stack and payload with their 32-bit wrap-around lengths, and what is left after an error in int_stack_state or get_payload; intStackLen is the size of the stack in bits |
| `ParserStates.IntSwitchParser.BodyStates` | simple_switch/data_plane/int_switch.p4:164-215 | from the SCION header on: the headers of the grammar, or after an error in any of these states those extracted before it |
| `ParserStates.IntSwitchParser.PayloadState` | simple_switch/data_plane/int_switch.p4:209-214 | the payload is cut to whole bytes of a 32-bit length, and rejected beyond 65040 bits |
| `ParserStates.IntSwitchParser.Run` | simple_switch/data_plane/int_switch.p4:103-215 | the state machine accepts exactly what the grammar accepts; after any error, too, it leaves the headers extracted so far, deparsing loses no byte, and if there is a shim, cpuHdrLen counts exactly the bytes from scion_common on |
| `ParserStates.StateBytes` | simple_switch/data_plane/parser/scionParser.p4:97-261 | the 16 constants added to cpuHdrLen are the bytes of the two host addresses |
| `IntSwitch.IntSwitchControl.InsertIntAction` | simple_switch/data_plane/include/int_switch.p4:25-111 | the source's shim and MD header, the saved port, and flags that are exactly the bits of the bitmaps |
| `IntSwitch.IntSwitchControl.Ingress` | simple_switch/data_plane/include/int_switch.p4:137-145 | the action of scion_int for the destination, or none |
| `IntSwitch.IntSwitchControl.InsertStack` | simple_switch/data_plane/include/int_switch.p4:277-344 | the five stack tables in order leave the one-hop stack of the bitmaps, and addLen is 16 plus its bytes |
| `IntSwitch.IntSwitchControl.RefreshLength` | simple_switch/data_plane/include/int_switch.p4:202-221 | words into the 5-bit hop length and the 8-bit shim length, bytes into four 16-bit lengths |
| `IntSwitch.IntSwitchControl.DeleteIntAction` | simple_switch/data_plane/include/int_switch.p4:224-249 | the packet without INT: port restored, four lengths reduced modulo 2^16, shim, MD header and stack gone |
| `IntSwitch.IntSwitchControl.KeepIntCpuAction` | simple_switch/data_plane/include/int_switch.p4:252-273 | int_cpu with the byte count, and neither outer headers nor payload |
| `IntSwitch.IntSwitchControl.Egress` | simple_switch/data_plane/include/int_switch.p4:378-403 | the whole egress block for forwarded packets and clones, including when a clone is dropped |
| `IntSwitch.Process` | simple_switch/data_plane/int_switch.p4:321-350 | ingress and egress together have the net effect that the theorems below speak of |
| `IntSwitch.ProcessClone` | simple_switch/data_plane/include/int_switch.p4:389-400 | a clone becomes the CPU copy, or is dropped if its packet carries no shim |
| `IntSwitch.ListedInOrder` | simple_switch/data_plane/int_switch.p4:240-283 | the checksum list, member by member, names the headers in exactly the order in which the deparser emits them |
| `Pipeline.ProcessPacket` | simple_switch/data_plane/int_switch.p4:457-464 | parser, controls, checksums and deparser put together give the output bytes, whose checksums `Emission.OutputSumsUp` is about, and the re-parsed clone gives the bytes for the CPU port, on a target that discards after a parser error and on one that continues |
| `Emission.OutputSumsUp` | simple_switch/data_plane/int_switch.p4:357-419 | with the checksum of RFC 1071, whatever comes in and whatever the tables say: the 16-bit words of every IPv4 header sent out add up to a multiple of 0xffff, and so do those of every UDP datagram with its pseudo-header, unless the packet came without a UDP checksum and leaves without one |
| `SourceSink.InsertKeepsLengths` | simple_switch/data_plane/include/int_switch.p4:202-221 | insertion adds 16 bytes plus the stack, and the four lengths still describe the packet if and only if the IPv4 length has room |
| `SourceSink.DeleteKeepsLengths` | simple_switch/data_plane/include/int_switch.p4:224-249 | deletion takes the extracted INT headers out and what the shim claims off the lengths: they stay right if and only if 4 + 4 * length is the size of shim, MD header and stack as extracted, and are wrong by the difference otherwise, for packets parsed in full or not |
| `SourceSink.StackAccounted` | simple_switch/data_plane/parser/intParser.p4:43-45 | for packets with an MD header, the parser extracts what the shim claims if and only if 3 <= length <= 68 and the bytes are there |
| `SourceSink.SinkKeepsLengths` | simple_switch/data_plane/include/int_switch.p4:224-249 | a packet with right lengths leaves the sink with right lengths if and only if length is 0 (no MD header), or 3 <= length <= 68 and the bytes are there (MD header) |
| `SourceSink.SinkParsesSource` | simple_switch/data_plane/parser/intParser.p4:21-60 | the sink sees the source's headers, the hop as one opaque stack and the payload; its parser accepts the packet if and only if the payload can be split off, and a target that continues sees the same headers with the payload unparsed |
| `SourceSink.SinkUndoesSource` | simple_switch/data_plane/include/int_switch.p4:25-249 | for all bitmaps, tables and checksum functions: sink after source sends what one switch without INT sends, if and only if the packet's UDP checksum survives and, on a target that discards after a parser error, the sink can split the packet |
| `SourceSink.RoundTrip` | simple_switch/data_plane/include/int_switch.p4:25-249 | a packet with correct checksums comes back byte for byte, if and only if the source's UDP checksum is not zero (or the packet has none) and, on a target that discards after a parser error, the sink can split it |
| `SourceSink.ChecksumAgreement` | simple_switch/data_plane/int_switch.p4:240-283 | both UDP checksum lists name the same byte string, so the sink's verification succeeds |
| `SourceSink.VerifiedPassesUnchanged` | simple_switch/data_plane/int_switch.p4:357-436 | a packet with correct checksums passes unchanged when no INT action applies |
| `SourceSink.CpuCopyBytes` | simple_switch/data_plane/include/int_switch.p4:252-273 | the CPU copy is int_cpu, the headers from scion_common through int_md, the stack and the unparsed rest, also after parser errors; there is one if and only if the packet is for the sink and has a shim |
| `SourceSink.SinkStripsInt` | simple_switch/data_plane/include/int_switch.p4:224-273 | any packet for the sink with a shim, whoever wrote it and wherever its parsing stopped, goes on without INT headers and with the saved port, and leaves one CPU copy; without a shim it is unchanged and leaves none |
| `SourceSink.StrippedOnTheWire` | simple_switch/data_plane/include/int_switch.p4:389-393 | on the wire as well: the next parser accepts the packet and finds no shim if and only if the saved port is not the INT port itself, and then it finds exactly the stripped headers |
| `SourceSink.StackStaysBehind` | simple_switch/data_plane/include/int_switch.p4:224-249 | what leaves the sink when the stack could not be extracted: only shim and MD header are gone, the stack words stay in front of the payload |
| `Decoder.ReadHop` | simple_switch/control_plane/controllers/int/int.cpp:177-252 | one turn of the hop loop fails exactly when the hop does not fit, and otherwise reads every field at the sum of the widths of the earlier set fields |
| `Decoder.ReadHops` | simple_switch/control_plane/controllers/int/int.cpp:175-253 | the cursor loop yields n hops, hop i at i hop widths after the headers, if and only if all of them are inside the payload; what they say in which order is the subject of `HopStacks.StackTold` |
| `Decoder.HandlePacketIn` | simple_switch/control_plane/controllers/int/int.cpp:122-283 | every outcome of the handler: not handled, undefined (division by zero, read past the payload and the zero that ends it), or the flow key, report and topic of the specification |
| `Decoder.BeforeMonotone` | simple_switch/control_plane/controllers/int/int.cpp:177-246 | fields follow each other without overlap in the order of the bits |
| `CpuPacket.CpuCopyView` | simple_switch/control_plane/controllers/int/int.cpp:134-170 | the CPU copy of any packet with an INT-MD header has its common, address, shim and MD headers where the controller will look, and the stack, extracted or not, after them |
| `CpuPacket.CpuOffsets` | simple_switch/control_plane/controllers/int/int.cpp:138-170 | every offset, forward or counted back from cpuHdrLen, hits the field it is meant for |
| `CpuPacket.CpuCopyDecodes` | simple_switch/control_plane/controllers/int/int.cpp:144-175 | the outcome in terms of the headers, for every shim length: undefined for a hop length of zero, not handled if it does not divide the stack size, undefined if the bitmaps ask for more than the packet and its terminating zero, else the report |
| `CpuPacket.StackDecodes` | simple_switch/control_plane/controllers/int/int.cpp:161-257 | any stack of whole hops whose size is what the bitmaps say is decoded to its very end; `HopStacks.StackTold` says what the hops are |
| `CpuPacket.OnlyMarked` | simple_switch/control_plane/controllers/int/int.cpp:134-150 | whatever a packet-in holds, only a payload that begins with INT in ASCII and has the announced headers is decoded |
| `HopStacks.MeasuredHop` | simple_switch/control_plane/controllers/int/int.cpp:177-252 | for every bitmap: the fields that a node writes in the order of the bits, of the widths of the INT specification, take one hop width, and decode to its node id, AS and metadata values under their types |
| `HopStacks.StackTold` | simple_switch/control_plane/controllers/int/int.cpp:175-253 | for any number of nodes and every bitmap: hop i of the report says what node i wrote into place i of the stack, and there are no others |
| `EndToEnd.HopSizesAgree` | simple_switch/control_plane/controllers/int/int.cpp:177-252 | decoder and data plane agree on the size of a hop if and only if none of the bits 0x7280 is set; otherwise the decoder's is larger |
| `EndToEnd.HopTelemetry` | simple_switch/control_plane/controllers/int/int.cpp:177-252 | the bytes of a source's hop decode to what the source measured if and only if the bitmap is supported |
| `EndToEnd.TimeDecodes` | simple_switch/control_plane/controllers/int/int.cpp:206-225 | timestamps come out as exactly 1000 times the 48-bit switch time, without 64-bit overflow |
| `EndToEnd.SinkView` | simple_switch/data_plane/include/int_switch.p4:25-52 | what the sink's parser finds in the source's packet, field by field: type 1, MD version 2, hop length and shim length for the hop, 10 hops left, the bitmaps, domain id 1 if there is a domain bitmap, flags zero, the saved port, and the hop's bytes as the stack |
| `EndToEnd.EndToEndTelemetry` | simple_switch/control_plane/controllers/int/int.cpp:122-283 | source pipeline, wire, sink, CPU copy and controller: the report has exactly one hop with the source's node id, AS, utilisation and times, the packet's flow id and the destination's topic, if and only if the bitmap is supported and wrote some field; it is undefined exactly for an empty stack or a hop larger than what follows the headers, terminating zero included |
| `HopStacks.SourcesTold` | simple_switch/control_plane/controllers/int/int.cpp:175-253 | a CPU copy with the stacks of n sources of this program and a supported bitmap: hop i of the report is the telemetry of source i |
| `EndToEnd.WellFormedSplits` | simple_switch/data_plane/headers/int.p4:114-116 | a packet whose lengths are right can be split at the sink if and only if its UDP payload is at most 8130 bytes or no field was written |
| `EndToEnd.SubscriberReads` | simple_switch/control_plane/controllers/int/int.cpp:261-281 | whoever parses the two messages sent, with map entries in any order, reads that hop and flow id |
| `Examples.RejectedAtTheSink` | simple_switch/data_plane/parser/intParser.p4:43-45 | a concrete well-formed packet with 8131 bytes of payload that the sink's parser rejects after insertion: a target that discards loses it, one that continues restores it |
| `Examples.ChecksumLost` | simple_switch/data_plane/int_switch.p4:376-419 | a concrete packet with a correct Internet checksum over UDP for which source and sink do not restore the packet, because the checksum the source computes is zero |
| `Examples.OtherShimMiscounted` | simple_switch/data_plane/include/int_switch.p4:224-249 | a concrete packet with a shim of type 2 and length 1, accepted and with right lengths, that leaves the sink with lengths 4 too small |
| `Examples.StackTooLong` | simple_switch/data_plane/parser/intParser.p4:43-45 | a concrete packet with an MD header, shim length 69 and 264 stack bytes: rejected; on a target that continues it leaves the sink with its stack and with lengths 264 too small |
| `Examples.AnotherShimFound` | simple_switch/data_plane/include/int_switch.p4:224-249 | a concrete packet with saved port 12345: what the sink sends out is parsed with a shim again |
| `Examples.LengthOverflows` | simple_switch/data_plane/include/int_switch.p4:202-221 | a concrete packet of 65524 bytes whose lengths are wrong after insertion |
| `Examples.DecodesNothing` | simple_switch/control_plane/controllers/int/int.cpp:170-171 | concrete bitmaps 0 and 0xc000 for which the controller divides by zero or reads past the CPU copy |
| `Wire.ReadVarintOf` | simple_switch/control_plane/controllers/int/report/report.pb.cc:367-425 | a varint is read back in at most as many bytes as it needs |
| `Wire.ReadBytesOf` | simple_switch/control_plane/controllers/int/report/report.pb.cc:367-425 | a length-delimited field is read back |
| `Wire.ReadFixedOf` | simple_switch/control_plane/controllers/int/report/report.pb.cc:1451-1495 | a little-endian fixed-width field is read back |
| `Wire.EnumRoundTrip` | simple_switch/control_plane/controllers/int/report/report.pb.cc:392-400 | a negative enum value survives its 64-bit encoding |
| `Wire.VarintSize` | simple_switch/control_plane/controllers/int/report/report.pb.cc:462-491 | the size computation is the number of bytes written |
| `ReportProofs.ParseSerFlowKey` | simple_switch/control_plane/controllers/int/report/report.pb.cc:1024-1211 | parsing serialized b into any message m merges b into m, whatever follows |
| `ReportProofs.FlowKeyRoundTrip` | simple_switch/control_plane/controllers/int/report/report.pb.cc:1024-1211 | a flow key is read back as it was, zero oneof members included |
| `ReportProofs.FlowKeyConcat` | simple_switch/control_plane/controllers/int/report/report.pb.cc:1302-1353 | parsing two concatenated flow keys is MergeFrom: a sub-message merges into one of the same case and replaces one of the other |
| `ReportProofs.ParseSerHop` | simple_switch/control_plane/controllers/int/report/report.pb.cc:638-751 | the same for a hop, for every order of its map entries |
| `ReportProofs.HopConcat` | simple_switch/control_plane/controllers/int/report/report.pb.cc:796-810 | concatenated hops merge: later scalars and map keys win |
| `ReportProofs.ParseSerReport` | simple_switch/control_plane/controllers/int/report/report.pb.cc:367-460 | the same for a report, with every order of every hop's map entries |
| `ReportProofs.ReportRoundTrip` | simple_switch/control_plane/controllers/int/report/report.pb.cc:367-460 | a report is read back as it was |
| `ReportProofs.ReportConcat` | simple_switch/control_plane/controllers/int/report/report.pb.cc:506-520 | concatenated reports merge: hops are appended, later scalars win |
| `ProtoFields.VarintGroups` | simple_switch/control_plane/controllers/int/report/report.pb.cc:427-460 | a varint is its value in groups of seven bits, least significant first, the top bit set in all bytes but the last |
| `ProtoFields.FlowKeyWritten` | telemetry/kafka/report/report.proto:92-134 | the serialized flow key is the list of its fields that are set, with the numbers and wire types of report.proto, in a reference encoding that knows no message types |
| `ProtoFields.HopWritten` | telemetry/kafka/report/report.proto:74-85 | the same for a hop, for every order of its metadata entries |
| `ProtoFields.ReportWritten` | telemetry/kafka/report/report.proto:6-25 | the same for a report: its hops in order as field 1, then packet type and truncated packet |
| `ProtoFields.LaterHopWins` | simple_switch/control_plane/controllers/int/report/report.pb.cc:796-810 | field by field, what is read from a hop serialized behind another: scalars that are set and metadata keys of the later one win |
| `ProtoFields.LaterReportWins` | simple_switch/control_plane/controllers/int/report/report.pb.cc:506-520 | the same for reports: the hops of both, and the later scalars that are set |
| `ProtoFields.LaterFlowKeyWins` | simple_switch/control_plane/controllers/int/report/report.pb.cc:1302-1353 | the same for flow keys, with both oneofs |
| `Messages.IPv6Message.InternalParse` | simple_switch/control_plane/controllers/int/report/report.pb.cc:1451-1495 | the parse loop terminates and computes the parse function |
| `Messages.IPv6Message.MergeFrom` | simple_switch/control_plane/controllers/int/report/report.pb.cc:1556-1570 | field by field, the merge of the two values |
| `Messages.IPv6Message.InternalSerialize` | simple_switch/control_plane/controllers/int/report/report.pb.cc:1496-1520 | the appended bytes are the serialization |
| `Messages.IPv6Message.ByteSizeLong` | simple_switch/control_plane/controllers/int/report/report.pb.cc:1522-1541 | the size is that of the serialization |
| `Messages.IpOneof.MutableIPv6` | simple_switch/control_plane/controllers/int/report/report.pb.h:1443-1450 | the current sub-message itself if that case is set; otherwise a new empty one, the other case being cleared |
| `Messages.IpOneof.Clear` | simple_switch/control_plane/controllers/int/report/report.pb.cc:969-1007 | no case is set and no sub-message is left |
| `Messages.IpOneof.MergeFrom` | simple_switch/control_plane/controllers/int/report/report.pb.cc:1325-1350 | the merge of the two values: an address replaces what was there, an IPv6 address merges into one |
| `Messages.IpOneof.SerializeAfter` | simple_switch/control_plane/controllers/int/report/report.pb.cc:1158-1185 | the member that is set is appended, by the tests of both members |
| `Messages.FlowKeyMessage.ParseField` | simple_switch/control_plane/controllers/int/report/report.pb.cc:1024-1132 | one turn of the loop is one step of the parse function, for every tag |
| `Messages.FlowKeyMessage.InternalParse` | simple_switch/control_plane/controllers/int/report/report.pb.cc:1024-1132 | the parse loop terminates and computes the parse function |
| `Messages.FlowKeyMessage.MergeFrom` | simple_switch/control_plane/controllers/int/report/report.pb.cc:1302-1353 | field by field, the merge of the two values, oneofs included |
| `Messages.FlowKeyMessage.InternalSerialize` | simple_switch/control_plane/controllers/int/report/report.pb.cc:1134-1211 | the appended bytes are the serialization |
| `Messages.FlowKeyMessage.ByteSizeLong` | simple_switch/control_plane/controllers/int/report/report.pb.cc:1213-1287 | the size is that of the serialization |
| `Messages.HopMessage.InternalParse` | simple_switch/control_plane/controllers/int/report/report.pb.cc:638-694 | the parse loop with its map entries computes the parse function |
| `Messages.HopMessage.MergeFrom` | simple_switch/control_plane/controllers/int/report/report.pb.cc:796-810 | the merge of the two values, later map keys winning |
| `Messages.HopMessage.InternalSerialize` | simple_switch/control_plane/controllers/int/report/report.pb.cc:696-751 | the appended bytes are the serialization in that map order |
| `Messages.HopMessage.ByteSizeLong` | simple_switch/control_plane/controllers/int/report/report.pb.cc:753-781 | the size is that of the serialization |
| `Messages.HopSizeAnyOrder` | simple_switch/control_plane/controllers/int/report/report.pb.cc:753-781 | the size does not depend on the order in which the map is walked |
| `Messages.ReportMessage.InternalParse` | simple_switch/control_plane/controllers/int/report/report.pb.cc:367-425 | the parse loop computes the parse function; each hop is parsed in place into a new object at the end of the list, and earlier ones stay as they are |
| `Messages.ReportMessage.MergeFrom` | simple_switch/control_plane/controllers/int/report/report.pb.cc:506-520 | the merge of the two values: a new object for each hop, after the old ones |
| `Messages.ReportMessage.InternalSerialize` | simple_switch/control_plane/controllers/int/report/report.pb.cc:427-460 | the appended bytes are the serialization |
| `Messages.ReportMessage.ByteSizeLong` | simple_switch/control_plane/controllers/int/report/report.pb.cc:462-491 | the size is that of the serialization |
| `Text.SplitScionAddress` | simple_switch/control_plane/controllers/int/addressConversion.h:26-38 | the group loop computes the fold of the 16-bit groups; numbers out of range are the exception |
| `Text.AddressRoundTrip` | simple_switch/control_plane/controllers/int/addressConversion.h:26-38 | splitting recovers every ISD below 2^16 and AS below 2^48 from their hexadecimal text |
| `Text.AnyAddress` | simple_switch/control_plane/controllers/int/addressConversion.h:26-38 | any number as ISD and any numbers as groups: the exception is thrown if and only if the ISD does not fit a signed 32-bit number or a group 64 bits; otherwise the low 16 bits of the ISD and the low 64 bits of all groups put together are left |
| `Text.PackRoundTrip` | simple_switch/control_plane/controllers/int/readIntTable.h:33-37 | packing ISD and AS into 64 bits loses nothing |
| `Text.TopicInjective` | simple_switch/control_plane/controllers/int/int.cpp:270-275 | different (AS, node id) pairs never share a topic |
| `TestVectors.TopicVectors` | telemetry/kafka/README.md:30-31 | node 1 of two ASes reports to the two topics that the documentation creates |
| `TestVectors.AddressVectors` | simple_switch/control_plane/tests/test_int.cpp:15-29 | the two addresses of the test are split into the numbers it expects |
| `L2.L2Switch.ApplyUpdate` | simple_switch/data_plane/include/l2_switch.p4:43-67 | an insert fails exactly on an existing key, a full table or a value that is no port, and then changes nothing |
| `L2.L2Switch.Write` | simple_switch/control_plane/connection.cpp:20-28 | all updates of a request are tried whatever becomes of the earlier ones; success means all were accepted |
| `L2.L2Switch.ProcessFrame` | simple_switch/data_plane/include/l2_switch.p4:21-74 | the ports a frame leaves on and the digest it causes; that this makes every unknown host learned and found is `Learning.FrameLearns` |
| `L2.FloodReachesEachOnce` | simple_switch/control_plane/controllers/mac_learn.cpp:201-209 | each port but the excluded one is in a flood group exactly once, the excluded one and all others never |
| `L2.InstancesAreConsecutive` | simple_switch/control_plane/controllers/mac_learn.cpp:200-208 | no two replicas of a group share an instance |
| `L2.MacLearningCtrl.BuildFloodMcastGrp` | simple_switch/control_plane/controllers/mac_learn.cpp:192-212 | the port loop with its instance counter builds that group |
| `L2.MacLearningCtrl.CreateFloodMulticastGroup` | simple_switch/control_plane/controllers/mac_learn.cpp:111-118 | the eight groups in one request |
| `L2.SetupInstalls` | simple_switch/control_plane/controllers/mac_learn.cpp:111-135 | the installation's writes on empty tables leave all eight groups, only the broadcast entry and digests on, and digests go on last |
| `L2.MacLearningCtrl.HandleArbitrationUpdate` | simple_switch/control_plane/controllers/mac_learn.cpp:57-67 | a won election tries all writes of the installation on whatever the tables hold; a lost one changes nothing |
| `L2.MacLearningCtrl.HandleDigest` | simple_switch/control_plane/controllers/mac_learn.cpp:69-104 | the two inserts per digest in list order; a wrong format writes nothing at all |
| `L2.DecodesDigests` | simple_switch/control_plane/controllers/mac_learn.cpp:80-91 | digests in P4Runtime encoding, with or without leading zeros, give the inserts for their address and port |
| `MacLearning.StepKeeps` | simple_switch/control_plane/control_plane.cpp:29-72 | every step of the protocol keeps the invariant: frames, elections, losses, foreign writes, messages in any order, single writes |
| `MacLearning.RoomToForward` | simple_switch/data_plane/include/l2_switch.p4:43-67 | a newly learned address always finds room in the forward table |
| `MacLearning.TableAgreement` | simple_switch/control_plane/controllers/mac_learn.cpp:69-126 | over all runs, with any sources: tables stay within 1024 entries; on an installed switch every learned address but broadcast is forwarded (save one whose insert is under way) and at most one forwarded address is not learned, also between the two inserts of a digest |
| `MacLearning.BroadcastDelivery` | simple_switch/data_plane/include/l2_switch.p4:36-39 | over all runs, with any sources: on an installed switch a broadcast frame reaches each of the other seven ports exactly once and never the ingress port, if and only if broadcast is not a forward key |
| `MacLearning.Delivery` | simple_switch/data_plane/include/l2_switch.p4:29-74 | over all runs in which each host stays on its port: a frame for a host on another port reaches that port exactly once, and only that port once the host is forwarded |
| `MacLearning.EntriesStay` | simple_switch/control_plane/controllers/mac_learn.cpp:89-95 | from any state, entries neither go away nor change until the next pipeline reset |
| `MacLearning.Undisturbed` | simple_switch/control_plane/connection.cpp:20-28 | without interference the single writes of a message have the effect of the request as a whole |
| `MacLearning.Reinstalls` | simple_switch/control_plane/control_plane.cpp:74-85 | an undisturbed re-election installs the tables whatever they held |
| `MacLearning.BroadcastStaysOut` | simple_switch/control_plane/controllers/mac_learn.cpp:61-66 | which runs keep broadcast out of the forward table: all runs of a class do if and only if broadcast is never a source, or the switch starts empty, the primary role is never lost and nobody else writes; the order of messages makes no difference |
| `MacLearning.FailsAfterLoss` | simple_switch/control_plane/controllers/mac_learn.cpp:61-66 | a concrete run, messages in order, that starts empty and in which only the role is lost in the middle of an installation: afterwards broadcast is a forward key |
| `MacLearning.FailsFromLeftBehind` | simple_switch/control_plane/control_plane.cpp:74-85 | a concrete run, messages in order, in which only the tables are not empty at the start: afterwards broadcast is a forward key |
| `MacLearning.FailsAfterForeign` | simple_switch/control_plane/control_plane.cpp:74-85 | a concrete run, messages in order, in which only somebody else writes before the first election: afterwards broadcast is a forward key |
| `Learning.FrameLearns` | simple_switch/data_plane/include/l2_switch.p4:51-73 | in any run of the protocol, with the controller idle and nothing under way: after a frame, its digest list and two writes, the source is learned and forwarded to the port it came from exactly if it was unknown and each table had room; nothing else changes |
| `Learning.HostIsFound` | simple_switch/data_plane/include/l2_switch.p4:29-74 | so an unknown host is learned if and only if the learn table has room, and then frames for it, from whatever port, leave on its port alone |
| `IntTables.ReadIntTable` | simple_switch/control_plane/controllers/int/readIntTable.h:22-41 | the line loop fills three parallel lists with the rows of the file: lines, comments, fields and hexadecimal numbers with all their failures; a number out of range in an address is the exception |
| `IntTables.LineRoundTrip` | simple_switch/control_plane/controllers/int/readIntTable.h:27-37 | a written line is read back, for every ISD below 2^16, AS below 2^48 and any numbers as bitmaps: one out of range becomes 0xffff, and nothing is read after it |
| `IntTables.FirstLineOfFile` | simple_switch/control_plane/controllers/int/readIntTable.h:22-41 | the first line of a file is read as that line, whatever follows it |
| `IntTables.CommentLine` | simple_switch/control_plane/controllers/int/readIntTable.h:22-26 | a line that starts with a number sign is a comment, whatever it says and whatever follows |
| `TestVectors.TableVector` | simple_switch/control_plane/tests/test_int.cpp:64-76 | the lines of the test's second table file are read as the rows it expects |
| `IntTables.IntController.BuildScionIntTableEntry` | simple_switch/control_plane/controllers/int/int.cpp:343-381 | the encoded entry inserts exactly this action under the low 16 and 48 bits of ISD and AS |
| `IntTables.IntController.BuildIntNodeIdTableEntry` | simple_switch/control_plane/controllers/int/int.cpp:385-406 | the encoded entry inserts the node id under flag 1 |
| `IntTables.IntController.BuildSciAsAddrTableEntry` | simple_switch/control_plane/controllers/int/int.cpp:410-430 | the encoded entry inserts the AS under flag 1 |
| `IntTables.IntController.BuildIntTxUtilTableEntry` | simple_switch/control_plane/controllers/int/int.cpp:436-462 | the encoded entry inserts the utilisation under flag 1 and the port |
| `IntTables.IntController.InstallStaticTableEntries` | simple_switch/control_plane/controllers/int/int.cpp:286-327 | the host's entry, one request per row and 514 flag entries leave, from any tables, the tables of the specification |
| `IntTables.IntController.ConfigCloneSession` | simple_switch/control_plane/controllers/int/int.cpp:330-335 | the session for the CPU port is there afterwards, and the request fails exactly if there was one already |
| `IntTables.IntController.HandleArbitrationUpdate` | simple_switch/control_plane/controllers/int/int.cpp:112-120 | a won election installs entries and clone session on whatever the tables hold; a lost one changes nothing |
| `IntTables.FirstMatch` | simple_switch/control_plane/controllers/int/int.cpp:291-314 | scion_int holds nothing but the first lines of listed destinations and the host's clone; it holds as many different destinations as fit, and a listed one if and only if the host and the different destinations before its first line leave room |
| `IntTables.InstalledTables` | simple_switch/control_plane/controllers/int/int.cpp:286-327 | lookups after installation: own AS cloned, listed destinations with the bitmaps of their first line, nothing else, each found if and only if it is not listed or there is room for it; the flag tables hit exactly on flag 1 if and only if 512 ports fit |
| `IntTables.ListedNotFound` | simple_switch/control_plane/controllers/int/int.cpp:291-314 | for every size of the table, a file whose last destination is listed and not found |
| `Network.ConfiguredTables` | simple_switch/control_plane/controllers/int/int.cpp:286-327 | with both switches configured from their files, the source's lookup gives the listed bitmaps and the sink's the clone action, and the source's flag tables hit with utilisation zero |
| `Network.ConfiguredTelemetry` | simple_switch/control_plane/controllers/int/int.cpp:122-327 | from two configuration files to the report: it tells what the source measured if and only if the listed bitmaps are supported and write some field |
| `ControlPlane.ControlPlane.Run` | simple_switch/control_plane/control_plane.cpp:29-72 | the event loop over any stream of messages leaves the L2 and INT tables, clone sessions and published reports of the specification, or ends at an exception or undefined behaviour |
| `ControlPlane.ControlPlane.Dispatch` | simple_switch/control_plane/control_plane.cpp:40-70 | each kind of message reaches the controller that handles it; what that makes of digest lists is the subject of `Learning.StreamLearns` |
| `ControlPlane.ControlPlane.DispatchArbitrationUpdate` | simple_switch/control_plane/control_plane.cpp:40-46 | after a won election the tables of both controllers are exactly the installed ones whatever was there before, through the reset and both handlers; a lost one changes nothing |
| `ControlPlane.PublishesInOrder` | simple_switch/control_plane/controllers/int/int.cpp:255-283 | exactly the reports of the decoded packets are published, each once and in order, whatever else is on the stream |
| `ControlPlane.ElectionForgets` | simple_switch/control_plane/control_plane.cpp:74-85 | after a won election all tables, L2 and INT, depend on nothing that came before it |
| `ControlPlane.ElectionInstalls` | simple_switch/control_plane/control_plane.cpp:40-46 | after any stream with a won election, whatever else is on it, INT tables and clone session are the installed ones |
| `ControlPlane.LookupsAfterElection` | simple_switch/control_plane/controllers/int/int.cpp:112-120 | after any such stream, for a file of valid lines: packets for the own AS are cloned, those for a listed destination get its first line's bitmaps if there is room, no others match |
| `ControlPlane.DigestsKeepAgreement` | simple_switch/control_plane/controllers/mac_learn.cpp:69-104 | for any list of true digests the two tables stay in agreement and only grow |
| `ControlPlane.StreamAgreement` | simple_switch/control_plane/control_plane.cpp:29-72 | from an election on, over any stream of messages with true digests, the tables agree, forward hosts to their true ports, and at most one forwarded address is not learned |
| `Learning.StreamLearns` | simple_switch/control_plane/control_plane.cpp:40-60 | after a won election and any stream of other messages: an address is learned if and only if it is broadcast or the source of a digest with fewer than 1024 different addresses before it, broadcast counted; it is forwarded if and only if it is a source with fewer than 1024 different sources before it, and then to the port of its first digest |
| `Learning.DigestsLearned` | simple_switch/control_plane/controllers/mac_learn.cpp:69-104 | the same for any list of digests written to freshly installed tables, as sets: the learn table holds broadcast and the first sources that fit, the forward table the first 1024 with their first ports |
| `Learning.AnyDigest` | simple_switch/control_plane/controllers/mac_learn.cpp:75-95 | a digest of any two byte strings: the low 48 bits of the first are learned if new and there is room, and forwarded to the low 16 bits of the second if that is a port |
| `Learning.BadDigestEnds` | simple_switch/control_plane/controllers/mac_learn.cpp:72-87 | a digest list of our own with an entry that is not a struct of two members ends the program |
| `Reelection.WholeInstallation` | simple_switch/control_plane/controllers/int/int.cpp:286-335 | undisturbed, the single writes of an election leave the installed INT tables and clone session whatever was there before |
| `Reelection.ElectionsInstall` | simple_switch/control_plane/control_plane.cpp:29-85 | over all runs, with refused and late writes, losses of the role, foreign writes and messages in any order: an idle primary that has no election left to handle holds the installed INT tables and clone session |
| `Reelection.Interrupted` | simple_switch/control_plane/controllers/int/int.cpp:112-120 | a concrete run with a loss of the role in the middle of an installation: until the next election is handled, the own AS is not in scion_int |
| `Reelection.HandledIsExact` | simple_switch/control_plane/control_plane.cpp:29-85 | the idle primary always holds them if and only if all elections are handled |
| `TcpClient.TcpClient.Write` | simple_switch/control_plane/controllers/int/tcpClient.cpp:48-64 | a write appends all of its bytes or, on an error, some of them and closes the stream; a closed stream takes nothing |
| `TcpClient.TcpClient.Send` | simple_switch/control_plane/controllers/int/tcpClient.cpp:36-45 | length and report are written in this order |
| `TcpClient.AlwaysAPrefix` | simple_switch/control_plane/controllers/int/tcpClient.cpp:36-64 | over any run the bytes on the socket are a prefix of the frames, all of them if no write failed; the stream is still open if and only if none failed |
| `TcpClient.FailStop` | simple_switch/control_plane/controllers/int/tcpClient.cpp:50-63 | after the first error nothing more is written |
| `TcpClient.ReceiverSees` | simple_switch/control_plane/controllers/int/tcpClient.cpp:36-64 | the complete frames on the socket decode to the first of the reports, in order, and to all of them if no write failed |
| `TcpClient.LengthFits` | simple_switch/control_plane/controllers/int/tcpClient.cpp:40-42 | a report comes out as it went in if and only if its length fits 32 bits |
| `Subscriber.FrameLayout` | simple_switch/control_plane/controllers/int/tcpClient.cpp:40-42 | a frame is four bytes of length, least significant first, and the report |
| `Subscriber.SubscriberSees` | simple_switch/control_plane/controllers/int/int.cpp:255-283 | over any stream of messages and any faults of the socket, the receiver parses a prefix of the reports for the decoded packets, in order, and all of them if no write fails |

## Left out

- Decoder.HandlePacketIn: serialization failures and the sends themselves are left out, and `truncated_packet` is taken from offset 8 as in the code, with no claim that it is the SCION headers.
- Opening the configuration file and the error when that fails.
- ControlPlane.ControlPlane.Run: nobody else writes the switch meanwhile (interleavings are the subject of `MacLearning` and `Reelection`); opening the stream is left out.
- TcpClient.TcpClient.Send: one connection that is already open or was refused; connecting is left out.
- Messages.IPv6Message.InternalParse: stops at unknown fields and group end tags, which the generated code keeps or stops at.
- Messages.FlowKeyMessage.ParseField: the same.
- Messages.FlowKeyMessage.InternalParse: the same.
- Messages.HopMessage.InternalParse: the same.
- Messages.ReportMessage.InternalParse: the same.
- Arenas, reflection, cached sizes and string views of the generated messages.
- ReportProofs.ReportRoundTrip: for messages of at most 2^31 - 1 bytes, the limit of the wire format.
- IntSwitch.IntSwitchControl.Egress: the byte counter `txCounter` and `packet_length` are left out.
- Members of `int_stack_t` and flags that no statement makes valid or reads (interface ids, hop latency, queue, buffer, checksum complement).
- Transit hops: properties of the source are for packets that arrive without INT. The decoder's are for any number of hops.
- IPv4 options beyond the fixed 20 bytes, and the disabled IPv6 branches.
- The controller's use of checksum errors.
- Digest acknowledgements and time-outs. Digest lists on the wire hold one digest, as configured; the handler takes any number.
- gRPC, Kafka, sockets, command lines and printing.
- `updateTxUtil`, which is declared but not defined, and `txCountList`.
- The Go producers and generated Go code, the obsolete l2_switch controller and the Python topology.

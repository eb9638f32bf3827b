# goflow2 in Dafny

A model of the protocol cores of goflow2 (a NetFlow, IPFIX and sFlow collector) and of its ReFlow exporter, with proofs about whole messages, whole runs and every interleaving. `dafny verify dfyconfig.toml` checks the project.

**NetFlow v9 and IPFIX.** A printer and a parser whose grammar for later sets is fixed by earlier ones. `NetFlowPrinter` and `NetFlowParser` say what the bytes are and mean; `NetFlowEncoder` and `NetFlowDecoder` are the loops over buffers and the template store, proved equal to them. `NetFlowRoundTrip` and `NetFlowMessages` build the round trip from fields to packets; where the code does not round-trip (padding that the decoder can read as a record, RFC 7011 section 3.3.1; field types that use the enterprise bit, RFC 7011 section 3.2) the theorem is an equivalence with the exact condition. `NetFlowSessions` covers runs of datagrams from many routers and domains, `NetFlowFixed` the number of records in a set. `NetFlowV5` is the fixed format of version 5 and its uptime-relative times. `NetFlowWire` and `NetFlowV5Wire` write the formats out octet by octet, in the terms of their specifications, and prove the codecs against that.

**sFlow v5.** `SFlowTypes` lists the layout of every record format as a sequence of XDR items (RFC 4506 sections 4.9 to 4.11); `SFlowPrinter`, `SFlowParser`, `SFlowCodec` and `SFlowRoundTrip` follow the same plan. `SFlowSizes` and `SFlowExporter` model the exporter that packs events into bounded datagrams and searches for the longest sampled header that fits. `SFlowWire` is the format written out: every record, sample and datagram with named fields.

**Packet stacks.** `PacketLayers` encodes a stack of layers, `PacketParser` reads a header back through VLAN tags, MPLS labels, IP in IP, GRE, VXLAN, Geneve, L2TP, GTP-U and PPPoE, `PacketCodec` is the loop form of both, and `PacketRoundTrip` proves that parsing an encoded stack of any depth shows what the model says. After a tunnel whose EtherType the parser does not follow, the code slices from an offset it has already advanced; `PacketRanges` says exactly for which packets and options that slice is out of range. `PacketWire` is the grammar of packets as octets, `PacketReads` what the parser shows of them, and `PacketEncodes` that the encoder writes them.

**Stores.** `Fifo` is a flow store as one sequence, oldest entry first. `FlowStore` is the hash map with its list and event log, proved to refine it. `FlowStoreRuns` proves what holds over every run, and exactly when the event log rebuilds the key set; `FlowStoreTimes` how long an entry lives; `FlowStoreUse` ties calls of the store to runs. `AggregateKeys`, `Aggregate` and `AggregateStore` model bucket keys, merging and timers; `AggregateRuns`, `AggregateOrder` and `AggregateConservation` prove that every contribution ends in one bucket, that the order of arrival does not matter, and that sums are conserved; `AggregateFields` says what a bucket's fields are of its events, `AggregateTimers` what the timers do to it; `AggregateEvents` and `AggregateEmitted` state it for the worker's loop, from events to emitted records.

**Concurrency.** `UdpReceiver` and `UdpReceiverRuns` are the UDP receiver as a system of steps over sockets, a bounded queue, workers and a pool of reused buffers. `Pipeline` and `PipelineRuns` are the ReFlow stages over bounded channels and their drain from left to right; `PipelineRouting` says where events end up, `PipelineOrder` in what order, `PipelineProgress` that the drain ends.

**Producer.** `LayerChain` is the protobuf producer's chain of layer parsers under any registration, and exactly when it ends, `ChainReads` what it makes of the packets of the wire grammar, and `BitSlice` the extraction of a bit range from a byte slice.

`Bytes` holds machine integers, big-endian words and the byte buffer; `Wire` those words octet by octet; `Sums` holds counting over sequences. Integers are unbounded in Dafny, so every width and wrap-around is written out. `Option` and outcome datatypes stand for error returns. Clocks, random choices, hooks, map iteration order and library calls (address parsing, JSON encoding, value methods) are parameters or nondeterministic choices, and the theorems hold for all of them.

## Model

| member | source | states |
|---|---|---|
| NetFlowMessages.NFv9RoundTrip | decoders/netflow/encode.go:40-86 | for every store and every encodable packet whose layouts the decoder holds, decoding the encoding gives the same sets in order with ids, counts and lengths filled in, the learned templates stored and no error, if and only if no padding can be read as a record |
| NetFlowMessages.IPFIXRoundTrip | decoders/netflow/encode.go:88-134 | the same equivalence for IPFIX, whatever bytes follow the message in the buffer |
| NetFlowMessages.SelfContainedNFv9 | decoders/netflow/encode.go:136-163 | v9 packets that announce every template they use, of four fixed octets or more, round-trip on every collector, which ends up with their templates learned, none missing and no error |
| NetFlowMessages.SelfContainedIPFIX | decoders/netflow/encode.go:136-163 | the same for IPFIX, whatever follows the message |
| NetFlowMessages.NFv9PaddingIsRead | decoders/netflow/netflow.go:286-308 | where the round trip fails: a v9 packet that announces a one-octet template and sends one record of it is encoded and does not decode to itself, on any collector |
| NetFlowMessages.IPFIXPaddingIsRead | decoders/netflow/netflow.go:286-308 | the same two sets in an IPFIX message |
| NetFlowMessages.SelfContainedFits | decoders/netflow/encode.go:393-454 | such packets meet every condition of the round trip whatever the collector's store holds: what the encoder accepts under a template, the decoder reads under the same template |
| NetFlowMessages.SetsRoundTrip | decoders/netflow/netflow.go:310-329 | the equivalence for any list of sets at any point of a message, with the store threaded through |
| NetFlowRoundTrip.FieldRoundTrip | decoders/netflow/encode.go:466-483 | a field specifier survives if and only if its type leaves the enterprise bit free |
| NetFlowRoundTrip.EnterpriseBitMisread | decoders/netflow/netflow.go:95-113 | where it fails: a plain IPFIX field of type 0x8001 is read as enterprise field 1 with the next four octets for its number |
| NetFlowRoundTrip.TemplateRoundTrip | decoders/netflow/encode.go:244-391 | all three kinds of template record decode to themselves with counts filled in and leave what follows |
| NetFlowRoundTrip.TemplatesRoundTrip | decoders/netflow/netflow.go:160-203 | a padded template set decodes to its templates, and up to three padding octets add none |
| NetFlowRoundTrip.RecordsRoundTrip | decoders/netflow/netflow.go:256-308 | padded data and options records decode to themselves if and only if there is no padding or it is shorter than a record's fixed part |
| NetFlowRoundTrip.FourOctetsAreSafe | decoders/netflow/encode.go:569-577 | a template of at least four fixed octets always meets that condition |
| NetFlowRoundTrip.SetRoundTrip | decoders/netflow/encode.go:165-242 | one encoded set of any kind reads back as itself if and only if its padding is safe |
| NetFlowSessions.MessageReadsLatest | decoders/netflow/netflow.go:331-485 | for any bytes: the decoded sets are the first frames one for one, each read under the template announced last for its id, and the store holds exactly the announcements |
| NetFlowSessions.MissingTemplateIsLocal | decoders/netflow/netflow.go:426-476 | a collector that lacks one template id but otherwise holds the same templates fails on no message that the richer one reads; it reads every set identically, later ones included, except that a set of that id may be kept raw with its id, length and octets |
| NetFlowSessions.DifferenceIsLocal | decoders/netflow/netflow.go:426-476 | collectors that hold different templates for one id, and both read the message, frame it alike and read every set of another id alike |
| NetFlowSessions.SessionsDoNotInterfere | decoders/netflow/netflow.go:487-528 | over any run of datagrams, a router, version and domain are decoded as if nothing else had arrived |
| NetFlowSessions.RunStoreIsLatest | decoders/netflow/netflow.go:331-425 | after any run the store answers every key with the latest announcement for it |
| NetFlowSessions.RunReadsLatest | decoders/netflow/netflow.go:331-485 | in a whole run of datagrams, every set is its frame read under the latest announcement for its router, version, domain and id in the log of all earlier datagrams and of the earlier sets of its own |
| NetFlowSessions.PackKeyInjective | decoders/netflow/template_types.go:20-22 | packed template keys are equal if and only if version, domain and id are |
| NetFlowFixed.FixedRecordCount | decoders/netflow/netflow.go:286-308 | n octets under a fixed template of k octets hold exactly n / k records, and their values concatenate to the first k * (n / k) octets |
| NetFlowDecoder.TemplateStore.AddTemplate | utils/store/templates/store.go:163-181 | a template is filed under exactly its router, version, domain and id, and reported as added or updated |
| NetFlowDecoder.DecodeField | decoders/netflow/netflow.go:95-113 | consumes one field specifier, with the enterprise number when the bit is set |
| NetFlowDecoder.DecodeTemplateSet | decoders/netflow/netflow.go:160-203 | the loop over a template set equals the parser on every input, errors included |
| NetFlowDecoder.GetTemplateSize | decoders/netflow/netflow.go:205-214 | the fixed octets of a template, fields of length 65535 counting none |
| NetFlowDecoder.DecodeDataSetUsingFields | decoders/netflow/netflow.go:216-254 | one record's values under a field list, variable lengths with a one- or three-octet prefix |
| NetFlowDecoder.DecodeDataSet | decoders/netflow/netflow.go:286-308 | the record loop of a data set equals the parser |
| NetFlowDecoder.DecodeOptionsDataSet | decoders/netflow/netflow.go:256-284 | the record loop of an options data set equals the parser, scopes before values |
| NetFlowDecoder.DecodeMessageCommonFlowSet | decoders/netflow/netflow.go:331-485 | one set is framed, read under the stored template and its templates filed as the parser says, raw when the template is missing |
| NetFlowDecoder.DecodeMessageCommon | decoders/netflow/netflow.go:310-329 | the set loop equals the parser: sets, store, missing-template flag and error |
| NetFlowDecoder.DecodeMessageNetFlow | decoders/netflow/netflow.go:487-507 | the v9 header and its sets, as the parser says |
| NetFlowDecoder.DecodeMessageIPFIX | decoders/netflow/netflow.go:509-528 | the IPFIX header and exactly the sets its length covers |
| NetFlowDecoder.DecodeMessageVersion | decoders/netflow/netflow.go:530-548 | dispatch on the version word, with an error for any other version |
| NetFlowEncoder.PadFlowSetPayload | decoders/netflow/encode.go:569-577 | zeros up to a multiple of four octets |
| NetFlowEncoder.EncodeField | decoders/netflow/encode.go:466-483 | appends the specifier with its enterprise bit and number |
| NetFlowEncoder.EncodeTemplateFlowSet | decoders/netflow/encode.go:244-391 | the template loops equal the printer, count mismatches refused |
| NetFlowEncoder.EncodeDataFieldValue | decoders/netflow/encode.go:485-517 | appends a value under its template length, with the prefix of a variable one, or refuses |
| NetFlowEncoder.EncodeRecord | decoders/netflow/encode.go:393-454 | one record's scopes and values, laid out by the template announced before it |
| NetFlowEncoder.EncodeDataFlowSet | decoders/netflow/encode.go:393-454 | the record loop equals the printer |
| NetFlowEncoder.EncodeFlowSet | decoders/netflow/encode.go:165-242 | each kind of set with the id it is sent under |
| NetFlowEncoder.EncodeFlowSets | decoders/netflow/encode.go:136-163 | the set loop, remembering announced templates, equals the printer |
| NetFlowEncoder.EncodeNFv9Packet | decoders/netflow/encode.go:40-86 | header and sets of a v9 packet, or the refusal |
| NetFlowEncoder.EncodeIPFIXPacket | decoders/netflow/encode.go:88-134 | header with the message length and sets of an IPFIX packet, or the refusal |
| Wire.WordsAreBigEndian | decoders/utils/encode.go:12-24 | the words every codec writes and reads are two or four octets, highest first |
| NetFlowWire.DataSetReads | decoders/netflow/netflow.go:205-308 | for any template, the octets of any records laid out as RFC 7011 section 7 asks (a one-octet prefix below 255, 0xff and two octets from there, for fields of length 65535 and no others), with any padding shorter than a record, decode to exactly those records |
| NetFlowWire.ValueIs | decoders/netflow/encode.go:485-517 | a value is encoded as these octets if and only if it fits the template length, and refused otherwise |
| NetFlowWire.TemplateIs | decoders/netflow/encode.go:244-391 | template and options template records are written as the id, counts and specifiers they stand for, octet by octet, or refused |
| NetFlowWire.SetsAre | decoders/netflow/encode.go:136-242 | every set is its id, its length and its padded records, octet by octet, or the packet is refused |
| NetFlowWire.NFv9Is | decoders/netflow/encode.go:40-86 | the encoder accepts a v9 packet if and only if every part of it can be sent, and writes exactly the octets the format asks for |
| NetFlowWire.IPFIXIs | decoders/netflow/encode.go:88-134 | the same for IPFIX |
| NetFlowWire.NFv9OctetsRead | decoders/netflow/netflow.go:487-507 | so those octets, wherever they come from, decode as the packet they stand for, under the conditions of the round trip |
| NetFlowWire.IPFIXOctetsRead | decoders/netflow/netflow.go:509-528 | the same for IPFIX |
| Bytes.ReadBackU16 | decoders/utils/encode.go:12-17 | a written 16-bit word is read back and leaves what follows |
| Bytes.ReadBackU32 | decoders/utils/encode.go:19-24 | the same for 32 bits |
| Bytes.Buffer.ReadU32 | decoders/utils/utils.go:20-113 | a big-endian read consumes four octets, or fails when there are fewer |
| SFlowRoundTrip.PacketRoundTrip | decoders/sflow/encode.go:15-92 | decoding an encoded packet returns it with versions, formats, counts and lengths filled in, for every well-formed packet and whatever follows it |
| SFlowRoundTrip.SampleReads | decoders/sflow/encode.go:167-340 | every kind of sample, compact or expanded, reads back with its header, counters and records |
| SFlowRoundTrip.RecordsRead | decoders/sflow/encode.go:342-734 | a list of records of any formats, known or raw, reads back in order |
| SFlowRoundTrip.ItemReads | decoders/sflow/encode.go:1005-1143 | every XDR item reads back whatever follows: words, fixed and padded octets, vectors, addresses, AS paths, sampled headers |
| SFlowRoundTrip.HeaderSurvives | decoders/sflow/sflow.go:218-241 | a sampled header survives if and only if its length field is its length, or is larger and a multiple of four |
| SFlowRoundTrip.HeaderChanges | decoders/sflow/sflow.go:218-241 | where it does not: headers that are cut, refused, or lengthened by their own padding |
| SFlowCodec.EncodeMessage | decoders/sflow/encode.go:15-92 | the sample loop equals the printer, refusals included |
| SFlowCodec.WriteSampleBody | decoders/sflow/encode.go:94-340 | header, source id, counters, count and records of one sample |
| SFlowCodec.WriteRecords | decoders/sflow/encode.go:342-978 | the record loop equals the printer |
| SFlowCodec.WriteItems | decoders/sflow/encode.go:346-721 | a record's items in the order its format lays them out |
| SFlowCodec.DecodeMessageVersion | decoders/sflow/sflow.go:656-734 | the datagram decoder equals the parser on every input |
| SFlowCodec.DecodeSample | decoders/sflow/sflow.go:509-654 | one sample, raw when its format is unknown, with absent records where the octets ran out |
| SFlowCodec.DecodeRecords | decoders/sflow/sflow.go:614-652 | the record loop stops at the count or at the first record that is not whole |
| SFlowCodec.DecodeItems | decoders/sflow/sflow.go:141-487 | a record's items in layout order |
| SFlowWire.RecordIsRead | decoders/sflow/sflow.go:141-487 | the octets of each of the eighteen named record formats, written out field by field, decode to exactly those fields, in any sample that may hold the format; records of any other format are kept raw |
| SFlowWire.RecordIsWritten | decoders/sflow/encode.go:342-978 | the encoder writes each of them as those octets |
| SFlowWire.SampleIsRead | decoders/sflow/sflow.go:509-654 | the octets of flow, counter, expanded flow, expanded counter and drop samples, written out, decode to their named fields and records |
| SFlowWire.SampleIsWritten | decoders/sflow/encode.go:94-340 | the encoder writes each of them as those octets |
| SFlowWire.DatagramIsRead | decoders/sflow/sflow.go:656-734 | a whole datagram of such samples, written out octet by octet, decodes to its named fields whatever follows it |
| SFlowWire.DatagramIsWritten | decoders/sflow/encode.go:15-92 | and is what the encoder writes |
| SFlowSizes.CutSize | pkg/reflow/encode/sflow.go:909-934 | with the last header cut to k octets the packet still encodes, and its size is that without header plus k rounded up to four |
| SFlowSizes.PaddingMonotone | decoders/sflow/xdr.go:55-62 | padded size never shrinks as the length grows |
| SFlowExporter.TruncateLastSampleToFit | pkg/reflow/encode/sflow.go:892-940 | the binary search finds the longest header prefix with which the packet fits max_datagram_bytes, and finds one if and only if one exists |
| SFlowExporter.Encoder.AddSample | pkg/reflow/encode/sflow.go:211-245 | a sample is added whole exactly when that is within the limit, else with the longest header that fits, else the packet cannot take it |
| SFlowExporter.Encoder.Fill | pkg/reflow/encode/sflow.go:205-256 | the loop over events: the packet takes a prefix of them for the reasons below, its samples numbered one by one after the last number used |
| SFlowExporter.Encoder.BuildPacketWithLimit | pkg/reflow/encode/sflow.go:173-257 | the packet carries a nonempty prefix of the events, all compatible with the first, and ends where the next is incompatible or would not fit under any sample number; an oversized first event fits no datagram of its own, whatever the sequence numbers and uptime; events whose addresses parse and samples encode cause no other failure |
| SFlowExporter.Encoder.Flush | pkg/reflow/encode/sflow.go:106-135 | every buffered event, in order and once, leaves in a datagram or is dropped because no datagram of its own can hold it; each sample is whole or cut as the packet before it required; a datagram ends only where the next event is incompatible or cannot be added; the payloads are the encodings of the groups; datagrams without a number of their own are numbered one after the other, and so are the samples, but for the numbers spent on an event that did not fit; it succeeds whenever the events' addresses parse and their samples encode |
| SFlowExporter.Encoder.Encode | pkg/reflow/encode/sflow.go:65-104 | what has left followed by what is buffered is what was buffered followed by the event, with the same reasons for every datagram's end; the buffer stays compatible and below the record limit; the numbering goes on from call to call; it succeeds under the same condition |
| SFlowExporter.Encoder.BuildSample | pkg/reflow/encode/sflow.go:268-283 | every sample but a raw one takes the next sample number, wrapping at 32 bits, and a failure takes none |
| SFlowExporter.SameFit | pkg/reflow/encode/sflow.go:211-245 | whether a sample can be added, whole or cut, does not depend on its number or on the packet's sequence number and uptime |
| SFlowExporter.WithinMax | pkg/reflow/encode/sflow.go:216-265 | every datagram is within a positive max_datagram_bytes, and within the batch limit when nothing is cut |
| SFlowExporter.TurnedAwayForSize | pkg/reflow/encode/sflow.go:216-265 | a sample is turned away only when it takes the datagram over the datagram limit or the batch limit |
| SFlowExporter.OneTopLevel | pkg/reflow/encode/sflow.go:173-257 | the events of a datagram agree with its agent address, sub-agent, number and uptime unless these are overridden, and it ends before an event that fits only where one of them differs |
| PacketRoundTrip.FrameRoundTrip | pkg/reflow/packet/normalize.go:1177-1395 | parsing an encoded Ethernet stack with tags, labels and any nesting of IP in IP, GRE and VXLAN shows the tuples, VLAN ids and MPLS labels read directly off the model, and its layer kinds as a parsed view lists them: without the UDP header of a tunnel and without the payload |
| PacketRoundTrip.IPRoundTrip | pkg/reflow/packet/normalize.go:1192-1230 | the same for packets that start at their IP layer |
| PacketRoundTrip.StackShows | pkg/reflow/packet/normalize.go:1224-1394 | the same for every stack of the grammar behind any EtherType that announces it, from any view |
| PacketRoundTrip.EthernetReads | pkg/reflow/packet/normalize.go:1397-1437 | an encoded frame with any number of tags is read up to its network layer |
| PacketRoundTrip.LabelsRead | pkg/reflow/packet/normalize.go:1788-1827 | an encoded label stack is read to the label with the bottom bit, and its payload's version recognised |
| PacketRoundTrip.NetworkReads | pkg/reflow/packet/normalize.go:606-649 | an encoded IPv4 or IPv6 header gives back addresses, protocol and length |
| PacketRoundTrip.GreReads | pkg/reflow/packet/normalize.go:1587-1617 | an encoded GRE header with any options is skipped exactly |
| PacketCodec.EncodePacketModel | pkg/reflow/packet/normalize.go:495-513 | the loop from the innermost layer outwards equals the encoding of the stack |
| PacketCodec.ParsePacketViewWithOptions | pkg/reflow/packet/normalize.go:1177-1395 | the offset loop terminates and equals the parser on every input |
| PacketCodec.FollowNetwork | pkg/reflow/packet/normalize.go:1248-1295 | what follows an IP header: another layer at a larger offset, or the answer |
| PacketCodec.ReadEthernet | pkg/reflow/packet/normalize.go:1397-1437 | the tag loop equals the parser |
| PacketCodec.ReadMPLS | pkg/reflow/packet/normalize.go:1788-1827 | the label loop equals the parser |
| PacketCodec.ReadIPv6Tuple | pkg/reflow/packet/normalize.go:1497-1585 | the extension header loop equals the parser |
| PacketReads.FrameIsShown | pkg/reflow/packet/normalize.go:1177-1395 | any Ethernet frame of the wire grammar (tags, labels, PPPoE, IPv4 with options, IPv6 with any extension headers, and behind them TCP, UDP, any nesting of IP in IP, GRE, VXLAN, Geneve, L2TP and GTP-U), given as octets, is shown with the tuples, VLAN ids, labels and layer kinds written in it, its MAC addresses and its EtherType |
| PacketReads.IpIsShown | pkg/reflow/packet/normalize.go:1192-1230 | the same for octets that start with an IP header |
| PacketReads.ExtensionsSkipped | pkg/reflow/packet/normalize.go:1512-1585 | any chain of IPv6 extension headers is skipped exactly: eight octets per unit and eight more, eight for a fragment header, four per unit and eight more for an authentication header |
| PacketReads.GreRead | pkg/reflow/packet/normalize.go:1587-1617 | a GRE header is skipped with four octets for each of the checksum, key and sequence number it has |
| PacketReads.GeneveRead | pkg/reflow/packet/normalize.go:1619-1662 | a Geneve header is skipped with its options, and its protocol followed |
| PacketReads.L2tpRead | pkg/reflow/packet/normalize.go:1664-1724 | an L2TP data header is skipped with its length, sequence and offset fields where it has them |
| PacketReads.GtpuRead | pkg/reflow/packet/normalize.go:1726-1774 | a GTP-U header is skipped with its optional fields and extension headers, and the version of the packet behind it recognised |
| PacketReads.PppoeRead | pkg/reflow/packet/normalize.go:1829-1851 | a PPPoE session header gives its session and the network protocol behind it |
| PacketEncodes.StackEncoded | pkg/reflow/packet/normalize.go:495-732 | a model of an Ethernet frame with tags, labels and any nesting of IP in IP and GRE is encoded as exactly the octets of that frame |
| PacketEncodes.GreWritten | pkg/reflow/packet/normalize.go:651-674 | a GRE layer with any of its options is written as its flags, protocol and those fields |
| PacketEncodes.TunnelsWritten | pkg/reflow/packet/normalize.go:708-732 | VXLAN and Geneve layers are written as their eight octets |
| PacketEncodes.StackIsCarried | producer/proto/producer_packet.go:404-469 | so the octets that one part of the program encodes are read by the other as the frame the model describes |
| PacketRanges.PacketOutOfRange | pkg/reflow/packet/normalize.go:1248-1350 | parsing slices past the end of a packet if and only if it reaches a network layer with a tunnel whose EtherType it does not follow and fewer octets behind the tunnel header than the network header takes |
| PacketRanges.InRangeForAll | pkg/reflow/packet/normalize.go:1248-1350 | parsing stays within every packet if and only if the options do not look beyond the transport layer, or read neither GRE nor, on any ports, Geneve |
| PacketRanges.BareGreOverruns | pkg/reflow/packet/normalize.go:1259-1295 | the shortest case: a GRE header with nothing behind it |
| FlowStore.Store.Write | pkg/flowstore/store.go:177-290 | Add and Set on map and list equal the one-sequence form: contents, events, existed flag and result |
| FlowStore.Store.Get | pkg/flowstore/store.go:293-335 | Get and GetQuiet equal the one-sequence form |
| FlowStore.Store.Delete | pkg/flowstore/store.go:338-355 | Delete equals the one-sequence form |
| FlowStore.Store.Len | pkg/flowstore/store.go:358-362 | the map's size is the length of the sequence |
| FlowStore.Store.Range | pkg/flowstore/store.go:365-392 | visits exactly the live entries in order, after expiring the rest |
| FlowStore.Store.ExpireStale | pkg/flowstore/store.go:395-403 | removes and reports exactly the entries past their time that the hook does not extend |
| FlowStore.Store.Flush | pkg/flowstore/store.go:406-418 | empties the store and reports every entry once |
| FlowStore.Store.EnforceMaxSizeLocked | pkg/flowstore/store.go:586-600 | drops exactly the oldest entries beyond the maximum |
| FlowStore.Store.ExpireBeforeLocked | pkg/flowstore/store.go:565-584 | keeps the order of the entries that stay |
| FlowStore.Store.MaybeExtendLocked | pkg/flowstore/store.go:546-563 | extends an entry as the hook asks, or reports it expired |
| FlowStoreRuns.WriteKeepsInv | pkg/flowstore/store.go:177-290 | keys stay distinct and within a positive maximum; an update keeps every place; otherwise the key goes to the back, at most the single oldest key leaves, and the key just written stays |
| FlowStoreRuns.WriteReadsBack | pkg/flowstore/store.go:177-290 | a successful write is read back as its update of the live value or of zero, and every other key keeps its entry unless it is the oldest of a full store and the key is new |
| FlowStoreRuns.SweepRemovesExactly | pkg/flowstore/store.go:565-584 | a sweep leaves for each key exactly its live entry, and nothing for a key past its time |
| FlowStoreRuns.LogFollowsStore | pkg/flowstore/store.go:635-676 | over every run the invariant holds, the replayed log is the store's keys plus those a quiet read dropped and no event has named since, and Set events are truthful if and only if no such key is set again |
| FlowStoreRuns.LogRebuildsKeys | pkg/flowstore/store.go:302-335 | from an empty store the log rebuilds the key set if and only if no key is lost; without quiet drops it does, truthfully |
| FlowStoreRuns.QuietReadLosesKey | pkg/flowstore/store.go:298-335 | a key written with a lifetime and read quietly after it is gone from the store and still in the log |
| FlowStoreRuns.EventsTell | pkg/flowstore/store.go:177-418 | every event an operation fires is true: a delete names an entry the store held, deleted, flushed, past its end and not extended, or the oldest of a full store; a set names the key written, whether it was live and its value; a get a live value |
| FlowStoreTimes.WriteSetsEnd | pkg/flowstore/store.go:515-526 | when a written key ends: after the given lifetime, never for a given one of zero or less; without one a new key after the default lifetime, and a live key when it would have, or after the default one where writes refresh |
| FlowStoreTimes.ReadSetsEnd | pkg/flowstore/store.go:302-335 | a read past the end finds nothing unless the hook extends; one that is not quiet renews a live key for the default lifetime where reads refresh |
| FlowStoreTimes.EntryLivesToItsEnd | pkg/flowstore/store.go:542-600 | over any run that leaves an entry alone, it is read back until its end and not from then on; a bounded store lets go of it earlier only after as many writes as there are places behind it |
| FlowStoreTimes.NewKeyLives | pkg/flowstore/store.go:177-290 | so a new key is found at a time if and only if that is before the end of its lifetime, through at least maxSize - 1 further writes |
| FlowStoreUse.ServeAll | pkg/flowstore/store.go:177-418 | any sequence of calls on a store leaves it and its fired events as a run of the same operations does |
| FlowStoreUse.Listen | pkg/flowstore/store.go:635-676 | for any calls on a new store, replaying what it fired gives its keys and those quiet reads dropped, and is truthful if and only if no dropped key is set again |
| AggregateKeys.KeysInjective | pkg/reflow/aggregate/aggregate.go:594-642 | keys of equally many values are equal if and only if the values agree: strings and structured values exactly, numbers by their text |
| AggregateKeys.BucketsInjective | pkg/reflow/aggregate/aggregate.go:548-574 | two events share a bucket if and only if their key values agree, a missing one being nil |
| AggregateKeys.IntegersByValue | pkg/reflow/aggregate/aggregate.go:603-622 | integers agree if and only if they are equal, whatever their widths |
| AggregateKeys.BuildKey | pkg/reflow/aggregate/aggregate.go:551-574 | the loop over key fields gives the joined text, the global key, or the first failure |
| AggregateKeys.KeySpelled | pkg/reflow/aggregate/aggregate.go:594-642 | the spelling of a key with a value of every kind |
| AggregateStore.MergeInto | pkg/reflow/aggregate/aggregate.go:698-732 | merging field by field in any order of the map gives the merged fields |
| AggregateStore.Contribute | pkg/reflow/aggregate/aggregate.go:471-546 | what one event contributes, later field specifications over earlier ones |
| AggregateStore.Stateful.Process | pkg/reflow/aggregate/aggregate.go:191-210 | control events pass, failures change nothing, any other event is added to exactly the bucket of its key |
| AggregateStore.Stateful.FlushAt | pkg/reflow/aggregate/aggregate.go:380-426 | every bucket meets its fate once in any order of the map, and the exports are listed once each |
| AggregateStore.Stateful.Close | pkg/reflow/aggregate/aggregate.go:346-358 | every bucket is exported once and none is removed |
| AggregateTimers.TimersDecide | pkg/reflow/aggregate/aggregate.go:380-470 | over any calls on a new aggregator, a timer exports a key, keeps it or drops it exactly as the arrivals since its bucket was opened say: it leaves when the last is an idle time ago or the first a maximum time ago, else it is exported, and stays or starts anew, when a periodic run is due and something arrived since its last export, else it is dropped when the last is an erase time ago |
| AggregateRuns.EveryContributionOnce | pkg/reflow/aggregate/aggregate.go:84-104 | over every run a key's contributions split in order into groups; each removed bucket is the fold of one group and the resident bucket the fold of what is left |
| AggregateConservation.SumsConserved | pkg/reflow/aggregate/aggregate.go:392-426 | over every run from empty, for each key and sum field modulo 2^64, what was ingested is what left in removing exports plus what was erased plus what is resident |
| AggregateConservation.EventContributesItsNumber | pkg/reflow/aggregate/aggregate.go:496-503 | a field last configured as a sum brings the event's number, 0 when it has none |
| AggregateConservation.FoldAmount | pkg/reflow/aggregate/aggregate.go:712-715 | a bucket's sum field is the wrapped total of its contributions |
| AggregateEvents.Work | pkg/reflow/app/app.go:209-226 | the worker's loop over events, timers and the end takes the aggregator where the run of these steps leads, and each call lists exactly the exports due in the state the calls before it lead to |
| AggregateEvents.Serve | pkg/reflow/app/app.go:190-226 | one call is one step of the run, and a timer or the end lists exactly its exports |
| AggregateEvents.EventSumsConserved | pkg/reflow/aggregate/aggregate.go:191-210 | for any calls on a new aggregator, each key and sum field modulo 2^64: the total of that field over the events of that key is what left in removing exports plus what was erased plus what is resident |
| AggregateEmitted.EmittedConserved | pkg/reflow/aggregate/aggregate.go:346-426 | for calls that finish with the end, each key and sum field modulo 2^64: the total over the events, counted again for every export that kept its bucket, is the total over the emitted records plus what was erased; with reset or without periodic exports nothing is counted again, without idle erasure nothing is erased |
| AggregateOrder.OrderDoesNotMatter | pkg/reflow/aggregate/aggregate.go:698-768 | sums, least and greatest values and the time span of a bucket are the same for every order of arrival |
| AggregateOrder.MaskOrderDoesNotMatter | pkg/reflow/aggregate/aggregate.go:770-775 | so is its bit mask |
| AggregateOrder.SumIsTotal | pkg/reflow/aggregate/aggregate.go:734-742 | folding sums gives the wrapped total |
| AggregateOrder.MinIsLeast | pkg/reflow/aggregate/aggregate.go:744-755 | folding least values gives a contributed value that is no larger than any |
| AggregateOrder.MaxIsGreatest | pkg/reflow/aggregate/aggregate.go:757-768 | folding greatest values gives a contributed value that is no smaller than any |
| AggregateOrder.FirstAndCurrent | pkg/reflow/aggregate/aggregate.go:716-721 | a first value is the first contributed, a current value the last |
| AggregateOrder.FieldOfFold | pkg/reflow/aggregate/aggregate.go:698-732 | a bucket's field depends on that field's contributions alone |
| AggregateFields.BucketSummarizes | pkg/reflow/aggregate/aggregate.go:490-525 | in the bucket of any events, a field is there if and only if some event carried it, and is the first of the values carried, the last, the least, the greatest, or the bits they all have |
| AggregateFields.BucketSpans | pkg/reflow/aggregate/aggregate.go:538-546 | a bucket runs from the earliest time any of its events began to the latest any ended, the time of arrival standing in for a missing one |
| AggregateFields.BucketShows | pkg/reflow/aggregate/aggregate.go:487-495 | a bucket shows the key value of its last event and the static fields |
| AggregateFields.NumbersRead | pkg/reflow/aggregate/aggregate.go:1057-1091 | which kinds of integer count, and the others count as 0 |
| UdpReceiver.Normalize | utils/udp.go:84-118 | there is always at least one socket and one worker; positive counts, the queue size and the blocking flag are kept, and workers default to the sockets |
| UdpReceiverRuns.EveryPacketAccountedFor | utils/udp.go:192-279 | in every interleaving: no send on a closed channel and no double close, at most one holder per pooled buffer, every packet read is on its way or settled with its content; once Stop has returned none is on its way and at most one per socket was abandoned; blocking receivers drop none |
| UdpReceiverRuns.DropsOnlyWhenFull | utils/udp.go:209-233 | in every interleaving a packet is dropped only by a non-blocking receiver that has not been told to stop, while the queue holds as many as it can, or, with no queue, while no worker waits |
| UdpReceiverRuns.FirstInFirstOut | utils/udp.go:254-278 | workers take packets in the order they were queued |
| UdpReceiverRuns.NeverStuck | utils/udp.go:337-356 | until Stop returns some step is enabled |
| UdpReceiverRuns.StopIsBounded | utils/udp.go:337-356 | once the connections are closed only boundedly many steps remain before Stop returns |
| UdpReceiver.ControlKept | utils/udp.go:337-356 | every step keeps the order of closing: dispatch only after all receivers returned, workers return only when it is closed and empty |
| UdpReceiver.StepConserves | utils/udp.go:192-279 | no step copies a buffer reference or loses a packet |
| PipelineRuns.DrainLosesNothing | pkg/reflow/app/app.go:144-354 | in every run no channel is sent on after it is closed or closed twice, a channel is closed only after its senders are finished, and every event taken met an outcome its stage allows: passed on, absorbed by an aggregator, or logged; at the end every worker has returned, every event that entered a channel was taken out once, everything that came in or was made entered a channel, and every aggregator was flushed once, after all it took |
| PipelineRouting.RoutedEvents | pkg/reflow/app/app.go:264-291 | at the end an aggregator was sent exactly the routed events whose filter and key it matches, each as often as it was routed, and the router sent the encoders exactly the routed events that no aggregator takes; only nil went nowhere |
| PipelineRouting.AbsorbedThenFlushed | pkg/reflow/app/app.go:209-226 | at the end every event an aggregator took came before its flush |
| PipelineOrder.FirstInFirstOut | pkg/reflow/app/app.go:144-354 | in every run, what was put into a channel is what was taken out of it, in order, then what waits |
| PipelineOrder.SendsInOrder | pkg/reflow/app/app.go:144-297 | every worker sends the events it made in the order it made them |
| PipelineOrder.EveryStageFeedsTheNext | pkg/reflow/app/app.go:144-297 | the decoder feeds the processors, these the router or, without aggregators, the encoders, aggregators and their timers the encoders; only aggregators absorb events and the router loses none |
| Pipeline.MatchingAggregateWorkers | pkg/reflow/app/app.go:521-542 | the loop finds exactly the aggregators whose filter and key match, in order, and reports a missing key exactly when none matches and one lacks a key only |
| PipelineProgress.DrainNeverBlocks | pkg/reflow/app/app.go:341-354 | from the stop of the sources to the end some step other than a timer is enabled, full channels notwithstanding |
| PipelineProgress.StepLowers | pkg/reflow/app/app.go:341-354 | after the sources have stopped every step but a timer's lowers a lexicographic measure: the caller's position, then for each stage from the left its workers, its queue and its work |
| PipelineProgress.EveryDrainEnds | pkg/reflow/app/app.go:341-354 | so from any point after which no timer fires, however the steps are chosen, the drain ends |
| PipelineProgress.DrainEnds | pkg/reflow/app/app.go:341-354 | and from every state after the stop some run without timers reaches the end |
| Pipeline.ControlKept | pkg/reflow/app/app.go:238-297 | every step keeps the closing order and the absence of panics |
| Pipeline.SendersFirst | pkg/reflow/app/app.go:289-297 | a channel is closed only after every worker that may send on it has returned, or, for an aggregator's channel, while the router winds up with nothing left to send |
| Pipeline.SendsAreOpen | pkg/reflow/app/app.go:341-354 | whatever waits to be sent goes to an open channel |
| NetFlowV5.FlowRoundTrip | pkg/reflow/encode/netflowv5.go:43-89 | the packet built for a flow decodes to the same fields, and both millisecond times are recovered if and only if the end fits the seconds field and the two are less than 2^32 ms apart |
| NetFlowV5.PacketRoundTrip | decoders/netflowlegacy/encode.go:20-136 | decoding an encoded packet of any number of records returns it with version and count filled in |
| NetFlowV5.TimesRoundTrip | pkg/reflow/encode/fields.go:174-211 | the exact condition under which uptime-relative times give back the absolute ones |
| NetFlowV5.LongFlowCollapses | pkg/reflow/encode/fields.go:174-211 | where they do not: a flow of 2^32 ms comes back as one that starts when it ends |
| NetFlowV5.EncodeMessage | decoders/netflowlegacy/encode.go:20-136 | the record loop equals the layout, count mismatches refused |
| NetFlowV5.DecodeMessageVersion | decoders/netflowlegacy/netflow.go:24-88 | the header and record loop equals the layout, records that are not there being zero |
| NetFlowV5Wire.OctetsDecode | decoders/netflowlegacy/netflow.go:38-88 | the octets of a packet, written out field by field, decode to exactly those fields; records announced and not there are zero, and a remainder shorter than 48 octets is not read |
| NetFlowV5Wire.OctetsEncode | decoders/netflowlegacy/encode.go:20-136 | the encoder writes exactly those octets |
| NetFlowV5Wire.BuiltFlow | pkg/reflow/encode/netflowv5.go:43-89 | the packet built for a flow carries its fields in their places, with the two times made relative |
| LayerChain.PacketParsed | producer/proto/producer_packet.go:404-469 | for every packet and registration, at every point of the chain, layer sizes add up to the offset and are at most one more than the layers named, and outer fields are those at the moment encapsulation was first seen |
| LayerChain.EndsUnlessLoops | producer/proto/producer_packet.go:421-467 | the chain ends if and only if it reaches no TCP header of length 0 on ports registered for the TCP parser |
| LayerChain.EveryPacketEnds | producer/proto/config_impl.go:296-308 | with IPv4 and TCP looked up as by default, every packet is parsed to an end if and only if no pair of TCP ports leads to the TCP parser |
| LayerChain.NeverEnds | producer/proto/producer_packet.go:748-775 | where it does not: a frame with a TCP header of length 0 on such ports |
| LayerChain.Progress | producer/proto/producer_packet.go:421-467 | every other layer consumes octets or lowers the parser's rank |
| LayerChain.EncapsulationFreezes | producer/proto/producer_packet.go:454-459 | once encapsulated, addresses, ports, MACs, tags and fragment fields never change |
| LayerChain.ChainTallies | producer/proto/producer_packet.go:451-466 | every step keeps the tally of sizes, offset and layers |
| LayerChain.ParsePacket | producer/proto/producer_packet.go:404-469 | for packets whose chain ends, the loop ends in the state the chain leads to |
| ChainReads.FrameIsCarried | producer/proto/producer_packet.go:404-849 | with the default registrations, any frame of the wire grammar whose layers the chain follows ends as a message with its layers and their sizes in order, and its fields those of the layers up to the first encapsulation, later ones over earlier ones |
| ChainReads.PlainFields | producer/proto/producer_packet.go:472-800 | for a frame with tags, labels, IPv4 or IPv6 and TCP or UDP: every field of the message by name; the VLAN field is the whole tag control word, and so the VLAN id if and only if priority and drop bits are zero |
| ChainReads.OptionsShownAsPorts | producer/proto/producer_packet.go:594-632 | IPv4 options are not skipped: the ports shown are their first four octets |
| BitSlice.GetBytes | producer/proto/reflect.go:14-99 | bit k of the result is bit offset + k of the data, zero past its end, with a last partial byte aligned to the right or to the left |

## Left out

- Concurrent calls of Start and Stop on one UDP receiver, and of Run's caller: one goroutine is assumed to call them.
- UdpReceiverRuns.StopIsBounded: a bound from the moment the connections are closed, not from the call of Stop; until then reads may go on.
- UDP receiver: the callback's message fields, error channel and address normalisation; a negative queue size.
- PipelineProgress.EveryDrainEnds: from a point on after which no timer fires; an endless sequence of timers is not excluded.
- Pipeline: what decoders, processors, aggregators and encoders make of an event is any outcome their stage allows; filters, keys and event kinds are parameters of routing; early returns of Run before the workers start; the sink. The router logs an event with a missing key as dropped, but the code sends it to the encoders, and so does the model.
- NetFlowDecoder.TemplateStore.AddTemplate: errors of the backing store, and its unchanged status, which only an error gives.
- NetFlow: template time-outs and errors of the template store, nil packets and nil stores, flow context other than the router, name tables and text rendering. The three template record types are one datatype, and data and options records share one; the datatype makes mismatches of the two a refusal.
- NetFlow: header fields left half-filled by a datagram that is cut inside its header.
- sFlow: fields are items in layout order instead of named struct members; records passed by reference and by value are one.
- sFlow gateway records with several AS segments, or one empty one, and agent address version 0: the encoder cannot write them, so no round trip is claimed.
- SFlowExporter: how the fields of an event become a sample, control events and the clock; an event carries its sample apart from the sequence number.
- Packet stacks: MAC text, checksums, missing layer structures, and the round trip of models that end in ICMP or carry Geneve, L2TP, GTP-U or PPPoE.
- PacketReads.GtpuRead: extension headers as the code delimits them, a type octet in front of the length, which is not the order of 3GPP TS 29.281 section 5.2.1.
- PacketReads.FrameIsShown: frames whose tunnels the options ask to open and whose ports are the ones asked for; packets that end inside a header are covered by the loop being equal to the parser, not by the grammar.
- ChainReads.FrameIsCarried: the environment with nothing registered beyond the built-in parsers, so nothing is read behind a UDP header. Outside it are what the chain does not read as its format asks: IPv4 options, GRE options, service tags, upstream labels, reserved labels above the bottom one, PPPoE, and extension headers other than routing and fragment headers.
- FlowStore: the link from an entry to its list node (the list is a sequence of keys), the sweeper goroutine, change notifications, replacing hooks during a run, and locking; Add and Set are one operation with the value's own method as a parameter.
- Aggregation: the text of floats, address family conversion, dotted field paths, schema events, the passthrough form and the timer interval. Merging of values marked with different roles under one name is modelled but nothing is claimed of it.
- AggregateOrder.OrderDoesNotMatter: equal as numbers; which of two equal values of different widths is kept does depend on the order.
- BitSlice.GetBytes: negative offsets and lengths, for which the code panics.
- LayerChain: custom field mapping and the per-layer call counter.
- LayerChain.ParsePacket: required to be given a packet whose chain ends, since the loop has no result on any other; the exact condition is stated.
- NetFlow v5: how event fields become record fields (reading, truncating, address text), the zero-time clock, and version 9 uptimes.
- Configuration, transports, formats, metrics and the rest of the producers.

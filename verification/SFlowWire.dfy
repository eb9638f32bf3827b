/**
 * sFlow version 5 datagrams as octets, field by field and by name: what every record, sample and datagram means, and
 * what the encoder writes for it.
 */
module SFlowWire {
  import opened Bytes
  import opened W = Wire
  import opened SFlowTypes
  import opened SFlowPrinter
  import opened SFlowParser
  import opened SFlowRoundTrip

  // ---------- fields ----------

  function Words32(ws: seq<u32>): bytes
  {
    if ws == [] then [] else W32(ws[0]) + Words32(ws[1..])
  }

  /** A 64-bit counter, high word first. */
  function W64(d: u64): bytes
  {
    W32(d / 4294967296) + W32(d % 4294967296)
  }

  /** A string: its length, its octets, zeros up to a multiple of four. */
  function Str(s: bytes): bytes
  {
    W32(|s|) + W.Padded(s)
  }

  /** An array of words after their number. */
  function Array(ws: seq<u32>): bytes
  {
    W32(|ws|) + Words32(ws)
  }

  datatype Addr = NoAddr | V4(ip: bytes) | V6(ip: bytes)

  predicate AddrOk(a: Addr)
  {
    match a
    case NoAddr => true
    case V4(ip) => |ip| == 4
    case V6(ip) => |ip| == 16
  }

  /** An address after its type: 0 unknown, 1 IPv4, 2 IPv6. */
  function AddrOctets(a: Addr): bytes
  {
    match a
    case NoAddr => W32(0)
    case V4(ip) => W32(1) + ip
    case V6(ip) => W32(2) + ip
  }

  function AddrItem(a: Addr): Item
  {
    match a
    case NoAddr => Address(0, [])
    case V4(ip) => Address(1, ip)
    case V6(ip) => Address(2, ip)
  }

  function SegmentsOctets(segments: seq<Segment>): bytes
  {
    if segments == [] then []
    else W32(segments[0].kind) + Array(segments[0].path) + SegmentsOctets(segments[1..])
  }

  predicate GatewayOk(path: seq<Segment>)
  {
    forall i :: 0 <= i < |path| ==> |path[i].path| <= 1000
  }

  /** A path of one segment is also given on its own. */
  function PathItem(segments: seq<Segment>): Item
    requires |segments| <= 1000 && GatewayOk(segments)
  {
    if |segments| == 1 then Path(1, segments[0].kind, |segments[0].path|, segments[0].path, segments)
    else Path(|segments|, 0, 0, [], segments)
  }

  // ---------- records ----------

  datatype NamedRecord =
    | SampledHeader(protocol: u32, frameLength: u32, stripped: u32, headerData: bytes)
    | SampledEthernet(length: u32, srcMac: bytes, dstMac: bytes, ethType: u32)
    | SampledIPv4(length: u32, protocol: u32, srcIP: bytes, dstIP: bytes, srcPort: u32, dstPort: u32, tcpFlags: u32,
                  tos: u32)
    | SampledIPv6(length: u32, protocol: u32, srcIP: bytes, dstIP: bytes, srcPort: u32, dstPort: u32, tcpFlags: u32,
                  priority: u32)
    | ExtendedSwitch(srcVlan: u32, srcPriority: u32, dstVlan: u32, dstPriority: u32)
    | ExtendedRouter(nextHop: Addr, srcMaskLen: u32, dstMaskLen: u32)
    | ExtendedGateway(nextHop: Addr, asn: u32, srcAS: u32, srcPeerAS: u32, dstASPath: seq<Segment>,
                      communities: seq<u32>, localPref: u32)
    | ExtendedMPLS(nextHop: Addr, inLabels: seq<u32>, outLabels: seq<u32>)
    | ExtendedNAT(srcAddress: Addr, dstAddress: Addr)
    | ExtendedMPLSTunnel(name: bytes, tunnelID: u32, tunnelCOS: u32)
    | ExtendedMPLSVC(name: bytes, vllVCID: u32, vcLabelCOS: u32)
    | ExtendedMPLSFTN(description: bytes, mask: u32)
    | ExtendedMPLSLDPFEC(prefixLength: u32)
    | EgressQueue(queue: u32)
    | ExtendedACL(number: u32, name: bytes, direction: u32)
    | ExtendedFunction(symbol: bytes)
    | IfCounters(ifIndex: u32, ifType: u32, ifSpeed: u64, ifDirection: u32, ifStatus: u32, inOctets: u64,
                 inUcast: u32, inMulticast: u32, inBroadcast: u32, inDiscards: u32, inErrors: u32,
                 inUnknownProtos: u32, outOctets: u64, outUcast: u32, outMulticast: u32, outBroadcast: u32,
                 outDiscards: u32, outErrors: u32, promiscuous: u32)
    | EthernetCounters(alignmentErrors: u32, fcsErrors: u32, singleCollisions: u32, multipleCollisions: u32,
                       sqeTestErrors: u32, deferred: u32, lateCollisions: u32, excessiveCollisions: u32,
                       macTransmitErrors: u32, carrierSenseErrors: u32, frameTooLongs: u32, macReceiveErrors: u32,
                       symbolErrors: u32)
    | UnknownRecord(format: u32, octets: bytes)

  /** Counter samples carry the last two named kinds, the other samples the rest. */
  predicate IsCounter(r: NamedRecord)
  {
    r.IfCounters? || r.EthernetCounters?
  }

  function FormatOf(r: NamedRecord): u32
  {
    match r
    case SampledHeader(_, _, _, _) => 1
    case SampledEthernet(_, _, _, _) => 2
    case SampledIPv4(_, _, _, _, _, _, _, _) => 3
    case SampledIPv6(_, _, _, _, _, _, _, _) => 4
    case ExtendedSwitch(_, _, _, _) => 1001
    case ExtendedRouter(_, _, _) => 1002
    case ExtendedGateway(_, _, _, _, _, _, _) => 1003
    case ExtendedMPLS(_, _, _) => 1006
    case ExtendedNAT(_, _) => 1007
    case ExtendedMPLSTunnel(_, _, _) => 1008
    case ExtendedMPLSVC(_, _, _) => 1009
    case ExtendedMPLSFTN(_, _) => 1010
    case ExtendedMPLSLDPFEC(_) => 1011
    case EgressQueue(_) => 1036
    case ExtendedACL(_, _, _) => 1037
    case ExtendedFunction(_) => 1038
    case IfCounters(_, _, _, _, _, _, _, _, _, _, _, _, _, _, _, _, _, _, _) => 1
    case EthernetCounters(_, _, _, _, _, _, _, _, _, _, _, _, _) => 2
    case UnknownRecord(format, _) => format
  }

  /** Fixed sizes, and the limits the decoder sets: strings below 2^32 octets, arrays of at most 1000 words. */
  predicate FieldsOk(r: NamedRecord)
  {
    match r
    case SampledHeader(_, _, _, data) => |data| < 4294967296
    case SampledEthernet(_, src, dst, _) => |src| == 6 && |dst| == 6
    case SampledIPv4(_, _, src, dst, _, _, _, _) => |src| == 4 && |dst| == 4
    case SampledIPv6(_, _, src, dst, _, _, _, _) => |src| == 16 && |dst| == 16
    case ExtendedRouter(nextHop, _, _) => AddrOk(nextHop)
    case ExtendedGateway(nextHop, _, _, _, path, communities, _) =>
      AddrOk(nextHop) && |path| <= 1000 && |communities| <= 1000 && GatewayOk(path)
    case ExtendedMPLS(nextHop, inLabels, outLabels) => AddrOk(nextHop) && |inLabels| <= 1000 && |outLabels| <= 1000
    case ExtendedNAT(src, dst) => AddrOk(src) && AddrOk(dst)
    case ExtendedMPLSTunnel(name, _, _) => |name| < 4294967296
    case ExtendedMPLSVC(name, _, _) => |name| < 4294967296
    case ExtendedMPLSFTN(description, _) => |description| < 4294967296
    case ExtendedACL(_, name, _) => |name| < 4294967296
    case ExtendedFunction(symbol) => |symbol| < 4294967296
    case _ => true
  }

  /** One field: what the decoder makes of it, nothing for a gap, and its octets. */
  datatype Part = Part(item: Option<Item>, octets: bytes)

  function WordPart(w: u32): Part { Part(Some(Word(w)), W32(w)) }

  function LongPart(d: u64): Part { Part(Some(Long(d)), W64(d)) }

  function FixedPart(b: bytes): Part { Part(Some(Fixed(b)), b) }

  const GAP := Part(None, [0, 0])

  function StrPart(b: bytes): Part { Part(Some(Opaque(b)), Str(b)) }

  function ArrayPart(ws: seq<u32>): Part { Part(Some(Vector(ws)), Array(ws)) }

  function AddrPart(a: Addr): Part { Part(Some(AddrItem(a)), AddrOctets(a)) }

  /** The fields of every record, in the order they are sent and in which the decoder shows them. */
  function PartsOf(r: NamedRecord): seq<Part>
    requires FieldsOk(r) && !r.UnknownRecord?
  {
    match r
    case SampledHeader(protocol, frameLength, stripped, data) =>
      [WordPart(protocol), WordPart(frameLength), WordPart(stripped),
       Part(Some(Header(|data|, data)), W32(|data|) + W.Padded(data))]
    case SampledEthernet(length, src, dst, ethType) =>
      [WordPart(length), FixedPart(src), GAP, FixedPart(dst), GAP, WordPart(ethType)]
    case SampledIPv4(length, protocol, src, dst, srcPort, dstPort, flags, tos) =>
      [WordPart(length), WordPart(protocol), FixedPart(src), FixedPart(dst), WordPart(srcPort), WordPart(dstPort),
       WordPart(flags), WordPart(tos)]
    case SampledIPv6(length, protocol, src, dst, srcPort, dstPort, flags, priority) =>
      [WordPart(length), WordPart(protocol), FixedPart(src), FixedPart(dst), WordPart(srcPort), WordPart(dstPort),
       WordPart(flags), WordPart(priority)]
    case ExtendedSwitch(srcVlan, srcPriority, dstVlan, dstPriority) =>
      [WordPart(srcVlan), WordPart(srcPriority), WordPart(dstVlan), WordPart(dstPriority)]
    case ExtendedRouter(nextHop, srcMask, dstMask) => [AddrPart(nextHop), WordPart(srcMask), WordPart(dstMask)]
    case ExtendedGateway(nextHop, asn, srcAS, srcPeerAS, path, communities, localPref) =>
      [AddrPart(nextHop), WordPart(asn), WordPart(srcAS), WordPart(srcPeerAS),
       Part(Some(PathItem(path)), W32(|path|) + SegmentsOctets(path)),
       Part(Some(Counted(|communities|, communities)), Array(communities)), WordPart(localPref)]
    case ExtendedMPLS(nextHop, inLabels, outLabels) => [AddrPart(nextHop), ArrayPart(inLabels), ArrayPart(outLabels)]
    case ExtendedNAT(src, dst) => [AddrPart(src), AddrPart(dst)]
    case ExtendedMPLSTunnel(name, id, cos) => [StrPart(name), WordPart(id), WordPart(cos)]
    case ExtendedMPLSVC(name, id, cos) => [StrPart(name), WordPart(id), WordPart(cos)]
    case ExtendedMPLSFTN(description, mask) => [StrPart(description), WordPart(mask)]
    case ExtendedMPLSLDPFEC(prefixLength) => [WordPart(prefixLength)]
    case EgressQueue(queue) => [WordPart(queue)]
    case ExtendedACL(number, name, direction) => [WordPart(number), StrPart(name), WordPart(direction)]
    case ExtendedFunction(symbol) => [StrPart(symbol)]
    case IfCounters(ifIndex, ifType, ifSpeed, ifDirection, ifStatus, inOctets, inUcast, inMulticast, inBroadcast,
                    inDiscards, inErrors, inUnknown, outOctets, outUcast, outMulticast, outBroadcast, outDiscards,
                    outErrors, promiscuous) =>
      [WordPart(ifIndex), WordPart(ifType), LongPart(ifSpeed), WordPart(ifDirection), WordPart(ifStatus),
       LongPart(inOctets), WordPart(inUcast), WordPart(inMulticast), WordPart(inBroadcast), WordPart(inDiscards),
       WordPart(inErrors), WordPart(inUnknown), LongPart(outOctets), WordPart(outUcast), WordPart(outMulticast),
       WordPart(outBroadcast), WordPart(outDiscards), WordPart(outErrors), WordPart(promiscuous)]
    case EthernetCounters(alignment, fcs, single, multiple, sqe, deferred, late, excessive, transmit, carrier, tooLong,
                          receive, symbol) =>
      [WordPart(alignment), WordPart(fcs), WordPart(single), WordPart(multiple), WordPart(sqe), WordPart(deferred),
       WordPart(late), WordPart(excessive), WordPart(transmit), WordPart(carrier), WordPart(tooLong),
       WordPart(receive), WordPart(symbol)]
  }

  function ItemsIn(parts: seq<Part>): seq<Item>
  {
    if parts == [] then []
    else (if parts[0].item.Some? then [parts[0].item.value] else []) + ItemsIn(parts[1..])
  }

  function OctetsIn(parts: seq<Part>): bytes
  {
    if parts == [] then [] else parts[0].octets + OctetsIn(parts[1..])
  }

  function Octets(r: NamedRecord): bytes
    requires FieldsOk(r)
  {
    if r.UnknownRecord? then r.octets else OctetsIn(PartsOf(r))
  }

  function DataOf(r: NamedRecord): Data
    requires FieldsOk(r)
  {
    if r.UnknownRecord? then Raw(r.octets) else Typed(FormatOf(r), ItemsIn(PartsOf(r)))
  }

  /** What may stand in a sample: records of its family, or of a format that has no structure here. */
  predicate Belongs(counter: bool, r: NamedRecord)
  {
    if r.UnknownRecord? then
      r.format >= 4096
      || (if counter then r.format != 1 && r.format != 2
          else r.format !in {1, 2, 3, 4, 1001, 1002, 1003, 1006, 1007, 1008, 1009, 1010, 1011, 1036, 1037, 1038})
    else IsCounter(r) == counter
  }

  // ---------- how fields are read and written ----------

  /** How the codec describes a field. */
  function ShapeOf(p: Part): Shape
  {
    match p.item
    case None => SGap(|p.octets|)
    case Some(Word(_)) => SWord
    case Some(Long(_)) => SLong
    case Some(Fixed(b)) => SFixed(|b|)
    case Some(Opaque(_)) => SOpaque
    case Some(Vector(_)) => SVector
    case Some(Counted(_, _)) => SCounted
    case Some(Address(_, _)) => SAddress
    case Some(Path(_, _, _, _, _)) => SPath
    case Some(Header(_, _)) => SHeader
  }

  predicate Sound(p: Part)
  {
    match p.item
    case None => p.octets == [0, 0]
    case Some(Word(w)) => p.octets == W32(w)
    case Some(Long(d)) => p.octets == W64(d)
    case Some(Fixed(b)) => p.octets == b
    case Some(Opaque(b)) => |b| < 4294967296 && p.octets == Str(b)
    case Some(Vector(ws)) => |ws| <= 1000 && p.octets == Array(ws)
    case Some(Counted(n, ws)) => |ws| <= 1000 && n == |ws| && p.octets == Array(ws)
    case Some(Address(v, ip)) =>
      || (v == 0 && ip == [] && p.octets == W32(0))
      || (v == 1 && |ip| == 4 && p.octets == W32(1) + ip)
      || (v == 2 && |ip| == 16 && p.octets == W32(2) + ip)
    case Some(Path(_, _, _, _, segments)) =>
      && |segments| <= 1000 && GatewayOk(segments) && p.item.value == PathItem(segments)
      && p.octets == W32(|segments|) + SegmentsOctets(segments)
    case Some(Header(n, b)) => |b| < 4294967296 && n == |b| && p.octets == W32(|b|) + W.Padded(b)
  }

  lemma {:induction false} Words32Are(ws: seq<u32>)
    ensures WordBytes(ws) == Words32(ws)
  {
    hide W32, U32;
    if ws != [] {
      WordsAreBigEndian(0, ws[0]);
      Words32Are(ws[1..]);
    }
  }

  lemma PaddedHere(b: bytes)
    ensures W.Padded(b) == b + Zeros(Pad4(|b|))
  {
    PaddedIs(b, Pad4(|b|));
  }

  lemma ArrayReads(ws: seq<u32>, rest: bytes)
    requires |ws| <= 1000
    ensures ReadVector(Array(ws) + rest) == Some(Read(ws, rest))
  {
    hide W32, U32, ReadVector, WordBytes, Words32, Len;
    LenIs(|ws|);
    WordsAreBigEndian(0, |ws|);
    Words32Are(ws);
    VectorReads(ws, rest);
  }

  lemma W32Reads(w: u32, rest: bytes)
    ensures ReadWord(W32(w) + rest) == Some(Read(w, rest))
  {
    WordsAreBigEndian(0, w);
    WordReads(w, rest);
  }

  lemma {:induction false} SegmentsRead(segments: seq<Segment>, rest: bytes)
    requires GatewayOk(segments)
    ensures ReadSegments(|segments|, SegmentsOctets(segments) + rest) == Some(Read(segments, rest))
    decreases |segments|
  {
    hide W32, Array, ReadWord, ReadVector;
    if segments == [] {
      Empty(rest);
    } else {
      var s, more := segments[0], SegmentsOctets(segments[1..]);
      Assoc(W32(s.kind) + Array(s.path), more, rest);
      Assoc(W32(s.kind), Array(s.path), more + rest);
      W32Reads(s.kind, Array(s.path) + (more + rest));
      ArrayReads(s.path, more + rest);
      SegmentsRead(segments[1..], rest);
      assert [s] + segments[1..] == segments;
    }
  }

  lemma PathIs(segments: seq<Segment>)
    requires |segments| <= 1000 && GatewayOk(segments)
    ensures PathOf(segments) == PathItem(segments)
  {
  }

  lemma PathReads(data: bytes, n: u32, segments: seq<Segment>, mid: bytes, rest: bytes)
    requires n <= 1000 && ReadWord(data) == Some(Read(n, mid)) && ReadSegments(n, mid) == Some(Read(segments, rest))
    ensures ReadPath(data) == Some(Read(PathOf(segments), rest))
  {
    hide ReadWord, ReadSegments, PathOf;
  }

  lemma PathPartReads(segments: seq<Segment>, rest: bytes)
    requires |segments| <= 1000 && GatewayOk(segments)
    ensures ReadPath(W32(|segments|) + SegmentsOctets(segments) + rest) == Some(Read(PathItem(segments), rest))
  {
    hide *;
    var n, octets := W32(|segments|), SegmentsOctets(segments);
    Assoc(n, octets, rest);
    W32Reads(|segments|, octets + rest);
    SegmentsRead(segments, rest);
    PathReads(n + (octets + rest), |segments|, segments, octets + rest, rest);
    PathIs(segments);
  }

  lemma W64Is(d: u64)
    ensures W64(d) == U64(d)
  {
    hide W32, U32;
    WordsAreBigEndian(0, d / 4294967296);
    WordsAreBigEndian(0, d % 4294967296);
  }

  lemma StrReads(b: bytes, rest: bytes)
    requires |b| < 4294967296
    ensures ReadWord(Str(b) + rest) == Some(Read(|b| as u32, W.Padded(b) + rest))
    ensures ReadPadded(|b|, W.Padded(b) + rest) == Some(Read(b, rest))
  {
    hide W32, ReadWord, W.Padded, ReadPadded;
    Assoc(W32(|b|), W.Padded(b), rest);
    W32Reads(|b|, W.Padded(b) + rest);
    PaddedHere(b);
    PaddedRead(b, rest);
  }

  lemma PaddedSize(b: bytes)
    ensures |W.Padded(b)| >= |b|
  {
  }

  lemma AddressPartReads(p: Part, rest: bytes)
    requires p.item.Some? && p.item.value.Address? && Sound(p)
    ensures ReadAddress(p.octets + rest) == Some(Read(p.item.value, rest))
  {
    hide W32, ReadWord;
    var Address(v, ip) := p.item.value;
    W32Reads(v, ip + rest);
    if v == 0 {
      Empty(rest);
    } else {
      Assoc(W32(v), ip, rest);
      OctetsRead(ip, rest);
    }
  }

  lemma PartReads(p: Part, rest: bytes)
    requires Sound(p)
    ensures var r := ReadItem(ShapeOf(p), p.octets + rest);
            r.Some? && r.value.rest == rest && (p.item.Some? ==> r.value.value == p.item.value)
  {
    hide ReadVector, ReadAddress, ReadPath, ReadWords, ReadPadded, ReadWord, W32, W64, U64, Str, Array, W.Padded, Pad4,
         SegmentsOctets, PathItem, Len, GatewayOk, ReadHeader;
    match p.item {
      case None => OctetsRead(p.octets, rest);
      case Some(Word(w)) => W32Reads(w, rest);
      case Some(Long(d)) => W64Is(d); LongReads(d, rest);
      case Some(Fixed(b)) => OctetsRead(b, rest);
      case Some(Opaque(b)) => StrReads(b, rest);
      case Some(Vector(ws)) => ArrayReads(ws, rest);
      case Some(Counted(_, ws)) => ArrayReads(ws, rest); LenIs(|ws|);
      case Some(Address(_, _)) => AddressPartReads(p, rest);
      case Some(Path(_, _, _, _, segments)) => PathPartReads(segments, rest);
      case Some(Header(_, b)) => HeaderPartReads(b, rest);
    }
  }

  lemma HeaderPartReads(b: bytes, rest: bytes)
    requires |b| < 4294967296
    ensures ReadHeader(W32(|b|) + W.Padded(b) + rest) == Some(Read(Header(|b|, b), rest))
  {
    hide W32, ReadWord, W.Padded, ReadPadded;
    StrReads(b, rest);
    PaddedSize(b);
  }

  function ShapesIn(parts: seq<Part>): seq<Shape>
  {
    seq(|parts|, i requires 0 <= i < |parts| => ShapeOf(parts[i]))
  }

  predicate AllSound(parts: seq<Part>)
  {
    forall i :: 0 <= i < |parts| ==> Sound(parts[i])
  }

  /** Fields one after the other are read one after the other; what follows them is ignored. */
  lemma {:induction false} PartsRead(parts: seq<Part>, rest: bytes)
    requires AllSound(parts)
    ensures ReadItems(ShapesIn(parts), OctetsIn(parts) + rest) == Some(ItemsIn(parts))
    decreases |parts|
  {
    hide ReadItem, Sound;
    if parts != [] {
      var p, more := parts[0], OctetsIn(parts[1..]);
      Assoc(p.octets, more, rest);
      PartReads(p, more + rest);
      PartsRead(parts[1..], rest);
      assert ShapesIn(parts)[1..] == ShapesIn(parts[1..]);
      Empty(ItemsIn(parts[1..]));
    }
  }

  /** The fields are sound and the codec lays them out in this order. */
  predicate LaidOut(kind: SampleKind, r: NamedRecord)
    requires FieldsOk(r) && !r.UnknownRecord?
  {
    AllSound(PartsOf(r)) && ShapesOf(kind, FormatOf(r)) == Some(ShapesIn(PartsOf(r)))
  }

  lemma CountersLaidOut(r: NamedRecord)
    requires r.IfCounters?
    ensures LaidOut(Counter, r)
  {
    hide W32, W64;
    assert ShapesOf(Counter, FormatOf(r)).value == ShapesIn(PartsOf(r));
  }

  lemma EthernetLaidOut(r: NamedRecord)
    requires r.EthernetCounters?
    ensures LaidOut(Counter, r)
  {
    hide W32;
    assert ShapesOf(Counter, FormatOf(r)).value == ShapesIn(PartsOf(r));
  }

  lemma SampledLaidOut(kind: SampleKind, r: NamedRecord)
    requires kind != Counter && FieldsOk(r)
             && (r.SampledHeader? || r.SampledEthernet? || r.SampledIPv4? || r.SampledIPv6?)
    ensures LaidOut(kind, r)
  {
    hide W32, W.Padded;
    assert ShapesOf(kind, FormatOf(r)).value == ShapesIn(PartsOf(r));
  }

  lemma GatewayLaidOut(kind: SampleKind, r: NamedRecord)
    requires kind != Counter && FieldsOk(r) && r.ExtendedGateway?
    ensures LaidOut(kind, r)
  {
    hide W32, Array, SegmentsOctets, GatewayOk;
    assert ShapesOf(kind, FormatOf(r)).value == ShapesIn(PartsOf(r));
  }

  lemma RoutingLaidOut(kind: SampleKind, r: NamedRecord)
    requires kind != Counter && FieldsOk(r) && (r.ExtendedSwitch? || r.ExtendedRouter?)
    ensures LaidOut(kind, r)
  {
    hide W32;
    assert ShapesOf(kind, FormatOf(r)).value == ShapesIn(PartsOf(r));
  }

  lemma LabelsLaidOut(kind: SampleKind, r: NamedRecord)
    requires kind != Counter && FieldsOk(r) && (r.ExtendedMPLS? || r.ExtendedNAT?)
    ensures LaidOut(kind, r)
  {
    hide W32, Array;
    assert ShapesOf(kind, FormatOf(r)).value == ShapesIn(PartsOf(r));
  }

  lemma TunnelLaidOut(kind: SampleKind, r: NamedRecord)
    requires kind != Counter && FieldsOk(r)
    requires r.ExtendedMPLSTunnel? || r.ExtendedMPLSVC? || r.ExtendedMPLSFTN? || r.ExtendedMPLSLDPFEC?
    ensures LaidOut(kind, r)
  {
    hide W32, Str;
    assert ShapesOf(kind, FormatOf(r)).value == ShapesIn(PartsOf(r));
  }

  lemma OthersLaidOut(kind: SampleKind, r: NamedRecord)
    requires kind != Counter && FieldsOk(r) && (r.EgressQueue? || r.ExtendedACL? || r.ExtendedFunction?)
    ensures LaidOut(kind, r)
  {
    hide W32, Str;
    assert ShapesOf(kind, FormatOf(r)).value == ShapesIn(PartsOf(r));
  }

  lemma Layouts(kind: SampleKind, r: NamedRecord)
    requires FieldsOk(r) && !r.UnknownRecord? && IsCounter(r) == kind.Counter?
    ensures LaidOut(kind, r)
  {
    hide FieldsOk, LaidOut;
    if r.IfCounters? {
      CountersLaidOut(r);
    } else if r.EthernetCounters? {
      EthernetLaidOut(r);
    } else if r.SampledHeader? || r.SampledEthernet? || r.SampledIPv4? || r.SampledIPv6? {
      SampledLaidOut(kind, r);
    } else if r.ExtendedGateway? {
      GatewayLaidOut(kind, r);
    } else if r.ExtendedSwitch? || r.ExtendedRouter? {
      RoutingLaidOut(kind, r);
    } else if r.ExtendedMPLS? || r.ExtendedNAT? {
      LabelsLaidOut(kind, r);
    } else if r.ExtendedMPLSTunnel? || r.ExtendedMPLSVC? || r.ExtendedMPLSFTN? || r.ExtendedMPLSLDPFEC? {
      TunnelLaidOut(kind, r);
    } else {
      OthersLaidOut(kind, r);
    }
  }

  // ---------- a record ----------

  lemma UnknownFormats(kind: SampleKind, format: u32)
    requires Belongs(kind.Counter?, UnknownRecord(format, []))
    ensures Enterprise(format) != 0 || ShapesOf(kind, format).None?
  {
  }

  lemma KnownFormats(r: NamedRecord)
    requires !r.UnknownRecord?
    ensures Enterprise(FormatOf(r)) == 0
  {
  }

  /** Every record is read as its fields, in their places, whatever follows it in its payload. */
  lemma RecordIsRead(kind: SampleKind, r: NamedRecord, rest: bytes)
    requires FieldsOk(r) && Belongs(kind.Counter?, r) && (r.UnknownRecord? ==> rest == [])
    ensures ReadData(kind, FormatOf(r), Octets(r) + rest) == Some(DataOf(r))
  {
    hide ShapesOf, ReadItems, PartsOf, ItemsIn, OctetsIn, Enterprise, ShapesIn;
    if r.UnknownRecord? {
      Empty(r.octets);
      UnknownFormats(kind, r.format);
    } else {
      Layouts(kind, r);
      KnownFormats(r);
      PartsRead(PartsOf(r), rest);
    }
  }

  // ---------- writing ----------

  /** The encoder writes AS paths of no segment, or of one that is not empty. */
  predicate Writable(r: NamedRecord)
  {
    && (r.ExtendedGateway? ==> r.dstASPath == [] || (|r.dstASPath| == 1 && r.dstASPath[0].path != []))
    && (r.UnknownRecord? ==> r.format != 0)
  }

  predicate WritablePart(p: Part)
  {
    p.item.Some? && p.item.value.Path? ==>
      p.item.value.segments == [] || (|p.item.value.segments| == 1 && p.item.value.segments[0].path != [])
  }

  lemma OneSegmentOctets(s: Segment)
    ensures SegmentsOctets([s]) == W32(s.kind) + (W32(|s.path|) + Words32(s.path)) && SegmentsOctets([]) == []
  {
    hide W32, Words32;
    assert [s][1..] == [];
    Empty(W32(s.kind) + Array(s.path));
  }

  lemma PathEncoded(d: u32, t: u32, n: u32, path: seq<u32>, segments: seq<Segment>)
    requires n == |path|
    ensures EncodeItem(SPath, Path(d, t, n, path, segments))
            == Some(if path == [] then U32(d) else U32(d) + (U32(t) + (U32(n) + WordBytes(path))))
  {
    hide U32, WordBytes, Len;
  }

  lemma PathPartWrites(segments: seq<Segment>)
    requires GatewayOk(segments) && (segments == [] || (|segments| == 1 && segments[0].path != []))
    ensures EncodeItem(SPath, PathItem(segments)) == Some(W32(|segments|) + SegmentsOctets(segments))
  {
    hide W32, U32, WordBytes, Words32, SegmentsOctets, EncodeItem;
    var n := |segments|;
    WordsAreBigEndian(0, n);
    if segments == [] {
      OneSegmentOctets(Segment(0, []));
      Empty(W32(n));
      PathEncoded(n, 0, 0, [], segments);
    } else {
      var s := segments[0];
      assert segments == [s];
      OneSegmentOctets(s);
      WordsAreBigEndian(0, s.kind);
      WordsAreBigEndian(0, |s.path|);
      Words32Are(s.path);
      PathEncoded(n, s.kind, |s.path|, s.path, segments);
    }
  }

  lemma PartWrites(p: Part)
    requires Sound(p) && WritablePart(p) && p.item.Some?
    ensures EncodeItem(ShapeOf(p), p.item.value) == Some(p.octets)
  {
    hide W32, U32, U64, W64, WordBytes, Words32, Zeros, Pad4, W.Padded, SegmentsOctets, PathItem, GatewayOk, EncodePath,
         Len;
    match p.item.value {
      case Word(w) => WordsAreBigEndian(0, w);
      case Long(d) => W64Is(d);
      case Fixed(b) =>
      case Opaque(b) => LenIs(|b|); WordsAreBigEndian(0, |b|); PaddedHere(b);
      case Vector(ws) => LenIs(|ws|); WordsAreBigEndian(0, |ws|); Words32Are(ws);
      case Counted(n, ws) => LenIs(|ws|); WordsAreBigEndian(0, |ws|); Words32Are(ws);
      case Address(v, _) => WordsAreBigEndian(0, v);
      case Path(_, _, _, _, segments) => PathPartWrites(segments);
      case Header(n, b) => WordsAreBigEndian(0, n); PaddedHere(b);
    }
  }

  lemma {:induction false} PartsWrite(parts: seq<Part>)
    requires AllSound(parts) && forall i :: 0 <= i < |parts| ==> WritablePart(parts[i])
    ensures EncodeItems(ShapesIn(parts), ItemsIn(parts)) == Some(OctetsIn(parts))
    decreases |parts|
  {
    hide EncodeItem, Sound, WritablePart;
    if parts != [] {
      var p, shapes, items := parts[0], ShapesIn(parts), ItemsIn(parts);
      PartsWrite(parts[1..]);
      assert shapes[1..] == ShapesIn(parts[1..]);
      if p.item.Some? {
        PartWrites(p);
        NoGap(p);
        assert items[1..] == ItemsIn(parts[1..]);
      } else {
        GapIs(p);
        Empty(ItemsIn(parts[1..]));
      }
    }
  }

  lemma NoGap(p: Part)
    requires p.item.Some?
    ensures !ShapeOf(p).SGap?
  {
  }

  lemma GapIs(p: Part)
    requires p.item.None? && Sound(p)
    ensures ShapeOf(p) == SGap(2) && Zeros(2) == p.octets
  {
    assert Zeros(2) == [0, 0];
  }

  lemma PartsWritable(r: NamedRecord)
    requires FieldsOk(r) && !r.UnknownRecord? && Writable(r)
    ensures forall i :: 0 <= i < |PartsOf(r)| ==> WritablePart(PartsOf(r)[i])
  {
    hide W32, W64, Str, Array, W.Padded, SegmentsOctets, GatewayOk;
    if !r.ExtendedGateway? {
      forall i | 0 <= i < |PartsOf(r)| ensures WritablePart(PartsOf(r)[i]) { NoPath(r, i); }
    }
  }

  lemma NoPath(r: NamedRecord, i: nat)
    requires FieldsOk(r) && !r.UnknownRecord? && !r.ExtendedGateway? && i < |PartsOf(r)|
    ensures PartsOf(r)[i].item.Some? ==> !PartsOf(r)[i].item.value.Path?
  {
    hide W32, W64, Str, Array, W.Padded;
  }

  /** And written from them. */
  lemma RecordIsWritten(kind: SampleKind, r: NamedRecord)
    requires FieldsOk(r) && Belongs(kind.Counter?, r) && Writable(r)
    ensures EncodeData(kind, DataOf(r)) == Some(Octets(r))
  {
    hide ShapesOf, EncodeItems, PartsOf, ItemsIn, OctetsIn, ShapesIn, WritablePart;
    if !r.UnknownRecord? {
      Layouts(kind, r);
      PartsWritable(r);
      PartsWrite(PartsOf(r));
    }
  }

  // ---------- samples ----------

  datatype NamedSample =
    | FlowSample(seqNo: u32, sourceType: u32, sourceValue: u32, samplingRate: u32, samplePool: u32, drops: u32,
                 input: u32, output: u32, records: seq<NamedRecord>)
    | CounterSample(expanded: bool, seqNo: u32, sourceType: u32, sourceValue: u32, records: seq<NamedRecord>)
    | ExpandedFlowSample(seqNo: u32, sourceType: u32, sourceValue: u32, samplingRate: u32, samplePool: u32, drops: u32,
                         inputFormat: u32, inputValue: u32, outputFormat: u32, outputValue: u32,
                         records: seq<NamedRecord>)
    | DropSample(seqNo: u32, sourceType: u32, sourceValue: u32, drops: u32, input: u32, output: u32, reason: u32,
                 records: seq<NamedRecord>)
    | UnknownSample(format: u32, octets: bytes)

  function FormatOfSample(s: NamedSample): u32
  {
    match s
    case FlowSample(_, _, _, _, _, _, _, _, _) => 1
    case CounterSample(expanded, _, _, _, _) => if expanded then 4 else 2
    case ExpandedFlowSample(_, _, _, _, _, _, _, _, _, _, _) => 3
    case DropSample(_, _, _, _, _, _, _, _) => 5
    case UnknownSample(format, _) => format
  }

  function KindOfSample(s: NamedSample): SampleKind
    requires !s.UnknownSample?
  {
    match s
    case FlowSample(_, _, _, _, _, _, _, _, _) => Flow
    case CounterSample(_, _, _, _, _) => Counter
    case ExpandedFlowSample(_, _, _, _, _, _, _, _, _, _, _) => ExpandedFlow
    case DropSample(_, _, _, _, _, _, _, _) => Drop
  }

  /** Flow and counter samples hold their source in one word, the type in its high octet. */
  predicate OneWordSource(s: NamedSample)
  {
    s.FlowSample? || (s.CounterSample? && !s.expanded)
  }

  function SourceWords(s: NamedSample): seq<u32>
    requires !s.UnknownSample? && (OneWordSource(s) ==> s.sourceType < 256 && s.sourceValue < 16777216)
  {
    if OneWordSource(s) then [s.sourceType * 16777216 + s.sourceValue] else [s.sourceType, s.sourceValue]
  }

  /** The words between the source and the number of records. */
  function Counters(s: NamedSample): seq<u32>
    requires !s.UnknownSample?
  {
    match s
    case FlowSample(_, _, _, rate, pool, drops, input, output, _) => [rate, pool, drops, input, output]
    case CounterSample(_, _, _, _, _) => []
    case ExpandedFlowSample(_, _, _, rate, pool, drops, inFormat, inValue, outFormat, outValue, _) =>
      [rate, pool, drops, inFormat, inValue, outFormat, outValue]
    case DropSample(_, _, _, drops, input, output, reason, _) => [drops, input, output, reason]
  }

  predicate RecordFits(counter: bool, r: NamedRecord)
  {
    FieldsOk(r) && Belongs(counter, r) && |Octets(r)| < 4294967296
  }

  predicate RecordsFit(counter: bool, rs: seq<NamedRecord>)
  {
    forall i :: 0 <= i < |rs| ==> RecordFits(counter, rs[i])
  }

  /** Each record after its format and its length. */
  function RecordsOctets(counter: bool, rs: seq<NamedRecord>): bytes
    requires RecordsFit(counter, rs)
  {
    if rs == [] then []
    else W32(FormatOf(rs[0])) + (W32(|Octets(rs[0])|) + Octets(rs[0])) + RecordsOctets(counter, rs[1..])
  }

  /** Known formats have no more than 1000 records that belong, and a source that fits. */
  predicate WellMade(s: NamedSample)
  {
    if s.UnknownSample? then s.format !in {1, 2, 3, 4, 5}
    else
      && |s.records| <= 1000 && RecordsFit(s.CounterSample?, s.records)
      && (OneWordSource(s) ==> s.sourceType < 256 && s.sourceValue < 16777216)
  }

  /** Sequence number, source, counters, number of records, records. */
  function SampleBody(s: NamedSample): bytes
    requires WellMade(s)
  {
    if s.UnknownSample? then s.octets
    else
      Words32([s.seqNo] + SourceWords(s) + Counters(s) + [|s.records|])
      + RecordsOctets(s.CounterSample?, s.records)
  }

  predicate SampleFits(s: NamedSample)
  {
    WellMade(s) && |SampleBody(s)| < 4294967296
  }

  function RecordOf(r: NamedRecord): Record
    requires FieldsOk(r) && |Octets(r)| < 4294967296
  {
    Record(FormatOf(r), |Octets(r)|, DataOf(r))
  }

  function RecordsOf(counter: bool, rs: seq<NamedRecord>): (r: seq<Record>)
    requires RecordsFit(counter, rs)
    ensures |r| == |rs|
  {
    if rs == [] then [] else [RecordOf(rs[0])] + RecordsOf(counter, rs[1..])
  }

  /** Where the decoder puts every value. */
  function SampleOf(s: NamedSample): Sample
    requires SampleFits(s)
  {
    var length := |SampleBody(s)|;
    if s.UnknownSample? then RawSample(SampleHeader(s.format, length, 0, 0, 0), s.octets)
    else
      Sample(KindOfSample(s), SampleHeader(FormatOfSample(s), length, s.seqNo, s.sourceType, s.sourceValue),
             Counters(s), |s.records|, RecordsOf(s.CounterSample?, s.records))
  }

  lemma BlockOctets(format: u32, payload: bytes)
    requires |payload| < 4294967296
    ensures Block(format, payload) == W32(format) + (W32(|payload|) + payload)
  {
    hide W32, U32, Len;
    LenIs(|payload|);
    WordsAreBigEndian(0, format);
    WordsAreBigEndian(0, |payload|);
  }

  lemma {:induction false} RecordsAreRead(kind: SampleKind, rs: seq<NamedRecord>, rest: bytes)
    requires RecordsFit(kind.Counter?, rs)
    ensures ReadRecords(kind, |rs|, RecordsOctets(kind.Counter?, rs) + rest) == Some(RecordsOf(kind.Counter?, rs))
    decreases |rs|
  {
    hide ReadData, Octets, DataOf, FormatOf, W32, FieldsOk, Belongs, Block, ReadRecords;
    if rs == [] {
      NoRecordsRead(kind, RecordsOctets(kind.Counter?, rs) + rest);
    } else {
      var r, more := rs[0], RecordsOctets(kind.Counter?, rs[1..]);
      assert RecordFits(kind.Counter?, r);
      RecordIsRead(kind, r, []);
      Empty(Octets(r));
      BlockOctets(FormatOf(r), Octets(r));
      Assoc(W32(FormatOf(r)) + (W32(|Octets(r)|) + Octets(r)), more, rest);
      RecordsAreRead(kind, rs[1..], rest);
      NextRecord(kind, |rs|, FormatOf(r), Octets(r), more + rest, DataOf(r));
    }
  }

  lemma {:induction false} WordsSplit(a: seq<u32>, b: seq<u32>)
    ensures Words32(a + b) == Words32(a) + Words32(b)
  {
    hide W32;
    if a == [] {
      Empty(b);
      Empty(Words32(b));
    } else {
      assert (a + b)[1..] == a[1..] + b;
      WordsSplit(a[1..], b);
      Assoc(W32(a[0]), Words32(a[1..]), Words32(b));
    }
  }

  lemma OneWord(w: u32)
    ensures Words32([w]) == W32(w)
  {
    hide W32;
    assert [w][1..] == [];
    Empty(W32(w));
  }

  lemma Words32Read(ws: seq<u32>, rest: bytes)
    ensures ReadWords(|ws|, Words32(ws) + rest) == Some(Read(ws, rest))
  {
    Words32Are(ws);
    WordsRead(ws, rest);
  }

  lemma SourceIsRead(s: NamedSample, rest: bytes)
    requires !s.UnknownSample? && (OneWordSource(s) ==> s.sourceType < 256 && s.sourceValue < 16777216)
    ensures ReadSource(FormatOfSample(s), Words32(SourceWords(s)) + rest)
            == Some(Read((s.sourceType, s.sourceValue), rest))
  {
    hide ReadWord, ReadWords, Words32, W32;
    if OneWordSource(s) {
      OneWord(s.sourceType * 16777216 + s.sourceValue);
      W32Reads(s.sourceType * 16777216 + s.sourceValue, rest);
      SourceWordSplits(s.sourceType, s.sourceValue);
    } else {
      Words32Read([s.sourceType, s.sourceValue], rest);
    }
  }

  lemma SourceWordSplits(t: u32, v: u32)
    requires t < 256 && v < 16777216
    ensures (t * 16777216 + v) / 16777216 == t && (t * 16777216 + v) % 16777216 == v
  {
  }

  lemma BodySplit(s: NamedSample)
    requires !s.UnknownSample? && SampleFits(s)
    ensures SampleBody(s)
            == W32(s.seqNo) + (Words32(SourceWords(s)) + (Words32(Counters(s))
               + (W32(|s.records|) + RecordsOctets(s.CounterSample?, s.records))))
  {
    hide W32, Words32, RecordsOctets, SourceWords, Counters, RecordsFit;
    var a, b, c, d := [s.seqNo], SourceWords(s), Counters(s), [|s.records|];
    var records := RecordsOctets(s.CounterSample?, s.records);
    WordsSplit(a + b + c, d);
    WordsSplit(a + b, c);
    WordsSplit(a, b);
    OneWord(s.seqNo);
    OneWord(|s.records|);
    Assoc(Words32(a) + Words32(b) + Words32(c), Words32(d), records);
    Assoc(Words32(a) + Words32(b), Words32(c), Words32(d) + records);
    Assoc(Words32(a), Words32(b), Words32(c) + (Words32(d) + records));
  }

  lemma SampleWords(s: NamedSample)
    requires !s.UnknownSample?
    ensures KindOfFormat(FormatOfSample(s)) == Some(KindOfSample(s)) && WordCount(KindOfSample(s)) == |Counters(s)|
    ensures KindOfSample(s).Counter? == s.CounterSample?
  {
  }

  /** Every sample is read as its values, each in its place. */
  lemma SampleIsRead(s: NamedSample)
    requires SampleFits(s)
    ensures ReadSample(FormatOfSample(s), |SampleBody(s)|, SampleBody(s)) == Some(SampleOf(s))
  {
    hide ReadWord, ReadWords, ReadSource, ReadRecords, Words32, W32, RecordsOctets, RecordsOf, SourceWords, Counters,
         SFlowParser.Padded, KindOfFormat, WordCount, RecordsFit, FormatOfSample, KindOfSample, OneWordSource;
    if s.UnknownSample? {
      UnknownSampleFormat(s);
    } else {
      SampleWords(s);
      BodySplit(s);
      var records := RecordsOctets(s.CounterSample?, s.records);
      var r3 := W32(|s.records|) + records;
      var r2 := Words32(Counters(s)) + r3;
      var r1 := Words32(SourceWords(s)) + r2;
      W32Reads(s.seqNo, r1);
      SourceIsRead(s, r2);
      Words32Read(Counters(s), r3);
      W32Reads(|s.records|, records);
      Empty(records);
      RecordsAreRead(KindOfSample(s), s.records, []);
      NothingAbsent(RecordsOf(s.CounterSample?, s.records), |s.records|);
    }
  }

  lemma UnknownSampleFormat(s: NamedSample)
    requires s.UnknownSample? && SampleFits(s)
    ensures FormatOfSample(s) == s.format && KindOfFormat(s.format).None? && SampleBody(s) == s.octets
  {
  }

  // ---------- datagrams ----------

  datatype Datagram = Datagram(agent: Addr, subAgent: u32, seqNo: u32, uptime: u32, samples: seq<NamedSample>)

  predicate SamplesFit(ss: seq<NamedSample>)
  {
    forall i :: 0 <= i < |ss| ==> SampleFits(ss[i])
  }

  predicate DatagramFits(d: Datagram)
  {
    AddrOk(d.agent) && |d.samples| <= 1000 && SamplesFit(d.samples)
  }

  /** Each sample after its format and its length. */
  function SamplesOctets(ss: seq<NamedSample>): bytes
    requires SamplesFit(ss)
  {
    if ss == [] then []
    else
      W32(FormatOfSample(ss[0])) + (W32(|SampleBody(ss[0])|) + SampleBody(ss[0])) + SamplesOctets(ss[1..])
  }

  /** Version 5, agent address, sub-agent, sequence number, uptime, number of samples, samples. */
  function DatagramOctets(d: Datagram): bytes
    requires DatagramFits(d)
  {
    W32(5) + (AddrOctets(d.agent) + (Words32([d.subAgent, d.seqNo, d.uptime, |d.samples|]) + SamplesOctets(d.samples)))
  }

  function SamplesOf(ss: seq<NamedSample>): (r: seq<Sample>)
    requires SamplesFit(ss)
    ensures |r| == |ss|
  {
    if ss == [] then [] else [SampleOf(ss[0])] + SamplesOf(ss[1..])
  }

  function PacketOf(d: Datagram): Packet
    requires DatagramFits(d)
  {
    Packet(5, match d.agent case NoAddr => 0 case V4(_) => 1 case V6(_) => 2,
           if d.agent.NoAddr? then [] else d.agent.ip,
           d.subAgent, d.seqNo, d.uptime, |d.samples|, SamplesOf(d.samples))
  }

  lemma {:induction false} SamplesAreRead(ss: seq<NamedSample>, rest: bytes)
    requires SamplesFit(ss)
    ensures ReadSamples(|ss|, SamplesOctets(ss) + rest) == Some(SamplesOf(ss))
    decreases |ss|
  {
    hide ReadSample, SampleBody, SampleOf, FormatOfSample, W32, WellMade, Block, ReadSamples;
    if ss == [] {
      NoSamplesRead(SamplesOctets(ss) + rest);
    } else {
      var s, more := ss[0], SamplesOctets(ss[1..]);
      SampleIsRead(s);
      BlockOctets(FormatOfSample(s), SampleBody(s));
      Assoc(W32(FormatOfSample(s)) + (W32(|SampleBody(s)|) + SampleBody(s)), more, rest);
      SamplesAreRead(ss[1..], rest);
      NextSample(|ss|, FormatOfSample(s), SampleBody(s), more + rest, SampleOf(s));
    }
  }

  /** Every datagram is read as its values, each in its place; octets after it are ignored. */
  lemma DatagramIsRead(d: Datagram, rest: bytes)
    requires DatagramFits(d)
    ensures ReadPacket(DatagramOctets(d) + rest) == Some(PacketOf(d))
  {
    hide ReadWord, ReadWords, ReadAddress, ReadSamples, SamplesOctets, SamplesOf, W32, Words32, SamplesFit;
    var ws: seq<u32> := [d.subAgent, d.seqNo, d.uptime, |d.samples|];
    var body, head := SamplesOctets(d.samples), Words32(ws);
    Assoc(W32(5), AddrOctets(d.agent) + (head + body), rest);
    Assoc(AddrOctets(d.agent), head + body, rest);
    Assoc(head, body, rest);
    W32Reads(5, AddrOctets(d.agent) + (head + (body + rest)));
    AddressPartReads(AddrPart(d.agent), head + (body + rest));
    Words32Read(ws, body + rest);
    SamplesAreRead(d.samples, rest);
  }

  // ---------- what is written ----------

  predicate SampleWritable(s: NamedSample)
  {
    if s.UnknownSample? then s.format != 0 else forall i :: 0 <= i < |s.records| ==> Writable(s.records[i])
  }

  lemma {:induction false} RecordsAreWritten(kind: SampleKind, rs: seq<NamedRecord>)
    requires RecordsFit(kind.Counter?, rs) && forall i :: 0 <= i < |rs| ==> Writable(rs[i])
    ensures EncodeRecords(kind, RecordsOf(kind.Counter?, rs)) == Some(RecordsOctets(kind.Counter?, rs))
    decreases |rs|
  {
    hide EncodeData, Octets, DataOf, FormatOf, W32, FieldsOk, Belongs, Block, Writable;
    if rs != [] {
      var r := rs[0];
      assert RecordFits(kind.Counter?, r);
      RecordIsWritten(kind, r);
      FormatIsWritten(r);
      BlockOctets(FormatOf(r), Octets(r));
      RecordsAreWritten(kind, rs[1..]);
      assert RecordsOf(kind.Counter?, rs)[1..] == RecordsOf(kind.Counter?, rs[1..]);
    }
  }

  lemma FormatIsWritten(r: NamedRecord)
    requires FieldsOk(r) && |Octets(r)| < 4294967296 && Writable(r)
    ensures RecordFormat(RecordOf(r)) == FormatOf(r) && FormatOf(r) != 0
  {
    hide Octets, ItemsIn, PartsOf;
  }

  lemma SourceIsWritten(s: NamedSample, h: SampleHeader)
    requires !s.UnknownSample? && h.sourceType == s.sourceType && h.sourceValue == s.sourceValue
    requires OneWordSource(s) ==> s.sourceType < 256 && s.sourceValue < 16777216
    ensures EncodeSource(FormatOfSample(s), h) == Words32(SourceWords(s))
  {
    hide W32, U32, Words32;
    if OneWordSource(s) {
      OneWord(s.sourceType * 16777216 + s.sourceValue);
      WordsAreBigEndian(0, s.sourceType * 16777216 + s.sourceValue);
    } else {
      WordsAreBigEndian(0, s.sourceType);
      WordsAreBigEndian(0, s.sourceValue);
      OneWord(s.sourceType);
      OneWord(s.sourceValue);
      WordsSplit([s.sourceType], [s.sourceValue]);
      assert [s.sourceType] + [s.sourceValue] == [s.sourceType, s.sourceValue];
    }
  }

  lemma SampleIsWritten(s: NamedSample)
    requires SampleFits(s) && SampleWritable(s)
    ensures EncodeSampleBody(SampleOf(s)) == Some(SampleBody(s)) && SampleFormat(SampleOf(s)) == FormatOfSample(s)
  {
    hide Words32, W32, U32, WordBytes, RecordsOctets, RecordsOf, SourceWords, EncodeRecords, EncodeSource, Len,
         RecordsFit, Writable, Filled;
    if !s.UnknownSample? {
      hide Counters;
      SampleWords(s);
      BodySplit(s);
      RecordsAreWritten(KindOfSample(s), s.records);
      SourceIsWritten(s, SampleOf(s).header);
      WordsAreBigEndian(0, s.seqNo);
      WordsAreBigEndian(0, |s.records|);
      Words32Are(Counters(s));
      FilledIn(|s.records|, |s.records|);
    }
  }

  lemma {:induction false} SamplesAreWritten(ss: seq<NamedSample>)
    requires SamplesFit(ss) && forall i :: 0 <= i < |ss| ==> SampleWritable(ss[i])
    ensures EncodeSamples(SamplesOf(ss)) == Some(SamplesOctets(ss))
    decreases |ss|
  {
    hide EncodeSampleBody, SampleBody, SampleOf, FormatOfSample, W32, WellMade, Block, SampleWritable, SampleFormat;
    if ss != [] {
      SampleIsWritten(ss[0]);
      BlockOctets(FormatOfSample(ss[0]), SampleBody(ss[0]));
      SamplesAreWritten(ss[1..]);
      assert SamplesOf(ss)[1..] == SamplesOf(ss[1..]);
    }
  }

  /** Every datagram of an IPv4 or IPv6 agent whose records can be written is written from its values. */
  lemma DatagramIsWritten(d: Datagram)
    requires DatagramFits(d) && !d.agent.NoAddr? && forall i :: 0 <= i < |d.samples| ==> SampleWritable(d.samples[i])
    ensures EncodePacket(PacketOf(d)) == Some(DatagramOctets(d))
  {
    hide EncodeSamples, SamplesOctets, SamplesOf, W32, U32, Words32, WordBytes, SamplesFit, SampleWritable, Filled, Len;
    var p := PacketOf(d);
    var ws: seq<u32> := [d.subAgent, d.seqNo, d.uptime, |d.samples|];
    SamplesAreWritten(d.samples);
    FilledIn(|d.samples|, |d.samples|);
    WordsAreBigEndian(0, 5);
    WordsAreBigEndian(0, p.ipVersion);
    Words32Are(ws);
    var body, head := SamplesOctets(d.samples), Words32(ws);
    Assoc(W32(5), W32(p.ipVersion) + (p.agentIP + head), body);
    Assoc(W32(p.ipVersion), p.agentIP + head, body);
    Assoc(p.agentIP, head, body);
    Assoc(W32(p.ipVersion), p.agentIP, head + body);
  }
}

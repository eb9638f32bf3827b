/** sFlow v5 datagrams: packets of samples of records, each record a list of XDR items laid out by its format. */
module SFlowTypes {
  import opened Bytes

  /** How one item of a record is laid out; a gap is octets that carry nothing. */
  datatype Shape =
    | SWord | SLong | SFixed(n: nat) | SGap(n: nat) | SOpaque | SVector | SCounted | SAddress | SPath | SHeader

  datatype Segment = Segment(kind: u32, path: seq<u32>)

  /** `Counted` and `Path` carry a length field next to their contents; 0 asks the encoder to fill it in. */
  datatype Item =
    | Word(w: u32)
    | Long(d: u64)
    | Fixed(octets: bytes)
    | Opaque(octets: bytes)
    | Vector(words: seq<u32>)
    | Counted(count: u32, words: seq<u32>)
    | Address(version: u32, ip: bytes)
    | Path(destinations: u32, pathType: u32, pathLength: u32, path: seq<u32>, segments: seq<Segment>)
    | Header(length: u32, octets: bytes)

  /** The record's structure, named by its format number; `Absent` is a record that was announced but not there. */
  datatype Data = Typed(kind: u32, items: seq<Item>) | Raw(octets: bytes) | Absent

  datatype Record = Record(dataFormat: u32, length: u32, data: Data)

  datatype SampleKind = Flow | Counter | ExpandedFlow | Drop

  datatype SampleHeader = SampleHeader(format: u32, length: u32, seqNo: u32, sourceType: u32, sourceValue: u32)

  /** `words` are the counters between the header and the record count. */
  datatype Sample =
    | Sample(kind: SampleKind, header: SampleHeader, words: seq<u32>, count: u32, records: seq<Record>)
    | RawSample(header: SampleHeader, octets: bytes)

  datatype Packet = Packet(
    version: u32, ipVersion: u32, agentIP: bytes, subAgent: u32, seqNo: u32, uptime: u32, count: u32,
      samples: seq<Sample>)

  function Words(n: nat): seq<Shape>
  {
    seq(n, i => SWord)
  }

  /** The layouts of flow records. */
  function FlowShapes(format: u32): Option<seq<Shape>>
  {
    match format
    case 1 => Some([SWord, SWord, SWord, SHeader])
    case 2 => Some([SWord, SFixed(6), SGap(2), SFixed(6), SGap(2), SWord])
    case 3 => Some([SWord, SWord, SFixed(4), SFixed(4), SWord, SWord, SWord, SWord])
    case 4 => Some([SWord, SWord, SFixed(16), SFixed(16), SWord, SWord, SWord, SWord])
    case 1001 => Some([SWord, SWord, SWord, SWord])
    case 1002 => Some([SAddress, SWord, SWord])
    case 1003 => Some([SAddress, SWord, SWord, SWord, SPath, SCounted, SWord])
    case 1006 => Some([SAddress, SVector, SVector])
    case 1007 => Some([SAddress, SAddress])
    case 1008 => Some([SOpaque, SWord, SWord])
    case 1009 => Some([SOpaque, SWord, SWord])
    case 1010 => Some([SOpaque, SWord])
    case 1011 => Some([SWord])
    case 1036 => Some([SWord])
    case 1037 => Some([SWord, SOpaque, SWord])
    case 1038 => Some([SOpaque])
    case _ => None
  }

  /** The layouts of counter records: interface and Ethernet counters. */
  function CounterShapes(format: u32): Option<seq<Shape>>
  {
    match format
    case 1 =>
      Some([SWord, SWord, SLong, SWord, SWord, SLong, SWord, SWord, SWord, SWord, SWord, SWord, SLong,
            SWord, SWord, SWord, SWord, SWord, SWord])
    case 2 => Some(Words(13))
    case _ => None
  }

  function ShapesOf(kind: SampleKind, format: u32): Option<seq<Shape>>
  {
    if kind == Counter then CounterShapes(format) else FlowShapes(format)
  }

  function WordCount(kind: SampleKind): nat
  {
    match kind
    case Flow => 5
    case Counter => 0
    case ExpandedFlow => 7
    case Drop => 4
  }

  function DefaultFormat(kind: SampleKind): u32
  {
    match kind
    case Flow => 1
    case Counter => 2
    case ExpandedFlow => 3
    case Drop => 5
  }

  predicate FormatFits(kind: SampleKind, format: u32)
  {
    format == DefaultFormat(kind) || (kind == Counter && format == 4)
  }

  /** Flow and counter samples pack their source id into one word. */
  predicate Compact(format: u32)
  {
    format == 1 || format == 2
  }

  /** Octets that round a length up to a multiple of four. */
  function Pad4(n: nat): (p: nat)
    ensures p < 4 && (n + p) % 4 == 0
  {
    (4 - n % 4) % 4
  }

  function U64(d: u64): (b: bytes)
    ensures |b| == 8
  {
    U32(d / 0x1_0000_0000) + U32(d % 0x1_0000_0000)
  }

  function WordBytes(ws: seq<u32>): (b: bytes)
    ensures |b| == 4 * |ws|
  {
    if ws == [] then [] else U32(ws[0]) + WordBytes(ws[1..])
  }

  /** A length as the 32-bit field that carries it. */
  function Len(n: nat): u32
  {
    n % 0x1_0000_0000
  }
}

/** Reading an sFlow datagram, or None where the decoder fails. */
module SFlowParser {
  import opened Bytes
  import opened SFlowTypes

  const MAX_COUNT := 1000

  // ---------- items ----------

  datatype Read<T> = Read(value: T, rest: bytes)

  function ReadWord(data: bytes): (r: Option<Read<u32>>)
    ensures r.Some? ==> |r.value.rest| + 4 == |data|
  {
    if |data| < 4 then None else Some(Read(HeadU32(data), data[4..]))
  }

  function ReadWords(n: nat, data: bytes): (r: Option<Read<seq<u32>>>)
    ensures r.Some? ==> |r.value.value| == n && |r.value.rest| + 4 * n == |data|
  {
    if n == 0 then Some(Read([], data))
    else
      match ReadWord(data)
      case None => None
      case Some(Read(w, rest)) =>
        match ReadWords(n - 1, rest)
        case None => None
        case Some(Read(ws, left)) => Some(Read([w] + ws, left))
  }

  function ReadOctets(n: nat, data: bytes): Option<Read<bytes>>
  {
    if |data| < n then None else Some(Read(data[..n], data[n..]))
  }

  /** The padding is consumed with the octets it follows. */
  function ReadPadded(n: nat, data: bytes): Option<Read<bytes>>
  {
    if |data| < n + Pad4(n) then None else Some(Read(data[..n], data[n + Pad4(n)..]))
  }

  function ReadVector(data: bytes): Option<Read<seq<u32>>>
  {
    match ReadWord(data)
    case None => None
    case Some(Read(n, rest)) => if n > MAX_COUNT || n > |rest| / 4 then None else ReadWords(n, rest)
  }

  function ReadAddress(data: bytes): (r: Option<Read<Item>>)
    ensures r.Some? ==> r.value.value.Address?
  {
    match ReadWord(data)
    case None => None
    case Some(Read(v, rest)) =>
      if v == 0 then Some(Read(Address(0, []), rest))
      else if v > 2 then None
      else
        match ReadOctets(if v == 1 then 4 else 16, rest)
        case None => None
        case Some(Read(ip, left)) => Some(Read(Address(v, ip), left))
  }

  function ReadSegments(n: nat, data: bytes): Option<Read<seq<Segment>>>
  {
    if n == 0 then Some(Read([], data))
    else
      match ReadWord(data)
      case None => None
      case Some(Read(kind, rest)) =>
        match ReadVector(rest)
        case None => None
        case Some(Read(path, left)) =>
          match ReadSegments(n - 1, left)
          case None => None
          case Some(Read(more, end)) => Some(Read([Segment(kind, path)] + more, end))
  }

  /** A single segment is also reported as the path. */
  function PathOf(segments: seq<Segment>): Item
  {
    if |segments| == 1 then Path(1, segments[0].kind, Len(|segments[0].path|), segments[0].path, segments)
    else Path(Len(|segments|), 0, 0, [], segments)
  }

  function ReadPath(data: bytes): Option<Read<Item>>
  {
    match ReadWord(data)
    case None => None
    case Some(Read(n, rest)) =>
      if n > MAX_COUNT then None
      else
        match ReadSegments(n, rest)
        case None => None
        case Some(Read(segments, left)) => Some(Read(PathOf(segments), left))
  }

  /** A header longer than what is left is what is left. */
  function ReadHeader(data: bytes): Option<Read<Item>>
  {
    match ReadWord(data)
    case None => None
    case Some(Read(n, rest)) =>
      if n > |rest| then Some(Read(Header(n, rest), []))
      else
        match ReadPadded(n, rest)
        case None => None
        case Some(Read(b, left)) => Some(Read(Header(n, b), left))
  }

  function ReadItem(shape: Shape, data: bytes): Option<Read<Item>>
  {
    match shape
    case SWord => (match ReadWord(data) case None => None case Some(Read(w, rest)) => Some(Read(Word(w), rest)))
    case SLong => (match ReadWords(2, data)
                   case None => None
                   case Some(Read(ws, rest)) => Some(Read(Long(ws[0] as int * 0x1_0000_0000 + ws[1]), rest)))
    case SFixed(n) => (match ReadOctets(n, data) case None => None case Some(Read(b, rest)) =>
                       Some(Read(Fixed(b), rest)))
    case SGap(n) => (match ReadOctets(n, data) case None => None case Some(Read(b, rest)) => Some(Read(Fixed(b), rest)))
    case SOpaque => (match ReadWord(data)
                     case None => None
                     case Some(Read(n, rest)) =>
                       match ReadPadded(n, rest) case None => None case Some(Read(b, left)) =>
                         Some(Read(Opaque(b), left)))
    case SVector => (match ReadVector(data) case None => None case Some(Read(ws, rest)) => Some(Read(Vector(ws), rest)))
    case SCounted => (match ReadVector(data) case None => None case Some(Read(ws, rest)) =>
                      Some(Read(Counted(Len(|ws|), ws), rest)))
    case SAddress => ReadAddress(data)
    case SPath => ReadPath(data)
    case SHeader => ReadHeader(data)
  }

  /** Items in layout order; what follows them in the record is ignored. */
  function ReadItems(shapes: seq<Shape>, data: bytes): Option<seq<Item>>
  {
    if shapes == [] then Some([])
    else
      match ReadItem(shapes[0], data)
      case None => None
      case Some(Read(item, rest)) =>
        match ReadItems(shapes[1..], rest)
        case None => None
        case Some(items) => Some(if shapes[0].SGap? then items else [item] + items)
  }

  // ---------- records and samples ----------

  function Enterprise(format: u32): u32
  {
    format / 0x1000
  }

  function ReadData(kind: SampleKind, format: u32, payload: bytes): Option<Data>
  {
    if Enterprise(format) != 0 || ShapesOf(kind, format).None? then Some(Raw(payload))
    else
      match ReadItems(ShapesOf(kind, format).value, payload)
      case None => None
      case Some(items) => Some(Typed(format, items))
  }

  /** Records are read until the count, or until the octets left hold no whole record. */
  function ReadRecords(kind: SampleKind, n: nat, data: bytes): Option<seq<Record>>
  {
    if n == 0 || |data| < 8 then Some([])
    else
      var format, length, rest := HeadU32(data), HeadU32(data[4..]), data[8..];
      if length > |rest| then Some([])
      else
        match ReadData(kind, format, rest[..length])
        case None => None
        case Some(d) =>
          match ReadRecords(kind, n - 1, rest[length..])
          case None => None
          case Some(rs) => Some([Record(format, length, d)] + rs)
  }

  function Padded(rs: seq<Record>, n: nat): seq<Record>
  {
    if |rs| >= n then rs else rs + seq(n - |rs|, i => Record(0, 0, Absent))
  }

  function KindOfFormat(format: u32): Option<SampleKind>
  {
    match format
    case 1 => Some(Flow)
    case 2 => Some(Counter)
    case 3 => Some(ExpandedFlow)
    case 4 => Some(Counter)
    case 5 => Some(Drop)
    case _ => None
  }

  function ReadSource(format: u32, data: bytes): Option<Read<(u32, u32)>>
  {
    if Compact(format) then
      match ReadWord(data)
      case None => None
      case Some(Read(w, rest)) => Some(Read((w / 0x100_0000, w % 0x100_0000), rest))
    else
      match ReadWords(2, data)
      case None => None
      case Some(Read(ws, rest)) => Some(Read((ws[0], ws[1]), rest))
  }

  function ReadSample(format: u32, length: u32, data: bytes): Option<Sample>
  {
    if KindOfFormat(format).None? then Some(RawSample(SampleHeader(format, length, 0, 0, 0), data))
    else
      var kind := KindOfFormat(format).value;
      match ReadWord(data)
      case None => None
      case Some(Read(seqNo, r1)) =>
        match ReadSource(format, r1)
        case None => None
        case Some(Read(source, r2)) =>
          match ReadWords(WordCount(kind), r2)
          case None => None
          case Some(Read(words, r3)) =>
            match ReadWord(r3)
            case None => None
            case Some(Read(n, r4)) =>
              if n > MAX_COUNT then None
              else
                match ReadRecords(kind, n, r4)
                case None => None
                case Some(rs) =>
                  Some(Sample(kind, SampleHeader(format, length, seqNo, source.0, source.1), words, n, Padded(rs, n)))
  }

  function ReadSamples(n: nat, data: bytes): Option<seq<Sample>>
  {
    if n == 0 then Some([])
    else if |data| < 8 then None
    else
      var format, length, rest := HeadU32(data), HeadU32(data[4..]), data[8..];
      if length > |rest| then None
      else
        match ReadSample(format, length, rest[..length])
        case None => None
        case Some(s) =>
          match ReadSamples(n - 1, rest[length..])
          case None => None
          case Some(ss) => Some([s] + ss)
  }

  // ---------- packets ----------

  function ReadPacket(data: bytes): Option<Packet>
  {
    match ReadWord(data)
    case None => None
    case Some(Read(version, r1)) =>
      if version != 5 then None
      else
        match ReadAddress(r1)
        case None => None
        case Some(Read(agent, r2)) =>
          match ReadWords(4, r2)
          case None => None
          case Some(Read(ws, r3)) =>
            if ws[3] > MAX_COUNT then None
            else
              match ReadSamples(ws[3], r3)
              case None => None
              case Some(ss) => Some(Packet(5, agent.version, agent.ip, ws[0], ws[1], ws[2], ws[3], ss))
  }
}

/** The octets of an sFlow datagram, or None where the encoder refuses. */
module SFlowPrinter {
  import opened Bytes
  import opened SFlowTypes

  // ---------- items ----------

  function EncodeOpaque(b: bytes): bytes
  {
    U32(Len(|b|)) + (b + Zeros(Pad4(|b|)))
  }

  function EncodeVector(ws: seq<u32>): bytes
  {
    U32(Len(|ws|)) + WordBytes(ws)
  }

  function EncodeAddress(version: u32, ip: bytes): Option<bytes>
  {
    if version == 0 && ip == [] then Some(U32(0))
    else if version == 0 && |ip| != 4 && |ip| != 16 then None
    else
      var v := if version != 0 then version else if |ip| == 4 then 1 else 2;
      if (v == 1 && |ip| != 4) || (v == 2 && |ip| != 16) then None else Some(U32(v) + ip)
  }

  /** A length field that is 0 is filled in; any other must be right. */
  function Filled(count: u32, actual: nat): Option<u32>
  {
    var n := if count == 0 then Len(actual) else count;
    if n == actual then Some(n) else None
  }

  /** Only the first segment is written, and only when it has a length. */
  function EncodePath(destinations: u32, pathType: u32, pathLength: u32, path: seq<u32>): Option<bytes>
  {
    var n := if pathLength == 0 && path != [] then Len(|path|) else pathLength;
    if n == 0 then Some(U32(destinations))
    else if n != |path| then None
    else Some(U32(destinations) + (U32(pathType) + (U32(n) + WordBytes(path))))
  }

  function EncodeItem(shape: Shape, item: Item): Option<bytes>
  {
    match (shape, item)
    case (SWord, Word(w)) => Some(U32(w))
    case (SLong, Long(d)) => Some(U64(d))
    case (SFixed(n), Fixed(b)) => if |b| == n then Some(b) else None
    case (SOpaque, Opaque(b)) => Some(EncodeOpaque(b))
    case (SVector, Vector(ws)) => Some(EncodeVector(ws))
    case (SCounted, Counted(c, ws)) => if Filled(c, |ws|).Some? then Some(U32(Filled(c, |ws|).value) + WordBytes(ws))
      else None
    case (SAddress, Address(v, ip)) => EncodeAddress(v, ip)
    case (SPath, Path(d, t, n, path, _)) => EncodePath(d, t, n, path)
    case (SHeader, Header(n, b)) => Some(U32(n) + (b + Zeros(Pad4(n))))
    case _ => None
  }

  function EncodeItems(shapes: seq<Shape>, items: seq<Item>): Option<bytes>
  {
    if shapes == [] then (if items == [] then Some([]) else None)
    else if shapes[0].SGap? then
      var rest := EncodeItems(shapes[1..], items);
      if rest.None? then None else Some(Zeros(shapes[0].n) + rest.value)
    else if items == [] then None
    else
      var one, rest := EncodeItem(shapes[0], items[0]), EncodeItems(shapes[1..], items[1..]);
      if one.None? || rest.None? then None else Some(one.value + rest.value)
  }

  // ---------- records and samples ----------

  function EncodeData(kind: SampleKind, data: Data): Option<bytes>
  {
    match data
    case Typed(k, items) => if ShapesOf(kind, k).Some? then EncodeItems(ShapesOf(kind, k).value, items) else None
    case Raw(b) => Some(b)
    case Absent => None
  }

  function RecordFormat(r: Record): u32
  {
    if r.dataFormat == 0 && r.data.Typed? then r.data.kind else r.dataFormat
  }

  function Block(format: u32, payload: bytes): bytes
  {
    U32(format) + (U32(Len(|payload|)) + payload)
  }

  function EncodeRecord(kind: SampleKind, r: Record): Option<bytes>
  {
    var payload := EncodeData(kind, r.data);
    if payload.None? || RecordFormat(r) == 0 then None else Some(Block(RecordFormat(r), payload.value))
  }

  function EncodeRecords(kind: SampleKind, rs: seq<Record>): Option<bytes>
  {
    if rs == [] then Some([])
    else
      var one, rest := EncodeRecord(kind, rs[0]), EncodeRecords(kind, rs[1..]);
      if one.None? || rest.None? then None else Some(one.value + rest.value)
  }

  function SampleFormat(s: Sample): u32
  {
    if s.Sample? && s.header.format == 0 then DefaultFormat(s.kind) else s.header.format
  }

  function SourceWord(kind: u32, value: u32): u32
  {
    kind % 0x100 * 0x100_0000 + value % 0x100_0000
  }

  function EncodeSource(format: u32, h: SampleHeader): bytes
  {
    if Compact(format) then U32(SourceWord(h.sourceType, h.sourceValue)) else U32(h.sourceType) + U32(h.sourceValue)
  }

  function EncodeSampleBody(s: Sample): Option<bytes>
  {
    match s
    case RawSample(h, b) => if h.format == 0 then None else Some(b)
    case Sample(kind, h, words, count, records) =>
      var body := EncodeRecords(kind, records);
      if !FormatFits(kind, SampleFormat(s)) || |words| != WordCount(kind) || Filled(count, |records|).None?
        || body.None? then None
      else Some(U32(h.seqNo) + (EncodeSource(SampleFormat(s), h)
                                + (WordBytes(words) + (U32(Filled(count, |records|).value) + body.value))))
  }

  function EncodeSample(s: Sample): Option<bytes>
  {
    var body := EncodeSampleBody(s);
    if body.None? then None else Some(Block(SampleFormat(s), body.value))
  }

  function EncodeSamples(ss: seq<Sample>): Option<bytes>
  {
    if ss == [] then Some([])
    else
      var one, rest := EncodeSample(ss[0]), EncodeSamples(ss[1..]);
      if one.None? || rest.None? then None else Some(one.value + rest.value)
  }

  // ---------- packets ----------

  /** The agent's address version, None when it does not fit the address. */
  function AgentVersion(p: Packet): Option<u32>
  {
    if p.ipVersion == 0 && |p.agentIP| != 4 && |p.agentIP| != 16 then None
    else
      var v := if p.ipVersion != 0 then p.ipVersion else if |p.agentIP| == 4 then 1 else 2;
      if (v == 1 && |p.agentIP| != 4) || (v == 2 && |p.agentIP| != 16) then None else Some(v)
  }

  function EncodeHead(p: Packet, version: u32, count: u32): bytes
  {
    U32(5) + (U32(version) + (p.agentIP + WordBytes([p.subAgent, p.seqNo, p.uptime, count])))
  }

  function EncodePacket(p: Packet): Option<bytes>
  {
    var version, count, body := AgentVersion(p), Filled(p.count, |p.samples|), EncodeSamples(p.samples);
    if (p.version != 0 && p.version != 5) || version.None? || count.None? || body.None? then None
    else Some(EncodeHead(p, version.value, count.value) + body.value)
  }
}

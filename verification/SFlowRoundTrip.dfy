/** Decoding an encoded sFlow packet gives the packet back with its versions, counts and lengths filled in. */
module SFlowRoundTrip {
  import opened Bytes
  import opened SFlowTypes
  import opened SFlowPrinter
  import opened SFlowParser

  const TWO_32 := 0x1_0000_0000

  // ---------- reading back words ----------

  lemma WordReads(w: u32, rest: bytes)
    ensures ReadWord(U32(w) + rest) == Some(Read(w, rest))
  {
    ReadBackU32(w, rest);
  }

  lemma {:induction false} WordsRead(ws: seq<u32>, rest: bytes)
    ensures ReadWords(|ws|, WordBytes(ws) + rest) == Some(Read(ws, rest))
  {
    if ws == [] {
      Empty(rest);
    } else {
      Assoc(U32(ws[0]), WordBytes(ws[1..]), rest);
      WordReads(ws[0], WordBytes(ws[1..]) + rest);
      WordsRead(ws[1..], rest);
      assert [ws[0]] + ws[1..] == ws;
    }
  }

  lemma OctetsRead(b: bytes, rest: bytes)
    ensures ReadOctets(|b|, b + rest) == Some(Read(b, rest))
  {
    TakeDropAppend(b, rest);
  }

  lemma PaddedRead(b: bytes, rest: bytes)
    ensures ReadPadded(|b|, b + Zeros(Pad4(|b|)) + rest) == Some(Read(b, rest))
  {
    var z := Zeros(Pad4(|b|));
    var data := b + z + rest;
    assert |b + z| == |b| + Pad4(|b|);
    TakeDropAppend(b + z, rest);
    assert data[..|b|] == b;
  }

  lemma LongReads(d: u64, rest: bytes)
    ensures ReadItem(SLong, U64(d) + rest) == Some(Read(Long(d), rest))
  {
    var ws: seq<u32> := [d / 0x1_0000_0000, d % 0x1_0000_0000];
    TwoWordBytes(ws[0], ws[1]);
    WordsRead(ws, rest);
  }

  lemma TwoWordBytes(a: u32, b: u32)
    ensures WordBytes([a, b]) == U32(a) + U32(b)
  {
    assert [a, b][1..] == [b] && [b][1..] == [];
    Empty(U32(b));
  }

  lemma VectorReads(ws: seq<u32>, rest: bytes)
    requires |ws| <= MAX_COUNT
    ensures ReadVector(U32(Len(|ws|)) + WordBytes(ws) + rest) == Some(Read(ws, rest))
  {
    hide ReadWords, ReadWord, WordBytes, Len, U32;
    Assoc(U32(Len(|ws|)), WordBytes(ws), rest);
    WordReads(Len(|ws|), WordBytes(ws) + rest);
    WordsRead(ws, rest);
    LenIs(|ws|);
    Quarter(|ws|, |rest|);
  }

  lemma LenIs(n: nat)
    requires n < TWO_32
    ensures Len(n) == n
  {
  }

  lemma Quarter(n: nat, m: nat)
    ensures n <= (4 * n + m) / 4
  {
  }

  // ---------- items ----------

  predicate AddressOk(version: u32, ip: bytes)
  {
    (version == 0 && ip == []) || (|ip| == 4 && version <= 1) || (|ip| == 16 && (version == 0 || version == 2))
  }

  /** No segment, or exactly one that is not empty. */
  predicate PathOk(i: Item)
    requires i.Path?
  {
    if i.path == [] then i.destinations == 0 && i.pathLength == 0
    else i.destinations == 1 && |i.path| <= MAX_COUNT && (i.pathLength == 0 || i.pathLength == |i.path|)
  }

  /**
   * The sampled header says its own length; a longer one is kept only at the end of a record and on a word boundary.
   */
  predicate HeaderOk(length: u32, octets: bytes, last: bool)
  {
    length == |octets| || (last && length > |octets| && Pad4(length) == 0)
  }

  predicate ItemOk(shape: Shape, item: Item, last: bool)
  {
    match (shape, item)
    case (SWord, Word(_)) => true
    case (SLong, Long(_)) => true
    case (SFixed(n), Fixed(b)) => |b| == n
    case (SOpaque, Opaque(b)) => |b| < TWO_32
    case (SVector, Vector(ws)) => |ws| <= MAX_COUNT
    case (SCounted, Counted(c, ws)) => |ws| <= MAX_COUNT && (c == 0 || c == |ws|)
    case (SAddress, Address(v, ip)) => AddressOk(v, ip)
    case (SPath, Path(_, _, _, _, _)) => PathOk(item)
    case (SHeader, Header(n, b)) => HeaderOk(n, b, last)
    case _ => false
  }

  /** The item with its version and lengths filled in. */
  function CanonItem(i: Item): Item
  {
    match i
    case Counted(_, ws) => Counted(Len(|ws|), ws)
    case Address(v, ip) => if ip == [] then i else Address(if |ip| == 4 then 1 else 2, ip)
    case Path(_, t, _, path, _) => PathOf(if path == [] then [] else [Segment(t, path)])
    case _ => i
  }

  lemma AddressReads(version: u32, ip: bytes, rest: bytes)
    requires AddressOk(version, ip)
    ensures EncodeAddress(version, ip).Some?
    ensures ReadAddress(EncodeAddress(version, ip).value + rest) == Some(Read(CanonItem(Address(version, ip)), rest))
  {
    if ip == [] {
      WordReads(0, rest);
    } else {
      var v := if |ip| == 4 then 1 else 2;
      Assoc(U32(v), ip, rest);
      WordReads(v, ip + rest);
      OctetsRead(ip, rest);
    }
  }

  lemma PathReads(i: Item, rest: bytes)
    requires i.Path? && PathOk(i)
    ensures EncodePath(i.destinations, i.pathType, i.pathLength, i.path).Some?
    ensures ReadPath(EncodePath(i.destinations, i.pathType, i.pathLength, i.path).value + rest)
            == Some(Read(CanonItem(i), rest))
  {
    hide ReadWords, ReadWord, WordBytes, Len, U32, ReadVector, ReadSegments;
    LenIs(|i.path|);
    LenIs(1);
    LenIs(0);
    if i.path == [] {
      WordReads(0, rest);
      NoSegments(rest);
    } else {
      var vector := U32(Len(|i.path|)) + WordBytes(i.path);
      Assoc(U32(1), U32(i.pathType) + vector, rest);
      Assoc(U32(i.pathType), vector, rest);
      WordReads(1, U32(i.pathType) + vector + rest);
      WordReads(i.pathType, vector + rest);
      VectorReads(i.path, rest);
      OneSegment(i.pathType, i.path, U32(i.pathType) + (vector + rest), rest);
    }
  }

  lemma NoSegments(data: bytes)
    ensures ReadSegments(0, data) == Some(Read([], data))
  {
  }

  lemma OneSegment(kind: u32, path: seq<u32>, data: bytes, rest: bytes)
    requires ReadWord(data).Some? && ReadWord(data).value.value == kind
    requires ReadVector(ReadWord(data).value.rest) == Some(Read(path, rest))
    ensures ReadSegments(1, data) == Some(Read([Segment(kind, path)], rest))
  {
    assert ReadSegments(0, rest) == Some(Read([], rest));
    Empty([Segment(kind, path)]);
  }

  lemma HeaderReads(n: u32, b: bytes, rest: bytes)
    requires HeaderOk(n, b, rest == [])
    ensures ReadHeader(U32(n) + (b + Zeros(Pad4(n))) + rest) == Some(Read(Header(n, b), rest))
  {
    var body := b + Zeros(Pad4(n));
    Assoc(U32(n), body, rest);
    WordReads(n, body + rest);
    if n == |b| {
      PaddedRead(b, rest);
    } else {
      Empty(body);
      Empty(b);
      assert Zeros(Pad4(n)) == [];
    }
  }

  /** Exactly when a sampled header at the end of a record survives. */
  lemma HeaderSurvives(n: u32, b: bytes)
    ensures ReadHeader(U32(n) + (b + Zeros(Pad4(n)))) == Some(Read(Header(n, b), [])) <==> HeaderOk(n, b, true)
  {
    var body := b + Zeros(Pad4(n));
    Empty(U32(n) + body);
    if HeaderOk(n, b, true) {
      HeaderReads(n, b, []);
    } else {
      Empty(body);
      WordReads(n, body);
      if n > |body| {
        assert |body| != |b|;
      }
    }
  }

  /**
   * A header with more octets than it says is cut; one that says more, off the word boundary, is refused or takes in
   * its own padding.
   */
  lemma HeaderChanges()
    ensures ReadHeader(U32(1) + ([7, 8] + Zeros(Pad4(1)))) == Some(Read(Header(1, [7]), [0]))
    ensures ReadHeader(U32(3) + ([7, 8] + Zeros(Pad4(3)))) == None
    ensures ReadHeader(U32(9) + ([7] + Zeros(Pad4(9)))) == Some(Read(Header(9, [7, 0, 0, 0]), []))
  {
    assert Pad4(1) == 3 && Pad4(3) == 1 && Pad4(9) == 3;
    hide Pad4, U32, ReadWord;
    WordReads(1, [7, 8] + Zeros(3));
    WordReads(3, [7, 8] + Zeros(1));
    WordReads(9, [7] + Zeros(3));
    var long := [7, 8] + Zeros(3);
    assert long[..1] == [7] && long[4..] == [0];
    assert [7] + Zeros(3) == [7, 0, 0, 0];
  }

  lemma ItemReads(shape: Shape, item: Item, rest: bytes)
    requires ItemOk(shape, item, rest == [])
    ensures EncodeItem(shape, item).Some?
    ensures ReadItem(shape, EncodeItem(shape, item).value + rest) == Some(Read(CanonItem(item), rest))
  {
    hide ReadVector, ReadAddress, ReadPath, ReadHeader, ReadWords, ReadPadded, ReadWord, ReadOctets, WordBytes, U32,
         U64, Zeros, Pad4, EncodeAddress, EncodePath, PathOf, AddressOk, PathOk, HeaderOk;
    match item {
      case Word(w) => WordReads(w, rest);
      case Long(d) => LongReads(d, rest);
      case Fixed(b) => OctetsRead(b, rest);
      case Opaque(b) =>
        var body := b + Zeros(Pad4(|b|));
        Assoc(U32(Len(|b|)), body, rest);
        WordReads(Len(|b|), body + rest);
        LenIs(|b|);
        PaddedRead(b, rest);
      case Vector(ws) => VectorReads(ws, rest);
      case Counted(c, ws) => LenIs(|ws|); VectorReads(ws, rest);
      case Address(v, ip) => AddressReads(v, ip, rest);
      case Path(_, _, _, _, _) => PathReads(item, rest);
      case Header(n, b) => HeaderReads(n, b, rest);
    }
  }

  predicate ItemsOk(shapes: seq<Shape>, items: seq<Item>)
  {
    if shapes == [] then items == []
    else if shapes[0].SGap? then ItemsOk(shapes[1..], items)
    else items != [] && ItemOk(shapes[0], items[0], |shapes| == 1) && ItemsOk(shapes[1..], items[1..])
  }

  function CanonItems(items: seq<Item>): seq<Item>
  {
    if items == [] then [] else [CanonItem(items[0])] + CanonItems(items[1..])
  }

  lemma AnyLast(shape: Shape, item: Item)
    requires ItemOk(shape, item, false)
    ensures ItemOk(shape, item, true)
  {
  }

  lemma {:induction false} ItemsRead(shapes: seq<Shape>, items: seq<Item>)
    requires ItemsOk(shapes, items)
    ensures EncodeItems(shapes, items).Some?
    ensures ReadItems(shapes, EncodeItems(shapes, items).value) == Some(CanonItems(items))
    decreases |shapes|
  {
    hide ReadItem, EncodeItem, CanonItem, ItemOk;
    if shapes != [] {
      if shapes[0].SGap? {
        ItemsRead(shapes[1..], items);
        GapReads(shapes[0].n, EncodeItems(shapes[1..], items).value);
      } else {
        ItemsRead(shapes[1..], items[1..]);
        var rest := EncodeItems(shapes[1..], items[1..]).value;
        if |shapes| == 1 { NoItems(shapes[1..], items[1..]); } else { AnyLast2(shapes[0], items[0], rest); }
        ItemReads(shapes[0], items[0], rest);
      }
    }
  }

  lemma AnyLast2(shape: Shape, item: Item, rest: bytes)
    requires ItemOk(shape, item, false)
    ensures ItemOk(shape, item, rest == [])
  {
    AnyLast(shape, item);
  }

  lemma NoItems(shapes: seq<Shape>, items: seq<Item>)
    requires shapes == [] && items == []
    ensures EncodeItems(shapes, items) == Some([])
  {
  }

  lemma GapReads(n: nat, rest: bytes)
    ensures ReadItem(SGap(n), Zeros(n) + rest) == Some(Read(Fixed(Zeros(n)), rest))
  {
    OctetsRead(Zeros(n), rest);
  }

  // ---------- records ----------

  predicate DataOk(kind: SampleKind, format: u32, data: Data)
  {
    match data
    case Typed(k, items) => (format == 0 || format == k) && k < 0x1000 && ShapesOf(kind, k).Some?
      && ItemsOk(ShapesOf(kind, k).value, items)
    case Raw(_) => format != 0 && (Enterprise(format) != 0 || ShapesOf(kind, format).None?)
    case Absent => false
  }

  /** A record whose format says what it holds, and whose length fits its field. */
  predicate RecordOk(kind: SampleKind, r: Record)
  {
    DataOk(kind, r.dataFormat, r.data) && EncodeData(kind, r.data).Some? && |EncodeData(kind, r.data).value| < TWO_32
  }

  function CanonData(d: Data): Data
  {
    if d.Typed? then Typed(d.kind, CanonItems(d.items)) else d
  }

  function CanonRecord(kind: SampleKind, r: Record): Record
    requires RecordOk(kind, r)
  {
    Record(RecordFormat(r), |EncodeData(kind, r.data).value|, CanonData(r.data))
  }

  predicate RecordsOk(kind: SampleKind, rs: seq<Record>)
  {
    forall i :: 0 <= i < |rs| ==> RecordOk(kind, rs[i])
  }

  function CanonRecords(kind: SampleKind, rs: seq<Record>): (c: seq<Record>)
    requires RecordsOk(kind, rs)
    ensures |c| == |rs|
  {
    if rs == [] then [] else [CanonRecord(kind, rs[0])] + CanonRecords(kind, rs[1..])
  }

  lemma KnownFormat(kind: SampleKind, k: u32)
    requires ShapesOf(kind, k).Some?
    ensures 0 < k < 0x1000
  {
  }

  lemma DataReads(kind: SampleKind, r: Record)
    requires RecordOk(kind, r)
    ensures RecordFormat(r) != 0 && EncodeRecord(kind, r) == Some(Block(RecordFormat(r),
                                                                        EncodeData(kind, r.data).value))
    ensures ReadData(kind, RecordFormat(r), EncodeData(kind, r.data).value) == Some(CanonData(r.data))
  {
    hide ShapesOf, EncodeItems, ReadItems, ItemsOk, CanonItems;
    if r.data.Typed? {
      KnownFormat(kind, r.data.kind);
      ItemsRead(ShapesOf(kind, r.data.kind).value, r.data.items);
    }
  }

  /** A format, a length and that many octets, read back in one piece. */
  lemma BlockReads(format: u32, payload: bytes, rest: bytes)
    requires |payload| < TWO_32
    ensures var data := Block(format, payload) + rest;
            && |data| >= 8 && HeadU32(data) == format && HeadU32(data[4..]) == |payload|
            && |data[8..]| >= |payload| && data[8..][..|payload|] == payload && data[8..][|payload|..] == rest
  {
    var data := Block(format, payload) + rest;
    var tail := U32(Len(|payload|)) + payload;
    Assoc(U32(format), tail, rest);
    Assoc(U32(Len(|payload|)), payload, rest);
    ReadBackU32(format, tail + rest);
    ReadBackU32(Len(|payload|), payload + rest);
    LenIs(|payload|);
    assert data[4..][4..] == data[8..];
    TakeDropAppend(payload, rest);
  }

  lemma NextRecord(kind: SampleKind, n: nat, format: u32, payload: bytes, rest: bytes, d: Data)
    requires n > 0 && |payload| < TWO_32 && ReadData(kind, format, payload) == Some(d)
    ensures var later := ReadRecords(kind, n - 1, rest);
            ReadRecords(kind, n, Block(format, payload) + rest)
            == if later.None? then None else Some([Record(format, |payload|, d)] + later.value)
  {
    hide ReadData, Block, U32, HeadU32;
    BlockReads(format, payload, rest);
  }

  lemma {:induction false} RecordsRead(kind: SampleKind, rs: seq<Record>, rest: bytes)
    requires RecordsOk(kind, rs)
    ensures EncodeRecords(kind, rs).Some?
    ensures ReadRecords(kind, |rs|, EncodeRecords(kind, rs).value + rest) == Some(CanonRecords(kind, rs))
    decreases |rs|
  {
    hide ReadData, EncodeRecord, EncodeData, RecordOk, RecordFormat, CanonData, Block, ReadRecords;
    if rs == [] {
      NoRecordsRead(kind, EncodeRecords(kind, rs).value + rest);
    } else {
      var r := rs[0];
      var payload := EncodedData(kind, r);
      RecordsRead(kind, rs[1..], rest);
      var more := EncodeRecords(kind, rs[1..]).value;
      DataReads(kind, r);
      Assoc(Block(RecordFormat(r), payload), more, rest);
      NextRecord(kind, |rs|, RecordFormat(r), payload, more + rest, CanonData(r.data));
    }
  }

  lemma NoRecordsRead(kind: SampleKind, data: bytes)
    ensures ReadRecords(kind, 0, data) == Some([])
  {
  }

  lemma EncodedData(kind: SampleKind, r: Record) returns (payload: bytes)
    requires RecordOk(kind, r)
    ensures EncodeData(kind, r.data) == Some(payload) && |payload| < TWO_32
  {
    payload := EncodeData(kind, r.data).value;
  }

  // ---------- samples ----------

  predicate SampleOk(s: Sample)
  {
    && EncodeSampleBody(s).Some? && |EncodeSampleBody(s).value| < TWO_32
    && match s
       case RawSample(h, _) => h.format != 0 && KindOfFormat(h.format).None?
       case Sample(kind, h, words, count, records) =>
         && FormatFits(kind, SampleFormat(s)) && |words| == WordCount(kind)
         && |records| <= MAX_COUNT && (count == 0 || count == |records|) && RecordsOk(kind, records)
         && (Compact(SampleFormat(s)) ==> h.sourceType < 0x100 && h.sourceValue < 0x100_0000)
  }

  function CanonSample(s: Sample): Sample
    requires SampleOk(s)
  {
    var length := |EncodeSampleBody(s).value|;
    match s
    case RawSample(h, b) => RawSample(SampleHeader(h.format, length, 0, 0, 0), b)
    case Sample(kind, h, words, _, records) =>
      Sample(kind, SampleHeader(SampleFormat(s), length, h.seqNo, h.sourceType, h.sourceValue), words,
             Len(|records|), CanonRecords(kind, records))
  }

  lemma SourceSplits(t: u32, v: u32)
    requires t < 0x100 && v < 0x100_0000
    ensures SourceWord(t, v) / 0x100_0000 == t && SourceWord(t, v) % 0x100_0000 == v
  {
  }

  lemma SourceReads(format: u32, h: SampleHeader, rest: bytes)
    requires Compact(format) ==> h.sourceType < 0x100 && h.sourceValue < 0x100_0000
    ensures ReadSource(format, EncodeSource(format, h) + rest) == Some(Read((h.sourceType, h.sourceValue), rest))
  {
    hide ReadWord, ReadWords, SourceWord, U32, WordBytes;
    if Compact(format) {
      SourceSplits(h.sourceType, h.sourceValue);
      WordReads(SourceWord(h.sourceType, h.sourceValue), rest);
    } else {
      TwoWordBytes(h.sourceType, h.sourceValue);
      WordsRead([h.sourceType, h.sourceValue], rest);
    }
  }

  lemma NothingAbsent(rs: seq<Record>, n: nat)
    requires n == |rs|
    ensures Padded(rs, n) == rs
  {
  }

  lemma FormatKind(s: Sample)
    requires s.Sample? && FormatFits(s.kind, SampleFormat(s))
    ensures KindOfFormat(SampleFormat(s)) == Some(s.kind)
  {
  }

  lemma FilledIn(count: u32, actual: nat)
    requires actual <= MAX_COUNT && (count == 0 || count == actual)
    ensures Filled(count, actual) == Some(Len(actual)) && Len(actual) == actual
  {
  }

  lemma SampleReads(s: Sample)
    requires SampleOk(s)
    ensures SampleFormat(s) != 0
    ensures ReadSample(SampleFormat(s), |EncodeSampleBody(s).value|, EncodeSampleBody(s).value) == Some(CanonSample(s))
  {
    hide ReadWord, ReadWords, ReadSource, ReadRecords, EncodeRecords, EncodeSource, U32, WordBytes, Filled,
         CanonRecords, Len, RecordsOk, Padded, KindOfFormat;
    match s {
      case RawSample(_, _) =>
      case Sample(kind, h, words, count, records) =>
        var format := SampleFormat(s);
        FormatKind(s);
        FilledIn(count, |records|);
        RecordsRead(kind, records, []);
        var body := EncodeRecords(kind, records).value;
        Empty(body);
        var r3 := U32(Len(|records|)) + body;
        var r2 := WordBytes(words) + r3;
        var r1 := EncodeSource(format, h) + r2;
        WordReads(h.seqNo, r1);
        SourceReads(format, h, r2);
        WordsRead(words, r3);
        WordReads(Len(|records|), body);
        NothingAbsent(CanonRecords(kind, records), |records|);
    }
  }

  predicate SamplesOk(ss: seq<Sample>)
  {
    forall i :: 0 <= i < |ss| ==> SampleOk(ss[i])
  }

  function CanonSamples(ss: seq<Sample>): seq<Sample>
    requires SamplesOk(ss)
  {
    if ss == [] then [] else [CanonSample(ss[0])] + CanonSamples(ss[1..])
  }

  lemma EncodedBody(s: Sample) returns (body: bytes)
    requires SampleOk(s)
    ensures EncodeSampleBody(s) == Some(body) && |body| < TWO_32
            && EncodeSample(s) == Some(Block(SampleFormat(s), body))
  {
    body := EncodeSampleBody(s).value;
  }

  lemma NextSample(n: nat, format: u32, body: bytes, rest: bytes, s: Sample)
    requires n > 0 && |body| < TWO_32 && ReadSample(format, |body|, body) == Some(s)
    ensures var later := ReadSamples(n - 1, rest);
            ReadSamples(n, Block(format, body) + rest) == if later.None? then None else Some([s] + later.value)
  {
    hide ReadSample, Block, U32, HeadU32;
    BlockReads(format, body, rest);
  }

  lemma NoSamplesRead(data: bytes)
    ensures ReadSamples(0, data) == Some([])
  {
  }

  lemma {:induction false} SamplesRead(ss: seq<Sample>, rest: bytes)
    requires SamplesOk(ss)
    ensures EncodeSamples(ss).Some?
    ensures ReadSamples(|ss|, EncodeSamples(ss).value + rest) == Some(CanonSamples(ss))
    decreases |ss|
  {
    hide ReadSample, EncodeSample, EncodeSampleBody, SampleOk, CanonSample, SampleFormat, Block, ReadSamples;
    if ss == [] {
      NoSamplesRead(EncodeSamples(ss).value + rest);
    } else {
      var s := ss[0];
      var body := EncodedBody(s);
      SamplesRead(ss[1..], rest);
      var more := EncodeSamples(ss[1..]).value;
      SampleReads(s);
      Assoc(Block(SampleFormat(s), body), more, rest);
      NextSample(|ss|, SampleFormat(s), body, more + rest, CanonSample(s));
    }
  }

  // ---------- packets ----------

  predicate PacketOk(p: Packet)
  {
    && (p.version == 0 || p.version == 5)
    && ((|p.agentIP| == 4 && p.ipVersion <= 1) || (|p.agentIP| == 16 && (p.ipVersion == 0 || p.ipVersion == 2)))
    && |p.samples| <= MAX_COUNT && (p.count == 0 || p.count == |p.samples|) && SamplesOk(p.samples)
  }

  function CanonPacket(p: Packet): Packet
    requires PacketOk(p)
  {
    Packet(5, if |p.agentIP| == 4 then 1 else 2, p.agentIP, p.subAgent, p.seqNo, p.uptime, Len(|p.samples|),
           CanonSamples(p.samples))
  }

  lemma AgentReads(p: Packet, rest: bytes)
    requires PacketOk(p)
    ensures var v := if |p.agentIP| == 4 then 1 else 2;
            AgentVersion(p) == Some(v) && ReadAddress(U32(v) + (p.agentIP + rest))
              == Some(Read(Address(v, p.agentIP), rest))
  {
    var v := if |p.agentIP| == 4 then 1 else 2;
    AddressReads(v, p.agentIP, rest);
    Assoc(U32(v), p.agentIP, rest);
  }

  /** Decoding an encoded packet returns it with versions, counts and lengths filled in; octets after it are ignored. */
  lemma PacketRoundTrip(p: Packet, rest: bytes)
    requires PacketOk(p)
    ensures EncodePacket(p).Some? && ReadPacket(EncodePacket(p).value + rest) == Some(CanonPacket(p))
  {
    hide ReadWord, ReadWords, ReadAddress, ReadSamples, EncodeSamples, U32, WordBytes, Filled, CanonSamples, Len,
         SamplesOk, AgentVersion;
    var v, n := if |p.agentIP| == 4 then 1 else 2, Len(|p.samples|);
    FilledIn(p.count, |p.samples|);
    SamplesRead(p.samples, rest);
    var body := EncodeSamples(p.samples).value;
    var ws: seq<u32> := [p.subAgent, p.seqNo, p.uptime, n];
    var r2 := WordBytes(ws) + (body + rest);
    AgentReads(p, r2);
    var head := WordBytes(ws);
    Assoc(U32(5), U32(v) + (p.agentIP + head), body + rest);
    Assoc(U32(v), p.agentIP + head, body + rest);
    Assoc(p.agentIP, head, body + rest);
    Assoc(EncodeHead(p, v, n), body, rest);
    WordReads(5, U32(v) + (p.agentIP + r2));
    WordsRead(ws, body + rest);
  }
}

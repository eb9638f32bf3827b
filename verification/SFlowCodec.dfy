/** The sFlow encoder and decoder as they run: buffers written and consumed record by record. */
module SFlowCodec {
  import opened Bytes
  import opened SFlowTypes
  import opened SFlowPrinter
  import opened SFlowParser

  // ---------- writing ----------

  method WriteWords(buf: Buffer, ws: seq<u32>)
    modifies buf
    ensures buf.data == old(buf.data) + WordBytes(ws)
  {
    assert ws[0..] == ws;
    for i := 0 to |ws|
      invariant buf.data + WordBytes(ws[i..]) == old(buf.data) + WordBytes(ws)
    {
      assert ws[i..][1..] == ws[i + 1..];
      Assoc(buf.data, U32(ws[i]), WordBytes(ws[i + 1..]));
      buf.WriteU32(ws[i]);
    }
    assert ws[|ws|..] == [];
    Empty(buf.data);
  }

  /** What is still to come, appended to what is there; None once something failed. */
  function Plus(done: bytes, rest: Option<bytes>): Option<bytes>
  {
    if rest.None? then None else Some(done + rest.value)
  }

  lemma PlusCons(done: bytes, one: Option<bytes>, rest: Option<bytes>)
    ensures var whole := if one.None? || rest.None? then None else Some(one.value + rest.value);
            && (one.None? ==> Plus(done, whole).None?)
            && (one.Some? ==> Plus(done, whole) == Plus(done + one.value, rest))
  {
    if one.Some? && rest.Some? { Assoc(done, one.value, rest.value); }
  }

  lemma PlusNothing(done: bytes)
    ensures Plus([], Some(done)) == Some(done) && Plus(done, Some([])) == Some(done)
  {
    Empty(done);
  }

  /** A record's items in layout order. */
  method WriteItems(shapes: seq<Shape>, items: seq<Item>) returns (r: Option<bytes>)
    ensures r == EncodeItems(shapes, items)
  {
    hide EncodeItem;
    var payload := new Buffer([]);
    var j := 0;
    assert shapes[0..] == shapes && items[0..] == items;
    if EncodeItems(shapes, items).Some? { Empty(EncodeItems(shapes, items).value); }
    for i := 0 to |shapes|
      invariant 0 <= j <= |items|
      invariant Plus(payload.data, EncodeItems(shapes[i..], items[j..])) == EncodeItems(shapes, items)
      modifies payload
    {
      assert shapes[i..][1..] == shapes[i + 1..];
      if shapes[i].SGap? {
        PlusCons(payload.data, Some(Zeros(shapes[i].n)), EncodeItems(shapes[i + 1..], items[j..]));
        payload.Write(Zeros(shapes[i].n));
      } else {
        if j == |items| {
          return None;
        }
        assert items[j..][1..] == items[j + 1..];
        var one := EncodeItem(shapes[i], items[j]);
        PlusCons(payload.data, one, EncodeItems(shapes[i + 1..], items[j + 1..]));
        if one.None? {
          return None;
        }
        payload.Write(one.value);
        j := j + 1;
      }
    }
    assert shapes[|shapes|..] == [];
    if j < |items| {
      return None;
    }
    PlusNothing(payload.data);
    r := Some(payload.data);
  }

  method WriteRecord(kind: SampleKind, record: Record) returns (r: Option<bytes>)
    ensures r == EncodeRecord(kind, record)
  {
    var payload: bytes := [];
    match record.data {
      case Absent => return None;
      case Raw(b) => payload := b;
      case Typed(k, items) =>
        var shapes := ShapesOf(kind, k);
        if shapes.None? {
          return None;
        }
        var encoded := WriteItems(shapes.value, items);
        if encoded.None? {
          return None;
        }
        payload := encoded.value;
    }
    var dataFormat := record.dataFormat;
    if dataFormat == 0 && record.data.Typed? {
      dataFormat := record.data.kind;
    }
    if dataFormat == 0 {
      return None;
    }
    r := Some(Block(dataFormat, payload));
  }

  method WriteRecords(kind: SampleKind, records: seq<Record>) returns (r: Option<bytes>)
    ensures r == EncodeRecords(kind, records)
  {
    hide EncodeRecord;
    var buf := new Buffer([]);
    assert records[0..] == records;
    if EncodeRecords(kind, records).Some? { Empty(EncodeRecords(kind, records).value); }
    for i := 0 to |records|
      invariant Plus(buf.data, EncodeRecords(kind, records[i..])) == EncodeRecords(kind, records)
      modifies buf
    {
      assert records[i..][1..] == records[i + 1..];
      var one := WriteRecord(kind, records[i]);
      PlusCons(buf.data, one, EncodeRecords(kind, records[i + 1..]));
      if one.None? {
        return None;
      }
      buf.Write(one.value);
    }
    assert records[|records|..] == [];
    PlusNothing(buf.data);
    r := Some(buf.data);
  }

  method WriteSampleBody(s: Sample) returns (r: Option<bytes>)
    ensures r == EncodeSampleBody(s)
  {
    if s.RawSample? {
      return if s.header.format == 0 then None else Some(s.octets);
    }
    var format := SampleFormat(s);
    if !FormatFits(s.kind, format) || |s.words| != WordCount(s.kind) {
      return None;
    }
    var count := Filled(s.count, |s.records|);
    if count.None? {
      return None;
    }
    var body := WriteRecords(s.kind, s.records);
    if body.None? {
      return None;
    }
    var buf := new Buffer([]);
    buf.WriteU32(s.header.seqNo);
    buf.Write(EncodeSource(format, s.header));
    WriteWords(buf, s.words);
    buf.WriteU32(count.value);
    buf.Write(body.value);
    Nested(U32(s.header.seqNo), EncodeSource(format, s.header), WordBytes(s.words), U32(count.value), body.value);
    r := Some(buf.data);
  }

  lemma Nested(a: bytes, b: bytes, c: bytes, d: bytes, e: bytes)
    ensures [] + a + b + c + d + e == a + (b + (c + (d + e)))
  {
    Empty(a);
    Assoc(a, b, c);
    Assoc(a, b + c, d);
    Assoc(b, c, d);
    Assoc(a, b + (c + d), e);
    Assoc(b, c + d, e);
    Assoc(c, d, e);
  }

  /** The header, then every sample behind its format and length. */
  method EncodeMessage(p: Packet) returns (r: Option<bytes>)
    ensures r == EncodePacket(p)
  {
    hide EncodeSample, EncodeSampleBody, Block, AgentVersion, Filled, EncodeHead;
    if p.version != 0 && p.version != 5 {
      return None;
    }
    var version, count := AgentVersion(p), Filled(p.count, |p.samples|);
    if version.None? || count.None? {
      return None;
    }
    var buf := new Buffer(EncodeHead(p, version.value, count.value));
    ghost var head := buf.data;
    assert p.samples[0..] == p.samples;
    for i := 0 to |p.samples|
      invariant Plus(buf.data, EncodeSamples(p.samples[i..])) == Plus(head, EncodeSamples(p.samples))
      modifies buf
    {
      assert p.samples[i..][1..] == p.samples[i + 1..];
      var body := WriteSampleBody(p.samples[i]);
      SampleIsBlock(p.samples[i]);
      PlusCons(buf.data, EncodeSample(p.samples[i]), EncodeSamples(p.samples[i + 1..]));
      if body.None? {
        return None;
      }
      buf.Write(Block(SampleFormat(p.samples[i]), body.value));
    }
    assert p.samples[|p.samples|..] == [];
    PlusNothing(buf.data);
    r := Some(buf.data);
  }

  lemma SampleIsBlock(s: Sample)
    ensures var body := EncodeSampleBody(s);
            EncodeSample(s) == if body.None? then None else Some(Block(SampleFormat(s), body.value))
  {
  }

  // ---------- reading ----------

  /** Items already read in front of what the rest gives. */
  function Before<T>(done: seq<T>, rest: Option<seq<T>>): Option<seq<T>>
  {
    if rest.None? then None else Some(done + rest.value)
  }

  lemma BeforeCons<T>(done: seq<T>, one: T, rest: Option<seq<T>>)
    ensures Before(done, Before([one], rest)) == Before(done + [one], rest)
  {
    if rest.Some? { Assoc(done, [one], rest.value); }
  }

  lemma BeforeNothing<T>(done: seq<T>, rest: Option<seq<T>>)
    ensures Before(done, Some([])) == Some(done) && Before([], rest) == rest
  {
    Empty(done);
    if rest.Some? { Empty(rest.value); }
  }

  method DecodeItems(shapes: seq<Shape>, payload: bytes) returns (r: Option<seq<Item>>)
    ensures r == ReadItems(shapes, payload)
  {
    hide ReadItem;
    var buf, items := payload, [];
    assert shapes[0..] == shapes;
    BeforeNothing(items, ReadItems(shapes, payload));
    for i := 0 to |shapes|
      invariant Before(items, ReadItems(shapes[i..], buf)) == ReadItems(shapes, payload)
    {
      assert shapes[i..][1..] == shapes[i + 1..];
      var item := ReadItem(shapes[i], buf);
      if item.None? {
        return None;
      }
      buf := item.value.rest;
      if !shapes[i].SGap? {
        BeforeCons(items, item.value.value, ReadItems(shapes[i + 1..], buf));
        items := items + [item.value.value];
      }
    }
    assert shapes[|shapes|..] == [];
    BeforeNothing(items, None);
    r := Some(items);
  }

  method DecodeData(kind: SampleKind, format: u32, payload: bytes) returns (r: Option<Data>)
    ensures r == ReadData(kind, format, payload)
  {
    var shapes := ShapesOf(kind, format);
    if Enterprise(format) != 0 || shapes.None? {
      return Some(Raw(payload));
    }
    var items := DecodeItems(shapes.value, payload);
    r := if items.None? then None else Some(Typed(format, items.value));
  }

  method DecodeRecords(kind: SampleKind, count: nat, payload: bytes) returns (r: Option<seq<Record>>)
    ensures r == ReadRecords(kind, count, payload)
  {
    hide ReadData;
    var buf, records, i := payload, [], 0;
    BeforeNothing(records, ReadRecords(kind, count, payload));
    while i < count && |buf| >= 8
      invariant 0 <= i <= count
      invariant Before(records, ReadRecords(kind, count - i, buf)) == ReadRecords(kind, count, payload)
    {
      var format, length, rest := HeadU32(buf), HeadU32(buf[4..]), buf[8..];
      if length > |rest| {
        BeforeNothing(records, None);
        return Some(records);
      }
      var data := DecodeData(kind, format, rest[..length]);
      if data.None? {
        return None;
      }
      var record := Record(format, length, data.value);
      BeforeCons(records, record, ReadRecords(kind, count - i - 1, rest[length..]));
      records, buf, i := records + [record], rest[length..], i + 1;
    }
    BeforeNothing(records, None);
    r := Some(records);
  }

  method DecodeSample(format: u32, length: u32, payload: bytes) returns (r: Option<Sample>)
    ensures r == ReadSample(format, length, payload)
  {
    hide ReadRecords, ReadWords, ReadWord, ReadSource, Padded;
    var kind := KindOfFormat(format);
    if kind.None? {
      return Some(RawSample(SampleHeader(format, length, 0, 0, 0), payload));
    }
    var seqNo := ReadWord(payload);
    if seqNo.None? {
      return None;
    }
    var source := ReadSource(format, seqNo.value.rest);
    if source.None? {
      return None;
    }
    var words := ReadWords(WordCount(kind.value), source.value.rest);
    if words.None? {
      return None;
    }
    var count := ReadWord(words.value.rest);
    if count.None? || count.value.value > MAX_COUNT {
      return None;
    }
    var records := DecodeRecords(kind.value, count.value.value, count.value.rest);
    if records.None? {
      return None;
    }
    var header := SampleHeader(format, length, seqNo.value.value, source.value.value.0, source.value.value.1);
    r := Some(Sample(kind.value, header, words.value.value, count.value.value,
                     Padded(records.value, count.value.value)));
  }

  method DecodeSamples(count: nat, payload: bytes) returns (r: Option<seq<Sample>>)
    ensures r == ReadSamples(count, payload)
  {
    hide ReadSample;
    var buf, samples := payload, [];
    BeforeNothing(samples, ReadSamples(count, payload));
    for i := 0 to count
      invariant Before(samples, ReadSamples(count - i, buf)) == ReadSamples(count, payload)
    {
      if |buf| < 8 {
        return None;
      }
      var format, length, rest := HeadU32(buf), HeadU32(buf[4..]), buf[8..];
      if length > |rest| {
        return None;
      }
      var sample := DecodeSample(format, length, rest[..length]);
      if sample.None? {
        return None;
      }
      BeforeCons(samples, sample.value, ReadSamples(count - i - 1, rest[length..]));
      samples, buf := samples + [sample.value], rest[length..];
    }
    BeforeNothing(samples, None);
    r := Some(samples);
  }

  method DecodeMessageVersion(payload: bytes) returns (r: Option<Packet>)
    ensures r == ReadPacket(payload)
  {
    hide ReadSamples, ReadWords, ReadWord, ReadAddress;
    var version := ReadWord(payload);
    if version.None? || version.value.value != 5 {
      return None;
    }
    var agent := ReadAddress(version.value.rest);
    if agent.None? {
      return None;
    }
    var words := ReadWords(4, agent.value.rest);
    if words.None? {
      return None;
    }
    var ws := words.value.value;
    if ws[3] > MAX_COUNT {
      return None;
    }
    var samples := DecodeSamples(ws[3], words.value.rest);
    if samples.None? {
      return None;
    }
    r := Some(Packet(5, agent.value.value.version, agent.value.value.ip, ws[0], ws[1], ws[2], ws[3], samples.value));
  }
}

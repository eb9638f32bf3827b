/** NetFlow v5: fixed records, and flow times carried relative to the exporter's uptime. */
module NetFlowV5 {
  import opened Bytes

  const TWO_32 := 0x1_0000_0000

  // ---------- fixed layouts ----------

  /** Octets of each header field after the version, and of each record field. */
  const HEADER: seq<nat> := [2, 4, 4, 4, 4, 1, 1, 2]
  const RECORD: seq<nat> := [4, 4, 4, 2, 2, 4, 4, 4, 4, 2, 2, 1, 1, 1, 1, 2, 2, 1, 1, 2]

  function Range(width: nat): nat
  {
    if width == 1 then 0x100 else if width == 2 then 0x1_0000 else TWO_32
  }

  predicate Known(widths: seq<nat>)
  {
    forall i :: 0 <= i < |widths| ==> widths[i] == 1 || widths[i] == 2 || widths[i] == 4
  }

  /** Values that fit their fields. */
  predicate Fits(widths: seq<nat>, vs: seq<nat>)
  {
    |vs| == |widths| && forall i :: 0 <= i < |vs| ==> vs[i] < Range(widths[i])
  }

  function Total(widths: seq<nat>): nat
  {
    if widths == [] then 0 else widths[0] + Total(widths[1..])
  }

  function PutField(width: nat, v: nat): bytes
    requires v < Range(width)
  {
    if width == 1 then [v] else if width == 2 then U16(v) else U32(v)
  }

  function PutFields(widths: seq<nat>, vs: seq<nat>): bytes
    requires Fits(widths, vs)
  {
    if widths == [] then [] else PutField(widths[0], vs[0]) + PutFields(widths[1..], vs[1..])
  }

  function GetFields(widths: seq<nat>, s: bytes): (r: Option<(seq<nat>, bytes)>)
    requires Known(widths)
    ensures r.Some? ==> Fits(widths, r.value.0) && |s| == Total(widths) + |r.value.1|
    ensures r.None? ==> |s| < Total(widths)
  {
    if widths == [] then Some(([], s))
    else if |s| < widths[0] then None
    else
      var v := if widths[0] == 1 then s[0] else if widths[0] == 2 then HeadU16(s) else HeadU32(s);
      match GetFields(widths[1..], s[widths[0]..])
      case None => None
      case Some((vs, rest)) => Some(([v] + vs, rest))
  }

  lemma {:induction false} FieldsReadBack(widths: seq<nat>, vs: seq<nat>, rest: bytes)
    requires Known(widths) && Fits(widths, vs)
    ensures |PutFields(widths, vs)| == Total(widths)
    ensures GetFields(widths, PutFields(widths, vs) + rest) == Some((vs, rest))
  {
    if widths == [] {
      Empty(rest);
    } else {
      var tail := PutFields(widths[1..], vs[1..]);
      FieldsReadBack(widths[1..], vs[1..], rest);
      Assoc(PutField(widths[0], vs[0]), tail, rest);
      if widths[0] == 2 {
        ReadBackU16(vs[0], tail + rest);
      } else if widths[0] == 4 {
        ReadBackU32(vs[0], tail + rest);
      } else {
        assert ([vs[0]] + (tail + rest))[1..] == tail + rest;
      }
      assert [vs[0]] + vs[1..] == vs;
    }
  }

  // ---------- packets ----------

  /** `records` hold their fields in wire order: addresses, interfaces, counters, times, ports, flags, masks. */
  datatype Packet = Packet(
    version: u16, count: u16, sysUptime: u32, unixSecs: u32, unixNSecs: u32, flowSequence: u32,
    engineType: u8, engineId: u8, samplingInterval: u16, records: seq<seq<nat>>)

  predicate RecordsFit(rs: seq<seq<nat>>)
  {
    forall i :: 0 <= i < |rs| ==> Fits(RECORD, rs[i])
  }

  function HeaderOf(p: Packet, count: u16): seq<nat>
  {
    [count, p.sysUptime, p.unixSecs, p.unixNSecs, p.flowSequence, p.engineType, p.engineId, p.samplingInterval]
  }

  function PutRecords(rs: seq<seq<nat>>): bytes
    requires RecordsFit(rs)
  {
    if rs == [] then [] else PutFields(RECORD, rs[0]) + PutRecords(rs[1..])
  }

  function CountOf(p: Packet): u16
  {
    if p.count == 0 then |p.records| % 0x1_0000 else p.count
  }

  lemma HeaderFits(p: Packet, count: u16)
    ensures Fits(HEADER, HeaderOf(p, count)) && Known(HEADER) && Known(RECORD)
  {
  }

  function Encode(p: Packet): Option<bytes>
    requires RecordsFit(p.records)
  {
    if (p.version != 0 && p.version != 5) || CountOf(p) != |p.records| then None
    else
      HeaderFits(p, CountOf(p));
      Some(U16(5) + (PutFields(HEADER, HeaderOf(p, CountOf(p))) + PutRecords(p.records)))
  }

  /** Records are read while whole ones are left; those announced and not there are zero. */
  function GetRecords(n: nat, s: bytes): (rs: seq<seq<nat>>)
    ensures |rs| == n
  {
    if n == 0 then []
    else
      HeaderFits(Packet(0, 0, 0, 0, 0, 0, 0, 0, 0, []), 0);
      match GetFields(RECORD, s)
      case None => [Blank()] + GetRecords(n - 1, [])
      case Some((r, rest)) => [r] + GetRecords(n - 1, rest)
  }

  function Blank(): seq<nat>
  {
    seq(|RECORD|, i => 0)
  }

  function Decode(s: bytes): Option<Packet>
  {
    if |s| < 2 || HeadU16(s) != 5 then None
    else
      HeaderFits(Packet(0, 0, 0, 0, 0, 0, 0, 0, 0, []), 0);
      match GetFields(HEADER, s[2..])
      case None => None
      case Some((h, rest)) =>
        FitsHeader(h);
        Some(Packet(5, h[0], h[1], h[2], h[3], h[4], h[5], h[6], h[7], GetRecords(h[0], rest)))
  }

  lemma FitsHeader(h: seq<nat>)
    requires Fits(HEADER, h)
    ensures |h| == 8 && h[0] < 0x1_0000 && h[1] < TWO_32 && h[2] < TWO_32 && h[3] < TWO_32 && h[4] < TWO_32
    ensures h[5] < 0x100 && h[6] < 0x100 && h[7] < 0x1_0000
  {
    assert HEADER[0] == 2 && HEADER[1] == 4 && HEADER[2] == 4 && HEADER[3] == 4 && HEADER[4] == 4 && HEADER[5] == 1
           && HEADER[6] == 1 && HEADER[7] == 2;
  }

  lemma PutCons(rs: seq<seq<nat>>)
    requires RecordsFit(rs) && rs != []
    ensures Fits(RECORD, rs[0]) && RecordsFit(rs[1..])
            && PutRecords(rs) == PutFields(RECORD, rs[0]) + PutRecords(rs[1..])
  {
    hide Fits, PutFields;
  }

  lemma GetCons(n: nat, s: bytes, r: seq<nat>, rest: bytes)
    requires Known(RECORD) && GetFields(RECORD, s) == Some((r, rest))
    ensures GetRecords(n + 1, s) == [r] + GetRecords(n, rest)
  {
    hide GetFields;
  }

  lemma GetNone(s: bytes)
    ensures GetRecords(0, s) == []
  {
  }

  lemma GetBlank(n: nat, s: bytes)
    requires Known(RECORD) && GetFields(RECORD, s).None?
    ensures GetRecords(n + 1, s) == [Blank()] + GetRecords(n, [])
  {
    hide GetFields, Blank;
  }

  lemma {:induction false} RecordsReadBack(rs: seq<seq<nat>>, rest: bytes)
    requires RecordsFit(rs)
    ensures GetRecords(|rs|, PutRecords(rs) + rest) == rs
  {
    hide *;
    if rs == [] {
      GetNone(PutRecords(rs) + rest);
    } else {
      PutCons(rs);
      HeaderFits(Packet(0, 0, 0, 0, 0, 0, 0, 0, 0, []), 0);
      var head, tail := PutFields(RECORD, rs[0]), PutRecords(rs[1..]);
      Assoc(head, tail, rest);
      FieldsReadBack(RECORD, rs[0], tail + rest);
      GetCons(|rs| - 1, head + (tail + rest), rs[0], tail + rest);
      RecordsReadBack(rs[1..], rest);
      assert [rs[0]] + rs[1..] == rs;
    }
  }

  /** Decoding an encoded packet returns it with its version and count filled in. */
  lemma PacketRoundTrip(p: Packet, rest: bytes)
    requires RecordsFit(p.records) && Encode(p).Some?
    ensures Decode(Encode(p).value + rest) == Some(p.(version := 5, count := CountOf(p)))
  {
    hide GetFields, PutFields, PutRecords, GetRecords, Fits, RecordsFit, U16;
    var n := CountOf(p);
    HeaderFits(p, n);
    var header, body := PutFields(HEADER, HeaderOf(p, n)), PutRecords(p.records);
    Assoc(U16(5), header + body, rest);
    Assoc(header, body, rest);
    ReadBackU16(5, header + (body + rest));
    FieldsReadBack(HEADER, HeaderOf(p, n), body + rest);
    RecordsReadBack(p.records, rest);
  }

  // ---------- flow times ----------

  /** The export time: the flow's end, else its start, else when it was received. */
  function ExportMs(received: int, start: int, end: int): int
  {
    if end > 0 then end else if start > 0 then start else received
  }

  function Least(a: int, b: int, c: int): int
  {
    var d := if b < a then b else a;
    if c < d then c else d
  }

  datatype Window = Window(sysUptime: u32, first: u32, last: u32)

  function UptimeWindow(export_: int, start: int, end: int): Window
  {
    var s := if start <= 0 then export_ else start;
    var e := if end <= 0 then export_ else end;
    var base := Least(export_, s, e);
    Window((export_ - base) % TWO_32, (s - base) % TWO_32, (e - base) % TWO_32)
  }

  /** The absolute time the decoder makes of a relative one. */
  function FlowTime(secs: u32, nanos: u32, uptime: u32, switched: u32): int
  {
    secs as int * 1000 + nanos as int / 1000000 - (uptime as int - switched as int)
  }

  function Secs(ms: int): u32
  {
    ms / 1000 % TWO_32
  }

  function Nanos(ms: int): u32
  {
    ms % 1000 * 1000000
  }

  lemma ExportTime(ms: int)
    requires ms > 0
    ensures Secs(ms) as int * 1000 + Nanos(ms) as int / 1000000 == ms <==> ms < TWO_32 * 1000
  {
    assert Nanos(ms) as int / 1000000 == ms % 1000;
    if ms < TWO_32 * 1000 { assert ms / 1000 < TWO_32; }
  }

  /**
   * A flow with positive start and end times gets both back exactly if and only if its end fits the seconds field
   * and the two are less than 2^32 milliseconds apart.
   */
  lemma TimesRoundTrip(received: int, start: int, end: int)
    requires start > 0 && end > 0
    ensures var export_ := ExportMs(received, start, end);
            var w, s, n := UptimeWindow(export_, start, end), Secs(export_), Nanos(export_);
            (FlowTime(s, n, w.sysUptime, w.first) == start && FlowTime(s, n, w.sysUptime, w.last) == end)
            <==> end < TWO_32 * 1000 && -TWO_32 < end - start < TWO_32
  {
    hide Secs, Nanos;
    ExportTime(end);
  }

  /** A flow of exactly 2^32 milliseconds comes back as one that starts when it ends. */
  lemma LongFlowCollapses(received: int, start: int)
    requires 0 < start && start + TWO_32 < TWO_32 * 1000
    ensures var end := start + TWO_32;
            var w := UptimeWindow(ExportMs(received, start, end), start, end);
            FlowTime(Secs(end), Nanos(end), w.sysUptime, w.first) == end
  {
    hide Secs, Nanos;
    ExportTime(start + TWO_32);
  }

  // ---------- one flow ----------

  const FIRST := 7
  const LAST := 8

  /** The packet for one flow: its fields in wire order, with the two times replaced by relative ones. */
  function BuildPacket(fields: seq<nat>, received: int, start: int, end: int, seqNo: u32, engineType: u8, engineId: u8,
                       sampling: u16): Packet
    requires |fields| == |RECORD|
  {
    var export_ := ExportMs(received, start, end);
    var w := UptimeWindow(export_, start, end);
    Packet(5, 1, w.sysUptime, Secs(export_), Nanos(export_), seqNo, engineType, engineId, sampling,
           [fields[FIRST := w.first][LAST := w.last]])
  }

  /** The decoded packet holds the one flow, apart from its times. */
  predicate Carries(q: Packet, fields: seq<nat>)
  {
    && |q.records| == 1 && |q.records[0]| == |fields|
    && forall i :: 0 <= i < |fields| && i != FIRST && i != LAST ==> q.records[0][i] == fields[i]
  }

  function TimeAt(q: Packet, i: nat): int
  {
    if |q.records| > 0 && i < |q.records[0]|
      then FlowTime(q.unixSecs, q.unixNSecs, q.sysUptime, q.records[0][i] % TWO_32) else 0
  }

  /** The flow that comes out of the packet is the one that went in, its times exactly when they are representable. */
  lemma FlowRoundTrip(fields: seq<nat>, received: int, start: int, end: int, seqNo: u32, engineType: u8, engineId: u8,
                      sampling: u16)
    requires Fits(RECORD, fields) && start > 0 && end > 0
    ensures var p := BuildPacket(fields, received, start, end, seqNo, engineType, engineId, sampling);
            && RecordsFit(p.records) && Encode(p).Some? && Decode(Encode(p).value) == Some(p) && Carries(p, fields)
            && (TimeAt(p, FIRST) == start && TimeAt(p, LAST) == end
                <==> end < TWO_32 * 1000 && -TWO_32 < end - start < TWO_32)
  {
    hide Encode, Decode, UptimeWindow, FlowTime, Secs, Nanos, Fits, RecordsFit;
    Sizes();
    FitsLength(fields);
    var p := BuildPacket(fields, received, start, end, seqNo, engineType, engineId, sampling);
    BuiltFits(fields, p.records[0]);
    BuiltEncodes(p);
    PacketRoundTrip(p, []);
    Empty(Encode(p).value);
    TimesRoundTrip(received, start, end);
  }

  lemma Sizes()
    ensures |RECORD| == 20
  {
  }

  lemma FitsLength(fields: seq<nat>)
    requires Fits(RECORD, fields)
    ensures |fields| == |RECORD|
  {
  }

  lemma BuiltFits(fields: seq<nat>, r: seq<nat>)
    requires Fits(RECORD, fields) && |r| == |fields| && r == fields[FIRST := r[FIRST]][LAST := r[LAST]]
    requires r[FIRST] < TWO_32 && r[LAST] < TWO_32
    ensures RecordsFit([r])
  {
    assert RECORD[FIRST] == 4 && RECORD[LAST] == 4;
    forall i | 0 <= i < |r| ensures r[i] < Range(RECORD[i]) {
    }
  }

  lemma BuiltEncodes(p: Packet)
    requires RecordsFit(p.records) && p.version == 5 && p.count == 1 && |p.records| == 1
    ensures Encode(p).Some? && p.(version := 5, count := CountOf(p)) == p
  {
    hide PutFields, PutRecords;
  }

  // ---------- the loops ----------

  method WriteFields(buf: Buffer, widths: seq<nat>, vs: seq<nat>)
    requires Known(widths) && Fits(widths, vs)
    modifies buf
    ensures buf.data == old(buf.data) + PutFields(widths, vs)
  {
    assert widths[0..] == widths && vs[0..] == vs;
    for i := 0 to |widths|
      invariant Fits(widths[i..], vs[i..])
                && buf.data + PutFields(widths[i..], vs[i..]) == old(buf.data) + PutFields(widths, vs)
    {
      assert widths[i..][1..] == widths[i + 1..] && vs[i..][1..] == vs[i + 1..];
      Assoc(buf.data, PutField(widths[i], vs[i]), PutFields(widths[i + 1..], vs[i + 1..]));
      assert vs[i] < Range(widths[i]);
      if widths[i] == 1 {
        buf.WriteU8(vs[i]);
      } else if widths[i] == 2 {
        buf.WriteU16(vs[i]);
      } else {
        buf.WriteU32(vs[i]);
      }
    }
    assert widths[|widths|..] == [];
    Empty(buf.data);
  }

  method EncodeMessage(p: Packet) returns (r: Option<bytes>)
    requires RecordsFit(p.records)
    ensures r == Encode(p)
  {
    hide PutFields, Fits;
    if (p.version != 0 && p.version != 5) || CountOf(p) != |p.records| {
      return None;
    }
    HeaderFits(p, CountOf(p));
    var buf := new Buffer([]);
    buf.WriteU16(5);
    WriteFields(buf, HEADER, HeaderOf(p, CountOf(p)));
    ghost var head := buf.data;
    assert p.records[0..] == p.records;
    for i := 0 to |p.records|
      invariant RecordsFit(p.records[i..]) && buf.data + PutRecords(p.records[i..]) == head + PutRecords(p.records)
      modifies buf
    {
      assert p.records[i..][1..] == p.records[i + 1..];
      PutCons(p.records[i..]);
      Assoc(buf.data, PutFields(RECORD, p.records[i]), PutRecords(p.records[i + 1..]));
      WriteFields(buf, RECORD, p.records[i]);
    }
    assert p.records[|p.records|..] == [];
    Empty(buf.data);
    Empty(U16(5));
    Assoc(U16(5), PutFields(HEADER, HeaderOf(p, CountOf(p))), PutRecords(p.records));
    r := Some(buf.data);
  }

  method DecodeRecords(count: nat, payload: bytes) returns (records: seq<seq<nat>>)
    ensures records == GetRecords(count, payload)
  {
    hide GetFields, GetRecords, Blank, Fits, Total;
    HeaderFits(Packet(0, 0, 0, 0, 0, 0, 0, 0, 0, []), 0);
    records := [];
    var rest := payload;
    var i := 0;
    Empty(GetRecords(count, payload));
    while i < count
      invariant 0 <= i <= count && records + GetRecords(count - i, rest) == GetRecords(count, payload)
    {
      var r := GetFields(RECORD, rest);
      if r.Some? {
        GetCons(count - i - 1, rest, r.value.0, r.value.1);
        Assoc(records, [r.value.0], GetRecords(count - i - 1, r.value.1));
        records, rest := records + [r.value.0], r.value.1;
      } else {
        GetBlank(count - i - 1, rest);
        Assoc(records, [Blank()], GetRecords(count - i - 1, []));
        records, rest := records + [Blank()], [];
      }
      i := i + 1;
    }
    GetNone(rest);
    Empty(records);
  }

  method DecodeMessageVersion(payload: bytes) returns (r: Option<Packet>)
    ensures r == Decode(payload)
  {
    hide GetFields, GetRecords;
    if |payload| < 2 || HeadU16(payload) != 5 {
      return None;
    }
    HeaderFits(Packet(0, 0, 0, 0, 0, 0, 0, 0, 0, []), 0);
    var header := GetFields(HEADER, payload[2..]);
    if header.None? {
      return None;
    }
    var (h, rest) := header.value;
    FitsHeader(h);
    var records := DecodeRecords(h[0], rest);
    r := Some(Packet(5, h[0], h[1], h[2], h[3], h[4], h[5], h[6], h[7], records));
  }
}

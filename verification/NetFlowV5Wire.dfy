/** NetFlow v5 packets octet by octet: where each named field of the header and of a flow record stands. */
module NetFlowV5Wire {
  import opened Bytes
  import opened Wire
  import opened NetFlowV5

  datatype Flow = Flow(
    srcAddr: u32, dstAddr: u32, nextHop: u32, input: u16, output: u16, packets: u32, octets: u32, first: u32, last: u32,
    srcPort: u16, dstPort: u16, pad1: u8, tcpFlags: u8, proto: u8, tos: u8, srcAS: u16, dstAS: u16, srcMask: u8,
    dstMask: u8, pad2: u16)

  datatype Header = Header(
    sysUptime: u32, unixSecs: u32, unixNSecs: u32, flowSequence: u32, engineType: u8, engineId: u8,
    samplingInterval: u16)

  function Join(pieces: seq<bytes>): bytes
  {
    if pieces == [] then [] else pieces[0] + Join(pieces[1..])
  }

  /** The fields of a record, 48 octets in all. */
  function FlowPieces(f: Flow): seq<bytes>
  {
    [W32(f.srcAddr), W32(f.dstAddr), W32(f.nextHop), W16(f.input), W16(f.output), W32(f.packets), W32(f.octets),
     W32(f.first), W32(f.last), W16(f.srcPort), W16(f.dstPort), [f.pad1], [f.tcpFlags], [f.proto], [f.tos],
     W16(f.srcAS), W16(f.dstAS), [f.srcMask], [f.dstMask], W16(f.pad2)]
  }

  function FlowsOctets(fs: seq<Flow>): bytes
  {
    if fs == [] then [] else Join(FlowPieces(fs[0])) + FlowsOctets(fs[1..])
  }

  /** The fields of the header after the version. */
  function HeaderPieces(h: Header, count: u16): seq<bytes>
  {
    [W16(count), W32(h.sysUptime), W32(h.unixSecs), W32(h.unixNSecs), W32(h.flowSequence), [h.engineType],
     [h.engineId], W16(h.samplingInterval)]
  }

  function PacketOctets(h: Header, count: u16, fs: seq<Flow>): bytes
  {
    W16(5) + (Join(HeaderPieces(h, count)) + FlowsOctets(fs))
  }

  function FieldsOf(f: Flow): seq<nat>
  {
    [f.srcAddr, f.dstAddr, f.nextHop, f.input, f.output, f.packets, f.octets, f.first, f.last, f.srcPort, f.dstPort,
     f.pad1, f.tcpFlags, f.proto, f.tos, f.srcAS, f.dstAS, f.srcMask, f.dstMask, f.pad2]
  }

  function RecordsOf(fs: seq<Flow>): seq<seq<nat>>
  {
    if fs == [] then [] else [FieldsOf(fs[0])] + RecordsOf(fs[1..])
  }

  function Zeroed(n: nat): seq<seq<nat>>
  {
    seq(n, i => seq(20, j => 0))
  }

  /** The packet these octets stand for; records announced and not there are zero. */
  function PacketOf(h: Header, count: u16, fs: seq<Flow>): Packet
    requires |fs| <= count
  {
    Packet(5, count, h.sysUptime, h.unixSecs, h.unixNSecs, h.flowSequence, h.engineType, h.engineId,
           h.samplingInterval, RecordsOf(fs) + Zeroed(count - |fs|))
  }

  // ---------- fields ----------

  lemma {:induction false} FieldsAre(widths: seq<nat>, vs: seq<nat>, pieces: seq<bytes>)
    requires Fits(widths, vs) && |pieces| == |widths|
    requires forall i :: 0 <= i < |vs| ==> pieces[i] == PutField(widths[i], vs[i])
    ensures PutFields(widths, vs) == Join(pieces)
  {
    if widths != [] { FieldsAre(widths[1..], vs[1..], pieces[1..]); }
  }

  lemma PieceIs(width: nat, v: u32)
    requires v < Range(width)
    ensures width == 1 ==> PutField(width, v) == [v]
    ensures width == 2 ==> PutField(width, v) == W16(v)
    ensures width == 4 ==> PutField(width, v) == W32(v)
  {
    if width == 2 { WordsAreBigEndian(v, 0); } else { WordsAreBigEndian(0, v); }
  }

  lemma FlowFits(f: Flow)
    ensures Known(RECORD) && Fits(RECORD, FieldsOf(f))
  {
  }

  lemma FlowIs(f: Flow)
    ensures Known(RECORD) && Fits(RECORD, FieldsOf(f)) && PutFields(RECORD, FieldsOf(f)) == Join(FlowPieces(f))
  {
    hide W16, W32, PutField, PutFields, Join;
    FlowFits(f);
    var vs, pieces := FieldsOf(f), FlowPieces(f);
    forall i | 0 <= i < 20 ensures pieces[i] == PutField(RECORD[i], vs[i]) {
      PieceIs(RECORD[i], vs[i]);
    }
    FieldsAre(RECORD, vs, pieces);
  }

  lemma HeaderIs(p: Packet, h: Header, count: u16)
    requires p.sysUptime == h.sysUptime && p.unixSecs == h.unixSecs && p.unixNSecs == h.unixNSecs
    requires p.flowSequence == h.flowSequence && p.engineType == h.engineType && p.engineId == h.engineId
    requires p.samplingInterval == h.samplingInterval
    ensures Known(HEADER) && Fits(HEADER, HeaderOf(p, count))
    ensures PutFields(HEADER, HeaderOf(p, count)) == Join(HeaderPieces(h, count))
  {
    hide W16, W32, PutField, PutFields, Join;
    HeaderFits(p, count);
    var vs, pieces := HeaderOf(p, count), HeaderPieces(h, count);
    forall i | 0 <= i < 8 ensures pieces[i] == PutField(HEADER[i], vs[i]) {
      PieceIs(HEADER[i], vs[i]);
    }
    FieldsAre(HEADER, vs, pieces);
  }

  lemma {:induction false} TotalAppend(a: seq<nat>, b: seq<nat>)
    ensures Total(a + b) == Total(a) + Total(b)
  {
    if a == [] {
      Empty(b);
    } else {
      assert (a + b)[1..] == a[1..] + b;
      TotalAppend(a[1..], b);
    }
  }

  lemma OfFour(a: nat, b: nat, c: nat, d: nat) returns (widths: seq<nat>)
    ensures widths == [a, b, c, d] && Total(widths) == a + b + c + d
  {
    widths := [a, b, c, d];
    assert widths[1..] == [b, c, d] && [b, c, d][1..] == [c, d] && [c, d][1..] == [d] && [d][1..] == [];
    assert Total([d]) == d;
    assert Total([c, d]) == c + d;
    assert Total([b, c, d]) == b + c + d;
  }

  lemma RecordIsFortyEight()
    ensures Total(RECORD) == 48
  {
    var e := OfFour(2, 1, 1, 2);
    var d := OfFour(1, 1, 1, 2);
    var c := OfFour(4, 2, 2, 1);
    var b := OfFour(2, 4, 4, 4);
    var a := OfFour(4, 4, 4, 2);
    TotalAppend(d, e);
    TotalAppend(c, d + e);
    TotalAppend(b, c + (d + e));
    TotalAppend(a, b + (c + (d + e)));
    assert RECORD == a + (b + (c + (d + e)));
  }

  // ---------- records ----------

  lemma BlankIs()
    ensures Blank() == seq(20, j => 0)
  {
  }

  lemma {:induction false} NothingLeft(n: nat, rest: bytes)
    requires |rest| < 48
    ensures GetRecords(n, rest) == Zeroed(n)
  {
    hide GetFields, Blank, GetRecords, Total;
    if n == 0 {
      GetNone(rest);
    } else {
      RecordIsFortyEight();
      HeaderFits(Packet(0, 0, 0, 0, 0, 0, 0, 0, 0, []), 0);
      GetBlank(n - 1, rest);
      BlankIs();
      NothingLeft(n - 1, []);
      assert [seq(20, j => 0)] + Zeroed(n - 1) == Zeroed(n);
    }
  }

  lemma NoFlows()
    ensures FlowsOctets([]) == [] && RecordsOf([]) == [] && Zeroed(0) == []
  {
  }

  lemma FlowsCons(fs: seq<Flow>)
    requires fs != []
    ensures FlowsOctets(fs) == Join(FlowPieces(fs[0])) + FlowsOctets(fs[1..])
    ensures RecordsOf(fs) == [FieldsOf(fs[0])] + RecordsOf(fs[1..])
  {
  }

  lemma {:induction false} FlowsRead(n: nat, fs: seq<Flow>, rest: bytes)
    requires |fs| <= n && (|fs| == n || |rest| < 48)
    ensures GetRecords(n, FlowsOctets(fs) + rest) == RecordsOf(fs) + Zeroed(n - |fs|)
    decreases |fs|
  {
    hide *;
    if fs == [] {
      NoFlows();
      Empty(rest);
      Empty(Zeroed(n));
      if n == 0 { GetNone(rest); } else { NothingLeft(n, rest); }
    } else {
      FlowsCons(fs);
      var one, others := Join(FlowPieces(fs[0])), FlowsOctets(fs[1..]);
      Assoc(one, others, rest);
      FlowIs(fs[0]);
      FieldsReadBack(RECORD, FieldsOf(fs[0]), others + rest);
      GetCons(n - 1, one + (others + rest), FieldsOf(fs[0]), others + rest);
      FlowsRead(n - 1, fs[1..], rest);
      Assoc([FieldsOf(fs[0])], RecordsOf(fs[1..]), Zeroed(n - |fs|));
    }
  }

  lemma {:induction false} FlowsWritten(fs: seq<Flow>)
    ensures RecordsFit(RecordsOf(fs)) && PutRecords(RecordsOf(fs)) == FlowsOctets(fs) && |RecordsOf(fs)| == |fs|
  {
    hide Join, FlowPieces, FieldsOf, PutFields, Fits;
    if fs != [] {
      FlowsWritten(fs[1..]);
      FlowIs(fs[0]);
      var rs := RecordsOf(fs);
      assert rs[1..] == RecordsOf(fs[1..]);
      PutCons(rs);
    }
  }

  // ---------- packets ----------

  /**
   * Decoding these octets gives every named field its value: with fewer records than announced the missing ones are
   * zero, and what follows the announced ones, or is too short for a record, is not read.
   */
  lemma OctetsDecode(h: Header, count: u16, fs: seq<Flow>, rest: bytes)
    requires |fs| <= count && (|fs| == count || |rest| < 48)
    ensures Decode(PacketOctets(h, count, fs) + rest) == Some(PacketOf(h, count, fs))
  {
    hide GetFields, GetRecords, PutFields, Fits, Known, Join, FlowsOctets, W16, HeadU16, RecordsOf;
    var p := PacketOf(h, count, fs);
    var header, flows := Join(HeaderPieces(h, count)), FlowsOctets(fs);
    Assoc(W16(5), header + flows, rest);
    Assoc(header, flows, rest);
    WordFront(5, header + (flows + rest));
    HeaderIs(p, h, count);
    FieldsReadBack(HEADER, HeaderOf(p, count), flows + rest);
    FlowsRead(count, fs, rest);
  }

  /** Encoding writes exactly these octets. */
  lemma OctetsEncode(h: Header, fs: seq<Flow>)
    requires |fs| < 0x1_0000
    ensures var p := PacketOf(h, |fs|, fs); RecordsFit(p.records) && Encode(p) == Some(PacketOctets(h, |fs|, fs))
  {
    hide PutFields, Fits, Known, Join, FlowsOctets, W16, U16, RecordsOf, PutRecords, RecordsFit;
    var p := PacketOf(h, |fs|, fs);
    FlowsWritten(fs);
    Empty(RecordsOf(fs));
    assert p.records == RecordsOf(fs);
    HeaderIs(p, h, |fs|);
    WordsAreBigEndian(5, 0);
  }

  /** The packet built for one flow is the flow with its two times made relative. */
  lemma BuiltFlow(f: Flow, received: int, start: int, end: int, seqNo: u32, engineType: u8, engineId: u8, sampling: u16)
    ensures |FieldsOf(f)| == |RECORD|
    ensures var w := UptimeWindow(ExportMs(received, start, end), start, end);
            BuildPacket(FieldsOf(f), received, start, end, seqNo, engineType, engineId, sampling).records
            == [FieldsOf(f.(first := w.first, last := w.last))]
  {
    hide UptimeWindow, Secs, Nanos;
    var w := UptimeWindow(ExportMs(received, start, end), start, end);
    assert FieldsOf(f)[7 := w.first][8 := w.last] == FieldsOf(f.(first := w.first, last := w.last));
  }
}

/** What parsing shows of a packet, read off the packet itself, whatever headers it nests. */
module PacketReads {
  import opened Bytes
  import opened Wire
  import W = PacketWire
  import opened PacketLayers
  import opened PacketParser
  import R = PacketRoundTrip

  // ---------- IPv6 extension headers ----------

  function ExtensionShown(e: W.Extension): Kind
  {
    match e
    case Generic(n, _, _) => if n == 43 then KRouting else KExtension
    case Fragment(_) => KFragment
    case Authentication(_, _) => KAuthentication
  }

  function ExtensionsShown(es: seq<W.Extension>): seq<Kind>
  {
    if es == [] then [] else [ExtensionShown(es[0])] + ExtensionsShown(es[1..])
  }

  lemma ExtensionSkipped(e: W.Extension, next: u8, rest: bytes)
    requires W.ExtensionOk(e)
    ensures var data := W.ExtensionOctets(e, next) + rest;
            var n := W.ExtensionNumber(e);
            && IsExtension(n) && |data| >= 2 && data[0] == next && ExtensionKind(n) == ExtensionShown(e)
            && ExtensionSize(n, data) == |W.ExtensionOctets(e, next)|
            && |data| >= ExtensionSize(n, data) && data[ExtensionSize(n, data)..] == rest
  {
    Front(W.ExtensionOctets(e, next), rest);
  }

  /** Any list of extension headers is skipped to the protocol after the last. */
  lemma {:induction false} ExtensionsSkipped(es: seq<W.Extension>, last: u8, rest: bytes)
    requires (forall i :: 0 <= i < |es| ==> W.ExtensionOk(es[i])) && !IsExtension(last)
    ensures SkipExtensions(W.ExtensionsOctets(es, last) + rest, W.NumberBefore(es, last))
            == Some(Skipped(|W.ExtensionsOctets(es, last)|, last, ExtensionsShown(es)))
    decreases |es|
  {
    hide W.ExtensionOk, W.ExtensionOctets, W.ExtensionNumber, IsExtension, ExtensionSize, ExtensionKind, ExtensionShown;
    if es == [] {
      Empty(rest);
    } else {
      var head, more := W.ExtensionOctets(es[0], W.NumberBefore(es[1..], last)), W.ExtensionsOctets(es[1..], last);
      Assoc(head, more, rest);
      ExtensionSkipped(es[0], W.NumberBefore(es[1..], last), more + rest);
      ExtensionsSkipped(es[1..], last, rest);
    }
  }

  // ---------- IP headers ----------

  lemma V4Fields(h: W.V4Header, protocol: u8)
    requires |h.src| == 4 && |h.dst| == 4 && |h.options| <= 40 && |h.options| % 4 == 0
    ensures var b := W.V4Octets(h, protocol);
            && |b| == 20 + |h.options| && b[0] / 16 == 4 && b[0] % 16 * 4 == |b| && b[9] == protocol
            && b[12..16] == h.src && b[16..20] == h.dst
  {
    var b := W.V4Octets(h, protocol);
    var a := [64 + 5 + |h.options| / 4, h.tos] + W16(h.total) + W16(h.id) + W16(h.flags as int * 8192 + h.fragment)
             + [h.ttl, protocol] + W16(h.checksum);
    assert |a| == 12 && b == a + h.src + h.dst + h.options;
    assert (64 + 5 + |h.options| / 4) % 16 == 5 + |h.options| / 4;
  }

  lemma V6Fields(h: W.V6Header, next: u8)
    requires |h.src| == 16 && |h.dst| == 16
    ensures var b := W.V6Octets(h, next);
            |b| == 40 && b[0] / 16 == 6 && b[6] == next && b[8..24] == h.src && b[24..40] == h.dst
  {
    var b := W.V6Octets(h, next);
    var a := [96 + h.trafficClass / 16, h.trafficClass % 16 * 16 + h.flowLabel / 65536 % 16] + W16(h.flowLabel)
             + W16(h.length) + [next, h.hopLimit];
    assert |a| == 8 && b == a + h.src + h.dst;
  }

  lemma V4Read(h: W.V4Header, protocol: u8, rest: bytes)
    requires |h.src| == 4 && |h.dst| == 4 && |h.options| <= 40 && |h.options| % 4 == 0
    ensures var data := W.V4Octets(h, protocol) + rest;
            && ParseIPv4(data) == Some(Network(20 + |h.options|,
                                               WithTransport(Tuple(h.src, h.dst, protocol, 0, 0, 0), rest), []))
            && data[20 + |h.options|..] == rest && Starts(data, 4)
  {
    hide W.V4Octets, WithTransport;
    V4Fields(h, protocol);
    Front(W.V4Octets(h, protocol), rest);
  }

  lemma V6Read(h: W.V6Header, es: seq<W.Extension>, protocol: u8, rest: bytes)
    requires |h.src| == 16 && |h.dst| == 16 && !IsExtension(protocol)
    requires forall i :: 0 <= i < |es| ==> W.ExtensionOk(es[i])
    ensures var head, more := W.V6Octets(h, W.NumberBefore(es, protocol)), W.ExtensionsOctets(es, protocol);
            var data := head + more + rest;
            && ParseIPv6(data) == Some(Network(40 + |more|,
                                               WithTransport(Tuple(h.src, h.dst, protocol, 0, 0, 0), rest),
                                               ExtensionsShown(es)))
            && data[40 + |more|..] == rest && Starts(data, 6)
  {
    hide W.V6Octets, WithTransport, W.ExtensionsOctets, SkipExtensions, IsExtension, W.ExtensionOk;
    var head, more := W.V6Octets(h, W.NumberBefore(es, protocol)), W.ExtensionsOctets(es, protocol);
    V6Fields(h, W.NumberBefore(es, protocol));
    ExtensionsSkipped(es, protocol, rest);
    Assoc(head, more, rest);
    Front(head, more + rest);
    Front(head + more, rest);
  }

  // ---------- transport ----------

  lemma TwoWords(m: u16, n: u16)
    ensures var a := W16(m) + W16(n); |a| == 4 && a[0..2] == W16(m) && a[2..4] == W16(n)
  {
  }

  /** Ports, data offset and flags at their places. */
  lemma TcpWords(b: W.Body)
    requires b.Tcp?
    ensures var s := W.BodyOctets(b);
            && |s| >= 20 && HeadU16(s) == b.srcPort && HeadU16(s[2..]) == b.dstPort && s[12] == b.offset
            && s[13] == b.tcpFlags
  {
    hide W16, W32, HeadU16;
    var s := W.BodyOctets(b);
    var a, c, d := W16(b.srcPort) + W16(b.dstPort), W32(b.seqNo) + W32(b.ack), [b.offset, b.tcpFlags];
    var tail := W16(b.window) + W16(b.checksum) + W16(b.urgent);
    Assoc(a + c + d, tail, b.rest);
    Assoc(a + c, d, tail + b.rest);
    Assoc(a, c, d + (tail + b.rest));
    TwoWords(b.srcPort, b.dstPort);
    TwoWords(b.window, b.checksum);
    TwoWords(b.checksum, b.urgent);
    LongWords(b.seqNo, b.ack);
    Front(a, c + (d + (tail + b.rest)));
    Front(a + c, d + (tail + b.rest));
    assert s == a + c + (d + (tail + b.rest));
    assert s[12] == (d + (tail + b.rest))[0] && s[13] == (d + (tail + b.rest))[1];
    assert s[0..] == s;
    WordAt(s, 0, b.srcPort);
    WordAt(s, 2, b.dstPort);
    WordSize(b.urgent);
  }

  lemma WordSize(n: nat)
    ensures |W16(n)| == 2
  {
  }

  lemma TcpPorts(b: W.Body, t: Tuple)
    requires b.Tcp? && t.proto == 6
    ensures WithTransport(t, W.BodyOctets(b)) == Tuple(t.src, t.dst, 6, b.srcPort, b.dstPort, b.tcpFlags)
  {
    hide W.BodyOctets, HeadU16;
    TcpWords(b);
  }

  lemma LongWords(m: nat, n: nat)
    ensures |W32(m) + W32(n)| == 8
  {
  }

  lemma UdpWords(p: W.Ports, rest: bytes)
    ensures var s := W.PortsOctets(p) + rest;
            |W.PortsOctets(p)| == 8 && |s| >= 8 && HeadU16(s) == p.src && HeadU16(s[2..]) == p.dst
  {
    hide W16;
    var a, c := W16(p.src) + W16(p.dst), W16(p.length) + W16(p.checksum);
    TwoWords(p.src, p.dst);
    TwoWords(p.length, p.checksum);
    Assoc(a, W16(p.length), W16(p.checksum));
    Assoc(a, c, rest);
    Front(a, c + rest);
    var s := a + (c + rest);
    assert s[0..] == s;
    WordAt(s, 0, p.src);
    WordAt(s, 2, p.dst);
  }

  lemma UdpPorts(p: W.Ports, rest: bytes, t: Tuple)
    requires t.proto == 17
    ensures WithTransport(t, W.PortsOctets(p) + rest) == Tuple(t.src, t.dst, 17, p.src, p.dst, t.tcpFlags)
  {
    hide W.PortsOctets, HeadU16;
    UdpWords(p, rest);
  }

  // ---------- tunnels ----------

  lemma GreBits(c: nat, k: nat, s: nat, low: nat)
    requires c < 2 && k < 2 && s < 2 && low < 4096
    ensures var w := c * 32768 + k * 8192 + s * 4096 + low;
            w < 65536 && w / 32768 % 2 == c && w / 8192 % 2 == k && w / 4096 % 2 == s
  {
  }

  lemma GreRead(c: Option<bytes>, k: Option<bytes>, s: Option<bytes>, low: u16, t: u16, inner: bytes, v: View)
    requires W.FieldOk(c) && W.FieldOk(k) && W.FieldOk(s) && low < 4096
    ensures ParseGRE(W.GreHead(c, k, s, low, t) + inner, v) == Go(See(v, KGre), inner, t)
  {
    var one: Option<bytes> -> nat := (o: Option<bytes>) => if o.Some? then 1 else 0;
    var flags := one(c) * 32768 + one(k) * 8192 + one(s) * 4096 + low;
    GreBits(one(c), one(k), one(s), low);
    var head := W.GreHead(c, k, s, low, t);
    var fields := W.FieldOctets(c) + W.FieldOctets(k) + W.FieldOctets(s);
    assert head == W16(flags) + W16(t) + fields;
    assert head[0..2] == W16(flags) && head[2..4] == W16(t);
    Front(head, inner);
    var data := head + inner;
    assert data[0..] == data;
    WordAt(data, 0, flags);
    WordAt(data, 2, t);
  }

  lemma VxlanRead(ports: W.Ports, header: bytes, inner: bytes, v: View)
    requires |header| == 8
    ensures ParseVXLAN(W.PortsOctets(ports) + header + inner, v) == Go(See(v, KVxlan), inner, 0x6558)
  {
    var head := W.PortsOctets(ports) + header;
    assert |head| == 16;
    Front(head, inner);
  }

  lemma GeneveRead(ports: W.Ports, top: u8, control: u8, vni: bytes, options: bytes, t: u16, inner: bytes, v: View)
    requires top < 4 && |vni| == 4 && |options| <= 252 && |options| % 4 == 0
    ensures ParseGeneve(W.GeneveHead(ports, top, control, vni, options, t) + inner, v) == Go(See(v, KGeneve), inner, t)
  {
    var head := W.GeneveHead(ports, top, control, vni, options, t);
    var a := W.PortsOctets(ports) + [top * 64 + |options| / 4, control];
    assert |a| == 10 && head == a + W16(t) + vni + options;
    assert head[10..12] == W16(t) && head[8] == top * 64 + |options| / 4;
    assert (top * 64 + |options| / 4) % 64 * 4 == |options|;
    Front(head, inner);
    var data := head + inner;
    WordAt(data, 10, t);
  }

  lemma PppoeRead(session: u16, length: u16, protocol: u16, inner: bytes, v: View)
    requires protocol in {0x0021, 0x0057, 0x0281, 0x0283}
    ensures ParsePPPoE(W.PppoeHead(session, length, protocol) + inner, v)
            == Go(See(v, KPppoe), inner, if protocol == 0x0021 then 0x0800 else if protocol == 0x0057 then 0x86dd
                                         else 0x8847)
  {
    var head := W.PppoeHead(session, length, protocol);
    assert |head| == 8 && head[6..8] == W16(protocol);
    Front(head, inner);
    WordAt(head + inner, 6, protocol);
  }

  function L2tpFlags(length: Option<u16>, sequences: Option<(u16, u16)>, pad: Option<bytes>): u16
  {
    (if length.Some? then 16384 else 0) + (if sequences.Some? then 2048 else 0) + (if pad.Some? then 512 else 0) + 2
  }

  /** The L2TP header up to its padding. */
  function L2tpFixed(length: Option<u16>, tunnel: u16, session: u16, sequences: Option<(u16, u16)>,
                     pad: Option<bytes>): bytes
  {
    W16(L2tpFlags(length, sequences, pad)) + (if length.Some? then W16(length.value) else [])
    + (W16(tunnel) + W16(session))
    + (if sequences.Some? then W16(sequences.value.0) + W16(sequences.value.1) else [])
  }

  lemma L2tpFixedIs(length: Option<u16>, tunnel: u16, session: u16, sequences: Option<(u16, u16)>, pad: Option<bytes>)
    ensures var b := L2tpFixed(length, tunnel, session, sequences, pad);
            && |b| == 6 + (if length.Some? then 2 else 0) + (if sequences.Some? then 4 else 0)
            && b[0..2] == W16(L2tpFlags(length, sequences, pad))
            && W.L2tpHead(length, tunnel, session, sequences, pad)
               == b + (if pad.Some? then W16(|pad.value|) + pad.value else [])
  {
  }

  /** A header `a`, an optional length-prefixed padding, and a tail. */
  lemma PaddedTail(a: bytes, pad: Option<bytes>, tail: bytes)
    requires pad.Some? ==> |pad.value| < 65536
    ensures var c := if pad.Some? then W16(|pad.value|) + pad.value else [];
            var data := a + c + tail;
            && |data| == |a| + |c| + |tail| && data[|a| + |c|..] == tail
            && (pad.Some? ==> HeadU16(data[|a|..]) == |pad.value|)
            && forall i, j :: 0 <= i <= j <= |a| ==> data[i..j] == a[i..j]
  {
    var c := if pad.Some? then W16(|pad.value|) + pad.value else [];
    Front(a + c, tail);
    Assoc(a, c, tail);
    Front(a, c + tail);
    if pad.Some? {
      Assoc(W16(|pad.value|), pad.value, tail);
      WordFront(|pad.value|, pad.value + tail);
    }
  }

  lemma L2tpParts(ports: W.Ports, length: Option<u16>, tunnel: u16, session: u16, sequences: Option<(u16, u16)>,
                  pad: Option<bytes>, tail: bytes)
    requires pad.Some? ==> |pad.value| < 65536
    ensures var data := W.PortsOctets(ports) + W.L2tpHead(length, tunnel, session, sequences, pad) + tail;
            var n := 14 + (if length.Some? then 2 else 0) + (if sequences.Some? then 4 else 0);
            var m := n + (if pad.Some? then 2 + |pad.value| else 0);
            && |data| == m + |tail| && data[m..] == tail
            && HeadU16(data[8..]) == L2tpFlags(length, sequences, pad)
            && (pad.Some? ==> HeadU16(data[n..]) == |pad.value|)
  {
    hide W.L2tpHead, L2tpFixed, L2tpFlags, HeadU16;
    var flags, b := L2tpFlags(length, sequences, pad), L2tpFixed(length, tunnel, session, sequences, pad);
    L2tpFixedIs(length, tunnel, session, sequences, pad);
    var a := W.PortsOctets(ports);
    var c := if pad.Some? then W16(|pad.value|) + pad.value else [];
    assert |a| == 8;
    Assoc(a, b, c);
    PaddedTail(a + b, pad, tail);
    var data := a + b + c + tail;
    assert (a + b)[8..10] == b[0..2];
    assert data[8..10] == (a + b)[8..10];
    WordAt(data, 8, flags);
  }

  /** The tail of an L2TP header: optional address and control octets, the protocol, the packet. */
  lemma MarkedTail(data: bytes, c: nat, control: bool, protocol: u16, inner: bytes)
    requires c <= |data| && inner != [] && protocol < 65280
    requires data[c..] == (if control then [0xff, 0x03] else []) + W16(protocol) + inner
    ensures var marked := |data| >= c + 4 && data[c] == 0xff && data[c + 1] == 0x03;
            var n := if marked then c + 2 else c;
            marked == control && |data| >= n + 2 && HeadU16(data[n..]) == protocol && data[n + 2..] == inner
  {
    var mark: bytes := if control then [0xff, 0x03] else [];
    var tail := data[c..];
    Assoc(mark, W16(protocol), inner);
    WordFront(protocol, inner);
    assert tail[|mark|..] == W16(protocol) + inner;
    assert data[c + |mark|..] == tail[|mark|..];
    assert data[c + |mark| + 2..] == tail[|mark|..][2..];
    assert data[c] == tail[0] && data[c + 1] == tail[1];
    assert W16(protocol)[0] < 255;
  }

  lemma L2tpSized(ports: W.Ports, length: Option<u16>, tunnel: u16, session: u16, sequences: Option<(u16, u16)>,
                  pad: Option<bytes>, control: bool, protocol: u16, inner: bytes)
    requires (pad.Some? ==> |pad.value| < 65536) && inner != [] && protocol < 65280
    ensures var data := W.PortsOctets(ports) + W.L2tpHead(length, tunnel, session, sequences, pad)
                        + ((if control then [0xff, 0x03] else []) + W16(protocol) + inner);
            && |data| >= 14 && HeadU16(data[8..]) % 16 == 2
            && L2tpSize(data).Some?
            && var n := L2tpSize(data).value;
               HeadU16(data[n..]) == protocol && data[n + 2..] == inner
  {
    hide HeadU16, W.L2tpHead, W.PortsOctets, L2tpFlags, W16;
    var tail := (if control then [0xff, 0x03] else []) + W16(protocol) + inner;
    var data := W.PortsOctets(ports) + W.L2tpHead(length, tunnel, session, sequences, pad) + tail;
    L2tpParts(ports, length, tunnel, session, sequences, pad, tail);
    L2tpFlagBits(length, sequences, pad);
    MarkedTail(data, |data| - |tail|, control, protocol, inner);
  }

  lemma L2tpFlagBits(length: Option<u16>, sequences: Option<(u16, u16)>, pad: Option<bytes>)
    ensures var w := L2tpFlags(length, sequences, pad);
            && w % 16 == 2 && Bit(w, 0x4000) == length.Some? && Bit(w, 0x0800) == sequences.Some?
            && Bit(w, 0x0200) == pad.Some?
  {
  }

  lemma L2tpRead(ports: W.Ports, length: Option<u16>, tunnel: u16, session: u16, sequences: Option<(u16, u16)>,
                 pad: Option<bytes>, control: bool, protocol: u16, inner: bytes, v: View)
    requires (pad.Some? ==> |pad.value| < 65536) && inner != [] && (protocol == 0x0021 || protocol == 0x0057)
    ensures ParseL2TP(W.PortsOctets(ports) + W.L2tpHead(length, tunnel, session, sequences, pad)
                      + ((if control then [0xff, 0x03] else []) + W16(protocol) + inner), v)
            == Go(See(v, KL2tp), inner, if protocol == 0x0021 then 0x0800 else 0x86dd)
  {
    hide HeadU16, W.L2tpHead, W.PortsOctets, L2tpSize, W16;
    L2tpSized(ports, length, tunnel, session, sequences, pad, control, protocol, inner);
  }

  // ---------- GTP-U ----------

  predicate GtpuOk(es: seq<W.GtpuExtension>)
  {
    forall i :: 0 <= i < |es| ==> es[i].kind != 0 && es[i].k > 0 && |es[i].content| == 4 * es[i].k as int - 1
  }

  lemma GtpuStep(e: W.GtpuExtension, kind: u8, next: u8, rest: bytes)
    requires kind != 0 && e.k > 0 && |e.content| == 4 * e.k as int - 1
    ensures var head, r := W.GtpuExtensionOctets(e, next), GtpuExtensions(rest, next);
            GtpuExtensions(head + rest, kind) == if r.None? then None else Some(|head| + r.value)
  {
    Front(W.GtpuExtensionOctets(e, next), rest);
  }

  lemma GtpuFirst(es: seq<W.GtpuExtension>)
    requires GtpuOk(es) && es != []
    ensures GtpuOk(es[1..]) && es[0].kind != 0 && es[0].k > 0 && |es[0].content| == 4 * es[0].k as int - 1
    ensures W.GtpuNext(es) == es[0].kind
    ensures W.GtpuExtensionsOctets(es)
            == W.GtpuExtensionOctets(es[0], W.GtpuNext(es[1..])) + W.GtpuExtensionsOctets(es[1..])
  {
  }

  lemma GtpuNone(rest: bytes)
    ensures W.GtpuExtensionsOctets([]) == [] && GtpuExtensions([] + rest, W.GtpuNext([])) == Some(0)
  {
  }

  lemma {:induction false} GtpuSkipped(es: seq<W.GtpuExtension>, rest: bytes)
    requires GtpuOk(es)
    ensures GtpuExtensions(W.GtpuExtensionsOctets(es) + rest, W.GtpuNext(es)) == Some(|W.GtpuExtensionsOctets(es)|)
    decreases |es|
  {
    hide *;
    if es == [] {
      GtpuNone(rest);
    } else {
      GtpuFirst(es);
      var e, next, more := es[0], W.GtpuNext(es[1..]), W.GtpuExtensionsOctets(es[1..]);
      Assoc(W.GtpuExtensionOctets(e, next), more, rest);
      GtpuStep(e, e.kind, next, more + rest);
      GtpuSkipped(es[1..], rest);
    }
  }

  lemma GtpuSized(ports: W.Ports, spare: u8, length: u16, teid: u32, optional: Option<(u8, u16, u8)>,
                  es: seq<W.GtpuExtension>, inner: bytes)
    requires spare < 4 && GtpuOk(es) && (if optional.Some? then 0 < optional.value.0 < 8 else es == [])
    ensures var data := W.PortsOctets(ports) + W.GtpuHead(spare, length, teid, optional, W.GtpuNext(es))
                        + (W.GtpuExtensionsOctets(es) + inner);
            && |data| >= 16 && data[8] / 32 == 1 && data[9] == 0xff
            && GtpuSize(data).Some? && GtpuSize(data).value <= |data| && data[GtpuSize(data).value..] == inner
  {
    hide GtpuExtensions, W.GtpuExtensionsOctets, W.GtpuNext, GtpuOk;
    var more := W.GtpuExtensionsOctets(es);
    var low := if optional.Some? then optional.value.0 else 0;
    var head := W.PortsOctets(ports) + W.GtpuHead(spare, length, teid, optional, W.GtpuNext(es));
    var data := head + (more + inner);
    assert head[8] == 32 + spare * 8 + low && head[9] == 0xff;
    assert (32 + spare * 8 + low) / 32 == 1 && (32 + spare * 8 + low) % 8 == low;
    Front(head, more + inner);
    if optional.Some? {
      assert |head| == 20 && head[19] == W.GtpuNext(es);
      GtpuSkipped(es, inner);
      Assoc(head, more, inner);
      Front(head + more, inner);
    } else {
      assert |head| == 16;
      NoGtpu(es);
      Empty(inner);
    }
  }

  lemma NoGtpu(es: seq<W.GtpuExtension>)
    requires es == []
    ensures W.GtpuExtensionsOctets(es) == []
  {
  }

  lemma GtpuRead(ports: W.Ports, spare: u8, length: u16, teid: u32, optional: Option<(u8, u16, u8)>,
                 es: seq<W.GtpuExtension>, inner: bytes, v: View)
    requires spare < 4 && GtpuOk(es) && (if optional.Some? then 0 < optional.value.0 < 8 else es == [])
    requires Starts(inner, 4) || Starts(inner, 6)
    ensures ParseGTPU(W.PortsOctets(ports) + W.GtpuHead(spare, length, teid, optional, W.GtpuNext(es))
                      + (W.GtpuExtensionsOctets(es) + inner), v)
            == Go(See(v, KGtpu), inner, if Starts(inner, 4) then 0x0800 else 0x86dd)
  {
    hide GtpuSize, W.GtpuExtensionsOctets, W.GtpuNext, GtpuOk, W.GtpuHead, W.PortsOctets;
    GtpuSized(ports, spare, length, teid, optional, es, inner);
  }

  // ---------- links ----------

  predicate LabelsOk(ls: seq<W.Label>)
  {
    forall i :: 0 <= i < |ls| ==> W.LabelOk(ls[i])
  }

  function LabelValues(ls: seq<W.Label>): seq<u32>
  {
    if ls == [] then [] else [ls[0].value] + LabelValues(ls[1..])
  }

  function Times(n: nat, k: Kind): seq<Kind>
  {
    if n == 0 then [] else [k] + Times(n - 1, k)
  }

  lemma LabelWordBits(value: nat, tc: nat, bottom: nat, ttl: nat)
    requires value < 1048576 && tc < 8 && bottom < 2 && ttl < 256
    ensures var w := value * 4096 + tc * 512 + bottom * 256 + ttl;
            w < 4294967296 && w / 4096 == value && w / 256 % 2 == bottom
  {
    R.WordBits(value, tc, bottom, ttl);
    R.Odd(value * 8 + tc, bottom);
  }

  lemma LabelRead(w: u32, rest: bytes)
    ensures var s := W32(w) + rest; |s| == 4 + |rest| && HeadU32(s) == w && s[4..] == rest
  {
    WordsAreBigEndian(0, w);
    ReadBackU32(w, rest);
  }

  lemma LabelStep(l: W.Label, last: bool, rest: bytes, v: View)
    requires W.LabelOk(l)
    ensures var seen := See(v, KMpls).(seen := v.seen.(labels := v.seen.labels + [l.value]));
            ParseMPLS(W32(W.LabelWord(l, last)) + rest, v) == if last then AfterLabels(rest, seen)
              else ParseMPLS(rest, seen)
  {
    hide W32, HeadU32;
    LabelWordBits(l.value, l.tc, if last then 1 else 0, l.ttl);
    LabelRead(W.LabelWord(l, last), rest);
  }

  /** A label stack is read to its last label, whose payload's version tells its type. */
  lemma {:induction false} LabelsRead(ls: seq<W.Label>, rest: bytes, v: View)
    requires ls != [] && LabelsOk(ls) && (Starts(rest, 4) || Starts(rest, 6))
    ensures var v' := v.(kinds := v.kinds + Times(|ls|, KMpls),
                         seen := v.seen.(labels := v.seen.labels + LabelValues(ls)));
            ParseMPLS(W.LabelsOctets(ls) + rest, v) == Go(v', rest, if Starts(rest, 4) then 0x0800 else 0x86dd)
    decreases |ls|
  {
    hide W32, HeadU32, Starts, ParseMPLS, W.LabelOk;
    var l, more := ls[0], W.LabelsOctets(ls[1..]);
    Assoc(W32(W.LabelWord(l, |ls| == 1)), more, rest);
    LabelStep(l, |ls| == 1, more + rest, v);
    var seen := See(v, KMpls).(seen := v.seen.(labels := v.seen.labels + [l.value]));
    Assoc(v.kinds, [KMpls], Times(|ls| - 1, KMpls));
    Assoc(v.seen.labels, [l.value], LabelValues(ls[1..]));
    if |ls| == 1 {
      LastLabel(ls, rest, seen);
      Empty(v.kinds + [KMpls]);
      Empty(v.seen.labels + [l.value]);
    } else {
      LabelsRead(ls[1..], rest, seen);
    }
  }

  lemma LastLabel(ls: seq<W.Label>, rest: bytes, v: View)
    requires |ls| == 1 && (Starts(rest, 4) || Starts(rest, 6))
    ensures W.LabelsOctets(ls[1..]) == [] && LabelValues(ls[1..]) == [] && Times(|ls| - 1, KMpls) == []
    ensures [] + rest == rest
    ensures AfterLabels(rest, v) == Go(v, rest, if Starts(rest, 4) then 0x0800 else 0x86dd)
  {
    Empty(rest);
  }

  predicate TagsOk(ts: seq<W.Tag>)
  {
    forall i :: 0 <= i < |ts| ==> W.TagOk(ts[i])
  }

  function TagIds(ts: seq<W.Tag>): seq<u16>
  {
    if ts == [] then [] else [ts[0].id] + TagIds(ts[1..])
  }

  /** Everything after the addresses of a frame. */
  function AfterMacs(ts: seq<W.Tag>, t: u16, rest: bytes): bytes
  {
    W.TagsOctets(ts) + W16(t) + rest
  }

  lemma TagBits(pcp: nat, dei: bool, id: nat)
    requires pcp < 8 && id < 4096
    ensures var w := pcp * 8192 + (if dei then 4096 else 0) + id; w < 65536 && w % 4096 == id
  {
  }

  lemma FirstType(ts: seq<W.Tag>, t: u16, rest: bytes)
    ensures var s := AfterMacs(ts, t, rest);
            |s| >= 2 && HeadU16(s) == if ts == [] then t else W.TagType(ts[0])
    ensures ts == [] ==> AfterMacs(ts, t, rest)[2..] == rest
    ensures ts != [] ==>
              var w := ts[0].pcp as int * 8192 + (if ts[0].dei then 4096 else 0) + ts[0].id as int;
              && AfterMacs(ts, t, rest)[2..] == W16(w) + AfterMacs(ts[1..], t, rest)
  {
    hide W16, HeadU16;
    var s := AfterMacs(ts, t, rest);
    if ts == [] {
      assert s == W16(t) + rest;
      WordFront(t, rest);
    } else {
      var w := ts[0].pcp as int * 8192 + (if ts[0].dei then 4096 else 0) + ts[0].id as int;
      var more := W.TagsOctets(ts[1..]);
      assert s == W16(W.TagType(ts[0])) + (W16(w) + (more + W16(t) + rest));
      WordFront(W.TagType(ts[0]), W16(w) + (more + W16(t) + rest));
    }
  }

  /** Any list of tags is read to the type after the last one. */
  lemma {:induction false} TagsRead(ts: seq<W.Tag>, t: u16, rest: bytes, v: View)
    requires TagsOk(ts) && !IsVlan(t)
    ensures var v' := v.(kinds := v.kinds + Times(|ts|, KDot1q), seen := v.seen.(vlans := v.seen.vlans + TagIds(ts)),
                         etherType := if v.etherType == 0 then t else v.etherType);
            var s := AfterMacs(ts, t, rest);
            |s| >= 2 && ParseVlans(s[2..], HeadU16(s), v) == Go(v', rest, t)
    decreases |ts|
  {
    hide W16, HeadU16, AfterMacs, W.TagOk;
    FirstType(ts, t, rest);
    if ts == [] {
      Empty(v.kinds);
      Empty(v.seen.vlans);
    } else {
      var tag := ts[0];
      var w := tag.pcp as int * 8192 + (if tag.dei then 4096 else 0) + tag.id as int;
      TagOkIs(tag);
      TagBits(tag.pcp, tag.dei, tag.id);
      var next := AfterMacs(ts[1..], t, rest);
      WordFront(w, next);
      FirstType(ts[1..], t, rest);
      var seen := See(v, KDot1q).(seen := v.seen.(vlans := v.seen.vlans + [tag.id]));
      var s := AfterMacs(ts, t, rest);
      assert s[2..][2..] == next;
      assert s[2..][4..] == next[2..];
      TagsRead(ts[1..], t, rest, seen);
      Assoc(v.kinds, [KDot1q], Times(|ts| - 1, KDot1q));
      Assoc(v.seen.vlans, [tag.id], TagIds(ts[1..]));
    }
  }

  lemma TagOkIs(t: W.Tag)
    requires W.TagOk(t)
    ensures t.pcp < 8 && t.id < 4096
  {
  }

  // ---------- what a packet shows ----------

  /** What the octets of a packet add to a view. */
  datatype Sight = Sight(kinds: seq<Kind>, vlans: seq<u16>, labels: seq<u32>, tuples: seq<Tuple>)

  function Then(a: Sight, b: Sight): Sight
  {
    Sight(a.kinds + b.kinds, a.vlans + b.vlans, a.labels + b.labels, a.tuples + b.tuples)
  }

  function Only(k: Kind): Sight
  {
    Sight([k], [], [], [])
  }

  function PlainSight(protocol: u8): Sight
  {
    Sight(match protocol case 132 => [KSctp] case 1 => [KIcmp] case 58 => [KIcmpv6] case _ => [], [], [], [])
  }

  function TupleOf(src: bytes, dst: bytes, b: W.Body): Tuple
  {
    match b
    case Tcp(sp, dp, _, _, _, flags, _, _, _, _) => Tuple(src, dst, 6, sp, dp, flags)
    case Udp(p, _) => Tuple(src, dst, 17, p.src, p.dst, 0)
    case Vxlan(p, _, _) => Tuple(src, dst, 17, p.src, p.dst, 0)
    case Geneve(p, _, _, _, _, _) => Tuple(src, dst, 17, p.src, p.dst, 0)
    case L2tp(p, _, _, _, _, _, _, _) => Tuple(src, dst, 17, p.src, p.dst, 0)
    case Gtpu(p, _, _, _, _, _, _) => Tuple(src, dst, 17, p.src, p.dst, 0)
    case _ => Tuple(src, dst, W.ProtocolOf(b), 0, 0, 0)
  }

  /** Addresses, last protocol and ports of every IP packet, labels, VLAN ids and layer kinds, outermost first. */
  function IpSight(ip: W.Ip): Sight
  {
    match ip
    case V4(h, body) => Then(Sight([KIPv4], [], [], [TupleOf(h.src, h.dst, body)]), BodySight(body))
    case V6(h, es, body) =>
      Then(Sight([KIPv6] + ExtensionsShown(es), [], [], [TupleOf(h.src, h.dst, body)]), BodySight(body))
  }

  function BodySight(b: W.Body): Sight
  {
    match b
    case Tcp(_, _, _, _, _, _, _, _, _, _) => Only(KTcp)
    case Udp(_, _) => Only(KUdp)
    case Nested(ip) => IpSight(ip)
    case Gre(_, _, _, _, inner) => Then(Only(KGre), InnerSight(inner))
    case Vxlan(_, _, frame) => Then(Only(KVxlan), FrameSight(frame))
    case Geneve(_, _, _, _, _, inner) => Then(Only(KGeneve), InnerSight(inner))
    case L2tp(_, _, _, _, _, _, _, ip) => Then(Only(KL2tp), IpSight(ip))
    case Gtpu(_, _, _, _, _, _, ip) => Then(Only(KGtpu), IpSight(ip))
    case Plain(p, _) => PlainSight(p)
  }

  function InnerSight(i: W.Inner): Sight
  {
    match i
    case Bridged(f) => FrameSight(f)
    case Routed(n) => NetSight(n)
  }

  function NetSight(n: W.Net): Sight
  {
    match n
    case Direct(ip) => IpSight(ip)
    case Labelled(_, ls, ip) => Then(Sight(Times(|ls|, KMpls), [], LabelValues(ls), []), IpSight(ip))
    case Pppoe(_, _, _, inside) => Then(Only(KPppoe), NetSight(inside))
  }

  function FrameSight(f: W.Frame): Sight
  {
    Then(Sight([KEthernet] + Times(|f.tags|, KDot1q), TagIds(f.tags), [], []), NetSight(f.net))
  }

  /** The view with a sight added; the first addresses and EtherType stay. */
  predicate Shows(r: View, v: View, s: Sight)
  {
    && r.kinds == v.kinds + s.kinds
    && r.seen == Seen(v.seen.vlans + s.vlans, v.seen.labels + s.labels, v.seen.tuples + s.tuples)
    && r.macs == v.macs && (v.etherType != 0 ==> r.etherType == v.etherType)
  }

  lemma ShowsThen(r: View, m: View, v: View, a: Sight, b: Sight)
    requires Shows(m, v, a) && Shows(r, m, b)
    ensures Shows(r, v, Then(a, b))
  {
    Assoc(v.kinds, a.kinds, b.kinds);
    Assoc(v.seen.vlans, a.vlans, b.vlans);
    Assoc(v.seen.labels, a.labels, b.labels);
    Assoc(v.seen.tuples, a.tuples, b.tuples);
  }

  lemma SeeShows(v: View, k: Kind)
    ensures Shows(See(v, k), v, Only(k))
  {
    Empty(v.seen.vlans);
    Empty(v.seen.labels);
    Empty(v.seen.tuples);
  }

  // ---------- what the options open ----------

  datatype Tunnel = NoTunnel | VxlanTunnel | GeneveTunnel | L2tpTunnel | GtpuTunnel

  predicate Claims(ports: seq<u32>, standard: u32, p: W.Ports)
  {
    if ports == [] then p.src == standard || p.dst == standard
    else exists i :: 0 <= i < |ports| && ports[i] != 0 && (ports[i] == p.src || ports[i] == p.dst)
  }

  /** Which tunnel a pair of UDP ports announces: the first enabled one that claims either port. */
  function Announced(opts: Options, p: W.Ports): Tunnel
  {
    if !opts.beyondL4 then NoTunnel
    else if opts.vxlan && Claims(opts.vxlanPorts, 4789, p) then VxlanTunnel
    else if opts.geneve && Claims(opts.genevePorts, 6081, p) then GeneveTunnel
    else if opts.l2tp && Claims(opts.l2tpPorts, 1701, p) then L2tpTunnel
    else if opts.gtpu && Claims(opts.gtpuPorts, 2152, p) then GtpuTunnel
    else NoTunnel
  }

  /** Everything the packet nests is enabled and stands behind the ports that announce it. */
  predicate IpOpens(opts: Options, ip: W.Ip)
  {
    BodyOpens(opts, ip.body)
  }

  predicate BodyOpens(opts: Options, b: W.Body)
  {
    match b
    case Tcp(_, _, _, _, _, _, _, _, _, _) => true
    case Udp(p, _) => Announced(opts, p) == NoTunnel
    case Nested(ip) => opts.beyondL4 && opts.ipip && IpOpens(opts, ip)
    case Gre(_, _, _, _, inner) => opts.beyondL4 && opts.gre && InnerOpens(opts, inner)
    case Vxlan(p, _, frame) => Announced(opts, p) == VxlanTunnel && FrameOpens(opts, frame)
    case Geneve(p, _, _, _, _, inner) => Announced(opts, p) == GeneveTunnel && InnerOpens(opts, inner)
    case L2tp(p, _, _, _, _, _, _, ip) => Announced(opts, p) == L2tpTunnel && IpOpens(opts, ip)
    case Gtpu(p, _, _, _, _, _, ip) => Announced(opts, p) == GtpuTunnel && IpOpens(opts, ip)
    case Plain(_, _) => true
  }

  predicate InnerOpens(opts: Options, i: W.Inner)
  {
    match i
    case Bridged(f) => FrameOpens(opts, f)
    case Routed(n) => NetOpens(opts, n)
  }

  predicate NetOpens(opts: Options, n: W.Net)
  {
    match n
    case Direct(ip) => IpOpens(opts, ip)
    case Labelled(_, _, ip) => opts.beyondL4 && IpOpens(opts, ip)
    case Pppoe(_, _, _, inside) => opts.beyondL4 && opts.pppoe && NetOpens(opts, inside)
  }

  predicate FrameOpens(opts: Options, f: W.Frame)
  {
    NetOpens(opts, f.net)
  }

  lemma ClaimsIs(ports: seq<u32>, standard: u32, p: W.Ports, t: Tuple)
    requires t.srcPort == p.src && t.dstPort == p.dst
    ensures PortMatches(t, ports, standard) == Claims(ports, standard, p)
  {
  }

  lemma TunnelIs(opts: Options, p: W.Ports, data: bytes, t: Tuple, v: View)
    requires t.srcPort == p.src && t.dstPort == p.dst && opts.beyondL4 && |data| >= 8
    ensures ParseUDPTunnel(opts, data, t, v)
            == match Announced(opts, p)
               case NoTunnel => Stop(v)
               case VxlanTunnel => ParseVXLAN(data, v)
               case GeneveTunnel => ParseGeneve(data, v)
               case L2tpTunnel => ParseL2TP(data, v)
               case GtpuTunnel => ParseGTPU(data, v)
  {
    hide PortMatches, Claims, ParseVXLAN, ParseGeneve, ParseL2TP, ParseGTPU;
    ClaimsIs(opts.vxlanPorts, 4789, p, t);
    ClaimsIs(opts.genevePorts, 6081, p, t);
    ClaimsIs(opts.l2tpPorts, 1701, p, t);
    ClaimsIs(opts.gtpuPorts, 2152, p, t);
  }

  // ---------- one step each ----------

  lemma AfterUdp(opts: Options, rest: bytes, n: Network, v: View, p: W.Ports)
    requires n.tuple.proto == 17 && n.tuple.srcPort == p.src && n.tuple.dstPort == p.dst && |rest| >= 8
    ensures Announced(opts, p) == NoTunnel ==> AfterNetwork(opts, rest, n, v) == Parsed(See(v, KUdp))
    ensures Announced(opts, p) != NoTunnel ==>
              var step := match Announced(opts, p)
                          case VxlanTunnel => ParseVXLAN(rest, v)
                          case GeneveTunnel => ParseGeneve(rest, v)
                          case L2tpTunnel => ParseL2TP(rest, v)
                          case _ => ParseGTPU(rest, v);
              step.Go? && |step.rest| < |rest| ==>
                AfterNetwork(opts, rest, n, v) == Inside(opts, step.view, step.rest, step.etherType, 17, n.used)
  {
    hide ParseVXLAN, ParseGeneve, ParseL2TP, ParseGTPU, Inside, Parse, ParseUDPTunnel, Claims;
    if opts.beyondL4 { TunnelIs(opts, p, rest, n.tuple, v); }
  }

  lemma AfterGre(opts: Options, rest: bytes, n: Network, v: View)
    requires opts.beyondL4 && opts.gre && n.tuple.proto == 47 && ParseGRE(rest, v).Go?
    ensures var step := ParseGRE(rest, v);
            AfterNetwork(opts, rest, n, v) == Inside(opts, step.view, step.rest, step.etherType, 47, n.used)
  {
    hide ParseGRE, Inside, Parse;
  }

  lemma AfterOther(opts: Options, rest: bytes, n: Network, v: View)
    ensures n.tuple.proto == 6 ==> AfterNetwork(opts, rest, n, v) == Parsed(See(v, KTcp))
    ensures opts.beyondL4 && opts.ipip && n.tuple.proto == 4 ==>
              AfterNetwork(opts, rest, n, v) == Parse(opts, rest, 0x0800, false, v)
    ensures opts.beyondL4 && opts.ipip && n.tuple.proto == 41 ==>
              AfterNetwork(opts, rest, n, v) == Parse(opts, rest, 0x86dd, false, v)
    ensures n.tuple.proto !in {4, 6, 17, 41, 47} ==>
              AfterNetwork(opts, rest, n, v) == Parsed(Transport(v, n.tuple.proto))
  {
    hide ParseGRE, Inside, Parse, ParseUDPTunnel;
  }

  lemma PlainShows(v: View, protocol: u8)
    requires protocol != 6 && protocol != 17
    ensures Shows(Transport(v, protocol), v, PlainSight(protocol))
  {
    Empty(v.kinds);
    Empty(v.seen.vlans);
    Empty(v.seen.labels);
    Empty(v.seen.tuples);
  }

  lemma InsideBridged(opts: Options, v: View, rest: bytes, proto: u8, used: nat)
    ensures Inside(opts, v, rest, 0x6558, proto, used)
            == match ParseEthernet(rest, v, false)
               case Stop(v') => Parsed(v')
               case Go(v', inner, t) => Parse(opts, inner, t, false, v')
  {
    hide ParseEthernet, Parse;
  }

  lemma InsideRouted(opts: Options, v: View, rest: bytes, t: u16, proto: u8, used: nat)
    requires t in {0x0800, 0x86dd, 0x8847, 0x8848, 0x8864}
    ensures Inside(opts, v, rest, t, proto, used) == Parse(opts, rest, t, false, v)
  {
    hide ParseBridged, Parse;
  }

  lemma FrameRead(f: W.Frame, v: View, captureMAC: bool)
    requires W.FrameOk(f)
    ensures var v' := v.(kinds := v.kinds + ([KEthernet] + Times(|f.tags|, KDot1q)),
                         seen := v.seen.(vlans := v.seen.vlans + TagIds(f.tags)),
                         macs := if captureMAC then Some((f.dst, f.src)) else v.macs,
                         etherType := if v.etherType == 0 then W.EtherTypeOf(f.net) else v.etherType);
            ParseEthernet(W.FrameOctets(f), v, captureMAC) == Go(v', W.NetOctets(f.net), W.EtherTypeOf(f.net))
  {
    hide W.NetOctets, W16, HeadU16, AfterMacs, ParseVlans, Times, TagIds, W.TagsOctets, W.EtherTypeOf, W.NetOk, W.TagOk;
    var t, rest := W.EtherTypeOf(f.net), W.NetOctets(f.net);
    var s := AfterMacs(f.tags, t, rest);
    var data := W.FrameOctets(f);
    MacsFirst(f, rest);
    var seen := See(v, KEthernet);
    seen := if captureMAC then seen.(macs := Some((f.dst, f.src))) else seen;
    NoTag(f.net);
    TagsRead(f.tags, t, rest, seen);
    Assoc(v.kinds, [KEthernet], Times(|f.tags|, KDot1q));
  }

  lemma NoTag(n: W.Net)
    ensures !IsVlan(W.EtherTypeOf(n)) && W.EtherTypeOf(n) in {0x0800, 0x86dd, 0x8847, 0x8848, 0x8864}
  {
  }

  lemma MacsFirst(f: W.Frame, rest: bytes)
    requires |f.dst| == 6 && |f.src| == 6
    ensures var s := AfterMacs(f.tags, W.EtherTypeOf(f.net), rest);
            var data := f.dst + f.src + (W.TagsOctets(f.tags) + W16(W.EtherTypeOf(f.net))) + rest;
            && |data| >= 14 && data[..6] == f.dst && data[6..12] == f.src
            && data[12..] == s && |s| >= 2 && data[14..] == s[2..]
  {
    hide W.TagsOctets, HeadU16, W.EtherTypeOf;
    var macs, types := f.dst + f.src, W.TagsOctets(f.tags) + W16(W.EtherTypeOf(f.net));
    Assoc(macs, types, rest);
    Front(macs, types + rest);
    var data := macs + types + rest;
    assert data[14..] == data[12..][2..];
    assert macs[..6] == f.dst && macs[6..12] == f.src;
  }

  // ---------- the whole packet ----------

  function TypeOf(ip: W.Ip): u16
  {
    if ip.V4? then 0x0800 else 0x86dd
  }

  lemma IpStarts(ip: W.Ip)
    requires W.IpOk(ip)
    ensures Starts(W.IpOctets(ip), if ip.V4? then 4 else 6) && W.IpOctets(ip) != []
  {
    hide W.BodyOctets, W.V4Octets, W.V6Octets, W.ExtensionsOctets, WithTransport, W.BodyOk, ParseIPv4, ParseIPv6;
    match ip {
      case V4(h, body) => V4Read(h, W.ProtocolOf(body), W.BodyOctets(body));
      case V6(h, es, body) => V6Read(h, es, W.ProtocolOf(body), W.BodyOctets(body));
    }
  }

  lemma TupleRead(src: bytes, dst: bytes, b: W.Body)
    requires W.BodyOk(b)
    ensures WithTransport(Tuple(src, dst, W.ProtocolOf(b), 0, 0, 0), W.BodyOctets(b)) == TupleOf(src, dst, b)
  {
    var t := Tuple(src, dst, W.ProtocolOf(b), 0, 0, 0);
    match b {
      case Tcp(_, _, _, _, _, _, _, _, _, _) => TcpPorts(b, t);
      case Udp(p, rest) => UdpPorts(p, rest, t);
      case Vxlan(p, header, frame) =>
        Assoc(W.PortsOctets(p), header, W.FrameOctets(frame));
        UdpPorts(p, header + W.FrameOctets(frame), t);
      case Geneve(p, _, _, _, _, _) => var rest := AfterPorts(b, p); UdpPorts(p, rest, t);
      case L2tp(p, _, _, _, _, _, _, _) => var rest := AfterPorts(b, p); UdpPorts(p, rest, t);
      case Gtpu(p, _, _, _, _, _, _) => var rest := AfterPorts(b, p); UdpPorts(p, rest, t);
      case _ =>
    }
  }

  /** The octets of a tunnel after its UDP header. */
  lemma AfterPorts(b: W.Body, p: W.Ports) returns (rest: bytes)
    requires W.BodyOk(b) && (b.Geneve? || b.L2tp? || b.Gtpu?) && p == b.ports
    ensures W.BodyOctets(b) == W.PortsOctets(p) + rest
  {
    hide W.PortsOctets, W.L2tpHead, W.GtpuHead, W.IpOctets, W.InnerOctets, W16, W.GtpuExtensionsOctets;
    var data := W.BodyOctets(b);
    var n := |W.PortsOctets(p)|;
    rest := data[n..];
    assert data[..n] == W.PortsOctets(p);
  }

  lemma NetworkShows(opts: Options, ip: W.Ip, direct: bool, v: View) returns (n: Network, v': View)
    requires W.IpOk(ip)
    ensures Parse(opts, W.IpOctets(ip), TypeOf(ip), direct, v) == AfterNetwork(opts, W.BodyOctets(ip.body), n, v')
    ensures direct ==> Parse(opts, W.IpOctets(ip), 0, true, v) == AfterNetwork(opts, W.BodyOctets(ip.body), n, v')
    ensures n.tuple == if ip.V4? then TupleOf(ip.v4.src, ip.v4.dst, ip.body) else TupleOf(ip.v6.src, ip.v6.dst, ip.body)
    ensures Shows(v', v, Sight(if ip.V4? then [KIPv4] else [KIPv6] + ExtensionsShown(ip.extensions), [], [], [n.tuple]))
  {
    hide W.BodyOctets, W.V4Octets, W.V6Octets, W.ExtensionsOctets, WithTransport, W.BodyOk, ParseIPv4, ParseIPv6,
         AfterNetwork, TupleOf, ExtensionsShown, W.ProtocolOf;
    var body := W.BodyOctets(ip.body);
    IpStarts(ip);
    match ip {
      case V4(h, b) =>
        V4Read(h, W.ProtocolOf(b), body);
        TupleRead(h.src, h.dst, b);
        n := ParseIPv4(W.IpOctets(ip)).value;
        v' := SeeNetwork(v, KIPv4, n);
        Empty(v.kinds + [KIPv4]);
      case V6(h, es, b) =>
        V6Read(h, es, W.ProtocolOf(b), body);
        TupleRead(h.src, h.dst, b);
        n := ParseIPv6(W.IpOctets(ip)).value;
        v' := SeeNetwork(v, KIPv6, n);
        Assoc(v.kinds, [KIPv6], ExtensionsShown(es));
    }
    Empty(v.seen.vlans);
    Empty(v.seen.labels);
  }

  lemma TuplePorts(src: bytes, dst: bytes, b: W.Body)
    ensures TupleOf(src, dst, b).proto == W.ProtocolOf(b)
    ensures b.Udp? || b.Vxlan? || b.Geneve? || b.L2tp? || b.Gtpu? ==>
              TupleOf(src, dst, b).srcPort == b.ports.src && TupleOf(src, dst, b).dstPort == b.ports.dst
  {
  }

  /** Every IP packet: parsing shows it and everything it nests. */
  lemma {:induction false} IpShows(opts: Options, ip: W.Ip, direct: bool, v: View) returns (r: View)
    requires W.IpOk(ip) && IpOpens(opts, ip)
    ensures Parse(opts, W.IpOctets(ip), TypeOf(ip), direct, v) == Parsed(r) && Shows(r, v, IpSight(ip))
    ensures direct ==> Parse(opts, W.IpOctets(ip), 0, true, v) == Parsed(r)
    decreases ip, 0
  {
    hide Parse, AfterNetwork, W.IpOctets, W.BodyOctets, BodyOpens, BodySight, TupleOf, Shows, ExtensionsShown;
    BodyIsOk(ip);
    var n, v' := NetworkShows(opts, ip, direct, v);
    if ip.V4? { TuplePorts(ip.v4.src, ip.v4.dst, ip.body); } else { TuplePorts(ip.v6.src, ip.v6.dst, ip.body); }
    r := BodyShows(opts, ip.body, n, v');
    ShowsThen(r, v', v, Sight(if ip.V4? then [KIPv4] else [KIPv6] + ExtensionsShown(ip.extensions), [], [], [n.tuple]),
              BodySight(ip.body));
  }

  lemma BodyIsOk(ip: W.Ip)
    requires W.IpOk(ip)
    ensures W.BodyOk(ip.body)
  {
    hide W.BodyOk;
  }

  lemma {:induction false} BodyShows(opts: Options, b: W.Body, n: Network, v: View) returns (r: View)
    requires W.BodyOk(b) && BodyOpens(opts, b) && n.tuple.proto == W.ProtocolOf(b)
    requires b.Udp? || b.Vxlan? || b.Geneve? || b.L2tp? || b.Gtpu? ==>
               n.tuple.srcPort == b.ports.src && n.tuple.dstPort == b.ports.dst
    ensures AfterNetwork(opts, W.BodyOctets(b), n, v) == Parsed(r) && Shows(r, v, BodySight(b))
    decreases b, 1
  {
    hide Parse, AfterNetwork, W.IpOctets, W.InnerOctets, W.FrameOctets, InnerOpens, FrameOpens, IpOpens, Shows, Inside,
         W.PortsOctets, W.GreHead, W.GeneveHead, W.L2tpHead, W.GtpuHead, W.GtpuExtensionsOctets, W16, W32, ParseGRE,
         ParseVXLAN, ParseGeneve, ParseL2TP, ParseGTPU, IpSight, InnerSight, FrameSight, W.InnerOk, W.FrameOk, W.IpOk,
         W.InnerType, Claims, Starts, PlainSight, Transport, Announced, W.GtpuNext, W.PppType;
    var data := W.BodyOctets(b);
    match b {
      case Tcp(_, _, _, _, _, _, _, _, _, _) =>
        AfterOther(opts, data, n, v);
        r := See(v, KTcp);
        SeeShows(v, KTcp);
      case Udp(p, rest) =>
        UdpSize(p, rest);
        AfterUdp(opts, data, n, v, p);
        r := See(v, KUdp);
        SeeShows(v, KUdp);
      case Nested(ip) =>
        AfterOther(opts, data, n, v);
        r := IpShows(opts, ip, false, v);
      case Gre(c, k, s, low, inner) =>
        GreRead(c, k, s, low, W.InnerType(inner), W.InnerOctets(inner), v);
        AfterGre(opts, data, n, v);
        r := InnerShows(opts, inner, See(v, KGre), 47, n.used);
        SeeShows(v, KGre);
        ShowsThen(r, See(v, KGre), v, Only(KGre), InnerSight(inner));
      case Vxlan(p, header, frame) =>
        r := VxlanShows(opts, b, n, v);
      case Geneve(p, top, control, vni, options, inner) =>
        r := GeneveShows(opts, b, n, v);
      case L2tp(p, length, tunnel, session, sequences, pad, control, ip) =>
        r := L2tpShows(opts, b, n, v);
      case Gtpu(p, spare, length, teid, optional, es, ip) =>
        r := GtpuShows(opts, b, n, v);
      case Plain(p, _) =>
        AfterOther(opts, data, n, v);
        r := Transport(v, p);
        PlainShows(v, p);
    }
  }

  lemma UdpSize(p: W.Ports, rest: bytes)
    ensures |W.PortsOctets(p) + rest| >= 8
  {
  }

  lemma VxlanShows(opts: Options, b: W.Body, n: Network, v: View) returns (r: View)
    requires b.Vxlan? && W.BodyOk(b) && BodyOpens(opts, b) && n.tuple.proto == 17
    requires n.tuple.srcPort == b.ports.src && n.tuple.dstPort == b.ports.dst
    ensures AfterNetwork(opts, W.BodyOctets(b), n, v) == Parsed(r) && Shows(r, v, BodySight(b))
    decreases b, 0
  {
    hide Parse, AfterNetwork, W.FrameOctets, FrameOpens, Shows, Inside, W.PortsOctets, ParseVXLAN, FrameSight,
         W.FrameOk,
         Announced, Claims;
    var data, rest := W.BodyOctets(b), W.FrameOctets(b.frame);
    VxlanRead(b.ports, b.header, rest, v);
    Assoc(W.PortsOctets(b.ports), b.header, rest);
    UdpSize(b.ports, b.header + rest);
    AfterUdp(opts, data, n, v, b.ports);
    r := FrameShows(opts, b.frame, See(v, KVxlan), 17, n.used);
    SeeShows(v, KVxlan);
    ShowsThen(r, See(v, KVxlan), v, Only(KVxlan), FrameSight(b.frame));
  }

  lemma GeneveShows(opts: Options, b: W.Body, n: Network, v: View) returns (r: View)
    requires b.Geneve? && W.BodyOk(b) && BodyOpens(opts, b) && n.tuple.proto == 17
    requires n.tuple.srcPort == b.ports.src && n.tuple.dstPort == b.ports.dst
    ensures AfterNetwork(opts, W.BodyOctets(b), n, v) == Parsed(r) && Shows(r, v, BodySight(b))
    decreases b, 0
  {
    hide Parse, AfterNetwork, W.InnerOctets, InnerOpens, Shows, Inside, W.GeneveHead, ParseGeneve, InnerSight,
         W.InnerOk, Announced, Claims, W.InnerType;
    var data, rest := W.BodyOctets(b), W.InnerOctets(b.inner);
    GeneveRead(b.ports, b.top, b.control, b.vni, b.options, W.InnerType(b.inner), rest, v);
    GeneveSize(b.ports, b.top, b.control, b.vni, b.options, W.InnerType(b.inner), rest);
    AfterUdp(opts, data, n, v, b.ports);
    r := InnerShows(opts, b.inner, See(v, KGeneve), 17, n.used);
    SeeShows(v, KGeneve);
    ShowsThen(r, See(v, KGeneve), v, Only(KGeneve), InnerSight(b.inner));
  }

  lemma GeneveSize(ports: W.Ports, top: u8, control: u8, vni: bytes, options: bytes, t: u16, rest: bytes)
    requires top < 4 && |options| <= 252
    ensures |W.GeneveHead(ports, top, control, vni, options, t) + rest| >= 8 + |rest|
  {
  }

  lemma L2tpShows(opts: Options, b: W.Body, n: Network, v: View) returns (r: View)
    requires b.L2tp? && W.BodyOk(b) && BodyOpens(opts, b) && n.tuple.proto == 17
    requires n.tuple.srcPort == b.ports.src && n.tuple.dstPort == b.ports.dst
    ensures AfterNetwork(opts, W.BodyOctets(b), n, v) == Parsed(r) && Shows(r, v, BodySight(b))
    decreases b, 0
  {
    hide Parse, AfterNetwork, W.IpOctets, IpOpens, Shows, Inside, W.PortsOctets, W.L2tpHead, ParseL2TP, IpSight, W.IpOk,
         Announced, Claims, W16;
    var data, rest, mark := W.BodyOctets(b), W.IpOctets(b.ip), if b.addressControl then [0xff, 0x03] else [];
    var head := W.PortsOctets(b.ports) + W.L2tpHead(b.lengthField, b.tunnel, b.session, b.sequences, b.offsetPad);
    IpStarts(b.ip);
    L2tpRead(b.ports, b.lengthField, b.tunnel, b.session, b.sequences, b.offsetPad, b.addressControl, W.PppType(b.ip),
             rest, v);
    Assoc(head + mark, W16(W.PppType(b.ip)), rest);
    Assoc(head, mark, W16(W.PppType(b.ip)) + rest);
    Assoc(mark, W16(W.PppType(b.ip)), rest);
    Assoc(W.PortsOctets(b.ports), W.L2tpHead(b.lengthField, b.tunnel, b.session, b.sequences, b.offsetPad),
          mark + W16(W.PppType(b.ip)) + rest);
    LongerThan(b.ports, W.L2tpHead(b.lengthField, b.tunnel, b.session, b.sequences, b.offsetPad)
               + (mark + W16(W.PppType(b.ip)) + rest));
    AfterUdp(opts, data, n, v, b.ports);
    r := IpShows(opts, b.ip, false, See(v, KL2tp));
    InsideRouted(opts, See(v, KL2tp), rest, TypeOf(b.ip), 17, n.used);
    SeeShows(v, KL2tp);
    ShowsThen(r, See(v, KL2tp), v, Only(KL2tp), IpSight(b.ip));
  }

  lemma LongerThan(ports: W.Ports, rest: bytes)
    ensures |W.PortsOctets(ports) + rest| == 8 + |rest|
  {
  }

  lemma GtpuShows(opts: Options, b: W.Body, n: Network, v: View) returns (r: View)
    requires b.Gtpu? && W.BodyOk(b) && BodyOpens(opts, b) && n.tuple.proto == 17
    requires n.tuple.srcPort == b.ports.src && n.tuple.dstPort == b.ports.dst
    ensures AfterNetwork(opts, W.BodyOctets(b), n, v) == Parsed(r) && Shows(r, v, BodySight(b))
    decreases b, 0
  {
    hide Parse, AfterNetwork, W.IpOctets, IpOpens, Shows, Inside, W.PortsOctets, W.GtpuHead, ParseGTPU, IpSight, W.IpOk,
         Announced, Claims, W.GtpuExtensionsOctets, W.GtpuNext;
    var data, rest, more := W.BodyOctets(b), W.IpOctets(b.ip), W.GtpuExtensionsOctets(b.gtpuExtensions);
    var head := W.GtpuHead(b.spare, b.length, b.teid, b.optional, W.GtpuNext(b.gtpuExtensions));
    IpStarts(b.ip);
    GtpuRead(b.ports, b.spare, b.length, b.teid, b.optional, b.gtpuExtensions, rest, v);
    Assoc(W.PortsOctets(b.ports) + head, more, rest);
    Assoc(W.PortsOctets(b.ports), head, more + rest);
    LongerThan(b.ports, head + (more + rest));
    AfterUdp(opts, data, n, v, b.ports);
    r := IpShows(opts, b.ip, false, See(v, KGtpu));
    InsideRouted(opts, See(v, KGtpu), rest, TypeOf(b.ip), 17, n.used);
    SeeShows(v, KGtpu);
    ShowsThen(r, See(v, KGtpu), v, Only(KGtpu), IpSight(b.ip));
  }

  lemma {:induction false} InnerShows(opts: Options, i: W.Inner, v: View, proto: u8, used: nat) returns (r: View)
    requires W.InnerOk(i) && InnerOpens(opts, i)
    ensures Inside(opts, v, W.InnerOctets(i), W.InnerType(i), proto, used) == Parsed(r) && Shows(r, v, InnerSight(i))
    decreases i, 0
  {
    hide Parse, Inside, W.NetOctets, W.FrameOctets, NetOpens, FrameOpens, NetSight, FrameSight, Shows, W.NetOk,
         W.FrameOk;
    match i {
      case Bridged(f) => r := FrameShows(opts, f, v, proto, used);
      case Routed(net) =>
        NoTag(net);
        InsideRouted(opts, v, W.NetOctets(net), W.EtherTypeOf(net), proto, used);
        r := NetShows(opts, net, v);
    }
  }

  lemma {:induction false} FrameShows(opts: Options, f: W.Frame, v: View, proto: u8, used: nat) returns (r: View)
    requires W.FrameOk(f) && FrameOpens(opts, f)
    ensures Inside(opts, v, W.FrameOctets(f), 0x6558, proto, used) == Parsed(r) && Shows(r, v, FrameSight(f))
    decreases f, 0
  {
    hide Parse, Inside, W.NetOctets, W.FrameOctets, NetOpens, NetSight, W.NetOk, ParseEthernet, Times, TagIds, Shows;
    FrameRead(f, v, false);
    InsideBridged(opts, v, W.FrameOctets(f), proto, used);
    var v' := ParseEthernet(W.FrameOctets(f), v, false).view;
    r := NetShows(opts, f.net, v');
    LinkShows(v', v, Sight([KEthernet] + Times(|f.tags|, KDot1q), TagIds(f.tags), [], []));
    ShowsThen(r, v', v, Sight([KEthernet] + Times(|f.tags|, KDot1q), TagIds(f.tags), [], []), NetSight(f.net));
  }

  lemma LinkShows(r: View, v: View, s: Sight)
    requires r.kinds == v.kinds + s.kinds && r.macs == v.macs && (v.etherType != 0 ==> r.etherType == v.etherType)
    requires s.tuples == [] && r.seen.tuples == v.seen.tuples
    requires (s.labels == [] && r.seen.labels == v.seen.labels) || r.seen.labels == v.seen.labels + s.labels
    requires (s.vlans == [] && r.seen.vlans == v.seen.vlans) || r.seen.vlans == v.seen.vlans + s.vlans
    ensures Shows(r, v, s)
  {
    Empty(v.seen.vlans);
    Empty(v.seen.labels);
    Empty(v.seen.tuples);
  }

  lemma {:induction false} NetShows(opts: Options, net: W.Net, v: View) returns (r: View)
    requires W.NetOk(net) && NetOpens(opts, net)
    ensures Parse(opts, W.NetOctets(net), W.EtherTypeOf(net), false, v) == Parsed(r) && Shows(r, v, NetSight(net))
    decreases net, 1
  {
    match net {
      case Direct(ip) =>
        hide Parse, W.IpOctets, IpOpens, IpSight, W.IpOk, Shows;
        r := IpShows(opts, ip, false, v);
      case Labelled(upstream, ls, ip) =>
        r := LabelledShows(opts, net, v);
      case Pppoe(session, length, upstream, inside) =>
        r := PppoeShows(opts, net, v);
    }
  }

  lemma LabelledShows(opts: Options, net: W.Net, v: View) returns (r: View)
    requires net.Labelled? && W.NetOk(net) && NetOpens(opts, net)
    ensures Parse(opts, W.NetOctets(net), W.EtherTypeOf(net), false, v) == Parsed(r) && Shows(r, v, NetSight(net))
    decreases net, 0
  {
    hide W.IpOctets, IpOpens, IpSight, W.IpOk, Shows, W.LabelsOctets, Times, LabelValues, Parse, ParseMPLS, W.LabelOk,
         Starts;
    IpStarts(net.ip);
    LabelsRead(net.labels, W.IpOctets(net.ip), v);
    var data := W.NetOctets(net);
    var v' := ParseMPLS(data, v).view;
    VersionOf(net.ip);
    ParseLabels(opts, data, W.EtherTypeOf(net), v);
    r := IpShows(opts, net.ip, false, v');
    LinkShows(v', v, Sight(Times(|net.labels|, KMpls), [], LabelValues(net.labels), []));
    ShowsThen(r, v', v, Sight(Times(|net.labels|, KMpls), [], LabelValues(net.labels), []), IpSight(net.ip));
  }

  lemma VersionOf(ip: W.Ip)
    requires W.IpOk(ip)
    ensures Starts(W.IpOctets(ip), 4) <==> ip.V4?
  {
    hide W.IpOctets, W.IpOk;
    IpStarts(ip);
  }

  lemma ParseLabels(opts: Options, data: bytes, t: u16, v: View)
    requires opts.beyondL4 && (t == 0x8847 || t == 0x8848) && ParseMPLS(data, v).Go?
    ensures var step := ParseMPLS(data, v);
            Parse(opts, data, t, false, v) == Parse(opts, step.rest, step.etherType, false, step.view)
  {
    hide ParseMPLS, ParseIPv4, ParseIPv6, AfterNetwork;
  }

  lemma PppoeShows(opts: Options, net: W.Net, v: View) returns (r: View)
    requires net.Pppoe? && W.NetOk(net) && NetOpens(opts, net)
    ensures Parse(opts, W.NetOctets(net), W.EtherTypeOf(net), false, v) == Parsed(r) && Shows(r, v, NetSight(net))
    decreases net, 0
  {
    var inside := net.inside;
    var p := if inside.Direct? then W.PppType(inside.ip) else if net.upstreamLabels then 0x0283 else 0x0281;
    hide IpOpens, IpSight, W.IpOk, Shows, Parse, ParsePPPoE, W.PppoeHead, W.IpOctets, W.LabelsOctets, W.LabelOk;
    PppoeRead(net.session, net.length, p, W.NetOctets(inside), v);
    ParseSession(opts, W.NetOctets(net), v);
    r := NetShows(opts, inside, See(v, KPppoe));
    SeeShows(v, KPppoe);
    ShowsThen(r, See(v, KPppoe), v, Only(KPppoe), NetSight(inside));
  }

  lemma ParseSession(opts: Options, data: bytes, v: View)
    requires opts.beyondL4 && opts.pppoe && ParsePPPoE(data, v).Go?
    ensures var step := ParsePPPoE(data, v);
            Parse(opts, data, 0x8864, false, v) == Parse(opts, step.rest, step.etherType, false, step.view)
  {
    hide ParsePPPoE, ParseIPv4, ParseIPv6, AfterNetwork;
  }

  /** Every frame: tags, labels and all nested headers are shown, under the frame's own addresses and type. */
  lemma FrameIsShown(opts: Options, f: W.Frame, protocol: u32) returns (r: View)
    requires W.FrameOk(f) && FrameOpens(opts, f) && protocol != 11 && protocol != 12
    ensures ParsePacketView(opts, W.FrameOctets(f), protocol) == Parsed(r)
    ensures var s := FrameSight(f); r.kinds == s.kinds && r.seen == Seen(s.vlans, s.labels, s.tuples)
    ensures r.macs == Some((f.dst, f.src)) && r.etherType == W.EtherTypeOf(f.net)
  {
    hide Parse, W.NetOctets, NetOpens, NetSight, W.NetOk, ParseEthernet, Times, TagIds;
    var data := W.FrameOctets(f);
    MacsFirst(f, W.NetOctets(f.net));
    FrameRead(f, NoView(), true);
    NetNonempty(f.net);
    NoTag(f.net);
    var v' := ParseEthernet(data, NoView(), true).view;
    r := NetShows(opts, f.net, v');
    Empty(TagIds(f.tags));
    Empty([KEthernet] + Times(|f.tags|, KDot1q));
    Empty(NetSight(f.net).labels);
    Empty(NetSight(f.net).tuples);
  }

  lemma NetNonempty(n: W.Net)
    requires W.NetOk(n)
    ensures W.NetOctets(n) != []
  {
    hide W.IpOctets, W.IpOk;
    match n {
      case Direct(ip) => IpStarts(ip);
      case Labelled(_, _, ip) => IpStarts(ip);
      case Pppoe(_, _, _, _) =>
    }
  }

  /** Every packet that starts at its IP header, whether its version is announced or only its first octet tells. */
  lemma IpIsShown(opts: Options, ip: W.Ip, protocol: u32) returns (r: View)
    requires W.IpOk(ip) && IpOpens(opts, ip) && protocol == (if ip.V4? then 11 else 12)
    ensures ParsePacketView(opts, W.IpOctets(ip), protocol) == Parsed(r)
    ensures var s := IpSight(ip); r.kinds == s.kinds && r.seen == Seen(s.vlans, s.labels, s.tuples)
  {
    hide Parse, W.IpOctets, IpOpens, IpSight, W.IpOk;
    IpStarts(ip);
    r := IpShows(opts, ip, true, NoView());
    var s := IpSight(ip);
    Empty(s.kinds);
    Empty(s.vlans);
    Empty(s.labels);
    Empty(s.tuples);
  }
}

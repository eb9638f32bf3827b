/** What the chain of layer parsers fills in for a packet, read off the packet itself. */
module ChainReads {
  import opened Bytes
  import opened Wire
  import W = PacketWire
  import R = PacketReads
  import opened LayerChain

  const NO_PORTS := Ports(map[], map[])

  /** Nothing registered beyond what the parsers know by themselves. */
  const DEFAULT := Environment(map[], map[], NO_PORTS, NO_PORTS)

  // ---------- what a layer says ----------

  /** The fields a layer brings to the message. */
  datatype Fields =
    | MacFields(dstMac: bytes, srcMac: bytes, etype: u16)
    | TagFields(control: u16, etype: u16)
    | LabelFields(labels: seq<u32>, ttls: seq<u8>, etype: u16)
    | V4Fields(v4: W.V4Header, protocol: u8)
    | V6Fields(v6: W.V6Header, protocol: u8)
    | FragmentFields(id: u32, offset: u16, flags: u8)
    | RoutingFields(left: u8, segments: seq<bytes>)
    | PortFields(srcPort: u16, dstPort: u16)
    | TcpFields(srcPort: u16, dstPort: u16, tcpFlags: u8)
    | NoFields

  /** A tag shows its whole control word, priority included. */
  function Fill(o: Outer, f: Fields): Outer
  {
    match f
    case MacFields(dst, src, t) => o.(dstMac := dst, srcMac := src, etype := t)
    case TagFields(control, t) => o.(vlan := control, etype := t)
    case LabelFields(ls, ttls, t) => o.(labels := ls, ttls := ttls, etype := t)
    case V4Fields(h, p) =>
      o.(src := h.src, dst := h.dst, tos := h.tos, ttl := h.ttl, fragmentId := h.id, fragmentOffset := h.fragment,
         ipFlags := h.flags, proto := p)
    case V6Fields(h, p) =>
      o.(src := h.src, dst := h.dst, tos := h.trafficClass, ttl := h.hopLimit, flowLabel := h.flowLabel, proto := p)
    case FragmentFields(id, offset, flags) => o.(fragmentId := id, fragmentOffset := offset, ipFlags := flags)
    case RoutingFields(left, segments) => o.(segmentsLeft := left, segments := o.segments + segments)
    case PortFields(src, dst) => o.(srcPort := src, dstPort := dst)
    case TcpFields(src, dst, flags) => o.(srcPort := src, dstPort := dst, tcpFlags := flags)
    case NoFields => o
  }

  /** A layer that is there; only outside any encapsulation it fills in its fields. */
  function Named(m: Message, base: bool, size: nat, next: Parser, f: Fields): Layer
  {
    Layer(true, size, next, if base then Fill(m.outer, f) else m.outer, m.icmp)
  }

  // ---------- one layer each, from its octets ----------

  lemma MacsRead(m: Message, base: bool, dst: bytes, src: bytes, t: u16, rest: bytes)
    requires |dst| == 6 && |src| == 6
    ensures ParseEthernet(DEFAULT, m, dst + src + W16(t) + rest, base)
            == Named(m, base, 14, NextEtype(DEFAULT, t), MacFields(dst, src, t))
  {
    hide NextEtype;
    var head := dst + src + W16(t);
    assert head[..6] == dst && head[6..12] == src && head[12..14] == W16(t);
    Front(head, rest);
    var d := head + rest;
    assert d[..6] == head[..6];
    WordAt(d, 12, t);
  }

  /** The whole control word is shown, priority included. */
  lemma TagRead(m: Message, base: bool, control: u16, t: u16, rest: bytes)
    ensures ParseDot1q(DEFAULT, m, W16(control) + (W16(t) + rest), base)
            == Named(m, base, 4, NextEtype(DEFAULT, t), TagFields(control, t))
  {
    hide NextEtype, W16, HeadU16;
    WordFront(control, W16(t) + rest);
    WordFront(t, rest);
  }

  lemma V4At(h: W.V4Header, protocol: u8)
    requires |h.src| == 4 && |h.dst| == 4 && |h.options| <= 40 && h.flags < 8 && h.fragment < 8192
    ensures var b := W.V4Octets(h, protocol);
            && |b| == 20 + |h.options| && b[1] == h.tos && b[4..6] == W16(h.id)
            && b[6..8] == W16(h.flags as int * 8192 + h.fragment) && b[8] == h.ttl && b[9] == protocol
            && b[12..16] == h.src && b[16..20] == h.dst
  {
    var b := W.V4Octets(h, protocol);
    var a := [64 + 5 + |h.options| / 4, h.tos] + W16(h.total) + W16(h.id) + W16(h.flags as int * 8192 + h.fragment)
             + [h.ttl, protocol] + W16(h.checksum);
    assert |a| == 12 && b == a + h.src + h.dst + h.options;
    assert a[4..6] == W16(h.id) && a[6..8] == W16(h.flags as int * 8192 + h.fragment);
  }

  lemma FragmentWord(flags: nat, fragment: nat)
    requires flags < 8 && fragment < 8192
    ensures var w := flags * 8192 + fragment; w < 65536 && w % 8192 == fragment && w / 8192 == flags
  {
  }

  /** Twenty octets are taken, whether the header has options or not. */
  lemma V4Read(m: Message, base: bool, h: W.V4Header, protocol: u8, rest: bytes)
    requires |h.src| == 4 && |h.dst| == 4 && |h.options| <= 40 && h.flags < 8 && h.fragment < 8192
    ensures ParseIPv4(DEFAULT, m, W.V4Octets(h, protocol) + rest, base)
            == Named(m, base, 20, NextProto(DEFAULT, protocol), V4Fields(h, protocol))
  {
    hide NextProto, W.V4Octets, HeadU16, W16;
    V4At(h, protocol);
    Front(W.V4Octets(h, protocol), rest);
    var d := W.V4Octets(h, protocol) + rest;
    FragmentWord(h.flags, h.fragment);
    WordAt(d, 4, h.id);
    WordAt(d, 6, h.flags as int * 8192 + h.fragment);
  }

  lemma V6At(h: W.V6Header, next: u8)
    requires |h.src| == 16 && |h.dst| == 16 && h.flowLabel < 1048576
    ensures var b := W.V6Octets(h, next);
            && |b| == 40 && b[6] == next && b[7] == h.hopLimit && b[8..24] == h.src && b[24..40] == h.dst
            && HeadU16(b) % 4096 / 16 == h.trafficClass && HeadU32(b) % 1048576 == h.flowLabel
  {
    var b := W.V6Octets(h, next);
    var top: bytes := [96 + h.trafficClass / 16, h.trafficClass % 16 * 16 + h.flowLabel / 65536 % 16]
      + W16(h.flowLabel);
    var a := top + W16(h.length) + [next, h.hopLimit];
    assert |a| == 8 && b == a + h.src + h.dst;
    assert b[0] == top[0] && b[1] == top[1] && b[2] == top[2] && b[3] == top[3];
    ClassBits(h.trafficClass / 16, h.trafficClass % 16, h.flowLabel / 65536);
    FlowBits(h.trafficClass / 16, h.trafficClass % 16, h.flowLabel);
  }

  lemma ClassBits(high: nat, low: nat, top: nat)
    requires high < 16 && low < 16 && top < 16
    ensures ((96 + high) * 256 + (low * 16 + top)) % 4096 / 16 == high * 16 + low
  {
  }

  lemma FlowBits(high: nat, low: nat, flow: nat)
    requires high < 16 && low < 16 && flow < 1048576
    ensures ((96 + high) * 16777216 + (low * 16 + flow / 65536 % 16) * 65536 + flow / 256 % 256 * 256
             + flow % 256) % 1048576
            == flow
  {
    var word := flow / 65536 * 65536 + flow / 256 % 256 * 256 + flow % 256;
    assert flow / 65536 % 16 == flow / 65536;
    FlowParts(flow);
    Shift((96 + high) * 16 + low, flow);
  }

  lemma FlowParts(flow: nat)
    ensures flow / 65536 * 65536 + flow / 256 % 256 * 256 + flow % 256 == flow
  {
    assert flow / 256 / 256 == flow / 65536;
  }

  lemma Shift(k: nat, flow: nat)
    requires flow < 1048576
    ensures (k * 1048576 + flow) % 1048576 == flow
  {
  }

  lemma V6Read(m: Message, base: bool, h: W.V6Header, next: u8, rest: bytes)
    requires |h.src| == 16 && |h.dst| == 16 && h.flowLabel < 1048576
    ensures ParseIPv6(DEFAULT, m, W.V6Octets(h, next) + rest, base)
            == Named(m, base, 40, NextProto(DEFAULT, next), V6Fields(h, next))
  {
    hide NextProto, W.V6Octets;
    V6At(h, next);
    Front(W.V6Octets(h, next), rest);
  }

  lemma TcpRead(m: Message, base: bool, b: W.Body)
    requires b.Tcp?
    ensures ParseTcp(DEFAULT, m, W.BodyOctets(b), base)
            == Named(m, base, b.offset / 16 * 4, NoParser, TcpFields(b.srcPort, b.dstPort, b.tcpFlags))
  {
    hide HeadU16;
    R.TcpWords(b);
  }

  lemma UdpRead(m: Message, base: bool, p: W.Ports, rest: bytes)
    ensures ParseUdp(DEFAULT, m, W.PortsOctets(p) + rest, base)
            == Named(m, base, 8, NoParser, PortFields(p.src, p.dst))
  {
    hide HeadU16;
    R.UdpWords(p, rest);
  }

  // ---------- label stacks ----------

  /** Labels up to 15 are reserved and end the stack for this parser. */
  predicate LabelsOk(ls: seq<W.Label>)
  {
    forall i :: 0 <= i < |ls| ==> W.LabelOk(ls[i]) && (i < |ls| - 1 ==> ls[i].value > 15)
  }

  function Lifetimes(ls: seq<W.Label>): seq<u8>
  {
    if ls == [] then [] else [ls[0].ttl] + Lifetimes(ls[1..])
  }

  lemma LabelOctets(l: W.Label, last: bool)
    requires W.LabelOk(l)
    ensures var b := W32(W.LabelWord(l, last));
            && |b| == 4 && b[0] as int * 4096 + b[1] as int * 16 + b[2] as int / 16 == l.value
            && (b[2] % 2 == 1 <==> last) && b[3] == l.ttl
  {
    hide W32;
    var a, b, c := l.value / 4096, l.value / 16 % 256, l.value % 16;
    var low := c * 16 + l.tc * 2 + (if last then 1 else 0);
    ValueParts(l.value);
    FourOctets(a, b, low, l.ttl);
    assert low % 2 == (if last then 1 else 0) && low / 16 == c;
  }

  lemma ValueParts(v: nat)
    requires v < 1048576
    ensures v / 4096 * 4096 + v / 16 % 256 * 16 + v % 16 == v && v / 4096 < 256
  {
    assert v / 16 / 256 == v / 4096;
  }

  lemma LabelsStep(data: bytes, at: nat, l: W.Label, last: bool, rest: bytes)
    requires at <= |data| && W.LabelOk(l) && data[at..] == W32(W.LabelWord(l, last)) + rest
    ensures at + 4 <= |data| && data[at + 4..] == rest
    ensures !last && l.value > 15 ==>
              var more := ReadLabels(data, at + 4);
              ReadLabels(data, at) == Labels([l.value] + more.labels, [l.ttl] + more.ttls, more.used, more.etype)
    ensures last && rest != [] && (rest[0] / 16 == 4 || rest[0] / 16 == 6) ==>
              ReadLabels(data, at) == Labels([l.value], [l.ttl], at + 4,
                                             Some(if rest[0] / 16 == 4 then 0x0800 else 0x86dd))
  {
    hide W32, W.LabelOk, W.LabelWord;
    var word := W32(W.LabelWord(l, last));
    LabelOctets(l, last);
    Front(word, rest);
    assert data[at] == data[at..][0] && data[at + 1] == data[at..][1] && data[at + 2] == data[at..][2];
    assert data[at + 3] == data[at..][3];
    assert data[at + 4..] == data[at..][4..];
    if rest != [] { assert data[at + 4] == data[at + 4..][0]; }
  }

  lemma {:induction false} LabelsRead(data: bytes, at: nat, ls: seq<W.Label>, rest: bytes)
    requires at <= |data| && ls != [] && LabelsOk(ls) && rest != [] && (rest[0] / 16 == 4 || rest[0] / 16 == 6)
    requires data[at..] == W.LabelsOctets(ls) + rest
    ensures ReadLabels(data, at) == Labels(R.LabelValues(ls), Lifetimes(ls), at + 4 * |ls|,
                                           Some(if rest[0] / 16 == 4 then 0x0800 else 0x86dd))
    decreases |ls|
  {
    hide *;
    LabelsCons(ls);
    var l, more := ls[0], W.LabelsOctets(ls[1..]);
    Assoc(W32(W.LabelWord(l, |ls| == 1)), more, rest);
    LabelsStep(data, at, l, |ls| == 1, more + rest);
    if |ls| == 1 {
      Empty(rest);
    } else {
      LabelsRead(data, at + 4, ls[1..], rest);
    }
  }

  lemma LabelsCons(ls: seq<W.Label>)
    requires ls != [] && LabelsOk(ls)
    ensures LabelsOk(ls[1..]) && W.LabelOk(ls[0]) && (|ls| > 1 ==> ls[0].value > 15)
    ensures W.LabelsOctets(ls) == W32(W.LabelWord(ls[0], |ls| == 1)) + W.LabelsOctets(ls[1..])
    ensures R.LabelValues(ls) == [ls[0].value] + R.LabelValues(ls[1..])
    ensures Lifetimes(ls) == [ls[0].ttl] + Lifetimes(ls[1..])
    ensures |ls| == 1 ==>
              W.LabelsOctets(ls[1..]) == [] && R.LabelValues(ls) == [ls[0].value] && Lifetimes(ls) == [ls[0].ttl]
  {
    hide W32, W.LabelOk, W.LabelWord;
    if |ls| == 1 { assert ls[1..] == []; }
  }

  lemma LabelStackRead(m: Message, base: bool, ls: seq<W.Label>, rest: bytes)
    requires ls != [] && LabelsOk(ls) && rest != [] && (rest[0] / 16 == 4 || rest[0] / 16 == 6)
    ensures var t := if rest[0] / 16 == 4 then 0x0800 else 0x86dd;
            ParseMpls(DEFAULT, m, W.LabelsOctets(ls) + rest, base)
            == Named(m, base, 4 * |ls|, NextEtype(DEFAULT, t), LabelFields(R.LabelValues(ls), Lifetimes(ls), t))
    ensures |W.LabelsOctets(ls)| == 4 * |ls|
  {
    hide NextEtype, ReadLabels, W.LabelsOctets, R.LabelValues, Lifetimes, LabelsOk;
    var d := W.LabelsOctets(ls) + rest;
    assert d[0..] == d;
    LabelsSize(ls);
    LabelsRead(d, 0, ls, rest);
  }

  lemma {:induction false} LabelsSize(ls: seq<W.Label>)
    ensures |W.LabelsOctets(ls)| == 4 * |ls|
  {
    hide W.LabelWord;
    if ls != [] { LabelsSize(ls[1..]); }
  }

  // ---------- IPv6 extension headers ----------

  lemma FragmentRead(m: Message, base: bool, next: u8, e: W.Extension, rest: bytes)
    requires e.Fragment? && W.ExtensionOk(e)
    ensures ParseFragment(DEFAULT, m, W.ExtensionOctets(e, next) + rest, base)
            == Named(m, base, 8, NextProto(DEFAULT, next), FragmentOf(e))
  {
    hide NextProto;
    var head, c := W.ExtensionOctets(e, next), e.content;
    var d := head + rest;
    Front(head, rest);
    assert d[0] == next && d[2] == c[1] && d[3] == c[2] && d[4] == c[3] && d[5] == c[4] && d[6] == c[5] && d[7] == c[6];
    FlagsOfWord(c[1], c[2]);
  }

  lemma FlagsOfWord(a: u8, b: u8)
    ensures (a as int * 256 + b as int) % 8 == b % 8 && (a as int * 256 + b as int) / 8 < 65536
  {
  }

  /** Offset and flags in one word after a reserved octet, then the identification. */
  function FragmentOf(e: W.Extension): Fields
    requires e.Fragment? && W.ExtensionOk(e)
  {
    var c := e.content;
    FragmentFields(c[3] as int * 16777216 + c[4] as int * 65536 + c[5] as int * 256 + c[6] as int,
                   (c[1] as int * 256 + c[2] as int) / 8, c[2] % 8)
  }

  /** Type, segments left; a segment routing header lists sixteen-octet addresses after eight octets. */
  function RoutingOf(e: W.Extension): Fields
    requires e.Generic? && W.ExtensionOk(e)
  {
    RoutingFields(e.content[1], if e.content[0] == 4 then Segments(e.content, 0, e.k as int / 2, e.content[2]) else [])
  }

  function Segments(content: bytes, i: nat, n: nat, last: u8): seq<bytes>
    requires |content| >= 16 * n + 6
    decreases n - i
  {
    if i >= n || i > last as int then [] else [content[16 * i + 6..16 * i + 22]] + Segments(content, i + 1, n, last)
  }

  predicate RoutingOk(e: W.Extension)
  {
    e.Generic? && W.ExtensionOk(e) && e.number == 43 && (e.content[0] == 4 ==> e.k % 2 == 0)
  }

  lemma {:induction false} SegmentsRead(e: W.Extension, next: u8, rest: bytes, i: nat)
    requires RoutingOk(e) && e.content[0] == 4
    ensures var d := W.ExtensionOctets(e, next) + rest;
            ReadSegments(d, 8 + 8 * e.k as int, e.content[2], i) == Segments(e.content, i, e.k as int / 2, e.content[2])
    decreases e.k as int / 2 - i
  {
    var head := W.ExtensionOctets(e, next);
    var d := head + rest;
    Front(head, rest);
    if i < e.k as int / 2 && i <= e.content[2] as int {
      SegmentsRead(e, next, rest, i + 1);
      assert d[8 + 16 * i..24 + 16 * i] == head[8 + 16 * i..24 + 16 * i] == e.content[16 * i + 6..16 * i + 22];
    }
  }

  lemma RoutingRead(m: Message, base: bool, next: u8, e: W.Extension, rest: bytes)
    requires RoutingOk(e)
    ensures ParseRouting(DEFAULT, m, W.ExtensionOctets(e, next) + rest, base)
            == Named(m, base, 8 + 8 * e.k as int, NextProto(DEFAULT, next), RoutingOf(e))
  {
    hide NextProto, ReadSegments, Segments;
    var head := W.ExtensionOctets(e, next);
    Front(head, rest);
    Empty(m.outer.segments);
    if e.content[0] == 4 { SegmentsRead(e, next, rest, 0); }
  }

  lemma GreRead(m: Message, base: bool, low: u16, t: u16, rest: bytes)
    requires low < 4096
    ensures ParseGre(DEFAULT, m, W.GreHead(None, None, None, low, t) + rest)
            == Named(m, base, 4, NextEtype(DEFAULT, t), NoFields)
    ensures |W.GreHead(None, None, None, low, t)| == 4
  {
    hide NextEtype;
    var head := W.GreHead(None, None, None, low, t);
    assert head[2..4] == W16(t);
    Front(head, rest);
    WordAt(head + rest, 2, t);
  }

  // ---------- packets as layers ----------

  /** One layer of a packet: who parses it, its size, its fields and, for ICMP, its type and code. */
  datatype Lay = Lay(parser: Parser, size: nat, fields: Fields, icmp: Option<(u8, u8)>)

  function TagLays(ts: seq<W.Tag>, t: u16): seq<Lay>
  {
    if ts == [] then []
    else
      [Lay(Dot1q, 4, TagFields(Control(ts[0]) % 65536, if |ts| == 1 then t else 0x8100), None)] + TagLays(ts[1..], t)
  }

  /** Priority, drop indicator and id in one word. */
  function Control(t: W.Tag): nat
  {
    t.pcp as int * 8192 + (if t.dei then 4096 else 0) + t.id as int
  }

  function ExtensionLays(es: seq<W.Extension>): seq<Lay>
    requires ExtensionsOk(es)
  {
    if es == [] then []
    else
      [if es[0].Fragment? then Lay(Fragment, 8, FragmentOf(es[0]), None)
       else Lay(Routing, 8 + 8 * es[0].k as int, RoutingOf(es[0]), None)] + ExtensionLays(es[1..])
  }

  predicate ExtensionsOk(es: seq<W.Extension>)
  {
    forall i :: 0 <= i < |es| ==> W.ExtensionOk(es[i]) && (es[i].Fragment? || RoutingOk(es[i]))
  }

  function IpLays(ip: W.Ip): seq<Lay>
    requires IpFollowed(ip)
  {
    match ip
    case V4(h, b) => [Lay(IPv4, 20, V4Fields(h, W.ProtocolOf(b)), None)] + BodyLays(b)
    case V6(h, es, b) =>
      [Lay(IPv6, 40, V6Fields(h, W.NumberBefore(es, W.ProtocolOf(b))), None)] + (ExtensionLays(es) + BodyLays(b))
  }

  function BodyLays(b: W.Body): seq<Lay>
    requires BodyFollowed(b)
  {
    match b
    case Tcp(src, dst, _, _, offset, flags, _, _, _, _) => [Lay(Tcp, offset / 16 * 4, TcpFields(src, dst, flags), None)]
    case Udp(p, _) => [Lay(Udp, 8, PortFields(p.src, p.dst), None)]
    case Nested(ip) => IpLays(ip)
    case Gre(_, _, _, _, inner) => [Lay(Gre, 4, NoFields, None)] + InnerLays(inner)
    case Plain(p, rest) =>
      if p == 1 then [Lay(Icmp, 8, NoFields, Some((rest[0], rest[1])))]
      else if p == 58 then [Lay(Icmpv6, 8, NoFields, Some((rest[0], rest[1])))]
      else []
  }

  function InnerLays(i: W.Inner): seq<Lay>
    requires InnerFollowed(i)
  {
    match i
    case Bridged(f) => FrameLays(f)
    case Routed(n) => NetLays(n)
  }

  function NetLays(n: W.Net): seq<Lay>
    requires NetFollowed(n)
  {
    match n
    case Direct(ip) => IpLays(ip)
    case Labelled(_, ls, ip) =>
      [Lay(Mpls, 4 * |ls|, LabelFields(R.LabelValues(ls), Lifetimes(ls), if ip.V4? then 0x0800 else 0x86dd), None)]
      + IpLays(ip)
  }

  function FrameLays(f: W.Frame): seq<Lay>
    requires FrameFollowed(f)
  {
    var t := W.EtherTypeOf(f.net);
    [Lay(Ethernet, 14, MacFields(f.dst, f.src, if f.tags == [] then t else 0x8100), None)]
    + (TagLays(f.tags, t) + NetLays(f.net))
  }

  // ---------- packets this parser is made for ----------

  predicate TagsOk(ts: seq<W.Tag>)
  {
    forall i :: 0 <= i < |ts| ==> W.TagOk(ts[i]) && !ts[i].service
  }

  /** No IPv4 options, and of the extension headers only routing and fragment. */
  predicate IpFollowed(ip: W.Ip)
  {
    match ip
    case V4(h, b) => h.options == [] && BodyFollowed(b)
    case V6(h, es, b) => h.flowLabel < 1048576 && ExtensionsOk(es) && BodyFollowed(b)
  }

  /** TCP, UDP, IP in IP, GRE without optional fields, ICMP, or a protocol without a parser. */
  predicate BodyFollowed(b: W.Body)
  {
    match b
    case Tcp(_, _, _, _, _, _, _, _, _, _) => true
    case Udp(_, _) => true
    case Nested(ip) => IpFollowed(ip)
    case Gre(c, k, s, _, inner) => c.None? && k.None? && s.None? && InnerFollowed(inner)
    case Plain(p, rest) => (p == 1 || p == 58 ==> |rest| >= 2) && p != 43 && p != 44
    case _ => false
  }

  predicate InnerFollowed(i: W.Inner)
  {
    match i
    case Bridged(f) => FrameFollowed(f)
    case Routed(n) => NetFollowed(n)
  }

  predicate NetFollowed(n: W.Net)
  {
    match n
    case Direct(ip) => IpFollowed(ip)
    case Labelled(upstream, ls, ip) => !upstream && LabelsOk(ls) && IpFollowed(ip)
    case Pppoe(_, _, _, _) => false
  }

  predicate FrameFollowed(f: W.Frame)
  {
    TagsOk(f.tags) && NetFollowed(f.net)
  }

  // ---------- what the message becomes ----------

  function Depth(p: Parser): nat
  {
    match p
    case Ethernet => 1
    case Dot1q => 2
    case Mpls => 2
    case IPv4 => 3
    case IPv6 => 3
    case Routing => 4
    case Fragment => 4
    case Icmp => 6
    case Icmpv6 => 6
    case _ => 5
  }

  /** A layer that is not deeper than the one before it is inside it; tags, labels and fragment headers never are. */
  predicate Wraps(p: Parser, next: Parser)
  {
    next != Dot1q && next != Mpls && next != Fragment && Depth(next) <= Depth(p)
  }

  /** Layers fill in their fields in order, up to the first one that is inside another. */
  function Filled(o: Outer, inside: bool, ls: seq<Lay>): Outer
    decreases |ls|
  {
    if ls == [] then o
    else
      Filled(if inside then o else Fill(o, ls[0].fields), inside || (|ls| > 1 && Wraps(ls[0].parser, ls[1].parser)),
             ls[1..])
  }

  function ParsersOf(ls: seq<Lay>): seq<Parser>
  {
    if ls == [] then [] else [ls[0].parser] + ParsersOf(ls[1..])
  }

  function SizesOf(ls: seq<Lay>): seq<nat>
  {
    if ls == [] then [] else [ls[0].size] + SizesOf(ls[1..])
  }

  function IcmpOf(before: Option<(u8, u8)>, ls: seq<Lay>): Option<(u8, u8)>
    decreases |ls|
  {
    if ls == [] then before else IcmpOf(if ls[0].icmp.Some? then ls[0].icmp else before, ls[1..])
  }

  // ---------- the octets of the layers ----------

  predicate IsIcmp(p: Parser)
  {
    p == Icmp || p == Icmpv6
  }

  function Next(ls: seq<Lay>): Parser
  {
    if ls == [] then NoParser else ls[0].parser
  }

  /** What the parser of a layer makes of it, wherever it stands. */
  ghost predicate ReadAs(rest: bytes, l: Lay, next: Parser)
  {
    && l.parser !in {Stop, NoParser, Teredo, Geneve} && (IsIcmp(l.parser) <==> l.icmp.Some?)
    && forall m: Message, base: bool ::
         ParseLayer(DEFAULT, l.parser, m, rest, base, 0)
         == Layer(true, l.size, if IsIcmp(l.parser) then Stop else next,
                  if base then Fill(m.outer, l.fields) else m.outer,
                  if l.icmp.Some? then l.icmp else m.icmp)
  }

  /** Each layer in turn stands at the front of what the ones before it left. */
  ghost predicate Stands(rest: bytes, ls: seq<Lay>)
    decreases |ls|
  {
    ls == []
    || (&& ReadAs(rest, ls[0], Next(ls[1..]))
        && (|ls| > 1 ==> !IsIcmp(ls[0].parser) && ls[0].size <= |rest| && Stands(rest[ls[0].size..], ls[1..])))
  }

  lemma StandsCons(octets: bytes, rest: bytes, l: Lay, ls: seq<Lay>)
    requires ReadAs(octets + rest, l, Next(ls)) && Stands(rest, ls)
    requires ls != [] ==> !IsIcmp(l.parser) && |octets| == l.size
    ensures Stands(octets + rest, [l] + ls)
  {
    hide ReadAs;
    var all := [l] + ls;
    assert all[1..] == ls;
    Front(octets, rest);
  }

  lemma CallsMatterForIcmp(p: Parser, m: Message, rest: bytes, base: bool, calls: nat)
    requires p != Stop && p != NoParser && !IsIcmp(p)
    ensures ParseLayer(DEFAULT, p, m, rest, base, calls) == ParseLayer(DEFAULT, p, m, rest, base, 0)
  {
    hide ParseEthernet, ParseDot1q, ParseMpls, ParseIPv4, ParseIPv6, ParseRouting, ParseFragment, ParseTcp, ParseUdp,
         ParseGre, ParseGeneve;
  }

  // ---------- the chain over the layers ----------

  predicate At(data: bytes, s: State, rest: bytes)
  {
    s.offset <= |data| && data[s.offset..] == rest && Icmp !in s.calls && Icmpv6 !in s.calls
  }

  lemma WrapsIs(p: Parser, next: Parser)
    requires p != Stop && p != NoParser && p != Teredo && p != Geneve
    requires next != Stop && next != Teredo && next != Geneve
    ensures (!EncapSkip(next) && LayerIndex(next) <= LayerIndex(p)) <==> next != NoParser && Wraps(p, next)
  {
  }

  lemma OneStep(data: bytes, s: State, rest: bytes, l: Lay, next: Parser) returns (s': State)
    requires At(data, s, rest) && s.parser == l.parser && ReadAs(rest, l, next)
    ensures Active(data, s) && s' == Advance(DEFAULT, data, s) && s'.parser == if IsIcmp(l.parser) then Stop else next
    ensures s'.message == Message(if s.encapsulated then s.message.outer else Fill(s.message.outer, l.fields),
                                  if l.icmp.Some? then l.icmp else s.message.icmp, s.message.stack + [l.parser],
                                  s.message.sizes + [l.size])
    ensures s'.encapsulated
            == (s.encapsulated || (!EncapSkip(s'.parser) && LayerIndex(s'.parser) <= LayerIndex(l.parser)))
    ensures !IsIcmp(l.parser) && l.size <= |rest| ==> At(data, s', rest[l.size..])
  {
    hide ParseLayer, Fill, LayerIndex, EncapSkip;
    s' := Advance(DEFAULT, data, s);
    if !IsIcmp(l.parser) { CallsMatterForIcmp(l.parser, s.message, rest, !s.encapsulated, Calls(s)); }
    if l.size <= |rest| { assert data[s'.offset..] == data[s.offset..][l.size..]; }
  }

  lemma NoTunnel(rest: bytes, l: Lay, next: Parser)
    requires ReadAs(rest, l, next)
    ensures l.parser !in {Stop, NoParser, Teredo, Geneve}
  {
  }

  /** Over layers that stand one after the other the chain reads them all and ends. */
  lemma {:induction false} LayersRead(data: bytes, s: State, rest: bytes, ls: seq<Lay>) returns (end: State, n: nat)
    requires At(data, s, rest) && Stands(rest, ls) && s.parser == Next(ls)
    ensures end == After(DEFAULT, data, s, n) && !Active(data, end)
    ensures end.message == Message(Filled(s.message.outer, s.encapsulated, ls), IcmpOf(s.message.icmp, ls),
                                   s.message.stack + ParsersOf(ls), s.message.sizes + SizesOf(ls))
    decreases |ls|
  {
    hide ReadAs, Fill, LayerIndex, EncapSkip, Advance, After;
    AfterNone(DEFAULT, data, s);
    if ls == [] {
      end, n := s, 0;
      Empty(s.message.stack);
      Empty(s.message.sizes);
    } else {
      var l, next := ls[0], Next(ls[1..]);
      var mid := OneStep(data, s, rest, l, next);
      AfterOne(DEFAULT, data, s);
      if |ls| == 1 {
        end, n := mid, 1;
        LastLayer(ls, s.message.icmp);
      } else {
        NoTunnel(rest, l, next);
        NoTunnel(rest[l.size..], ls[1], Next(ls[1..][1..]));
        WrapsIs(l.parser, next);
        var k;
        end, k := LayersRead(data, mid, rest[l.size..], ls[1..]);
        AfterAdd(DEFAULT, data, s, 1, k);
        n := 1 + k;
      }
      Assoc(s.message.stack, [l.parser], ParsersOf(ls[1..]));
      Assoc(s.message.sizes, [l.size], SizesOf(ls[1..]));
    }
  }

  lemma LastLayer(ls: seq<Lay>, icmp: Option<(u8, u8)>)
    requires |ls| == 1
    ensures forall o, inside :: Filled(o, inside, ls) == if inside then o else Fill(o, ls[0].fields)
    ensures IcmpOf(icmp, ls) == if ls[0].icmp.Some? then ls[0].icmp else icmp
    ensures ParsersOf(ls[1..]) == [] && SizesOf(ls[1..]) == []
  {
    assert ls[1..] == [];
  }

  // ---------- every packet stands as its layers ----------

  lemma {:induction false} TagsStand(ts: seq<W.Tag>, t: u16, rest: bytes, ls: seq<Lay>)
    requires TagsOk(ts) && Stands(rest, ls) && Next(ls) == NextEtype(DEFAULT, t)
    ensures var s := R.AfterMacs(ts, t, rest); |s| >= 2 && Stands(s[2..], TagLays(ts, t) + ls)
    ensures Next(TagLays(ts, t) + ls) == NextEtype(DEFAULT, if ts == [] then t else 0x8100)
    decreases |ts|
  {
    hide Stands, ReadAs, R.AfterMacs, W16, Control, W.TagOk;
    R.FirstType(ts, t, rest);
    if ts == [] {
      Empty(ls);
    } else {
      TagsStand(ts[1..], t, rest, ls);
      var next, more := R.AfterMacs(ts[1..], t, rest), TagLays(ts[1..], t) + ls;
      var t1: u16 := if |ts| == 1 then t else 0x8100;
      TagStands(ts, t, rest, more);
      Assoc([TagLays(ts, t)[0]], TagLays(ts[1..], t), ls);
    }
  }

  lemma ControlFits(t: W.Tag)
    requires W.TagOk(t)
    ensures Control(t) < 65536 && Control(t) % 65536 == Control(t)
  {
  }

  lemma TypeFirst(ts: seq<W.Tag>, t: u16, rest: bytes)
    requires TagsOk(ts)
    ensures var s := R.AfterMacs(ts, t, rest); |s| >= 2 && s == W16(if ts == [] then t else 0x8100) + s[2..]
  {
    hide W16;
    var s := R.AfterMacs(ts, t, rest);
    R.WordSize(if ts == [] then t else 0x8100);
    if ts == [] {
      assert s == W16(t) + rest;
    } else {
      assert s == W16(0x8100) + (W16(Control(ts[0])) + (W.TagsOctets(ts[1..]) + W16(t) + rest));
    }
  }

  lemma TagStands(ts: seq<W.Tag>, t: u16, rest: bytes, more: seq<Lay>)
    requires ts != [] && TagsOk(ts) && |R.AfterMacs(ts[1..], t, rest)| >= 2
    requires Stands(R.AfterMacs(ts[1..], t, rest)[2..], more)
    requires Next(more) == NextEtype(DEFAULT, if |ts| == 1 then t else 0x8100)
    ensures |R.AfterMacs(ts, t, rest)| >= 2 && Stands(R.AfterMacs(ts, t, rest)[2..], [TagLays(ts, t)[0]] + more)
  {
    hide Stands, R.AfterMacs, W16, W.TagOk, NextEtype, ParseDot1q;
    var tag, next := ts[0], R.AfterMacs(ts[1..], t, rest);
    var t1: u16 := if |ts| == 1 then t else 0x8100;
    var l := TagLays(ts, t)[0];
    ControlFits(tag);
    R.FirstType(ts, t, rest);
    TypeFirst(ts[1..], t, rest);
    var octets := W16(Control(tag)) + W16(t1);
    Assoc(W16(Control(tag)), W16(t1), next[2..]);
    forall m: Message, base: bool
      ensures ParseLayer(DEFAULT, Dot1q, m, octets + next[2..], base, 0) == Named(m, base, 4, Next(more), l.fields)
    {
      TagRead(m, base, Control(tag), t1, next[2..]);
    }
    R.WordSize(Control(tag));
    R.WordSize(t1);
    StandsCons(octets, next[2..], l, more);
  }

  lemma {:induction false} ExtensionsStand(es: seq<W.Extension>, last: u8, rest: bytes, ls: seq<Lay>)
    requires ExtensionsOk(es) && Stands(rest, ls) && Next(ls) == NextProto(DEFAULT, last)
    ensures Stands(W.ExtensionsOctets(es, last) + rest, ExtensionLays(es) + ls)
    ensures Next(ExtensionLays(es) + ls) == NextProto(DEFAULT, W.NumberBefore(es, last))
    decreases |es|
  {
    hide Stands, ReadAs, W.ExtensionOctets, RoutingOf, FragmentOf;
    if es == [] {
      Empty(rest);
      Empty(ls);
    } else {
      var next, more := W.NumberBefore(es[1..], last), ExtensionLays(es[1..]) + ls;
      var tail := W.ExtensionsOctets(es[1..], last) + rest;
      ExtensionsStand(es[1..], last, rest, ls);
      ExtensionStands(es[0], next, tail, more);
      Assoc([ExtensionLays(es)[0]], ExtensionLays(es[1..]), ls);
      Assoc(W.ExtensionOctets(es[0], next), W.ExtensionsOctets(es[1..], last), rest);
    }
  }

  lemma ExtensionStands(e: W.Extension, next: u8, rest: bytes, more: seq<Lay>)
    requires W.ExtensionOk(e) && (e.Fragment? || RoutingOk(e)) && Stands(rest, more)
    requires Next(more) == NextProto(DEFAULT, next)
    ensures var l := if e.Fragment? then Lay(Fragment, 8, FragmentOf(e), None)
                     else Lay(Routing, 8 + 8 * e.k as int, RoutingOf(e), None);
            Stands(W.ExtensionOctets(e, next) + rest, [l] + more)
              && NextProto(DEFAULT, W.ExtensionNumber(e)) == l.parser
  {
    hide Stands, RoutingOf, FragmentOf, ParseFragment, ParseRouting;
    var l := if e.Fragment? then Lay(Fragment, 8, FragmentOf(e), None)
             else Lay(Routing, 8 + 8 * e.k as int, RoutingOf(e), None);
    var octets := W.ExtensionOctets(e, next);
    forall m: Message, base: bool
      ensures ParseLayer(DEFAULT, l.parser, m, octets + rest, base, 0) == Named(m, base, l.size, Next(more), l.fields)
    {
      if e.Fragment? { FragmentRead(m, base, next, e, rest); } else { RoutingRead(m, base, next, e, rest); }
    }
    StandsCons(octets, rest, l, more);
  }

  lemma V4Stands(h: W.V4Header, protocol: u8, rest: bytes, more: seq<Lay>)
    requires |h.src| == 4 && |h.dst| == 4 && h.options == [] && h.flags < 8 && h.fragment < 8192
    requires Stands(rest, more) && Next(more) == NextProto(DEFAULT, protocol)
    ensures Stands(W.V4Octets(h, protocol) + rest, [Lay(IPv4, 20, V4Fields(h, protocol), None)] + more)
  {
    hide Stands, W.V4Octets, NextProto, ParseIPv4;
    var l := Lay(IPv4, 20, V4Fields(h, protocol), None);
    forall m: Message, base: bool
      ensures ParseLayer(DEFAULT, IPv4, m, W.V4Octets(h, protocol) + rest, base, 0)
              == Named(m, base, 20, Next(more), l.fields)
    {
      V4Read(m, base, h, protocol, rest);
    }
    V4At(h, protocol);
    StandsCons(W.V4Octets(h, protocol), rest, l, more);
  }

  lemma V6Stands(h: W.V6Header, next: u8, rest: bytes, more: seq<Lay>)
    requires |h.src| == 16 && |h.dst| == 16 && h.flowLabel < 1048576
    requires Stands(rest, more) && Next(more) == NextProto(DEFAULT, next)
    ensures Stands(W.V6Octets(h, next) + rest, [Lay(IPv6, 40, V6Fields(h, next), None)] + more)
  {
    hide Stands, W.V6Octets, NextProto, ParseIPv6;
    var l := Lay(IPv6, 40, V6Fields(h, next), None);
    forall m: Message, base: bool
      ensures ParseLayer(DEFAULT, IPv6, m, W.V6Octets(h, next) + rest, base, 0)
              == Named(m, base, 40, Next(more), l.fields)
    {
      V6Read(m, base, h, next, rest);
    }
    V6At(h, next);
    StandsCons(W.V6Octets(h, next), rest, l, more);
  }

  lemma {:induction false} IpStands(ip: W.Ip)
    requires W.IpOk(ip) && IpFollowed(ip)
    ensures Stands(W.IpOctets(ip), IpLays(ip)) && Next(IpLays(ip)) == if ip.V4? then IPv4 else IPv6
    decreases ip, 0
  {
    hide Stands, W.BodyOctets, W.V4Octets, W.V6Octets, W.ExtensionsOctets, BodyLays, ExtensionLays, NextProto, W.BodyOk,
         BodyFollowed, ExtensionsOk, W.ExtensionOk;
    var rest, ls, p := W.BodyOctets(ip.body), BodyLays(ip.body), W.ProtocolOf(ip.body);
    BodyStands(ip.body);
    match ip {
      case V4(h, b) => V4Stands(h, p, rest, ls);
      case V6(h, es, b) =>
        ExtensionsStand(es, p, rest, ls);
        V6Stands(h, W.NumberBefore(es, p), W.ExtensionsOctets(es, p) + rest, ExtensionLays(es) + ls);
        Assoc(W.V6Octets(h, W.NumberBefore(es, p)), W.ExtensionsOctets(es, p), rest);
    }
  }

  lemma SingleStands(octets: bytes, l: Lay)
    requires ReadAs(octets, l, NoParser)
    ensures Stands(octets, [l])
  {
    hide ReadAs;
    assert [l][1..] == [];
  }

  lemma TransportStands(b: W.Body)
    requires b.Tcp? || b.Udp?
    ensures Stands(W.BodyOctets(b), BodyLays(b))
  {
    hide Stands, ParseTcp, ParseUdp, W.PortsOctets, W.BodyOctets;
    var l := BodyLays(b)[0];
    forall m: Message, base: bool
      ensures ParseLayer(DEFAULT, l.parser, m, W.BodyOctets(b), base, 0) == Named(m, base, l.size, NoParser, l.fields)
    {
      if b.Tcp? { TcpRead(m, base, b); } else { UdpBody(b); UdpRead(m, base, b.ports, b.rest); }
    }
    SingleStands(W.BodyOctets(b), l);
  }

  lemma UdpBody(b: W.Body)
    requires b.Udp?
    ensures W.BodyOctets(b) == W.PortsOctets(b.ports) + b.rest
  {
  }

  lemma IcmpStands(b: W.Body)
    requires b.Plain? && (b.protocol == 1 || b.protocol == 58) && |b.rest| >= 2
    ensures Stands(W.BodyOctets(b), BodyLays(b))
  {
    hide Stands;
    SingleStands(W.BodyOctets(b), BodyLays(b)[0]);
  }

  lemma {:induction false} BodyStands(b: W.Body)
    requires W.BodyOk(b) && BodyFollowed(b)
    ensures Stands(W.BodyOctets(b), BodyLays(b)) && Next(BodyLays(b)) == NextProto(DEFAULT, W.ProtocolOf(b))
    decreases b, 1
  {
    hide Stands, W.IpOctets, IpLays, IpFollowed, W.IpOk, W.InnerOctets, InnerLays, InnerFollowed, W.InnerOk, W.GreHead,
         W.GeneveHead, W.L2tpHead, W.GtpuHead, W16, W32, W.PortsOctets, W.FrameOctets, W.FrameOk;
    match b {
      case Tcp(_, _, _, _, _, _, _, _, _, _) => TransportStands(b);
      case Udp(_, _) => TransportStands(b);
      case Nested(ip) => IpStands(ip);
      case Gre(_, _, _, _, _) => GreStands(b);
      case Plain(p, _) => if p == 1 || p == 58 { IcmpStands(b); } else { NothingStands(b); }
    }
  }

  lemma NothingStands(b: W.Body)
    requires W.BodyOk(b) && b.Plain? && b.protocol !in {1, 58, 43, 44}
    ensures Stands(W.BodyOctets(b), BodyLays(b)) && BodyLays(b) == [] && NextProto(DEFAULT, b.protocol) == NoParser
  {
  }

  lemma GreStands(b: W.Body)
    requires b.Gre? && W.BodyOk(b) && BodyFollowed(b)
    ensures Stands(W.BodyOctets(b), BodyLays(b))
    decreases b, 0
  {
    hide Stands, W.InnerOctets, InnerLays, InnerFollowed, W.InnerOk, W.InnerType, W.GreHead, NextEtype, ParseGre;
    var rest, ls, t := W.InnerOctets(b.inner), InnerLays(b.inner), W.InnerType(b.inner);
    var head := W.GreHead(None, None, None, b.low, t);
    var l := Lay(Gre, 4, NoFields, None);
    InnerStands(b.inner);
    forall m: Message, base: bool
      ensures ParseLayer(DEFAULT, Gre, m, head + rest, base, 0) == Named(m, base, 4, Next(ls), NoFields)
    {
      GreRead(m, base, b.low, t, rest);
    }
    GreRead(Message(EMPTY, None, [], []), true, b.low, t, rest);
    StandsCons(head, rest, l, ls);
  }

  const EMPTY := Outer([], [], 0, 0, [], [], [], [], 0, 0, 0, 0, 0, 0, 0, 0, 0, 0, 0, [])

  lemma {:induction false} InnerStands(i: W.Inner)
    requires W.InnerOk(i) && InnerFollowed(i)
    ensures Stands(W.InnerOctets(i), InnerLays(i)) && Next(InnerLays(i)) == NextEtype(DEFAULT, W.InnerType(i))
    decreases i, 0
  {
    hide Stands, W.NetOctets, W.FrameOctets, NetLays, NetFollowed, FrameFollowed, W.NetOk, W.FrameOk;
    match i {
      case Bridged(f) => FrameStands(f);
      case Routed(n) => NetStands(n);
    }
  }

  lemma {:induction false} NetStands(n: W.Net)
    requires W.NetOk(n) && NetFollowed(n)
    ensures Stands(W.NetOctets(n), NetLays(n)) && Next(NetLays(n)) == NextEtype(DEFAULT, W.EtherTypeOf(n))
    decreases n, 0
  {
    hide Stands, W.IpOctets, IpLays, IpFollowed, W.IpOk, W.LabelsOctets, LabelsOk, W.LabelOk, R.LabelValues, Lifetimes,
         ParseMpls;
    IpStands(n.ip);
    if n.Labelled? {
      var rest, ls, l := W.IpOctets(n.ip), IpLays(n.ip), NetLays(n)[0];
      R.IpStarts(n.ip);
      forall m: Message, base: bool
        ensures ParseLayer(DEFAULT, Mpls, m, W.LabelsOctets(n.labels) + rest, base, 0)
                == Named(m, base, l.size, Next(ls), l.fields)
      {
        LabelStackRead(m, base, n.labels, rest);
      }
      LabelsSize(n.labels);
      StandsCons(W.LabelsOctets(n.labels), rest, l, ls);
    }
  }

  lemma {:induction false} FrameStands(f: W.Frame)
    requires W.FrameOk(f) && FrameFollowed(f)
    ensures Stands(W.FrameOctets(f), FrameLays(f)) && Next(FrameLays(f)) == Ethernet
    decreases f, 0
  {
    hide Stands, W.NetOctets, NetLays, NetFollowed, W.NetOk, R.AfterMacs, TagLays, TagsOk, ParseEthernet, W.TagsOctets,
         W.EtherTypeOf, NextEtype, W16;
    var t, rest := W.EtherTypeOf(f.net), W.NetOctets(f.net);
    var t1: u16 := if f.tags == [] then t else 0x8100;
    NetStands(f.net);
    TagsStand(f.tags, t, rest, NetLays(f.net));
    var s, ls, l := R.AfterMacs(f.tags, t, rest), TagLays(f.tags, t) + NetLays(f.net), FrameLays(f)[0];
    R.MacsFirst(f, rest);
    TypeFirst(f.tags, t, rest);
    var data, head := W.FrameOctets(f), f.dst + f.src + W16(t1);
    assert data == head + s[2..] by {
      assert data == data[..6] + data[6..12] + data[12..];
      Assoc(f.dst + f.src, W16(t1), s[2..]);
    }
    R.WordSize(t1);
    forall m: Message, base: bool
      ensures ParseLayer(DEFAULT, Ethernet, m, head + s[2..], base, 0) == Named(m, base, 14, Next(ls), l.fields)
    {
      MacsRead(m, base, f.dst, f.src, t1, s[2..]);
    }
    StandsCons(head, s[2..], l, ls);
  }

  /**
   * The chain ends on every such frame. Its message has the fields of the frame's layers up to the first encapsulated
   * one, the type and code of an ICMP layer, every layer by name and all their sizes.
   */
  lemma FrameIsCarried(f: W.Frame, m: Message) returns (end: State)
    requires W.FrameOk(f) && FrameFollowed(f) && m.stack == [] && m.sizes == []
    ensures Run(DEFAULT, W.FrameOctets(f), Begin(m)) == Some(end)
    ensures var ls := FrameLays(f);
            end.message == Message(Filled(m.outer, false, ls), IcmpOf(m.icmp, ls), ParsersOf(ls), SizesOf(ls))
  {
    hide Stands, W.FrameOctets, FrameLays, After, Run, FrameFollowed, W.FrameOk, Filled, IcmpOf, ParsersOf, SizesOf;
    var data := W.FrameOctets(f);
    FrameStands(f);
    assert data[0..] == data;
    var n;
    end, n := LayersRead(data, Begin(m), data, FrameLays(f));
    RunAt(data, Begin(m), n);
    Empty(ParsersOf(FrameLays(f)));
    Empty(SizesOf(FrameLays(f)));
  }

  /** The chain's end is where its steps stop. */
  lemma {:induction false} RunAt(data: bytes, s: State, n: nat)
    requires !Active(data, After(DEFAULT, data, s, n))
    ensures Run(DEFAULT, data, s) == Some(After(DEFAULT, data, s, n))
  {
    hide Run, After;
    EndsUnlessLoops(DEFAULT, data, s);
    assert Ends(DEFAULT, data, s);
    var k := RunReached(DEFAULT, data, s);
    if n <= k {
      AfterAdd(DEFAULT, data, s, n, k - n);
      EndStays(DEFAULT, data, After(DEFAULT, data, s, n), k - n);
    } else {
      AfterAdd(DEFAULT, data, s, k, n - k);
      EndStays(DEFAULT, data, After(DEFAULT, data, s, k), n - k);
    }
  }

  // ---------- IPv4 options ----------

  /**
   * Why options are excluded: the UDP parser starts right after the first twenty octets of the IPv4 header, so the
   * ports of every UDP packet whose header has options are shown as the first four octets of these options.
   */
  lemma OptionsShownAsPorts(dst: bytes, src: bytes, h: W.V4Header, ports: W.Ports, rest: bytes, m: Message)
    returns (end: State)
    requires |dst| == 6 && |src| == 6 && |h.src| == 4 && |h.dst| == 4 && h.flags < 8 && h.fragment < 8192
    requires 4 <= |h.options| <= 40 && |h.options| % 4 == 0
    ensures W.FrameOk(UdpFrame(dst, src, h, ports, rest))
    ensures Run(DEFAULT, W.FrameOctets(UdpFrame(dst, src, h, ports, rest)), Begin(m)) == Some(end)
    ensures var o := h.options;
            && end.message.outer.srcPort == o[0] as int * 256 + o[1] as int
            && end.message.outer.dstPort == o[2] as int * 256 + o[3] as int
  {
    hide Stands, W.FrameOctets, After, Run, Filled, IcmpOf, ParsersOf, SizesOf, UdpFrame, W.NetOctets, W.FrameOk,
         W.NetOk;
    var f := UdpFrame(dst, src, h, ports, rest);
    var udp := Lay(Udp, 8, PortFields(HeadU16(h.options), HeadU16(h.options[2..])), None);
    var ip := Lay(IPv4, 20, V4Fields(h, 17), None);
    var mac := Lay(Ethernet, 14, MacFields(dst, src, 0x0800), None);
    UdpFrameIs(dst, src, h, ports, rest);
    OptionsStand(h, ports, rest);
    MacStands(f, [ip] + [udp]);
    var data := W.FrameOctets(f);
    assert data[0..] == data;
    var n;
    end, n := LayersRead(data, Begin(m), data, [mac] + ([ip] + [udp]));
    RunAt(data, Begin(m), n);
    FilledCons(m.outer, mac, [ip] + [udp]);
    FilledCons(Fill(m.outer, mac.fields), ip, [udp]);
    LastLayer([udp], None);
  }

  function UdpFrame(dst: bytes, src: bytes, h: W.V4Header, ports: W.Ports, rest: bytes): W.Frame
  {
    W.Frame(dst, src, [], W.Direct(W.V4(h, W.Udp(ports, rest))))
  }

  lemma UdpFrameIs(dst: bytes, src: bytes, h: W.V4Header, ports: W.Ports, rest: bytes)
    requires |dst| == 6 && |src| == 6 && |h.src| == 4 && |h.dst| == 4 && h.flags < 8 && h.fragment < 8192
    requires |h.options| <= 40 && |h.options| % 4 == 0
    ensures var f := UdpFrame(dst, src, h, ports, rest);
            && W.FrameOk(f) && f.dst == dst && f.src == src && f.tags == [] && f.net.Direct? && f.net.ip.V4?
            && W.NetOctets(f.net) == W.V4Octets(h, 17) + (W.PortsOctets(ports) + rest)
  {
    hide W.V4Octets, W.PortsOctets;
    var b := W.Udp(ports, rest);
    var ip := W.V4(h, b);
    assert W.BodyOk(b) && W.IpOk(ip) && W.NetOk(W.Direct(ip));
    assert W.BodyOctets(b) == W.PortsOctets(ports) + rest;
    assert W.IpOctets(ip) == W.V4Octets(h, 17) + W.BodyOctets(b);
  }

  lemma OptionsStand(h: W.V4Header, ports: W.Ports, rest: bytes)
    requires |h.src| == 4 && |h.dst| == 4 && h.flags < 8 && h.fragment < 8192 && 4 <= |h.options| <= 40
    ensures Stands(W.V4Octets(h, 17) + (W.PortsOctets(ports) + rest),
                   [Lay(IPv4, 20, V4Fields(h, 17), None)]
                   + [Lay(Udp, 8, PortFields(HeadU16(h.options), HeadU16(h.options[2..])), None)])
  {
    hide Stands, W.V4Octets, W.PortsOctets, HeadU16, ParseIPv4;
    var head, body := W.V4Octets(h, 17), W.PortsOctets(ports) + rest;
    var tail := h.options + body;
    var udp := Lay(Udp, 8, PortFields(HeadU16(h.options), HeadU16(h.options[2..])), None);
    var ip := Lay(IPv4, 20, V4Fields(h, 17), None);
    R.UdpWords(ports, rest);
    SameWords(h.options, body);
    UdpAnywhere(tail);
    SingleStands(tail, udp);
    V4Head(h, 17);
    var first := head[..20];
    Assoc(first, h.options, body);
    forall m: Message, base: bool
      ensures ParseLayer(DEFAULT, IPv4, m, first + tail, base, 0) == Named(m, base, 20, Udp, ip.fields)
    {
      V4Read(m, base, h, 17, body);
    }
    StandsCons(first, tail, ip, [udp]);
  }

  lemma SameWords(a: bytes, b: bytes)
    requires |a| >= 4
    ensures HeadU16(a + b) == HeadU16(a) && HeadU16((a + b)[2..]) == HeadU16(a[2..])
  {
  }

  lemma UdpAnywhere(d: bytes)
    requires |d| >= 8
    ensures ReadAs(d, Lay(Udp, 8, PortFields(HeadU16(d), HeadU16(d[2..])), None), NoParser)
  {
    hide HeadU16;
  }

  lemma V4Head(h: W.V4Header, protocol: u8)
    requires |h.src| == 4 && |h.dst| == 4 && |h.options| <= 40
    ensures var b := W.V4Octets(h, protocol); |b| == 20 + |h.options| && b == b[..20] + h.options
  {
    var b := W.V4Octets(h, protocol);
    var a := [64 + 5 + |h.options| / 4, h.tos] + W16(h.total) + W16(h.id) + W16(h.flags as int * 8192 + h.fragment)
             + [h.ttl, protocol] + W16(h.checksum) + h.src + h.dst;
    assert |a| == 20 && b == a + h.options;
    assert b[..20] == a;
  }

  lemma MacStands(f: W.Frame, ls: seq<Lay>)
    requires W.FrameOk(f) && f.tags == [] && f.net.Direct? && f.net.ip.V4?
    requires Stands(W.NetOctets(f.net), ls) && Next(ls) == IPv4
    ensures Stands(W.FrameOctets(f), [Lay(Ethernet, 14, MacFields(f.dst, f.src, 0x0800), None)] + ls)
  {
    hide Stands, W.NetOctets, W.NetOk, ParseEthernet, W16;
    var rest, head := W.NetOctets(f.net), f.dst + f.src + W16(0x0800);
    var l := Lay(Ethernet, 14, MacFields(f.dst, f.src, 0x0800), None);
    R.WordSize(0x0800);
    assert W.TagsOctets(f.tags) == [];
    Empty(W16(0x0800));
    forall m: Message, base: bool
      ensures ParseLayer(DEFAULT, Ethernet, m, head + rest, base, 0) == Named(m, base, 14, Next(ls), l.fields)
    {
      MacsRead(m, base, f.dst, f.src, 0x0800, rest);
    }
    StandsCons(head, rest, l, ls);
  }

  /** A Geneve header, where one is registered: its options are counted in the low six bits of its first octet. */
  lemma GeneveRead(env: Environment, m: Message, top: u8, control: u8, t: u16, vni: bytes, options: bytes, rest: bytes)
    requires top < 4 && |vni| == 4 && |options| <= 252 && |options| % 4 == 0
    ensures ParseGeneve(env, m, [top * 64 + |options| / 4, control] + W16(t) + vni + options + rest)
            == Layer(true, 8 + |options|, NextEtype(env, t), m.outer, m.icmp)
  {
    hide NextEtype;
    var head := [top * 64 + |options| / 4, control] + W16(t) + vni + options;
    assert head[2..4] == W16(t) && head[0] == top * 64 + |options| / 4;
    assert (top * 64 + |options| / 4) % 64 * 4 == |options|;
    Front(head, rest);
    WordAt(head + rest, 2, t);
  }

  // ---------- plain frames, field by field ----------

  /** Tags, at most one label stack, an IP header, TCP or UDP. */
  predicate Plain(f: W.Frame)
  {
    && FrameFollowed(f) && !f.net.Pppoe? && (f.net.ip.body.Tcp? || f.net.ip.body.Udp?)
    && (f.net.ip.V6? ==> f.net.ip.extensions == [])
  }

  lemma {:induction false} FilledTags(o: Outer, ts: seq<W.Tag>, t: u16, ls: seq<Lay>)
    requires ls != [] && ls[0].parser in {Mpls, IPv4, IPv6}
    ensures Filled(o, false, TagLays(ts, t) + ls)
            == Filled(if ts == [] then o else o.(vlan := Control(ts[|ts| - 1]) % 65536, etype := t), false, ls)
    decreases |ts|
  {
    hide Control, Filled, Wraps;
    if ts == [] {
      Empty(ls);
    } else {
      var l, more := TagLays(ts, t)[0], TagLays(ts[1..], t) + ls;
      Assoc([l], TagLays(ts[1..], t), ls);
      TagOutside(ts[1..], t, ls);
      FilledCons(o, l, more);
      FilledTags(Fill(o, l.fields), ts[1..], t, ls);
    }
  }

  lemma TagOutside(ts: seq<W.Tag>, t: u16, ls: seq<Lay>)
    requires ls != [] && ls[0].parser in {Mpls, IPv4, IPv6}
    ensures var all := TagLays(ts, t) + ls; all != [] && !Wraps(Dot1q, all[0].parser)
  {
    hide Control;
  }

  lemma FilledCons(o: Outer, l: Lay, ls: seq<Lay>)
    requires ls != [] ==> !Wraps(l.parser, ls[0].parser)
    ensures Filled(o, false, [l] + ls) == Filled(Fill(o, l.fields), false, ls)
  {
    assert ([l] + ls)[1..] == ls;
  }

  lemma FilledIp(o: Outer, ip: W.Ip)
    requires IpFollowed(ip) && (ip.body.Tcp? || ip.body.Udp?) && (ip.V6? ==> ip.extensions == [])
    ensures Filled(o, false, IpLays(ip)) == Fill(Fill(o, IpLays(ip)[0].fields), BodyLays(ip.body)[0].fields)
    ensures |IpLays(ip)| == 2 && |BodyLays(ip.body)| == 1 && IpLays(ip)[0].parser == if ip.V4? then IPv4 else IPv6
  {
    var l, ls := IpLays(ip)[0], BodyLays(ip.body);
    Empty(ls);
    FilledCons(o, l, ls);
    LastLayer(ls, None);
  }

  /** The message after the link layers and labels. */
  function LinkOuter(o: Outer, f: W.Frame): Outer
    requires !f.net.Pppoe?
  {
    var t := W.EtherTypeOf(f.net);
    var link := if f.tags == [] then o.(dstMac := f.dst, srcMac := f.src, etype := t)
                else o.(dstMac := f.dst, srcMac := f.src, etype := t, vlan := Control(f.tags[|f.tags| - 1]) % 65536);
    if f.net.Labelled? then
      link.(labels := R.LabelValues(f.net.labels), ttls := Lifetimes(f.net.labels),
            etype := if f.net.ip.V4? then 0x0800 else 0x86dd)
    else link
  }

  lemma PlainFilled(f: W.Frame, o: Outer)
    requires Plain(f)
    ensures IpFollowed(f.net.ip) && IpLays(f.net.ip) != [] && BodyLays(f.net.ip.body) != []
    ensures Filled(o, false, FrameLays(f))
            == Fill(Fill(LinkOuter(o, f), IpLays(f.net.ip)[0].fields), BodyLays(f.net.ip.body)[0].fields)
  {
    hide Filled, TagLays, IpFollowed, BodyFollowed, R.LabelValues, Lifetimes, IpLays, BodyLays, Control, LabelsOk,
         TagsOk;
    var t, ip, net := W.EtherTypeOf(f.net), f.net.ip, NetLays(f.net);
    var l := FrameLays(f)[0];
    var o1 := Fill(o, l.fields);
    IpIsFollowed(f);
    IpParsers(ip);
    FirstTag(f.tags, t, net);
    FilledCons(o, l, TagLays(f.tags, t) + net);
    FilledTags(o1, f.tags, t, net);
    var o2 := if f.tags == [] then o1 else o1.(vlan := Control(f.tags[|f.tags| - 1]) % 65536, etype := t);
    if f.net.Labelled? { FilledCons(o2, net[0], IpLays(ip)); }
    FilledIp(LinkOuter(o, f), ip);
  }

  /**
   * Addresses, tag, labels, IP fields and ports of a plain frame are the frame's own. The tag shown is the last one's
   * id exactly when its priority and drop bits are zero.
   */
  lemma PlainFields(f: W.Frame, o: Outer)
    requires W.FrameOk(f) && Plain(f)
    ensures var r, ip, b := Filled(o, false, FrameLays(f)), f.net.ip, f.net.ip.body;
            && r.dstMac == f.dst && r.srcMac == f.src && r.etype == (if ip.V4? then 0x0800 else 0x86dd)
            && (f.tags != [] ==>
                  var tag := f.tags[|f.tags| - 1];
                  r.vlan == Control(tag) && (r.vlan == tag.id <==> tag.pcp == 0 && !tag.dei))
            && (f.net.Labelled? ==> r.labels == R.LabelValues(f.net.labels) && r.ttls == Lifetimes(f.net.labels))
            && (ip.V4? ==> && r.src == ip.v4.src && r.dst == ip.v4.dst && r.tos == ip.v4.tos && r.ttl == ip.v4.ttl
                           && r.fragmentId == ip.v4.id && r.fragmentOffset == ip.v4.fragment
                           && r.ipFlags == ip.v4.flags)
            && (ip.V6? ==> && r.src == ip.v6.src && r.dst == ip.v6.dst && r.tos == ip.v6.trafficClass
                           && r.ttl == ip.v6.hopLimit && r.flowLabel == ip.v6.flowLabel)
            && r.proto == (if b.Tcp? then 6 else 17)
            && (b.Tcp? ==> r.srcPort == b.srcPort && r.dstPort == b.dstPort && r.tcpFlags == b.tcpFlags)
            && (b.Udp? ==> r.srcPort == b.ports.src && r.dstPort == b.ports.dst)
    ensures f.tags == [] ==> Filled(o, false, FrameLays(f)).vlan == o.vlan
  {
    hide Filled, FrameLays, W.IpOk, R.LabelValues, Lifetimes, Control, LabelsOk;
    PlainFilled(f, o);
    if f.tags != [] { LastTag(f.tags); }
  }

  lemma LastTag(ts: seq<W.Tag>)
    requires ts != [] && TagsOk(ts)
    ensures var tag := ts[|ts| - 1];
            && Control(tag) < 65536 && Control(tag) % 65536 == Control(tag)
            && (Control(tag) == tag.id <==> tag.pcp == 0 && !tag.dei)
  {
    ControlFits(ts[|ts| - 1]);
  }

  lemma IpIsFollowed(f: W.Frame)
    requires FrameFollowed(f) && !f.net.Pppoe?
    ensures IpFollowed(f.net.ip)
  {
    hide IpFollowed;
  }

  lemma IpParsers(ip: W.Ip)
    requires IpFollowed(ip)
    ensures IpLays(ip) != [] && IpLays(ip)[0].parser == if ip.V4? then IPv4 else IPv6
  {
    hide BodyLays, ExtensionLays;
  }

  lemma FirstTag(ts: seq<W.Tag>, t: u16, ls: seq<Lay>)
    requires ls != [] && ls[0].parser in {Mpls, IPv4, IPv6}
    ensures var all := TagLays(ts, t) + ls; all != [] && !Wraps(Ethernet, all[0].parser)
  {
  }
}

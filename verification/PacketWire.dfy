/**
 * Packets as octets, written from the formats of their headers: Ethernet with tags, MPLS, PPPoE, IPv4 with options,
 * IPv6 with extension headers, TCP, UDP, GRE, VXLAN, Geneve, L2TP and GTP-U, nested to any depth.
 */
module PacketWire {
  import opened Bytes
  import opened Wire

  // ---------- headers ----------

  datatype V4Header = V4Header(
    tos: u8, total: u16, id: u16, flags: u8, fragment: u16, ttl: u8, checksum: u16, src: bytes, dst: bytes,
    options: bytes)

  datatype V6Header = V6Header(trafficClass: u8, flowLabel: u32, length: u16, hopLimit: u8, src: bytes, dst: bytes)

  /** An IPv6 extension header: a generic one of 8(k + 1) octets, a fragment header, an authentication header. */
  datatype Extension =
    | Generic(number: u8, k: u8, content: bytes)
    | Fragment(content: bytes)
    | Authentication(k: u8, content: bytes)

  datatype Label = Label(value: u32, tc: u8, ttl: u8)

  datatype Tag = Tag(service: bool, pcp: u8, dei: bool, id: u16)

  datatype Ports = Ports(src: u16, dst: u16, length: u16, checksum: u16)

  datatype GtpuExtension = GtpuExtension(kind: u8, first: u8, k: u8, content: bytes)

  // ---------- packets ----------

  datatype Ip = V4(v4: V4Header, body: Body) | V6(v6: V6Header, extensions: seq<Extension>, body: Body)

  /** What an IP packet carries; `Plain` is any protocol without a structure of its own here. */
  datatype Body =
    | Tcp(srcPort: u16, dstPort: u16, seqNo: u32, ack: u32, offset: u8, tcpFlags: u8, window: u16, checksum: u16,
          urgent: u16, rest: bytes)
    | Udp(ports: Ports, rest: bytes)
    | Nested(ip: Ip)
    | Gre(checksumField: Option<bytes>, keyField: Option<bytes>, sequenceField: Option<bytes>, low: u16, inner: Inner)
    | Vxlan(ports: Ports, header: bytes, frame: Frame)
    | Geneve(ports: Ports, top: u8, control: u8, vni: bytes, options: bytes, inner: Inner)
    | L2tp(ports: Ports, lengthField: Option<u16>, tunnel: u16, session: u16, sequences: Option<(u16, u16)>,
           offsetPad: Option<bytes>, addressControl: bool, ip: Ip)
    | Gtpu(ports: Ports, spare: u8, length: u16, teid: u32, optional: Option<(u8, u16, u8)>,
           gtpuExtensions: seq<GtpuExtension>, ip: Ip)
    | Plain(protocol: u8, rest: bytes)

  datatype Inner = Bridged(frame: Frame) | Routed(net: Net)

  /** What an EtherType announces; `upstream` labels go under the second MPLS type. */
  datatype Net =
    | Direct(ip: Ip)
    | Labelled(upstream: bool, labels: seq<Label>, ip: Ip)
    | Pppoe(session: u16, length: u16, upstreamLabels: bool, inside: Net)

  datatype Frame = Frame(dst: bytes, src: bytes, tags: seq<Tag>, net: Net)

  // ---------- octets ----------

  function ExtensionNumber(e: Extension): u8
  {
    match e
    case Generic(n, _, _) => n
    case Fragment(_) => 44
    case Authentication(_, _) => 51
  }

  predicate ExtensionOk(e: Extension)
  {
    match e
    case Generic(n, k, content) => n in {0, 43, 50, 60, 135, 139, 140} && |content| == 8 * k as int + 6
    case Fragment(content) => |content| == 7
    case Authentication(k, content) => |content| == 4 * k as int + 6
  }

  function NumberBefore(es: seq<Extension>, last: u8): u8
  {
    if es == [] then last else ExtensionNumber(es[0])
  }

  /** The header after this one comes first, then the length where there is one. */
  function ExtensionOctets(e: Extension, next: u8): bytes
  {
    match e
    case Generic(_, k, content) => [next, k] + content
    case Fragment(content) => [next] + content
    case Authentication(k, content) => [next, k] + content
  }

  function ExtensionsOctets(es: seq<Extension>, last: u8): bytes
  {
    if es == [] then [] else ExtensionOctets(es[0], NumberBefore(es[1..], last)) + ExtensionsOctets(es[1..], last)
  }

  function V4Octets(h: V4Header, protocol: u8): bytes
    requires |h.options| <= 40
  {
    [64 + 5 + |h.options| / 4, h.tos] + W16(h.total) + W16(h.id) + W16(h.flags as int * 8192 + h.fragment)
    + [h.ttl, protocol] + W16(h.checksum) + h.src + h.dst + h.options
  }

  function V6Octets(h: V6Header, next: u8): bytes
  {
    [96 + h.trafficClass / 16, h.trafficClass % 16 * 16 + h.flowLabel / 65536 % 16] + W16(h.flowLabel) + W16(h.length)
    + [next, h.hopLimit] + h.src + h.dst
  }

  function PortsOctets(p: Ports): bytes
  {
    W16(p.src) + W16(p.dst) + W16(p.length) + W16(p.checksum)
  }

  function FieldOctets(f: Option<bytes>): bytes
  {
    if f.Some? then f.value else []
  }

  /** A label, its class, whether it is the last, and its lifetime in one word. */
  function LabelWord(l: Label, last: bool): nat
  {
    l.value as int * 4096 + l.tc as int * 512 + (if last then 256 else 0) + l.ttl as int
  }

  function LabelsOctets(ls: seq<Label>): bytes
  {
    if ls == [] then [] else W32(LabelWord(ls[0], |ls| == 1)) + LabelsOctets(ls[1..])
  }

  function TagType(t: Tag): u16
  {
    if t.service then 0x88a8 else 0x8100
  }

  /** The type before a tag announces it, so each tag is its own type and control word. */
  function TagsOctets(ts: seq<Tag>): bytes
  {
    if ts == [] then []
    else
      W16(TagType(ts[0])) + W16(ts[0].pcp as int * 8192 + (if ts[0].dei then 4096 else 0) + ts[0].id as int)
      + TagsOctets(ts[1..])
  }

  /** As the parser delimits it: two octets, the second counting words of four, then these words. */
  function GtpuExtensionOctets(e: GtpuExtension, next: u8): bytes
  {
    [e.first, e.k] + e.content + [next]
  }

  function GtpuExtensionsOctets(es: seq<GtpuExtension>): bytes
  {
    if es == [] then [] else GtpuExtensionOctets(es[0], GtpuNext(es[1..])) + GtpuExtensionsOctets(es[1..])
  }

  function GtpuNext(es: seq<GtpuExtension>): u8
  {
    if es == [] then 0 else es[0].kind
  }

  function ProtocolOf(b: Body): u8
  {
    match b
    case Tcp(_, _, _, _, _, _, _, _, _, _) => 6
    case Nested(ip) => if ip.V4? then 4 else 41
    case Gre(_, _, _, _, _) => 47
    case Plain(p, _) => p
    case _ => 17
  }

  function EtherTypeOf(n: Net): u16
  {
    match n
    case Direct(ip) => if ip.V4? then 0x0800 else 0x86dd
    case Labelled(upstream, _, _) => if upstream then 0x8848 else 0x8847
    case Pppoe(_, _, _, _) => 0x8864
  }

  function InnerType(i: Inner): u16
  {
    match i
    case Bridged(_) => 0x6558
    case Routed(n) => EtherTypeOf(n)
  }

  function PppType(ip: Ip): u16
  {
    if ip.V4? then 0x0021 else 0x0057
  }

  function Present<T>(o: Option<T>, weight: nat): nat
  {
    if o.Some? then weight else 0
  }

  /** Which of checksum, key and sequence number follow, the type of the payload, and these fields. */
  function GreHead(c: Option<bytes>, k: Option<bytes>, s: Option<bytes>, low: u16, t: u16): bytes
  {
    W16(Present(c, 32768) + Present(k, 8192) + Present(s, 4096) + low) + W16(t)
    + (FieldOctets(c) + FieldOctets(k) + FieldOctets(s))
  }

  /** The length of the options is counted in words of four, in the low six bits of the first octet. */
  function GeneveHead(ports: Ports, top: u8, control: u8, vni: bytes, options: bytes, t: u16): bytes
    requires top < 4 && |options| <= 252
  {
    PortsOctets(ports) + [top * 64 + |options| / 4, control] + W16(t) + vni + options
  }

  /** Flags, version 2, and the fields the flags announce. */
  function L2tpHead(length: Option<u16>, tunnel: u16, session: u16, sequences: Option<(u16, u16)>,
                    pad: Option<bytes>): bytes
  {
    W16(Present(length, 16384) + Present(sequences, 2048) + Present(pad, 512) + 2)
    + (if length.Some? then W16(length.value) else [])
    + (W16(tunnel) + W16(session))
    + (if sequences.Some? then W16(sequences.value.0) + W16(sequences.value.1) else [])
    + (if pad.Some? then W16(|pad.value|) + pad.value else [])
  }

  /** Version 1, message type 255, and four more octets when any of the three low flags is set. */
  function GtpuHead(spare: u8, length: u16, teid: u32, optional: Option<(u8, u16, u8)>, next: u8): bytes
    requires spare < 4 && (optional.Some? ==> optional.value.0 < 8)
  {
    [32 + spare * 8 + (if optional.Some? then optional.value.0 else 0), 0xff] + W16(length) + W32(teid)
    + (if optional.Some? then W16(optional.value.1) + [optional.value.2, next] else [])
  }

  function PppoeHead(session: u16, length: u16, protocol: u16): bytes
  {
    [0x11, 0] + W16(session) + W16(length) + W16(protocol)
  }

  function IpOctets(ip: Ip): bytes
    requires IpOk(ip)
  {
    match ip
    case V4(h, body) => V4Octets(h, ProtocolOf(body)) + BodyOctets(body)
    case V6(h, es, body) =>
      V6Octets(h, NumberBefore(es, ProtocolOf(body))) + ExtensionsOctets(es, ProtocolOf(body)) + BodyOctets(body)
  }

  function BodyOctets(b: Body): bytes
    requires BodyOk(b)
  {
    match b
    case Tcp(src, dst, seqNo, ack, offset, flags, window, checksum, urgent, rest) =>
      W16(src) + W16(dst) + (W32(seqNo) + W32(ack)) + [offset, flags] + (W16(window) + W16(checksum) + W16(urgent))
      + rest
    case Udp(ports, rest) => PortsOctets(ports) + rest
    case Nested(ip) => IpOctets(ip)
    case Gre(c, k, s, low, inner) => GreHead(c, k, s, low, InnerType(inner)) + InnerOctets(inner)
    case Vxlan(ports, header, frame) => PortsOctets(ports) + header + FrameOctets(frame)
    case Geneve(ports, top, control, vni, options, inner) =>
      GeneveHead(ports, top, control, vni, options, InnerType(inner)) + InnerOctets(inner)
    case L2tp(ports, length, tunnel, session, sequences, pad, control, ip) =>
      PortsOctets(ports) + L2tpHead(length, tunnel, session, sequences, pad) + (if control then [0xff, 0x03] else [])
      + W16(PppType(ip)) + IpOctets(ip)
    case Gtpu(ports, spare, length, teid, optional, es, ip) =>
      PortsOctets(ports) + GtpuHead(spare, length, teid, optional, GtpuNext(es)) + GtpuExtensionsOctets(es)
      + IpOctets(ip)
    case Plain(_, rest) => rest
  }

  function InnerOctets(i: Inner): bytes
    requires InnerOk(i)
  {
    match i
    case Bridged(f) => FrameOctets(f)
    case Routed(n) => NetOctets(n)
  }

  function NetOctets(n: Net): bytes
    requires NetOk(n)
  {
    match n
    case Direct(ip) => IpOctets(ip)
    case Labelled(_, ls, ip) => LabelsOctets(ls) + IpOctets(ip)
    case Pppoe(session, length, upstream, inside) =>
      PppoeHead(session, length, if inside.Direct? then PppType(inside.ip) else if upstream then 0x0283 else 0x0281)
      + NetOctets(inside)
  }

  function FrameOctets(f: Frame): bytes
    requires FrameOk(f)
  {
    f.dst + f.src + (TagsOctets(f.tags) + W16(EtherTypeOf(f.net))) + NetOctets(f.net)
  }

  // ---------- sizes and ranges ----------

  predicate IpOk(ip: Ip)
  {
    match ip
    case V4(h, body) =>
      && |h.src| == 4 && |h.dst| == 4 && |h.options| <= 40 && |h.options| % 4 == 0
      && h.flags < 8 && h.fragment < 8192 && BodyOk(body)
    case V6(h, es, body) =>
      && |h.src| == 16 && |h.dst| == 16 && BodyOk(body)
      && (forall i :: 0 <= i < |es| ==> ExtensionOk(es[i]))
      && ProtocolOf(body) !in {0, 43, 44, 50, 51, 60, 135, 139, 140}
  }

  predicate FieldOk(f: Option<bytes>)
  {
    f.Some? ==> |f.value| == 4
  }

  predicate BodyOk(b: Body)
  {
    match b
    case Tcp(_, _, _, _, _, _, _, _, _, _) => true
    case Udp(_, _) => true
    case Nested(ip) => IpOk(ip)
    case Gre(c, k, s, low, inner) => FieldOk(c) && FieldOk(k) && FieldOk(s) && low < 4096 && InnerOk(inner)
    case Vxlan(_, header, frame) => |header| == 8 && FrameOk(frame)
    case Geneve(_, top, _, vni, options, inner) =>
      top < 4 && |vni| == 4 && |options| <= 252 && |options| % 4 == 0 && InnerOk(inner)
    case L2tp(_, _, _, _, _, pad, _, ip) => (pad.Some? ==> |pad.value| < 65536) && IpOk(ip)
    case Gtpu(_, spare, _, _, optional, es, ip) =>
      && spare < 4 && IpOk(ip)
      && (if optional.Some? then 0 < optional.value.0 < 8 else es == [])
      && (forall i :: 0 <= i < |es| ==> es[i].kind != 0 && es[i].k > 0 && |es[i].content| == 4 * es[i].k as int - 1)
    case Plain(p, _) => p !in {4, 6, 17, 41, 47}
  }

  predicate InnerOk(i: Inner)
  {
    match i
    case Bridged(f) => FrameOk(f)
    case Routed(n) => NetOk(n)
  }

  predicate NetOk(n: Net)
  {
    match n
    case Direct(ip) => IpOk(ip)
    case Labelled(_, ls, ip) => ls != [] && (forall i :: 0 <= i < |ls| ==> LabelOk(ls[i])) && IpOk(ip)
    case Pppoe(_, _, _, inside) => !inside.Pppoe? && (inside.Labelled? ==> !inside.upstream) && NetOk(inside)
  }

  predicate LabelOk(l: Label)
  {
    l.value < 1048576 && l.tc < 8
  }

  predicate FrameOk(f: Frame)
  {
    |f.dst| == 6 && |f.src| == 6 && (forall i :: 0 <= i < |f.tags| ==> TagOk(f.tags[i])) && NetOk(f.net)
  }

  predicate TagOk(t: Tag)
  {
    t.pcp < 8 && t.id < 4096
  }
}

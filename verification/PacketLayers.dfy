/** Packet models as stacks of layers, and the bytes each layer puts in front of its payload. */
module PacketLayers {
  import opened Bytes

  /** MAC and IP addresses are their octets; an Ethernet etherType of 0 asks for the one that fits the next layer. */
  datatype Layer =
    | Ethernet(dstMAC: bytes, srcMAC: bytes, etherType: u32)
    | Dot1q(id: u16, pcp: u8, dei: bool, tpid: u16)
    | Mpls(value: u32, tc: u8, bos: bool, ttl: u8)
    | Pppoe(session: u16, pppProtocol: u16)
    | IPv4(src: bytes, dst: bytes, proto: u8, ttl: u8, dscp: u8, ecn: u8, identification: u16, flags: u8, fragment: u16)
    | IPv6(src: bytes, dst: bytes, proto: u8, hopLimit: u8, trafficClass: u8, flowLabel: u32)
    | Gre(protocol: u16, checksum: bool, hasKey: bool, sequence: bool)
    | Udp(srcPort: u16, dstPort: u16)
    | Tcp(srcPort: u16, dstPort: u16, seqNo: u32, ack: u32, tcpFlags: u8, window: u16)
    | Vxlan(vni: u32)
    | Geneve(vni: u32, protocol: u16)
    | Icmp(icmpType: u8, code: u8)
    | Payload(length: u32, repeat: bool)
    | Other

  const IPV4: u16 := 0x0800
  const IPV6: u16 := 0x86dd
  const VLAN: u16 := 0x8100
  const MPLS: u16 := 0x8847
  const PPPOE: u16 := 0x8864
  const BRIDGED: u16 := 0x6558

  /** Copying an address into a field of `n` octets. */
  function Fit(a: bytes, n: nat): (r: bytes)
    ensures |r| == n && (|a| == n ==> r == a)
  {
    if |a| >= n then a[..n] else a + Zeros(n - |a|)
  }

  function InferEtherType(payload: bytes): u16
  {
    if payload == [] then IPV4
    else if payload[0] / 16 == 4 then IPV4
    else if payload[0] / 16 == 6 then IPV6
    else BRIDGED
  }

  function InferLayerEtherType(explicit: u32, next: Option<Layer>, payload: bytes): u16
  {
    if explicit != 0 then explicit % 0x1_0000
    else
      match next
      case Some(Dot1q(_, _, _, tpid)) => if tpid != 0 then tpid else VLAN
      case Some(Mpls(_, _, _, _)) => MPLS
      case Some(Pppoe(_, _)) => PPPOE
      case Some(IPv4(_, _, _, _, _, _, _, _, _)) => IPV4
      case Some(IPv6(_, _, _, _, _, _)) => IPV6
      case _ => InferEtherType(payload)
  }

  // ---------- headers ----------

  function EthernetHeader(dst: bytes, src: bytes, etherType: u16): (h: bytes)
    ensures |h| == 14
  {
    Fit(dst, 6) + Fit(src, 6) + U16(etherType)
  }

  function Tci(id: u16, pcp: u8, dei: bool): u16
  {
    id % 0x1000 + (if dei then 0x1000 else 0) + pcp % 8 * 0x2000
  }

  function LabelWord(value: u32, tc: u8, bos: bool, ttl: u8): u32
  {
    value % 0x10_0000 * 0x1000 + tc % 8 * 0x200 + (if bos then 0x100 else 0) + ttl
  }

  function IPv4Header(l: Layer, size: nat): (h: bytes)
    requires l.IPv4?
    ensures |h| == 20
  {
    [0x45, l.dscp as int * 4 % 0x100 + l.ecn % 4] + U16(size % 0x1_0000) + U16(l.identification)
    + U16(l.flags % 8 * 0x2000 + l.fragment % 0x2000) + [if l.ttl == 0 then 64 else l.ttl, l.proto, 0, 0]
    + Fit(l.src, 4) + Fit(l.dst, 4)
  }

  function IPv6Header(l: Layer, size: nat): (h: bytes)
    requires l.IPv6?
    ensures |h| == 40
  {
    [0x60 + l.trafficClass / 16, l.trafficClass % 16 * 16 + l.flowLabel / 0x1_0000 % 16,
     l.flowLabel / 0x100 % 0x100, l.flowLabel % 0x100] + U16(size % 0x1_0000)
    + [l.proto, if l.hopLimit == 0 then 64 else l.hopLimit] + Fit(l.src, 16) + Fit(l.dst, 16)
  }

  function GreFlags(l: Layer): u16
    requires l.Gre?
  {
    (if l.checksum then 0x8000 else 0) + (if l.hasKey then 0x2000 else 0) + (if l.sequence then 0x1000 else 0)
  }

  function GreSize(l: Layer): nat
    requires l.Gre?
  {
    4 + (if l.checksum then 4 else 0) + (if l.hasKey then 4 else 0) + (if l.sequence then 4 else 0)
  }

  function TcpHeader(l: Layer): (h: bytes)
    requires l.Tcp?
    ensures |h| == 20
  {
    U16(l.srcPort) + U16(l.dstPort) + U32(l.seqNo) + U32(l.ack) + [0x50, l.tcpFlags]
    + U16(if l.window == 0 then 65535 else l.window) + [0, 0, 0, 0]
  }

  function Vni(vni: u32): bytes
  {
    [vni / 0x1_0000 % 0x100, vni / 0x100 % 0x100, vni % 0x100, 0]
  }

  function Fill(n: nat, repeat: bool): bytes
  {
    seq(n, i => if repeat then 0xaa else 0)
  }

  /** One layer in front of its payload; `next` is the layer that the payload starts with. */
  function Prepend(l: Layer, payload: bytes, next: Option<Layer>): bytes
  {
    match l
    case Ethernet(dst, src, explicit) =>
      EthernetHeader(dst, src, InferLayerEtherType(explicit, next, payload)) + payload
    case Dot1q(id, pcp, dei, _) => U16(Tci(id, pcp, dei)) + U16(InferLayerEtherType(0, next, payload)) + payload
    case Mpls(value, tc, bos, ttl) => U32(LabelWord(value, tc, bos, ttl)) + payload
    case Pppoe(session, p) => [0x11, 0] + U16(session) + U16((|payload| + 2) % 0x1_0000) + U16(p) + payload
    case IPv4(_, _, _, _, _, _, _, _, _) => IPv4Header(l, 20 + |payload|) + payload
    case IPv6(_, _, _, _, _, _) => IPv6Header(l, |payload|) + payload
    case Gre(p, _, _, _) => U16(GreFlags(l)) + U16(p) + Zeros(GreSize(l) - 4) + payload
    case Udp(src, dst) => U16(src) + U16(dst) + U16((8 + |payload|) % 0x1_0000) + [0, 0] + payload
    case Tcp(_, _, _, _, _, _) => TcpHeader(l) + payload
    case Vxlan(vni) => [8, 0, 0, 0] + Vni(vni) + payload
    case Geneve(vni, p) => [0, 0] + U16(p) + Vni(vni) + payload
    case Icmp(t, c) => [t, c, 0, 0, 0, 0, 0, 0] + payload
    case Payload(length, repeat) => if |payload| >= length then payload else Fill(length - |payload|, repeat) + payload
    case Other => payload
  }

  function Head(ls: seq<Layer>): Option<Layer>
  {
    if ls == [] then None else Some(ls[0])
  }

  function Encode(ls: seq<Layer>): bytes
  {
    if ls == [] then [] else Prepend(ls[0], Encode(ls[1..]), Head(ls[1..]))
  }

  /** The empty model is refused. */
  function EncodeModel(ls: seq<Layer>): Option<bytes>
  {
    if ls == [] then None else Some(Encode(ls))
  }

  // ---------- what a model says ----------

  datatype Kind =
    | KEthernet | KDot1q | KMpls | KPppoe | KIPv4 | KIPv6 | KGre | KUdp | KTcp | KVxlan | KGeneve | KL2tp | KGtpu
    | KSctp | KIcmp | KIcmpv6 | KFragment | KAuthentication | KRouting | KExtension

  datatype Tuple = Tuple(src: bytes, dst: bytes, proto: u8, srcPort: u16, dstPort: u16, tcpFlags: u8)

  datatype Seen = Seen(vlans: seq<u16>, labels: seq<u32>, tuples: seq<Tuple>)

  function WithPorts(ts: seq<Tuple>, proto: u8, src: u16, dst: u16, flags: Option<u8>): seq<Tuple>
  {
    if ts == [] then ts
    else
      var n := |ts| - 1;
      var t := ts[n];
      ts[n := Tuple(t.src, t.dst, if t.proto == 0 then proto else t.proto, src, dst,
                    if flags.Some? then flags.value else t.tcpFlags)]
  }

  function SeeLayer(s: Seen, l: Layer): Seen
  {
    match l
    case Dot1q(id, _, _, _) => s.(vlans := s.vlans + [id])
    case Mpls(value, _, _, _) => s.(labels := s.labels + [value])
    case IPv4(src, dst, proto, _, _, _, _, _, _) => s.(tuples := s.tuples + [Tuple(src, dst, proto, 0, 0, 0)])
    case IPv6(src, dst, proto, _, _, _) => s.(tuples := s.tuples + [Tuple(src, dst, proto, 0, 0, 0)])
    case Tcp(src, dst, _, _, flags, _) => s.(tuples := WithPorts(s.tuples, 6, src, dst, Some(flags)))
    case Udp(src, dst) => s.(tuples := WithPorts(s.tuples, 17, src, dst, None))
    case _ => s
  }

  /** VLAN ids, MPLS labels and address tuples read directly off a model. */
  function FromModel(s: Seen, ls: seq<Layer>): Seen
    decreases |ls|
  {
    if ls == [] then s else FromModel(SeeLayer(s, ls[0]), ls[1..])
  }
}

/** Parsing an encoded packet model gives back what reading the model directly gives. */
module PacketRoundTrip {
  import opened Bytes
  import opened PacketLayers
  import opened PacketParser

  // ---------- the models covered ----------

  predicate Enabled(opts: Options)
  {
    opts.beyondL4 && opts.gre && opts.ipip && opts.vxlan
  }

  predicate IsIP(l: Layer)
  {
    (l.IPv4? && |l.src| == 4 && |l.dst| == 4) || (l.IPv6? && |l.src| == 16 && |l.dst| == 16)
  }

  function TypeOfIP(l: Layer): u16
  {
    if l.IPv4? then IPV4 else IPV6
  }

  /** Ports that no enabled UDP tunnel claims. */
  predicate PlainPorts(opts: Options, t: Tuple)
  {
    && !PortMatches(t, opts.vxlanPorts, 4789)
    && !(opts.geneve && PortMatches(t, opts.genevePorts, 6081))
    && !(opts.l2tp && PortMatches(t, opts.l2tpPorts, 1701))
    && !(opts.gtpu && PortMatches(t, opts.gtpuPorts, 2152))
  }

  function UdpTuple(ip: Layer, udp: Layer): Tuple
    requires IsIP(ip) && udp.Udp?
  {
    Tuple(ip.src, ip.dst, ip.proto, udp.srcPort, udp.dstPort, 0)
  }

  predicate Tail(ls: seq<Layer>)
  {
    ls == [] || (|ls| == 1 && ls[0].Payload?)
  }

  /** The EtherType the encoder writes before a layer. */
  function TypeBefore(l: Layer): u16
  {
    match l
    case Dot1q(_, _, _, tpid) => if tpid != 0 then tpid else VLAN
    case Mpls(_, _, _, _) => MPLS
    case IPv6(_, _, _, _, _, _) => IPV6
    case _ => IPV4
  }

  /**
   * What an EtherType announces: an MPLS stack whose bottom bit is on its last label only, or an IP layer and what it
   * carries.
   */
  predicate Stack(opts: Options, ls: seq<Layer>, t: u16)
    decreases |ls|, 1
  {
    && ls != []
    && if t == MPLS || t == 0x8848 then
         && ls[0].Mpls? && ls[0].value < 0x10_0000 && |ls| > 1
         && (if ls[0].bos then IsIP(ls[1]) && Stack(opts, ls[1..], TypeOfIP(ls[1]))
             else ls[1].Mpls? && Stack(opts, ls[1..], t))
       else IsIP(ls[0]) && t == TypeOfIP(ls[0]) && Carries(opts, ls)
  }

  /** TCP, UDP, IP in IP, GRE or VXLAN, as the protocol number says. */
  predicate Carries(opts: Options, ls: seq<Layer>)
    requires ls != [] && IsIP(ls[0])
    decreases |ls|, 0
  {
    && |ls| > 1
    && match ls[0].proto
       case 6 => ls[1].Tcp? && Tail(ls[2..])
       case 17 =>
         && ls[1].Udp?
         && (if PortMatches(UdpTuple(ls[0], ls[1]), opts.vxlanPorts, 4789)
             then |ls| > 2 && ls[2].Vxlan? && Frame(opts, ls[3..])
             else PlainPorts(opts, UdpTuple(ls[0], ls[1])) && Tail(ls[2..]))
       case 4 => ls[1].IPv4? && Stack(opts, ls[1..], IPV4)
       case 41 => ls[1].IPv6? && Stack(opts, ls[1..], IPV6)
       case 47 =>
         && ls[1].Gre?
         && (if ls[1].protocol == BRIDGED then Frame(opts, ls[2..]) else Stack(opts, ls[2..], ls[1].protocol))
       case _ => false
  }

  /** VLAN tags, then what the last EtherType announces. */
  predicate Tagged(opts: Options, ls: seq<Layer>, t: u16)
    decreases |ls|, 2
  {
    if IsVlan(t) then ls != [] && ls[0].Dot1q? && ls[0].id < 0x1000 && |ls| > 1
      && Tagged(opts, ls[1..], TypeBefore(ls[1]))
    else Stack(opts, ls, t)
  }

  predicate Frame(opts: Options, ls: seq<Layer>)
    decreases |ls|, 0
  {
    && |ls| > 1 && ls[0].Ethernet? && ls[0].etherType < 0x1_0000
    && Tagged(opts, ls[1..], if ls[0].etherType != 0 then ls[0].etherType else TypeBefore(ls[1]))
  }

  /** How a parsed view lists a layer: not at all for the UDP header of a tunnel, nor for the payload. */
  function KindHere(l: Layer, next: Option<Layer>): seq<Kind>
  {
    match l
    case Ethernet(_, _, _) => [KEthernet]
    case Dot1q(_, _, _, _) => [KDot1q]
    case Mpls(_, _, _, _) => [KMpls]
    case IPv4(_, _, _, _, _, _, _, _, _) => [KIPv4]
    case IPv6(_, _, _, _, _, _) => [KIPv6]
    case Gre(_, _, _, _) => [KGre]
    case Tcp(_, _, _, _, _, _) => [KTcp]
    case Udp(_, _) => if next.Some? && next.value.Vxlan? then [] else [KUdp]
    case Vxlan(_) => [KVxlan]
    case _ => []
  }

  function KindsOf(ls: seq<Layer>): seq<Kind>
  {
    if ls == [] then [] else KindHere(ls[0], Head(ls[1..])) + KindsOf(ls[1..])
  }

  lemma KindsCons(ls: seq<Layer>)
    requires ls != []
    ensures KindsOf(ls) == KindHere(ls[0], Head(ls[1..])) + KindsOf(ls[1..])
  {
  }

  /** A view that has seen what the model says. */
  predicate Shows(r: View, v: View, ls: seq<Layer>)
  {
    r.kinds == v.kinds + KindsOf(ls) && r.seen == FromModel(v.seen, ls)
  }

  // ---------- one layer read back ----------

  lemma FramedBytes(h: bytes, payload: bytes)
    ensures |h + payload| == |h| + |payload| && (h + payload)[|h|..] == payload
    ensures forall i :: 0 <= i < |h| ==> (h + payload)[i] == h[i]
    ensures forall i, j :: 0 <= i <= j <= |h| ==> (h + payload)[i..j] == h[i..j]
  {
  }

  lemma IPv4Fields(l: Layer, size: nat)
    requires l.IPv4? && IsIP(l)
    ensures var h := IPv4Header(l, size); h[0] == 0x45 && h[9] == l.proto && h[12..16] == l.src && h[16..20] == l.dst
  {
    var h := IPv4Header(l, size);
    var a := [0x45, l.dscp as int * 4 % 0x100 + l.ecn % 4] + U16(size % 0x1_0000) + U16(l.identification)
             + U16(l.flags % 8 * 0x2000 + l.fragment % 0x2000) + [if l.ttl == 0 then 64 else l.ttl, l.proto, 0, 0];
    assert |a| == 12 && h == a + l.src + l.dst;
  }

  lemma IPv6Fields(l: Layer, size: nat)
    requires l.IPv6? && IsIP(l)
    ensures var h := IPv6Header(l, size); h[0] / 16 == 6 && h[6] == l.proto && h[8..24] == l.src && h[24..40] == l.dst
  {
    var h := IPv6Header(l, size);
    var a := [0x60 + l.trafficClass / 16, l.trafficClass % 16 * 16 + l.flowLabel / 0x1_0000 % 16,
              l.flowLabel / 0x100 % 0x100, l.flowLabel % 0x100] + U16(size % 0x1_0000)
             + [l.proto, if l.hopLimit == 0 then 64 else l.hopLimit];
    assert |a| == 8 && h == a + l.src + l.dst;
  }

  function NetworkOf(l: Layer, payload: bytes): Network
    requires IsIP(l)
  {
    Network(if l.IPv4? then 20 else 40, WithTransport(Tuple(l.src, l.dst, l.proto, 0, 0, 0), payload), [])
  }

  /** Reading back an IP header that was just written. */
  lemma NetworkReads(l: Layer, payload: bytes, next: Option<Layer>)
    requires IsIP(l) && !IsExtension(l.proto)
    ensures var data := Prepend(l, payload, next);
            && (if l.IPv4? then ParseIPv4(data) else ParseIPv6(data)) == Some(NetworkOf(l, payload))
            && Starts(data, if l.IPv4? then 4 else 6)
            && data[NetworkOf(l, payload).used..] == payload
            && |data| == NetworkOf(l, payload).used + |payload|
  {
    hide WithTransport;
    if l.IPv4? {
      IPv4Fields(l, 20 + |payload|);
      FramedBytes(IPv4Header(l, 20 + |payload|), payload);
    } else {
      IPv6Fields(l, |payload|);
      FramedBytes(IPv6Header(l, |payload|), payload);
    }
  }

  lemma TcpReads(t: Tuple, l: Layer, rest: bytes)
    requires l.Tcp? && t.proto == 6
    ensures WithTransport(t, TcpHeader(l) + rest) == Tuple(t.src, t.dst, 6, l.srcPort, l.dstPort, l.tcpFlags)
  {
    var h := TcpHeader(l);
    FramedBytes(h, rest);
    assert h[..4] == U16(l.srcPort) + U16(l.dstPort);
    assert h[0] == U16(l.srcPort)[0] && h[1] == U16(l.srcPort)[1] && h[2] == U16(l.dstPort)[0]
           && h[3] == U16(l.dstPort)[1];
    assert h[13] == l.tcpFlags;
    ReadBackU16(l.srcPort, []);
    ReadBackU16(l.dstPort, []);
  }

  function UdpHeader(l: Layer, size: nat): (h: bytes)
    requires l.Udp?
    ensures |h| == 8
  {
    U16(l.srcPort) + U16(l.dstPort) + U16(size % 0x1_0000) + [0, 0]
  }

  lemma UdpReads(t: Tuple, l: Layer, size: nat, rest: bytes)
    requires l.Udp? && t.proto == 17
    ensures WithTransport(t, UdpHeader(l, size) + rest) == Tuple(t.src, t.dst, 17, l.srcPort, l.dstPort, t.tcpFlags)
  {
    var h := UdpHeader(l, size);
    FramedBytes(h, rest);
    assert h[0] == U16(l.srcPort)[0] && h[1] == U16(l.srcPort)[1] && h[2] == U16(l.dstPort)[0]
           && h[3] == U16(l.dstPort)[1];
    ReadBackU16(l.srcPort, []);
    ReadBackU16(l.dstPort, []);
  }

  lemma Div100(x: int, r: int)
    requires 0 <= r < 0x100
    ensures (x * 0x100 + r) / 0x100 == x
  {
  }

  lemma Div1000(x: int, r: int)
    requires 0 <= r < 0x1000
    ensures (x * 0x1000 + r) / 0x1000 == x
  {
  }

  lemma WordBits(value: int, tc: int, bos: int, ttl: int)
    requires 0 <= value && 0 <= tc < 8 && 0 <= bos < 2 && 0 <= ttl < 0x100
    ensures var w := value * 0x1000 + tc * 0x200 + bos * 0x100 + ttl;
            w / 0x1000 == value && w / 0x100 == (value * 8 + tc) * 2 + bos
  {
    Div1000(value, tc * 0x200 + bos * 0x100 + ttl);
    Div100((value * 8 + tc) * 2 + bos, ttl);
  }

  lemma Odd(x: int, bit: int)
    requires 0 <= bit < 2
    ensures (x * 2 + bit) % 2 == bit
  {
  }

  lemma LabelBits(l: Layer)
    requires l.Mpls? && l.value < 0x10_0000
    ensures var w := LabelWord(l.value, l.tc, l.bos, l.ttl); w / 0x1000 == l.value && (w / 0x100 % 2 == 1 <==> l.bos)
  {
    var bos := if l.bos then 1 else 0;
    LabelIs(l);
    WordBits(l.value, l.tc % 8, bos, l.ttl);
    Odd(l.value as int * 8 + l.tc as int % 8, bos);
  }

  lemma LabelIs(l: Layer)
    requires l.Mpls? && l.value < 0x10_0000
    ensures LabelWord(l.value, l.tc, l.bos, l.ttl)
            == l.value as int * 0x1000 + (l.tc as int % 8) * 0x200 + (if l.bos then 1 else 0) * 0x100 + l.ttl as int
  {
  }

  lemma TciId(id: u16, pcp: u8, dei: bool)
    requires id < 0x1000
    ensures Tci(id, pcp, dei) % 0x1000 == id
  {
  }

  lemma FlagBits(l: Layer)
    requires l.Gre?
    ensures Bit(GreFlags(l), 0x8000) == l.checksum && Bit(GreFlags(l), 0x2000) == l.hasKey
            && Bit(GreFlags(l), 0x1000) == l.sequence
  {
  }

  lemma TwoWords(a: u16, b: u16, rest: bytes)
    ensures var s := U16(a) + U16(b) + rest;
            |s| == 4 + |rest| && HeadU16(s) == a && HeadU16(s[2..]) == b && s[4..] == rest
  {
    Assoc(U16(a), U16(b), rest);
    ReadBackU16(a, U16(b) + rest);
    ReadBackU16(b, rest);
    var s := U16(a) + U16(b) + rest;
    assert s[2..][2..] == s[4..];
  }

  lemma GreReads(l: Layer, payload: bytes, next: Option<Layer>, v: View)
    requires l.Gre?
    ensures ParseGRE(Prepend(l, payload, next), v) == Go(See(v, KGre), payload, l.protocol)
  {
    var zeros := Zeros(GreSize(l) - 4);
    var head := U16(GreFlags(l)) + U16(l.protocol);
    var data := Prepend(l, payload, next);
    Assoc(head, zeros, payload);
    TwoWords(GreFlags(l), l.protocol, zeros + payload);
    FlagBits(l);
    FramedBytes(head + zeros, payload);
    assert |head + zeros| == GreSize(l);
  }

  lemma VxlanReads(udp: Layer, vx: Layer, payload: bytes, v: View)
    requires udp.Udp? && vx.Vxlan?
    ensures var inner := Prepend(vx, payload, None);
            ParseVXLAN(UdpHeader(udp, 8 + |inner|) + inner, v) == Go(See(v, KVxlan), payload, BRIDGED)
  {
    var inner := Prepend(vx, payload, None);
    var h, x := UdpHeader(udp, 8 + |inner|), [8, 0, 0, 0] + Vni(vx.vni);
    assert inner == x + payload && |x| == 8;
    Assoc(h, x, payload);
    FramedBytes(h + x, payload);
  }

  // ---------- one step of each definition ----------

  lemma EncodeCons(ls: seq<Layer>)
    requires ls != []
    ensures Encode(ls) == Prepend(ls[0], Encode(ls[1..]), Head(ls[1..]))
  {
  }

  function PlainKind(l: Layer): Kind
    requires l.Ethernet? || l.Dot1q? || l.Mpls? || IsIP(l) || l.Gre? || l.Vxlan?
  {
    match l
    case Ethernet(_, _, _) => KEthernet
    case Dot1q(_, _, _, _) => KDot1q
    case Mpls(_, _, _, _) => KMpls
    case IPv4(_, _, _, _, _, _, _, _, _) => KIPv4
    case IPv6(_, _, _, _, _, _) => KIPv6
    case Gre(_, _, _, _) => KGre
    case _ => KVxlan
  }

  /** Showing a layer that always counts. */
  lemma ModelCons(v: View, v': View, ls: seq<Layer>)
    requires ls != [] && (ls[0].Ethernet? || ls[0].Dot1q? || ls[0].Mpls? || IsIP(ls[0]) || ls[0].Gre? || ls[0].Vxlan?)
    requires v'.kinds == v.kinds + [PlainKind(ls[0])] && v'.seen == SeeLayer(v.seen, ls[0])
    ensures v'.kinds + KindsOf(ls[1..]) == v.kinds + KindsOf(ls)
    ensures FromModel(v'.seen, ls[1..]) == FromModel(v.seen, ls)
  {
    Assoc(v.kinds, [PlainKind(ls[0])], KindsOf(ls[1..]));
  }

  lemma LabelStep(l: Layer, payload: bytes, next: Option<Layer>, v: View)
    requires l.Mpls? && l.value < 0x10_0000
    ensures var v' := See(v, KMpls).(seen := v.seen.(labels := v.seen.labels + [l.value]));
            && ParseMPLS(Prepend(l, payload, next), v)
              == (if l.bos then AfterLabels(payload, v') else ParseMPLS(payload, v'))
            && v'.seen == SeeLayer(v.seen, l) && v'.kinds == v.kinds + [KMpls]
  {
    hide LabelWord;
    LabelBits(l);
    ReadBackU32(LabelWord(l.value, l.tc, l.bos, l.ttl), payload);
  }

  lemma TagStep(l: Layer, payload: bytes, next: Layer, t: u16, v: View)
    requires l.Dot1q? && l.id < 0x1000 && IsVlan(t) && (next.Dot1q? || next.Mpls? || next.IPv4? || next.IPv6?)
    ensures var v' := See(v, KDot1q).(seen := v.seen.(vlans := v.seen.vlans + [l.id]));
            && ParseVlans(Prepend(l, payload, Some(next)), t, v) == ParseVlans(payload, TypeBefore(next), v')
            && v'.seen == SeeLayer(v.seen, l) && v'.kinds == v.kinds + [KDot1q]
  {
    hide Tci;
    TypeAgrees(next, payload);
    TciId(l.id, l.pcp, l.dei);
    TwoWords(Tci(l.id, l.pcp, l.dei), TypeBefore(next), payload);
  }

  lemma FrameStep(l: Layer, payload: bytes, next: Layer, v: View, captureMAC: bool) returns (v': View)
    requires l.Ethernet? && l.etherType < 0x1_0000 && (next.Dot1q? || next.Mpls? || next.IPv4? || next.IPv6?)
    ensures ParseEthernet(Prepend(l, payload, Some(next)), v, captureMAC)
            == ParseVlans(payload, if l.etherType != 0 then l.etherType else TypeBefore(next), v')
    ensures v'.seen == SeeLayer(v.seen, l) && v'.kinds == v.kinds + [KEthernet]
  {
    hide ParseVlans;
    TypeAgrees(next, payload);
    var t := if l.etherType != 0 then l.etherType else TypeBefore(next);
    var h := EthernetHeader(l.dstMAC, l.srcMAC, t);
    var data := h + payload;
    FramedBytes(h, payload);
    assert h[12..] == U16(t);
    assert data[12..] == U16(t) + payload;
    ReadBackU16(t, payload);
    v' := See(v, KEthernet);
    v' := if captureMAC then v'.(macs := Some((data[..6], data[6..12]))) else v';
  }

  // ---------- label and tag stacks ----------

  lemma {:induction false} LabelsRead(opts: Options, ls: seq<Layer>, t: u16, v: View)
    returns (v': View, inner: seq<Layer>)
    requires Stack(opts, ls, t) && (t == MPLS || t == 0x8848)
    ensures |inner| < |ls| && inner != [] && IsIP(inner[0]) && Stack(opts, inner, TypeOfIP(inner[0]))
    ensures ParseMPLS(Encode(ls), v) == Go(v', Encode(inner), TypeOfIP(inner[0]))
    ensures v'.kinds + KindsOf(inner) == v.kinds + KindsOf(ls) && FromModel(v'.seen, inner) == FromModel(v.seen, ls)
    decreases |ls|
  {
    hide Encode, Prepend, KindsOf, FromModel, Carries, ParseMPLS, SeeLayer, IsIP, TypeOfIP;
    var l, rest := ls[0], ls[1..];
    var seen := See(v, KMpls).(seen := v.seen.(labels := v.seen.labels + [l.value]));
    EncodeCons(ls);
    LabelStep(l, Encode(rest), Head(rest), v);
    ModelCons(v, seen, ls);
    if l.bos {
      StackIP(opts, rest);
      v', inner := seen, rest;
    } else {
      v', inner := LabelsRead(opts, rest, t, seen);
    }
  }

  lemma StackIP(opts: Options, ls: seq<Layer>)
    requires ls != [] && IsIP(ls[0]) && Stack(opts, ls, TypeOfIP(ls[0]))
    ensures Carries(opts, ls) && !IsExtension(ls[0].proto) && Encode(ls) != []
    ensures forall v :: AfterLabels(Encode(ls), v) == Go(v, Encode(ls), TypeOfIP(ls[0]))
  {
    hide WithTransport, Prepend;
    assert !IsExtension(ls[0].proto);
    NetworkReads(ls[0], Encode(ls[1..]), Head(ls[1..]));
  }

  lemma TypeAgrees(l: Layer, payload: bytes)
    requires l.Dot1q? || l.Mpls? || l.IPv4? || l.IPv6?
    ensures InferLayerEtherType(0, Some(l), payload) == TypeBefore(l)
  {
  }

  lemma TaggedHead(opts: Options, ls: seq<Layer>, t: u16)
    requires Tagged(opts, ls, t)
    ensures ls != [] && (ls[0].Dot1q? || ls[0].Mpls? || ls[0].IPv4? || ls[0].IPv6?)
  {
  }

  lemma {:induction false} TagsRead(opts: Options, ls: seq<Layer>, t: u16, v: View)
    returns (v': View, inner: seq<Layer>, t': u16)
    requires Tagged(opts, ls, t)
    ensures |inner| <= |ls| && Stack(opts, inner, t')
    ensures ParseVlans(Encode(ls), t, v) == Go(v', Encode(inner), t')
    ensures v'.kinds + KindsOf(inner) == v.kinds + KindsOf(ls) && FromModel(v'.seen, inner) == FromModel(v.seen, ls)
    decreases |ls|
  {
    hide Encode, Prepend, KindsOf, FromModel, Stack, SeeLayer, TypeBefore;
    if !IsVlan(t) {
      v', inner, t' := if v.etherType == 0 then v.(etherType := t) else v, ls, t;
    } else {
      hide ParseVlans;
      var l, rest := ls[0], ls[1..];
      var seen := See(v, KDot1q).(seen := v.seen.(vlans := v.seen.vlans + [l.id]));
      EncodeCons(ls);
      TaggedHead(opts, rest, TypeBefore(rest[0]));
      TagStep(l, Encode(rest), rest[0], t, v);
      ModelCons(v, seen, ls);
      v', inner, t' := TagsRead(opts, rest, TypeBefore(rest[0]), seen);
    }
  }

  lemma EthernetReads(opts: Options, ls: seq<Layer>, v: View, captureMAC: bool)
    returns (v': View, inner: seq<Layer>, t': u16)
    requires Frame(opts, ls)
    ensures |inner| < |ls| && Stack(opts, inner, t')
    ensures ParseEthernet(Encode(ls), v, captureMAC) == Go(v', Encode(inner), t')
    ensures v'.kinds + KindsOf(inner) == v.kinds + KindsOf(ls) && FromModel(v'.seen, inner) == FromModel(v.seen, ls)
  {
    hide Encode, Prepend, KindsOf, FromModel, Tagged, Stack, SeeLayer, TypeBefore, ParseVlans, ParseEthernet;
    var l, rest := ls[0], ls[1..];
    var t := if l.etherType != 0 then l.etherType else TypeBefore(rest[0]);
    EncodeCons(ls);
    TaggedHead(opts, rest, t);
    var seen := FrameStep(l, Encode(rest), rest[0], v, captureMAC);
    ModelCons(v, seen, ls);
    v', inner, t' := TagsRead(opts, rest, t, seen);
  }

  // ---------- network layers ----------

  lemma NetworkStep(opts: Options, l: Layer, payload: bytes, next: Option<Layer>, v: View)
    requires IsIP(l) && !IsExtension(l.proto)
    ensures var n := NetworkOf(l, payload);
            Parse(opts, Prepend(l, payload, next), TypeOfIP(l), false, v)
              == AfterNetwork(opts, payload, n, SeeNetwork(v, PlainKind(l), n))
  {
    hide AfterNetwork, WithTransport, Prepend, ParseIPv4, ParseIPv6, SeeNetwork;
    NetworkReads(l, payload, next);
  }

  /** An IP layer whose ports, if any, are read from the transport layer after it. */
  lemma SeeIP(l: Layer, payload: bytes, v: View)
    requires IsIP(l) && l.proto != 6 && l.proto != 17
    ensures var v' := SeeNetwork(v, PlainKind(l), NetworkOf(l, payload));
            v'.kinds == v.kinds + [PlainKind(l)] && v'.seen == SeeLayer(v.seen, l)
  {
    Empty(v.kinds + [PlainKind(l)]);
  }

  lemma LastPorts(ts: seq<Tuple>, t: Tuple, proto: u8, src: u16, dst: u16, flags: Option<u8>)
    requires t.proto == proto
    ensures WithPorts(ts + [t], proto, src, dst, flags)
            == ts + [Tuple(t.src, t.dst, proto, src, dst, if flags.Some? then flags.value else t.tcpFlags)]
  {
  }

  lemma TwoLayers(s: Seen, ls: seq<Layer>)
    requires |ls| >= 2
    ensures FromModel(s, ls) == FromModel(SeeLayer(SeeLayer(s, ls[0]), ls[1]), ls[2..])
  {
    assert ls[1..][1..] == ls[2..];
  }

  lemma TwoKinds(ls: seq<Layer>)
    requires |ls| >= 2 && IsIP(ls[0]) && (ls[1].Tcp? || ls[1].Udp?)
    ensures KindsOf(ls) == [PlainKind(ls[0])] + ((if ls[1].Tcp? then [KTcp] else if |ls| > 2 && ls[2].Vxlan? then []
                                                  else [KUdp])
                                                 + KindsOf(ls[2..]))
  {
    hide KindsOf, KindHere, PlainKind, IsIP;
    assert ls[1..][1..] == ls[2..];
    KindsCons(ls);
    KindsCons(ls[1..]);
    IPKind(ls[0], Head(ls[1..]));
    TransportKind(ls[1], Head(ls[2..]));
  }

  lemma IPKind(l: Layer, next: Option<Layer>)
    requires IsIP(l)
    ensures KindHere(l, next) == [PlainKind(l)]
  {
  }

  lemma TransportKind(l: Layer, next: Option<Layer>)
    requires l.Tcp? || l.Udp?
    ensures KindHere(l, next) == if l.Tcp? then [KTcp] else if next.Some? && next.value.Vxlan? then [] else [KUdp]
  {
  }

  lemma TailIsEmpty(s: Seen, ls: seq<Layer>)
    requires Tail(ls)
    ensures KindsOf(ls) == [] && FromModel(s, ls) == s
  {
    if ls != [] { assert ls[1..] == []; }
  }

  lemma TcpShows(opts: Options, ls: seq<Layer>, v: View) returns (r: View)
    requires |ls| > 1 && IsIP(ls[0]) && ls[0].proto == 6 && ls[1].Tcp? && Tail(ls[2..])
    ensures Parse(opts, Encode(ls), TypeOfIP(ls[0]), false, v) == Parsed(r) && Shows(r, v, ls)
  {
    hide Encode, Prepend, KindsOf, FromModel, WithTransport, Parse, TcpHeader;
    var ip, tcp, payload := ls[0], ls[1], Encode(ls[1..]);
    var n := NetworkOf(ip, payload);
    EncodeCons(ls);
    EncodeCons(ls[1..]);
    NetworkStep(opts, ip, payload, Head(ls[1..]), v);
    TcpPayload(ls[1..]);
    TcpReads(Tuple(ip.src, ip.dst, 6, 0, 0, 0), tcp, Encode(ls[2..]));
    r := See(SeeNetwork(v, PlainKind(ip), n), KTcp);
    LastPorts(v.seen.tuples, Tuple(ip.src, ip.dst, 6, 0, 0, 0), 6, tcp.srcPort, tcp.dstPort, Some(tcp.tcpFlags));
    TwoLayers(v.seen, ls);
    TwoKinds(ls);
    TailIsEmpty(r.seen, ls[2..]);
    Empty(v.kinds + [PlainKind(ip)]);
    Empty([KTcp]);
    Assoc(v.kinds, [PlainKind(ip)], [KTcp]);
  }

  lemma TcpPayload(ls: seq<Layer>)
    requires ls != [] && ls[0].Tcp?
    ensures Encode(ls) == TcpHeader(ls[0]) + Encode(ls[1..])
  {
  }

  lemma UdpPayload(ls: seq<Layer>)
    requires ls != [] && ls[0].Udp?
    ensures Encode(ls) == UdpHeader(ls[0], 8 + |Encode(ls[1..])|) + Encode(ls[1..])
  {
  }

  /** What is known once a UDP header has been read. */
  lemma UdpSeen(opts: Options, ls: seq<Layer>, v: View) returns (v': View)
    requires |ls| > 1 && IsIP(ls[0]) && ls[0].proto == 17 && ls[1].Udp?
    ensures var n := NetworkOf(ls[0], Encode(ls[1..]));
            && v' == SeeNetwork(v, PlainKind(ls[0]), n) && n.tuple == UdpTuple(ls[0], ls[1])
            && Parse(opts, Encode(ls), TypeOfIP(ls[0]), false, v) == AfterNetwork(opts, Encode(ls[1..]), n, v')
    ensures v'.kinds == v.kinds + [PlainKind(ls[0])] && v'.seen == SeeLayer(SeeLayer(v.seen, ls[0]), ls[1])
    ensures Encode(ls[1..]) == UdpHeader(ls[1], 8 + |Encode(ls[2..])|) + Encode(ls[2..])
  {
    hide Encode, Prepend, WithTransport, Parse, AfterNetwork, UdpHeader;
    var ip, udp, payload := ls[0], ls[1], Encode(ls[1..]);
    EncodeCons(ls);
    NetworkStep(opts, ip, payload, Head(ls[1..]), v);
    UdpPayload(ls[1..]);
    UdpReads(Tuple(ip.src, ip.dst, 17, 0, 0, 0), udp, 8 + |Encode(ls[2..])|, Encode(ls[2..]));
    v' := SeeNetwork(v, PlainKind(ip), NetworkOf(ip, payload));
    LastPorts(v.seen.tuples, Tuple(ip.src, ip.dst, 17, 0, 0, 0), 17, udp.srcPort, udp.dstPort, None);
    Empty(v.kinds + [PlainKind(ip)]);
  }

  lemma UdpShows(opts: Options, ls: seq<Layer>, v: View) returns (r: View)
    requires |ls| > 1 && IsIP(ls[0]) && ls[0].proto == 17 && ls[1].Udp?
    requires PlainPorts(opts, UdpTuple(ls[0], ls[1])) && Tail(ls[2..])
    ensures Parse(opts, Encode(ls), TypeOfIP(ls[0]), false, v) == Parsed(r) && Shows(r, v, ls)
  {
    hide Encode, KindsOf, FromModel, Parse, NetworkOf, PortMatches, SeeNetwork, SeeLayer;
    var v' := UdpSeen(opts, ls, v);
    r := See(v', KUdp);
    PlainTunnel(opts, Encode(ls[1..]), UdpTuple(ls[0], ls[1]), v');
    PlainAfter(opts, Encode(ls[1..]), NetworkOf(ls[0], Encode(ls[1..])), v');
    TwoLayers(v.seen, ls);
    TwoKinds(ls);
    TailIsEmpty(r.seen, ls[2..]);
    Empty([KUdp]);
    Assoc(v.kinds, [PlainKind(ls[0])], [KUdp]);
  }

  lemma PlainTunnel(opts: Options, data: bytes, t: Tuple, v: View)
    requires PlainPorts(opts, t)
    ensures ParseUDPTunnel(opts, data, t, v) == Stop(v)
  {
    hide PortMatches;
  }

  lemma PlainAfter(opts: Options, rest: bytes, n: Network, v: View)
    requires n.tuple.proto == 17 && ParseUDPTunnel(opts, rest, n.tuple, v) == Stop(v)
    ensures AfterNetwork(opts, rest, n, v) == Parsed(See(v, KUdp))
  {
    hide ParseUDPTunnel, Parse, Inside;
  }

  lemma VxlanAfter(opts: Options, rest: bytes, n: Network, v: View, inner: bytes)
    requires Enabled(opts) && n.tuple.proto == 17 && |rest| >= 8 && PortMatches(n.tuple, opts.vxlanPorts, 4789)
    requires ParseVXLAN(rest, v) == Go(See(v, KVxlan), inner, BRIDGED)
    ensures AfterNetwork(opts, rest, n, v) == ParseBridged(opts, inner, See(v, KVxlan))
  {
    hide Parse, ParseBridged, PortMatches, ParseVXLAN;
  }

  lemma GreAfter(opts: Options, rest: bytes, n: Network, v: View, inner: bytes, t: u16)
    requires Enabled(opts) && n.tuple.proto == 47 && ParseGRE(rest, v) == Go(See(v, KGre), inner, t)
    ensures t == BRIDGED ==> AfterNetwork(opts, rest, n, v) == ParseBridged(opts, inner, See(v, KGre))
    ensures CanContinue(t) ==> AfterNetwork(opts, rest, n, v) == Parse(opts, inner, t, false, See(v, KGre))
  {
    hide Parse, ParseBridged, ParseGRE;
  }

  lemma IPIPAfter(opts: Options, rest: bytes, n: Network, v: View)
    requires Enabled(opts) && (n.tuple.proto == 4 || n.tuple.proto == 41)
    ensures AfterNetwork(opts, rest, n, v) == Parse(opts, rest, if n.tuple.proto == 4 then IPV4 else IPV6, false, v)
  {
    hide Parse;
  }

  // ---------- whole stacks ----------

  lemma BridgedShows(opts: Options, ls: seq<Layer>, v: View) returns (r: View)
    requires Enabled(opts) && Frame(opts, ls)
    ensures ParseBridged(opts, Encode(ls), v) == Parsed(r) && Shows(r, v, ls)
    decreases |ls|, 0
  {
    hide Encode, KindsOf, FromModel, Parse, ParseEthernet, Frame, Stack, Enabled;
    var v', inner, t := EthernetReads(opts, ls, v, false);
    r := StackShows(opts, inner, t, v');
  }

  lemma VxlanShows(opts: Options, ls: seq<Layer>, v: View) returns (r: View)
    requires Enabled(opts) && |ls| > 2 && IsIP(ls[0]) && ls[0].proto == 17 && ls[1].Udp? && ls[2].Vxlan?
             && Frame(opts, ls[3..])
    requires PortMatches(UdpTuple(ls[0], ls[1]), opts.vxlanPorts, 4789)
    ensures Parse(opts, Encode(ls), TypeOfIP(ls[0]), false, v) == Parsed(r) && Shows(r, v, ls)
    decreases |ls|, 0
  {
    hide Encode, Prepend, KindsOf, FromModel, Parse, ParseBridged, NetworkOf, PortMatches, SeeNetwork, SeeLayer, Frame,
         AfterNetwork, ParseVXLAN, Enabled, UdpHeader;
    var v' := UdpSeen(opts, ls, v);
    var inner := Encode(ls[3..]);
    EncodeCons(ls[2..]);
    assert ls[2..][1..] == ls[3..];
    VxlanIgnoresNext(ls[2], inner, Head(ls[3..]));
    VxlanReads(ls[1], ls[2], inner, v');
    VxlanAfter(opts, Encode(ls[1..]), NetworkOf(ls[0], Encode(ls[1..])), v', inner);
    r := BridgedShows(opts, ls[3..], See(v', KVxlan));
    TwoLayers(v.seen, ls);
    TwoKinds(ls);
    VxlanModel(v'.seen, ls[2..]);
    Empty(KindsOf(ls[2..]));
    Assoc(v.kinds + [PlainKind(ls[0])], [KVxlan], KindsOf(ls[3..]));
    Assoc(v.kinds, [PlainKind(ls[0])], KindsOf(ls[2..]));
  }

  lemma VxlanIgnoresNext(l: Layer, payload: bytes, next: Option<Layer>)
    requires l.Vxlan?
    ensures Prepend(l, payload, next) == Prepend(l, payload, None)
  {
  }

  lemma VxlanModel(s: Seen, ls: seq<Layer>)
    requires ls != [] && (ls[0].Vxlan? || ls[0].Gre?)
    ensures FromModel(s, ls) == FromModel(s, ls[1..])
            && KindsOf(ls) == [if ls[0].Vxlan? then KVxlan else KGre] + KindsOf(ls[1..])
  {
  }

  lemma IPIPShows(opts: Options, ls: seq<Layer>, v: View) returns (r: View)
    requires Enabled(opts) && |ls| > 1 && IsIP(ls[0]) && (ls[0].proto == 4 || ls[0].proto == 41)
    requires Stack(opts, ls[1..], if ls[0].proto == 4 then IPV4 else IPV6)
    ensures Parse(opts, Encode(ls), TypeOfIP(ls[0]), false, v) == Parsed(r) && Shows(r, v, ls)
    decreases |ls|, 0
  {
    hide Encode, Prepend, KindsOf, FromModel, Parse, SeeNetwork, SeeLayer, Stack, AfterNetwork, Enabled;
    var ip, payload := ls[0], Encode(ls[1..]);
    var v' := SeeNetwork(v, PlainKind(ip), NetworkOf(ip, payload));
    EncodeCons(ls);
    NetworkStep(opts, ip, payload, Head(ls[1..]), v);
    IPIPAfter(opts, payload, NetworkOf(ip, payload), v');
    SeeIP(ip, payload, v);
    ModelCons(v, v', ls);
    r := StackShows(opts, ls[1..], if ip.proto == 4 then IPV4 else IPV6, v');
  }

  lemma GreShows(opts: Options, ls: seq<Layer>, v: View) returns (r: View)
    requires Enabled(opts) && |ls| > 1 && IsIP(ls[0]) && ls[0].proto == 47 && ls[1].Gre?
    requires if ls[1].protocol == BRIDGED then Frame(opts, ls[2..]) else Stack(opts, ls[2..], ls[1].protocol)
    ensures Parse(opts, Encode(ls), TypeOfIP(ls[0]), false, v) == Parsed(r) && Shows(r, v, ls)
    decreases |ls|, 0
  {
    hide Encode, Prepend, KindsOf, FromModel, Parse, ParseBridged, SeeNetwork, SeeLayer, Stack, Frame, AfterNetwork,
         ParseGRE, Enabled;
    var ip, gre, payload, inner := ls[0], ls[1], Encode(ls[1..]), Encode(ls[2..]);
    var v' := SeeNetwork(v, PlainKind(ip), NetworkOf(ip, payload));
    EncodeCons(ls);
    EncodeCons(ls[1..]);
    assert ls[1..][1..] == ls[2..];
    NetworkStep(opts, ip, payload, Head(ls[1..]), v);
    GreReads(gre, inner, Head(ls[2..]), v');
    GreAfter(opts, payload, NetworkOf(ip, payload), v', inner, gre.protocol);
    SeeIP(ip, payload, v);
    ModelCons(v, v', ls);
    VxlanModel(v'.seen, ls[1..]);
    Assoc(v'.kinds, [KGre], KindsOf(ls[2..]));
    if gre.protocol == BRIDGED {
      r := BridgedShows(opts, ls[2..], See(v', KGre));
    } else {
      StackType(opts, ls[2..], gre.protocol);
      r := StackShows(opts, ls[2..], gre.protocol, See(v', KGre));
    }
  }

  lemma StackType(opts: Options, ls: seq<Layer>, t: u16)
    requires Stack(opts, ls, t)
    ensures CanContinue(t)
  {
  }

  /** Every stack of the grammar, behind any EtherType that announces it. */
  lemma {:induction false} StackShows(opts: Options, ls: seq<Layer>, t: u16, v: View) returns (r: View)
    requires Enabled(opts) && Stack(opts, ls, t)
    ensures Parse(opts, Encode(ls), t, false, v) == Parsed(r) && Shows(r, v, ls)
    decreases |ls|, 1
  {
    hide Encode, KindsOf, FromModel, PortMatches, Frame, AfterNetwork, ParseMPLS, ParseIPv4, ParseIPv6;
    if t == MPLS || t == 0x8848 {
      var v', inner := LabelsRead(opts, ls, t, v);
      r := StackShows(opts, inner, TypeOfIP(inner[0]), v');
    } else {
      hide Parse;
      match ls[0].proto {
        case 6 => r := TcpShows(opts, ls, v);
        case 17 =>
          if PortMatches(UdpTuple(ls[0], ls[1]), opts.vxlanPorts, 4789) { r := VxlanShows(opts, ls, v); }
            else { r := UdpShows(opts, ls, v); }
        case 47 => r := GreShows(opts, ls, v);
        case _ => r := IPIPShows(opts, ls, v);
      }
    }
  }

  /** A whole frame, whether the header protocol says Ethernet or nothing. */
  lemma FrameRoundTrip(opts: Options, ls: seq<Layer>, protocol: u32) returns (r: View)
    requires Enabled(opts) && Frame(opts, ls) && protocol != 11 && protocol != 12
    ensures ParsePacketView(opts, Encode(ls), protocol) == Parsed(r)
    ensures r.seen == FromModel(Seen([], [], []), ls) && r.kinds == KindsOf(ls)
  {
    hide Encode, KindsOf, FromModel, Parse, Stack, Enabled, Frame;
    var v', inner, t := EthernetReads(opts, ls, NoView(), true);
    StackNotEmpty(opts, inner, t);
    FrameSize(opts, ls);
    r := StackShows(opts, inner, t, v');
    Empty(KindsOf(ls));
  }

  lemma StackNotEmpty(opts: Options, ls: seq<Layer>, t: u16)
    requires Stack(opts, ls, t)
    ensures Encode(ls) != []
  {
  }

  lemma FrameSize(opts: Options, ls: seq<Layer>)
    requires Frame(opts, ls)
    ensures |Encode(ls)| >= 14
  {
  }

  /** A packet that starts at its IP layer. */
  lemma IPRoundTrip(opts: Options, ls: seq<Layer>) returns (r: View)
    requires Enabled(opts) && ls != [] && IsIP(ls[0]) && Stack(opts, ls, TypeOfIP(ls[0]))
    ensures ParsePacketView(opts, Encode(ls), if ls[0].IPv4? then 11 else 12) == Parsed(r)
    ensures r.seen == FromModel(Seen([], [], []), ls) && r.kinds == KindsOf(ls)
  {
    hide Encode, KindsOf, FromModel, Stack, Enabled, Carries, AfterNetwork, ParseIPv4, ParseIPv6;
    StackNotEmpty(opts, ls, TypeOfIP(ls[0]));
    r := StackShows(opts, ls, TypeOfIP(ls[0]), NoView());
    DirectOrNot(opts, ls, NoView());
    Empty(KindsOf(ls));
  }

  lemma DirectOrNot(opts: Options, ls: seq<Layer>, v: View)
    requires ls != [] && IsIP(ls[0]) && Stack(opts, ls, TypeOfIP(ls[0]))
    ensures Parse(opts, Encode(ls), TypeOfIP(ls[0]), true, v) == Parse(opts, Encode(ls), TypeOfIP(ls[0]), false, v)
  {
    hide WithTransport, Prepend, AfterNetwork, ParseIPv4, ParseIPv6;
    NetworkReads(ls[0], Encode(ls[1..]), Head(ls[1..]));
  }
}

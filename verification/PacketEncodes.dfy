/** The headers the packet encoder writes are the ones their formats ask for. */
module PacketEncodes {
  import opened Bytes
  import opened Wire
  import W = PacketWire
  import opened PacketLayers
  import C = ChainReads
  import L = LayerChain

  // ---------- one header each ----------

  function V4Of(l: Layer, size: nat): W.V4Header
    requires l.IPv4?
  {
    W.V4Header(l.dscp as int * 4 % 256 + l.ecn % 4, size % 65536, l.identification, l.flags % 8, l.fragment % 8192,
               if l.ttl == 0 then 64 else l.ttl, 0, l.src, l.dst, [])
  }

  function V6Of(l: Layer, size: nat): W.V6Header
    requires l.IPv6?
  {
    W.V6Header(l.trafficClass, l.flowLabel, size % 65536, if l.hopLimit == 0 then 64 else l.hopLimit, l.src, l.dst)
  }

  function PortsOf(l: Layer, size: nat): W.Ports
    requires l.Udp?
  {
    W.Ports(l.srcPort, l.dstPort, size % 65536, 0)
  }

  function TcpOf(l: Layer, rest: bytes): W.Body
    requires l.Tcp?
  {
    W.Tcp(l.srcPort, l.dstPort, l.seqNo, l.ack, 80, l.tcpFlags, if l.window == 0 then 65535 else l.window, 0, 0, rest)
  }

  lemma FlagsFit(flags: u8, fragment: u16)
    ensures flags % 8 * 8192 + fragment % 8192 < 65536
  {
  }

  lemma V4Header(l: Layer, size: nat)
    requires l.IPv4? && |l.src| == 4 && |l.dst| == 4
    ensures IPv4Header(l, size) == W.V4Octets(V4Of(l, size), l.proto)
  {
    hide U16, W16;
    FlagsFit(l.flags, l.fragment);
    WordsAreBigEndian(size % 65536, 0);
    WordsAreBigEndian(l.identification, 0);
    WordsAreBigEndian(l.flags % 8 * 8192 + l.fragment % 8192, 0);
    ZeroWord();
    var a := [69, V4Of(l, size).tos] + W16(size % 65536) + W16(l.identification)
             + W16(l.flags % 8 * 8192 + l.fragment % 8192);
    var ttl: u8 := if l.ttl == 0 then 64 else l.ttl;
    assert a + [ttl, l.proto, 0, 0] == a + [ttl, l.proto] + [0, 0];
    Empty(a + [ttl, l.proto] + [0, 0] + l.src + l.dst);
  }

  lemma V4Written(l: Layer, payload: bytes, next: Option<Layer>)
    requires l.IPv4? && |l.src| == 4 && |l.dst| == 4
    ensures Prepend(l, payload, next) == W.V4Octets(V4Of(l, 20 + |payload|), l.proto) + payload
  {
    hide IPv4Header, W.V4Octets;
    V4Header(l, 20 + |payload|);
  }

  lemma ZeroWord()
    ensures W16(0) == [0, 0]
  {
  }

  lemma V6Written(l: Layer, payload: bytes, next: Option<Layer>)
    requires l.IPv6? && |l.src| == 16 && |l.dst| == 16
    ensures Prepend(l, payload, next) == W.V6Octets(V6Of(l, |payload|), l.proto) + payload
  {
    WordsAreBigEndian(|payload| % 65536, 0);
    assert W16(l.flowLabel) == [l.flowLabel / 256 % 256, l.flowLabel % 256];
    assert IPv6Header(l, |payload|) == W.V6Octets(V6Of(l, |payload|), l.proto);
  }

  lemma UdpWritten(l: Layer, payload: bytes, next: Option<Layer>)
    requires l.Udp?
    ensures Prepend(l, payload, next) == W.PortsOctets(PortsOf(l, 8 + |payload|)) + payload
  {
    WordsAreBigEndian(l.srcPort, 0);
    WordsAreBigEndian(l.dstPort, 0);
    WordsAreBigEndian((8 + |payload|) % 65536, 0);
    hide U16, W16;
    ZeroWord();
  }

  lemma TcpWritten(l: Layer, payload: bytes, next: Option<Layer>)
    requires l.Tcp?
    ensures Prepend(l, payload, next) == W.BodyOctets(TcpOf(l, payload))
  {
    hide U16, W16, U32, W32;
    var window: u16 := if l.window == 0 then 65535 else l.window;
    WordsAreBigEndian(l.srcPort, l.seqNo);
    WordsAreBigEndian(l.dstPort, l.ack);
    WordsAreBigEndian(window, 0);
    ZeroWord();
    var a, c, d := W16(l.srcPort) + W16(l.dstPort), W32(l.seqNo) + W32(l.ack), [80, l.tcpFlags];
    Assoc(a, W32(l.seqNo), W32(l.ack));
    assert W16(window) + [0, 0] + [0, 0] == W16(window) + [0, 0, 0, 0];
    Assoc(a + c + d, W16(window), [0, 0, 0, 0]);
  }

  lemma LabelWords(l: Layer)
    requires l.Mpls? && l.value < 1048576 && l.tc < 8
    ensures LabelWord(l.value, l.tc, l.bos, l.ttl) == W.LabelWord(W.Label(l.value, l.tc, l.ttl), l.bos)
  {
    Small(l.value, 1048576);
    Small(l.tc, 8);
  }

  lemma Small(n: nat, m: nat)
    requires n < m
    ensures n % m == n
  {
  }

  lemma LabelWritten(l: Layer, payload: bytes, next: Option<Layer>)
    requires l.Mpls? && l.value < 1048576 && l.tc < 8
    ensures Prepend(l, payload, next) == W32(W.LabelWord(W.Label(l.value, l.tc, l.ttl), l.bos)) + payload
  {
    hide LabelWord, W.LabelWord, U32, W32;
    LabelWords(l);
    WordsAreBigEndian(0, LabelWord(l.value, l.tc, l.bos, l.ttl));
  }

  lemma ControlWords(l: Layer)
    requires l.Dot1q? && l.id < 4096 && l.pcp < 8
    ensures Tci(l.id, l.pcp, l.dei) == l.pcp as int * 8192 + (if l.dei then 4096 else 0) + l.id as int
  {
    Small(l.id, 4096);
    Small(l.pcp, 8);
  }

  lemma TagWritten(l: Layer, payload: bytes, next: Option<Layer>)
    requires l.Dot1q? && l.id < 4096 && l.pcp < 8
    ensures Prepend(l, payload, next)
            == W16(l.pcp as int * 8192 + (if l.dei then 4096 else 0) + l.id as int)
               + W16(InferLayerEtherType(0, next, payload)) + payload
  {
    hide Tci, U16, W16, InferLayerEtherType;
    ControlWords(l);
    WordsAreBigEndian(Tci(l.id, l.pcp, l.dei), 0);
    WordsAreBigEndian(InferLayerEtherType(0, next, payload), 0);
  }

  lemma EthernetWritten(l: Layer, payload: bytes, next: Option<Layer>)
    requires l.Ethernet? && |l.dstMAC| == 6 && |l.srcMAC| == 6
    ensures Prepend(l, payload, next)
            == l.dstMAC + l.srcMAC + W16(InferLayerEtherType(l.etherType, next, payload)) + payload
  {
    WordsAreBigEndian(InferLayerEtherType(l.etherType, next, payload), 0);
  }

  function Zero4(present: bool): Option<bytes>
  {
    if present then Some([0, 0, 0, 0]) else None
  }

  lemma GreWritten(l: Layer, payload: bytes, next: Option<Layer>)
    requires l.Gre?
    ensures Prepend(l, payload, next)
            == W.GreHead(Zero4(l.checksum), Zero4(l.hasKey), Zero4(l.sequence), 0, l.protocol) + payload
  {
    WordsAreBigEndian(GreFlags(l), 0);
    WordsAreBigEndian(l.protocol, 0);
    var c, k, s := Zero4(l.checksum), Zero4(l.hasKey), Zero4(l.sequence);
    var fields := W.FieldOctets(c) + W.FieldOctets(k) + W.FieldOctets(s);
    assert fields == Zeros(GreSize(l) - 4);
  }

  /** VXLAN with its flag set, Geneve without options, PPPoE session data, ICMP without content. */
  lemma TunnelsWritten(l: Layer, payload: bytes, next: Option<Layer>)
    ensures l.Vxlan? ==>
              Prepend(l, payload, next)
              == [8, 0, 0, 0, l.vni / 65536 % 256, l.vni / 256 % 256, l.vni % 256, 0] + payload
    ensures l.Geneve? ==>
              Prepend(l, payload, next)
              == [0, 0] + W16(l.protocol) + [l.vni / 65536 % 256, l.vni / 256 % 256, l.vni % 256, 0] + payload
    ensures l.Pppoe? ==>
              Prepend(l, payload, next) == W.PppoeHead(l.session, (|payload| + 2) % 65536, l.pppProtocol) + payload
    ensures l.Icmp? ==> Prepend(l, payload, next) == [l.icmpType, l.code, 0, 0, 0, 0, 0, 0] + payload
  {
    if l.Geneve? { WordsAreBigEndian(l.protocol, 0); }
    if l.Pppoe? {
      WordsAreBigEndian(l.session, 0);
      WordsAreBigEndian((|payload| + 2) % 65536, 0);
      WordsAreBigEndian(l.pppProtocol, 0);
    }
  }

  // ---------- plain stacks ----------

  predicate IsTag(l: Layer)
  {
    l.Dot1q? && l.id < 4096 && l.pcp < 8 && (l.tpid == 0 || l.tpid == 0x8100)
  }

  predicate IsLabel(l: Layer)
  {
    l.Mpls? && l.value < 1048576 && l.tc < 8
  }

  predicate IsNetwork(l: Layer)
  {
    || (l.IPv4? && |l.src| == 4 && |l.dst| == 4 && l.dscp < 64 && l.ecn < 4 && l.flags < 8 && l.fragment < 8192)
    || (l.IPv6? && |l.src| == 16 && |l.dst| == 16 && l.flowLabel < 1048576)
  }

  /** Ethernet, tags, labels of which only the last has its bottom bit, IP, TCP or UDP, payload. */
  datatype Stack = Stack(ethernet: Layer, tags: seq<Layer>, labels: seq<Layer>, ip: Layer, transport: Layer,
                         tail: seq<Layer>)

  predicate StackOk(s: Stack)
  {
    && s.ethernet.Ethernet? && |s.ethernet.dstMAC| == 6 && |s.ethernet.srcMAC| == 6 && s.ethernet.etherType == 0
    && (forall i :: 0 <= i < |s.tags| ==> IsTag(s.tags[i]))
    && LabelsOk(s.labels) && IsNetwork(s.ip)
    && (if s.ip.proto == 6 then s.transport.Tcp? else s.ip.proto == 17 && s.transport.Udp?)
  }

  predicate LabelsOk(ls: seq<Layer>)
  {
    forall i :: 0 <= i < |ls| ==>
      IsLabel(ls[i]) && (ls[i].bos <==> i == |ls| - 1) && (i < |ls| - 1 ==> ls[i].value > 15)
  }

  function LayersOf(s: Stack): seq<Layer>
  {
    [s.ethernet] + (s.tags + (s.labels + ([s.ip, s.transport] + s.tail)))
  }

  function TagOf(l: Layer): W.Tag
    requires l.Dot1q?
  {
    W.Tag(false, l.pcp, l.dei, l.id)
  }

  function TagsOf(ls: seq<Layer>): (r: seq<W.Tag>)
    requires forall i :: 0 <= i < |ls| ==> IsTag(ls[i])
    ensures |r| == |ls|
  {
    if ls == [] then [] else assert IsTag(ls[0]); [TagOf(ls[0])] + TagsOf(ls[1..])
  }

  function LabelsOf(ls: seq<Layer>): (r: seq<W.Label>)
    requires forall i :: 0 <= i < |ls| ==> IsLabel(ls[i])
    ensures |r| == |ls|
  {
    if ls == [] then []
    else assert IsLabel(ls[0]); [W.Label(ls[0].value, ls[0].tc, ls[0].ttl)] + LabelsOf(ls[1..])
  }

  function BodyOf(l: Layer, rest: bytes): W.Body
    requires l.Tcp? || l.Udp?
  {
    if l.Tcp? then TcpOf(l, rest) else W.Udp(PortsOf(l, 8 + |rest|), rest)
  }

  function IpOf(ip: Layer, transport: Layer, tail: seq<Layer>): W.Ip
    requires IsNetwork(ip) && (transport.Tcp? || transport.Udp?)
  {
    var b := BodyOf(transport, Encode(tail));
    var size := |Encode([transport] + tail)|;
    if ip.IPv4? then W.V4(V4Of(ip, 20 + size), b) else W.V6(V6Of(ip, size), [], b)
  }

  /** The stack as a frame of its fields. */
  function FrameOf(s: Stack): W.Frame
    requires StackOk(s)
  {
    var ip := IpOf(s.ip, s.transport, s.tail);
    W.Frame(s.ethernet.dstMAC, s.ethernet.srcMAC, TagsOf(s.tags),
            if s.labels == [] then W.Direct(ip) else W.Labelled(false, LabelsOf(s.labels), ip))
  }

  lemma TransportEncoded(l: Layer, tail: seq<Layer>)
    requires l.Tcp? || l.Udp?
    ensures Encode([l] + tail) == W.BodyOctets(BodyOf(l, Encode(tail)))
  {
    hide Prepend;
    assert ([l] + tail)[1..] == tail;
    if l.Tcp? { TcpWritten(l, Encode(tail), Head(tail)); } else { UdpWritten(l, Encode(tail), Head(tail)); }
  }

  lemma IpEncoded(ip: Layer, l: Layer, tail: seq<Layer>)
    requires IsNetwork(ip) && (if ip.proto == 6 then l.Tcp? else ip.proto == 17 && l.Udp?)
    ensures W.IpOk(IpOf(ip, l, tail)) && Encode([ip, l] + tail) == W.IpOctets(IpOf(ip, l, tail))
  {
    hide Prepend, W.BodyOctets, W.V4Octets, W.V6Octets;
    TransportEncoded(l, tail);
    var payload := Encode([l] + tail);
    assert ([ip, l] + tail)[1..] == [l] + tail;
    if ip.IPv4? {
      V4Written(ip, payload, Some(l));
    } else {
      V6Written(ip, payload, Some(l));
      Empty(W.V6Octets(V6Of(ip, |payload|), ip.proto));
    }
  }

  lemma {:induction false} LabelsEncoded(ls: seq<Layer>, rest: seq<Layer>)
    requires LabelsOk(ls)
    ensures Encode(ls + rest) == W.LabelsOctets(LabelsOf(ls)) + Encode(rest)
    decreases |ls|
  {
    hide Prepend, W32, W.LabelWord;
    if ls == [] {
      Empty(rest);
      Empty(Encode(rest));
    } else {
      assert (ls + rest)[1..] == ls[1..] + rest;
      assert LabelsOf(ls)[1..] == LabelsOf(ls[1..]);
      LabelsEncoded(ls[1..], rest);
      LabelWritten(ls[0], Encode(ls[1..] + rest), Head(ls[1..] + rest));
      Assoc(W32(W.LabelWord(LabelsOf(ls)[0], ls[0].bos)), W.LabelsOctets(LabelsOf(ls[1..])), Encode(rest));
    }
  }

  /** The type that announces a layer. */
  lemma TypeOfNext(ls: seq<Layer>)
    requires ls != [] && (IsTag(ls[0]) || ls[0].Mpls? || ls[0].IPv4? || ls[0].IPv6?)
    ensures InferLayerEtherType(0, Head(ls), Encode(ls))
            == if ls[0].Dot1q? then 0x8100 else if ls[0].Mpls? then 0x8847 else if ls[0].IPv4? then 0x0800 else 0x86dd
  {
    hide Encode;
  }

  function TypeOf(ls: seq<Layer>): u16
    requires ls != []
  {
    if ls[0].Dot1q? then 0x8100 else if ls[0].Mpls? then 0x8847 else if ls[0].IPv4? then 0x0800 else 0x86dd
  }

  /** A type and the tags after it, up to the type of what follows them. */
  lemma {:induction false} TagsEncoded(ts: seq<Layer>, rest: seq<Layer>)
    requires (forall i :: 0 <= i < |ts| ==> IsTag(ts[i]))
    requires rest != [] && (rest[0].Mpls? || rest[0].IPv4? || rest[0].IPv6?)
    ensures W16(TypeOf(ts + rest)) + Encode(ts + rest)
            == W.TagsOctets(TagsOf(ts)) + W16(TypeOf(rest)) + Encode(rest)
    decreases |ts|
  {
    hide Prepend, W16, InferLayerEtherType;
    if ts == [] {
      Empty(rest);
      Empty(W16(TypeOf(rest)));
    } else {
      var more := ts[1..] + rest;
      assert (ts + rest)[1..] == more;
      assert TagsOf(ts)[1..] == TagsOf(ts[1..]);
      TagsEncoded(ts[1..], rest);
      TypeOfNext(more);
      TagWritten(ts[0], Encode(more), Head(more));
      var w := W16(ts[0].pcp as int * 8192 + (if ts[0].dei then 4096 else 0) + ts[0].id as int);
      var a, b := W16(0x8100), W.TagsOctets(TagsOf(ts[1..]));
      Assoc(w, W16(TypeOf(more)), Encode(more));
      Assoc(a, w, W16(TypeOf(more)) + Encode(more));
      Assoc(a + w, b + W16(TypeOf(rest)), Encode(rest));
      Assoc(a + w, b, W16(TypeOf(rest)));
    }
  }

  /** Every plain stack is encoded to the octets of its frame. */
  lemma StackEncoded(s: Stack)
    requires StackOk(s)
    ensures W.FrameOk(FrameOf(s)) && Encode(LayersOf(s)) == W.FrameOctets(FrameOf(s))
  {
    hide Prepend, W16, W.TagsOctets, W.LabelsOctets, W.IpOctets, W.IpOk, IpOf, InferLayerEtherType;
    var ip := IpOf(s.ip, s.transport, s.tail);
    var inner := [s.ip, s.transport] + s.tail;
    var net := s.labels + inner;
    var all := s.tags + net;
    IpEncoded(s.ip, s.transport, s.tail);
    LabelsEncoded(s.labels, inner);
    assert LayersOf(s)[1..] == all;
    if s.labels == [] { Empty(inner); }
    TagsEncoded(s.tags, net);
    if s.tags == [] { Empty(net); }
    TypeOfNext(all);
    EthernetWritten(s.ethernet, Encode(all), Head(all));
    PiecesOk(s);
    NetEncoded(s, ip);
    ExplicitZero(all);
    Assoc(s.ethernet.dstMAC + s.ethernet.srcMAC, W16(TypeOf(all)), Encode(all));
    Assoc(s.ethernet.dstMAC + s.ethernet.srcMAC, W.TagsOctets(TagsOf(s.tags)) + W16(TypeOf(net)), Encode(net));
  }

  lemma ExplicitZero(ls: seq<Layer>)
    requires ls != [] && (IsTag(ls[0]) || ls[0].Mpls? || ls[0].IPv4? || ls[0].IPv6?)
    ensures InferLayerEtherType(0, Head(ls), Encode(ls)) == TypeOf(ls)
  {
    hide Encode, InferLayerEtherType;
    TypeOfNext(ls);
  }

  lemma NetEncoded(s: Stack, ip: W.Ip)
    requires StackOk(s) && ip == IpOf(s.ip, s.transport, s.tail) && W.IpOk(ip)
    requires Encode([s.ip, s.transport] + s.tail) == W.IpOctets(ip)
    requires W.NetOk(FrameOf(s).net)
    ensures W.NetOctets(FrameOf(s).net) == Encode(s.labels + ([s.ip, s.transport] + s.tail))
    ensures W.EtherTypeOf(FrameOf(s).net) == TypeOf(s.labels + ([s.ip, s.transport] + s.tail))
  {
    hide W.LabelsOctets, W.IpOctets, W.IpOk, Encode;
    var inner := [s.ip, s.transport] + s.tail;
    LabelsEncoded(s.labels, inner);
    if s.labels == [] { Empty(inner); }
  }

  lemma {:induction false} LabelsFine(ls: seq<Layer>)
    requires forall i :: 0 <= i < |ls| ==> IsLabel(ls[i])
    ensures forall i :: 0 <= i < |ls| ==>
              W.LabelOk(LabelsOf(ls)[i]) && LabelsOf(ls)[i] == W.Label(ls[i].value, ls[i].tc, ls[i].ttl)
  {
    if ls != [] { LabelsFine(ls[1..]); }
  }

  lemma {:induction false} TagsFine(ls: seq<Layer>)
    requires forall i :: 0 <= i < |ls| ==> IsTag(ls[i])
    ensures forall i :: 0 <= i < |ls| ==> W.TagOk(TagsOf(ls)[i]) && TagsOf(ls)[i] == TagOf(ls[i])
  {
    if ls != [] { TagsFine(ls[1..]); }
  }

  lemma PiecesOk(s: Stack)
    requires StackOk(s) && W.IpOk(IpOf(s.ip, s.transport, s.tail))
    ensures W.FrameOk(FrameOf(s)) && W.NetOk(FrameOf(s).net)
  {
    hide W.IpOk, IpOf;
    LabelsFine(s.labels);
    TagsFine(s.tags);
  }

  /** So the chain of layer parsers, on an encoded stack, ends and shows the stack's own fields. */
  lemma StackIsCarried(s: Stack, m: L.Message) returns (end: L.State)
    requires StackOk(s) && m.stack == [] && m.sizes == []
    ensures L.Run(C.DEFAULT, Encode(LayersOf(s)), L.Begin(m)) == Some(end)
    ensures var f := FrameOf(s);
            && C.FrameFollowed(f) && C.Plain(f)
            && end.message == L.Message(C.Filled(m.outer, false, C.FrameLays(f)), C.IcmpOf(m.icmp, C.FrameLays(f)),
                                        C.ParsersOf(C.FrameLays(f)), C.SizesOf(C.FrameLays(f)))
  {
    hide L.Run, Encode, C.Filled, C.FrameLays, C.IcmpOf, C.ParsersOf, C.SizesOf;
    StackEncoded(s);
    IsPlain(s);
    end := C.FrameIsCarried(FrameOf(s), m);
  }

  lemma IsPlain(s: Stack)
    requires StackOk(s)
    ensures C.FrameFollowed(FrameOf(s)) && C.Plain(FrameOf(s))
  {
    hide Encode;
    LabelsFine(s.labels);
    TagsFine(s.tags);
    assert C.TagsOk(TagsOf(s.tags));
    var ls := LabelsOf(s.labels);
    forall i | 0 <= i < |ls| ensures W.LabelOk(ls[i]) && (i < |ls| - 1 ==> ls[i].value > 15) {
      assert IsLabel(s.labels[i]);
    }
    assert C.IpFollowed(IpOf(s.ip, s.transport, s.tail));
  }
}

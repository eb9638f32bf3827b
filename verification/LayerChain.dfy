/** The producer's packet parser: a chain of layer parsers, each naming the next and filling in the flow message. */
module LayerChain {
  import opened Bytes

  /** `Stop` is the empty parser a layer returns when it cannot go on, `NoParser` the answer of a failed lookup. */
  datatype Parser =
    | Stop | NoParser | Ethernet | Dot1q | Mpls | IPv4 | IPv6 | Routing | Fragment | Tcp | Udp | Icmp | Icmpv6 | Gre
    | Teredo | Geneve

  function LayerIndex(p: Parser): nat
  {
    match p
    case Stop => 0
    case NoParser => 100
    case Ethernet => 20
    case Dot1q => 25
    case Mpls => 25
    case IPv4 => 30
    case IPv6 => 30
    case Routing => 35
    case Fragment => 35
    case Icmp => 70
    case Icmpv6 => 70
    case _ => 40
  }

  predicate EncapSkip(p: Parser)
  {
    p == Dot1q || p == Mpls || p == Fragment
  }

  /** What the outermost layers say of a packet. */
  datatype Outer = Outer(
    srcMac: bytes, dstMac: bytes, etype: u16, vlan: u16, labels: seq<u32>, ttls: seq<u8>,
    src: bytes, dst: bytes, proto: u8, tos: u8, ttl: u8, flowLabel: u32, fragmentId: u32, fragmentOffset: u16,
      ipFlags: u8,
    srcPort: u16, dstPort: u16, tcpFlags: u8, segmentsLeft: u8, segments: seq<bytes>)

  datatype Message = Message(outer: Outer, icmp: Option<(u8, u8)>, stack: seq<Parser>, sizes: seq<nat>)

  /** Parsers registered for ports, by destination and by source. */
  datatype Ports = Ports(dst: map<u16, Parser>, src: map<u16, Parser>)

  /** Every registration: by EtherType, by protocol and by TCP and UDP port. */
  datatype Environment = Environment(etypes: map<u16, Parser>, protos: map<u8, Parser>, tcp: Ports, udp: Ports)

  function NextEtype(env: Environment, t: u16): Parser
  {
    if t in env.etypes then env.etypes[t]
    else
      match t
      case 0x199e => Ethernet
      case 0x6558 => Ethernet
      case 0x8847 => Mpls
      case 0x8100 => Dot1q
      case 0x0800 => IPv4
      case 0x86dd => IPv6
      case _ => NoParser
  }

  function NextProto(env: Environment, proto: u8): Parser
  {
    if proto in env.protos then env.protos[proto]
    else
      match proto
      case 1 => Icmp
      case 4 => IPv4
      case 6 => Tcp
      case 17 => Udp
      case 41 => IPv6
      case 43 => Routing
      case 44 => Fragment
      case 47 => Gre
      case 58 => Icmpv6
      case _ => NoParser
  }

  function NextPort(ports: Ports, src: u16, dst: u16): Parser
  {
    if dst in ports.dst then ports.dst[dst] else if src in ports.src then ports.src[src] else NoParser
  }

  /** One layer: whether it was long enough to be named, its size, the parser after it and what it fills in. */
  datatype Layer = Layer(named: bool, size: nat, next: Parser, outer: Outer, icmp: Option<(u8, u8)>)

  function Short(m: Message): Layer
  {
    Layer(false, 0, Stop, m.outer, m.icmp)
  }

  function Found(m: Message, size: nat, next: Parser, base: bool, outer: Outer): Layer
  {
    Layer(true, size, next, if base then outer else m.outer, m.icmp)
  }

  datatype Labels = Labels(labels: seq<u32>, ttls: seq<u8>, used: nat, etype: Option<u16>)

  /** A label stack up to the bottom bit or a reserved label, and the version of what follows it. */
  function ReadLabels(data: bytes, at: nat): (r: Labels)
    requires at <= |data|
    ensures at <= r.used <= |data|
    decreases |data| - at
  {
    if |data| < at + 4 then Labels([], [], at, None)
    else
      var label_ := data[at] as int * 0x1000 + data[at + 1] as int * 0x10 + data[at + 2] as int / 16;
      if data[at + 2] % 2 == 1 || label_ <= 15 then
        var t := if |data| <= at + 4 then None
                 else if data[at + 4] / 16 == 4 then Some(0x0800)
                 else if data[at + 4] / 16 == 6 then Some(0x86dd)
                 else None;
        Labels([label_], [data[at + 3]], at + 4, t)
      else
        var rest := ReadLabels(data, at + 4);
        Labels([label_] + rest.labels, [data[at + 3]] + rest.ttls, rest.used, rest.etype)
  }

  /** The segments of a segment routing header that were captured. */
  function ReadSegments(data: bytes, size: nat, last: u8, entry: nat): seq<bytes>
    decreases |data| - 16 * entry
  {
    var at := 8 + 16 * entry;
    if at < size && at + 16 <= |data| && entry <= last
      then [data[at..at + 16]] + ReadSegments(data, size, last, entry + 1) else []
  }

  function ParseEthernet(env: Environment, m: Message, d: bytes, base: bool): Layer
  {
    if |d| < 14 then Short(m)
    else
      var t := HeadU16(d[12..]);
      Found(m, 14, NextEtype(env, t), base, m.outer.(dstMac := d[..6], srcMac := d[6..12], etype := t))
  }

  function ParseDot1q(env: Environment, m: Message, d: bytes, base: bool): Layer
  {
    if |d| < 4 then Short(m)
    else
      var t := HeadU16(d[2..]);
      Found(m, 4, NextEtype(env, t), base, m.outer.(vlan := HeadU16(d), etype := t))
  }

  function ParseMpls(env: Environment, m: Message, d: bytes, base: bool): Layer
  {
    if |d| < 4 then Short(m)
    else
      var r := ReadLabels(d, 0);
      var o := m.outer.(labels := r.labels, ttls := r.ttls);
      if r.etype.Some? then Found(m, r.used, NextEtype(env, r.etype.value), base, o.(etype := r.etype.value))
      else Found(m, r.used, Stop, base, o)
  }

  function ParseIPv4(env: Environment, m: Message, d: bytes, base: bool): Layer
  {
    if |d| < 20 then Short(m)
    else
      var fragment := HeadU16(d[6..]);
      Found(m, 20, NextProto(env, d[9]), base,
            m.outer.(src := d[12..16], dst := d[16..20], tos := d[1], ttl := d[8], fragmentId := HeadU16(d[4..]),
                     fragmentOffset := fragment % 0x2000, ipFlags := fragment / 0x2000, proto := d[9]))
  }

  function ParseIPv6(env: Environment, m: Message, d: bytes, base: bool): Layer
  {
    if |d| < 40 then Short(m)
    else
      Found(m, 40, NextProto(env, d[6]), base,
            m.outer.(src := d[8..24], dst := d[24..40], tos := HeadU16(d) % 0x1000 / 16, ttl := d[7],
                     flowLabel := HeadU32(d) % 0x10_0000, proto := d[6]))
  }

  function ParseFragment(env: Environment, m: Message, d: bytes, base: bool): Layer
  {
    if |d| < 8 then Short(m)
    else
      var fragment := HeadU16(d[2..]);
      Found(m, 8, NextProto(env, d[0]), base,
            m.outer.(fragmentId := HeadU32(d[4..]), fragmentOffset := fragment / 8, ipFlags := fragment % 8))
  }

  function ParseRouting(env: Environment, m: Message, d: bytes, base: bool): Layer
  {
    if |d| < 8 then Short(m)
    else
      var size := 8 + 8 * d[1] as int;
      var o := m.outer.(segmentsLeft := d[3]);
      Found(m, size, NextProto(env, d[0]), base,
            if d[2] == 4 then o.(segments := o.segments + ReadSegments(d, size, d[4], 0)) else o)
  }

  function ParseTcp(env: Environment, m: Message, d: bytes, base: bool): Layer
  {
    if |d| < 20 then Short(m)
    else
      var src, dst := HeadU16(d), HeadU16(d[2..]);
      Found(m, d[12] / 16 * 4, NextPort(env.tcp, src, dst), base,
            m.outer.(srcPort := src, dstPort := dst, tcpFlags := d[13]))
  }

  function ParseUdp(env: Environment, m: Message, d: bytes, base: bool): Layer
  {
    if |d| < 8 then Short(m)
    else
      var src, dst := HeadU16(d), HeadU16(d[2..]);
      Found(m, 8, NextPort(env.udp, src, dst), base, m.outer.(srcPort := src, dstPort := dst))
  }

  function ParseGre(env: Environment, m: Message, d: bytes): Layer
  {
    if |d| < 4 then Short(m) else Found(m, 4, NextEtype(env, HeadU16(d[2..])), false, m.outer)
  }

  function ParseGeneve(env: Environment, m: Message, d: bytes): Layer
  {
    if |d| < 8 then Short(m) else Found(m, d[0] as int % 0x40 * 4 + 8, NextEtype(env, HeadU16(d[2..])), false, m.outer)
  }

  /** Only the first ICMP layer of each kind is kept. */
  function ParseIcmp(m: Message, d: bytes, calls: nat): Layer
  {
    if |d| < 2 then Short(m)
    else Layer(true, 8, Stop, m.outer, if calls == 0 then Some((d[0], d[1])) else m.icmp)
  }

  function ParseLayer(env: Environment, p: Parser, m: Message, d: bytes, base: bool, calls: nat): Layer
    requires p != Stop && p != NoParser
  {
    match p
    case Ethernet => ParseEthernet(env, m, d, base)
    case Dot1q => ParseDot1q(env, m, d, base)
    case Mpls => ParseMpls(env, m, d, base)
    case IPv4 => ParseIPv4(env, m, d, base)
    case IPv6 => ParseIPv6(env, m, d, base)
    case Routing => ParseRouting(env, m, d, base)
    case Fragment => ParseFragment(env, m, d, base)
    case Tcp => ParseTcp(env, m, d, base)
    case Udp => ParseUdp(env, m, d, base)
    case Icmp => ParseIcmp(m, d, calls)
    case Icmpv6 => ParseIcmp(m, d, calls)
    case Gre => ParseGre(env, m, d)
    case Teredo => Layer(true, 0, IPv6, m.outer, m.icmp)
    case Geneve => ParseGeneve(env, m, d)
  }

  // ---------- the chain ----------

  datatype State = State(message: Message, parser: Parser, offset: nat, encapsulated: bool, calls: map<Parser, nat>)

  function Calls(s: State): nat
  {
    if s.parser in s.calls then s.calls[s.parser] else 0
  }

  predicate Active(data: bytes, s: State)
  {
    s.parser != Stop && s.parser != NoParser && |data| >= s.offset
  }

  function Advance(env: Environment, data: bytes, s: State): State
    requires Active(data, s)
  {
    var r := ParseLayer(env, s.parser, s.message, data[s.offset..], !s.encapsulated, Calls(s));
    var m := Message(r.outer, r.icmp, if r.named then s.message.stack + [s.parser] else s.message.stack,
                     s.message.sizes + [r.size]);
    State(m, r.next, s.offset + r.size,
          s.encapsulated || (!EncapSkip(r.next) && LayerIndex(r.next) <= LayerIndex(s.parser)),
          s.calls[s.parser := Calls(s) + 1])
  }

  /** How long a chain can go on without consuming anything: a TCP header may claim no length, Teredo has none. */
  function Rank(p: Parser): nat
  {
    match p
    case Stop => 0
    case NoParser => 0
    case Tcp => 3
    case Teredo => 2
    case _ => 1
  }

  function Left(data: bytes, s: State): nat
  {
    if s.offset <= |data| then |data| - s.offset + 1 else 0
  }

  /** A TCP header that claims no length, on ports registered for the TCP parser itself. */
  predicate LeadsBack(env: Environment, d: bytes)
  {
    |d| >= 20 && d[12] / 16 == 0 && NextPort(env.tcp, HeadU16(d), HeadU16(d[2..])) == Tcp
  }

  predicate Loops(env: Environment, data: bytes, s: State)
  {
    s.parser == Tcp && s.offset <= |data| && LeadsBack(env, data[s.offset..])
  }

  /** Every other layer consumes octets or lowers the rank. */
  lemma Progress(env: Environment, data: bytes, s: State)
    requires Active(data, s) && !Loops(env, data, s)
    ensures var s' := Advance(env, data, s);
            Left(data, s') < Left(data, s) || (Left(data, s') == Left(data, s) && Rank(s'.parser) < Rank(s.parser))
  {
    hide ParseLayer, Rank, LeadsBack;
    LayerProgress(env, s.parser, s.message, data[s.offset..], !s.encapsulated, Calls(s));
  }

  lemma LayerProgress(env: Environment, p: Parser, m: Message, d: bytes, base: bool, calls: nat)
    requires p != Stop && p != NoParser && !(p == Tcp && LeadsBack(env, d))
    ensures var r := ParseLayer(env, p, m, d, base, calls); r.size > 0 || Rank(r.next) < Rank(p)
  {
    hide NextEtype, NextProto, NextPort, ReadSegments;
    if p == Mpls && |d| >= 4 { LabelsProgress(d); }
  }

  lemma LabelsProgress(d: bytes)
    requires |d| >= 4
    ensures ReadLabels(d, 0).used >= 4
  {
  }

  /** Where the chain ends; None when it never does. */
  function Run(env: Environment, data: bytes, s: State): Option<State>
    decreases Left(data, s), Rank(s.parser)
  {
    if !Active(data, s) then Some(s)
    else if Loops(env, data, s) then None
    else Progress(env, data, s); Run(env, data, Advance(env, data, s))
  }

  function Begin(m: Message): State
  {
    State(m, Ethernet, 0, false, map[])
  }

  /** The states a chain goes through. */
  function After(env: Environment, data: bytes, s: State, n: nat): State
  {
    if n == 0 then s
    else
      var t := After(env, data, s, n - 1);
      if Active(data, t) then Advance(env, data, t) else t
  }

  lemma {:induction false} AfterAdd(env: Environment, data: bytes, s: State, n: nat, k: nat)
    ensures After(env, data, s, n + k) == After(env, data, After(env, data, s, n), k)
  {
    hide Advance, Active;
    if k > 0 { AfterAdd(env, data, s, n, k - 1); }
  }

  // ---------- when a chain ends ----------

  ghost predicate Ends(env: Environment, data: bytes, s: State)
  {
    exists n: nat :: !Active(data, After(env, data, s, n))
  }

  lemma LoopStays(env: Environment, data: bytes, s: State)
    requires Loops(env, data, s)
    ensures Active(data, s) && Loops(env, data, Advance(env, data, s))
  {
  }

  lemma {:induction false} LoopForever(env: Environment, data: bytes, s: State, n: nat)
    requires Loops(env, data, s)
    ensures Loops(env, data, After(env, data, s, n)) && Active(data, After(env, data, s, n))
  {
    hide Loops, Advance;
    if n > 0 { LoopForever(env, data, s, n - 1); }
    LoopStays(env, data, After(env, data, s, if n > 0 then n - 1 else 0));
    LoopStays(env, data, After(env, data, s, n));
  }

  lemma AfterOne(env: Environment, data: bytes, s: State)
    requires Active(data, s)
    ensures After(env, data, s, 1) == Advance(env, data, s)
  {
    hide Advance;
    assert After(env, data, s, 0) == s;
  }

  /** `Run` is where the steps of the chain lead, or there is a step from which they go round for ever. */
  lemma {:induction false} RunReached(env: Environment, data: bytes, s: State) returns (n: nat)
    ensures var t := After(env, data, s, n);
            match Run(env, data, s)
            case Some(end) => t == end && !Active(data, t)
            case None => Loops(env, data, t)
    decreases Left(data, s), Rank(s.parser)
  {
    hide Loops, Advance, Active, After, Rank;
    n := 0;
    AfterNone(env, data, s);
    if Active(data, s) && !Loops(env, data, s) {
      Progress(env, data, s);
      var k := RunReached(env, data, Advance(env, data, s));
      AfterOne(env, data, s);
      AfterAdd(env, data, s, 1, k);
      n := 1 + k;
    }
  }

  lemma AfterNone(env: Environment, data: bytes, s: State)
    ensures After(env, data, s, 0) == s
  {
  }

  /** Once ended, a chain stays where it is. */
  lemma {:induction false} EndStays(env: Environment, data: bytes, s: State, n: nat)
    requires !Active(data, s)
    ensures After(env, data, s, n) == s
  {
    if n > 0 { EndStays(env, data, s, n - 1); }
  }

  lemma LoopNeverEnds(env: Environment, data: bytes, s: State, k: nat, n: nat)
    requires Loops(env, data, After(env, data, s, k))
    ensures Active(data, After(env, data, s, n))
  {
    hide *;
    if n <= k {
      AfterAdd(env, data, s, n, k - n);
      LoopStays(env, data, After(env, data, s, k));
      if !Active(data, After(env, data, s, n)) { EndStays(env, data, After(env, data, s, n), k - n); }
    } else {
      AfterAdd(env, data, s, k, n - k);
      LoopForever(env, data, After(env, data, s, k), n - k);
    }
  }

  /** A chain ends if and only if it reaches no TCP header of length 0 on ports that lead back to the TCP parser. */
  lemma EndsUnlessLoops(env: Environment, data: bytes, s: State)
    ensures Ends(env, data, s) <==> forall n: nat :: !Loops(env, data, After(env, data, s, n))
    ensures Ends(env, data, s) <==> Run(env, data, s).Some?
  {
    hide After, Active, Loops, Run;
    var n := RunReached(env, data, s);
    if Ends(env, data, s) {
      var e: nat :| !Active(data, After(env, data, s, e));
      forall k: nat ensures !Loops(env, data, After(env, data, s, k)) {
        if Loops(env, data, After(env, data, s, k)) { LoopNeverEnds(env, data, s, k, e); }
      }
    }
  }

  // ---------- when every chain ends ----------

  /** Some pair of TCP ports leads back to the TCP parser. */
  ghost predicate TcpInTcp(env: Environment)
  {
    exists src: u16, dst: u16 :: NextPort(env.tcp, src, dst) == Tcp
  }

  /** An Ethernet frame with an IPv4 packet of a TCP header that claims no length. */
  function NoLength(src: u16, dst: u16): bytes
  {
    Zeros(12) + U16(0x0800) + (Zeros(9) + [6] + Zeros(10)) + (U16(src) + U16(dst) + Zeros(16))
  }

  lemma NoLengthIs(src: u16, dst: u16)
    ensures var data := NoLength(src, dst);
            && |data| == 54 && HeadU16(data[12..]) == 0x0800 && data[14..][9] == 6
            && HeadU16(data[34..]) == src && HeadU16(data[34..][2..]) == dst && data[34..][12] == 0
  {
    hide U16, HeadU16;
    var data := NoLength(src, dst);
    var ip, tcp := Zeros(9) + [6] + Zeros(10), U16(src) + U16(dst) + Zeros(16);
    assert data[12..] == U16(0x0800) + (ip + tcp);
    assert data[34..] == U16(src) + (U16(dst) + Zeros(16));
    ReadBackU16(0x0800, ip + tcp);
    ReadBackU16(src, U16(dst) + Zeros(16));
    ReadBackU16(dst, Zeros(16));
    assert data[34..][2..] == U16(dst) + Zeros(16);
  }

  /** Where the property fails: with such ports, this packet is never done. */
  lemma NeverEnds(env: Environment, m: Message, src: u16, dst: u16)
    requires NextEtype(env, 0x0800) == IPv4 && NextProto(env, 6) == Tcp && NextPort(env.tcp, src, dst) == Tcp
    ensures !Ends(env, NoLength(src, dst), Begin(m))
  {
    hide NextEtype, NextProto, NextPort, NoLength, HeadU16;
    var data, s := NoLength(src, dst), Begin(m);
    NoLengthIs(src, dst);
    AfterOne(env, data, s);
    var t := Advance(env, data, s);
    assert t.parser == IPv4 && t.offset == 14 by { assert data[0..] == data; }
    AfterOne(env, data, t);
    AfterAdd(env, data, s, 1, 1);
    assert Loops(env, data, After(env, data, s, 2));
    EndsUnlessLoops(env, data, s);
  }

  /**
   * With IPv4 and TCP registered as they are by default: every packet is parsed to an end if and only if no TCP port
   * is registered for the TCP parser in effect.
   */
  lemma EveryPacketEnds(env: Environment)
    requires NextEtype(env, 0x0800) == IPv4 && NextProto(env, 6) == Tcp
    ensures (forall data: bytes, m: Message :: Ends(env, data, Begin(m))) <==> !TcpInTcp(env)
  {
    hide NextEtype, NextProto, NextPort, NoLength, Ends, Run, After;
    if src: u16, dst: u16 :| NextPort(env.tcp, src, dst) == Tcp {
      var m := Message(Outer([], [], 0, 0, [], [], [], [], 0, 0, 0, 0, 0, 0, 0, 0, 0, 0, 0, []), None, [], []);
      NeverEnds(env, m, src, dst);
    } else {
      forall data: bytes, m: Message ensures Ends(env, data, Begin(m)) {
        EndsUnlessLoops(env, data, Begin(m));
      }
    }
  }

  // ---------- what every chain keeps ----------

  function SumOf(sizes: seq<nat>): nat
  {
    if sizes == [] then 0 else SumOf(sizes[..|sizes| - 1]) + sizes[|sizes| - 1]
  }

  lemma SumSnoc(sizes: seq<nat>, n: nat)
    ensures SumOf(sizes + [n]) == SumOf(sizes) + n
  {
    assert (sizes + [n])[..|sizes|] == sizes;
  }

  /** The sizes add up to the offset, and at most the last layer has a size and no name. */
  predicate Tallied(s: State)
  {
    SumOf(s.message.sizes) == s.offset
    && |s.message.stack| <= |s.message.sizes| <= |s.message.stack| + (if s.parser == Stop then 1 else 0)
  }

  lemma TalliedKept(env: Environment, data: bytes, s: State)
    requires Active(data, s) && Tallied(s)
    ensures Tallied(Advance(env, data, s))
  {
    hide SumOf, ReadLabels, ReadSegments;
    var r := ParseLayer(env, s.parser, s.message, data[s.offset..], !s.encapsulated, Calls(s));
    SumSnoc(s.message.sizes, r.size);
    UnnamedStops(env, s.parser, s.message, data[s.offset..], !s.encapsulated, Calls(s));
  }

  lemma UnnamedStops(env: Environment, p: Parser, m: Message, d: bytes, base: bool, calls: nat)
    requires p != Stop && p != NoParser
    ensures var r := ParseLayer(env, p, m, d, base, calls); !r.named ==> r.next == Stop && r.size == 0
  {
    hide ReadLabels, ReadSegments;
  }

  /** A layer inside another leaves what the outer layers said. */
  lemma InnerLeavesOuter(env: Environment, p: Parser, m: Message, d: bytes, calls: nat)
    requires p != Stop && p != NoParser
    ensures ParseLayer(env, p, m, d, false, calls).outer == m.outer
  {
    hide ReadLabels, ReadSegments;
  }

  lemma {:induction false} ChainTallies(env: Environment, data: bytes, s: State, n: nat)
    requires Tallied(s)
    ensures Tallied(After(env, data, s, n))
  {
    hide Advance, Tallied;
    if n > 0 {
      ChainTallies(env, data, s, n - 1);
      var t := After(env, data, s, n - 1);
      if Active(data, t) { TalliedKept(env, data, t); }
    }
  }

  /** Once a layer has been found inside another, addresses, ports, MACs, tags and fragment fields never change. */
  lemma {:induction false} EncapsulationFreezes(env: Environment, data: bytes, s: State, n: nat)
    requires s.encapsulated
    ensures After(env, data, s, n).message.outer == s.message.outer && After(env, data, s, n).encapsulated
  {
    hide ParseLayer;
    if n > 0 {
      EncapsulationFreezes(env, data, s, n - 1);
      var t := After(env, data, s, n - 1);
      if Active(data, t) { InnerLeavesOuter(env, t.parser, t.message, data[t.offset..], Calls(t)); }
    }
  }

  /**
   * For every packet, every registration and every point of the chain, whether it ends or not: the layer sizes add up
   * to the offset and are at most one more than the layers named, and the outer fields are those of the state in which
   * encapsulation was first seen.
   */
  lemma PacketParsed(env: Environment, data: bytes, m: Message, n: nat, k: nat)
    requires m.stack == [] && m.sizes == [] && n <= k
    ensures var mid, end := After(env, data, Begin(m), n), After(env, data, Begin(m), k);
            && SumOf(end.message.sizes) == end.offset
            && |end.message.stack| <= |end.message.sizes| <= |end.message.stack| + 1
            && (mid.encapsulated ==> end.message.outer == mid.message.outer)
  {
    hide After;
    ChainTallies(env, data, Begin(m), k);
    AfterAdd(env, data, Begin(m), n, k - n);
    var mid := After(env, data, Begin(m), n);
    if mid.encapsulated { EncapsulationFreezes(env, data, mid, k - n); }
  }

  /** The loop, on the packets for which it ends. */
  method ParsePacket(env: Environment, data: bytes, m: Message) returns (r: Message, ghost steps: nat)
    requires Run(env, data, Begin(m)).Some?
    ensures var end := After(env, data, Begin(m), steps);
            r == end.message && !Active(data, end) && Run(env, data, Begin(m)) == Some(end)
  {
    hide ParseLayer, Rank, Loops, Advance;
    var s := Begin(m);
    steps := 0;
    while s.parser != Stop && s.parser != NoParser && |data| >= s.offset
      invariant Run(env, data, s) == Run(env, data, Begin(m)) && s == After(env, data, Begin(m), steps)
      decreases Left(data, s), Rank(s.parser)
    {
      Progress(env, data, s);
      s := Advance(env, data, s);
      steps := steps + 1;
    }
    r := s.message;
  }
}

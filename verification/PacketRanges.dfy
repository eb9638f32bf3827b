/** When parsing a packet stays within it: which packets, and which options, take the slice past its end. */
module PacketRanges {
  import opened Bytes
  import opened PacketLayers
  import opened PacketParser

  /** Where the parser stands: what is left of the packet, and as what it is read. */
  datatype Place = Place(data: bytes, t: u16, direct: bool)

  predicate AtIPv4(p: Place)
  {
    p.t == IPV4 || (p.direct && Starts(p.data, 4))
  }

  predicate AtIPv6(p: Place)
  {
    p.t == IPV6 || (p.direct && Starts(p.data, 6))
  }

  function NetworkAt(p: Place): (r: Option<Network>)
    ensures r.Some? ==> 20 <= r.value.used <= |p.data|
  {
    if AtIPv4(p) then ParseIPv4(p.data) else if AtIPv6(p) then ParseIPv6(p.data) else None
  }

  /** A payload and its EtherType. */
  datatype Inner = Inner(data: bytes, t: u16)

  function Goes(s: Step): Option<Inner>
  {
    if s.Go? then Some(Inner(s.rest, s.etherType)) else None
  }

  /** What the parser opens behind a network layer. */
  function Opened(opts: Options, n: Network, rest: bytes): (r: Option<Inner>)
    ensures r.Some? ==> |r.value.data| <= |rest|
  {
    if !opts.beyondL4 then None
    else if opts.ipip && n.tuple.proto == 4 then Some(Inner(rest, IPV4))
    else if opts.ipip && n.tuple.proto == 41 then Some(Inner(rest, IPV6))
    else if opts.gre && n.tuple.proto == 47 then Goes(ParseGRE(rest, NoView()))
    else if n.tuple.proto == 17 then Goes(ParseUDPTunnel(opts, rest, n.tuple, NoView()))
    else None
  }

  function ToPlace(s: Step): Option<Place>
  {
    if s.Go? then Some(Place(s.rest, s.etherType, false)) else None
  }

  /** The place after this one, if the parser goes on. */
  function NextPlace(opts: Options, p: Place): (r: Option<Place>)
    ensures r.Some? ==> |r.value.data| < |p.data|
  {
    if AtIPv4(p) || AtIPv6(p) then
      match NetworkAt(p)
      case None => None
      case Some(n) =>
        match Opened(opts, n, p.data[n.used..])
        case None => None
        case Some(Inner(inner, t)) =>
          if t == BRIDGED then ToPlace(ParseEthernet(inner, NoView(), false))
          else if CanContinue(t) then Some(Place(inner, t, false))
          else None
    else if !opts.beyondL4 then None
    else if p.t == MPLS || p.t == 0x8848 then ToPlace(ParseMPLS(p.data, NoView()))
    else if p.t == PPPOE && opts.pppoe then ToPlace(ParsePPPoE(p.data, NoView()))
    else None
  }

  /** Every place the parser reaches. */
  function Walk(opts: Options, p: Place): seq<Place>
    decreases |p.data|
  {
    [p] + (if NextPlace(opts, p).Some? then Walk(opts, NextPlace(opts, p).value) else [])
  }

  /**
   * A network layer with a tunnel whose payload the parser does not follow, and fewer octets after the tunnel's header
   * than the network header takes.
   */
  predicate Overruns(opts: Options, p: Place)
  {
    NetworkAt(p).Some? &&
    var n := NetworkAt(p).value;
    var o := Opened(opts, n, p.data[n.used..]);
    o.Some? && o.value.t != BRIDGED && !CanContinue(o.value.t) && |o.value.data| < n.used
  }

  ghost predicate Overrun(opts: Options, p: Place)
  {
    exists q :: q in Walk(opts, p) && Overruns(opts, q)
  }

  // ---------- what is read does not depend on what was seen ----------

  lemma {:induction false} VlansAlike(data: bytes, t: u16, v: View, w: View)
    ensures Goes(ParseVlans(data, t, v)) == Goes(ParseVlans(data, t, w))
    decreases |data|
  {
    if IsVlan(t) && |data| >= 4 {
      var id := HeadU16(data) % 0x1000;
      VlansAlike(data[4..], HeadU16(data[2..]), See(v, KDot1q).(seen := v.seen.(vlans := v.seen.vlans + [id])),
                 See(w, KDot1q).(seen := w.seen.(vlans := w.seen.vlans + [id])));
    }
  }

  lemma EthernetAlike(data: bytes, v: View, w: View)
    ensures Goes(ParseEthernet(data, v, false)) == Goes(ParseEthernet(data, w, false))
  {
    if |data| >= 14 { VlansAlike(data[14..], HeadU16(data[12..]), See(v, KEthernet), See(w, KEthernet)); }
  }

  lemma {:induction false} MplsAlike(data: bytes, v: View, w: View)
    ensures Goes(ParseMPLS(data, v)) == Goes(ParseMPLS(data, w))
    decreases |data|
  {
    if |data| >= 4 {
      var l := HeadU32(data) / 0x1000;
      MplsAlike(data[4..], See(v, KMpls).(seen := v.seen.(labels := v.seen.labels + [l])),
                See(w, KMpls).(seen := w.seen.(labels := w.seen.labels + [l])));
    }
  }

  lemma TunnelAlike(opts: Options, data: bytes, t: Tuple, v: View, w: View)
    ensures Goes(ParseGRE(data, v)) == Goes(ParseGRE(data, w))
    ensures Goes(ParsePPPoE(data, v)) == Goes(ParsePPPoE(data, w))
    ensures Goes(ParseUDPTunnel(opts, data, t, v)) == Goes(ParseUDPTunnel(opts, data, t, w))
  {
    hide PortMatches, L2tpSize, GtpuSize, HeadU16, Bit;
  }

  // ---------- which packets ----------

  lemma WalkFrom(opts: Options, p: Place)
    ensures Overrun(opts, p)
            <==> Overruns(opts, p) || (NextPlace(opts, p).Some? && Overrun(opts, NextPlace(opts, p).value))
  {
    hide Overruns, NextPlace;
    if NextPlace(opts, p).Some? {
      var rest := Walk(opts, NextPlace(opts, p).value);
      assert forall q :: q in Walk(opts, p) <==> q == p || q in rest;
    } else {
      assert forall q :: q in Walk(opts, p) <==> q == p;
    }
  }

  /** The theorem for the next place, whatever has been seen by then. */
  lemma NextInRange(opts: Options, p: Place)
    ensures var q := NextPlace(opts, p);
            q.Some? ==>
              forall w: View ::
                Parse(opts, q.value.data, q.value.t, q.value.direct, w) == OutOfRange <==> Overrun(opts, q.value)
    decreases |p.data|, 0
  {
    hide NextPlace, Parse, Overrun;
    var q := NextPlace(opts, p);
    if q.Some? {
      forall w: View
        ensures Parse(opts, q.value.data, q.value.t, q.value.direct, w) == OutOfRange <==> Overrun(opts, q.value)
      {
        OutOfRangeExactly(opts, q.value, w);
      }
    }
  }

  lemma InsideInRange(opts: Options, p: Place, w: View)
    requires NetworkAt(p).Some? && Opened(opts, NetworkAt(p).value, p.data[NetworkAt(p).value.used..]).Some?
    ensures var n := NetworkAt(p).value;
            var o := Opened(opts, n, p.data[n.used..]).value;
            Inside(opts, w, o.data, o.t, n.tuple.proto, n.used) == OutOfRange <==> Overrun(opts, p)
    decreases |p.data|, 1
  {
    hide Opened, ParseEthernet, Parse, Inside, Overrun, Transport, ParseIPv4, ParseIPv6;
    var n := NetworkAt(p).value;
    WalkFrom(opts, p);
    NextInRange(opts, p);
    var Inner(inner, t) := Opened(opts, n, p.data[n.used..]).value;
    EthernetAlike(inner, w, NoView());
    var next := NextPlace(opts, p);
    InsideIs(opts, w, inner, t, n.tuple.proto, n.used);
    if t == BRIDGED {
      var step := ParseEthernet(inner, w, false);
      if step.Go? { assert next == Some(Place(step.rest, step.etherType, false)); }
    } else if CanContinue(t) {
      assert next == Some(Place(inner, t, false));
    }
  }

  lemma InsideIs(opts: Options, w: View, inner: bytes, t: u16, proto: u8, used: nat)
    ensures var r, step := Inside(opts, w, inner, t, proto, used), ParseEthernet(inner, w, false);
            if t == BRIDGED then
              if step.Go? then r == Parse(opts, step.rest, step.etherType, false, step.view) else r == Parsed(step.view)
            else if CanContinue(t) then r == Parse(opts, inner, t, false, w)
            else r == Finish(w, proto, inner, used)
  {
    hide ParseEthernet, Finish;
  }

  lemma BehindNetwork(opts: Options, p: Place, v: View)
    requires NetworkAt(p).Some?
    ensures var n := NetworkAt(p).value;
            AfterNetwork(opts, p.data[n.used..], n, v) == OutOfRange <==> Overrun(opts, p)
    decreases |p.data|, 2
  {
    hide NetworkAt, ParseGRE, ParseUDPTunnel, Parse, Overrun, Transport, Inside;
    var n := NetworkAt(p).value;
    var rest := p.data[n.used..];
    TunnelAlike(opts, rest, n.tuple, v, NoView());
    if Opened(opts, n, rest).Some? {
      if opts.ipip && (n.tuple.proto == 4 || n.tuple.proto == 41) {
        InsideInRange(opts, p, v);
        Unwrapped(opts, v, rest, n);
      } else if opts.gre && n.tuple.proto == 47 {
        InsideInRange(opts, p, ParseGRE(rest, v).view);
      } else {
        InsideInRange(opts, p, ParseUDPTunnel(opts, rest, n.tuple, v).view);
      }
    } else {
      NothingOpened(opts, p);
    }
  }

  /** An IP packet inside another is read like the payload of a tunnel. */
  lemma Unwrapped(opts: Options, v: View, rest: bytes, n: Network)
    ensures forall t :: t == IPV4 || t == IPV6 ==>
              Inside(opts, v, rest, t, n.tuple.proto, n.used) == Parse(opts, rest, t, false, v)
  {
  }

  lemma NothingOpened(opts: Options, p: Place)
    requires NetworkAt(p).Some? && Opened(opts, NetworkAt(p).value, p.data[NetworkAt(p).value.used..]).None?
    ensures !Overrun(opts, p)
  {
    hide Opened, ParseIPv4, ParseIPv6, Overrun;
    WalkFrom(opts, p);
  }

  /** Parsing takes the slice past the end of the packet if and only if it reaches a place that overruns. */
  lemma {:induction false} OutOfRangeExactly(opts: Options, p: Place, v: View)
    ensures Parse(opts, p.data, p.t, p.direct, v) == OutOfRange <==> Overrun(opts, p)
    decreases |p.data|, 3
  {
    hide ParseIPv4, ParseIPv6, ParseMPLS, ParsePPPoE, AfterNetwork, Overrun;
    if NetworkAt(p).Some? {
      BehindNetwork(opts, p, SeeNetwork(v, if AtIPv4(p) then KIPv4 else KIPv6, NetworkAt(p).value));
    } else {
      WalkFrom(opts, p);
      NextInRange(opts, p);
      MplsAlike(p.data, v, NoView());
      TunnelAlike(opts, p.data, Tuple([], [], 0, 0, 0, 0), v, NoView());
    }
  }

  function FrameStart(data: bytes): Option<Place>
  {
    match ParseEthernet(data, NoView(), true)
    case Stop(_) => None
    case Go(_, rest, t) => if rest == [] then None else Some(Place(rest, t, false))
  }

  /** Where the parser starts on a packet, if it can. */
  function StartPlace(data: bytes, protocol: u32): Option<Place>
  {
    if data == [] then None
    else if protocol == 11 then Some(Place(data, IPV4, true))
    else if protocol == 12 then Some(Place(data, IPV6, true))
    else if protocol == 1 || |data| >= 14 then FrameStart(data)
    else if data[0] / 16 == 4 || data[0] / 16 == 6 then Some(Place(data, 0, true))
    else None
  }

  lemma PacketOutOfRange(opts: Options, data: bytes, protocol: u32)
    ensures ParsePacketView(opts, data, protocol) == OutOfRange
            <==> StartPlace(data, protocol).Some? && Overrun(opts, StartPlace(data, protocol).value)
  {
    hide ParseEthernet, Parse, Overrun;
    var p := StartPlace(data, protocol);
    if p.Some? {
      OutOfRangeExactly(opts, p.value, NoView());
      if protocol != 11 && protocol != 12 && (protocol == 1 || |data| >= 14) {
        OutOfRangeExactly(opts, p.value, ParseEthernet(data, NoView(), true).view);
      }
    }
  }

  // ---------- which options ----------

  function Flow(src: u16, dst: u16): Tuple
  {
    Tuple([], [], 17, src, dst, 0)
  }

  /** Some pair of ports is read as Geneve. */
  ghost predicate GeneveOpens(opts: Options)
  {
    exists src: u16, dst: u16 :: ReadAsGeneve(opts, Flow(src, dst))
  }

  predicate ReadAsGeneve(opts: Options, t: Tuple)
  {
    opts.geneve && PortMatches(t, opts.genevePorts, 6081) && !(opts.vxlan && PortMatches(t, opts.vxlanPorts, 4789))
  }

  lemma SamePorts(t: Tuple, ports: seq<u32>, standard: u32)
    ensures PortMatches(t, ports, standard) == PortMatches(Flow(t.srcPort, t.dstPort), ports, standard)
  {
    hide HeadU16;
  }

  /** Only GRE and Geneve lead to payloads of any EtherType. */
  lemma OpenedIsFollowed(opts: Options, n: Network, rest: bytes)
    requires !opts.gre && !GeneveOpens(opts)
    ensures var o := Opened(opts, n, rest); o.Some? ==> o.value.t == BRIDGED || CanContinue(o.value.t)
  {
    hide PortMatches, L2tpSize, GtpuSize, HeadU16, ParseGRE, ParseGeneve;
    SamePorts(n.tuple, opts.genevePorts, 6081);
    SamePorts(n.tuple, opts.vxlanPorts, 4789);
    assert ReadAsGeneve(opts, Flow(n.tuple.srcPort, n.tuple.dstPort)) == ReadAsGeneve(opts, n.tuple);
  }

  /** The octets of an IPv4 header of twenty octets. */
  function Header(proto: u8): bytes
  {
    [0x45] + Zeros(8) + [proto] + Zeros(10)
  }

  /** A GRE header with nothing behind it, announcing ARP. */
  const BARE_GRE: bytes := [0, 0, 8, 6]

  /** UDP and Geneve headers with nothing behind them, announcing ARP. */
  function BareGeneve(src: u16, dst: u16): bytes
  {
    U16(src) + U16(dst) + Zeros(4) + [0, 0, 8, 6, 0, 0, 0, 0]
  }

  lemma HeaderReads(proto: u8, rest: bytes)
    ensures var n := ParseIPv4(Header(proto) + rest);
            && n.Some? && n.value.used == 20 && (Header(proto) + rest)[20..] == rest && n.value.tuple.proto == proto
            && n.value.tuple == WithTransport(n.value.tuple.(srcPort := 0, dstPort := 0, tcpFlags := 0), rest)
  {
    hide WithTransport;
    var data := Header(proto) + rest;
    assert data[0] == 0x45 && data[9] == proto && data[20..] == rest;
    TransportOnly(Tuple(data[12..16], data[16..20], proto, 0, 0, 0), rest);
  }

  lemma TransportOnly(t: Tuple, rest: bytes)
    requires t.srcPort == 0 && t.dstPort == 0 && t.tcpFlags == 0
    ensures var w := WithTransport(t, rest); w.proto == t.proto && w.(srcPort := 0, dstPort := 0, tcpFlags := 0) == t
  {
    hide HeadU16;
  }

  /** Where parsing does not stay within the packet: a bare GRE header behind IPv4. */
  lemma BareGreOverruns(opts: Options)
    requires opts.beyondL4 && opts.gre
    ensures ParsePacketView(opts, Header(47) + BARE_GRE, 11) == OutOfRange
  {
    hide Header, ParseIPv4, ParsePacketView, Walk, NextPlace, Bit;
    var data := Header(47) + BARE_GRE;
    var p := Place(data, IPV4, true);
    HeaderReads(47, BARE_GRE);
    assert ParseGRE(BARE_GRE, NoView()) == Go(See(NoView(), KGre), [], 0x0806) by { NoFlags(); }
    assert Overruns(opts, p);
    StartWalks(opts, p);
    PacketOutOfRange(opts, data, 11);
  }

  lemma NoFlags()
    ensures HeadU16(BARE_GRE) == 0 && HeadU16(BARE_GRE[2..]) == 0x0806
    ensures !Bit(0, 0x8000) && !Bit(0, 0x2000) && !Bit(0, 0x1000)
    ensures BARE_GRE[4..] == []
  {
  }

  lemma StartWalks(opts: Options, p: Place)
    requires Overruns(opts, p)
    ensures Overrun(opts, p)
  {
    hide Overruns, NextPlace;
    assert p in Walk(opts, p);
  }

  lemma BareGeneveReads(src: u16, dst: u16)
    ensures var g := BareGeneve(src, dst);
            && |g| == 16 && HeadU16(g) == src && HeadU16(g[2..]) == dst && g[8] == 0 && HeadU16(g[10..]) == 0x0806
  {
    var g := BareGeneve(src, dst);
    assert g == U16(src) + (U16(dst) + (Zeros(4) + [0, 0, 8, 6, 0, 0, 0, 0]));
    ReadBackU16(src, U16(dst) + (Zeros(4) + [0, 0, 8, 6, 0, 0, 0, 0]));
    ReadBackU16(dst, Zeros(4) + [0, 0, 8, 6, 0, 0, 0, 0]);
  }

  /** And a bare Geneve header behind UDP. */
  lemma BareGeneveOverruns(opts: Options, src: u16, dst: u16)
    requires opts.beyondL4 && ReadAsGeneve(opts, Flow(src, dst))
    ensures ParsePacketView(opts, Header(17) + BareGeneve(src, dst), 11) == OutOfRange
  {
    hide Header, BareGeneve, ParseIPv4, ParsePacketView, Walk, NextPlace, PortMatches, HeadU16;
    var g := BareGeneve(src, dst);
    var data := Header(17) + g;
    var p := Place(data, IPV4, true);
    HeaderReads(17, g);
    BareGeneveReads(src, dst);
    var t := ParseIPv4(data).value.tuple;
    SamePorts(t, opts.genevePorts, 6081);
    SamePorts(t, opts.vxlanPorts, 4789);
    assert g[16..] == [];
    assert Overruns(opts, p);
    StartWalks(opts, p);
    PacketOutOfRange(opts, data, 11);
  }

  /**
   * Parsing stays within every packet if and only if the options do not look beyond the transport layer, or read
   * neither GRE nor, on any ports, Geneve.
   */
  lemma InRangeForAll(opts: Options)
    ensures (forall data: bytes, protocol: u32 :: ParsePacketView(opts, data, protocol) != OutOfRange)
            <==> !opts.beyondL4 || (!opts.gre && !GeneveOpens(opts))
  {
    hide ParsePacketView, Walk, Overruns, ReadAsGeneve, StartPlace;
    if !opts.beyondL4 || (!opts.gre && !GeneveOpens(opts)) {
      forall data: bytes, protocol: u32 ensures ParsePacketView(opts, data, protocol) != OutOfRange {
        PacketOutOfRange(opts, data, protocol);
        var p := StartPlace(data, protocol);
        if p.Some? && Overrun(opts, p.value) {
          var q :| q in Walk(opts, p.value) && Overruns(opts, q);
          DoesNotOverrun(opts, q);
        }
      }
    } else if opts.gre {
      BareGreOverruns(opts);
    } else {
      var src: u16, dst: u16 :| ReadAsGeneve(opts, Flow(src, dst));
      BareGeneveOverruns(opts, src, dst);
    }
  }

  lemma DoesNotOverrun(opts: Options, q: Place)
    requires !opts.beyondL4 || (!opts.gre && !GeneveOpens(opts))
    ensures !Overruns(opts, q)
  {
    hide ParseIPv4, ParseIPv6, ParseGRE, ParseUDPTunnel, GeneveOpens;
    if NetworkAt(q).Some? && opts.beyondL4 {
      var n := NetworkAt(q).value;
      OpenedIsFollowed(opts, n, q.data[n.used..]);
    }
  }
}

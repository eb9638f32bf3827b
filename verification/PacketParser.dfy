/** Reading a packet header back into tuples, VLAN ids and MPLS labels. */
module PacketParser {
  import opened Bytes
  import opened PacketLayers

  datatype Options = Options(
    beyondL4: bool, gre: bool, ipip: bool, vxlan: bool, vxlanPorts: seq<u32>, geneve: bool, genevePorts: seq<u32>,
    l2tp: bool, l2tpPorts: seq<u32>, gtpu: bool, gtpuPorts: seq<u32>, pppoe: bool)

  datatype View = View(kinds: seq<Kind>, seen: Seen, macs: Option<(bytes, bytes)>, etherType: u16)

  /** A parser step goes on with what follows, or stops with what it has seen so far. */
  datatype Step = Go(view: View, rest: bytes, etherType: u16) | Stop(view: View)

  function See(v: View, k: Kind): View
  {
    v.(kinds := v.kinds + [k])
  }

  // ---------- link layers ----------

  predicate IsVlan(t: u16)
  {
    t == VLAN || t == 0x88a8
  }

  function ParseVlans(data: bytes, t: u16, v: View): (r: Step)
    ensures r.Go? ==> |r.rest| <= |data|
    decreases |data|
  {
    if !IsVlan(t) then Go(if v.etherType == 0 then v.(etherType := t) else v, data, t)
    else if |data| < 4 then Stop(v)
    else
      var id := HeadU16(data) % 0x1000;
      ParseVlans(data[4..], HeadU16(data[2..]), See(v, KDot1q).(seen := v.seen.(vlans := v.seen.vlans + [id])))
  }

  function ParseEthernet(data: bytes, v: View, captureMAC: bool): (r: Step)
    ensures r.Go? ==> |r.rest| < |data|
  {
    if |data| < 14 then Stop(v)
    else
      var v' := See(v, KEthernet);
      ParseVlans(data[14..], HeadU16(data[12..]),
                 if captureMAC then v'.(macs := Some((data[..6], data[6..12]))) else v')
  }

  /** What an MPLS payload is, by its first four bits. */
  function AfterLabels(data: bytes, v: View): Step
  {
    if data == [] then Stop(v)
    else if data[0] / 16 == 4 then Go(v, data, IPV4)
    else if data[0] / 16 == 6 then Go(v, data, IPV6)
    else Stop(v)
  }

  function ParseMPLS(data: bytes, v: View): (r: Step)
    ensures r.Go? ==> |r.rest| < |data|
    decreases |data|
  {
    if |data| < 4 then Stop(v)
    else
      var w := HeadU32(data);
      var v' := See(v, KMpls).(seen := v.seen.(labels := v.seen.labels + [w / 0x1000]));
      if w / 0x100 % 2 == 1 then AfterLabels(data[4..], v') else ParseMPLS(data[4..], v')
  }

  function ParsePPPoE(data: bytes, v: View): (r: Step)
    ensures r.Go? ==> |r.rest| < |data|
  {
    if |data| < 8 then Stop(v)
    else
      var p, v' := HeadU16(data[6..]), See(v, KPppoe);
      if p == 0x0021 then Go(v', data[8..], IPV4)
      else if p == 0x0057 then Go(v', data[8..], IPV6)
      else if p == 0x0281 || p == 0x0283 then Go(v', data[8..], MPLS)
      else Stop(v')
  }

  // ---------- network layers ----------

  /** `used` counts the octets of the header with its extensions. */
  datatype Network = Network(used: nat, tuple: Tuple, extensions: seq<Kind>)

  /** Ports and TCP flags as far as the captured octets reach. */
  function WithTransport(t: Tuple, rest: bytes): Tuple
  {
    var ports := |rest| >= 4 && (t.proto == 6 || t.proto == 17);
    Tuple(t.src, t.dst, t.proto, if ports then HeadU16(rest) else t.srcPort,
          if ports then HeadU16(rest[2..]) else t.dstPort,
          if |rest| >= 14 && t.proto == 6 then rest[13] else t.tcpFlags)
  }

  function ParseIPv4(data: bytes): (r: Option<Network>)
    ensures r.Some? ==> 20 <= r.value.used <= |data|
  {
    if |data| < 20 then None
    else
      var ihl := data[0] % 16 * 4;
      if ihl < 20 || |data| < ihl then None
      else Some(Network(ihl, WithTransport(Tuple(data[12..16], data[16..20], data[9], 0, 0, 0), data[ihl..]), []))
  }

  predicate IsExtension(next: u8)
  {
    next in {0, 43, 44, 50, 51, 60, 135, 139, 140}
  }

  function ExtensionSize(next: u8, data: bytes): nat
    requires |data| >= 2
  {
    if next == 44 then 8 else if next == 51 then (data[1] as int + 2) * 4 else (data[1] as int + 1) * 8
  }

  function ExtensionKind(next: u8): Kind
  {
    if next == 44 then KFragment else if next == 51 then KAuthentication else if next == 43 then KRouting
      else KExtension
  }

  datatype Skipped = Skipped(used: nat, next: u8, kinds: seq<Kind>)

  function SkipExtensions(data: bytes, next: u8): (r: Option<Skipped>)
    ensures r.Some? ==> r.value.used <= |data|
    decreases |data|
  {
    if !IsExtension(next) then Some(Skipped(0, next, []))
    else if |data| < 2 || |data| < ExtensionSize(next, data) then None
    else
      var n := ExtensionSize(next, data);
      match SkipExtensions(data[n..], data[0])
      case None => None
      case Some(s) => Some(Skipped(n + s.used, s.next, [ExtensionKind(next)] + s.kinds))
  }

  function ParseIPv6(data: bytes): (r: Option<Network>)
    ensures r.Some? ==> 40 <= r.value.used <= |data|
  {
    if |data| < 40 then None
    else
      match SkipExtensions(data[40..], data[6])
      case None => None
      case Some(s) =>
        var used := 40 + s.used;
        Some(Network(used, WithTransport(Tuple(data[8..24], data[24..40], s.next, 0, 0, 0), data[used..]), s.kinds))
  }

  // ---------- tunnels ----------

  predicate Bit(w: u16, mask: nat)
    requires mask > 0
  {
    w / mask % 2 == 1
  }

  function ParseGRE(data: bytes, v: View): (r: Step)
    ensures r.Go? ==> |r.rest| < |data|
  {
    if |data| < 4 then Stop(v)
    else
      var flags := HeadU16(data);
      var n := 4 + (if Bit(flags, 0x8000) then 4 else 0) + (if Bit(flags, 0x2000) then 4 else 0)
        + (if Bit(flags, 0x1000) then 4 else 0);
      if |data| < n then Stop(v) else Go(See(v, KGre), data[n..], HeadU16(data[2..]))
  }

  predicate PortMatches(t: Tuple, ports: seq<u32>, standard: u32)
  {
    if ports == [] then t.dstPort == standard || t.srcPort == standard
    else exists i :: 0 <= i < |ports| && ports[i] != 0 && (t.dstPort == ports[i] || t.srcPort == ports[i])
  }

  function ParseVXLAN(data: bytes, v: View): Step
  {
    if |data| < 16 then Stop(v) else Go(See(v, KVxlan), data[16..], BRIDGED)
  }

  function ParseGeneve(data: bytes, v: View): Step
  {
    if |data| < 16 then Stop(v)
    else
      var n := 16 + data[8] as int % 0x40 * 4;
      if |data| < n then Stop(v) else Go(See(v, KGeneve), data[n..], HeadU16(data[10..]))
  }

  /** The octets an L2TP header takes after the UDP header, None when it is cut short. */
  function L2tpSize(data: bytes): (r: Option<nat>)
    requires |data| >= 14
    ensures r.Some? ==> r.value + 2 <= |data|
  {
    var flags := HeadU16(data[8..]);
    var a := if Bit(flags, 0x4000) then 12 else 10;
    if |data| < a + 4 then None
    else
      var b := a + 4 + (if Bit(flags, 0x0800) then 4 else 0);
      if |data| < b then None
      else if Bit(flags, 0x0200) && |data| < b + 2 then None
      else
        var c := if Bit(flags, 0x0200) then b + 2 + HeadU16(data[b..]) else b;
        if |data| < c + 2 then None
        else if |data| >= c + 4 && data[c] == 0xff && data[c + 1] == 0x03 then Some(c + 2)
        else Some(c)
  }

  function ParseL2TP(data: bytes, v: View): Step
  {
    if |data| < 14 || HeadU16(data[8..]) % 16 != 2 || L2tpSize(data).None? then Stop(v)
    else
      var n, v' := L2tpSize(data).value, See(v, KL2tp);
      var p := HeadU16(data[n..]);
      if p == 0x0021 then Go(v', data[n + 2..], IPV4)
      else if p == 0x0057 then Go(v', data[n + 2..], IPV6)
      else Stop(v')
  }

  /** The octets of a chain of GTP-U extension headers, None when it is cut short. */
  function GtpuExtensions(data: bytes, next: u8): (r: Option<nat>)
    ensures r.Some? ==> r.value <= |data|
    decreases |data|
  {
    if next == 0 then Some(0)
    else if |data| < 2 then None
    else
      var n := data[1] as int * 4;
      if n == 0 || |data| < 2 + n then None
      else
        match GtpuExtensions(data[2 + n..], data[1 + n])
        case None => None
        case Some(m) => Some(2 + n + m)
  }

  function GtpuSize(data: bytes): (r: Option<nat>)
    requires |data| >= 16
    ensures r.Some? ==> r.value <= |data|
  {
    if data[8] % 8 == 0 then Some(16)
    else if |data| < 20 then None
    else
      match GtpuExtensions(data[20..], data[19])
      case None => None
      case Some(m) => Some(20 + m)
  }

  function ParseGTPU(data: bytes, v: View): Step
  {
    if |data| < 16 || data[8] / 32 != 1 || data[9] != 0xff || GtpuSize(data).None? || |data| <= GtpuSize(data).value
      then Stop(v)
    else
      var n, v' := GtpuSize(data).value, See(v, KGtpu);
      if data[n] / 16 == 4 then Go(v', data[n..], IPV4)
      else if data[n] / 16 == 6 then Go(v', data[n..], IPV6)
      else Stop(v')
  }

  function ParseUDPTunnel(opts: Options, data: bytes, t: Tuple, v: View): (r: Step)
    ensures r.Go? ==> |r.rest| < |data|
  {
    if |data| < 8 then Stop(v)
    else if opts.vxlan && PortMatches(t, opts.vxlanPorts, 4789) then ParseVXLAN(data, v)
    else if opts.geneve && PortMatches(t, opts.genevePorts, 6081) then ParseGeneve(data, v)
    else if opts.l2tp && PortMatches(t, opts.l2tpPorts, 1701) then ParseL2TP(data, v)
    else if opts.gtpu && PortMatches(t, opts.gtpuPorts, 2152) then ParseGTPU(data, v)
    else Stop(v)
  }

  // ---------- the packet ----------

  /** `OutOfRange` stands for a slice past the end of the header. */
  datatype Outcome = Parsed(view: View) | Failed | OutOfRange

  predicate CanContinue(t: u16)
  {
    t == IPV4 || t == IPV6 || t == MPLS || t == 0x8848 || t == PPPOE
  }

  function Transport(v: View, proto: u8): View
  {
    if proto == 6 then See(v, KTcp)
    else if proto == 17 then See(v, KUdp)
    else if proto == 132 then See(v, KSctp)
    else if proto == 1 then See(v, KIcmp)
    else if proto == 58 then See(v, KIcmpv6)
    else v
  }

  /** The transport layer is cut `used` octets into what is left. */
  function Finish(v: View, proto: u8, left: bytes, used: nat): Outcome
  {
    if |left| < used then OutOfRange else Parsed(Transport(v, proto))
  }

  function ParseBridged(opts: Options, data: bytes, v: View): Outcome
    decreases |data|, 2
  {
    match ParseEthernet(data, v, false)
    case Stop(v') => Parsed(v')
    case Go(v', rest, t) => Parse(opts, rest, t, false, v')
  }

  /** What a tunnel leads to: a bridged frame, a network layer, or nothing this parser follows. */
  function Inside(opts: Options, v: View, rest: bytes, t: u16, proto: u8, used: nat): Outcome
    decreases |rest|, 3
  {
    if t == BRIDGED then ParseBridged(opts, rest, v)
    else if CanContinue(t) then Parse(opts, rest, t, false, v)
    else Finish(v, proto, rest, used)
  }

  function AfterNetwork(opts: Options, rest: bytes, n: Network, v: View): Outcome
    decreases |rest|, 4
  {
    var proto := n.tuple.proto;
    if opts.beyondL4 && opts.ipip && proto == 4 then Parse(opts, rest, IPV4, false, v)
    else if opts.beyondL4 && opts.ipip && proto == 41 then Parse(opts, rest, IPV6, false, v)
    else if opts.gre && proto == 47 then
      match ParseGRE(rest, v)
      case Stop(v') => Parsed(v')
      case Go(v', inner, t) => if !opts.beyondL4 then Parsed(v') else Inside(opts, v', inner, t, proto, n.used)
    else if opts.beyondL4 && proto == 17 then
      match ParseUDPTunnel(opts, rest, n.tuple, v)
      case Stop(v') => Parsed(Transport(v', proto))
      case Go(v', inner, t) => Inside(opts, v', inner, t, proto, n.used)
    else Parsed(Transport(v, proto))
  }

  function SeeNetwork(v: View, k: Kind, n: Network): View
  {
    v.(kinds := v.kinds + [k] + n.extensions, seen := v.seen.(tuples := v.seen.tuples + [n.tuple]))
  }

  predicate Starts(data: bytes, version: u8)
  {
    data != [] && data[0] / 16 == version
  }

  /** `direct` is a header that starts with an IP packet of either version. */
  function Parse(opts: Options, data: bytes, t: u16, direct: bool, v: View): Outcome
    decreases |data|, 1
  {
    if t == IPV4 || (direct && Starts(data, 4)) then
      match ParseIPv4(data)
      case None => Failed
      case Some(n) => AfterNetwork(opts, data[n.used..], n, SeeNetwork(v, KIPv4, n))
    else if t == IPV6 || (direct && Starts(data, 6)) then
      match ParseIPv6(data)
      case None => Failed
      case Some(n) => AfterNetwork(opts, data[n.used..], n, SeeNetwork(v, KIPv6, n))
    else if t == MPLS || t == 0x8848 then
      match ParseMPLS(data, v)
      case Stop(v') => Parsed(v')
      case Go(v', rest, t') => if opts.beyondL4 then Parse(opts, rest, t', false, v') else Parsed(v')
    else if t == PPPOE then
      if !opts.pppoe then Parsed(v)
      else
        match ParsePPPoE(data, v)
        case Stop(v') => Parsed(v')
        case Go(v', rest, t') => if opts.beyondL4 then Parse(opts, rest, t', false, v') else Parsed(v')
    else Failed
  }

  function NoView(): View
  {
    View([], Seen([], [], []), None, 0)
  }

  function ParseFrame(opts: Options, data: bytes): Outcome
  {
    match ParseEthernet(data, NoView(), true)
    case Stop(_) => Failed
    case Go(v, rest, t) => if rest == [] then Failed else Parse(opts, rest, t, false, v)
  }

  /** `protocol` is the sFlow header protocol: 1 Ethernet, 11 IPv4, 12 IPv6. */
  function ParsePacketView(opts: Options, data: bytes, protocol: u32): Outcome
  {
    if data == [] then Failed
    else if protocol == 1 then ParseFrame(opts, data)
    else if protocol == 11 then Parse(opts, data, IPV4, true, NoView())
    else if protocol == 12 then Parse(opts, data, IPV6, true, NoView())
    else if |data| >= 14 then ParseFrame(opts, data)
    else if data[0] / 16 == 4 || data[0] / 16 == 6 then Parse(opts, data, 0, true, NoView())
    else Failed
  }
}

/** The packet encoder and parser as loops over layers and offsets. */
module PacketCodec {
  import opened Bytes
  import opened PacketLayers
  import opened PacketParser

  lemma Slice(data: bytes, i: nat, n: nat)
    requires i + n <= |data|
    ensures data[i..][n..] == data[i + n..] && |data[i..]| == |data| - i
  {
  }

  /** From the innermost layer outwards. */
  method EncodePacketModel(layers: seq<Layer>) returns (r: Option<bytes>)
    ensures r == EncodeModel(layers)
  {
    if layers == [] {
      return None;
    }
    var payload: bytes := [];
    var i := |layers|;
    while i > 0
      invariant 0 <= i <= |layers| && payload == Encode(layers[i..])
    {
      i := i - 1;
      assert layers[i..][0] == layers[i] && layers[i..][1..] == layers[i + 1..];
      var next := if i + 1 < |layers| then Some(layers[i + 1]) else None;
      payload := Prepend(layers[i], payload, next);
    }
    assert layers[0..] == layers;
    r := Some(payload);
  }

  method ReadEthernet(data: bytes, v: View, captureMAC: bool) returns (r: Step)
    ensures r == ParseEthernet(data, v, captureMAC)
  {
    if |data| < 14 {
      return Stop(v);
    }
    var view := See(v, KEthernet);
    if captureMAC {
      view := view.(macs := Some((data[..6], data[6..12])));
    }
    var etherType := HeadU16(data[12..]);
    var offset := 14;
    while IsVlan(etherType)
      invariant 14 <= offset <= |data|
      invariant ParseVlans(data[offset..], etherType, view) == ParseEthernet(data, v, captureMAC)
      decreases |data| - offset
    {
      if |data| < offset + 4 {
        return Stop(view);
      }
      Slice(data, offset, 2);
      Slice(data, offset, 4);
      var tci := HeadU16(data[offset..]);
      view := See(view, KDot1q).(seen := view.seen.(vlans := view.seen.vlans + [tci % 0x1000]));
      etherType := HeadU16(data[offset + 2..]);
      offset := offset + 4;
    }
    if view.etherType == 0 {
      view := view.(etherType := etherType);
    }
    r := Go(view, data[offset..], etherType);
  }

  method ReadMPLS(data: bytes, v: View) returns (r: Step)
    ensures r == ParseMPLS(data, v)
  {
    var view, offset, bottom := v, 0, false;
    assert data[0..] == data;
    while !bottom
      invariant 0 <= offset <= |data|
      invariant (if bottom then AfterLabels(data[offset..], view) else ParseMPLS(data[offset..], view))
                == ParseMPLS(data, v)
      decreases |data| - offset
    {
      if |data| < offset + 4 {
        return Stop(view);
      }
      Slice(data, offset, 4);
      var word := HeadU32(data[offset..]);
      view := See(view, KMpls).(seen := view.seen.(labels := view.seen.labels + [word / 0x1000]));
      offset := offset + 4;
      bottom := word / 0x100 % 2 == 1;
    }
    if |data| <= offset {
      return Stop(view);
    }
    match data[offset] / 16 {
      case 4 => r := Go(view, data[offset..], IPV4);
      case 6 => r := Go(view, data[offset..], IPV6);
      case _ => r := Stop(view);
    }
  }

  function Extended(kinds: seq<Kind>, used: nat, tail: Option<Skipped>): Option<Skipped>
  {
    if tail.None? then None else Some(Skipped(used + tail.value.used, tail.value.next, kinds + tail.value.kinds))
  }

  lemma ExtendNothing(tail: Option<Skipped>)
    ensures Extended([], 0, tail) == tail
  {
    if tail.Some? { Empty(tail.value.kinds); }
  }

  lemma ExtendMore(data: bytes, next: u8, kinds: seq<Kind>, used: nat)
    requires IsExtension(next) && (|data| >= 2 ==> ExtensionSize(next, data) > 0)
    ensures |data| < 2 || |data| < ExtensionSize(next, data) ==> SkipExtensions(data, next).None?
    ensures |data| >= 2 && |data| >= ExtensionSize(next, data) ==>
              var size := ExtensionSize(next, data);
              Extended(kinds, used, SkipExtensions(data, next))
              == Extended(kinds + [ExtensionKind(next)], used + size, SkipExtensions(data[size..], data[0]))
  {
    hide ExtensionSize, ExtensionKind, IsExtension;
    if |data| >= 2 && |data| >= ExtensionSize(next, data) {
      var tail := SkipExtensions(data[ExtensionSize(next, data)..], data[0]);
      if tail.Some? { Assoc(kinds, [ExtensionKind(next)], tail.value.kinds); }
    }
  }

  method ReadIPv6Tuple(data: bytes) returns (r: Option<Network>)
    ensures r == ParseIPv6(data)
  {
    if |data| < 40 {
      return None;
    }
    hide SkipExtensions, ExtensionSize, ExtensionKind, WithTransport, IsExtension;
    var next, offset, kinds := data[6], 40, [];
    ghost var whole := SkipExtensions(data[40..], next);
    ExtendNothing(whole);
    while IsExtension(next)
      invariant 40 <= offset <= |data|
      invariant whole == Extended(kinds, offset - 40, SkipExtensions(data[offset..], next))
      decreases |data| - offset
    {
      if |data| >= offset + 2 { ExtensionPositive(next, data[offset..]); }
      ExtendMore(data[offset..], next, kinds, offset - 40);
      if |data| < offset + 2 {
        return None;
      }
      var size := ExtensionSize(next, data[offset..]);
      if |data| < offset + size {
        return None;
      }
      Slice(data, offset, size);
      kinds := kinds + [ExtensionKind(next)];
      next := data[offset];
      offset := offset + size;
    }
    LastHeader(data[offset..], next);
    Empty(kinds);
    r := Some(Network(offset, WithTransport(Tuple(data[8..24], data[24..40], next, 0, 0, 0), data[offset..]), kinds));
  }

  lemma ExtensionPositive(next: u8, data: bytes)
    requires |data| >= 2
    ensures ExtensionSize(next, data) > 0
  {
  }

  lemma LastHeader(data: bytes, next: u8)
    requires !IsExtension(next)
    ensures SkipExtensions(data, next) == Some(Skipped(0, next, []))
  {
  }

  /** Where the next iteration starts, or the answer. */
  datatype Next = Continue(view: View, offset: nat, etherType: u16) | Return(outcome: Outcome)

  /** What follows a network header at `offset`, as the next iteration will see it. */
  method FollowNetwork(opts: Options, data: bytes, offset: nat, n: Network, v: View) returns (next: Next)
    requires offset + n.used <= |data| && n.used > 0
    ensures next.Return? ==> next.outcome == AfterNetwork(opts, data[offset + n.used..], n, v)
    ensures next.Continue? ==> offset < next.offset <= |data|
    ensures next.Continue? ==>
              Parse(opts, data[next.offset..], next.etherType, false, next.view)
                == AfterNetwork(opts, data[offset + n.used..], n, v)
  {
    hide Parse, ParseEthernet, ParseGRE, ParseUDPTunnel;
    var start, proto := offset + n.used, n.tuple.proto;
    var rest := data[start..];
    if opts.beyondL4 && opts.ipip && (proto == 4 || proto == 41) {
      return Continue(v, start, if proto == 4 then IPV4 else IPV6);
    }
    var tunnel := Stop(v);
    if opts.gre && proto == 47 {
      tunnel := ParseGRE(rest, v);
      if tunnel.Stop? || !opts.beyondL4 {
        return Return(Parsed(tunnel.view));
      }
    } else if opts.beyondL4 && proto == 17 {
      tunnel := ParseUDPTunnel(opts, rest, n.tuple, v);
    }
    if tunnel.Stop? {
      return Return(Parsed(Transport(tunnel.view, proto)));
    }
    var at := |data| - |tunnel.rest|;
    Suffix(opts, data, start, n, tunnel, v);
    assert AfterNetwork(opts, rest, n, v) == Inside(opts, tunnel.view, tunnel.rest, tunnel.etherType, proto, n.used);
    if tunnel.etherType == BRIDGED {
      assert AfterNetwork(opts, rest, n, v) == ParseBridged(opts, tunnel.rest, tunnel.view);
      var bridged := ReadEthernet(tunnel.rest, tunnel.view, false);
      if bridged.Stop? {
        return Return(Parsed(bridged.view));
      }
      EthernetSuffix(tunnel.rest, tunnel.view);
      Slice(data, at, |tunnel.rest| - |bridged.rest|);
      return Continue(bridged.view, |data| - |bridged.rest|, bridged.etherType);
    }
    if CanContinue(tunnel.etherType) {
      return Continue(tunnel.view, at, tunnel.etherType);
    }
    next := Return(Finish(tunnel.view, proto, tunnel.rest, n.used));
  }

  predicate IsSuffix(inner: bytes, data: bytes)
  {
    |inner| <= |data| && inner == data[|data| - |inner|..]
  }

  lemma DropSuffix(data: bytes, n: nat)
    requires n <= |data|
    ensures IsSuffix(data[n..], data)
  {
  }

  lemma GreSuffix(data: bytes, v: View)
    ensures ParseGRE(data, v).Go? ==> IsSuffix(ParseGRE(data, v).rest, data)
  {
    if ParseGRE(data, v).Go? { DropSuffix(data, |data| - |ParseGRE(data, v).rest|); }
  }

  lemma TunnelSuffix(opts: Options, data: bytes, t: Tuple, v: View)
    ensures ParseUDPTunnel(opts, data, t, v).Go? ==> IsSuffix(ParseUDPTunnel(opts, data, t, v).rest, data)
  {
    hide PortMatches, L2tpSize, GtpuSize, HeadU16;
  }

  lemma Suffix(opts: Options, data: bytes, start: nat, n: Network, tunnel: Step, v: View)
    requires start <= |data| && tunnel.Go?
    requires tunnel == ParseGRE(data[start..], v) || tunnel == ParseUDPTunnel(opts, data[start..], n.tuple, v)
    ensures IsSuffix(tunnel.rest, data) && |tunnel.rest| < |data| - start
  {
    hide ParseGRE, ParseUDPTunnel;
    GreSuffix(data[start..], v);
    TunnelSuffix(opts, data[start..], n.tuple, v);
    Slice(data, start, |data| - start - |tunnel.rest|);
  }

  lemma {:induction false} VlanSuffix(data: bytes, t: u16, v: View)
    ensures ParseVlans(data, t, v).Go? ==> IsSuffix(ParseVlans(data, t, v).rest, data)
    decreases |data|
  {
    if IsVlan(t) && |data| >= 4 {
      var id := HeadU16(data) % 0x1000;
      VlanSuffix(data[4..], HeadU16(data[2..]), See(v, KDot1q).(seen := v.seen.(vlans := v.seen.vlans + [id])));
    }
  }

  lemma EthernetSuffix(data: bytes, v: View)
    ensures ParseEthernet(data, v, false).Go? ==> IsSuffix(ParseEthernet(data, v, false).rest, data)
  {
    if |data| >= 14 { VlanSuffix(data[14..], HeadU16(data[12..]), See(v, KEthernet)); }
  }

  lemma {:induction false} LabelSuffix(data: bytes, v: View)
    ensures ParseMPLS(data, v).Go? ==> IsSuffix(ParseMPLS(data, v).rest, data)
    decreases |data|
  {
    if |data| >= 4 {
      var w := HeadU32(data);
      LabelSuffix(data[4..], See(v, KMpls).(seen := v.seen.(labels := v.seen.labels + [w / 0x1000])));
    }
  }

  lemma SessionSuffix(data: bytes, v: View)
    ensures ParsePPPoE(data, v).Go? ==> IsSuffix(ParsePPPoE(data, v).rest, data)
  {
  }

  /** One iteration of the parser at `offset`. */
  method ParseLayer(opts: Options, data: bytes, offset: nat, etherType: u16, direct: bool, view: View)
    returns (next: Next)
    requires offset <= |data|
    ensures next.Return? ==> next.outcome == Parse(opts, data[offset..], etherType, direct, view)
    ensures next.Continue? ==> offset < next.offset <= |data|
    ensures next.Continue? ==>
              Parse(opts, data[next.offset..], next.etherType, false, next.view)
                == Parse(opts, data[offset..], etherType, direct, view)
  {
    hide AfterNetwork, ParseMPLS, ParsePPPoE, ParseIPv4, ParseIPv6;
    var here := data[offset..];
    if etherType == IPV4 || (direct && Starts(here, 4)) {
      var n := ParseIPv4(here);
      if n.None? {
        return Return(Failed);
      }
      Slice(data, offset, n.value.used);
      next := FollowNetwork(opts, data, offset, n.value, SeeNetwork(view, KIPv4, n.value));
    } else if etherType == IPV6 || (direct && Starts(here, 6)) {
      var n := ReadIPv6Tuple(here);
      if n.None? {
        return Return(Failed);
      }
      Slice(data, offset, n.value.used);
      next := FollowNetwork(opts, data, offset, n.value, SeeNetwork(view, KIPv6, n.value));
    } else if etherType == MPLS || etherType == 0x8848 {
      var step := ReadMPLS(here, view);
      if step.Stop? || !opts.beyondL4 {
        return Return(Parsed(step.view));
      }
      LabelSuffix(here, view);
      Slice(data, offset, |here| - |step.rest|);
      return Continue(step.view, |data| - |step.rest|, step.etherType);
    } else if etherType == PPPOE {
      if !opts.pppoe {
        return Return(Parsed(view));
      }
      var step := ParsePPPoE(here, view);
      if step.Stop? || !opts.beyondL4 {
        return Return(Parsed(step.view));
      }
      SessionSuffix(here, view);
      Slice(data, offset, |here| - |step.rest|);
      return Continue(step.view, |data| - |step.rest|, step.etherType);
    } else {
      next := Return(Failed);
    }
  }

  lemma FirstSuffix(data: bytes, v: View)
    ensures ParseEthernet(data, v, true).Go? ==> IsSuffix(ParseEthernet(data, v, true).rest, data)
  {
    if |data| >= 14 { VlanSuffix(data[14..], HeadU16(data[12..]),
                                 See(v, KEthernet).(macs := Some((data[..6], data[6..12])))); }
  }

  method ParsePacketViewWithOptions(opts: Options, data: bytes, protocol: u32) returns (r: Outcome)
    ensures r == ParsePacketView(opts, data, protocol)
  {
    hide Parse, ParseEthernet;
    if data == [] {
      return Failed;
    }
    var view, offset, etherType: u16, direct := NoView(), 0, 0, false;
    if protocol == 1 || (protocol != 11 && protocol != 12 && |data| >= 14) {
      var step := ReadEthernet(data, view, true);
      if step.Stop? {
        return Failed;
      }
      FirstSuffix(data, view);
      view, offset, etherType := step.view, |data| - |step.rest|, step.etherType;
    } else if protocol == 11 || protocol == 12 {
      etherType, direct := if protocol == 11 then IPV4 else IPV6, true;
    } else if data[0] / 16 == 4 || data[0] / 16 == 6 {
      direct := true;
    } else {
      return Failed;
    }
    if |data| <= offset {
      return Failed;
    }
    assert data[0..] == data;
    while true
      invariant 0 <= offset <= |data|
      invariant Parse(opts, data[offset..], etherType, direct, view) == ParsePacketView(opts, data, protocol)
      decreases |data| - offset
    {
      var next := ParseLayer(opts, data, offset, etherType, direct, view);
      if next.Return? {
        return next.outcome;
      }
      view, offset, etherType, direct := next.view, next.offset, next.etherType, false;
    }
  }
}

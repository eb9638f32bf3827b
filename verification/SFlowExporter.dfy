/** The batching sFlow exporter: events in order into bounded datagrams, cutting or dropping what does not fit. */
module SFlowExporter {
  import opened Bytes
  import opened SFlowTypes
  import opened SFlowPrinter
  import opened SFlowSizes

  datatype Top = Top(agentIP: string, subAgent: u32, seqNo: u32, uptime: u32)

  /** An event and the sample made of it, apart from its sequence number; None when none can be made. */
  datatype Event = Event(top: Top, sample: Option<Sample>)
  {
    /** A sample that was carried through as raw octets keeps its own number; any other takes the next. */
    function Built(n: u32): Option<Sample> {
      if sample.Some? then Some(Numbered(sample.value, n)) else None
    }
  }

  function Numbered(s: Sample, n: u32): Sample
  {
    match s
    case Sample(kind, header, words, count, records) => Sample(kind, header.(seqNo := n), words, count, records)
    case RawSample(_, _) => s
  }

  datatype Over = Over(agentIP: bool, subAgent: bool, seqNo: bool, uptime: bool)

  /** `parseAddr` is the address parser of the standard library. */
  datatype Config = Config(
    maxDatagramBytes: int, allowTruncate: bool, batching: bool, batchMaxBytes: int, batchMaxRecords: int, over: Over,
    parseAddr: string -> Option<bytes>)

  /** Whether two events may share a datagram. */
  predicate Compatible(cfg: Config, a: Top, b: Top)
  {
    && (cfg.over.agentIP || a.agentIP == b.agentIP)
    && (cfg.over.subAgent || a.subAgent == b.subAgent)
    && (cfg.over.seqNo || a.seqNo == b.seqNo)
    && (cfg.over.uptime || a.uptime == b.uptime)
  }

  function Limit(cfg: Config): int
  {
    if cfg.batching && cfg.batchMaxBytes > 0 && (cfg.maxDatagramBytes <= 0 || cfg.batchMaxBytes < cfg.maxDatagramBytes)
    then cfg.batchMaxBytes else cfg.maxDatagramBytes
  }

  // ---------- cutting the last header ----------

  predicate FitsCut(cfg: Config, p: Packet, k: nat)
    requires p.samples != [] && HasHeader(LastOf(p)) && k <= |HeaderOf(LastOf(p))|
  {
    var cut := WithLast(p, Shorten(LastOf(p), k));
    Encodes(cut) && Size(cut) <= cfg.maxDatagramBytes
  }

  lemma FitsShorter(cfg: Config, p: Packet, j: nat, k: nat)
    requires Encodes(p) && p.samples != [] && HasHeader(LastOf(p)) && j <= k <= |HeaderOf(LastOf(p))|
             && FitsCut(cfg, p, k)
    ensures FitsCut(cfg, p, j)
  {
    hide Encodes, Size, Shorten, WithLast, HasHeader, Pad4;
    CutSize(p, j);
    CutSize(p, k);
    PaddingMonotone(j, k);
  }

  predicate CanCut(cfg: Config, p: Packet)
  {
    p.samples != [] && HasHeader(LastOf(p)) && FitsCut(cfg, p, 0)
  }

  /** The longest prefix of the last header with which the packet fits, by binary search; None when no prefix does. */
  method TruncateLastSampleToFit(cfg: Config, p: Packet) returns (r: Option<Sample>, ghost kept: nat)
    requires Encodes(p)
    ensures r.Some? <==> CanCut(cfg, p)
    ensures r.Some? ==>
              && kept <= |HeaderOf(LastOf(p))| && r.value == Shorten(LastOf(p), kept) && FitsCut(cfg, p, kept)
              && forall m :: kept < m <= |HeaderOf(LastOf(p))| ==> !FitsCut(cfg, p, m)
  {
    hide Encodes, Size, Shorten, WithLast, HasHeader, FitsCut;
    kept := 0;
    if |p.samples| == 0 {
      return None, 0;
    }
    var sample := LastOf(p);
    if !HasHeader(sample) {
      return None, 0;
    }
    var original := HeaderOf(sample);
    var best, fit, low, high := sample, false, 0, |original|;
    while low <= high
      invariant 0 <= low <= |original| + 1 && -1 <= high <= |original|
      invariant fit <==> low > 0
      invariant fit ==> kept == low - 1 && kept <= |original| && best == Shorten(sample, kept) && FitsCut(cfg, p, kept)
      invariant forall m :: high < m <= |original| ==> !FitsCut(cfg, p, m)
      decreases high - low + 1
    {
      var mid := (low + high) / 2;
      var candidate := Shorten(sample, mid);
      CutSize(p, mid);
      CutFits(cfg, p, mid);
      var data := EncodePacket(WithLast(p, candidate)).value;
      if |data| <= cfg.maxDatagramBytes {
        best, fit, kept, low := candidate, true, mid, mid + 1;
      } else {
        forall m | mid <= m <= |original| ensures !FitsCut(cfg, p, m) {
          if FitsCut(cfg, p, m) { FitsShorter(cfg, p, mid, m); }
        }
        high := mid - 1;
      }
    }
    if fit {
      FitsShorter(cfg, p, 0, kept);
      return Some(best), kept;
    }
    return None, 0;
  }

  lemma CutFits(cfg: Config, p: Packet, k: nat)
    requires p.samples != [] && HasHeader(LastOf(p)) && k <= |HeaderOf(LastOf(p))|
             && Encodes(WithLast(p, Shorten(LastOf(p), k)))
    ensures EncodePacket(WithLast(p, Shorten(LastOf(p), k))).Some?
    ensures FitsCut(cfg, p, k) <==> |EncodePacket(WithLast(p, Shorten(LastOf(p), k))).value| <= cfg.maxDatagramBytes
  {
    hide EncodePacket, Shorten, WithLast;
  }

  // ---------- what a datagram holds ----------

  /** How many octets of the last header are kept: as many as fit, and no more do. */
  predicate IsLongest(cfg: Config, p: Packet, k: nat)
  {
    && p.samples != [] && HasHeader(LastOf(p)) && k <= |HeaderOf(LastOf(p))| && FitsCut(cfg, p, k)
    && forall m :: k < m <= |HeaderOf(LastOf(p))| ==> !FitsCut(cfg, p, m)
  }

  predicate FitsWhole(cfg: Config, p: Packet)
  {
    Limit(cfg) <= 0 || (Encodes(p) && Size(p) <= Limit(cfg))
  }

  /** What `whole` becomes when it is added to `p`: itself if that fits, else cut to the longest header that does. */
  ghost predicate SameOrCut(cfg: Config, p: Packet, whole: Sample, s: Sample)
  {
    var pushed := Push(p, whole);
    if FitsWhole(cfg, pushed) then s == whole
    else
      && cfg.allowTruncate && Encodes(pushed)
      && exists k :: IsLongest(cfg, pushed, k) && s == Shorten(LastOf(pushed), k)
  }

  /** The event's sample as it was added to `p`. */
  ghost predicate Carries(cfg: Config, p: Packet, e: Event, s: Sample)
  {
    exists n: u32 :: e.Built(n).Some? && SameOrCut(cfg, p, e.Built(n).value, s)
  }

  /** An empty datagram with the first event's top level. */
  predicate IsTop(cfg: Config, p: Packet, t: Top)
  {
    && p.version == 5 && p.ipVersion == 0 && cfg.parseAddr(t.agentIP) == Some(p.agentIP) && p.subAgent == t.subAgent
    && (t.seqNo != 0 ==> p.seqNo == t.seqNo) && (t.uptime != 0 ==> p.uptime == t.uptime)
  }

  function Push(p: Packet, s: Sample): Packet
  {
    p.(samples := p.samples + [s])
  }

  /** The sample cannot be added to the packet, neither whole nor with its header cut. */
  predicate DoesNotFit(cfg: Config, p: Packet, s: Sample)
  {
    && Limit(cfg) > 0 && Encodes(Push(p, s)) && Size(Push(p, s)) > Limit(cfg)
    && (cfg.allowTruncate ==> !CanCut(cfg, Push(p, s)))
  }

  /** The event's sample cannot be added to the packet, whatever number it gets. */
  ghost predicate NeverFits(cfg: Config, p: Packet, e: Event)
  {
    e.sample.Some? && forall n: u32 :: DoesNotFit(cfg, p, Numbered(e.sample.value, n))
  }

  predicate IsAlone(cfg: Config, p: Packet, t: Top)
  {
    IsTop(cfg, p, t) && p.count == 0 && p.samples == []
  }

  /** No datagram of its own can hold the event, whatever the sequence numbers and the uptime. */
  ghost predicate TooLarge(cfg: Config, e: Event)
  {
    cfg.parseAddr(e.top.agentIP).Some? && forall p: Packet :: IsAlone(cfg, p, e.top) ==> NeverFits(cfg, p, e)
  }

  /** A whole sample is tested against the batch limit, a cut one against the datagram limit. */
  predicate WithinLimit(cfg: Config, p: Packet)
  {
    Limit(cfg) > 0 ==> Encodes(p) && (Size(p) <= Limit(cfg) || (cfg.allowTruncate && Size(p) <= cfg.maxDatagramBytes))
  }

  /** With a positive datagram limit no datagram exceeds it; without cutting none exceeds the batch limit either. */
  lemma WithinMax(cfg: Config, p: Packet)
    requires WithinLimit(cfg, p)
    ensures cfg.maxDatagramBytes > 0 ==> Encodes(p) && Size(p) <= cfg.maxDatagramBytes
    ensures cfg.batching && cfg.batchMaxBytes > 0 && (!cfg.allowTruncate || cfg.maxDatagramBytes <= 0) ==>
              Encodes(p) && Size(p) <= cfg.batchMaxBytes
  {
    hide Encodes, Size;
  }

  /** The packet as it was when sample `i` was added. */
  function Before(p: Packet, i: nat): Packet
    requires i <= |p.samples|
  {
    p.(count := 0, samples := p.samples[..i])
  }

  ghost predicate Holds(cfg: Config, p: Packet, events: seq<Event>)
  {
    && events != [] && |p.samples| == |events| && IsTop(cfg, p, events[0].top) && WithinLimit(cfg, p)
    && forall i :: 0 <= i < |events| ==>
        Carries(cfg, Before(p, i), events[i], p.samples[i]) && (i > 0 ==> Compatible(cfg, events[0].top, events[i].top))
  }

  /** Why the packet ends before `e`. */
  ghost predicate Ends(cfg: Config, p: Packet, first: Event, e: Event)
  {
    !Compatible(cfg, first.top, e.top)
    || NeverFits(cfg, p.(count := 0), e)
  }

  /** A sample is turned away only when it takes the datagram over one of the two limits. */
  lemma TurnedAwayForSize(cfg: Config, p: Packet, s: Sample)
    requires DoesNotFit(cfg, p, s)
    ensures || (cfg.maxDatagramBytes > 0 && Size(Push(p, s)) > cfg.maxDatagramBytes)
            || (cfg.batching && cfg.batchMaxBytes > 0 && Size(Push(p, s)) > cfg.batchMaxBytes)
  {
    hide Encodes, Size, CanCut;
  }

  /**
   * The events of a datagram agree with it in every top-level field that is not overridden, and it ends before one
   * that would fit only where such a field differs.
   */
  lemma OneTopLevel(cfg: Config, p: Packet, events: seq<Event>, i: nat, e: Event)
    requires Holds(cfg, p, events) && i < |events|
    ensures var first, t := events[0].top, events[i].top;
            && (!cfg.over.agentIP ==> cfg.parseAddr(t.agentIP) == Some(p.agentIP))
            && (!cfg.over.subAgent ==> t.subAgent == p.subAgent)
            && (!cfg.over.seqNo && first.seqNo != 0 ==> t.seqNo == p.seqNo)
            && (!cfg.over.uptime && first.uptime != 0 ==> t.uptime == p.uptime)
    ensures Ends(cfg, p, events[0], e) && !NeverFits(cfg, p.(count := 0), e) ==>
              var first, t := events[0].top, e.top;
              || (!cfg.over.agentIP && t.agentIP != first.agentIP)
              || (!cfg.over.subAgent && t.subAgent != first.subAgent)
              || (!cfg.over.seqNo && t.seqNo != first.seqNo) || (!cfg.over.uptime && t.uptime != first.uptime)
  {
    hide WithinLimit, Carries, NeverFits;
  }

  /** Events that left together in one datagram, or one that fits none. */
  datatype Group = Sent(events: seq<Event>, packet: Packet) | Lost(event: Event)

  ghost predicate GroupOk(cfg: Config, g: Group)
  {
    match g
    case Sent(events, p) => Holds(cfg, p, events) && Encodes(p)
    case Lost(e) => TooLarge(cfg, e)
  }

  ghost predicate GroupsOk(cfg: Config, gs: seq<Group>)
  {
    forall i :: 0 <= i < |gs| ==> GroupOk(cfg, gs[i])
  }

  ghost function EventsOf(g: Group): seq<Event>
  {
    match g
    case Sent(es, _) => es
    case Lost(e) => [e]
  }

  ghost function Flatten(gs: seq<Group>): seq<Event>
  {
    if gs == [] then [] else Flatten(gs[..|gs| - 1]) + EventsOf(gs[|gs| - 1])
  }

  /** A datagram that is followed by more events ended for a reason. */
  ghost predicate EndedWell(cfg: Config, g: Group, rest: seq<Event>)
  {
    g.Sent? && g.events != [] && rest != [] ==> Ends(cfg, g.packet, g.events[0], rest[0])
  }

  /** Every datagram ended only where the next event could not join it; `rest` is what follows the last one. */
  ghost predicate Chained(cfg: Config, gs: seq<Group>, rest: seq<Event>)
    decreases |gs|
  {
    gs == []
    || (var n := |gs| - 1; EndedWell(cfg, gs[n], rest) && Chained(cfg, gs[..n], EventsOf(gs[n]) + rest))
  }

  ghost function Payloads(gs: seq<Group>): seq<bytes>
  {
    if gs == [] then []
    else
      var last := match gs[|gs| - 1]
                  case Sent(_, p) => if Encodes(p) then [EncodePacket(p).value] else []
                  case Lost(_) => [];
      Payloads(gs[..|gs| - 1]) + last
  }

  lemma GroupSnoc(cfg: Config, gs: seq<Group>, g: Group)
    requires GroupsOk(cfg, gs) && GroupOk(cfg, g)
    ensures GroupsOk(cfg, gs + [g])
    ensures Flatten(gs + [g]) == Flatten(gs) + EventsOf(g)
    ensures Payloads(gs + [g]) == Payloads(gs) + (match g case Sent(_, p) => [EncodePacket(p).value] case Lost(_) => [])
  {
    hide GroupOk, EncodePacket, Encodes;
    assert (gs + [g])[..|gs|] == gs;
    assert g.Sent? ==> Encodes(g.packet) by { SentEncodes(cfg, g); }
  }

  lemma NoGroups(cfg: Config)
    ensures GroupsOk(cfg, []) && Flatten([]) == [] && Payloads([]) == []
  {
  }

  lemma SentEncodes(cfg: Config, g: Group)
    requires GroupOk(cfg, g)
    ensures g.Sent? ==> Encodes(g.packet) && EncodePacket(g.packet).Some?
  {
    hide EncodePacket, Holds, TooLarge;
  }

  /** An event whose agent address parses and whose sample can be made and encoded. */
  predicate Sound(cfg: Config, e: Event)
  {
    var addr := cfg.parseAddr(e.top.agentIP);
    addr.Some? && (|addr.value| == 4 || |addr.value| == 16) && e.sample.Some? && EncodeSample(e.sample.value).Some?
  }

  /** Sound events, and no more of them than a datagram can count. */
  predicate AllSound(cfg: Config, es: seq<Event>)
  {
    |es| < 0x1_0000_0000 && forall i :: 0 <= i < |es| ==> Sound(cfg, es[i])
  }

  // ---------- sequence numbers ----------

  /** Every sample takes a number of its own but one that was carried through as raw octets. */
  predicate TakesNumber(e: Event)
  {
    e.sample.Some? && e.sample.value.Sample?
  }

  function Numbers(es: seq<Event>): nat
  {
    if es == [] then 0 else Numbers(es[..|es| - 1]) + (if TakesNumber(es[|es| - 1]) then 1 else 0)
  }

  /** The samples of these events are numbered one by one after `b`. */
  predicate CountsOn(samples: seq<Sample>, es: seq<Event>, b: u32)
  {
    |samples| == |es|
    && forall i :: 0 <= i < |es| && TakesNumber(es[i]) ==>
        samples[i].Sample? && samples[i].header.seqNo == Len(b + Numbers(es[..i + 1]))
  }

  /** A datagram whose first event brings no number takes the next one. */
  function NextPacket(es: seq<Event>, a: u32): u32
  {
    if es != [] && es[0].top.seqNo == 0 then Len(a + 1) else a
  }

  /** The number spent on an event that could have shared the datagram and did not fit: it gets another one later. */
  function Respent(cfg: Config, es: seq<Event>, rest: seq<Event>): nat
  {
    if es != [] && rest != [] && Compatible(cfg, es[0].top, rest[0].top) && TakesNumber(rest[0]) then 1 else 0
  }

  ghost function PacketsAfter(gs: seq<Group>, a: u32): u32
  {
    if gs == [] then a else NextPacket(EventsOf(gs[|gs| - 1]), PacketsAfter(gs[..|gs| - 1], a))
  }

  ghost function SamplesAfter(cfg: Config, gs: seq<Group>, rest: seq<Event>, b: u32): u32
    decreases |gs|
  {
    if gs == [] then b
    else
      var g, front := gs[|gs| - 1], gs[..|gs| - 1];
      Len(SamplesAfter(cfg, front, EventsOf(g) + rest, b) + Numbers(EventsOf(g))
          + (if g.Sent? then Respent(cfg, g.events, rest) else 0))
  }

  ghost predicate GroupNumbered(g: Group, a: u32, b: u32)
  {
    g.Sent? ==>
      (g.events != [] && g.events[0].top.seqNo == 0 ==> g.packet.seqNo == Len(a + 1))
      && CountsOn(g.packet.samples, g.events, b)
  }

  /** Datagrams and samples are numbered without a gap but for the numbers spent on events that did not fit. */
  ghost predicate InSequence(cfg: Config, gs: seq<Group>, rest: seq<Event>, a: u32, b: u32)
    decreases |gs|
  {
    gs == []
    || (var g, front := gs[|gs| - 1], gs[..|gs| - 1];
        && InSequence(cfg, front, EventsOf(g) + rest, a, b)
        && GroupNumbered(g, PacketsAfter(front, a), SamplesAfter(cfg, front, EventsOf(g) + rest, b)))
  }

  datatype Built = Fits(packet: Packet, accepted: nat) | Oversized | Failed

  class Encoder {
    const cfg: Config
    var events: seq<Event>
    var packetSeq: u32
    var sampleSeq: u32

    constructor (cfg: Config)
      ensures this.cfg == cfg && events == [] && packetSeq == 0 && sampleSeq == 0
    {
      this.cfg, events, packetSeq, sampleSeq := cfg, [], 0, 0;
    }

    method BuildSample(e: Event) returns (r: Option<Sample>)
      modifies this`sampleSeq
      ensures r == e.Built(sampleSeq)
      ensures sampleSeq == if TakesNumber(e) then Len(old(sampleSeq) + 1) else old(sampleSeq)
    {
      if e.sample.Some? && e.sample.value.Sample? {
        sampleSeq := (sampleSeq + 1) % 0x1_0000_0000;
      }
      r := e.Built(sampleSeq);
    }

    /** Adds one sample, cut if need be; None when the packet cannot take it. */
    method AddSample(p: Packet, whole: Sample) returns (r: Option<Packet>, failed: bool)
      requires p.count == 0
      ensures failed <==> Limit(cfg) > 0 && !Encodes(Push(p, whole))
      ensures !failed && r.None? ==> DoesNotFit(cfg, p, whole)
      ensures !failed && r.Some? ==>
                WithinLimit(cfg, r.value) && exists s :: SameOrCut(cfg, p, whole, s) && r.value == Push(p, s)
    {
      hide Encodes, Size, Shorten, HasHeader, EncodePacket;
      var pushed := Push(p, whole);
      r, failed := Some(pushed), false;
      if Limit(cfg) > 0 {
        var data := EncodePacket(pushed);
        SizeIs(pushed);
        if data.None? {
          return None, true;
        }
        if |data.value| > Limit(cfg) {
          r := None;
          if cfg.allowTruncate {
            var cut, kept := TruncateLastSampleToFit(cfg, pushed);
            if cut.Some? {
              PushCut(p, whole, cut.value);
              assert IsLongest(cfg, pushed, kept);
              r := Some(Push(p, cut.value));
            }
          }
        }
      }
    }

    /** Adds the events one by one while they can join the packet, and counts them. */
    method Fill(es: seq<Event>, start: Packet) returns (r: Built)
      requires es != [] && IsAlone(cfg, start, es[0].top) && (AllSound(cfg, es) ==> Encodes(start))
      modifies this`sampleSeq
      ensures r.Fits? ==>
                && 1 <= r.accepted <= |es| && Holds(cfg, r.packet, es[..r.accepted]) && r.packet.seqNo == start.seqNo
                && (r.accepted < |es| ==> Ends(cfg, r.packet, es[0], es[r.accepted]))
      ensures r.Oversized? ==> TooLarge(cfg, es[0])
      ensures AllSound(cfg, es) ==> !r.Failed? && (r.Fits? ==> Encodes(r.packet))
      ensures r.Fits? ==>
                && CountsOn(r.packet.samples, es[..r.accepted], old(sampleSeq))
                && sampleSeq == Len(old(sampleSeq) + Numbers(es[..r.accepted]) + Respent(cfg, es, es[r.accepted..]))
      ensures r.Oversized? ==> sampleSeq == Len(old(sampleSeq) + Numbers(es[..1]))
    {
      hide Encodes, Size, Carries, DoesNotFit, SameOrCut, AllSound, TooLarge, EncodeSample, WithinLimit, Compatible,
           CountsOn, Numbers, Numbered, NeverFits, Len;
      var top, p, accepted := es[0].top, start, 0;
      NoneCount(sampleSeq);
      assert es[..0] == [];
      ghost var over := 0;
      while accepted < |es|
        invariant 0 <= accepted <= |es| && p.count == 0 && IsTop(cfg, p, top) && p.seqNo == start.seqNo
        invariant accepted == 0 ==> p.samples == []
        invariant accepted > 0 ==> Holds(cfg, p, es[..accepted])
        invariant (AllSound(cfg, es) ==> Encodes(p)) && |p.samples| == accepted
        invariant CountsOn(p.samples, es[..accepted], old(sampleSeq))
        invariant over == 0 && sampleSeq == Len(old(sampleSeq) + Numbers(es[..accepted]))
      {
        var e := es[accepted];
        if accepted > 0 && !Compatible(cfg, top, e.top) {
          break;
        }
        ghost var spent := sampleSeq;
        var sample := BuildSample(e);
        NumberTaken(old(sampleSeq), es, accepted, spent, e);
        if AllSound(cfg, es) { SoundAt(cfg, es, accepted); SoundPush(cfg, p, e, sampleSeq); }
        if sample.None? {
          return Failed;
        }
        var next, failed := AddSample(p, sample.value);
        if failed {
          return Failed;
        }
        if next.None? {
          if accepted == 0 {
            Alone(cfg, p, e, sampleSeq);
            return Oversized;
          }
          EndsHere(cfg, p, es[0], e, sampleSeq);
          over := if TakesNumber(e) then 1 else 0;
          break;
        }
        if AllSound(cfg, es) { SoundNext(cfg, p, next.value, sample.value); }
        OneMore(cfg, p, next.value, es[..accepted], e, sample.value);
        OneCounted(cfg, p, next.value, es, accepted, sample.value, old(sampleSeq), sampleSeq);
        assert es[..accepted] + [e] == es[..accepted + 1];
        p, accepted := next.value, accepted + 1;
      }
      assert over == Respent(cfg, es, es[accepted..]);
      CountFilled(cfg, p, es[..accepted]);
      FilledEncodes(p);
      assert p.(count := Len(|p.samples|)).(count := 0) == p;
      r := Fits(p.(count := Len(|p.samples|)), accepted);
    }

    /** As many events as fit behind the first one's top level. */
    method BuildPacketWithLimit(es: seq<Event>, uptime: u32) returns (r: Built)
      modifies this`packetSeq, this`sampleSeq
      ensures r.Fits? ==>
                && 1 <= r.accepted <= |es| && Holds(cfg, r.packet, es[..r.accepted])
                && (r.accepted < |es| ==> Ends(cfg, r.packet, es[0], es[r.accepted]))
      ensures r.Oversized? ==> es != [] && TooLarge(cfg, es[0])
      ensures es != [] && AllSound(cfg, es) ==> !r.Failed? && (r.Fits? ==> Encodes(r.packet))
      ensures !r.Failed? ==> packetSeq == NextPacket(es, old(packetSeq))
      ensures r.Fits? ==>
                && (es[0].top.seqNo == 0 ==> r.packet.seqNo == packetSeq)
                && CountsOn(r.packet.samples, es[..r.accepted], old(sampleSeq))
                && sampleSeq == Len(old(sampleSeq) + Numbers(es[..r.accepted]) + Respent(cfg, es, es[r.accepted..]))
      ensures r.Oversized? ==> sampleSeq == Len(old(sampleSeq) + Numbers(es[..1]))
    {
      hide Encodes, Holds, Ends, AllSound, TooLarge, EncodeSample, CountsOn, Numbers, Respent;
      if es == [] {
        return Failed;
      }
      var top := es[0].top;
      var addr := cfg.parseAddr(top.agentIP);
      if AllSound(cfg, es) { SoundAt(cfg, es, 0); }
      if addr.None? {
        return Failed;
      }
      var seqNo := top.seqNo;
      if seqNo == 0 {
        packetSeq := (packetSeq + 1) % 0x1_0000_0000;
        seqNo := packetSeq;
      }
      var p := Packet(5, 0, addr.value, top.subAgent, seqNo, if top.uptime == 0 then uptime else top.uptime, 0, []);
      if AllSound(cfg, es) { EmptyEncodes(cfg, p, es[0]); }
      r := Fill(es, p);
    }

    /**
     * Every buffered event, in order and once, leaves in a datagram with its neighbours or is too large for one of
     * its own; the datagrams are the encodings of the groups. A failure that is not about size gives up.
     */
    method Flush(clock: nat -> u32) returns (r: Option<seq<bytes>>, ghost groups: seq<Group>)
      modifies this
      ensures events == []
      ensures r.Some? ==> GroupsOk(cfg, groups) && Flatten(groups) == old(events) && r.value == Payloads(groups)
      ensures r.Some? ==> Chained(cfg, groups, [])
      ensures AllSound(cfg, old(events)) ==> r.Some?
      ensures r.Some? ==>
                && InSequence(cfg, groups, [], old(packetSeq), old(sampleSeq))
                && packetSeq == PacketsAfter(groups, old(packetSeq))
                && sampleSeq == SamplesAfter(cfg, groups, [], old(sampleSeq))
    {
      hide GroupOk, Encodes, EncodePacket, Holds, TooLarge, Ends, AllSound, Chained, Flatten, Payloads, InSequence,
           PacketsAfter, SamplesAfter, GroupNumbered, NextPacket, Respent, Numbers, CountsOn;
      NoSequence(cfg, events, packetSeq, sampleSeq);
      NoGroups(cfg);
      NoChain(cfg, events);
      Empty(events);
      var payloads: seq<bytes>, pending, built := [], events, 0;
      groups := [];
      events := [];
      while |pending| > 0
        invariant events == [] && GroupsOk(cfg, groups) && Flatten(groups) + pending == old(events)
        invariant payloads == Payloads(groups) && Chained(cfg, groups, pending)
        invariant AllSound(cfg, old(events)) ==> AllSound(cfg, pending)
        invariant InSequence(cfg, groups, pending, old(packetSeq), old(sampleSeq))
        invariant packetSeq == PacketsAfter(groups, old(packetSeq))
        invariant sampleSeq == SamplesAfter(cfg, groups, pending, old(sampleSeq))
        decreases |pending|
      {
        ghost var a, b := packetSeq, sampleSeq;
        var packet := BuildPacketWithLimit(pending, clock(built));
        built := built + 1;
        match packet {
          case Failed => return None, [];
          case Oversized =>
            var lost := Lost(pending[0]);
            LostOk(cfg, pending[0]);
            GroupSnoc(cfg, groups, lost);
            Assoc(Flatten(groups), [pending[0]], pending[1..]);
            assert [pending[0]] + pending[1..] == pending;
            Empty(payloads);
            SoundDrop(cfg, pending, 1);
            ChainSnoc(cfg, groups, lost, pending[1..]);
            LostNumbered(pending[0], pending, a, b);
            SequenceSnoc(cfg, groups, lost, pending[1..], old(packetSeq), old(sampleSeq));
            groups, pending := groups + [lost], pending[1..];
          case Fits(p, accepted) =>
            var data := EncodePacket(p);
            SizeIs(p);
            if data.None? {
              return None, [];
            }
            ghost var sent := Sent(pending[..accepted], p);
            SentOk(cfg, pending[..accepted], p);
            GroupSnoc(cfg, groups, sent);
            Assoc(Flatten(groups), pending[..accepted], pending[accepted..]);
            assert pending[..accepted] + pending[accepted..] == pending;
            SoundDrop(cfg, pending, accepted);
            ChainSnoc(cfg, groups, sent, pending[accepted..]);
            SentNumbered(cfg, pending, accepted, p, a, b);
            SequenceSnoc(cfg, groups, sent, pending[accepted..], old(packetSeq), old(sampleSeq));
            payloads, groups, pending := payloads + [data.value], groups + [sent], pending[accepted..];
        }
      }
      Empty(Flatten(groups));
      assert pending == [];
      r := Some(payloads);
    }

    /** The buffered events all share the first one's top level, and stay below the record limit. */
    ghost predicate Batch()
      reads this`events
    {
      && (!cfg.batching ==> events == [])
      && (forall i :: 0 < i < |events| ==> Compatible(cfg, events[0].top, events[i].top))
      && (cfg.batchMaxRecords > 0 ==> |events| < cfg.batchMaxRecords)
    }

    /** Without batching the event leaves at once, in a datagram of its own. */
    method EncodeAlone(e: Event, clock: nat -> u32) returns (r: Option<seq<bytes>>, ghost groups: seq<Group>)
      modifies this`packetSeq, this`sampleSeq
      ensures r.Some? ==> GroupsOk(cfg, groups) && Flatten(groups) == [e] && r.value == Payloads(groups)
      ensures r.Some? ==> Chained(cfg, groups, [])
      ensures AllSound(cfg, [e]) ==> r.Some?
      ensures r.Some? ==>
                && InSequence(cfg, groups, [], old(packetSeq), old(sampleSeq))
                && packetSeq == PacketsAfter(groups, old(packetSeq))
                && sampleSeq == SamplesAfter(cfg, groups, [], old(sampleSeq))
    {
      hide GroupOk, Encodes, EncodePacket, Holds, TooLarge, Ends, AllSound, Flatten, Payloads, Chained, InSequence,
           PacketsAfter, SamplesAfter, GroupNumbered, NextPacket, Respent, Numbers, CountsOn;
      NoSequence(cfg, [e], packetSeq, sampleSeq);
      ghost var a, b := packetSeq, sampleSeq;
      NoGroups(cfg);
      NoChain(cfg, [e]);
      var packet := BuildPacketWithLimit([e], clock(0));
      Empty([e]);
      match packet {
        case Failed => r, groups := None, [];
        case Oversized =>
          LostOk(cfg, e);
          GroupSnoc(cfg, [], Lost(e));
          ChainSnoc(cfg, [], Lost(e), []);
          LostNumbered(e, [e], a, b);
          SequenceSnoc(cfg, [], Lost(e), [], a, b);
          r, groups := Some([]), [] + [Lost(e)];
        case Fits(p, accepted) =>
          var data := EncodePacket(p);
          SizeIs(p);
          assert [e][..accepted] == [e];
          if data.None? {
            return None, [];
          }
          SentOk(cfg, [e], p);
          GroupSnoc(cfg, [], Sent([e], p));
          ChainSnoc(cfg, [], Sent([e], p), []);
          SentNumbered(cfg, [e], 1, p, a, b);
          SequenceSnoc(cfg, [], Sent([e], p), [], a, b);
          r, groups := Some([data.value]), [] + [Sent([e], p)];
      }
    }

    /** The event joins the buffer or leaves, and what leaves is accounted for event by event. */
    method Encode(e: Event, clock: nat -> u32) returns (r: Option<seq<bytes>>, ghost groups: seq<Group>)
      requires Batch()
      modifies this
      ensures Batch()
      ensures r.Some? ==>
                && GroupsOk(cfg, groups) && Flatten(groups) + events == old(events) + [e]
                && r.value == Payloads(groups) && Chained(cfg, groups, events)
      ensures AllSound(cfg, old(events) + [e]) ==> r.Some?
      ensures r.Some? ==>
                && InSequence(cfg, groups, events, old(packetSeq), old(sampleSeq))
                && packetSeq == PacketsAfter(groups, old(packetSeq))
                && sampleSeq == SamplesAfter(cfg, groups, events, old(sampleSeq))
    {
      hide GroupOk, Encodes, EncodePacket, AllSound, Sound, Chained, Compatible, InSequence, PacketsAfter, SamplesAfter;
      NoSequence(cfg, events + [e], packetSeq, sampleSeq);
      NoSequence(cfg, [e], packetSeq, sampleSeq);
      NoChain(cfg, events + [e]);
      NoChain(cfg, [e]);
      SoundParts(cfg, events, e);
      if !cfg.batching {
        r, groups := EncodeAlone(e, clock);
        Empty([e]);
        return;
      }
      var payloads: seq<bytes> := [];
      groups := [];
      Empty(events + [e]);
      if |events| > 0 && !Compatible(cfg, events[0].top, e.top) {
        var flushed, left := Flush(clock);
        if flushed.None? {
          return None, [];
        }
        payloads, groups := flushed.value, left;
        EndsAtForeign(cfg, left, old(events), e);
        ForeignSequence(cfg, left, old(events), e, old(packetSeq), old(sampleSeq));
        Empty([e]);
      }
      ghost var before := events;
      events := events + [e];
      if cfg.batchMaxRecords > 0 && |events| >= cfg.batchMaxRecords {
        var more, left := Flush(clock);
        if more.None? {
          return None, [];
        }
        Concat(cfg, groups, left);
        Empty(before + [e]);
        ChainConcat(cfg, groups, left, []);
        SequenceConcat(cfg, groups, left, [], old(packetSeq), old(sampleSeq));
        Empty(Flatten(groups + left));
        Assoc(Flatten(groups), before, [e]);
        return Some(payloads + more.value), groups + left;
      }
      Assoc(Flatten(groups), before, [e]);
      r := Some(payloads);
    }
  }

  lemma SoundAt(cfg: Config, es: seq<Event>, i: nat)
    requires AllSound(cfg, es) && i < |es|
    ensures Sound(cfg, es[i]) && |es| < 0x1_0000_0000
  {
    hide Sound;
  }

  lemma SoundDrop(cfg: Config, es: seq<Event>, k: nat)
    requires k <= |es|
    ensures AllSound(cfg, es) ==> AllSound(cfg, es[k..])
  {
    hide Sound;
    assert forall i :: 0 <= i < |es[k..]| ==> es[k..][i] == es[k + i];
  }

  lemma SoundParts(cfg: Config, es: seq<Event>, e: Event)
    ensures AllSound(cfg, es + [e]) ==> AllSound(cfg, es) && AllSound(cfg, [e])
  {
    hide Sound;
    var all := es + [e];
    assert all[|es|] == e && forall i :: 0 <= i < |es| ==> all[i] == es[i];
  }

  lemma EmptyEncodes(cfg: Config, p: Packet, e: Event)
    requires Sound(cfg, e) && IsAlone(cfg, p, e.top)
    ensures Encodes(p)
  {
    hide U32, WordBytes, EncodeSample;
  }

  lemma PushEncodes(p: Packet, s: Sample)
    requires Encodes(p) && p.count == 0 && |p.samples| + 1 < 0x1_0000_0000 && EncodeSample(s).Some?
    ensures Encodes(Push(p, s))
  {
    hide EncodeSample, EncodeSamples, U32, WordBytes;
    SamplesAppend(p.samples, s);
    assert AgentVersion(Push(p, s)) == AgentVersion(p);
  }

  lemma NumberedEncodes(s: Sample, n: u32)
    requires EncodeSample(s).Some?
    ensures EncodeSample(Numbered(s, n)).Some?
  {
    hide EncodeRecords, U32, WordBytes, Filled, FormatFits;
  }

  lemma SoundPush(cfg: Config, p: Packet, e: Event, n: u32)
    requires Sound(cfg, e) && Encodes(p) && p.count == 0 && |p.samples| + 1 < 0x1_0000_0000
    ensures e.Built(n).Some? && EncodeSample(e.Built(n).value).Some? && Encodes(Push(p, e.Built(n).value))
  {
    hide EncodeSample, Encodes, Numbered;
    NumberedEncodes(e.sample.value, n);
    PushEncodes(p, Numbered(e.sample.value, n));
  }

  lemma SoundNext(cfg: Config, p: Packet, next: Packet, whole: Sample)
    requires Encodes(p) && p.count == 0 && |p.samples| + 1 < 0x1_0000_0000 && EncodeSample(whole).Some?
    requires exists s :: SameOrCut(cfg, p, whole, s) && next == Push(p, s)
    ensures Encodes(next)
  {
    hide EncodeSample, Encodes, HasHeader, Shorten, FitsCut, Size;
    var s :| SameOrCut(cfg, p, whole, s) && next == Push(p, s);
    if s != whole {
      var k :| IsLongest(cfg, Push(p, whole), k) && s == Shorten(LastOf(Push(p, whole)), k);
      SampleSize(whole, k);
    }
    PushEncodes(p, s);
  }

  lemma FilledEncodes(p: Packet)
    requires p.count == 0
    ensures Encodes(p.(count := Len(|p.samples|))) == Encodes(p)
  {
    hide EncodePacket;
    SameEncoding(p);
  }

  lemma SizeIs(p: Packet)
    ensures Encodes(p) == EncodePacket(p).Some?
    ensures Encodes(p) ==> Size(p) == |EncodePacket(p).value|
  {
    hide EncodePacket;
  }

  lemma PushCut(p: Packet, whole: Sample, cut: Sample)
    ensures Push(p, whole).samples != [] && LastOf(Push(p, whole)) == whole
            && WithLast(Push(p, whole), cut) == Push(p, cut)
  {
    assert (p.samples + [whole])[..|p.samples|] == p.samples;
  }

  lemma Alone(cfg: Config, p: Packet, e: Event, n: u32)
    requires IsAlone(cfg, p, e.top) && e.sample.Some? && DoesNotFit(cfg, p, Numbered(e.sample.value, n))
    ensures TooLarge(cfg, e)
  {
    hide DoesNotFit, Numbered;
    forall q: Packet | IsAlone(cfg, q, e.top) ensures NeverFits(cfg, q, e) {
      forall m: u32 ensures DoesNotFit(cfg, q, Numbered(e.sample.value, m)) {
        SameFit(cfg, p, q, e.sample.value, n, m);
      }
    }
  }

  lemma EndsHere(cfg: Config, p: Packet, first: Event, e: Event, n: u32)
    requires p.count == 0 && e.sample.Some? && DoesNotFit(cfg, p, Numbered(e.sample.value, n))
    ensures Ends(cfg, p, first, e)
  {
    hide DoesNotFit, Numbered;
    assert p.(count := 0) == p;
    forall m: u32 ensures DoesNotFit(cfg, p, Numbered(e.sample.value, m)) {
      SameFit(cfg, p, p, e.sample.value, n, m);
    }
  }

  // ---------- sizes do not depend on sequence numbers ----------

  predicate Alike(p: Packet, q: Packet)
  {
    q == p.(subAgent := q.subAgent, seqNo := q.seqNo, uptime := q.uptime)
  }

  /** Two samples that take the same room. */
  predicate SameRoom(s: Sample, t: Sample)
  {
    && EncodeSample(s).Some? == EncodeSample(t).Some?
    && (EncodeSample(s).Some? ==> |EncodeSample(s).value| == |EncodeSample(t).value|)
  }

  lemma NumberedRoom(s: Sample, n: u32, m: u32)
    ensures SameRoom(Numbered(s, n), Numbered(s, m))
  {
    hide EncodeRecords, U32, WordBytes, Filled, FormatFits;
  }

  lemma NumberedHeader(s: Sample, n: u32)
    ensures HasHeader(Numbered(s, n)) <==> HasHeader(s)
    ensures HasHeader(s) ==>
              && HeaderOf(Numbered(s, n)) == HeaderOf(s)
              && Shorten(Numbered(s, n), 0) == Numbered(Shorten(s, 0), n)
  {
    hide WithHeader;
  }

  lemma PushRoom(p: Packet, q: Packet, s: Sample, t: Sample)
    requires Alike(p, q) && SameRoom(s, t)
    ensures Encodes(Push(p, s)) <==> Encodes(Push(q, t))
    ensures Encodes(Push(p, s)) ==> Size(Push(p, s)) == Size(Push(q, t))
  {
    hide EncodeSample, EncodeSamples, Filled, WordBytes, U32;
    SamplesAppend(p.samples, s);
    SamplesAppend(q.samples, t);
    assert AgentVersion(Push(p, s)) == AgentVersion(Push(q, t));
  }

  lemma SameCut(cfg: Config, p: Packet, q: Packet, s: Sample, n: u32, m: u32)
    requires Alike(p, q)
    ensures CanCut(cfg, Push(p, Numbered(s, n))) ==> CanCut(cfg, Push(q, Numbered(s, m)))
  {
    hide Encodes, Size, Shorten, HasHeader, WithLast, Numbered, SameRoom, Push;
    NumberedHeader(s, n);
    NumberedHeader(s, m);
    if HasHeader(s) {
      var a, b := Numbered(Shorten(s, 0), n), Numbered(Shorten(s, 0), m);
      PushCut(p, Numbered(s, n), a);
      PushCut(q, Numbered(s, m), b);
      NumberedRoom(Shorten(s, 0), n, m);
      PushRoom(p, q, a, b);
    } else {
      PushCut(p, Numbered(s, n), s);
      PushCut(q, Numbered(s, m), s);
    }
  }

  lemma SameFit(cfg: Config, p: Packet, q: Packet, s: Sample, n: u32, m: u32)
    requires Alike(p, q) && DoesNotFit(cfg, p, Numbered(s, n))
    ensures DoesNotFit(cfg, q, Numbered(s, m))
  {
    hide Encodes, Size, CanCut, Numbered, SameRoom, Push;
    NumberedRoom(s, n, m);
    PushRoom(p, q, Numbered(s, n), Numbered(s, m));
    SameCut(cfg, q, p, s, m, n);
  }

  lemma OneMore(cfg: Config, p: Packet, next: Packet, es: seq<Event>, e: Event, whole: Sample)
    requires p.count == 0 && |p.samples| == |es|
    requires es == [] ==> IsTop(cfg, p, e.top)
    requires es != [] ==> Holds(cfg, p, es) && Compatible(cfg, es[0].top, e.top)
    requires exists n: u32 :: e.Built(n) == Some(whole)
    requires WithinLimit(cfg, next) && exists s :: SameOrCut(cfg, p, whole, s) && next == Push(p, s)
    ensures Holds(cfg, next, es + [e])
    ensures next.count == p.count && forall t :: IsTop(cfg, p, t) ==> IsTop(cfg, next, t)
  {
    hide SameOrCut, Encodes, Size, Compatible;
    var s :| SameOrCut(cfg, p, whole, s) && next == Push(p, s);
    var n: u32 :| e.Built(n) == Some(whole);
    assert Carries(cfg, p, e, s);
    var all := es + [e];
    forall i | 0 <= i < |all|
      ensures Carries(cfg, Before(next, i), all[i], next.samples[i])
      ensures i > 0 ==> Compatible(cfg, all[0].top, all[i].top)
    {
      if i < |es| {
        assert all[i] == es[i] && next.samples[i] == p.samples[i] && Before(next, i) == Before(p, i);
      } else {
        assert next.samples[..i] == p.samples;
        assert Before(next, i) == p;
      }
    }
  }

  lemma CountFilled(cfg: Config, p: Packet, es: seq<Event>)
    requires Holds(cfg, p, es) && p.count == 0
    ensures Holds(cfg, p.(count := Len(|p.samples|)), es)
  {
    hide Carries, Compatible;
    var q := p.(count := Len(|p.samples|));
    assert forall i :: 0 <= i < |es| ==> Before(q, i) == Before(p, i);
    SameEncoding(p);
    assert WithinLimit(cfg, q);
  }

  lemma SameEncoding(p: Packet)
    requires p.count == 0
    ensures EncodePacket(p.(count := Len(|p.samples|))) == EncodePacket(p)
  {
    hide EncodeSamples, U32, WordBytes;
  }

  lemma LostOk(cfg: Config, e: Event)
    requires TooLarge(cfg, e)
    ensures GroupOk(cfg, Lost(e))
  {
  }

  lemma SentOk(cfg: Config, es: seq<Event>, p: Packet)
    requires Holds(cfg, p, es) && Encodes(p)
    ensures GroupOk(cfg, Sent(es, p))
  {
  }

  lemma {:induction false} Concat(cfg: Config, a: seq<Group>, b: seq<Group>)
    requires GroupsOk(cfg, a) && GroupsOk(cfg, b)
    ensures GroupsOk(cfg, a + b)
    ensures Flatten(a + b) == Flatten(a) + Flatten(b) && Payloads(a + b) == Payloads(a) + Payloads(b)
    decreases |b|
  {
    hide GroupOk, EncodePacket, Encodes;
    if b == [] {
      Empty(a);
      Empty(Flatten(a));
      Empty(Payloads(a));
    } else {
      var n := |b| - 1;
      var front, g := b[..n], b[n];
      assert b == front + [g];
      Concat(cfg, a, front);
      assert a + b == (a + front) + [g];
      GroupSnoc(cfg, a + front, g);
      GroupSnoc(cfg, front, g);
      Assoc(Flatten(a), Flatten(front), EventsOf(g));
      SentEncodes(cfg, g);
      var ps := match g case Sent(_, p) => [EncodePacket(p).value] case Lost(_) => [];
      Assoc(Payloads(a), Payloads(front), ps);
    }
  }

  // ---------- why datagrams end ----------

  lemma NoChain(cfg: Config, rest: seq<Event>)
    ensures Chained(cfg, [], rest)
  {
  }

  lemma ChainSnoc(cfg: Config, gs: seq<Group>, g: Group, rest: seq<Event>)
    requires Chained(cfg, gs, EventsOf(g) + rest) && EndedWell(cfg, g, rest)
    ensures Chained(cfg, gs + [g], rest)
  {
    hide EndedWell;
    assert (gs + [g])[..|gs|] == gs;
  }

  lemma ChainHead(cfg: Config, gs: seq<Group>, r: seq<Event>, r': seq<Event>)
    requires r != [] && r' != [] && r[0] == r'[0] && Chained(cfg, gs, r)
    ensures Chained(cfg, gs, r')
    decreases |gs|
  {
    hide Ends;
    if gs != [] {
      var n := |gs| - 1;
      ChainHead(cfg, gs[..n], EventsOf(gs[n]) + r, EventsOf(gs[n]) + r');
    }
  }

  lemma {:induction false} ChainConcat(cfg: Config, a: seq<Group>, b: seq<Group>, rest: seq<Event>)
    requires Chained(cfg, a, Flatten(b) + rest) && Chained(cfg, b, rest)
    ensures Chained(cfg, a + b, rest)
    decreases |b|
  {
    hide EndedWell, EventsOf;
    if b == [] {
      Empty(a);
      Empty(rest);
    } else {
      var n := |b| - 1;
      Assoc(Flatten(b[..n]), EventsOf(b[n]), rest);
      ChainConcat(cfg, a, b[..n], EventsOf(b[n]) + rest);
      assert a + b == (a + b[..n]) + [b[n]] by { assert b == b[..n] + [b[n]]; }
      ChainSnoc(cfg, a + b[..n], b[n], rest);
    }
  }

  lemma SentNonempty(cfg: Config, g: Group)
    requires GroupOk(cfg, g)
    ensures EventsOf(g) != []
  {
    hide WithinLimit, Carries, Compatible, TooLarge, Encodes;
  }

  /** Events that can share a datagram end before one that cannot share it with the first of them. */
  lemma EndsAtForeign(cfg: Config, gs: seq<Group>, es: seq<Event>, e: Event)
    requires GroupsOk(cfg, gs) && Flatten(gs) == es && es != [] && Chained(cfg, gs, [])
    requires forall i :: 0 < i < |es| ==> Compatible(cfg, es[0].top, es[i].top)
    requires !Compatible(cfg, es[0].top, e.top)
    ensures Chained(cfg, gs, [e])
  {
    hide GroupOk, NeverFits;
    var n := |gs| - 1;
    var g, front := gs[n], Flatten(gs[..n]);
    SentNonempty(cfg, g);
    assert EventsOf(g)[0] == es[|front|];
    assert EndedWell(cfg, g, [e]);
    ChainHead(cfg, gs[..n], EventsOf(g) + [], EventsOf(g) + [e]);
  }

  // ---------- numbering ----------

  lemma NoneCount(b: u32)
    ensures CountsOn([], [], b) && Numbers([]) == 0 && Len(b) == b
  {
  }

  lemma Wraps(n: nat, k: nat)
    ensures Len(Len(n) + k) == Len(n + k)
  {
  }

  lemma NumbersOne(es: seq<Event>, i: nat)
    requires i < |es|
    ensures Numbers(es[..i + 1]) == Numbers(es[..i]) + (if TakesNumber(es[i]) then 1 else 0)
  {
    assert es[..i + 1][..i] == es[..i];
  }

  lemma NumberTaken(b: u32, es: seq<Event>, i: nat, spent: u32, e: Event)
    requires i < |es| && e == es[i] && spent == Len(b + Numbers(es[..i]))
    ensures Numbers(es[..i + 1]) == Numbers(es[..i]) + (if TakesNumber(e) then 1 else 0)
    ensures Len(b + Numbers(es[..i + 1])) == if TakesNumber(e) then Len(spent + 1) else spent
  {
    hide Numbers, Len;
    NumbersOne(es, i);
    Wraps(b + Numbers(es[..i]), 1);
  }

  lemma OneCounted(cfg: Config, p: Packet, next: Packet, es: seq<Event>, i: nat, whole: Sample, b: u32, n: u32)
    requires i < |es| && CountsOn(p.samples, es[..i], b) && es[i].Built(n) == Some(whole)
    requires TakesNumber(es[i]) ==> n == Len(b + Numbers(es[..i + 1]))
    requires exists s :: SameOrCut(cfg, p, whole, s) && next == Push(p, s)
    ensures CountsOn(next.samples, es[..i + 1], b) && next.seqNo == p.seqNo
  {
    hide Encodes, Size, FitsWhole, IsLongest, Numbers, Len;
    var s :| SameOrCut(cfg, p, whole, s) && next == Push(p, s);
    assert LastOf(Push(p, whole)) == whole;
    forall j | 0 <= j < i + 1 && TakesNumber(es[..i + 1][j])
      ensures next.samples[j].Sample? && next.samples[j].header.seqNo == Len(b + Numbers(es[..i + 1][..j + 1]))
    {
      assert es[..i + 1][..j + 1] == es[..j + 1];
      if j < i { assert es[..i][..j + 1] == es[..j + 1] && es[..i][j] == es[j]; }
    }
  }

  lemma NoSequence(cfg: Config, rest: seq<Event>, a: u32, b: u32)
    ensures InSequence(cfg, [], rest, a, b) && PacketsAfter([], a) == a && SamplesAfter(cfg, [], rest, b) == b
  {
  }

  lemma SequenceSnoc(cfg: Config, gs: seq<Group>, g: Group, rest: seq<Event>, a: u32, b: u32)
    requires InSequence(cfg, gs, EventsOf(g) + rest, a, b)
    requires GroupNumbered(g, PacketsAfter(gs, a), SamplesAfter(cfg, gs, EventsOf(g) + rest, b))
    ensures InSequence(cfg, gs + [g], rest, a, b)
    ensures PacketsAfter(gs + [g], a) == NextPacket(EventsOf(g), PacketsAfter(gs, a))
    ensures SamplesAfter(cfg, gs + [g], rest, b)
            == Len(SamplesAfter(cfg, gs, EventsOf(g) + rest, b) + Numbers(EventsOf(g))
                   + (if g.Sent? then Respent(cfg, g.events, rest) else 0))
  {
    hide GroupNumbered, NextPacket, Respent, Numbers, EventsOf;
    assert (gs + [g])[..|gs|] == gs;
  }

  lemma LostNumbered(e: Event, es: seq<Event>, a: u32, b: u32)
    requires es != [] && es[0] == e
    ensures GroupNumbered(Lost(e), a, b) && NextPacket(es, a) == NextPacket([e], a) && Numbers(es[..1]) == Numbers([e])
  {
    assert es[..1] == [e];
  }

  lemma SentNumbered(cfg: Config, es: seq<Event>, k: nat, p: Packet, a: u32, b: u32)
    requires 1 <= k <= |es| && CountsOn(p.samples, es[..k], b)
    requires es[0].top.seqNo == 0 ==> p.seqNo == NextPacket(es, a)
    ensures GroupNumbered(Sent(es[..k], p), a, b) && NextPacket(es[..k], a) == NextPacket(es, a)
    ensures Respent(cfg, es[..k], es[k..]) == Respent(cfg, es, es[k..])
  {
    hide CountsOn;
  }

  /** Only the first event after a datagram matters for its numbers. */
  lemma {:induction false} SequenceHead(cfg: Config, gs: seq<Group>, r: seq<Event>, r': seq<Event>, a: u32, b: u32)
    requires r != [] && r' != [] && r[0] == r'[0]
    ensures SamplesAfter(cfg, gs, r, b) == SamplesAfter(cfg, gs, r', b)
    ensures InSequence(cfg, gs, r, a, b) ==> InSequence(cfg, gs, r', a, b)
    decreases |gs|
  {
    hide GroupNumbered, Numbers, Compatible, Len;
    if gs != [] {
      var g := gs[|gs| - 1];
      SequenceHead(cfg, gs[..|gs| - 1], EventsOf(g) + r, EventsOf(g) + r', a, b);
    }
  }

  lemma {:induction false} SequenceConcat(cfg: Config, gs: seq<Group>, hs: seq<Group>, rest: seq<Event>, a: u32, b: u32)
    requires InSequence(cfg, gs, Flatten(hs) + rest, a, b)
    requires InSequence(cfg, hs, rest, PacketsAfter(gs, a), SamplesAfter(cfg, gs, Flatten(hs) + rest, b))
    ensures InSequence(cfg, gs + hs, rest, a, b)
    ensures PacketsAfter(gs + hs, a) == PacketsAfter(hs, PacketsAfter(gs, a))
    ensures SamplesAfter(cfg, gs + hs, rest, b)
            == SamplesAfter(cfg, hs, rest, SamplesAfter(cfg, gs, Flatten(hs) + rest, b))
    decreases |hs|
  {
    hide *;
    if hs == [] {
      NoGroups(cfg);
      Empty(gs);
      Empty(rest);
      NoSequence(cfg, rest, PacketsAfter(gs, a), SamplesAfter(cfg, gs, rest, b));
    } else {
      var n := |hs| - 1;
      var front, g := hs[..n], hs[n];
      SequenceLast(cfg, hs, rest, PacketsAfter(gs, a), SamplesAfter(cfg, gs, Flatten(hs) + rest, b));
      Assoc(Flatten(front), EventsOf(g), rest);
      SequenceConcat(cfg, gs, front, EventsOf(g) + rest, a, b);
      assert gs + hs == (gs + front) + [g] by { assert hs == front + [g]; }
      SequenceSnoc(cfg, gs + front, g, rest, a, b);
    }
  }

  lemma SequenceLast(cfg: Config, gs: seq<Group>, rest: seq<Event>, a: u32, b: u32)
    requires gs != [] && InSequence(cfg, gs, rest, a, b)
    ensures var front, g := gs[..|gs| - 1], gs[|gs| - 1];
            && InSequence(cfg, front, EventsOf(g) + rest, a, b) && Flatten(gs) == Flatten(front) + EventsOf(g)
            && GroupNumbered(g, PacketsAfter(front, a), SamplesAfter(cfg, front, EventsOf(g) + rest, b))
            && PacketsAfter(gs, a) == NextPacket(EventsOf(g), PacketsAfter(front, a))
            && SamplesAfter(cfg, gs, rest, b)
               == Len(SamplesAfter(cfg, front, EventsOf(g) + rest, b) + Numbers(EventsOf(g))
                      + (if g.Sent? then Respent(cfg, g.events, rest) else 0))
  {
    hide GroupNumbered, NextPacket, Respent, Numbers, EventsOf, Len;
  }

  lemma ForeignSequence(cfg: Config, gs: seq<Group>, es: seq<Event>, e: Event, a: u32, b: u32)
    requires GroupsOk(cfg, gs) && Flatten(gs) == es && es != [] && InSequence(cfg, gs, [], a, b)
    requires forall i :: 0 < i < |es| ==> Compatible(cfg, es[0].top, es[i].top)
    requires !Compatible(cfg, es[0].top, e.top)
    ensures InSequence(cfg, gs, [e], a, b) && SamplesAfter(cfg, gs, [e], b) == SamplesAfter(cfg, gs, [], b)
  {
    hide GroupOk, GroupNumbered, Numbers, Len;
    var n := |gs| - 1;
    var g, front := gs[n], Flatten(gs[..n]);
    SentNonempty(cfg, g);
    assert EventsOf(g)[0] == es[|front|];
    SequenceHead(cfg, gs[..n], EventsOf(g) + [], EventsOf(g) + [e], a, b);
  }
}

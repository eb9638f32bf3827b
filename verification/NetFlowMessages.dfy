/** The round trip of whole packets, against whatever templates the decoder already holds. */
module NetFlowMessages {
  import opened Bytes
  import opened NetFlowTypes
  import opened NetFlowPrinter
  import opened NetFlowParser
  import opened NetFlowRoundTrip

  function Stored(session: Session, store: Store, fs: FlowSet): Option<Template>
  {
    Lookup(store, session.Key(fs.id))
  }

  /** The set can be written, and the decoder will read it with the same layout. */
  predicate HeadFits(session: Session, fs: FlowSet, known: Announced, store: Store)
  {
    && EncodeSet(session.version, fs, known).Some?
    && 4 + |EncodeSet(session.version, fs, known).value.0| <= 0xffff
    && SetFits(session.version, fs, known, Stored(session, store, fs))
  }

  function CanonHead(session: Session, fs: FlowSet, known: Announced, store: Store): FlowSet
    requires HeadFits(session, fs, known, store)
  {
    CanonSet(session.version, fs, known, Stored(session, store, fs),
             4 + |EncodeSet(session.version, fs, known).value.0|)
  }

  /** Every set fits, where templates count from the moment an earlier set announces them. */
  predicate AllFit(session: Session, sets: seq<FlowSet>, known: Announced, store: Store)
  {
    sets == []
    || (HeadFits(session, sets[0], known, store)
        && AllFit(session, sets[1..], AfterSet(sets[0], known),
                  Learn(store, session, CanonHead(session, sets[0], known, store))))
  }

  predicate AllSafe(session: Session, sets: seq<FlowSet>, known: Announced, store: Store)
    requires AllFit(session, sets, known, store)
  {
    sets == []
    || (SetSafe(sets[0], known, Stored(session, store, sets[0]))
        && AllSafe(session, sets[1..], AfterSet(sets[0], known),
                   Learn(store, session, CanonHead(session, sets[0], known, store))))
  }

  function CanonSets(session: Session, sets: seq<FlowSet>, known: Announced, store: Store): (r: seq<FlowSet>)
    requires AllFit(session, sets, known, store)
    ensures |r| == |sets|
  {
    if sets == [] then []
    else
      var head := CanonHead(session, sets[0], known, store);
      [head] + CanonSets(session, sets[1..], AfterSet(sets[0], known), Learn(store, session, head))
  }

  /** The store after the decoder has learned every template the sets announce. */
  function LearnAll(store: Store, session: Session, sets: seq<FlowSet>): Store
    decreases |sets|
  {
    if sets == [] then store else LearnAll(Learn(store, session, sets[0]), session, sets[1..])
  }

  predicate HasRaw(sets: seq<FlowSet>)
  {
    sets != [] && (sets[0].RawFlowSet? || HasRaw(sets[1..]))
  }

  lemma FrameRoundTrip(id: u16, payload: bytes, more: bytes)
    requires 4 + |payload| <= 0xffff
    ensures var s := U16(id) + (U16(4 + |payload|) + (payload + more));
            |s| == 4 + |payload| + |more| && NextFrame(s) == Some((Frame(id, 4 + |payload|, payload), more))
  {
    ReadBackPair(id, 4 + |payload|, payload + more);
    TakeDropAppend(payload, more);
  }

  /** One set in front of others: what the decoder makes of it, and where it goes on. */
  lemma HeadRoundTrip(session: Session, fs: FlowSet, known: Announced, store: Store)
    requires session.version == 9 || session.version == 10
    requires HeadFits(session, fs, known, store)
    ensures var (payload, id) := EncodeSet(session.version, fs, known).value;
            Interpret(session.version, Frame(id, 4 + |payload|, payload), Lookup(store, session.Key(id)))
            == Some(CanonHead(session, fs, known, store))
            <==> SetSafe(fs, known, Stored(session, store, fs))
  {
    var (payload, id) := EncodeSet(session.version, fs, known).value;
    assert !fs.Announces() ==> id == fs.id;
    hide EncodeSet, Interpret, CanonTemplates, RecordsFit, CanonRecords, EncodeRecords, PaddingSafe;
    if fs.Announces() {
      SetRoundTrip(session.version, fs, known, Lookup(store, session.Key(id)));
    } else {
      SetRoundTrip(session.version, fs, known, Stored(session, store, fs));
    }
  }

  lemma EncodeSetsCons(version: u16, sets: seq<FlowSet>, known: Announced)
    requires sets != [] && EncodeSets(version, sets, known).Some?
    ensures EncodeSet(version, sets[0], known).Some? && EncodeSets(version, sets[1..], AfterSet(sets[0], known)).Some?
    ensures var (payload, id) := EncodeSet(version, sets[0], known).value;
            && 4 + |payload| <= 0xffff
            && EncodeSets(version, sets, known).value
               == U16(id) + (U16(4 + |payload|)
                             + (payload + EncodeSets(version, sets[1..], AfterSet(sets[0], known)).value))
  {
  }

  /** Nothing of the message is left: the rest is too short, or past the announced length. */
  predicate Ends(session: Session, size: u16, start: nat, rest: bytes)
  {
    |rest| <= start && if session.version == 9 then |rest| < 4 else start - |rest| == size
  }

  lemma NotYetAtEnd(session: Session, size: u16, start: nat, s: bytes, rest: bytes)
    requires Ends(session, size, start, rest) && 4 + |rest| <= |s| <= start
    ensures More(session, size, start, s)
  {
  }

  lemma DecodeSetsStep(session: Session, size: u16, start: nat, store: Store, s: bytes, frame: Frame, rest: bytes)
    requires |s| <= start && More(session, size, start, s) && NextFrame(s) == Some((frame, rest))
    ensures DecodeSets(session, size, start, store, s) ==
            match Interpret(session.version, frame, Lookup(store, session.Key(frame.id)))
            case None => Message([], store, false, true)
            case Some(fs) => Cons(fs, DecodeSets(session, size, start, Learn(store, session, fs), rest))
  {
  }

  /** What decoding should leave: the canonical sets, the templates they announce, no error. */
  function Expected(session: Session, sets: seq<FlowSet>, known: Announced, store: Store): (m: Message)
    requires AllFit(session, sets, known, store)
    ensures m.missing == HasRaw(m.flowSets) && !m.failed
  {
    var canon := CanonSets(session, sets, known, store);
    Message(canon, LearnAll(store, session, canon), HasRaw(canon), false)
  }

  function Cons(fs: FlowSet, m: Message): Message
  {
    Message([fs] + m.flowSets, m.store, fs.RawFlowSet? || m.missing, m.failed)
  }

  lemma ConsInjective(a: FlowSet, m: Message, b: FlowSet, n: Message)
    requires m.missing == HasRaw(m.flowSets) && n.missing == HasRaw(n.flowSets)
    ensures Cons(a, m) == Cons(b, n) <==> a == b && m == n
  {
    assert ([a] + m.flowSets)[0] == a && ([b] + n.flowSets)[0] == b;
    assert ([a] + m.flowSets)[1..] == m.flowSets && ([b] + n.flowSets)[1..] == n.flowSets;
  }

  lemma ExpectedCons(session: Session, sets: seq<FlowSet>, known: Announced, store: Store)
    requires sets != [] && AllFit(session, sets, known, store)
    ensures var head := CanonHead(session, sets[0], known, store);
            Expected(session, sets, known, store)
            == Cons(head, Expected(session, sets[1..], AfterSet(sets[0], known), Learn(store, session, head)))
  {
    var head := CanonHead(session, sets[0], known, store);
    var tail := CanonSets(session, sets[1..], AfterSet(sets[0], known), Learn(store, session, head));
    assert ([head] + tail)[1..] == tail;
  }

  lemma AllFitCons(session: Session, sets: seq<FlowSet>, known: Announced, store: Store)
    requires sets != [] && AllFit(session, sets, known, store)
    ensures HeadFits(session, sets[0], known, store)
    ensures EncodeSet(session.version, sets[0], known).Some?
            && 4 + |EncodeSet(session.version, sets[0], known).value.0| <= 0xffff
    ensures AllFit(session, sets[1..], AfterSet(sets[0], known),
                   Learn(store, session, CanonHead(session, sets[0], known, store)))
  {
  }

  lemma AllSafeCons(session: Session, sets: seq<FlowSet>, known: Announced, store: Store)
    requires sets != [] && AllFit(session, sets, known, store)
    ensures var store' := Learn(store, session, CanonHead(session, sets[0], known, store));
            AllSafe(session, sets, known, store)
            <==> SetSafe(sets[0], known, Stored(session, store, sets[0]))
                 && AllSafe(session, sets[1..], AfterSet(sets[0], known), store')
  {
  }

  /** A message's missing flag says whether it kept a raw set. */
  lemma {:induction false} MissingIsRaw(session: Session, size: u16, start: nat, store: Store, s: bytes)
    requires |s| <= start
    ensures var m := DecodeSets(session, size, start, store, s); m.missing == HasRaw(m.flowSets)
    decreases |s|
  {
    if More(session, size, start, s) && NextFrame(s).Some? {
      var (frame, rest) := NextFrame(s).value;
      DecodeSetsStep(session, size, start, store, s, frame, rest);
      match Interpret(session.version, frame, Lookup(store, session.Key(frame.id)))
      case None =>
      case Some(fs) =>
        MissingIsRaw(session, size, start, Learn(store, session, fs), rest);
        var m := DecodeSets(session, size, start, Learn(store, session, fs), rest);
        assert ([fs] + m.flowSets)[1..] == m.flowSets;
    }
  }

  /** The first frame of the encoded sets is the first set, and the decoder goes on with the others. */
  lemma FirstFrame(session: Session, size: u16, start: nat, sets: seq<FlowSet>, known: Announced, store: Store,
                   rest: bytes)
    requires sets != [] && EncodeSets(session.version, sets, known).Some?
    requires |EncodeSets(session.version, sets, known).value| + |rest| <= start && Ends(session, size, start, rest)
    ensures EncodeSet(session.version, sets[0], known).Some?
            && EncodeSets(session.version, sets[1..], AfterSet(sets[0], known)).Some?
    ensures var (payload, id) := EncodeSet(session.version, sets[0], known).value;
            var tail := EncodeSets(session.version, sets[1..], AfterSet(sets[0], known)).value;
            && 4 + |payload| <= 0xffff && |tail| + |rest| <= start
            && DecodeSets(session, size, start, store, EncodeSets(session.version, sets, known).value + rest) ==
               match Interpret(session.version, Frame(id, 4 + |payload|, payload), Lookup(store, session.Key(id)))
               case None => Message([], store, false, true)
               case Some(fs) => Cons(fs, DecodeSets(session, size, start, Learn(store, session, fs), tail + rest))
  {
    EncodeSetsCons(session.version, sets, known);
    hide EncodeSet, EncodeSets, Interpret, DecodeSets, NextFrame, Learn, Announce, U16, More;
    var (payload, id) := EncodeSet(session.version, sets[0], known).value;
    var tail := EncodeSets(session.version, sets[1..], AfterSet(sets[0], known)).value;
    SetWire(id, payload, tail, rest);
    FrameRoundTrip(id, payload, tail + rest);
    var s := EncodeSets(session.version, sets, known).value + rest;
    NotYetAtEnd(session, size, start, s, rest);
    DecodeSetsStep(session, size, start, store, s, Frame(id, 4 + |payload|, payload), tail + rest);
  }

  lemma NoSets(session: Session, size: u16, start: nat, known: Announced, store: Store, rest: bytes)
    requires Ends(session, size, start, rest)
    ensures EncodeSets(session.version, [], known) == Some([]) && AllFit(session, [], known, store)
            && AllSafe(session, [], known, store)
    ensures DecodeSets(session, size, start, store, [] + rest) == Expected(session, [], known, store)
  {
    hide More;
    Empty(rest);
    AtEnd(session, size, start, rest);
  }

  lemma AtEnd(session: Session, size: u16, start: nat, rest: bytes)
    requires Ends(session, size, start, rest)
    ensures !More(session, size, start, rest)
  {
  }

  /**
   * Decoding the encoded sets gives the canonical sets, in order, exactly when no set's padding can be read as a
   * record.
   */
  lemma {:induction false} SetsRoundTrip(session: Session, size: u16, start: nat, sets: seq<FlowSet>, known: Announced,
                                         store: Store, rest: bytes)
    requires session.version == 9 || session.version == 10
    requires AllFit(session, sets, known, store) && EncodeSets(session.version, sets, known).Some?
    requires |EncodeSets(session.version, sets, known).value| + |rest| <= start && Ends(session, size, start, rest)
    ensures DecodeSets(session, size, start, store, EncodeSets(session.version, sets, known).value + rest)
            == Expected(session, sets, known, store)
            <==> AllSafe(session, sets, known, store)
    decreases |sets|
  {
    hide *;
    if sets == [] {
      NoSets(session, size, start, known, store, rest);
    } else {
      AllFitCons(session, sets, known, store);
      var lhs := DecodeSets(session, size, start, store, EncodeSets(session.version, sets, known).value + rest);
      FirstFrame(session, size, start, sets, known, store, rest);
      ExpectedCons(session, sets, known, store);
      AllSafeCons(session, sets, known, store);
      HeadRoundTrip(session, sets[0], known, store);
      var (payload, id) := EncodeSet(session.version, sets[0], known).value;
      var known' := AfterSet(sets[0], known);
      var tail := EncodeSets(session.version, sets[1..], known').value;
      var head := CanonHead(session, sets[0], known, store);
      var store' := Learn(store, session, head);
      var e := Expected(session, sets[1..], known', store');
      SetsRoundTrip(session, size, start, sets[1..], known', store', rest);
      var read := Interpret(session.version, Frame(id, 4 + |payload|, payload), Lookup(store, session.Key(id)));
      var after := if read.Some? then Learn(store, session, read.value) else store';
      MissingIsRaw(session, size, start, after, tail + rest);
      RoundTripStep(lhs, store, read, DecodeSets(session, size, start, after, tail + rest), head, e,
                    SetSafe(sets[0], known, Stored(session, store, sets[0])),
                      AllSafe(session, sets[1..], known', store'));
    }
  }

  /** The first set comes back and the others do, or the message differs. */
  lemma RoundTripStep(lhs: Message, store: Store, read: Option<FlowSet>, m: Message, head: FlowSet, e: Message,
                      safeHead: bool, safeTail: bool)
    requires lhs == if read.Some? then Cons(read.value, m) else Message([], store, false, true)
    requires m.missing == HasRaw(m.flowSets) && e.missing == HasRaw(e.flowSets) && !e.failed
    requires read == Some(head) <==> safeHead
    requires read == Some(head) ==> (m == e <==> safeTail)
    ensures lhs == Cons(head, e) <==> safeHead && safeTail
  {
    if read.Some? {
      ConsInjective(read.value, m, head, e);
    }
  }

  lemma SetWire(id: u16, payload: bytes, tail: bytes, rest: bytes)
    requires 4 + |payload| <= 0xffff
    ensures U16(id) + (U16(4 + |payload|) + (payload + tail)) + rest
            == U16(id) + (U16(4 + |payload|) + (payload + (tail + rest)))
  {
    Assoc(U16(id), U16(4 + |payload|) + (payload + tail), rest);
    Assoc(U16(4 + |payload|), payload + tail, rest);
    Assoc(payload, tail, rest);
  }

  // ---------- packets ----------

  /** The header words that follow the version, read back. */
  lemma NFv9Header(count: u16, uptime: u32, secs: u32, seqno: u32, source: u32, payload: bytes)
    ensures var s := U16(count) + (U32(uptime) + (U32(secs) + (U32(seqno) + (U32(source) + payload))));
            && |s| == 18 + |payload| && HeadU16(s) == count && HeadU32(s[2..]) == uptime
            && HeadU32(s[6..]) == secs && HeadU32(s[10..]) == seqno && HeadU32(s[14..]) == source && s[18..] == payload
  {
    var s3 := U32(source) + payload;
    var s2 := U32(seqno) + s3;
    var s1 := U32(secs) + s2;
    var s0 := U32(uptime) + s1;
    var s := U16(count) + s0;
    ReadBackU16(count, s0);
    ReadBackU32(uptime, s1);
    assert s[6..] == s[2..][4..] == s1;
    ReadBackU32(secs, s2);
    assert s[10..] == s[6..][4..] == s2;
    ReadBackU32(seqno, s3);
    assert s[14..] == s[10..][4..] == s3;
    ReadBackU32(source, payload);
    assert s[18..] == s[14..][4..];
  }

  lemma IPFIXHeader(length: u16, time: u32, seqno: u32, domain: u32, payload: bytes)
    ensures var s := U16(length) + (U32(time) + (U32(seqno) + (U32(domain) + payload)));
            && |s| == 14 + |payload| && HeadU16(s) == length && HeadU32(s[2..]) == time
            && HeadU32(s[6..]) == seqno && HeadU32(s[10..]) == domain && s[14..] == payload
  {
    var s2 := U32(domain) + payload;
    var s1 := U32(seqno) + s2;
    var s0 := U32(time) + s1;
    var s := U16(length) + s0;
    ReadBackU16(length, s0);
    ReadBackU32(time, s1);
    assert s[6..] == s[2..][4..] == s1;
    ReadBackU32(seqno, s2);
    assert s[10..] == s[6..][4..] == s2;
    ReadBackU32(domain, payload);
    assert s[14..] == s[10..][4..];
  }

  function NFv9Wire(count: u16, p: NFv9Packet, body: bytes): bytes
  {
    U16(9) + (U16(count) + (U32(p.systemUptime) + (U32(p.unixSeconds)
                                                   + (U32(p.sequenceNumber) + (U32(p.sourceId) + body)))))
  }

  function IPFIXWire(length: u16, p: IPFIXPacket, body: bytes): bytes
  {
    U16(10) + (U16(length) + (U32(p.exportTime) + (U32(p.sequenceNumber) + (U32(p.domainId) + body))))
  }

  lemma DecodeNFv9Wire(router: string, store: Store, count: u16, p: NFv9Packet, body: bytes)
    ensures var m := DecodeSets(Session(router, 9, p.sourceId), count, |body|, store, body);
            DecodePacket(router, store, NFv9Wire(count, p, body))
            == Outcome(NFv9(p.(version := 9, count := count, flowSets := m.flowSets)), m.store, m.missing, m.failed)
  {
    hide U16, U32, DecodeSets;
    NFv9Header(count, p.systemUptime, p.unixSeconds, p.sequenceNumber, p.sourceId, body);
    ReadBackU16(9, U16(count) + (U32(p.systemUptime) + (U32(p.unixSeconds)
                                                        + (U32(p.sequenceNumber) + (U32(p.sourceId) + body)))));
  }

  lemma DecodeIPFIXWire(router: string, store: Store, length: u16, p: IPFIXPacket, body: bytes)
    requires length >= 16
    ensures var m := DecodeSets(Session(router, 10, p.domainId), length - 16, |body|, store, body);
            DecodePacket(router, store, IPFIXWire(length, p, body))
            == Outcome(IPFIX(p.(version := 10, length := length, flowSets := m.flowSets)), m.store, m.missing, m.failed)
  {
    hide U16, U32, DecodeSets, SetBytes;
    IPFIXHeader(length, p.exportTime, p.sequenceNumber, p.domainId, body);
    ReadBackU16(10, U16(length) + (U32(p.exportTime) + (U32(p.sequenceNumber) + (U32(p.domainId) + body))));
    NoWrap(length);
  }

  lemma NoWrap(length: u16)
    requires length >= 16
    ensures SetBytes(length) == length - 16
  {
  }

  lemma IPFIXWireAppend(length: u16, p: IPFIXPacket, body: bytes, rest: bytes)
    ensures IPFIXWire(length, p, body) + rest == IPFIXWire(length, p, body + rest)
    ensures |IPFIXWire(length, p, body)| == 16 + |body|
  {
    Assoc(U32(p.domainId), body, rest);
    Assoc(U32(p.sequenceNumber), U32(p.domainId) + body, rest);
    Assoc(U32(p.exportTime), U32(p.sequenceNumber) + (U32(p.domainId) + body), rest);
    Assoc(U16(length), U32(p.exportTime) + (U32(p.sequenceNumber) + (U32(p.domainId) + body)), rest);
    Assoc(U16(10), U16(length) + (U32(p.exportTime) + (U32(p.sequenceNumber) + (U32(p.domainId) + body))), rest);
  }

  /**
   * NetFlow v9: for every packet whose sets fit, from any router and over any store, decoding the
   * encoded bytes gives the packet with ids, counts and lengths filled in, and reports a missing
   * template exactly when a raw set was sent, if and only if no padding can be read as a record.
   */
  lemma NFv9RoundTrip(router: string, store: Store, p: NFv9Packet)
    requires EncodeNFv9(p).Some? && AllFit(Session(router, 9, p.sourceId), p.flowSets, map[], store)
    ensures var e := Expected(Session(router, 9, p.sourceId), p.flowSets, map[], store);
            var count := if p.count == 0 then |p.flowSets| % 0x1_0000 else p.count;
            DecodePacket(router, store, EncodeNFv9(p).value)
            == Outcome(NFv9(p.(version := 9, count := count, flowSets := e.flowSets)), e.store, e.missing, false)
            <==> AllSafe(Session(router, 9, p.sourceId), p.flowSets, map[], store)
  {
    var session := Session(router, 9, p.sourceId);
    var body := EncodeSets(9, p.flowSets, map[]).value;
    var count := if p.count == 0 then |p.flowSets| % 0x1_0000 else p.count;
    DecodeNFv9Wire(router, store, count, p, body);
    SetsRoundTrip(session, count, |body|, p.flowSets, map[], store, []);
    assert body + [] == body;
    var m := DecodeSets(session, count, |body|, store, body);
    MissingIsRaw(session, count, |body|, store, body);
    SameOutcome(m, Expected(session, p.flowSets, map[], store));
  }

  lemma SameOutcome(m: Message, e: Message)
    requires m.missing == HasRaw(m.flowSets) && e.missing == HasRaw(e.flowSets)
    ensures m == e <==> m.flowSets == e.flowSets && m.store == e.store && m.failed == e.failed
  {
  }

  /** IPFIX: the same, and bytes that follow the message in the buffer are not read. */
  lemma IPFIXRoundTrip(router: string, store: Store, p: IPFIXPacket, rest: bytes)
    requires EncodeIPFIX(p).Some? && AllFit(Session(router, 10, p.domainId), p.flowSets, map[], store)
    ensures var e := Expected(Session(router, 10, p.domainId), p.flowSets, map[], store);
            DecodePacket(router, store, EncodeIPFIX(p).value + rest)
            == Outcome(IPFIX(p.(version := 10, length := |EncodeIPFIX(p).value|, flowSets := e.flowSets)), e.store,
                       e.missing, false)
            <==> AllSafe(Session(router, 10, p.domainId), p.flowSets, map[], store)
  {
    hide EncodeSets, AllFit, AllSafe, DecodeSets, DecodePacket, CanonSets, LearnAll, HasRaw, U16, U32;
    var session := Session(router, 10, p.domainId);
    var body := EncodeSets(10, p.flowSets, map[]).value;
    var length := 16 + |body|;
    IPFIXWireAppend(length, p, body, rest);
    DecodeIPFIXWire(router, store, length, p, body + rest);
    SetsRoundTrip(session, |body|, |body + rest|, p.flowSets, map[], store, rest);
    var m := DecodeSets(session, |body|, |body + rest|, store, body + rest);
    MissingIsRaw(session, |body|, |body + rest|, store, body + rest);
    SameOutcome(m, Expected(session, p.flowSets, map[], store));
  }

  // ---------- packets that carry their own templates ----------

  function KindOfTemplate(version: u16, t: Template): TemplateKind
  {
    match t
    case TemplateRecord(_, _, _) => if version == 9 then NFv9Data else IPFIXData
    case NFv9OptionsTemplateRecord(_, _, _, _, _) => NFv9Options
    case IPFIXOptionsTemplateRecord(_, _, _, _, _) => IPFIXOptions
  }

  /** A zero in the template lets any value through the encoder, so such a value must be empty. */
  predicate ZeroLengthsEmpty(fs: seq<Field>, dfs: seq<DataField>)
  {
    |fs| == |dfs| ==>
      forall i :: 0 <= i < |fs| ==> fs[i].length == 0 && !dfs[i].value.Unsupported? ==> dfs[i].value.data == []
  }

  /** Every data set follows its own template in the same packet, and that template takes four octets or more. */
  predicate SelfContained(version: u16, sets: seq<FlowSet>, known: Announced)
    decreases |sets|
  {
    sets == [] || (SetContained(version, sets[0], known) && SelfContained(version, sets[1..], AfterSet(sets[0], known)))
  }

  predicate SetContained(version: u16, fs: FlowSet, known: Announced)
  {
    if fs.Announces() then
      forall i :: 0 <= i < |fs.templates| ==> PlainTemplate(KindOfTemplate(version, fs.templates[i]), fs.templates[i])
    else if fs.RawFlowSet? then false
    else
      && fs.id in known && FixedSize(known[fs.id]) >= 4
      && known[fs.id].TemplateRecord? == fs.DataFlowSet?
      && forall i :: 0 <= i < |fs.records| ==>
                       && ZeroLengthsEmpty(known[fs.id].ScopeFields(), fs.records[i].scopes)
                       && ZeroLengthsEmpty(known[fs.id].ValueFields(), fs.records[i].values)
  }

  /** The decoder's store holds the canonical form of every template the encoder has seen. */
  predicate Mirrors(session: Session, known: Announced, store: Store)
  {
    forall id :: id in known ==>
                   Lookup(store, session.Key(id))
                     == Some(CanonTemplate(KindOfTemplate(session.version, known[id]), known[id]))
  }

  lemma {:induction false} AnnounceMirrors(session: Session, kind: TemplateKind, ts: seq<Template>, known: Announced,
                                           store: Store)
    requires Mirrors(session, known, store) && EncodeTemplates(kind, ts).Some?
    requires forall t: Template :: kind.Holds(t) ==> KindOfTemplate(session.version, t) == kind
    ensures Mirrors(session, Announce(known, ts), AddTemplates(store, session, CanonTemplates(kind, ts)))
    decreases |ts|
  {
    if ts != [] {
      EncodeTemplatesCons(kind, ts);
      hide EncodeTemplate, EncodeTemplates;
      var known' := known[ts[0].templateId := ts[0]];
      var canon := CanonTemplates(kind, ts);
      var store' := store[session.Key(ts[0].templateId) := canon[0]];
      assert canon[1..] == CanonTemplates(kind, ts[1..]);
      assert Mirrors(session, known', store');
      AnnounceMirrors(session, kind, ts[1..], known', store');
    }
  }

  lemma {:induction false} CanonKeepsLengths(fs: seq<Field>, pen: bool)
    ensures TemplateSize(CanonFields(fs, pen)) == TemplateSize(fs)
    ensures forall i :: 0 <= i < |fs| ==> CanonFields(fs, pen)[i].length == fs[i].length
  {
    if fs != [] {
      CanonKeepsLengths(fs[1..], pen);
    }
  }

  lemma {:induction false} EncodedValuesFit(fs: seq<Field>, pen: bool, dfs: seq<DataField>, guide: seq<Option<Field>>)
    requires |fs| == |dfs| == |guide| && (forall i :: 0 <= i < |fs| ==> guide[i] == Some(fs[i]))
    requires EncodeValues(dfs, guide).Some? && ZeroLengthsEmpty(fs, dfs)
    ensures ValuesFit(CanonFields(fs, pen), dfs, guide)
  {
    if fs != [] {
      assert EncodeValue(dfs[0], guide[0]).Some?;
      assert ValueFits(CanonField(fs[0], pen), dfs[0], guide[0]);
      EncodedValuesFit(fs[1..], pen, dfs[1..], guide[1..]);
      var canon := CanonFields(fs, pen);
      forall i | 0 <= i < |fs| ensures ValueFits(canon[i], dfs[i], guide[i]) {
        if i > 0 {
          assert canon[i] == CanonFields(fs[1..], pen)[i - 1] && dfs[i] == dfs[1..][i - 1]
                 && guide[i] == guide[1..][i - 1];
        }
      }
    }
  }

  lemma EncodedRecordFits(options: bool, kind: TemplateKind, t: Template, r: DataRecord)
    requires EncodeRecord(options, Some(t), r).Some?
    requires ZeroLengthsEmpty(t.ScopeFields(), r.scopes) && ZeroLengthsEmpty(t.ValueFields(), r.values)
    ensures RecordFits(CanonTemplate(kind, t), r, Some(t))
  {
    var pen := kind.Enterprise();
    EncodedValuesFit(t.ScopeFields(), pen, r.scopes, ScopeGuide(Some(t), |r.scopes|));
    EncodedValuesFit(t.ValueFields(), pen, r.values, ValueGuide(Some(t), |r.values|));
    assert CanonFields([], pen) == [];
    assert CanonTemplate(kind, t).ScopeFields() == CanonFields(t.ScopeFields(), pen);
    assert CanonTemplate(kind, t).ValueFields() == CanonFields(t.ValueFields(), pen);
  }

  lemma {:induction false} EncodedRecordsFit(options: bool, kind: TemplateKind, t: Template, rs: seq<DataRecord>)
    requires EncodeRecords(options, Some(t), rs).Some?
    requires forall i :: 0 <= i < |rs| ==>
               ZeroLengthsEmpty(t.ScopeFields(), rs[i].scopes) && ZeroLengthsEmpty(t.ValueFields(), rs[i].values)
    ensures RecordsFit(CanonTemplate(kind, t), rs, Some(t))
  {
    if rs != [] {
      EncodeRecordsCons(options, Some(t), rs);
      EncodedRecordFits(options, kind, t, rs[0]);
      EncodedRecordsFit(options, kind, t, rs[1..]);
      forall i | 0 <= i < |rs| ensures RecordFits(CanonTemplate(kind, t), rs[i], Some(t)) {
        if i > 0 { assert rs[i] == rs[1..][i - 1]; }
      }
    }
  }

  lemma CanonKeepsSize(kind: TemplateKind, t: Template)
    ensures FixedSize(CanonTemplate(kind, t)) == FixedSize(t)
  {
    CanonKeepsLengths(t.ScopeFields(), kind.Enterprise());
    CanonKeepsLengths(t.ValueFields(), kind.Enterprise());
    assert CanonFields([], kind.Enterprise()) == [];
  }

  lemma CanonKeepsForm(kind: TemplateKind, t: Template)
    ensures CanonTemplate(kind, t).TemplateRecord? == t.TemplateRecord?
  {
  }

  lemma AnnouncingSetFits(session: Session, fs: FlowSet, known: Announced, store: Store)
    requires session.version == 9 || session.version == 10
    requires fs.Announces()
    requires EncodeSet(session.version, fs, known).Some?
             && 4 + |EncodeSet(session.version, fs, known).value.0| <= 0xffff
    requires SetContained(session.version, fs, known)
    ensures HeadFits(session, fs, known, store)
  {
    HeldByKind(KindOf(session.version, fs).value, fs.templates);
  }

  lemma AnnouncingSetMirrors(session: Session, fs: FlowSet, known: Announced, store: Store)
    requires session.version == 9 || session.version == 10
    requires fs.Announces() && HeadFits(session, fs, known, store) && Mirrors(session, known, store)
    ensures Mirrors(session, Announce(known, fs.templates), Learn(store, session, CanonHead(session, fs, known, store)))
  {
    var kind := KindOf(session.version, fs).value;
    AnnounceMirrors(session, kind, fs.templates, known, store);
  }

  lemma DataSetFits(session: Session, fs: FlowSet, known: Announced, store: Store)
    requires fs.DataFlowSet? || fs.OptionsDataFlowSet?
    requires EncodeSet(session.version, fs, known).Some?
             && 4 + |EncodeSet(session.version, fs, known).value.0| <= 0xffff
    requires SetContained(session.version, fs, known) && Mirrors(session, known, store)
    ensures HeadFits(session, fs, known, store) && SetSafe(fs, known, Stored(session, store, fs))
  {
    hide EncodeRecords, CanonTemplate, RecordsFit, PaddingSafe, Pad, ZeroLengthsEmpty, FixedSize, TemplateSize;
    var t := known[fs.id];
    var kind := KindOfTemplate(session.version, t);
    EncodedRecordsFit(fs.OptionsDataFlowSet?, kind, t, fs.records);
    CanonKeepsSize(kind, t);
    CanonKeepsForm(kind, t);
    FourOctetsAreSafe(CanonTemplate(kind, t), fs.records,
                      |EncodeRecords(fs.OptionsDataFlowSet?, Some(t), fs.records).value|);
  }

  lemma ContainedSetFits(session: Session, fs: FlowSet, known: Announced, store: Store)
    requires session.version == 9 || session.version == 10
    requires EncodeSet(session.version, fs, known).Some?
             && 4 + |EncodeSet(session.version, fs, known).value.0| <= 0xffff
    requires SetContained(session.version, fs, known) && Mirrors(session, known, store)
    ensures HeadFits(session, fs, known, store) && SetSafe(fs, known, Stored(session, store, fs))
    ensures Mirrors(session, AfterSet(fs, known), Learn(store, session, CanonHead(session, fs, known, store)))
  {
    hide EncodeSet, SetFits, CanonTemplate, CanonTemplates;
    if fs.Announces() {
      AnnouncingSetFits(session, fs, known, store);
      AnnouncingSetMirrors(session, fs, known, store);
    } else {
      DataSetFits(session, fs, known, store);
    }
  }

  lemma {:induction false} HeldByKind(kind: TemplateKind, ts: seq<Template>)
    requires EncodeTemplates(kind, ts).Some?
    ensures forall i :: 0 <= i < |ts| ==> kind.Holds(ts[i])
  {
    if ts != [] {
      EncodeTemplatesCons(kind, ts);
      HeldByKind(kind, ts[1..]);
      forall i | 0 <= i < |ts| ensures kind.Holds(ts[i]) {
        if i > 0 { assert ts[i] == ts[1..][i - 1]; }
      }
    }
  }

  /** Such packets meet every condition of the round trip, whatever the decoder's store holds. */
  lemma {:induction false} SelfContainedFits(session: Session, sets: seq<FlowSet>, known: Announced, store: Store)
    requires session.version == 9 || session.version == 10
    requires EncodeSets(session.version, sets, known).Some?
    requires SelfContained(session.version, sets, known) && Mirrors(session, known, store)
    ensures AllFit(session, sets, known, store) && AllSafe(session, sets, known, store)
    decreases |sets|
  {
    if sets != [] {
      EncodeSetsCons(session.version, sets, known);
      ContainedSetFits(session, sets[0], known, store);
      SelfContainedFits(session, sets[1..], AfterSet(sets[0], known),
                        Learn(store, session, CanonHead(session, sets[0], known, store)));
    }
  }

  lemma {:induction false} NothingRaw(session: Session, sets: seq<FlowSet>, known: Announced, store: Store)
    requires SelfContained(session.version, sets, known) && AllFit(session, sets, known, store)
    ensures !HasRaw(CanonSets(session, sets, known, store))
    decreases |sets|
  {
    hide HeadFits, CanonHead;
    if sets != [] {
      var head := CanonHead(session, sets[0], known, store);
      NotRaw(session, sets[0], known, store);
      NothingRaw(session, sets[1..], AfterSet(sets[0], known), Learn(store, session, head));
      var later := CanonSets(session, sets[1..], AfterSet(sets[0], known), Learn(store, session, head));
      assert ([head] + later)[1..] == later;
    }
  }

  lemma NotRaw(session: Session, fs: FlowSet, known: Announced, store: Store)
    requires SetContained(session.version, fs, known) && HeadFits(session, fs, known, store)
    ensures !CanonHead(session, fs, known, store).RawFlowSet?
  {
    hide EncodeSet, CanonTemplates, CanonRecords;
  }

  /** The round trip for self-contained packets: always, on any collector, which learns their templates. */
  lemma SelfContainedNFv9(router: string, store: Store, p: NFv9Packet)
    requires EncodeNFv9(p).Some? && SelfContained(9, p.flowSets, map[])
    ensures var session := Session(router, 9, p.sourceId);
            && AllFit(session, p.flowSets, map[], store)
            && var sets := CanonSets(session, p.flowSets, map[], store);
               var count := if p.count == 0 then |p.flowSets| % 0x1_0000 else p.count;
               DecodePacket(router, store, EncodeNFv9(p).value)
               == Outcome(NFv9(p.(version := 9, count := count, flowSets := sets)), LearnAll(store, session, sets),
                          false, false)
  {
    hide AllFit, AllSafe, EncodeSets, DecodePacket, CanonSets, LearnAll, HasRaw, SelfContained;
    SelfContainedFits(Session(router, 9, p.sourceId), p.flowSets, map[], store);
    NothingRaw(Session(router, 9, p.sourceId), p.flowSets, map[], store);
    NFv9RoundTrip(router, store, p);
  }

  lemma SelfContainedIPFIX(router: string, store: Store, p: IPFIXPacket, rest: bytes)
    requires EncodeIPFIX(p).Some? && SelfContained(10, p.flowSets, map[])
    ensures var session := Session(router, 10, p.domainId);
            && AllFit(session, p.flowSets, map[], store)
            && var sets := CanonSets(session, p.flowSets, map[], store);
               DecodePacket(router, store, EncodeIPFIX(p).value + rest)
               == Outcome(IPFIX(p.(version := 10, length := |EncodeIPFIX(p).value|, flowSets := sets)),
                          LearnAll(store, session, sets), false, false)
  {
    hide AllFit, AllSafe, EncodeSets, DecodePacket, CanonSets, LearnAll, HasRaw, SelfContained;
    SelfContainedFits(Session(router, 10, p.domainId), p.flowSets, map[], store);
    NothingRaw(Session(router, 10, p.domainId), p.flowSets, map[], store);
    IPFIXRoundTrip(router, store, p, rest);
  }

  // ---------- a packet whose padding is read as records ----------

  /** A template with one field of one octet, and a set holding one record of it. */
  const PROTOCOL := TemplateRecord(256, 1, [Field(false, 4, 1, 0)])
  const ONE_RECORD := DataFlowSet(256, 0, [DataRecord([], [DataField(false, 4, 1, 0, Raw([6]))])])
  const ANNOUNCE := TemplateFlowSet(0, 0, [PROTOCOL])
  const UNSAFE := [ANNOUNCE, ONE_RECORD]

  lemma OneRecordWire(known: Announced)
    requires Known(known, 256) == Some(PROTOCOL)
    ensures EncodeRecords(false, Known(known, 256), ONE_RECORD.records) == Some([6])
    ensures Padding(1) == 3 && FixedSize(PROTOCOL) == 1
  {
    var r, tmpl := ONE_RECORD.records[0], Known(known, 256);
    var guide := ValueGuide(tmpl, 1);
    Empty([6]);
    assert EncodeValue(r.values[0], guide[0]) == Some([6]);
    assert EncodeValues(r.values[1..], guide[1..]) == Some([]);
    assert EncodeValues(r.values, guide) == Some([6]);
    assert EncodeValues(r.scopes, ScopeGuide(tmpl, 0)) == Some([]);
    assert EncodeRecord(false, tmpl, r) == Some([6]);
    assert EncodeRecords(false, tmpl, ONE_RECORD.records[1..]) == Some([]);
    assert TemplateSize(PROTOCOL.fields[1..]) == 0;
  }

  lemma OneRecordFits(session: Session, known: Announced, store: Store)
    requires Known(known, 256) == Some(PROTOCOL) && Stored(session, store, ONE_RECORD) == Some(PROTOCOL)
    ensures EncodeSets(session.version, [ONE_RECORD], known).Some?
    ensures |EncodeSets(session.version, [ONE_RECORD], known).value| == 8
    ensures AllFit(session, [ONE_RECORD], known, store) && !AllSafe(session, [ONE_RECORD], known, store)
  {
    OneRecordWire(known);
    assert RecordFits(PROTOCOL, ONE_RECORD.records[0], Known(known, 256));
    var one := [ONE_RECORD];
    assert EncodeSets(session.version, one[1..], known) == Some([]);
    assert HeadFits(session, ONE_RECORD, known, store);
    assert AllFit(session, one[1..], known, Learn(store, session, CanonHead(session, ONE_RECORD, known, store)));
  }

  lemma ProtocolWire(kind: TemplateKind)
    requires kind.Holds(PROTOCOL)
    ensures EncodeTemplate(kind, PROTOCOL).Some? && |EncodeTemplate(kind, PROTOCOL).value| == 8
  {
    assert EncodeFields([], kind.Enterprise()) == [];
    assert EncodeFields(PROTOCOL.fields[1..], kind.Enterprise()) == [];
    assert |EncodeFields(PROTOCOL.fields, kind.Enterprise())| == 4;
  }

  lemma ProtocolIsCanonical(kind: TemplateKind)
    ensures CanonTemplate(kind, PROTOCOL) == PROTOCOL
  {
    var f := Field(false, 4, 1, 0);
    assert PROTOCOL.fields == [f] && [f][1..] == [];
    assert CanonFields([f], kind.Enterprise()) == [f];
  }

  lemma AnnouncedFirst(session: Session, store: Store)
    requires session.version == 9 || session.version == 10
    ensures HeadFits(session, ANNOUNCE, map[], store)
    ensures |EncodeSet(session.version, ANNOUNCE, map[]).value.0| == 8
    ensures Known(AfterSet(ANNOUNCE, map[]), 256) == Some(PROTOCOL)
    ensures Stored(session, Learn(store, session, CanonHead(session, ANNOUNCE, map[], store)), ONE_RECORD)
            == Some(PROTOCOL)
  {
    hide SetFits, Learn;
    var kind := KindOf(session.version, ANNOUNCE).value;
    ProtocolWire(kind);
    assert EncodeTemplates(kind, ANNOUNCE.templates[1..]) == Some([]);
    assert Announce(map[], ANNOUNCE.templates) == Announce(map[256 := PROTOCOL], []);
    ProtocolIsCanonical(kind);
    ContainedSetFits(session, ANNOUNCE, map[], store);
  }

  lemma OneRecordIsUnsafe(session: Session, store: Store)
    requires session.version == 9 || session.version == 10
    ensures EncodeSets(session.version, UNSAFE, map[]).Some? && |EncodeSets(session.version, UNSAFE, map[]).value| == 20
    ensures AllFit(session, UNSAFE, map[], store) && !AllSafe(session, UNSAFE, map[], store)
  {
    hide SetFits, SetSafe, EncodeSet, Learn, CanonHead;
    var known := AfterSet(ANNOUNCE, map[]);
    AnnouncedFirst(session, store);
    assert UNSAFE[0] == ANNOUNCE && UNSAFE[1..] == [ONE_RECORD];
    OneRecordFits(session, known, Learn(store, session, CanonHead(session, ANNOUNCE, map[], store)));
  }

  /** One record of one octet, sent with its template: the three octets of padding are read as further records. */
  lemma NFv9PaddingIsRead(router: string, store: Store, p: NFv9Packet)
    requires p.version == 9 && p.flowSets == UNSAFE
    ensures EncodeNFv9(p).Some? && AllFit(Session(router, 9, p.sourceId), p.flowSets, map[], store)
    ensures var e := Expected(Session(router, 9, p.sourceId), p.flowSets, map[], store);
            var count := if p.count == 0 then 2 else p.count;
            DecodePacket(router, store, EncodeNFv9(p).value)
            != Outcome(NFv9(p.(count := count, flowSets := e.flowSets)), e.store, e.missing, false)
  {
    hide AllFit, AllSafe, EncodeSets, DecodePacket, Expected;
    OneRecordIsUnsafe(Session(router, 9, p.sourceId), store);
    NFv9RoundTrip(router, store, p);
  }

  lemma IPFIXPaddingIsRead(router: string, store: Store, p: IPFIXPacket, rest: bytes)
    requires p.version == 10 && p.flowSets == UNSAFE
    ensures EncodeIPFIX(p).Some? && AllFit(Session(router, 10, p.domainId), p.flowSets, map[], store)
    ensures var e := Expected(Session(router, 10, p.domainId), p.flowSets, map[], store);
            DecodePacket(router, store, EncodeIPFIX(p).value + rest)
            != Outcome(IPFIX(p.(length := |EncodeIPFIX(p).value|, flowSets := e.flowSets)), e.store, e.missing, false)
  {
    hide AllFit, AllSafe, EncodeSets, DecodePacket, Expected;
    OneRecordIsUnsafe(Session(router, 10, p.domainId), store);
    IPFIXRoundTrip(router, store, p, rest);
  }
}

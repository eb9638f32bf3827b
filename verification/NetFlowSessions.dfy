/** What templates mean over time: many routers, many messages, one store. */
module NetFlowSessions {
  import opened Bytes
  import opened NetFlowTypes
  import opened NetFlowParser
  import opened NetFlowMessages

  // ---------- framing does not look at templates ----------

  /** The frames of a message, cut by the length fields alone. */
  function Frames(session: Session, size: u16, start: nat, s: bytes): seq<Frame>
    requires |s| <= start
    decreases |s|
  {
    if !More(session, size, start, s) then []
    else
      match NextFrame(s)
      case None => []
      case Some((frame, rest)) => [frame] + Frames(session, size, start, rest)
  }

  // ---------- the log of announcements ----------

  datatype Announcement = Announcement(key: TemplateKey, template: Template)

  function OfTemplates(session: Session, ts: seq<Template>): seq<Announcement>
  {
    if ts == [] then [] else [Announcement(session.Key(ts[0].templateId), ts[0])] + OfTemplates(session, ts[1..])
  }

  function Announcements(session: Session, sets: seq<FlowSet>): seq<Announcement>
  {
    if sets == [] then []
    else
      (if sets[0].Announces() then OfTemplates(session, sets[0].templates) else [])
      + Announcements(session, sets[1..])
  }

  /** The most recent announcement for `key`, found by searching the log backwards. */
  function Latest(log: seq<Announcement>, key: TemplateKey): Option<Template>
  {
    if log == [] then None
    else if log[|log| - 1].key == key then Some(log[|log| - 1].template)
    else Latest(log[..|log| - 1], key)
  }

  function LatestOr(log: seq<Announcement>, key: TemplateKey, before: Option<Template>): Option<Template>
  {
    if Latest(log, key).Some? then Latest(log, key) else before
  }

  lemma {:induction false} LatestConcat(a: seq<Announcement>, b: seq<Announcement>, key: TemplateKey)
    ensures Latest(a + b, key) == LatestOr(b, key, Latest(a, key))
    decreases |b|
  {
    if b == [] {
      assert a + b == a;
    } else {
      var n := |b| - 1;
      assert (a + b)[|a + b| - 1] == b[n];
      assert (a + b)[..|a + b| - 1] == a + b[..n];
      LatestConcat(a, b[..n], key);
    }
  }

  lemma LatestFirst(x: Announcement, log: seq<Announcement>, key: TemplateKey)
    ensures Latest([x] + log, key) == LatestOr(log, key, if x.key == key then Some(x.template) else None)
  {
    LatestConcat([x], log, key);
    assert [x][..0] == [];
  }

  lemma {:induction false} AddTemplatesIsLog(store: Store, session: Session, ts: seq<Template>, key: TemplateKey)
    ensures Lookup(AddTemplates(store, session, ts), key) == LatestOr(OfTemplates(session, ts), key, Lookup(store, key))
    decreases |ts|
  {
    if ts != [] {
      var k := session.Key(ts[0].templateId);
      AddTemplatesIsLog(store[k := ts[0]], session, ts[1..], key);
      LatestFirst(Announcement(k, ts[0]), OfTemplates(session, ts[1..]), key);
    }
  }

  /** A lookup after learning is the last announcement, or the older entry when there is none. */
  lemma {:induction false} LearnAllIsLog(store: Store, session: Session, sets: seq<FlowSet>, key: TemplateKey)
    ensures Lookup(LearnAll(store, session, sets), key)
            == LatestOr(Announcements(session, sets), key, Lookup(store, key))
    decreases |sets|
  {
    if sets != [] {
      var head := if sets[0].Announces() then OfTemplates(session, sets[0].templates) else [];
      if sets[0].Announces() {
        AddTemplatesIsLog(store, session, sets[0].templates, key);
      }
      LearnAllIsLog(Learn(store, session, sets[0]), session, sets[1..], key);
      LatestConcat(head, Announcements(session, sets[1..]), key);
    }
  }

  // ---------- one message ----------

  /** Set `i` is frame `i` read under the latest template announced for its id before it. */
  predicate ReadsLatest(session: Session, store: Store, frames: seq<Frame>, sets: seq<FlowSet>, i: nat)
    requires i < |sets| <= |frames|
  {
    var key := session.Key(frames[i].id);
    Interpret(session.version, frames[i], LatestOr(Announcements(session, sets[..i]), key, Lookup(store, key)))
      == Some(sets[i])
  }

  /**
   * Whatever the bytes: the decoded sets are the first frames, one set a frame, each read under the
   * template announced last; the store ends with exactly the announcements made; and without an
   * error no frame is left over.
   */
  lemma {:induction false} MessageReadsLatest(session: Session, size: u16, start: nat, store: Store, s: bytes)
    requires |s| <= start
    ensures var m := DecodeSets(session, size, start, store, s);
            var frames := Frames(session, size, start, s);
            && m.store == LearnAll(store, session, m.flowSets)
            && |m.flowSets| <= |frames|
            && (!m.failed ==> |m.flowSets| == |frames|)
            && forall i :: 0 <= i < |m.flowSets| ==> ReadsLatest(session, store, frames, m.flowSets, i)
    decreases |s|
  {
    if More(session, size, start, s) && NextFrame(s).Some? {
      var (frame, rest) := NextFrame(s).value;
      DecodeSetsStep(session, size, start, store, s, frame, rest);
      var read := Interpret(session.version, frame, Lookup(store, session.Key(frame.id)));
      if read.Some? {
        var store' := Learn(store, session, read.value);
        MessageReadsLatest(session, size, start, store', rest);
        var m := DecodeSets(session, size, start, store', rest);
        LearnAllCons(store, session, read.value, m.flowSets);
        ReadsLatestCons(session, store, frame, Frames(session, size, start, rest), read.value, m.flowSets);
      }
    }
  }

  lemma LearnAllCons(store: Store, session: Session, fs: FlowSet, sets: seq<FlowSet>)
    ensures LearnAll(store, session, [fs] + sets) == LearnAll(Learn(store, session, fs), session, sets)
  {
    assert ([fs] + sets)[1..] == sets;
  }

  lemma ReadsLatestCons(session: Session, store: Store, frame: Frame, frames: seq<Frame>, fs: FlowSet,
                        sets: seq<FlowSet>)
    requires |sets| <= |frames|
    requires Interpret(session.version, frame, Lookup(store, session.Key(frame.id))) == Some(fs)
    requires forall i :: 0 <= i < |sets| ==> ReadsLatest(session, Learn(store, session, fs), frames, sets, i)
    ensures forall i :: 0 <= i < |[fs] + sets| ==> ReadsLatest(session, store, [frame] + frames, [fs] + sets, i)
  {
    hide Interpret, Latest, OfTemplates, Learn;
    forall i | 0 <= i < |[fs] + sets|
      ensures ReadsLatest(session, store, [frame] + frames, [fs] + sets, i)
    {
      if i == 0 {
        NothingLatest(session.Key(frame.id));
        assert ([fs] + sets)[..0] == [];
      } else {
        assert ReadsLatest(session, Learn(store, session, fs), frames, sets, i - 1);
        assert ([fs] + sets)[..i] == [fs] + sets[..i - 1];
        FirstThenLatest(session, store, fs, sets[..i - 1], session.Key(frames[i - 1].id));
      }
    }
  }

  lemma NothingLatest(key: TemplateKey)
    ensures Latest([], key) == None
  {
  }

  lemma FirstThenLatest(session: Session, store: Store, fs: FlowSet, sets: seq<FlowSet>, key: TemplateKey)
    ensures LatestOr(Announcements(session, [fs] + sets), key, Lookup(store, key))
            == LatestOr(Announcements(session, sets), key, Lookup(Learn(store, session, fs), key))
  {
    LearnAllIsLog(store, session, [fs] + sets, key);
    LearnAllIsLog(Learn(store, session, fs), session, sets, key);
    LearnAllCons(store, session, fs, sets);
  }

  // ---------- a missing template spoils one set only ----------

  /** The stores agree on this session, except perhaps on one template id. */
  predicate AgreeExcept(session: Session, k: u16, a: Store, b: Store)
  {
    forall id: u16 :: id != k ==> Lookup(a, session.Key(id)) == Lookup(b, session.Key(id))
  }

  lemma {:induction false} AddKeepsAgreement(session: Session, k: u16, a: Store, b: Store, ts: seq<Template>)
    requires AgreeExcept(session, k, a, b)
    ensures AgreeExcept(session, k, AddTemplates(a, session, ts), AddTemplates(b, session, ts))
    decreases |ts|
  {
    if ts != [] {
      var key := session.Key(ts[0].templateId);
      var a', b' := a[key := ts[0]], b[key := ts[0]];
      assert AgreeExcept(session, k, a', b');
      AddKeepsAgreement(session, k, a', b', ts[1..]);
    }
  }

  lemma InterpretedId(version: u16, frame: Frame, template: Option<Template>)
    requires Interpret(version, frame, template).Some?
    ensures Interpret(version, frame, template).value.Announces() <==> KindFor(version, frame.id).Some?
    ensures KindFor(version, frame.id).Some? ==> Interpret(version, frame, template) == Interpret(version, frame, None)
  {
  }

  /**
   * Two decoders that differ in what they hold for template id `k`, whatever each of them holds:
   * if neither stops on an error, they cut the message into the same sets and read every set of
   * another id identically, those after a set with id `k` included.
   */
  lemma {:induction false} DifferenceIsLocal(session: Session, size: u16, start: nat, k: u16, a: Store, b: Store,
                                             s: bytes)
    requires |s| <= start && AgreeExcept(session, k, a, b)
    ensures var m, n := DecodeSets(session, size, start, a, s), DecodeSets(session, size, start, b, s);
            var frames := Frames(session, size, start, s);
            !m.failed && !n.failed ==>
              && |m.flowSets| == |n.flowSets| == |frames|
              && (forall i :: 0 <= i < |frames| && frames[i].id != k ==> m.flowSets[i] == n.flowSets[i])
              && AgreeExcept(session, k, m.store, n.store)
    decreases |s|
  {
    hide Interpret, NextFrame, Learn, Lookup, KindFor, FlowSet.Announces;
    if More(session, size, start, s) && NextFrame(s).Some? {
      var (frame, rest) := NextFrame(s).value;
      DecodeSetsStep(session, size, start, a, s, frame, rest);
      DecodeSetsStep(session, size, start, b, s, frame, rest);
      var key := session.Key(frame.id);
      var x := Interpret(session.version, frame, Lookup(a, key));
      var y := Interpret(session.version, frame, Lookup(b, key));
      assert frame.id != k ==> x == y;
      if x.Some? && y.Some? {
        InterpretedId(session.version, frame, Lookup(a, key));
        InterpretedId(session.version, frame, Lookup(b, key));
        LearnKeepsAgreement(session, k, a, b, x.value, y.value);
        DifferenceIsLocal(session, size, start, k, Learn(a, session, x.value), Learn(b, session, y.value), rest);
      }
    }
  }

  lemma LearnKeepsAgreement(session: Session, k: u16, a: Store, b: Store, x: FlowSet, y: FlowSet)
    requires AgreeExcept(session, k, a, b) && x.Announces() == y.Announces() && (x.Announces() ==> x == y)
    ensures AgreeExcept(session, k, Learn(a, session, x), Learn(b, session, y))
  {
    if x.Announces() {
      AddKeepsAgreement(session, k, a, b, x.templates);
    }
  }

  /** `a` is `b` without what it holds for template id `k`, or has the same. */
  predicate Poorer(session: Session, k: u16, a: Store, b: Store)
  {
    && AgreeExcept(session, k, a, b)
    && (Lookup(a, session.Key(k)).None? || Lookup(a, session.Key(k)) == Lookup(b, session.Key(k)))
  }

  lemma {:induction false} AddPoorer(session: Session, k: u16, a: Store, b: Store, ts: seq<Template>)
    requires Poorer(session, k, a, b)
    ensures Poorer(session, k, AddTemplates(a, session, ts), AddTemplates(b, session, ts))
    decreases |ts|
  {
    if ts != [] {
      var key := session.Key(ts[0].templateId);
      var a', b' := a[key := ts[0]], b[key := ts[0]];
      assert Poorer(session, k, a', b');
      AddPoorer(session, k, a', b', ts[1..]);
    }
  }

  lemma LearnPoorer(session: Session, k: u16, a: Store, b: Store, x: FlowSet, y: FlowSet)
    requires Poorer(session, k, a, b) && x.Announces() == y.Announces() && (x.Announces() ==> x == y)
    ensures Poorer(session, k, Learn(a, session, x), Learn(b, session, y))
  {
    if x.Announces() {
      AddPoorer(session, k, a, b, x.templates);
    }
  }

  /** The set as the richer decoder reads it, or kept as the octets of its frame for want of template `k`. */
  predicate SameOrRaw(frame: Frame, k: u16, x: FlowSet, y: FlowSet)
  {
    x == y || (frame.id == k && x == RawFlowSet(k, frame.length, frame.body))
  }

  /** Whatever can be read under a template can be kept without it. */
  lemma InterpretPoorer(session: Session, k: u16, a: Store, b: Store, frame: Frame)
    requires Poorer(session, k, a, b)
    ensures var key := session.Key(frame.id);
            var x, y := Interpret(session.version, frame, Lookup(a, key)),
              Interpret(session.version, frame, Lookup(b, key));
            y.Some? ==> x.Some? && SameOrRaw(frame, k, x.value, y.value)
  {
    hide DecodeTemplates, DecodeRecords;
  }

  lemma SameOrRawCons(frames: seq<Frame>, k: u16, xs: seq<FlowSet>, ys: seq<FlowSet>, frame: Frame, x: FlowSet,
                      y: FlowSet)
    requires |ys| <= |xs| <= |frames| && SameOrRaw(frame, k, x, y)
    requires forall i :: 0 <= i < |ys| ==> SameOrRaw(frames[i], k, xs[i], ys[i])
    ensures forall i :: 0 <= i < |ys| + 1 ==> SameOrRaw(([frame] + frames)[i], k, ([x] + xs)[i], ([y] + ys)[i])
  {
    hide SameOrRaw;
    forall i | 0 <= i < |ys| + 1 ensures SameOrRaw(([frame] + frames)[i], k, ([x] + xs)[i], ([y] + ys)[i]) {
      if i > 0 { assert SameOrRaw(frames[i - 1], k, xs[i - 1], ys[i - 1]); }
    }
  }

  /**
   * A decoder that lacks template `k`, against one that may hold it: it gets at least as far and fails only
   * if the other does, and every set the other reads it reads identically or, with id `k`, keeps as the octets
   * of its frame. So a missing template spoils its own sets and none after them.
   */
  lemma {:induction false} MissingTemplateIsLocal(session: Session, size: u16, start: nat, k: u16, a: Store, b: Store,
                                                  s: bytes)
    requires |s| <= start && Poorer(session, k, a, b)
    ensures var m, n := DecodeSets(session, size, start, a, s), DecodeSets(session, size, start, b, s);
            var frames := Frames(session, size, start, s);
            && |n.flowSets| <= |m.flowSets| <= |frames|
            && (!n.failed ==> !m.failed && |m.flowSets| == |n.flowSets| && Poorer(session, k, m.store, n.store))
            && forall i :: 0 <= i < |n.flowSets| ==> SameOrRaw(frames[i], k, m.flowSets[i], n.flowSets[i])
    decreases |s|
  {
    hide Interpret, NextFrame, Learn, Lookup, KindFor, FlowSet.Announces, SameOrRaw, Poorer;
    MessageReadsLatest(session, size, start, a, s);
    if More(session, size, start, s) && NextFrame(s).Some? {
      var (frame, rest) := NextFrame(s).value;
      DecodeSetsStep(session, size, start, a, s, frame, rest);
      DecodeSetsStep(session, size, start, b, s, frame, rest);
      var key := session.Key(frame.id);
      var x := Interpret(session.version, frame, Lookup(a, key));
      var y := Interpret(session.version, frame, Lookup(b, key));
      InterpretPoorer(session, k, a, b, frame);
      if y.Some? {
        InterpretedId(session.version, frame, Lookup(a, key));
        InterpretedId(session.version, frame, Lookup(b, key));
        LearnPoorer(session, k, a, b, x.value, y.value);
        var a', b' := Learn(a, session, x.value), Learn(b, session, y.value);
        MissingTemplateIsLocal(session, size, start, k, a', b', rest);
        SameOrRawCons(Frames(session, size, start, rest), k, DecodeSets(session, size, start, a', rest).flowSets,
                      DecodeSets(session, size, start, b', rest).flowSets, frame, x.value, y.value);
      }
    }
  }

  // ---------- sessions do not interfere ----------

  predicate Agree(session: Session, a: Store, b: Store)
  {
    forall id: u16 :: Lookup(a, session.Key(id)) == Lookup(b, session.Key(id))
  }

  /** Everything about an outcome but the store. */
  function Seen(o: Outcome): (Packet, bool, bool)
  {
    (o.packet, o.missing, o.failed)
  }

  lemma {:induction false} AddForeign(session: Session, other: Session, store: Store, ts: seq<Template>)
    requires session != other
    ensures Agree(session, store, AddTemplates(store, other, ts))
    decreases |ts|
  {
    if ts != [] {
      AddForeign(session, other, store[other.Key(ts[0].templateId) := ts[0]], ts[1..]);
    }
  }

  lemma {:induction false} AddOwn(session: Session, a: Store, b: Store, ts: seq<Template>)
    requires Agree(session, a, b)
    ensures Agree(session, AddTemplates(a, session, ts), AddTemplates(b, session, ts))
    decreases |ts|
  {
    if ts != [] {
      var key := session.Key(ts[0].templateId);
      var a', b' := a[key := ts[0]], b[key := ts[0]];
      assert Agree(session, a', b');
      AddOwn(session, a', b', ts[1..]);
    }
  }

  lemma {:induction false} OwnMessage(session: Session, size: u16, start: nat, a: Store, b: Store, s: bytes)
    requires |s| <= start && Agree(session, a, b)
    ensures var m, n := DecodeSets(session, size, start, a, s), DecodeSets(session, size, start, b, s);
            m.flowSets == n.flowSets && m.missing == n.missing && m.failed == n.failed
              && Agree(session, m.store, n.store)
    decreases |s|
  {
    if More(session, size, start, s) && NextFrame(s).Some? {
      var (frame, rest) := NextFrame(s).value;
      DecodeSetsStep(session, size, start, a, s, frame, rest);
      DecodeSetsStep(session, size, start, b, s, frame, rest);
      assert Lookup(a, session.Key(frame.id)) == Lookup(b, session.Key(frame.id));
      var read := Interpret(session.version, frame, Lookup(a, session.Key(frame.id)));
      if read.Some? {
        if read.value.Announces() {
          AddOwn(session, a, b, read.value.templates);
        }
        OwnMessage(session, size, start, Learn(a, session, read.value), Learn(b, session, read.value), rest);
      }
    }
  }

  lemma {:induction false} ForeignMessage(session: Session, other: Session, size: u16, start: nat, store: Store,
                                          s: bytes)
    requires |s| <= start && session != other
    ensures Agree(session, store, DecodeSets(other, size, start, store, s).store)
    decreases |s|
  {
    if More(other, size, start, s) && NextFrame(s).Some? {
      var (frame, rest) := NextFrame(s).value;
      DecodeSetsStep(other, size, start, store, s, frame, rest);
      var read := Interpret(other.version, frame, Lookup(store, other.Key(frame.id)));
      if read.Some? {
        if read.value.Announces() {
          AddForeign(session, other, store, read.value.templates);
        }
        ForeignMessage(session, other, size, start, Learn(store, other, read.value), rest);
      }
    }
  }

  datatype Datagram = Datagram(router: string, payload: bytes)

  /** The session a datagram's header names; an unreadable header names none. */
  function SessionOf(d: Datagram): Option<Session>
  {
    var s := d.payload;
    if |s| >= 20 && HeadU16(s) == 9 then Some(Session(d.router, 9, HeadU32(s[2..][14..])))
    else if |s| >= 16 && HeadU16(s) == 10 then Some(Session(d.router, 10, HeadU32(s[2..][10..])))
    else None
  }

  lemma OwnDatagram(d: Datagram, a: Store, b: Store)
    requires SessionOf(d).Some? && Agree(SessionOf(d).value, a, b)
    ensures var o, p := DecodePacket(d.router, a, d.payload), DecodePacket(d.router, b, d.payload);
            Seen(o) == Seen(p) && Agree(SessionOf(d).value, o.store, p.store)
  {
    hide DecodeSets, Agree;
    var t, session := d.payload[2..], SessionOf(d).value;
    if HeadU16(d.payload) == 9 {
      OwnMessage(session, HeadU16(t), |t| - 18, a, b, t[18..]);
    } else {
      OwnMessage(session, SetBytes(HeadU16(t)), |t| - 14, a, b, t[14..]);
    }
  }

  lemma ForeignDatagram(session: Session, d: Datagram, store: Store)
    requires SessionOf(d) != Some(session)
    ensures Agree(session, store, DecodePacket(d.router, store, d.payload).store)
  {
    hide DecodeSets, HeadU16, HeadU32;
    if SessionOf(d).Some? {
      var t := d.payload[2..];
      if HeadU16(d.payload) == 9 {
        ForeignMessage(session, SessionOf(d).value, HeadU16(t), |t| - 18, store, t[18..]);
      } else {
        ForeignMessage(session, SessionOf(d).value, SetBytes(HeadU16(t)), |t| - 14, store, t[14..]);
      }
    }
  }

  /** What the collector shows for the datagrams of one session, in order, over a whole run. */
  function Shown(session: Session, store: Store, run: seq<Datagram>): seq<(Packet, bool, bool)>
    decreases |run|
  {
    if run == [] then []
    else
      var o := DecodePacket(run[0].router, store, run[0].payload);
      (if SessionOf(run[0]) == Some(session) then [Seen(o)] else []) + Shown(session, o.store, run[1..])
  }

  function Only(session: Session, run: seq<Datagram>): seq<Datagram>
  {
    if run == [] then []
    else (if SessionOf(run[0]) == Some(session) then [run[0]] else []) + Only(session, run[1..])
  }

  /**
   * Over any run of datagrams from any number of routers and domains, a session's packets are
   * decoded exactly as if the collector had received nothing else.
   */
  lemma {:induction false} SessionsDoNotInterfere(session: Session, a: Store, b: Store, run: seq<Datagram>)
    requires Agree(session, a, b)
    ensures Shown(session, a, run) == Shown(session, b, Only(session, run))
    decreases |run|
  {
    if run != [] {
      var d, rest := run[0], run[1..];
      var o := DecodePacket(d.router, a, d.payload);
      if SessionOf(d) == Some(session) {
        var p := DecodePacket(d.router, b, d.payload);
        OwnDatagram(d, a, b);
        SessionsDoNotInterfere(session, o.store, p.store, rest);
        assert ([d] + Only(session, rest))[1..] == Only(session, rest);
      } else {
        ForeignDatagram(session, d, a);
        SessionsDoNotInterfere(session, o.store, b, rest);
        assert [] + Only(session, rest) == Only(session, rest);
      }
    }
  }

  // ---------- a whole run ----------

  function StoreAfter(store: Store, run: seq<Datagram>): Store
    decreases |run|
  {
    if run == [] then store
    else StoreAfter(DecodePacket(run[0].router, store, run[0].payload).store, run[1..])
  }

  function PacketSets(p: Packet): seq<FlowSet>
  {
    match p
    case NFv9(q) => q.flowSets
    case IPFIX(q) => q.flowSets
    case Unreadable => []
  }

  /** Every template announced by the packets of a run, as they were shown, in order. */
  function RunLog(store: Store, run: seq<Datagram>): seq<Announcement>
    decreases |run|
  {
    if run == [] then []
    else
      var o := DecodePacket(run[0].router, store, run[0].payload);
      (if SessionOf(run[0]).Some? then Announcements(SessionOf(run[0]).value, PacketSets(o.packet)) else [])
      + RunLog(o.store, run[1..])
  }

  lemma DatagramStore(d: Datagram, store: Store)
    ensures var o := DecodePacket(d.router, store, d.payload);
            o.store == if SessionOf(d).Some? then LearnAll(store, SessionOf(d).value, PacketSets(o.packet)) else store
  {
    hide DecodeSets, LearnAll, Frames, ReadsLatest, HeadU16, HeadU32;
    if SessionOf(d).Some? {
      var t := d.payload[2..];
      if HeadU16(d.payload) == 9 {
        MessageReadsLatest(SessionOf(d).value, HeadU16(t), |t| - 18, store, t[18..]);
      } else {
        MessageReadsLatest(SessionOf(d).value, SetBytes(HeadU16(t)), |t| - 14, store, t[14..]);
      }
    }
  }

  /**
   * After any run the store answers every key with its latest announcement, or as it did before when there was none.
   */
  lemma {:induction false} RunStoreIsLatest(store: Store, run: seq<Datagram>, key: TemplateKey)
    ensures Lookup(StoreAfter(store, run), key) == LatestOr(RunLog(store, run), key, Lookup(store, key))
    decreases |run|
  {
    if run != [] {
      var d := run[0];
      var o := DecodePacket(d.router, store, d.payload);
      DatagramStore(d, store);
      var head := if SessionOf(d).Some? then Announcements(SessionOf(d).value, PacketSets(o.packet)) else [];
      if SessionOf(d).Some? {
        LearnAllIsLog(store, SessionOf(d).value, PacketSets(o.packet), key);
      }
      RunStoreIsLatest(o.store, run[1..], key);
      LatestConcat(head, RunLog(o.store, run[1..]), key);
    }
  }

  /** The frames of a datagram, cut without looking at any template. */
  function FramesOf(d: Datagram): seq<Frame>
  {
    if SessionOf(d).None? then []
    else
      var session, t := SessionOf(d).value, d.payload[2..];
      if session.version == 9 then Frames(session, HeadU16(t), |t| - 18, t[18..])
      else Frames(session, SetBytes(HeadU16(t)), |t| - 14, t[14..])
  }

  lemma DatagramReads(d: Datagram, store: Store, i: nat)
    requires SessionOf(d).Some? && i < |PacketSets(DecodePacket(d.router, store, d.payload).packet)|
    ensures var sets := PacketSets(DecodePacket(d.router, store, d.payload).packet);
            |sets| <= |FramesOf(d)| && ReadsLatest(SessionOf(d).value, store, FramesOf(d), sets, i)
  {
    hide DecodeSets, LearnAll, Frames, ReadsLatest, HeadU16, HeadU32;
    var session, t := SessionOf(d).value, d.payload[2..];
    if session.version == 9 {
      MessageReadsLatest(session, HeadU16(t), |t| - 18, store, t[18..]);
    } else {
      MessageReadsLatest(session, SetBytes(HeadU16(t)), |t| - 14, store, t[14..]);
    }
  }

  /** Datagram `j` of a run as the collector shows it. */
  function ShownAt(store: Store, run: seq<Datagram>, j: nat): Outcome
    requires j < |run|
  {
    DecodePacket(run[j].router, StoreAfter(store, run[..j]), run[j].payload)
  }

  /**
   * In a whole run, set `i` of datagram `j` is its frame read under the latest announcement for its router, version,
   * domain and id among all earlier datagrams and the earlier sets of its own, or what the store held before the run.
   */
  lemma RunReadsLatest(store: Store, run: seq<Datagram>, j: nat, i: nat)
    requires j < |run| && SessionOf(run[j]).Some? && i < |PacketSets(ShownAt(store, run, j).packet)|
    ensures var sets, frames := PacketSets(ShownAt(store, run, j).packet), FramesOf(run[j]);
            && |sets| <= |frames|
            && var session := SessionOf(run[j]).value;
               var key := session.Key(frames[i].id);
               var log := RunLog(store, run[..j]) + Announcements(session, sets[..i]);
               Interpret(session.version, frames[i], LatestOr(log, key, Lookup(store, key))) == Some(sets[i])
  {
    hide SessionOf, DecodePacket, FramesOf, Interpret, RunLog, Announcements, Latest, StoreAfter;
    var before, session := StoreAfter(store, run[..j]), SessionOf(run[j]).value;
    DatagramReads(run[j], before, i);
    var sets, key := PacketSets(ShownAt(store, run, j).packet), session.Key(FramesOf(run[j])[i].id);
    RunStoreIsLatest(store, run[..j], key);
    LatestConcat(RunLog(store, run[..j]), Announcements(session, sets[..i]), key);
  }

  // ---------- the packed key ----------

  function PackKey(version: u16, domain: u32, id: u16): u64
  {
    version * 0x1_0000_0000_0000 + domain * 0x1_0000 + id
  }

  /** The 64-bit key a snapshot files a template under identifies version, domain and id. */
  lemma PackKeyInjective(v: u16, d: u32, i: u16, v': u16, d': u32, i': u16)
    ensures PackKey(v, d, i) == PackKey(v', d', i') <==> v == v' && d == d' && i == i'
  {
    assert PackKey(v, d, i) % 0x1_0000 == i && PackKey(v', d', i') % 0x1_0000 == i';
  }
}

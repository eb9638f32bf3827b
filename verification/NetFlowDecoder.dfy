/** The decoder as it runs: loops over a shared buffer, appending records and filing templates in a store. */
module NetFlowDecoder {
  import opened Bytes
  import opened NetFlowTypes
  import P = NetFlowParser

  datatype TemplateStatus = TemplateAdded | TemplateUpdated

  /** The store a collector hands to the decoder. */
  class TemplateStore {
    var templates: Store

    constructor ()
      ensures templates == map[]
    {
      templates := map[];
    }

    method AddTemplate(key: TemplateKey, template: Template) returns (status: TemplateStatus)
      modifies this
      ensures templates == old(templates)[key := template]
      ensures status == if key in old(templates) then TemplateUpdated else TemplateAdded
    {
      status := if key in templates then TemplateUpdated else TemplateAdded;
      templates := templates[key := template];
    }

    method GetTemplate(key: TemplateKey) returns (r: Option<Template>)
      ensures r == Lookup(templates, key)
    {
      r := if key in templates then Some(templates[key]) else None;
    }
  }

  // ---------- templates ----------

  method DecodeField(payload: Buffer, pen: bool) returns (r: Option<Field>)
    modifies payload
    ensures match P.DecodeField(old(payload.data), pen)
            case None => r == None
            case Some((f, rest)) => r == Some(f) && payload.data == rest
  {
    var typ := payload.ReadU16();
    if typ.None? { return None; }
    var length := payload.ReadU16();
    if length.None? { return None; }
    if pen && typ.value >= ENTERPRISE {
      var number := payload.ReadU32();
      if number.None? { return None; }
      return Some(Field(true, typ.value - ENTERPRISE, length.value, number.value));
    }
    return Some(Field(false, typ.value, length.value, 0));
  }

  /** A list read so far, followed by what reading the rest gives. */
  ghost function Resume<T>(done: seq<T>, d: Option<(seq<T>, bytes)>): Option<(seq<T>, bytes)>
  {
    if d.None? then None else Some((done + d.value.0, d.value.1))
  }

  lemma ResumeFresh<T>(d: Option<(seq<T>, bytes)>)
    ensures Resume([], d) == d
  {
    if d.Some? { Empty(d.value.0); }
  }

  lemma ResumeDone<T>(done: seq<T>, rest: bytes)
    ensures Resume(done, Some(([], rest))) == Some((done, rest))
  {
    Empty(done);
  }

  lemma ResumeNext<T>(done: seq<T>, x: T, d: Option<(seq<T>, bytes)>)
    ensures Resume(done, Resume([x], d)) == Resume(done + [x], d)
  {
    if d.Some? { Assoc(done, [x], d.value.0); }
  }

  method DecodeFieldList(payload: Buffer, n: nat, pen: bool) returns (r: Option<seq<Field>>)
    modifies payload
    ensures match P.DecodeFields(old(payload.data), n, pen)
            case None => r == None
            case Some((fs, rest)) => r == Some(fs) && payload.data == rest
  {
    var fields := [];
    var i := 0;
    ResumeFresh(P.DecodeFields(payload.data, n, pen));
    while i < n
      invariant 0 <= i <= n
      invariant P.DecodeFields(old(payload.data), n, pen) == Resume(fields, P.DecodeFields(payload.data, n - i, pen))
    {
      var f := DecodeField(payload, pen);
      if f.None? { return None; }
      ResumeNext(fields, f.value, P.DecodeFields(payload.data, n - i - 1, pen));
      fields := fields + [f.value];
      i := i + 1;
    }
    ResumeDone(fields, payload.data);
    return Some(fields);
  }

  /** The record loops of the three template set decoders, one record at a time. */
  method DecodeTemplate(kind: TemplateKind, payload: Buffer) returns (r: Option<Template>)
    modifies payload
    ensures match P.DecodeTemplate(kind, old(payload.data))
            case None => r == None
            case Some((t, rest)) => r == Some(t) && payload.data == rest
  {
    ghost var s := payload.data;
    var id := payload.ReadU16();
    if id.None? { return None; }
    var a := payload.ReadU16();
    if a.None? { return None; }
    if kind.NFv9Data? || kind.IPFIXData? {
      assert s[2..][2..] == s[4..];
      var fields := DecodeFieldList(payload, a.value, kind.IPFIXData?);
      if fields.None? { return None; }
      return Some(TemplateRecord(id.value, a.value, fields.value));
    }
    assert s[2..][2..] == s[4..];
    var b := payload.ReadU16();
    if b.None? { return None; }
    assert s[4..][2..] == s[6..];
    if kind.NFv9Options? {
      var scopes := DecodeFieldList(payload, a.value / 4, false);
      if scopes.None? { return None; }
      var options := DecodeFieldList(payload, b.value / 4, false);
      if options.None? { return None; }
      return Some(NFv9OptionsTemplateRecord(id.value, a.value, b.value, scopes.value, options.value));
    }
    var scopes := DecodeFieldList(payload, b.value, true);
    if scopes.None? { return None; }
    if a.value < b.value { return None; }
    var options := DecodeFieldList(payload, a.value - b.value, true);
    if options.None? { return None; }
    return Some(IPFIXOptionsTemplateRecord(id.value, a.value, b.value, scopes.value, options.value));
  }

  /** DecodeTemplateSet, DecodeNFv9OptionsTemplateSet and DecodeIPFIXOptionsTemplateSet, by kind. */
  method DecodeTemplateSet(kind: TemplateKind, payload: Buffer) returns (records: seq<Template>, ok: bool)
    modifies payload
    ensures (records, ok) == P.DecodeTemplates(kind, old(payload.data))
  {
    records := [];
    Empty(P.DecodeTemplates(kind, payload.data).0);
    while |payload.data| >= 4
      invariant var d := P.DecodeTemplates(kind, payload.data);
                P.DecodeTemplates(kind, old(payload.data)) == (records + d.0, d.1)
      decreases |payload.data|
    {
      var t := DecodeTemplate(kind, payload);
      if t.None? {
        Empty(records);
        return records, false;
      }
      Assoc(records, [t.value], P.DecodeTemplates(kind, payload.data).0);
      records := records + [t.value];
    }
    Empty(records);
    return records, true;
  }

  // ---------- data records ----------

  method GetTemplateSize(fields: seq<Field>) returns (sum: nat)
    ensures sum == TemplateSize(fields)
  {
    sum := 0;
    var i := 0;
    while i < |fields|
      invariant 0 <= i <= |fields|
      invariant sum + TemplateSize(fields[i..]) == TemplateSize(fields)
    {
      assert fields[i..][1..] == fields[i + 1..];
      if fields[i].length != VARIABLE {
        sum := sum + fields[i].length;
      }
      i := i + 1;
    }
  }

  method DecodeValueLength(payload: Buffer, f: Field) returns (r: Option<nat>)
    modifies payload
    ensures match P.ValueLength(f, old(payload.data))
            case None => r == None
            case Some((n, rest)) => r == Some(n) && payload.data == rest
  {
    if f.length != VARIABLE { return Some(f.length); }
    ghost var s := payload.data;
    var short := payload.ReadU8();
    if short.None? { return None; }
    if short.value != 0xff { return Some(short.value); }
    var long := payload.ReadU16();
    if long.None? { return None; }
    assert s[1..][2..] == s[3..];
    return Some(long.value);
  }

  method DecodeValue(payload: Buffer, f: Field) returns (r: Option<DataField>)
    modifies payload
    ensures match P.DecodeValue(f, old(payload.data))
            case None => r == None
            case Some((df, rest)) => r == Some(df) && payload.data == rest
  {
    var length := DecodeValueLength(payload, f);
    if length.None? { return None; }
    var value := payload.Next(length.value);
    return Some(DataField(f.penProvided, f.typ, 0, f.pen, Raw(value)));
  }

  method DecodeDataSetUsingFields(payload: Buffer, fields: seq<Field>) returns (r: Option<seq<DataField>>)
    modifies payload
    ensures match P.DecodeUsingFields(fields, old(payload.data))
            case None => r == None
            case Some((dfs, rest)) => r == Some(dfs) && payload.data == rest
  {
    var size := GetTemplateSize(fields);
    if |payload.data| < size {
      return Some(seq(|fields|, i => ZERO_FIELD));
    }
    var values := [];
    var i := 0;
    ResumeFresh(P.DecodeValues(fields, payload.data));
    assert fields[0..] == fields;
    while i < |fields|
      invariant 0 <= i <= |fields|
      invariant P.DecodeValues(fields, old(payload.data)) == Resume(values, P.DecodeValues(fields[i..], payload.data))
    {
      var df := DecodeValue(payload, fields[i]);
      assert fields[i..][1..] == fields[i + 1..];
      if df.None? { return None; }
      ResumeNext(values, df.value, P.DecodeValues(fields[i + 1..], payload.data));
      values := values + [df.value];
      i := i + 1;
    }
    ResumeDone(values, payload.data);
    return Some(values);
  }

  method DecodeDataSet(payload: Buffer, fields: seq<Field>) returns (records: seq<DataRecord>, ok: bool)
    modifies payload
    ensures (records, ok) == P.DecodeRecords([], fields, old(payload.data))
  {
    records := [];
    var size := GetTemplateSize(fields);
    Empty(P.DecodeRecords([], fields, payload.data).0);
    while |payload.data| > 0 && |payload.data| >= size
      invariant var d := P.DecodeRecords([], fields, payload.data);
                P.DecodeRecords([], fields, old(payload.data)) == (records + d.0, d.1)
      decreases |payload.data|
    {
      var before := |payload.data|;
      var values := DecodeDataSetUsingFields(payload, fields);
      if values.None? || |payload.data| == before {
        Empty(records);
        return records, false;
      }
      var record := DataRecord([], values.value);
      Assoc(records, [record], P.DecodeRecords([], fields, payload.data).0);
      records := records + [record];
    }
    Empty(records);
    return records, true;
  }

  method DecodeOptionsDataSet(payload: Buffer, scopes: seq<Field>, options: seq<Field>)
    returns (records: seq<DataRecord>, ok: bool)
    modifies payload
    ensures (records, ok) == P.DecodeRecords(scopes, options, old(payload.data))
  {
    records := [];
    var scopeSize := GetTemplateSize(scopes);
    var optionSize := GetTemplateSize(options);
    Empty(P.DecodeRecords(scopes, options, payload.data).0);
    while |payload.data| > 0 && |payload.data| >= scopeSize + optionSize
      invariant var d := P.DecodeRecords(scopes, options, payload.data);
                P.DecodeRecords(scopes, options, old(payload.data)) == (records + d.0, d.1)
      decreases |payload.data|
    {
      var before := |payload.data|;
      var scopeValues := DecodeDataSetUsingFields(payload, scopes);
      if scopeValues.None? {
        Empty(records);
        return records, false;
      }
      var optionValues := DecodeDataSetUsingFields(payload, options);
      if optionValues.None? || |payload.data| == before {
        Empty(records);
        return records, false;
      }
      var record := DataRecord(scopeValues.value, optionValues.value);
      Assoc(records, [record], P.DecodeRecords(scopes, options, payload.data).0);
      records := records + [record];
    }
    Empty(records);
    return records, true;
  }

  // ---------- flow sets ----------

  /** A set was read, or kept raw because its template is missing, or could not be read. */
  datatype SetRead = Read(flowSet: FlowSet) | Missing(flowSet: FlowSet) | Failed

  method FileTemplates(store: TemplateStore, session: P.Session, records: seq<Template>)
    modifies store
    ensures store.templates == P.AddTemplates(old(store.templates), session, records)
  {
    var i := 0;
    while i < |records|
      invariant 0 <= i <= |records|
      invariant P.AddTemplates(old(store.templates), session, records)
                == P.AddTemplates(store.templates, session, records[i..])
    {
      assert records[i..][1..] == records[i + 1..];
      var _ := store.AddTemplate(session.Key(records[i].templateId), records[i]);
      i := i + 1;
    }
  }

  /** What one set does to the buffer and the store. */
  ghost predicate SetEffect(session: P.Session, s: bytes, before: Store, r: SetRead, rest: bytes, after: Store)
  {
    if |s| < 4 || P.NextFrame(s).None? then r == Failed && after == before
    else
      var (frame, tail) := P.NextFrame(s).value;
      match P.Interpret(session.version, frame, Lookup(before, session.Key(frame.id)))
      case None => r == Failed && after == before
      case Some(fs) =>
        r == (if fs.RawFlowSet? then Missing(fs) else Read(fs)) && rest == tail && after == P.Learn(before, session, fs)
  }

  method DecodeDataFlowSet(store: TemplateStore, session: P.Session, id: u16, length: u16, body: bytes)
    returns (r: SetRead)
    requires id >= 256
    ensures r == match P.Interpret(session.version, P.Frame(id, length, body), Lookup(store.templates, session.Key(id)))
                 case None => Failed
                 case Some(fs) => if fs.RawFlowSet? then Missing(fs) else Read(fs)
  {
    var template := store.GetTemplate(session.Key(id));
    var reader := new Buffer(body);
    match template
    case None =>
      r := Missing(RawFlowSet(id, length, body));
    case Some(TemplateRecord(_, _, fields)) =>
      var records, ok := DecodeDataSet(reader, fields);
      r := if ok then Read(DataFlowSet(id, length, records)) else Failed;
    case Some(t) =>
      var records, ok := DecodeOptionsDataSet(reader, t.scopes, t.options);
      r := if ok then Read(OptionsDataFlowSet(id, length, records)) else Failed;
  }

  method DecodeMessageCommonFlowSet(payload: Buffer, store: TemplateStore, session: P.Session) returns (r: SetRead)
    modifies payload, store
    ensures SetEffect(session, old(payload.data), old(store.templates), r, payload.data, store.templates)
  {
    ghost var s := payload.data;
    var id := payload.ReadU16();
    if id.None? { return Failed; }
    var length := payload.ReadU16();
    if length.None? { return Failed; }
    assert s[2..][2..] == s[4..];
    if length.value < 4 { return Failed; }
    var body := payload.Next(length.value - 4);
    var kind := KindFor(session.version, id.value);
    if kind.Some? {
      var reader := new Buffer(body);
      var records, ok := DecodeTemplateSet(kind.value, reader);
      if !ok { return Failed; }
      FileTemplates(store, session, records);
      return Read(TemplateSetOf(kind.value, length.value, records));
    }
    if id.value < 256 { return Failed; }
    r := DecodeDataFlowSet(store, session, id.value, length.value, body);
  }

  /** The message loop: a missing template is remembered and the loop goes on; any other error ends it. */
  method DecodeMessageCommon(payload: Buffer, store: TemplateStore, session: P.Session, size: u16)
    returns (flowSets: seq<FlowSet>, missing: bool, failed: bool)
    modifies payload, store
    ensures P.Message(flowSets, store.templates, missing, failed)
            == P.DecodeSets(session, size, |old(payload.data)|, old(store.templates), old(payload.data))
  {
    hide P.DecodeSets, P.Interpret, P.NextFrame, P.Learn, SetEffect, Prepend;
    flowSets, missing := [], false;
    var startSize := |payload.data|;
    var read := 0;
    ghost var whole := P.DecodeSets(session, size, startSize, store.templates, payload.data);
    PrependNothing(whole);
    while |payload.data| >= 4 && (session.version == 9 || read % 0x1_0000 < size)
      invariant |payload.data| <= startSize && read == startSize - |payload.data|
      invariant whole == Prepend(flowSets, missing, P.DecodeSets(session, size, startSize, store.templates,
                                                                 payload.data))
      decreases |payload.data|
    {
      ghost var s, before := payload.data, store.templates;
      var r := DecodeMessageCommonFlowSet(payload, store, session);
      MessageStep(session, size, startSize, s, before, r, payload.data, store.templates, flowSets, missing);
      if r.Failed? {
        return flowSets, missing, true;
      }
      flowSets := flowSets + [r.flowSet];
      missing := missing || r.Missing?;
      read := startSize - |payload.data|;
    }
    MessageEnds(session, size, startSize, store.templates, payload.data, flowSets, missing);
    return flowSets, missing, false;
  }

  /** Sets read so far, followed by what decoding the rest gives. */
  ghost function Prepend(sets: seq<FlowSet>, missing: bool, m: P.Message): P.Message
  {
    P.Message(sets + m.flowSets, m.store, missing || m.missing, m.failed)
  }

  lemma PrependNothing(m: P.Message)
    ensures Prepend([], false, m) == m
  {
    Empty(m.flowSets);
  }

  lemma MessageEnds(session: P.Session, size: u16, start: nat, store: Store, s: bytes, sets: seq<FlowSet>,
                    missing: bool)
    requires |s| <= start && !P.More(session, size, start, s)
    ensures Prepend(sets, missing, P.DecodeSets(session, size, start, store, s))
            == P.Message(sets, store, missing, false)
  {
    Empty(sets);
  }

  lemma MessageStep(session: P.Session, size: u16, start: nat, s: bytes, before: Store, r: SetRead, rest: bytes,
                    after: Store, sets: seq<FlowSet>, missing: bool)
    requires |s| <= start && P.More(session, size, start, s) && SetEffect(session, s, before, r, rest, after)
    ensures r.Failed? ==>
              Prepend(sets, missing, P.DecodeSets(session, size, start, before, s))
              == P.Message(sets, after, missing, true)
    ensures !r.Failed? ==> |rest| < |s|
                           && Prepend(sets, missing, P.DecodeSets(session, size, start, before, s))
                              == Prepend(sets + [r.flowSet], missing || r.Missing?,
                                         P.DecodeSets(session, size, start, after, rest))
  {
    Empty(sets);
    if !r.Failed? {
      Assoc(sets, [r.flowSet], P.DecodeSets(session, size, start, after, rest).flowSets);
    }
  }

  // ---------- packets ----------

  method DecodeMessageVersion(router: string, payload: Buffer, store: TemplateStore)
    returns (packet: P.Packet, missing: bool, failed: bool)
    modifies payload, store
    ensures P.Outcome(packet, store.templates, missing, failed)
            == P.DecodePacket(router, old(store.templates), old(payload.data))
  {
    ghost var s := payload.data;
    var version := payload.ReadU16();
    if version == Some(9) {
      packet, missing, failed := DecodeMessageNetFlow(router, payload, store);
    } else if version == Some(10) {
      packet, missing, failed := DecodeMessageIPFIX(router, payload, store);
    } else {
      packet, missing, failed := P.Unreadable, false, true;
    }
  }

  method DecodeMessageNetFlow(router: string, payload: Buffer, store: TemplateStore)
    returns (packet: P.Packet, missing: bool, failed: bool)
    modifies payload, store
    ensures P.Outcome(packet, store.templates, missing, failed)
            == P.DecodeNFv9(router, old(store.templates), old(payload.data))
  {
    ghost var t := payload.data;
    packet, missing, failed := P.Unreadable, false, true;
    var count := payload.ReadU16();
    if count.None? { return; }
    var uptime := payload.ReadU32();
    if uptime.None? { return; }
    var secs := payload.ReadU32();
    if secs.None? { return; }
    var number := payload.ReadU32();
    if number.None? { return; }
    var source := payload.ReadU32();
    if source.None? { return; }
    Words(t);
    var flowSets;
    flowSets, missing, failed := DecodeMessageCommon(payload, store, P.Session(router, 9, source.value), count.value);
    packet := P.NFv9(NFv9Packet(9, count.value, uptime.value, secs.value, number.value, source.value, flowSets));
  }

  method DecodeMessageIPFIX(router: string, payload: Buffer, store: TemplateStore)
    returns (packet: P.Packet, missing: bool, failed: bool)
    modifies payload, store
    ensures P.Outcome(packet, store.templates, missing, failed)
            == P.DecodeIPFIX(router, old(store.templates), old(payload.data))
  {
    ghost var t := payload.data;
    packet, missing, failed := P.Unreadable, false, true;
    var length := payload.ReadU16();
    if length.None? { return; }
    var time := payload.ReadU32();
    if time.None? { return; }
    var number := payload.ReadU32();
    if number.None? { return; }
    var domain := payload.ReadU32();
    if domain.None? { return; }
    Words(t);
    var flowSets;
    flowSets, missing, failed := DecodeMessageCommon(payload, store, P.Session(router, 10, domain.value),
                                                     P.SetBytes(length.value));
    packet := P.IPFIX(IPFIXPacket(10, length.value, time.value, number.value, domain.value, flowSets));
  }

  /** Consuming two bytes and then four at a time reaches the header words. */
  lemma Words(s: bytes)
    ensures |s| >= 6 ==> s[2..][4..] == s[6..]
    ensures |s| >= 10 ==> s[6..][4..] == s[10..]
    ensures |s| >= 14 ==> s[10..][4..] == s[14..]
    ensures |s| >= 18 ==> s[14..][4..] == s[18..]
  {
  }
}

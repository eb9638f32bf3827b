/** The encoder as it runs: loops that append to a buffer and remember the templates they pass. */
module NetFlowEncoder {
  import opened Bytes
  import opened NetFlowTypes
  import W = NetFlowPrinter

  /** Bytes written so far, followed by what the rest of the loop writes; an error anywhere is an error. */
  ghost function Onto(done: bytes, rest: Option<bytes>): Option<bytes>
  {
    if rest.None? then None else Some(done + rest.value)
  }

  lemma OntoNothing(rest: Option<bytes>)
    ensures Onto([], rest) == rest
  {
    if rest.Some? { Empty(rest.value); }
  }

  lemma OntoDone(done: bytes)
    ensures Onto(done, Some([])) == Some(done)
  {
    Empty(done);
  }

  lemma OntoNext(done: bytes, x: bytes, rest: Option<bytes>)
    ensures Onto(done, Onto(x, rest)) == Onto(done + x, rest)
  {
    if rest.Some? { Assoc(done, x, rest.value); }
  }

  method PadFlowSetPayload(payload: bytes) returns (r: bytes)
    ensures r == W.Pad(payload) && (4 + |r|) % 4 == 0
  {
    W.PaddedToFour(|payload|);
    var padding := (4 - (4 + |payload|) % 4) % 4;
    if padding == 0 {
      Empty(payload);
      return payload;
    }
    return payload + seq(padding, i => 0);
  }

  // ---------- templates ----------

  method EncodeField(buf: Buffer, f: Field, pen: bool)
    modifies buf
    ensures buf.data == old(buf.data) + W.EncodeField(f, pen)
  {
    var typ := f.typ;
    if pen && f.penProvided && typ < ENTERPRISE {
      typ := typ + ENTERPRISE;
    }
    buf.WriteU16(typ);
    buf.WriteU16(f.length);
    if pen && f.penProvided {
      buf.WriteU32(f.pen);
    }
  }

  method EncodeFieldList(buf: Buffer, fs: seq<Field>, pen: bool)
    modifies buf
    ensures buf.data == old(buf.data) + W.EncodeFields(fs, pen)
  {
    var i := 0;
    assert fs[0..] == fs;
    while i < |fs|
      invariant 0 <= i <= |fs|
      invariant old(buf.data) + W.EncodeFields(fs, pen) == buf.data + W.EncodeFields(fs[i..], pen)
    {
      assert fs[i..][1..] == fs[i + 1..];
      Assoc(buf.data, W.EncodeField(fs[i], pen), W.EncodeFields(fs[i + 1..], pen));
      EncodeField(buf, fs[i], pen);
      i := i + 1;
    }
    Empty(buf.data);
  }

  /** The id and the counts, filled in where they are zero and checked against the fields. */
  method EncodeTemplateHeader(buf: Buffer, t: Template) returns (ok: bool)
    modifies buf
    ensures ok == W.CountsMatch(W.FillCounts(t))
    ensures ok ==> buf.data == old(buf.data) + W.TemplateHeader(W.FillCounts(t))
  {
    hide U16;
    ghost var start := buf.data;
    match t {
      case TemplateRecord(id, count, fields) =>
        var n := if count == 0 then |fields| % 0x1_0000 else count;
        if n != |fields| { return false; }
        buf.WriteU16(id);
        buf.WriteU16(n);
        Assoc(start, U16(id), U16(n));
      case NFv9OptionsTemplateRecord(id, sl, ol, scopes, options) =>
        var scopeLength := if sl == 0 then |scopes| * 4 % 0x1_0000 else sl;
        var optionLength := if ol == 0 then |options| * 4 % 0x1_0000 else ol;
        if scopeLength / 4 != |scopes| || optionLength / 4 != |options| { return false; }
        buf.WriteU16(id);
        buf.WriteU16(scopeLength);
        buf.WriteU16(optionLength);
        ThreeWords(start, U16(id), U16(scopeLength), U16(optionLength));
      case IPFIXOptionsTemplateRecord(id, count, scopeCount, scopes, options) =>
        var n := if count == 0 then (|scopes| + |options|) % 0x1_0000 else count;
        var m := if scopeCount == 0 && |scopes| > 0 then |scopes| % 0x1_0000 else scopeCount;
        if n != |scopes| + |options| || m != |scopes| { return false; }
        buf.WriteU16(id);
        buf.WriteU16(n);
        buf.WriteU16(m);
        ThreeWords(start, U16(id), U16(n), U16(m));
    }
    return true;
  }

  lemma ThreeWords(start: bytes, a: bytes, b: bytes, c: bytes)
    ensures start + a + b + c == start + (a + (b + c))
  {
    Assoc(start + a, b, c);
    Assoc(start, a, b + c);
  }

  method EncodeTemplate(buf: Buffer, kind: TemplateKind, t: Template) returns (ok: bool)
    modifies buf
    ensures ok == W.EncodeTemplate(kind, t).Some?
    ensures ok ==> buf.data == old(buf.data) + W.EncodeTemplate(kind, t).value
  {
    if !kind.Holds(t) { return false; }
    ghost var start := buf.data;
    ok := EncodeTemplateHeader(buf, t);
    if ok {
      EncodeTemplateFields(buf, kind, t, start, W.TemplateHeader(W.FillCounts(t)));
    }
  }

  method EncodeTemplateFields(buf: Buffer, kind: TemplateKind, t: Template, ghost start: bytes, ghost header: bytes)
    requires buf.data == start + header
    modifies buf
    ensures buf.data == start + (header + (W.EncodeFields(t.ScopeFields(), kind.Enterprise())
                                           + W.EncodeFields(t.ValueFields(), kind.Enterprise())))
  {
    ghost var s, v := W.EncodeFields(t.ScopeFields(), kind.Enterprise()),
      W.EncodeFields(t.ValueFields(), kind.Enterprise());
    EncodeFieldList(buf, t.ScopeFields(), kind.Enterprise());
    EncodeFieldList(buf, t.ValueFields(), kind.Enterprise());
    Assoc(start + header, s, v);
    Assoc(start, header, s + v);
  }

  method EncodeTemplateFlowSet(kind: TemplateKind, fs: FlowSet) returns (r: Option<(bytes, u16)>)
    requires fs.Announces()
    ensures r == if (fs.id != 0 && fs.id != kind.SetId()) || W.EncodeTemplates(kind, fs.templates).None? then None
                 else Some((W.Pad(W.EncodeTemplates(kind, fs.templates).value), kind.SetId()))
  {
    hide W.EncodeTemplate, W.EncodeTemplates, W.Pad;
    var id := if fs.id == 0 then kind.SetId() else fs.id;
    if id != kind.SetId() { return None; }
    var buf := new Buffer([]);
    var ts := fs.templates;
    var i := 0;
    assert ts[0..] == ts;
    OntoNothing(W.EncodeTemplates(kind, ts));
    while i < |ts|
      invariant 0 <= i <= |ts|
      invariant fresh(buf)
      invariant W.EncodeTemplates(kind, ts) == Onto(buf.data, W.EncodeTemplates(kind, ts[i..]))
    {
      ghost var done := buf.data;
      assert ts[i..][1..] == ts[i + 1..];
      TemplatesStep(kind, ts[i..]);
      var ok := EncodeTemplate(buf, kind, ts[i]);
      if !ok { return None; }
      OntoNext(done, W.EncodeTemplate(kind, ts[i]).value, W.EncodeTemplates(kind, ts[i + 1..]));
      i := i + 1;
    }
    assert ts[i..] == [];
    NoMoreTemplates(kind);
    OntoDone(buf.data);
    var payload := PadFlowSetPayload(buf.data);
    return Some((payload, id));
  }

  lemma NoMoreTemplates(kind: TemplateKind)
    ensures W.EncodeTemplates(kind, []) == Some([])
  {
  }

  lemma TemplatesStep(kind: TemplateKind, ts: seq<Template>)
    requires ts != []
    ensures W.EncodeTemplates(kind, ts) ==
            match W.EncodeTemplate(kind, ts[0])
            case None => None
            case Some(x) => Onto(x, W.EncodeTemplates(kind, ts[1..]))
  {
  }

  // ---------- data records ----------

  method EncodeDataFieldValue(buf: Buffer, df: DataField, tmpl: Option<Field>) returns (ok: bool)
    modifies buf
    ensures ok == W.EncodeValue(df, tmpl).Some?
    ensures ok ==> buf.data == old(buf.data) + W.EncodeValue(df, tmpl).value
  {
    if df.value.Unsupported? { return false; }
    var value := df.value.data;
    var length := df.length;
    if tmpl.Some? {
      length := tmpl.value.length;
    }
    if length == VARIABLE {
      if |value| > 0xffff { return false; }
      if |value| < 255 {
        buf.WriteU8(|value|);
      } else {
        buf.WriteU8(0xff);
        buf.WriteU16(|value|);
      }
    } else if length != 0 && length != |value| {
      return false;
    }
    buf.Write(value);
    return true;
  }

  method EncodeValueList(buf: Buffer, dfs: seq<DataField>, guide: seq<Option<Field>>) returns (ok: bool)
    requires |guide| == |dfs|
    modifies buf
    ensures ok == W.EncodeValues(dfs, guide).Some?
    ensures ok ==> buf.data == old(buf.data) + W.EncodeValues(dfs, guide).value
  {
    var i := 0;
    assert dfs[0..] == dfs && guide[0..] == guide;
    while i < |dfs|
      invariant 0 <= i <= |dfs|
      invariant Onto(old(buf.data), W.EncodeValues(dfs, guide)) == Onto(buf.data, W.EncodeValues(dfs[i..], guide[i..]))
    {
      ghost var done := buf.data;
      assert dfs[i..][1..] == dfs[i + 1..] && guide[i..][1..] == guide[i + 1..];
      ValuesStep(dfs[i..], guide[i..]);
      var good := EncodeDataFieldValue(buf, dfs[i], guide[i]);
      if !good { return false; }
      OntoNext(done, W.EncodeValue(dfs[i], guide[i]).value, W.EncodeValues(dfs[i + 1..], guide[i + 1..]));
      i := i + 1;
    }
    OntoDone(buf.data);
    return true;
  }

  lemma ValuesStep(dfs: seq<DataField>, guide: seq<Option<Field>>)
    requires |guide| == |dfs| > 0
    ensures W.EncodeValues(dfs, guide) ==
            match W.EncodeValue(dfs[0], guide[0])
            case None => None
            case Some(x) => Onto(x, W.EncodeValues(dfs[1..], guide[1..]))
  {
  }

  method EncodeRecord(buf: Buffer, options: bool, template: Option<Template>, r: DataRecord) returns (ok: bool)
    modifies buf
    ensures ok == W.EncodeRecord(options, template, r).Some?
    ensures ok ==> buf.data == old(buf.data) + W.EncodeRecord(options, template, r).value
  {
    // templateFields and optionTemplateFields: no template, or one of the right type and size
    if template.Some? {
      var t := template.value;
      if t.TemplateRecord? == options { return false; }
      if |t.ScopeFields()| != |r.scopes| || |t.ValueFields()| != |r.values| { return false; }
    }
    ghost var start := buf.data;
    ok := EncodeValueList(buf, r.scopes, W.ScopeGuide(template, |r.scopes|));
    if !ok { return; }
    ok := EncodeValueList(buf, r.values, W.ValueGuide(template, |r.values|));
    if ok {
      Assoc(start, W.EncodeValues(r.scopes, W.ScopeGuide(template, |r.scopes|)).value,
            W.EncodeValues(r.values, W.ValueGuide(template, |r.values|)).value);
    }
  }

  /** encodeDataFlowSet and encodeOptionsDataFlowSet. */
  method EncodeDataFlowSet(fs: FlowSet, template: Option<Template>) returns (r: Option<(bytes, u16)>)
    requires fs.DataFlowSet? || fs.OptionsDataFlowSet?
    ensures r == if fs.id < 256 || W.EncodeRecords(fs.OptionsDataFlowSet?, template, fs.records).None? then None
                 else Some((W.Pad(W.EncodeRecords(fs.OptionsDataFlowSet?, template, fs.records).value), fs.id))
  {
    if fs.id < 256 { return None; }
    var buf := new Buffer([]);
    var options, rs := fs.OptionsDataFlowSet?, fs.records;
    var i := 0;
    assert rs[0..] == rs;
    OntoNothing(W.EncodeRecords(options, template, rs));
    while i < |rs|
      invariant 0 <= i <= |rs|
      invariant fresh(buf)
      invariant W.EncodeRecords(options, template, rs) == Onto(buf.data, W.EncodeRecords(options, template, rs[i..]))
    {
      ghost var done := buf.data;
      assert rs[i..][1..] == rs[i + 1..];
      RecordsStep(options, template, rs[i..]);
      var ok := EncodeRecord(buf, options, template, rs[i]);
      if !ok { return None; }
      OntoNext(done, W.EncodeRecord(options, template, rs[i]).value, W.EncodeRecords(options, template, rs[i + 1..]));
      i := i + 1;
    }
    OntoDone(buf.data);
    var payload := PadFlowSetPayload(buf.data);
    return Some((payload, fs.id));
  }

  lemma RecordsStep(options: bool, template: Option<Template>, rs: seq<DataRecord>)
    requires rs != []
    ensures W.EncodeRecords(options, template, rs) ==
            match W.EncodeRecord(options, template, rs[0])
            case None => None
            case Some(x) => Onto(x, W.EncodeRecords(options, template, rs[1..]))
  {
  }

  // ---------- flow sets ----------

  method RememberTemplates(known: W.Announced, ts: seq<Template>) returns (after: W.Announced)
    ensures after == W.Announce(known, ts)
  {
    after := known;
    var i := 0;
    assert ts[0..] == ts;
    while i < |ts|
      invariant 0 <= i <= |ts|
      invariant W.Announce(known, ts) == W.Announce(after, ts[i..])
    {
      assert ts[i..][1..] == ts[i + 1..];
      after := after[ts[i].templateId := ts[i]];
      i := i + 1;
    }
  }

  method EncodeFlowSet(version: u16, fs: FlowSet, known: W.Announced)
    returns (r: Option<(bytes, u16)>, after: W.Announced)
    ensures r == W.EncodeSet(version, fs, known)
    ensures r.Some? ==> after == W.AfterSet(fs, known)
  {
    after := known;
    if fs.Announces() {
      var kind := KindOf(version, fs);
      if kind.None? { return None, after; }
      r := EncodeTemplateFlowSet(kind.value, fs);
      if r.Some? {
        after := RememberTemplates(known, fs.templates);
      }
    } else if fs.RawFlowSet? {
      if fs.id < 256 { return None, after; }
      var payload := PadFlowSetPayload(fs.data);
      r := Some((payload, fs.id));
    } else {
      r := EncodeDataFlowSet(fs, W.Known(known, fs.id));
    }
  }

  method EncodeFlowSets(version: u16, sets: seq<FlowSet>) returns (r: Option<bytes>)
    ensures r == W.EncodeSets(version, sets, map[])
  {
    hide W.EncodeSet, W.EncodeSets, W.AfterSet, U16;
    var buf := new Buffer([]);
    var templates: W.Announced := map[];
    var i := 0;
    assert sets[0..] == sets;
    OntoNothing(W.EncodeSets(version, sets, map[]));
    while i < |sets|
      invariant 0 <= i <= |sets|
      invariant fresh(buf)
      invariant W.EncodeSets(version, sets, map[]) == Onto(buf.data, W.EncodeSets(version, sets[i..], templates))
    {
      ghost var done, known := buf.data, templates;
      assert sets[i..][1..] == sets[i + 1..];
      SetsStep(version, sets[i..], known, done);
      var encoded, after := EncodeFlowSet(version, sets[i], templates);
      if encoded.None? { return None; }
      var (payload, id) := encoded.value;
      if 4 + |payload| > 0xffff { return None; }
      templates := after;
      buf.WriteU16(id);
      buf.WriteU16(4 + |payload|);
      buf.Write(payload);
      i := i + 1;
    }
    assert sets[i..] == [];
    NoMoreSets(version, templates);
    OntoDone(buf.data);
    return Some(buf.data);
  }

  lemma NoMoreSets(version: u16, known: W.Announced)
    ensures W.EncodeSets(version, [], known) == Some([])
  {
  }

  lemma SetsStep(version: u16, sets: seq<FlowSet>, known: W.Announced, done: bytes)
    requires sets != []
    ensures Onto(done, W.EncodeSets(version, sets, known)) ==
            match W.EncodeSet(version, sets[0], known)
            case None => None
            case Some((payload, id)) =>
              if 4 + |payload| > 0xffff then None
              else Onto(done + U16(id) + U16(4 + |payload|) + payload,
                        W.EncodeSets(version, sets[1..], W.AfterSet(sets[0], known)))
  {
    var head, rest := W.EncodeSet(version, sets[0], known),
      W.EncodeSets(version, sets[1..], W.AfterSet(sets[0], known));
    if head.Some? && 4 + |head.value.0| <= 0xffff && rest.Some? {
      var (payload, id) := head.value;
      var length := U16(4 + |payload|);
      Assoc(done, U16(id), length + (payload + rest.value));
      Assoc(done + U16(id), length, payload + rest.value);
      Assoc(done + U16(id) + length, payload, rest.value);
    }
  }

  // ---------- packets ----------

  method EncodeNFv9Packet(p: NFv9Packet) returns (r: Option<bytes>)
    ensures r == W.EncodeNFv9(p)
  {
    hide W.EncodeSets, U16, U32;
    var version := if p.version == 0 then 9 else p.version;
    if version != 9 { return None; }
    var body := EncodeFlowSets(9, p.flowSets);
    if body.None? { return None; }
    var count := if p.count == 0 then |p.flowSets| % 0x1_0000 else p.count;
    var buf := new Buffer([]);
    buf.WriteU16(version);
    buf.WriteU16(count);
    buf.WriteU32(p.systemUptime);
    buf.WriteU32(p.unixSeconds);
    buf.WriteU32(p.sequenceNumber);
    buf.WriteU32(p.sourceId);
    buf.Write(body.value);
    NFv9Order(U16(9), U16(count), U32(p.systemUptime), U32(p.unixSeconds), U32(p.sequenceNumber), U32(p.sourceId),
              body.value);
    return Some(buf.data);
  }

  method EncodeIPFIXPacket(p: IPFIXPacket) returns (r: Option<bytes>)
    ensures r == W.EncodeIPFIX(p)
  {
    hide W.EncodeSets, U16, U32;
    var version := if p.version == 0 then 10 else p.version;
    if version != 10 { return None; }
    var body := EncodeFlowSets(10, p.flowSets);
    if body.None? { return None; }
    var length := 16 + |body.value|;
    if length > 0xffff { return None; }
    var buf := new Buffer([]);
    buf.WriteU16(version);
    buf.WriteU16(length);
    buf.WriteU32(p.exportTime);
    buf.WriteU32(p.sequenceNumber);
    buf.WriteU32(p.domainId);
    buf.Write(body.value);
    IPFIXOrder(U16(10), U16(length), U32(p.exportTime), U32(p.sequenceNumber), U32(p.domainId), body.value);
    return Some(buf.data);
  }

  lemma NFv9Order(a: bytes, b: bytes, c: bytes, d: bytes, e: bytes, f: bytes, g: bytes)
    ensures [] + a + b + c + d + e + f + g == a + (b + (c + (d + (e + (f + g)))))
  {
    Empty(a);
    Assoc(a + b + c + d + e, f, g);
    Assoc(a + b + c + d, e, f + g);
    Assoc(a + b + c, d, e + (f + g));
    Assoc(a + b, c, d + (e + (f + g)));
    Assoc(a, b, c + (d + (e + (f + g))));
  }

  lemma IPFIXOrder(a: bytes, b: bytes, c: bytes, d: bytes, e: bytes, f: bytes)
    ensures [] + a + b + c + d + e + f == a + (b + (c + (d + (e + f))))
  {
    Empty(a);
    Assoc(a + b + c + d, e, f);
    Assoc(a + b + c, d, e + f);
    Assoc(a + b, c, d + (e + f));
    Assoc(a, b, c + (d + (e + f)));
  }
}

/** Decoding what the encoder wrote gives the packet back. */
module NetFlowRoundTrip {
  import opened Bytes
  import opened NetFlowTypes
  import opened NetFlowPrinter
  import opened NetFlowParser

  // ---------- templates ----------

  /** What survives the wire: an enterprise number only where the encoder writes one. */
  function CanonField(f: Field, pen: bool): Field
  {
    if pen && f.penProvided then f else Field(false, f.typ, f.length, 0)
  }

  function CanonFields(fs: seq<Field>, pen: bool): (r: seq<Field>)
    ensures |r| == |fs|
  {
    if fs == [] then [] else [CanonField(fs[0], pen)] + CanonFields(fs[1..], pen)
  }

  function CanonTemplate(kind: TemplateKind, t: Template): Template
  {
    var pen := kind.Enterprise();
    match FillCounts(t)
    case TemplateRecord(id, count, fields) => TemplateRecord(id, count, CanonFields(fields, pen))
    case NFv9OptionsTemplateRecord(id, sl, ol, scopes, options) =>
      NFv9OptionsTemplateRecord(id, sl, ol, CanonFields(scopes, pen), CanonFields(options, pen))
    case IPFIXOptionsTemplateRecord(id, count, scopeCount, scopes, options) =>
      IPFIXOptionsTemplateRecord(id, count, scopeCount, CanonFields(scopes, pen), CanonFields(options, pen))
  }

  function CanonTemplates(kind: TemplateKind, ts: seq<Template>): (r: seq<Template>)
    ensures |r| == |ts|
  {
    if ts == [] then [] else [CanonTemplate(kind, ts[0])] + CanonTemplates(kind, ts[1..])
  }

  /** The top bit of an IPFIX type is the enterprise flag, so types must stay below it. */
  predicate PlainTypes(fs: seq<Field>, pen: bool)
  {
    pen ==> forall i :: 0 <= i < |fs| ==> fs[i].typ < ENTERPRISE
  }

  predicate PlainTemplate(kind: TemplateKind, t: Template)
  {
    PlainTypes(t.ScopeFields(), kind.Enterprise()) && PlainTypes(t.ValueFields(), kind.Enterprise())
  }

  /** A field specifier survives exactly when its type leaves the enterprise bit free. */
  lemma FieldRoundTrip(f: Field, pen: bool, rest: bytes)
    ensures DecodeField(EncodeField(f, pen) + rest, pen) == Some((CanonField(f, pen), rest))
            <==> (pen ==> f.typ < ENTERPRISE)
  {
    if pen && f.penProvided {
      var wire := if f.typ < ENTERPRISE then f.typ + ENTERPRISE else f.typ;
      assert EncodeField(f, pen) + rest == U16(wire) + (U16(f.length) + (U32(f.pen) + rest));
      ReadBackU16(wire, U16(f.length) + (U32(f.pen) + rest));
      ReadBackU16(f.length, U32(f.pen) + rest);
      ReadBackU32(f.pen, rest);
      var s := EncodeField(f, pen) + rest;
      assert s[4..] == s[2..][2..];
      assert s[8..] == s[4..][4..];
    } else {
      assert EncodeField(f, pen) + rest == U16(f.typ) + (U16(f.length) + rest);
      ReadBackU16(f.typ, U16(f.length) + rest);
      ReadBackU16(f.length, rest);
      var s := EncodeField(f, pen) + rest;
      assert s[4..] == s[2..][2..];
    }
  }

  /**
   * An IPFIX type with the top bit set is read as an enterprise field, and takes the next four octets as its number.
   */
  lemma EnterpriseBitMisread(length: u16, pen: u32, rest: bytes)
    ensures var f := Field(false, ENTERPRISE + 1, length, 0);
            DecodeField(EncodeField(f, true) + (U32(pen) + rest), true) == Some((Field(true, 1, length, pen), rest))
  {
    var f := Field(false, ENTERPRISE + 1, length, 0);
    var s := EncodeField(f, true) + (U32(pen) + rest);
    assert s == U16(f.typ) + (U16(length) + (U32(pen) + rest));
    ReadBackU16(f.typ, U16(length) + (U32(pen) + rest));
    ReadBackU16(length, U32(pen) + rest);
    ReadBackU32(pen, rest);
    assert s[4..] == s[2..][2..] && s[8..] == s[4..][4..];
  }

  lemma {:induction false} FieldsRoundTrip(fs: seq<Field>, pen: bool, rest: bytes)
    requires PlainTypes(fs, pen)
    ensures DecodeFields(EncodeFields(fs, pen) + rest, |fs|, pen) == Some((CanonFields(fs, pen), rest))
    ensures |EncodeFields(fs, pen)| >= 4 * |fs|
  {
    if fs == [] {
      assert EncodeFields(fs, pen) + rest == rest;
    } else {
      var tail := EncodeFields(fs[1..], pen) + rest;
      Assoc(EncodeField(fs[0], pen), EncodeFields(fs[1..], pen), rest);
      FieldRoundTrip(fs[0], pen, tail);
      FieldsRoundTrip(fs[1..], pen, rest);
    }
  }

  lemma BothHalvesRoundTrip(scopes: seq<Field>, values: seq<Field>, pen: bool, rest: bytes)
    requires PlainTypes(scopes, pen) && PlainTypes(values, pen)
    ensures var wire := EncodeFields(scopes, pen) + EncodeFields(values, pen) + rest;
            var d := DecodeFields(wire, |scopes|, pen);
            d.Some? && d.value.0 == CanonFields(scopes, pen)
            && DecodeFields(d.value.1, |values|, pen) == Some((CanonFields(values, pen), rest))
  {
    var tail := EncodeFields(values, pen) + rest;
    Assoc(EncodeFields(scopes, pen), EncodeFields(values, pen), rest);
    FieldsRoundTrip(scopes, pen, tail);
    FieldsRoundTrip(values, pen, rest);
  }

  /** A three-word header read back. */
  lemma ReadBackTriple(a: u16, b: u16, c: u16, rest: bytes)
    ensures var s := U16(a) + (U16(b) + U16(c)) + rest;
            |s| == 6 + |rest| && HeadU16(s) == a && HeadU16(s[2..]) == b && HeadU16(s[4..]) == c && s[6..] == rest
  {
    var s := U16(a) + (U16(b) + U16(c)) + rest;
    assert s == U16(a) + (U16(b) + (U16(c) + rest));
    ReadBackU16(a, U16(b) + (U16(c) + rest));
    ReadBackU16(b, U16(c) + rest);
    ReadBackU16(c, rest);
    assert s[4..] == s[2..][2..];
    assert s[6..] == s[4..][2..];
  }

  lemma ReadBackPair(a: u16, b: u16, rest: bytes)
    ensures var s := U16(a) + (U16(b) + rest);
            |s| == 4 + |rest| && HeadU16(s) == a && HeadU16(s[2..]) == b && s[4..] == rest
  {
    var s := U16(a) + (U16(b) + rest);
    ReadBackU16(a, U16(b) + rest);
    ReadBackU16(b, rest);
    assert s[4..] == s[2..][2..];
  }

  lemma PlainTemplateRoundTrip(id: u16, fields: seq<Field>, pen: bool, rest: bytes)
    requires |fields| < 0x1_0000 && PlainTypes(fields, pen)
    ensures DecodePlainTemplate(U16(id) + (U16(|fields|) + (EncodeFields(fields, pen) + rest)), pen)
            == Some((TemplateRecord(id, |fields|, CanonFields(fields, pen)), rest))
  {
    ReadBackPair(id, |fields|, EncodeFields(fields, pen) + rest);
    FieldsRoundTrip(fields, pen, rest);
  }

  lemma NFv9OptionsRoundTrip(id: u16, sl: u16, ol: u16, scopes: seq<Field>, options: seq<Field>, rest: bytes)
    requires sl / 4 == |scopes| && ol / 4 == |options|
    ensures DecodeTemplate(NFv9Options,
                           U16(id) + (U16(sl) + U16(ol)) + (EncodeFields(scopes, false) + EncodeFields(options, false)
                                                            + rest))
            == Some((NFv9OptionsTemplateRecord(id, sl, ol, CanonFields(scopes, false), CanonFields(options, false)),
                     rest))
  {
    ReadBackTriple(id, sl, ol, EncodeFields(scopes, false) + EncodeFields(options, false) + rest);
    BothHalvesRoundTrip(scopes, options, false, rest);
  }

  lemma IPFIXOptionsRoundTrip(id: u16, count: u16, scopeCount: u16, scopes: seq<Field>, options: seq<Field>,
                              rest: bytes)
    requires count == |scopes| + |options| && scopeCount == |scopes| && PlainTypes(scopes, true)
             && PlainTypes(options, true)
    ensures DecodeTemplate(IPFIXOptions,
                           U16(id) + (U16(count) + U16(scopeCount))
                             + (EncodeFields(scopes, true) + EncodeFields(options, true) + rest))
            == Some((IPFIXOptionsTemplateRecord(id, count, scopeCount, CanonFields(scopes, true),
                                                CanonFields(options, true)), rest))
  {
    ReadBackTriple(id, count, scopeCount, EncodeFields(scopes, true) + EncodeFields(options, true) + rest);
    BothHalvesRoundTrip(scopes, options, true, rest);
  }

  lemma TemplateWire(kind: TemplateKind, t: Template, rest: bytes)
    requires EncodeTemplate(kind, t).Some?
    ensures var pen, full := kind.Enterprise(), FillCounts(t);
            EncodeTemplate(kind, t).value + rest
            == TemplateHeader(full) + (EncodeFields(t.ScopeFields(), pen) + EncodeFields(t.ValueFields(), pen) + rest)
    ensures |EncodeTemplate(kind, t).value| >= 4
  {
  }

  lemma PlainWireRoundTrip(kind: TemplateKind, t: Template, rest: bytes)
    requires t.TemplateRecord? && EncodeTemplate(kind, t).Some? && PlainTemplate(kind, t)
    ensures DecodePlainTemplate(EncodeTemplate(kind, t).value + rest, kind.Enterprise())
            == Some((CanonTemplate(kind, t), rest))
  {
    var pen := kind.Enterprise();
    TemplateWire(kind, t, rest);
    assert EncodeFields([], pen) + EncodeFields(t.fields, pen) == EncodeFields(t.fields, pen);
    Assoc(U16(t.templateId), U16(|t.fields|), EncodeFields(t.fields, pen) + rest);
    PlainTemplateRoundTrip(t.templateId, t.fields, pen, rest);
  }

  lemma OptionsWireRoundTrip(kind: TemplateKind, t: Template, rest: bytes)
    requires !t.TemplateRecord? && EncodeTemplate(kind, t).Some? && PlainTemplate(kind, t)
    ensures DecodeTemplate(kind, EncodeTemplate(kind, t).value + rest) == Some((CanonTemplate(kind, t), rest))
  {
    TemplateWire(kind, t, rest);
    var full := FillCounts(t);
    if t.NFv9OptionsTemplateRecord? {
      NFv9OptionsRoundTrip(t.templateId, full.scopeLength, full.optionLength, t.scopes, t.options, rest);
    } else {
      IPFIXOptionsRoundTrip(t.templateId, full.fieldCount, full.scopeFieldCount, t.scopes, t.options, rest);
    }
  }

  lemma TemplateRoundTrip(kind: TemplateKind, t: Template, rest: bytes)
    requires EncodeTemplate(kind, t).Some? && PlainTemplate(kind, t)
    ensures DecodeTemplate(kind, EncodeTemplate(kind, t).value + rest) == Some((CanonTemplate(kind, t), rest))
    ensures |EncodeTemplate(kind, t).value| >= 4
  {
    TemplateWire(kind, t, rest);
    if t.TemplateRecord? {
      PlainWireRoundTrip(kind, t, rest);
    } else {
      OptionsWireRoundTrip(kind, t, rest);
    }
  }

  lemma EncodeTemplatesCons(kind: TemplateKind, ts: seq<Template>)
    requires ts != [] && EncodeTemplates(kind, ts).Some?
    ensures EncodeTemplate(kind, ts[0]).Some? && EncodeTemplates(kind, ts[1..]).Some?
    ensures EncodeTemplates(kind, ts).value == EncodeTemplate(kind, ts[0]).value + EncodeTemplates(kind, ts[1..]).value
  {
  }

  lemma DecodeTemplatesCons(kind: TemplateKind, s: bytes, t: Template, rest: bytes)
    requires |s| >= 4 && DecodeTemplate(kind, s) == Some((t, rest))
    ensures DecodeTemplates(kind, s) == ([t] + DecodeTemplates(kind, rest).0, DecodeTemplates(kind, rest).1)
  {
  }

  lemma {:induction false} TemplatesRoundTrip(kind: TemplateKind, ts: seq<Template>, pad: bytes)
    requires EncodeTemplates(kind, ts).Some? && forall i :: 0 <= i < |ts| ==> PlainTemplate(kind, ts[i])
    requires |pad| < 4
    ensures DecodeTemplates(kind, EncodeTemplates(kind, ts).value + pad) == (CanonTemplates(kind, ts), true)
  {
    if ts == [] {
      assert EncodeTemplates(kind, ts).value + pad == pad;
    } else {
      EncodeTemplatesCons(kind, ts);
      var head, tail := EncodeTemplate(kind, ts[0]).value, EncodeTemplates(kind, ts[1..]).value;
      hide EncodeTemplate, EncodeTemplates, DecodeTemplate;
      var s := EncodeTemplates(kind, ts).value + pad;
      Assoc(head, tail, pad);
      TemplateRoundTrip(kind, ts[0], tail + pad);
      DecodeTemplatesCons(kind, s, CanonTemplate(kind, ts[0]), tail + pad);
      TemplatesRoundTrip(kind, ts[1..], pad);
    }
  }

  // ---------- data records ----------

  /** The decoder types a value by its own template and forgets the length on the data field. */
  function CanonValue(f: Field, df: DataField): DataField
    requires !df.value.Unsupported?
  {
    DataField(f.penProvided, f.typ, 0, f.pen, Raw(df.value.data))
  }

  /**
   * The encoder wrote the value the way the decoder's field will read it: both variable,
   * or both fixed with exactly the announced number of octets, zero included.
   */
  predicate ValueFits(f: Field, df: DataField, tmpl: Option<Field>)
  {
    && !df.value.Unsupported?
    && (f.length == VARIABLE <==> GoverningLength(df, tmpl) == VARIABLE)
    && (f.length != VARIABLE ==> |df.value.data| == f.length)
  }

  predicate ValuesFit(fs: seq<Field>, dfs: seq<DataField>, tmpls: seq<Option<Field>>)
  {
    |fs| == |dfs| == |tmpls| && forall i :: 0 <= i < |fs| ==> ValueFits(fs[i], dfs[i], tmpls[i])
  }

  function CanonValues(fs: seq<Field>, dfs: seq<DataField>): (r: seq<DataField>)
    requires |fs| == |dfs| && forall i :: 0 <= i < |dfs| ==> !dfs[i].value.Unsupported?
    ensures |r| == |dfs|
  {
    if dfs == [] then [] else [CanonValue(fs[0], dfs[0])] + CanonValues(fs[1..], dfs[1..])
  }

  lemma ValueRoundTrip(f: Field, df: DataField, tmpl: Option<Field>, rest: bytes)
    requires ValueFits(f, df, tmpl) && EncodeValue(df, tmpl).Some?
    ensures DecodeValue(f, EncodeValue(df, tmpl).value + rest) == Some((CanonValue(f, df), rest))
    ensures |EncodeValue(df, tmpl).value| >= if f.length == VARIABLE then 1 else f.length
  {
    var value := df.value.data;
    var wire := EncodeValue(df, tmpl).value + rest;
    TakeDropAppend(value, rest);
    if f.length == VARIABLE {
      assert wire == LengthPrefix(|value|) + (value + rest);
      if |value| < 255 {
        assert wire[1..] == value + rest;
      } else {
        assert wire[1..] == U16(|value|) + (value + rest);
        ReadBackU16(|value|, value + rest);
        assert wire[3..] == wire[1..][2..];
      }
    }
  }

  /** Some field takes at least one octet. */
  predicate AnyOctet(fs: seq<Field>)
  {
    exists i :: 0 <= i < |fs| && fs[i].length > 0
  }

  lemma {:induction false} ValuesRoundTrip(fs: seq<Field>, dfs: seq<DataField>, tmpls: seq<Option<Field>>, rest: bytes)
    requires ValuesFit(fs, dfs, tmpls) && EncodeValues(dfs, tmpls).Some?
    ensures DecodeValues(fs, EncodeValues(dfs, tmpls).value + rest) == Some((CanonValues(fs, dfs), rest))
  {
    if dfs == [] {
      assert EncodeValues(dfs, tmpls).value + rest == rest;
    } else {
      assert ValueFits(fs[0], dfs[0], tmpls[0]);
      var head, tail := EncodeValue(dfs[0], tmpls[0]).value, EncodeValues(dfs[1..], tmpls[1..]).value;
      Assoc(head, tail, rest);
      ValueRoundTrip(fs[0], dfs[0], tmpls[0], tail + rest);
      ValuesRoundTrip(fs[1..], dfs[1..], tmpls[1..], rest);
    }
  }

  lemma {:induction false} ValuesSize(fs: seq<Field>, dfs: seq<DataField>, tmpls: seq<Option<Field>>)
    requires ValuesFit(fs, dfs, tmpls) && EncodeValues(dfs, tmpls).Some?
    ensures |EncodeValues(dfs, tmpls).value| >= TemplateSize(fs)
    ensures AnyOctet(fs) ==> |EncodeValues(dfs, tmpls).value| >= 1
    ensures !AnyOctet(fs) ==> EncodeValues(dfs, tmpls).value == []
  {
    if dfs != [] {
      assert ValueFits(fs[0], dfs[0], tmpls[0]);
      ValueRoundTrip(fs[0], dfs[0], tmpls[0], []);
      ValuesSize(fs[1..], dfs[1..], tmpls[1..]);
      if AnyOctet(fs) && fs[0].length == 0 {
        var i :| 0 <= i < |fs| && fs[i].length > 0;
        assert fs[1..][i - 1].length > 0;
      }
      if AnyOctet(fs[1..]) {
        var i :| 0 <= i < |fs[1..]| && fs[1..][i].length > 0;
        assert fs[i + 1].length > 0;
      }
    }
  }

  /** How the decoder lays a record out, and how the encoder does, agree on every value. */
  predicate RecordFits(stored: Template, r: DataRecord, tmpl: Option<Template>)
  {
    && (tmpl.Some? ==> |tmpl.value.ScopeFields()| == |r.scopes| && |tmpl.value.ValueFields()| == |r.values|)
    && ValuesFit(stored.ScopeFields(), r.scopes, ScopeGuide(tmpl, |r.scopes|))
    && ValuesFit(stored.ValueFields(), r.values, ValueGuide(tmpl, |r.values|))
  }

  function CanonRecord(stored: Template, r: DataRecord): DataRecord
    requires |stored.ScopeFields()| == |r.scopes| && |stored.ValueFields()| == |r.values|
    requires forall i :: 0 <= i < |r.scopes| ==> !r.scopes[i].value.Unsupported?
    requires forall i :: 0 <= i < |r.values| ==> !r.values[i].value.Unsupported?
  {
    DataRecord(CanonValues(stored.ScopeFields(), r.scopes), CanonValues(stored.ValueFields(), r.values))
  }

  predicate RecordsFit(stored: Template, rs: seq<DataRecord>, tmpl: Option<Template>)
  {
    forall i :: 0 <= i < |rs| ==> RecordFits(stored, rs[i], tmpl)
  }

  function CanonRecords(stored: Template, rs: seq<DataRecord>, tmpl: Option<Template>): (r: seq<DataRecord>)
    requires RecordsFit(stored, rs, tmpl)
    ensures |r| == |rs|
  {
    if rs == [] then [] else [CanonRecord(stored, rs[0])] + CanonRecords(stored, rs[1..], tmpl)
  }

  function FixedSize(t: Template): nat
  {
    TemplateSize(t.ScopeFields()) + TemplateSize(t.ValueFields())
  }

  /** No record of this layout is empty on the wire. */
  predicate Consumes(t: Template)
  {
    AnyOctet(t.ScopeFields()) || AnyOctet(t.ValueFields())
  }

  lemma RecordSize(options: bool, stored: Template, r: DataRecord, tmpl: Option<Template>)
    requires RecordFits(stored, r, tmpl) && EncodeRecord(options, tmpl, r).Some?
    ensures var wire := EncodeRecord(options, tmpl, r).value;
            |wire| >= FixedSize(stored) && (Consumes(stored) <==> wire != [])
  {
    ValuesSize(stored.ScopeFields(), r.scopes, ScopeGuide(tmpl, |r.scopes|));
    ValuesSize(stored.ValueFields(), r.values, ValueGuide(tmpl, |r.values|));
  }

  lemma DecodeRecordSteps(scopes: seq<Field>, values: seq<Field>, s: bytes,
                          sv: seq<DataField>, mid: bytes, vv: seq<DataField>, rest: bytes)
    requires |s| >= TemplateSize(scopes) && DecodeValues(scopes, s) == Some((sv, mid))
    requires |mid| >= TemplateSize(values) && DecodeValues(values, mid) == Some((vv, rest))
    requires |rest| < |s|
    ensures DecodeRecord(scopes, values, s) == Some((DataRecord(sv, vv), rest))
  {
  }

  lemma RecordRoundTrip(options: bool, stored: Template, r: DataRecord, tmpl: Option<Template>, rest: bytes)
    requires RecordFits(stored, r, tmpl) && EncodeRecord(options, tmpl, r).Some? && Consumes(stored)
    ensures DecodeRecord(stored.ScopeFields(), stored.ValueFields(), EncodeRecord(options, tmpl, r).value + rest)
            == Some((CanonRecord(stored, r), rest))
  {
    var sg, vg := ScopeGuide(tmpl, |r.scopes|), ValueGuide(tmpl, |r.values|);
    var sw, vw := EncodeValues(r.scopes, sg).value, EncodeValues(r.values, vg).value;
    var s := EncodeRecord(options, tmpl, r).value + rest;
    Assoc(sw, vw, rest);
    hide EncodeValues, DecodeValues, DecodeRecord, TemplateSize, AnyOctet, ScopeGuide, ValueGuide;
    RecordSize(options, stored, r, tmpl);
    var scopes, values := stored.ScopeFields(), stored.ValueFields();
    ValuesRoundTrip(scopes, r.scopes, sg, vw + rest);
    ValuesSize(scopes, r.scopes, sg);
    ValuesRoundTrip(values, r.values, vg, rest);
    ValuesSize(values, r.values, vg);
    DecodeRecordSteps(scopes, values, s, CanonValues(scopes, r.scopes), vw + rest, CanonValues(values, r.values), rest);
  }

  lemma EncodeRecordsCons(options: bool, tmpl: Option<Template>, rs: seq<DataRecord>)
    requires rs != [] && EncodeRecords(options, tmpl, rs).Some?
    ensures EncodeRecord(options, tmpl, rs[0]).Some? && EncodeRecords(options, tmpl, rs[1..]).Some?
    ensures EncodeRecords(options, tmpl, rs).value
            == EncodeRecord(options, tmpl, rs[0]).value + EncodeRecords(options, tmpl, rs[1..]).value
  {
  }

  lemma DecodeRecordsCons(scopes: seq<Field>, values: seq<Field>, s: bytes, r: DataRecord, rest: bytes)
    requires s != [] && |s| >= TemplateSize(scopes) + TemplateSize(values)
    requires DecodeRecord(scopes, values, s) == Some((r, rest))
    ensures var d := DecodeRecords(scopes, values, rest);
            DecodeRecords(scopes, values, s) == ([r] + d.0, d.1)
  {
  }

  /** Every record comes back, and then the decoder goes on with the bytes that follow them. */
  lemma {:induction false} RecordsThenRest(options: bool, stored: Template, rs: seq<DataRecord>, tmpl: Option<Template>,
                                           rest: bytes)
    requires RecordsFit(stored, rs, tmpl) && EncodeRecords(options, tmpl, rs).Some? && Consumes(stored)
    ensures var tail := DecodeRecords(stored.ScopeFields(), stored.ValueFields(), rest);
            DecodeRecords(stored.ScopeFields(), stored.ValueFields(), EncodeRecords(options, tmpl, rs).value + rest)
            == (CanonRecords(stored, rs, tmpl) + tail.0, tail.1)
  {
    if rs == [] {
      var tail := DecodeRecords(stored.ScopeFields(), stored.ValueFields(), rest);
      assert [] + rest == rest && [] + tail.0 == tail.0;
    } else {
      EncodeRecordsCons(options, tmpl, rs);
      var head, tail := EncodeRecord(options, tmpl, rs[0]).value, EncodeRecords(options, tmpl, rs[1..]).value;
      var s := EncodeRecords(options, tmpl, rs).value + rest;
      Assoc(head, tail, rest);
      RecordSize(options, stored, rs[0], tmpl);
      RecordRoundTrip(options, stored, rs[0], tmpl, tail + rest);
      DecodeRecordsCons(stored.ScopeFields(), stored.ValueFields(), s, CanonRecord(stored, rs[0]), tail + rest);
      RecordsThenRest(options, stored, rs[1..], tmpl, rest);
      var left := DecodeRecords(stored.ScopeFields(), stored.ValueFields(), rest);
      Assoc([CanonRecord(stored, rs[0])], CanonRecords(stored, rs[1..], tmpl), left.0);
    }
  }

  lemma {:induction false} EmptyRecords(options: bool, stored: Template, rs: seq<DataRecord>, tmpl: Option<Template>)
    requires RecordsFit(stored, rs, tmpl) && EncodeRecords(options, tmpl, rs).Some? && !Consumes(stored)
    ensures EncodeRecords(options, tmpl, rs).value == []
  {
    if rs != [] {
      EncodeRecordsCons(options, tmpl, rs);
      RecordSize(options, stored, rs[0], tmpl);
      EmptyRecords(options, stored, rs[1..], tmpl);
    }
  }

  /**
   * The set's padding cannot be taken for a record: there is none, or it is shorter than the
   * fixed part of a record. A set without records is safe whatever its template.
   */
  predicate PaddingSafe(stored: Template, rs: seq<DataRecord>, payload: nat)
  {
    rs == [] || (Consumes(stored) && (Padding(payload) == 0 || Padding(payload) < FixedSize(stored)))
  }

  /** A template of four octets or more, as RFC 7011 section 3.3.1 asks, is always safe. */
  lemma FourOctetsAreSafe(stored: Template, rs: seq<DataRecord>, payload: nat)
    requires FixedSize(stored) >= 4
    ensures PaddingSafe(stored, rs, payload)
  {
    SomeOctet(stored.ScopeFields());
    SomeOctet(stored.ValueFields());
  }

  lemma {:induction false} SomeOctet(fs: seq<Field>)
    ensures TemplateSize(fs) > 0 ==> AnyOctet(fs)
  {
    if fs != [] && TemplateSize(fs) > 0 && fs[0].length == 0 {
      SomeOctet(fs[1..]);
      var i :| 0 <= i < |fs[1..]| && fs[1..][i].length > 0;
      assert fs[i + 1].length > 0;
    }
  }

  /** Padded records decode to themselves exactly when the padding is safe. */
  lemma RecordsRoundTrip(options: bool, stored: Template, rs: seq<DataRecord>, tmpl: Option<Template>)
    requires RecordsFit(stored, rs, tmpl) && EncodeRecords(options, tmpl, rs).Some?
    ensures var wire := EncodeRecords(options, tmpl, rs).value;
            DecodeRecords(stored.ScopeFields(), stored.ValueFields(), Pad(wire))
              == (CanonRecords(stored, rs, tmpl), true)
            <==> PaddingSafe(stored, rs, |wire|)
  {
    var wire := EncodeRecords(options, tmpl, rs).value;
    var pad := Zeros(Padding(|wire|));
    if Consumes(stored) {
      RecordsThenRest(options, stored, rs, tmpl, pad);
      RestIsNoRecord(stored, pad);
      var tail := DecodeRecords(stored.ScopeFields(), stored.ValueFields(), pad);
      var canon := CanonRecords(stored, rs, tmpl);
      hide EncodeRecords, DecodeRecords, CanonRecords, TemplateSize, Consumes, Padding;
      assert tail.0 == [] ==> canon + tail.0 == canon;
      assert tail.0 != [] ==> |canon + tail.0| > |canon|;
      assert rs == [] ==> wire == [] && pad == [] by { NoRecords(options, tmpl); }
    } else {
      EmptyRecords(options, stored, rs, tmpl);
    }
  }

  lemma NoRecords(options: bool, tmpl: Option<Template>)
    ensures EncodeRecords(options, tmpl, []) == Some([]) && Padding(0) == 0
  {
  }

  /** Bytes that follow the records are left alone exactly when they are too few for a record. */
  lemma RestIsNoRecord(stored: Template, rest: bytes)
    ensures DecodeRecords(stored.ScopeFields(), stored.ValueFields(), rest) == ([], true)
            <==> rest == [] || |rest| < FixedSize(stored)
    ensures var d := DecodeRecords(stored.ScopeFields(), stored.ValueFields(), rest);
            d != ([], true) ==> !d.1 || d.0 != []
  {
  }

  // ---------- flow sets ----------

  /** A set the decoder, holding `stored` for its id, reads with the layout the encoder wrote. */
  predicate SetFits(version: u16, fs: FlowSet, known: Announced, stored: Option<Template>)
  {
    if fs.Announces() then
      && KindOf(version, fs).Some?
      && forall i :: 0 <= i < |fs.templates| ==> PlainTemplate(KindOf(version, fs).value, fs.templates[i])
    else if fs.RawFlowSet? then stored.None?
    else
      && stored.Some? && stored.value.TemplateRecord? == fs.DataFlowSet?
      && RecordsFit(stored.value, fs.records, Known(known, fs.id))
  }

  predicate SetSafe(fs: FlowSet, known: Announced, stored: Option<Template>)
  {
    if fs.Announces() || fs.RawFlowSet? || stored.None? then true
    else
      match EncodeRecords(fs.OptionsDataFlowSet?, Known(known, fs.id), fs.records)
      case None => false
      case Some(wire) => PaddingSafe(stored.value, fs.records, |wire|)
  }

  /** The set with its id, counts and length filled in and its values typed by the decoder's template. */
  function CanonSet(version: u16, fs: FlowSet, known: Announced, stored: Option<Template>, length: u16): FlowSet
    requires SetFits(version, fs, known, stored)
  {
    match fs
    case RawFlowSet(id, _, data) => RawFlowSet(id, length, Pad(data))
    case DataFlowSet(id, _, rs) => DataFlowSet(id, length, CanonRecords(stored.value, rs, Known(known, id)))
    case OptionsDataFlowSet(id, _, rs) =>
      OptionsDataFlowSet(id, length, CanonRecords(stored.value, rs, Known(known, id)))
    case _ =>
      var kind := KindOf(version, fs).value;
      TemplateSetOf(kind, length, CanonTemplates(kind, fs.templates))
  }

  lemma AnnouncingSetRoundTrip(version: u16, fs: FlowSet, known: Announced, stored: Option<Template>)
    requires version == 9 || version == 10
    requires fs.Announces() && EncodeSet(version, fs, known).Some? && SetFits(version, fs, known, stored)
    requires 4 + |EncodeSet(version, fs, known).value.0| <= 0xffff
    ensures var (payload, id) := EncodeSet(version, fs, known).value;
            Interpret(version, Frame(id, 4 + |payload|, payload), stored)
            == Some(CanonSet(version, fs, known, stored, 4 + |payload|))
  {
    hide EncodeTemplates, DecodeTemplates, CanonTemplates, Padding;
    var kind := KindOf(version, fs).value;
    var wire := EncodeTemplates(kind, fs.templates).value;
    TemplatesRoundTrip(kind, fs.templates, Zeros(Padding(|wire|)));
  }

  lemma DataSetRoundTrip(version: u16, fs: FlowSet, known: Announced, stored: Option<Template>)
    requires version == 9 || version == 10
    requires fs.DataFlowSet? || fs.OptionsDataFlowSet?
    requires EncodeSet(version, fs, known).Some? && SetFits(version, fs, known, stored)
    requires 4 + |EncodeSet(version, fs, known).value.0| <= 0xffff
    ensures var (payload, id) := EncodeSet(version, fs, known).value;
            Interpret(version, Frame(id, 4 + |payload|, payload), stored)
            == Some(CanonSet(version, fs, known, stored, 4 + |payload|))
            <==> SetSafe(fs, known, stored)
  {
    hide EncodeRecords, DecodeRecords, CanonRecords, PaddingSafe, RecordsFit, Pad;
    RecordsRoundTrip(fs.OptionsDataFlowSet?, stored.value, fs.records, Known(known, fs.id));
  }

  lemma SetRoundTrip(version: u16, fs: FlowSet, known: Announced, stored: Option<Template>)
    requires version == 9 || version == 10
    requires EncodeSet(version, fs, known).Some? && SetFits(version, fs, known, stored)
    requires 4 + |EncodeSet(version, fs, known).value.0| <= 0xffff
    ensures var (payload, id) := EncodeSet(version, fs, known).value;
            Interpret(version, Frame(id, 4 + |payload|, payload), stored)
            == Some(CanonSet(version, fs, known, stored, 4 + |payload|))
            <==> SetSafe(fs, known, stored)
  {
    if fs.Announces() {
      AnnouncingSetRoundTrip(version, fs, known, stored);
    } else if !fs.RawFlowSet? {
      DataSetRoundTrip(version, fs, known, stored);
    }
  }
}

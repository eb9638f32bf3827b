/**
 * NetFlow v9 and IPFIX as octets, written from the formats themselves (RFC 3954 section 5, RFC 7011 sections 3 and 7):
 * what a data set means under its template, and exactly what the encoder writes and refuses.
 */
module NetFlowWire {
  import opened Bytes
  import opened Wire
  import opened NetFlowTypes
  import opened NetFlowPrinter
  import opened NetFlowParser
  import opened NetFlowRoundTrip
  import opened NetFlowMessages

  // ---------- values ----------

  /** A value as it is sent; `long` picks the three-octet length where one octet would do. */
  datatype Sent = Sent(value: bytes, long: bool)

  /** The values a field of the given length can carry: any up to 65535 octets, or exactly that many. */
  predicate Carries(length: u16, v: Sent)
  {
    if length == 65535 then |v.value| <= 65535 else |v.value| == length
  }

  function ValueOctets(length: u16, v: Sent): bytes
  {
    if length != 65535 then v.value
    else if |v.value| < 255 && !v.long then [|v.value|] + v.value
    else [255] + W16(|v.value|) + v.value
  }

  predicate AllCarry(fs: seq<Field>, vs: seq<Sent>)
  {
    |fs| == |vs| && forall i :: 0 <= i < |fs| ==> Carries(fs[i].length, vs[i])
  }

  function ValuesOctets(fs: seq<Field>, vs: seq<Sent>): bytes
    requires |fs| == |vs|
  {
    if fs == [] then [] else ValueOctets(fs[0].length, vs[0]) + ValuesOctets(fs[1..], vs[1..])
  }

  /** Each value under the identity of its field. */
  function Shown(fs: seq<Field>, vs: seq<Sent>): (r: seq<DataField>)
    requires |fs| == |vs|
    ensures |r| == |fs|
  {
    seq(|fs|, i requires 0 <= i < |fs| =>
      DataField(fs[i].penProvided, fs[i].typ, 0, fs[i].pen, Raw(vs[i].value)))
  }

  /** Octets of the fields that have a length of their own. */
  function LeastOctets(fs: seq<Field>): nat
  {
    if fs == [] then 0 else (if fs[0].length == 65535 then 0 else fs[0].length) + LeastOctets(fs[1..])
  }

  predicate TakesOctets(fs: seq<Field>)
  {
    exists i :: 0 <= i < |fs| && fs[i].length > 0
  }

  lemma ValueReads(f: Field, v: Sent, rest: bytes)
    requires Carries(f.length, v)
    ensures DecodeValue(f, ValueOctets(f.length, v) + rest)
            == Some((DataField(f.penProvided, f.typ, 0, f.pen, Raw(v.value)), rest))
  {
    var n := |v.value|;
    TakeDropAppend(v.value, rest);
    if f.length == 65535 {
      var s := ValueOctets(f.length, v) + rest;
      WordsAreBigEndian(n, 0);
      if n < 255 && !v.long {
        assert s == [n] + (v.value + rest);
        assert s[1..] == v.value + rest;
      } else {
        assert s == [255] + (W16(n) + (v.value + rest));
        assert s[1..] == U16(n) + (v.value + rest);
        ReadBackU16(n, v.value + rest);
        assert s[3..] == s[1..][2..];
      }
    }
  }

  lemma {:induction false} ValuesRead(fs: seq<Field>, vs: seq<Sent>, rest: bytes)
    requires AllCarry(fs, vs)
    ensures DecodeValues(fs, ValuesOctets(fs, vs) + rest) == Some((Shown(fs, vs), rest))
    ensures |ValuesOctets(fs, vs)| >= LeastOctets(fs) == TemplateSize(fs)
    ensures ValuesOctets(fs, vs) == [] <==> !TakesOctets(fs)
  {
    hide DecodeValue, ValueOctets;
    if fs == [] {
      Empty(rest);
    } else {
      var one, more := ValueOctets(fs[0].length, vs[0]), ValuesOctets(fs[1..], vs[1..]);
      Assoc(one, more, rest);
      ValueReads(fs[0], vs[0], more + rest);
      ValuesRead(fs[1..], vs[1..], rest);
      OneSize(fs[0].length, vs[0]);
      TakesCons(fs);
      assert Shown(fs, vs) == [DataField(fs[0].penProvided, fs[0].typ, 0, fs[0].pen, Raw(vs[0].value))]
                              + Shown(fs[1..], vs[1..]);
    }
  }

  lemma OneSize(length: u16, v: Sent)
    requires Carries(length, v)
    ensures |ValueOctets(length, v)| >= if length == 65535 then 1 else length
    ensures ValueOctets(length, v) == [] <==> length == 0
    ensures VARIABLE == 65535
  {
  }

  lemma TakesCons(fs: seq<Field>)
    requires fs != []
    ensures TakesOctets(fs) <==> fs[0].length > 0 || TakesOctets(fs[1..])
  {
    if i :| 0 <= i < |fs| && fs[i].length > 0 { assert i > 0 ==> fs[1..][i - 1].length > 0; }
    if i :| 0 <= i < |fs[1..]| && fs[1..][i].length > 0 { assert fs[i + 1].length > 0; }
  }

  // ---------- data sets ----------

  datatype SentRecord = SentRecord(scopes: seq<Sent>, values: seq<Sent>)

  predicate RecordCarried(t: Template, r: SentRecord)
  {
    AllCarry(t.ScopeFields(), r.scopes) && AllCarry(t.ValueFields(), r.values)
  }

  function RecordOctets(t: Template, r: SentRecord): bytes
    requires RecordCarried(t, r)
  {
    ValuesOctets(t.ScopeFields(), r.scopes) + ValuesOctets(t.ValueFields(), r.values)
  }

  predicate AllCarried(t: Template, rs: seq<SentRecord>)
  {
    forall i :: 0 <= i < |rs| ==> RecordCarried(t, rs[i])
  }

  function BodyOctets(t: Template, rs: seq<SentRecord>): bytes
    requires AllCarried(t, rs)
  {
    if rs == [] then [] else RecordOctets(t, rs[0]) + BodyOctets(t, rs[1..])
  }

  function ShownRecords(t: Template, rs: seq<SentRecord>): seq<DataRecord>
    requires AllCarried(t, rs)
  {
    seq(|rs|, i requires 0 <= i < |rs| =>
      DataRecord(Shown(t.ScopeFields(), rs[i].scopes), Shown(t.ValueFields(), rs[i].values)))
  }

  lemma RecordReads(t: Template, r: SentRecord, rest: bytes)
    requires RecordCarried(t, r) && (TakesOctets(t.ScopeFields()) || TakesOctets(t.ValueFields()))
    ensures DecodeRecord(t.ScopeFields(), t.ValueFields(), RecordOctets(t, r) + rest)
            == Some((DataRecord(Shown(t.ScopeFields(), r.scopes), Shown(t.ValueFields(), r.values)), rest))
    ensures |RecordOctets(t, r)| >= TemplateSize(t.ScopeFields()) + TemplateSize(t.ValueFields())
    ensures RecordOctets(t, r) != []
  {
    hide DecodeValues, ValuesOctets, TakesOctets, Shown, TemplateSize, LeastOctets;
    var a, b := ValuesOctets(t.ScopeFields(), r.scopes), ValuesOctets(t.ValueFields(), r.values);
    Assoc(a, b, rest);
    ValuesRead(t.ScopeFields(), r.scopes, b + rest);
    ValuesRead(t.ValueFields(), r.values, rest);
  }

  /** Octets after the records are left alone when they are too few for another one. */
  lemma {:induction false} RecordsRead(t: Template, rs: seq<SentRecord>, pad: bytes)
    requires AllCarried(t, rs) && (TakesOctets(t.ScopeFields()) || TakesOctets(t.ValueFields()))
    requires pad == [] || |pad| < LeastOctets(t.ScopeFields()) + LeastOctets(t.ValueFields())
    ensures DecodeRecords(t.ScopeFields(), t.ValueFields(), BodyOctets(t, rs) + pad) == (ShownRecords(t, rs), true)
    decreases |rs|
  {
    hide DecodeRecord, RecordCarried, TakesOctets, RecordOctets, TemplateSize, LeastOctets, Shown;
    if rs == [] {
      Empty(pad);
      LeastIsSize(t.ScopeFields());
      LeastIsSize(t.ValueFields());
    } else {
      Assoc(RecordOctets(t, rs[0]), BodyOctets(t, rs[1..]), pad);
      RecordReads(t, rs[0], BodyOctets(t, rs[1..]) + pad);
      RecordsRead(t, rs[1..], pad);
      assert ShownRecords(t, rs) == [ShownRecords(t, rs)[0]] + ShownRecords(t, rs[1..]);
    }
  }

  lemma {:induction false} LeastIsSize(fs: seq<Field>)
    ensures LeastOctets(fs) == TemplateSize(fs)
  {
    if fs != [] { LeastIsSize(fs[1..]); }
  }

  /**
   * What a data set means: under any template whose records take octets, a body of any records, with or without
   * padding, is decoded to exactly those records.
   */
  lemma DataSetReads(version: u16, id: u16, length: u16, t: Template, rs: seq<SentRecord>, pad: bytes)
    requires id >= 256 && AllCarried(t, rs) && (TakesOctets(t.ScopeFields()) || TakesOctets(t.ValueFields()))
    requires pad == [] || |pad| < LeastOctets(t.ScopeFields()) + LeastOctets(t.ValueFields())
    ensures Interpret(version, Frame(id, length, BodyOctets(t, rs) + pad), Some(t))
            == Some(if t.TemplateRecord? then DataFlowSet(id, length, ShownRecords(t, rs))
                    else OptionsDataFlowSet(id, length, ShownRecords(t, rs)))
  {
    hide DecodeRecords, BodyOctets, ShownRecords, TakesOctets, LeastOctets;
    RecordsRead(t, rs, pad);
  }

  // ---------- templates ----------

  /** A field specifier; in IPFIX the top bit of the type announces an enterprise number. */
  function SpecOctets(f: Field, ipfix: bool): bytes
  {
    if ipfix && f.penProvided then W16(f.typ % 32768 + 32768) + W16(f.length) + W32(f.pen)
    else W16(f.typ) + W16(f.length)
  }

  function SpecsOctets(fs: seq<Field>, ipfix: bool): bytes
  {
    if fs == [] then [] else SpecOctets(fs[0], ipfix) + SpecsOctets(fs[1..], ipfix)
  }

  /** Which records a template set may hold and with which counts; a count of 0 is filled in. */
  predicate TemplateSendable(kind: TemplateKind, t: Template)
  {
    match t
    case TemplateRecord(_, count, fields) =>
      (kind.NFv9Data? || kind.IPFIXData?) && |fields| < 65536 && (count == 0 || count == |fields|)
    case NFv9OptionsTemplateRecord(_, sl, ol, scopes, options) =>
      && kind.NFv9Options?
      && (if sl == 0 then |scopes| < 16384 else sl / 4 == |scopes|)
      && (if ol == 0 then |options| < 16384 else ol / 4 == |options|)
    case IPFIXOptionsTemplateRecord(_, count, scopeCount, scopes, options) =>
      && kind.IPFIXOptions? && |scopes| + |options| < 65536
      && (count == 0 || count == |scopes| + |options|) && (scopeCount == 0 || scopeCount == |scopes|)
  }

  /** Id, counts (fields in IPFIX and plain v9 templates, octets in v9 options templates) and specifiers. */
  function TemplateOctets(t: Template, ipfix: bool): bytes
  {
    match t
    case TemplateRecord(id, _, fields) => W16(id) + W16(|fields|) + SpecsOctets(fields, ipfix)
    case NFv9OptionsTemplateRecord(id, sl, ol, scopes, options) =>
      W16(id) + W16(if sl == 0 then 4 * |scopes| else sl) + W16(if ol == 0 then 4 * |options| else ol)
      + SpecsOctets(scopes, ipfix) + SpecsOctets(options, ipfix)
    case IPFIXOptionsTemplateRecord(id, _, _, scopes, options) =>
      W16(id) + W16(|scopes| + |options|) + W16(|scopes|) + SpecsOctets(scopes, ipfix) + SpecsOctets(options, ipfix)
  }

  predicate TemplatesSendable(kind: TemplateKind, ts: seq<Template>)
  {
    forall i :: 0 <= i < |ts| ==> TemplateSendable(kind, ts[i])
  }

  function TemplatesOctets(ts: seq<Template>, ipfix: bool): bytes
  {
    if ts == [] then [] else TemplateOctets(ts[0], ipfix) + TemplatesOctets(ts[1..], ipfix)
  }

  lemma TopBit(t: u16)
    ensures 32768 <= t % 32768 + 32768 < 65536
    ensures t % 32768 + 32768 == if t < ENTERPRISE then t + ENTERPRISE else t
  {
  }

  lemma SpecIs(f: Field, ipfix: bool)
    ensures EncodeField(f, ipfix) == SpecOctets(f, ipfix)
  {
    hide W16, W32, U16, U32;
    TopBit(f.typ);
    var t := f.typ % 32768 + 32768;
    WordsAreBigEndian(t, f.pen);
    WordsAreBigEndian(f.typ, 0);
    WordsAreBigEndian(f.length, 0);
    Assoc(W16(t), W16(f.length), W32(f.pen));
  }

  lemma {:induction false} SpecsAre(fs: seq<Field>, ipfix: bool)
    ensures EncodeFields(fs, ipfix) == SpecsOctets(fs, ipfix)
  {
    hide EncodeField, SpecOctets;
    if fs != [] {
      SpecIs(fs[0], ipfix);
      SpecsAre(fs[1..], ipfix);
    }
  }

  predicate IsIPFIX(kind: TemplateKind)
  {
    kind.IPFIXData? || kind.IPFIXOptions?
  }

  lemma CountsAre(kind: TemplateKind, t: Template)
    ensures TemplateSendable(kind, t) <==> kind.Holds(t) && CountsMatch(FillCounts(t))
  {
  }

  lemma Regroup(a: bytes, b: bytes, c: bytes, d: bytes, e: bytes)
    ensures a + (b + c) + (d + e) == a + b + c + d + e
  {
  }

  lemma HeaderWords(t: Template)
    ensures TemplateHeader(t)
            == match t
               case TemplateRecord(id, count, _) => W16(id) + W16(count)
               case NFv9OptionsTemplateRecord(id, sl, ol, _, _) => W16(id) + (W16(sl) + W16(ol))
               case IPFIXOptionsTemplateRecord(id, count, scopes, _, _) => W16(id) + (W16(count) + W16(scopes))
  {
    hide W16, U16;
    WordsAreBigEndian(t.templateId, 0);
    match t {
      case TemplateRecord(_, count, _) => WordsAreBigEndian(count, 0);
      case NFv9OptionsTemplateRecord(_, sl, ol, _, _) => WordsAreBigEndian(sl, 0); WordsAreBigEndian(ol, 0);
      case IPFIXOptionsTemplateRecord(_, count, scopes, _, _) =>
        WordsAreBigEndian(count, 0);
        WordsAreBigEndian(scopes, 0);
    }
  }

  lemma TemplateHeaderIs(kind: TemplateKind, t: Template)
    requires TemplateSendable(kind, t)
    ensures TemplateHeader(FillCounts(t)) + (SpecsOctets(t.ScopeFields(), IsIPFIX(kind))
                                             + SpecsOctets(t.ValueFields(), IsIPFIX(kind)))
            == TemplateOctets(t, IsIPFIX(kind))
  {
    hide TemplateHeader, W16, SpecsOctets;
    var ipfix := IsIPFIX(kind);
    var a, b := SpecsOctets(t.ScopeFields(), ipfix), SpecsOctets(t.ValueFields(), ipfix);
    var full := FillCounts(t);
    HeaderWords(full);
    match full {
      case TemplateRecord(_, _, _) =>
        NoSpecs(ipfix);
        Empty(b);
      case NFv9OptionsTemplateRecord(id, sl, ol, _, _) => Regroup(W16(id), W16(sl), W16(ol), a, b);
      case IPFIXOptionsTemplateRecord(id, count, scopes, _, _) => Regroup(W16(id), W16(count), W16(scopes), a, b);
    }
  }

  lemma NoSpecs(ipfix: bool)
    ensures SpecsOctets([], ipfix) == []
  {
  }

  /** A template record is written if and only if its type and counts are right, and then as the format says. */
  lemma TemplateIs(kind: TemplateKind, t: Template)
    ensures EncodeTemplate(kind, t)
            == if TemplateSendable(kind, t) then Some(TemplateOctets(t, IsIPFIX(kind))) else None
  {
    hide FillCounts, CountsMatch, TemplateSendable, TemplateOctets, TemplateHeader, EncodeFields, SpecsOctets;
    CountsAre(kind, t);
    SpecsAre(t.ScopeFields(), IsIPFIX(kind));
    SpecsAre(t.ValueFields(), IsIPFIX(kind));
    if TemplateSendable(kind, t) { TemplateHeaderIs(kind, t); }
  }

  lemma {:induction false} TemplatesAre(kind: TemplateKind, ts: seq<Template>)
    ensures EncodeTemplates(kind, ts)
            == if TemplatesSendable(kind, ts) then Some(TemplatesOctets(ts, IsIPFIX(kind))) else None
  {
    hide EncodeTemplate, TemplateSendable, TemplateOctets, IsIPFIX;
    if ts != [] {
      TemplateIs(kind, ts[0]);
      TemplatesAre(kind, ts[1..]);
      assert TemplatesSendable(kind, ts) <==> TemplateSendable(kind, ts[0]) && TemplatesSendable(kind, ts[1..]) by {
        assert forall i :: 0 < i < |ts| ==> ts[i] == ts[1..][i - 1];
      }
    }
  }

  // ---------- records as the encoder lays them out ----------

  /** The length a value is written under: its template's, where the packet announced one, else its own. */
  function LengthFor(guide: Option<seq<Field>>, dfs: seq<DataField>, i: nat): u16
    requires i < |dfs| && (guide.Some? ==> |guide.value| == |dfs|)
  {
    if guide.Some? then guide.value[i].length else dfs[i].length
  }

  /** A length of 0 says nothing about the value. */
  predicate ValueSendable(length: u16, v: Value)
  {
    && !v.Unsupported?
    && (length == 65535 ==> |v.data| <= 65535)
    && (length != 65535 && length != 0 ==> |v.data| == length)
  }

  predicate ValuesSendable(guide: Option<seq<Field>>, dfs: seq<DataField>)
  {
    && (guide.Some? ==> |guide.value| == |dfs|)
    && forall i :: 0 <= i < |dfs| ==> ValueSendable(LengthFor(guide, dfs, i), dfs[i].value)
  }

  /** The first `n` values. */
  function DataOctets(guide: Option<seq<Field>>, dfs: seq<DataField>, n: nat): bytes
    requires n <= |dfs| && ValuesSendable(guide, dfs)
  {
    if n == 0 then []
    else
      DataOctets(guide, dfs, n - 1) + ValueOctets(LengthFor(guide, dfs, n - 1), Sent(dfs[n - 1].value.data, false))
  }

  function ScopeFieldsOf(t: Option<Template>): Option<seq<Field>>
  {
    if t.Some? then Some(t.value.ScopeFields()) else None
  }

  function ValueFieldsOf(t: Option<Template>): Option<seq<Field>>
  {
    if t.Some? then Some(t.value.ValueFields()) else None
  }

  predicate RecordSendable(options: bool, t: Option<Template>, r: DataRecord)
  {
    && (t.Some? ==> t.value.TemplateRecord? == !options)
    && ValuesSendable(ScopeFieldsOf(t), r.scopes) && ValuesSendable(ValueFieldsOf(t), r.values)
  }

  function DataRecordOctets(t: Option<Template>, r: DataRecord): bytes
    requires ValuesSendable(ScopeFieldsOf(t), r.scopes) && ValuesSendable(ValueFieldsOf(t), r.values)
  {
    DataOctets(ScopeFieldsOf(t), r.scopes, |r.scopes|) + DataOctets(ValueFieldsOf(t), r.values, |r.values|)
  }

  predicate RecordsSendable(options: bool, t: Option<Template>, rs: seq<DataRecord>)
  {
    forall i :: 0 <= i < |rs| ==> RecordSendable(options, t, rs[i])
  }

  function DataRecordsOctets(options: bool, t: Option<Template>, rs: seq<DataRecord>): bytes
    requires RecordsSendable(options, t, rs)
  {
    if rs == [] then [] else DataRecordOctets(t, rs[0]) + DataRecordsOctets(options, t, rs[1..])
  }

  function GuideOf(guide: Option<seq<Field>>, n: nat): (g: seq<Option<Field>>)
    requires guide.Some? ==> |guide.value| == n
    ensures |g| == n
  {
    seq(n, i requires 0 <= i < n => if guide.Some? then Some(guide.value[i]) else None)
  }

  lemma ValueIs(df: DataField, tmpl: Option<Field>)
    ensures var length := if tmpl.Some? then tmpl.value.length else df.length;
            EncodeValue(df, tmpl) == if ValueSendable(length, df.value)
                                     then Some(ValueOctets(length, Sent(df.value.data, false))) else None
  {
    if !df.value.Unsupported? && |df.value.data| <= 65535 {
      var n := |df.value.data|;
      WordsAreBigEndian(n, 0);
      hide W16, U16;
      Assoc([255], W16(n), df.value.data);
    }
  }

  lemma {:induction false} ValuesSnoc(dfs: seq<DataField>, tmpls: seq<Option<Field>>)
    requires |dfs| == |tmpls| > 0
    ensures var n := |dfs| - 1;
            var a, b := EncodeValues(dfs[..n], tmpls[..n]), EncodeValue(dfs[n], tmpls[n]);
            EncodeValues(dfs, tmpls) == if a.None? || b.None? then None else Some(a.value + b.value)
    decreases |dfs|
  {
    hide EncodeValue;
    var n := |dfs| - 1;
    var one := EncodeValue(dfs[0], tmpls[0]);
    if n == 0 {
      assert dfs[1..] == [] && dfs[..n] == [];
      if one.Some? { Empty(one.value); }
    } else {
      ValuesSnoc(dfs[1..], tmpls[1..]);
      assert dfs[1..][..n - 1] == dfs[..n][1..] && tmpls[1..][..n - 1] == tmpls[..n][1..];
      var mid, last := EncodeValues(dfs[..n][1..], tmpls[..n][1..]), EncodeValue(dfs[n], tmpls[n]);
      if one.Some? && mid.Some? && last.Some? { Assoc(one.value, mid.value, last.value); }
    }
  }

  lemma {:induction false} ValuesAre(guide: Option<seq<Field>>, dfs: seq<DataField>)
    requires guide.Some? ==> |guide.value| == |dfs|
    ensures EncodeValues(dfs, GuideOf(guide, |dfs|))
            == if ValuesSendable(guide, dfs) then Some(DataOctets(guide, dfs, |dfs|)) else None
    decreases |dfs|
  {
    hide EncodeValue, ValueSendable, ValueOctets;
    if dfs != [] {
      var n := |dfs| - 1;
      var front := if guide.Some? then Some(guide.value[..n]) else None;
      var g := GuideOf(guide, |dfs|);
      hide EncodeValues;
      ValuesSnoc(dfs, g);
      assert g[..n] == GuideOf(front, n);
      ValuesAre(front, dfs[..n]);
      ValueIs(dfs[n], g[n]);
      FrontSendable(guide, dfs);
      if ValuesSendable(guide, dfs) { FrontOctets(guide, dfs, n); }
    }
  }

  lemma FrontSendable(guide: Option<seq<Field>>, dfs: seq<DataField>)
    requires dfs != [] && (guide.Some? ==> |guide.value| == |dfs|)
    ensures var n := |dfs| - 1;
            ValuesSendable(guide, dfs)
            <==> ValuesSendable(if guide.Some? then Some(guide.value[..n]) else None, dfs[..n])
                 && ValueSendable(LengthFor(guide, dfs, n), dfs[n].value)
  {
    hide ValueSendable;
    var n := |dfs| - 1;
    var front := if guide.Some? then Some(guide.value[..n]) else None;
    assert forall i :: 0 <= i < n ==> LengthFor(front, dfs[..n], i) == LengthFor(guide, dfs, i);
  }

  lemma {:induction false} FrontOctets(guide: Option<seq<Field>>, dfs: seq<DataField>, k: nat)
    requires dfs != [] && k < |dfs| && ValuesSendable(guide, dfs)
    ensures var n := |dfs| - 1;
            var front := if guide.Some? then Some(guide.value[..n]) else None;
            ValuesSendable(front, dfs[..n]) && DataOctets(front, dfs[..n], k) == DataOctets(guide, dfs, k)
  {
    hide ValueSendable, ValueOctets;
    FrontSendable(guide, dfs);
    if k > 0 { FrontOctets(guide, dfs, k - 1); }
  }

  lemma RecordIs(options: bool, t: Option<Template>, r: DataRecord)
    ensures EncodeRecord(options, t, r)
            == if RecordSendable(options, t, r) then Some(DataRecordOctets(t, r)) else None
  {
    hide EncodeValues, DataOctets, ValueSendable;
    if Lays(options, t, r) {
      ValuesAre(ScopeFieldsOf(t), r.scopes);
      ValuesAre(ValueFieldsOf(t), r.values);
      assert ScopeGuide(t, |r.scopes|) == GuideOf(ScopeFieldsOf(t), |r.scopes|);
      assert ValueGuide(t, |r.values|) == GuideOf(ValueFieldsOf(t), |r.values|);
    }
  }

  lemma {:induction false} RecordsAre(options: bool, t: Option<Template>, rs: seq<DataRecord>)
    ensures EncodeRecords(options, t, rs)
            == if RecordsSendable(options, t, rs) then Some(DataRecordsOctets(options, t, rs)) else None
  {
    hide EncodeRecord, RecordSendable, DataRecordOctets;
    if rs != [] {
      RecordIs(options, t, rs[0]);
      RecordsAre(options, t, rs[1..]);
      assert RecordsSendable(options, t, rs) <==>
             RecordSendable(options, t, rs[0]) && RecordsSendable(options, t, rs[1..]) by {
        assert forall i :: 0 < i < |rs| ==> rs[i] == rs[1..][i - 1];
      }
      SendableCarried(options, t, rs);
    }
  }

  lemma SendableCarried(options: bool, t: Option<Template>, rs: seq<DataRecord>)
    requires rs != []
    ensures RecordSendable(options, t, rs[0]) ==>
              ValuesSendable(ScopeFieldsOf(t), rs[0].scopes) && ValuesSendable(ValueFieldsOf(t), rs[0].values)
  {
  }

  // ---------- sets and packets ----------

  /** Template sets are numbered 0 and 1 in v9, 2 and 3 in IPFIX, options second; data sets by their template. */
  function SetNumber(ipfix: bool, fs: FlowSet): u16
  {
    match fs
    case TemplateFlowSet(_, _, _) => if ipfix then 2 else 0
    case NFv9OptionsTemplateFlowSet(_, _, _) => 1
    case IPFIXOptionsTemplateFlowSet(_, _, _) => 3
    case _ => fs.id
  }

  function TemplateKindOf(ipfix: bool, fs: FlowSet): TemplateKind
    requires fs.Announces()
  {
    match fs
    case TemplateFlowSet(_, _, _) => if ipfix then IPFIXData else NFv9Data
    case NFv9OptionsTemplateFlowSet(_, _, _) => NFv9Options
    case IPFIXOptionsTemplateFlowSet(_, _, _) => IPFIXOptions
  }

  /** The last template announced for an id so far. */
  function AnnouncedFor(ts: seq<Template>, id: u16): Option<Template>
  {
    if ts == [] then None
    else if ts[|ts| - 1].templateId == id then Some(ts[|ts| - 1])
    else AnnouncedFor(ts[..|ts| - 1], id)
  }

  /** `announced` are the templates of the sets before this one, in order. */
  predicate SetSendable(ipfix: bool, fs: FlowSet, announced: seq<Template>)
  {
    match fs
    case RawFlowSet(id, _, _) => id >= 256
    case DataFlowSet(id, _, rs) => id >= 256 && RecordsSendable(false, AnnouncedFor(announced, id), rs)
    case OptionsDataFlowSet(id, _, rs) => id >= 256 && RecordsSendable(true, AnnouncedFor(announced, id), rs)
    case _ =>
      && (fs.NFv9OptionsTemplateFlowSet? ==> !ipfix) && (fs.IPFIXOptionsTemplateFlowSet? ==> ipfix)
      && (fs.id == 0 || fs.id == SetNumber(ipfix, fs)) && TemplatesSendable(TemplateKindOf(ipfix, fs), fs.templates)
  }

  function SetBody(ipfix: bool, fs: FlowSet, announced: seq<Template>): bytes
    requires SetSendable(ipfix, fs, announced)
  {
    match fs
    case RawFlowSet(_, _, data) => data
    case DataFlowSet(id, _, rs) => DataRecordsOctets(false, AnnouncedFor(announced, id), rs)
    case OptionsDataFlowSet(id, _, rs) => DataRecordsOctets(true, AnnouncedFor(announced, id), rs)
    case _ => TemplatesOctets(fs.templates, ipfix)
  }

  function Announcing(fs: FlowSet): seq<Template>
  {
    if fs.Announces() then fs.templates else []
  }

  predicate SetsSendable(ipfix: bool, sets: seq<FlowSet>, announced: seq<Template>)
    decreases |sets|
  {
    sets == []
    || (SetSendable(ipfix, sets[0], announced) && 4 + |Padded(SetBody(ipfix, sets[0], announced))| <= 65535
        && SetsSendable(ipfix, sets[1..], announced + Announcing(sets[0])))
  }

  /** Every set: its number, its length with the four octets of the header, and its body padded to four octets. */
  function SetsOctets(ipfix: bool, sets: seq<FlowSet>, announced: seq<Template>): bytes
    requires SetsSendable(ipfix, sets, announced)
    decreases |sets|
  {
    if sets == [] then []
    else
      var body := Padded(SetBody(ipfix, sets[0], announced));
      W16(SetNumber(ipfix, sets[0])) + W16(4 + |body|) + body
      + SetsOctets(ipfix, sets[1..], announced + Announcing(sets[0]))
  }

  /** The templates the encoder remembers are the announced ones, the last for each id. */
  ghost predicate Remembers(known: Announced, announced: seq<Template>)
  {
    forall id: u16 :: Known(known, id) == AnnouncedFor(announced, id)
  }

  lemma {:induction false} AnnounceRemembers(known: Announced, announced: seq<Template>, ts: seq<Template>)
    requires Remembers(known, announced)
    ensures Remembers(Announce(known, ts), announced + ts)
    decreases |ts|
  {
    if ts == [] {
      Empty(announced);
    } else {
      var more := announced + [ts[0]];
      assert more[..|announced|] == announced;
      AnnounceRemembers(known[ts[0].templateId := ts[0]], more, ts[1..]);
      Assoc(announced, [ts[0]], ts[1..]);
      assert [ts[0]] + ts[1..] == ts;
    }
  }

  lemma PadIs(b: bytes)
    ensures Pad(b) == Padded(b)
  {
    PaddedToFour(|b|);
    assert (|b| + Padding(|b|)) % 4 == 0;
    PaddedIs(b, Padding(|b|));
  }

  lemma SetIs(version: u16, fs: FlowSet, known: Announced, announced: seq<Template>)
    requires (version == 9 || version == 10) && Remembers(known, announced)
    ensures var ipfix := version == 10;
            EncodeSet(version, fs, known)
            == if SetSendable(ipfix, fs, announced)
               then Some((Padded(SetBody(ipfix, fs, announced)), SetNumber(ipfix, fs))) else None
  {
    hide EncodeTemplates, EncodeRecords, TemplatesSendable, RecordsSendable, Padded, Pad, Known, AnnouncedFor,
         TemplatesOctets, DataRecordsOctets;
    var ipfix := version == 10;
    assert Known(known, fs.id) == AnnouncedFor(announced, fs.id);
    match fs {
      case RawFlowSet(_, _, data) => PadIs(data);
      case DataFlowSet(id, _, rs) =>
        RecordsAre(false, AnnouncedFor(announced, id), rs);
        if RecordsSendable(false, AnnouncedFor(announced, id), rs) {
          PadIs(DataRecordsOctets(false, AnnouncedFor(announced, id), rs));
        }
      case OptionsDataFlowSet(id, _, rs) =>
        RecordsAre(true, AnnouncedFor(announced, id), rs);
        if RecordsSendable(true, AnnouncedFor(announced, id), rs) {
          PadIs(DataRecordsOctets(true, AnnouncedFor(announced, id), rs));
        }
      case _ =>
        TemplatesAre(TemplateKindOf(ipfix, fs), fs.templates);
        PadIs(TemplatesOctets(fs.templates, ipfix));
    }
  }

  /** The sets of a packet are written if and only if each can be, and then as the formats say. */
  lemma {:induction false} SetsAre(version: u16, sets: seq<FlowSet>, known: Announced, announced: seq<Template>)
    requires (version == 9 || version == 10) && Remembers(known, announced)
    ensures EncodeSets(version, sets, known)
            == if SetsSendable(version == 10, sets, announced) then Some(SetsOctets(version == 10, sets, announced))
               else None
    decreases |sets|
  {
    hide EncodeSet, SetSendable, SetBody, SetNumber, Padded, U16, W16, Remembers;
    if sets != [] {
      var ipfix := version == 10;
      SetIs(version, sets[0], known, announced);
      AfterRemembers(sets[0], known, announced);
      SetsAre(version, sets[1..], AfterSet(sets[0], known), announced + Announcing(sets[0]));
      if SetSendable(ipfix, sets[0], announced) {
        var body, id := Padded(SetBody(ipfix, sets[0], announced)), SetNumber(ipfix, sets[0]);
        if 4 + |body| <= 65535 && SetsSendable(ipfix, sets[1..], announced + Announcing(sets[0])) {
          WordsAreBigEndian(id, 0);
          WordsAreBigEndian(4 + |body|, 0);
          var rest := SetsOctets(ipfix, sets[1..], announced + Announcing(sets[0]));
          Assoc(W16(id) + W16(4 + |body|), body, rest);
          Assoc(W16(id), W16(4 + |body|), body + rest);
        }
      }
    }
  }

  lemma AfterRemembers(fs: FlowSet, known: Announced, announced: seq<Template>)
    requires Remembers(known, announced)
    ensures Remembers(AfterSet(fs, known), announced + Announcing(fs))
  {
    AnnounceRemembers(known, announced, Announcing(fs));
  }

  /** The header of RFC 3954 section 5.1, then the sets. */
  function NFv9Octets(p: NFv9Packet): bytes
    requires SetsSendable(false, p.flowSets, [])
  {
    W16(9) + W16(if p.count == 0 then |p.flowSets| else p.count) + W32(p.systemUptime) + W32(p.unixSeconds)
    + W32(p.sequenceNumber) + W32(p.sourceId) + SetsOctets(false, p.flowSets, [])
  }

  /** The header of RFC 7011 section 3.1, then the sets. */
  function IPFIXOctets(p: IPFIXPacket): bytes
    requires SetsSendable(true, p.flowSets, [])
  {
    var sets := SetsOctets(true, p.flowSets, []);
    W16(10) + W16(16 + |sets|) + W32(p.exportTime) + W32(p.sequenceNumber) + W32(p.domainId) + sets
  }

  predicate NFv9Sendable(p: NFv9Packet)
  {
    (p.version == 0 || p.version == 9) && SetsSendable(false, p.flowSets, [])
  }

  predicate IPFIXSendable(p: IPFIXPacket)
  {
    && (p.version == 0 || p.version == 10) && SetsSendable(true, p.flowSets, [])
    && 16 + |SetsOctets(true, p.flowSets, [])| <= 65535
  }

  lemma W16Wraps(n: nat)
    ensures W16(n) == U16(n % 65536)
  {
    WordsAreBigEndian(n % 65536, 0);
    assert n % 65536 / 256 == n / 256 % 256;
    assert n % 65536 % 256 == n % 256;
  }

  /** A v9 packet is encoded if and only if every set can be sent, and then to exactly these octets. */
  lemma NFv9Is(p: NFv9Packet)
    ensures EncodeNFv9(p) == if NFv9Sendable(p) then Some(NFv9Octets(p)) else None
  {
    hide EncodeSets, SetsSendable, SetsOctets, U16, U32, W16, W32;
    assert Remembers(map[], []);
    SetsAre(9, p.flowSets, map[], []);
    if NFv9Sendable(p) {
      WordsAreBigEndian(9, p.systemUptime);
      WordsAreBigEndian(p.count, p.unixSeconds);
      WordsAreBigEndian(0, p.sequenceNumber);
      WordsAreBigEndian(0, p.sourceId);
      W16Wraps(|p.flowSets|);
      var count := W16(if p.count == 0 then |p.flowSets| else p.count);
      var sets := SetsOctets(false, p.flowSets, []);
      Assoc(W16(9) + count + W32(p.systemUptime) + W32(p.unixSeconds) + W32(p.sequenceNumber), W32(p.sourceId), sets);
      Assoc(W16(9) + count + W32(p.systemUptime) + W32(p.unixSeconds), W32(p.sequenceNumber), W32(p.sourceId) + sets);
      Assoc(W16(9) + count + W32(p.systemUptime), W32(p.unixSeconds),
            W32(p.sequenceNumber) + (W32(p.sourceId) + sets));
      Assoc(W16(9) + count, W32(p.systemUptime),
            W32(p.unixSeconds) + (W32(p.sequenceNumber) + (W32(p.sourceId) + sets)));
      Assoc(W16(9), count,
            W32(p.systemUptime) + (W32(p.unixSeconds) + (W32(p.sequenceNumber) + (W32(p.sourceId) + sets))));
    }
  }

  lemma IPFIXIs(p: IPFIXPacket)
    ensures EncodeIPFIX(p) == if IPFIXSendable(p) then Some(IPFIXOctets(p)) else None
  {
    hide EncodeSets, SetsSendable, SetsOctets, U16, U32, W16, W32;
    assert Remembers(map[], []);
    SetsAre(10, p.flowSets, map[], []);
    if IPFIXSendable(p) {
      var sets := SetsOctets(true, p.flowSets, []);
      var length := W16(16 + |sets|);
      WordsAreBigEndian(10, p.exportTime);
      WordsAreBigEndian(16 + |sets|, p.sequenceNumber);
      WordsAreBigEndian(0, p.domainId);
      Assoc(W16(10) + length + W32(p.exportTime) + W32(p.sequenceNumber), W32(p.domainId), sets);
      Assoc(W16(10) + length + W32(p.exportTime), W32(p.sequenceNumber), W32(p.domainId) + sets);
      Assoc(W16(10) + length, W32(p.exportTime), W32(p.sequenceNumber) + (W32(p.domainId) + sets));
      Assoc(W16(10), length, W32(p.exportTime) + (W32(p.sequenceNumber) + (W32(p.domainId) + sets)));
    }
  }

  /** So the octets of a packet are read as that packet, under the conditions of the round trip. */
  lemma NFv9OctetsRead(router: string, store: Store, p: NFv9Packet)
    requires NFv9Sendable(p) && AllFit(Session(router, 9, p.sourceId), p.flowSets, map[], store)
    ensures var e := Expected(Session(router, 9, p.sourceId), p.flowSets, map[], store);
            var count := if p.count == 0 then |p.flowSets| % 65536 else p.count;
            DecodePacket(router, store, NFv9Octets(p))
            == Outcome(NFv9(p.(version := 9, count := count, flowSets := e.flowSets)), e.store, e.missing, false)
            <==> AllSafe(Session(router, 9, p.sourceId), p.flowSets, map[], store)
  {
    hide NFv9Sendable, NFv9Octets, EncodeNFv9, AllFit, AllSafe, DecodePacket, Expected;
    NFv9Is(p);
    NFv9RoundTrip(router, store, p);
  }

  lemma IPFIXOctetsRead(router: string, store: Store, p: IPFIXPacket, rest: bytes)
    requires IPFIXSendable(p) && AllFit(Session(router, 10, p.domainId), p.flowSets, map[], store)
    ensures var e := Expected(Session(router, 10, p.domainId), p.flowSets, map[], store);
            DecodePacket(router, store, IPFIXOctets(p) + rest)
            == Outcome(IPFIX(p.(version := 10, length := |IPFIXOctets(p)|, flowSets := e.flowSets)), e.store,
                       e.missing, false)
            <==> AllSafe(Session(router, 10, p.domainId), p.flowSets, map[], store)
  {
    hide IPFIXSendable, IPFIXOctets, EncodeIPFIX, AllFit, AllSafe, DecodePacket, Expected;
    IPFIXIs(p);
    IPFIXRoundTrip(router, store, p, rest);
  }
}

/** What the encoder writes, as functions of the packet; None is an encoding error. */
module NetFlowPrinter {
  import opened Bytes
  import opened NetFlowTypes

  // ---------- padding ----------

  /** Zero bytes needed to bring a set, with its 4-byte header, to a multiple of four. */
  function Padding(n: nat): (p: nat)
    ensures p < 4
  {
    (4 - (4 + n) % 4) % 4
  }

  lemma PaddedToFour(n: nat)
    ensures (4 + n + Padding(n)) % 4 == 0
  {
    var r := n % 4;
    assert n == n / 4 * 4 + r && (4 + n) % 4 == r;
    assert Padding(n) == if r == 0 then 0 else 4 - r;
  }

  function Pad(payload: bytes): (r: bytes)
    ensures payload <= r && |r| == |payload| + Padding(|payload|)
  {
    payload + Zeros(Padding(|payload|))
  }

  // ---------- templates ----------

  function EncodeField(f: Field, pen: bool): (b: bytes)
    ensures |b| == if pen && f.penProvided then 8 else 4
  {
    if pen && f.penProvided then
      U16(if f.typ < ENTERPRISE then f.typ + ENTERPRISE else f.typ) + (U16(f.length) + U32(f.pen))
    else
      U16(f.typ) + U16(f.length)
  }

  function EncodeFields(fs: seq<Field>, pen: bool): bytes
  {
    if fs == [] then [] else EncodeField(fs[0], pen) + EncodeFields(fs[1..], pen)
  }

  /** A zero count in the header means "count the fields"; the sum wraps at 16 bits. */
  function FillCounts(t: Template): Template
  {
    match t
    case TemplateRecord(id, count, fields) =>
      TemplateRecord(id, if count == 0 then |fields| % 0x1_0000 else count, fields)
    case NFv9OptionsTemplateRecord(id, sl, ol, scopes, options) =>
      NFv9OptionsTemplateRecord(id, if sl == 0 then |scopes| * 4 % 0x1_0000 else sl,
                                if ol == 0 then |options| * 4 % 0x1_0000 else ol, scopes, options)
    case IPFIXOptionsTemplateRecord(id, count, scopeCount, scopes, options) =>
      IPFIXOptionsTemplateRecord(id, if count == 0 then (|scopes| + |options|) % 0x1_0000 else count,
                                 if scopeCount == 0 && |scopes| > 0 then |scopes| % 0x1_0000
                                   else scopeCount, scopes, options)
  }

  predicate CountsMatch(t: Template)
  {
    match t
    case TemplateRecord(_, count, fields) => count == |fields|
    case NFv9OptionsTemplateRecord(_, sl, ol, scopes, options) => sl / 4 == |scopes| && ol / 4 == |options|
    case IPFIXOptionsTemplateRecord(_, count, scopeCount, scopes, options) =>
      count == |scopes| + |options| && scopeCount == |scopes|
  }

  function TemplateHeader(t: Template): bytes
  {
    match t
    case TemplateRecord(id, count, _) => U16(id) + U16(count)
    case NFv9OptionsTemplateRecord(id, sl, ol, _, _) => U16(id) + (U16(sl) + U16(ol))
    case IPFIXOptionsTemplateRecord(id, count, scopeCount, _, _) => U16(id) + (U16(count) + U16(scopeCount))
  }

  function EncodeTemplate(kind: TemplateKind, t: Template): Option<bytes>
  {
    var full := FillCounts(t);
    if !kind.Holds(t) || !CountsMatch(full) then None
    else Some(TemplateHeader(full) + (EncodeFields(t.ScopeFields(), kind.Enterprise())
                                      + EncodeFields(t.ValueFields(), kind.Enterprise())))
  }

  function EncodeTemplates(kind: TemplateKind, ts: seq<Template>): Option<bytes>
  {
    if ts == [] then Some([])
    else
      match (EncodeTemplate(kind, ts[0]), EncodeTemplates(kind, ts[1..]))
      case (Some(a), Some(b)) => Some(a + b)
      case _ => None
  }

  // ---------- data records ----------

  /** The length that governs a value: the template's, or else the one on the data field. */
  function GoverningLength(df: DataField, tmpl: Option<Field>): u16
  {
    if tmpl.Some? then tmpl.value.length else df.length
  }

  function LengthPrefix(n: u16): (b: bytes)
  {
    if n < 255 then [n] else [0xff] + U16(n)
  }

  function EncodeValue(df: DataField, tmpl: Option<Field>): Option<bytes>
  {
    if df.value.Unsupported? then None
    else
      var value := df.value.data;
      var length := GoverningLength(df, tmpl);
      if length == VARIABLE then
        if |value| > 0xffff then None else Some(LengthPrefix(|value|) + value)
      else if length != 0 && length != |value| then None
      else Some(value)
  }

  function EncodeValues(dfs: seq<DataField>, tmpls: seq<Option<Field>>): Option<bytes>
    requires |tmpls| == |dfs|
  {
    if dfs == [] then Some([])
    else
      match (EncodeValue(dfs[0], tmpls[0]), EncodeValues(dfs[1..], tmpls[1..]))
      case (Some(a), Some(b)) => Some(a + b)
      case _ => None
  }

  /** Whether a template may lay out this record: none may, the right type with matching counts may. */
  predicate Lays(options: bool, template: Option<Template>, r: DataRecord)
  {
    template.None?
    || (template.value.TemplateRecord? == !options
        && |template.value.ScopeFields()| == |r.scopes| && |template.value.ValueFields()| == |r.values|)
  }

  /** The field that governs each of `n` values, if any template does. */
  function ScopeGuide(template: Option<Template>, n: nat): (g: seq<Option<Field>>)
    requires template.Some? ==> |template.value.ScopeFields()| == n
    ensures |g| == n
  {
    seq(n, i requires 0 <= i < n => if template.Some? then Some(template.value.ScopeFields()[i]) else None)
  }

  function ValueGuide(template: Option<Template>, n: nat): (g: seq<Option<Field>>)
    requires template.Some? ==> |template.value.ValueFields()| == n
    ensures |g| == n
  {
    seq(n, i requires 0 <= i < n => if template.Some? then Some(template.value.ValueFields()[i]) else None)
  }

  function EncodeRecord(options: bool, template: Option<Template>, r: DataRecord): Option<bytes>
  {
    if !Lays(options, template, r) then None
    else
      match (EncodeValues(r.scopes, ScopeGuide(template, |r.scopes|)),
             EncodeValues(r.values, ValueGuide(template, |r.values|)))
      case (Some(a), Some(b)) => Some(a + b)
      case _ => None
  }

  function EncodeRecords(options: bool, template: Option<Template>, rs: seq<DataRecord>): Option<bytes>
  {
    if rs == [] then Some([])
    else
      match (EncodeRecord(options, template, rs[0]), EncodeRecords(options, template, rs[1..]))
      case (Some(a), Some(b)) => Some(a + b)
      case _ => None
  }

  // ---------- flow sets ----------

  type Announced = map<u16, Template>

  function Announce(known: Announced, ts: seq<Template>): Announced
    decreases |ts|
  {
    if ts == [] then known else Announce(known[ts[0].templateId := ts[0]], ts[1..])
  }

  function Known(known: Announced, id: u16): Option<Template>
  {
    if id in known then Some(known[id]) else None
  }

  /** The padded payload and set id of one flow set. */
  function EncodeSet(version: u16, fs: FlowSet, known: Announced): Option<(bytes, u16)>
  {
    if fs.Announces() then
      match KindOf(version, fs)
      case None => None
      case Some(kind) =>
        if fs.id != 0 && fs.id != kind.SetId() then None
        else
          match EncodeTemplates(kind, fs.templates)
          case None => None
          case Some(b) => Some((Pad(b), kind.SetId()))
    else if fs.id < 256 then None
    else if fs.RawFlowSet? then Some((Pad(fs.data), fs.id))
    else
      match EncodeRecords(fs.OptionsDataFlowSet?, Known(known, fs.id), fs.records)
      case None => None
      case Some(b) => Some((Pad(b), fs.id))
  }

  function AfterSet(fs: FlowSet, known: Announced): Announced
  {
    if fs.Announces() then Announce(known, fs.templates) else known
  }

  function EncodeSets(version: u16, sets: seq<FlowSet>, known: Announced): Option<bytes>
  {
    if sets == [] then Some([])
    else
      match EncodeSet(version, sets[0], known)
      case None => None
      case Some((payload, id)) =>
        if 4 + |payload| > 0xffff then None
        else
          match EncodeSets(version, sets[1..], AfterSet(sets[0], known))
          case None => None
          case Some(rest) => Some(U16(id) + (U16(4 + |payload|) + (payload + rest)))
  }

  // ---------- packets ----------

  function EncodeNFv9(p: NFv9Packet): Option<bytes>
  {
    if p.version != 0 && p.version != 9 then None
    else
      match EncodeSets(9, p.flowSets, map[])
      case None => None
      case Some(payload) =>
        var count := if p.count == 0 then |p.flowSets| % 0x1_0000 else p.count;
        Some(U16(9) + (U16(count) + (U32(p.systemUptime) + (U32(p.unixSeconds)
             + (U32(p.sequenceNumber) + (U32(p.sourceId) + payload))))))
  }

  function EncodeIPFIX(p: IPFIXPacket): Option<bytes>
  {
    if p.version != 0 && p.version != 10 then None
    else
      match EncodeSets(10, p.flowSets, map[])
      case None => None
      case Some(payload) =>
        if 16 + |payload| > 0xffff then None
        else
          Some(U16(10) + (U16(16 + |payload|) + (U32(p.exportTime)
               + (U32(p.sequenceNumber) + (U32(p.domainId) + payload)))))
  }
}

/** What the decoder makes of any bytes at all, as functions; None is a decoding error. */
module NetFlowParser {
  import opened Bytes
  import opened NetFlowTypes

  // ---------- templates ----------

  function DecodeField(s: bytes, pen: bool): (r: Option<(Field, bytes)>)
    ensures r.Some? ==> |r.value.1| + 4 <= |s|
  {
    if |s| < 4 then None
    else
      var typ, length := HeadU16(s), HeadU16(s[2..]);
      if pen && typ >= ENTERPRISE then
        if |s| < 8 then None
        else Some((Field(true, typ - ENTERPRISE, length, HeadU32(s[4..])), s[8..]))
      else
        Some((Field(false, typ, length, 0), s[4..]))
  }

  function DecodeFields(s: bytes, n: nat, pen: bool): (r: Option<(seq<Field>, bytes)>)
    ensures r.Some? ==> |r.value.0| == n && |r.value.1| + 4 * n <= |s|
    decreases n
  {
    if n == 0 then Some(([], s))
    else
      match DecodeField(s, pen)
      case None => None
      case Some((f, rest)) =>
        match DecodeFields(rest, n - 1, pen)
        case None => None
        case Some((fs, rest')) => Some(([f] + fs, rest'))
  }

  function DecodeTemplate(kind: TemplateKind, s: bytes): (r: Option<(Template, bytes)>)
    ensures r.Some? ==> |r.value.1| + 4 <= |s|
  {
    match kind
    case NFv9Data => DecodePlainTemplate(s, false)
    case IPFIXData => DecodePlainTemplate(s, true)
    case NFv9Options =>
      if |s| < 6 then None
      else
        var id, sl, ol := HeadU16(s), HeadU16(s[2..]), HeadU16(s[4..]);
        (match DecodeFields(s[6..], sl / 4, false)
         case None => None
         case Some((scopes, rest)) =>
           match DecodeFields(rest, ol / 4, false)
           case None => None
           case Some((options, rest')) => Some((NFv9OptionsTemplateRecord(id, sl, ol, scopes, options), rest')))
    case IPFIXOptions =>
      if |s| < 6 then None
      else
        var id, count, scopeCount := HeadU16(s), HeadU16(s[2..]), HeadU16(s[4..]);
        match DecodeFields(s[6..], scopeCount, true)
        case None => None
        case Some((scopes, rest)) =>
          if count < scopeCount then None
          else
            match DecodeFields(rest, count - scopeCount, true)
            case None => None
            case Some((options, rest')) =>
              Some((IPFIXOptionsTemplateRecord(id, count, scopeCount, scopes, options), rest'))
  }

  function DecodePlainTemplate(s: bytes, pen: bool): (r: Option<(Template, bytes)>)
    ensures r.Some? ==> r.value.0.TemplateRecord? && |r.value.1| + 4 <= |s|
  {
    if |s| < 4 then None
    else
      var id, count := HeadU16(s), HeadU16(s[2..]);
      match DecodeFields(s[4..], count, pen)
      case None => None
      case Some((fields, rest)) => Some((TemplateRecord(id, count, fields), rest))
  }

  /** The templates read before the first error, and whether there was none. */
  function DecodeTemplates(kind: TemplateKind, s: bytes): (r: (seq<Template>, bool))
    decreases |s|
  {
    if |s| < 4 then ([], true)
    else
      match DecodeTemplate(kind, s)
      case None => ([], false)
      case Some((t, rest)) =>
        var (ts, ok) := DecodeTemplates(kind, rest);
        ([t] + ts, ok)
  }

  // ---------- data records ----------

  /** The length of a value and the bytes from its first octet on. */
  function ValueLength(f: Field, s: bytes): (r: Option<(nat, bytes)>)
    ensures r.Some? ==> |r.value.1| <= |s|
  {
    if f.length != VARIABLE then Some((f.length, s))
    else if |s| < 1 then None
    else if s[0] != 0xff then Some((s[0], s[1..]))
    else if |s| < 3 then None
    else Some((HeadU16(s[1..]), s[3..]))
  }

  function DecodeValue(f: Field, s: bytes): (r: Option<(DataField, bytes)>)
    ensures r.Some? ==> |r.value.1| <= |s|
  {
    match ValueLength(f, s)
    case None => None
    case Some((n, rest)) =>
      Some((DataField(f.penProvided, f.typ, 0, f.pen, Raw(Take(rest, n))), Drop(rest, n)))
  }

  function DecodeValues(fields: seq<Field>, s: bytes): (r: Option<(seq<DataField>, bytes)>)
    ensures r.Some? ==> |r.value.0| == |fields| && |r.value.1| <= |s|
  {
    if fields == [] then Some(([], s))
    else
      match DecodeValue(fields[0], s)
      case None => None
      case Some((df, rest)) =>
        match DecodeValues(fields[1..], rest)
        case None => None
        case Some((dfs, rest')) => Some(([df] + dfs, rest'))
  }

  /** A payload shorter than the fixed fields is left alone and gives empty fields. */
  function DecodeUsingFields(fields: seq<Field>, s: bytes): (r: Option<(seq<DataField>, bytes)>)
    ensures r.Some? ==> |r.value.0| == |fields| && |r.value.1| <= |s|
  {
    if |s| >= TemplateSize(fields) then DecodeValues(fields, s)
    else Some((seq(|fields|, i => ZERO_FIELD), s))
  }

  function DecodeRecord(scopes: seq<Field>, values: seq<Field>, s: bytes): (r: Option<(DataRecord, bytes)>)
    ensures r.Some? ==> |r.value.1| < |s|
  {
    match DecodeUsingFields(scopes, s)
    case None => None
    case Some((sv, rest)) =>
      match DecodeUsingFields(values, rest)
      case None => None
      case Some((vv, rest')) =>
        // a record that consumed nothing is an error
        if |rest'| == |s| then None else Some((DataRecord(sv, vv), rest'))
  }

  function DecodeRecords(scopes: seq<Field>, values: seq<Field>, s: bytes): (r: (seq<DataRecord>, bool))
    decreases |s|
  {
    if |s| == 0 || |s| < TemplateSize(scopes) + TemplateSize(values) then ([], true)
    else
      match DecodeRecord(scopes, values, s)
      case None => ([], false)
      case Some((record, rest)) =>
        var (rs, ok) := DecodeRecords(scopes, values, rest);
        ([record] + rs, ok)
  }

  // ---------- flow sets ----------

  /** A flow set as the framing sees it: header and the bytes it claims. */
  datatype Frame = Frame(id: u16, length: u16, body: bytes)

  /** The frame at the front of `s`; no template takes part in this. */
  function NextFrame(s: bytes): (r: Option<(Frame, bytes)>)
    requires |s| >= 4
    ensures r.Some? ==> |r.value.1| + 4 <= |s|
  {
    var id, length := HeadU16(s), HeadU16(s[2..]);
    if length < 4 then None
    else Some((Frame(id, length, Take(s[4..], length - 4)), Drop(s[4..], length - 4)))
  }

  /** One frame read under the template known for its id; None is an error that ends the message. */
  function Interpret(version: u16, frame: Frame, template: Option<Template>): Option<FlowSet>
  {
    match KindFor(version, frame.id)
    case Some(kind) =>
      var (ts, ok) := DecodeTemplates(kind, frame.body);
      if ok then Some(TemplateSetOf(kind, frame.length, ts)) else None
    case None =>
      if frame.id < 256 then None
      else if template.None? then Some(RawFlowSet(frame.id, frame.length, frame.body))
      else
        var (rs, ok) := DecodeRecords(template.value.ScopeFields(), template.value.ValueFields(), frame.body);
        if !ok then None
        else if template.value.TemplateRecord? then Some(DataFlowSet(frame.id, frame.length, rs))
        else Some(OptionsDataFlowSet(frame.id, frame.length, rs))
  }

  /** Who is speaking: templates live under this and their id. */
  datatype Session = Session(router: string, version: u16, domain: u32)
  {
    function Key(id: u16): TemplateKey {
      TemplateKey(router, version, domain, id)
    }
  }

  function AddTemplates(store: Store, session: Session, ts: seq<Template>): Store
    decreases |ts|
  {
    if ts == [] then store
    else AddTemplates(store[session.Key(ts[0].templateId) := ts[0]], session, ts[1..])
  }

  function Learn(store: Store, session: Session, fs: FlowSet): Store
  {
    if fs.Announces() then AddTemplates(store, session, fs.templates) else store
  }

  /**
   * Flow sets decoded so far, the store they leave, whether a template was missing, whether decoding stopped on an
   * error.
   */
  datatype Message = Message(flowSets: seq<FlowSet>, store: Store, missing: bool, failed: bool)

  /** IPFIX stops at the length in its header, counted in 16 bits; NetFlow v9 reads everything. */
  predicate More(session: Session, size: u16, start: nat, s: bytes)
    requires |s| <= start
  {
    |s| >= 4 && (session.version == 9 || (start - |s|) % 0x1_0000 < size)
  }

  function DecodeSets(session: Session, size: u16, start: nat, store: Store, s: bytes): Message
    requires |s| <= start
    decreases |s|
  {
    if !More(session, size, start, s) then Message([], store, false, false)
    else
      match NextFrame(s)
      case None => Message([], store, false, true)
      case Some((frame, rest)) =>
        match Interpret(session.version, frame, Lookup(store, session.Key(frame.id)))
        case None => Message([], store, false, true)
        case Some(fs) =>
          var m := DecodeSets(session, size, start, Learn(store, session, fs), rest);
          Message([fs] + m.flowSets, m.store, fs.RawFlowSet? || m.missing, m.failed)
  }

  // ---------- packets ----------

  datatype Packet =
    | NFv9(nfv9: NFv9Packet)
    | IPFIX(ipfix: IPFIXPacket)
    | Unreadable

  datatype Outcome = Outcome(packet: Packet, store: Store, missing: bool, failed: bool)

  /** One datagram from one router. */
  function DecodePacket(router: string, store: Store, s: bytes): Outcome
  {
    if |s| < 2 then Outcome(Unreadable, store, false, true)
    else if HeadU16(s) == 9 then DecodeNFv9(router, store, s[2..])
    else if HeadU16(s) == 10 then DecodeIPFIX(router, store, s[2..])
    else Outcome(Unreadable, store, false, true)
  }

  /** A NetFlow v9 packet, from the word after its version. */
  function DecodeNFv9(router: string, store: Store, t: bytes): Outcome
  {
    if |t| < 18 then Outcome(Unreadable, store, false, true)
    else
      var domain := HeadU32(t[14..]);
      var m := DecodeSets(Session(router, 9, domain), HeadU16(t), |t| - 18, store, t[18..]);
      Outcome(NFv9(NFv9Packet(9, HeadU16(t), HeadU32(t[2..]), HeadU32(t[6..]), HeadU32(t[10..]), domain, m.flowSets)),
              m.store, m.missing, m.failed)
  }

  /** The header's length counts the 16 header bytes; taking them off wraps at 16 bits. */
  function SetBytes(length: u16): u16
  {
    (length as int - 16) % 0x1_0000
  }

  function DecodeIPFIX(router: string, store: Store, t: bytes): Outcome
  {
    if |t| < 14 then Outcome(Unreadable, store, false, true)
    else
      var domain := HeadU32(t[10..]);
      var m := DecodeSets(Session(router, 10, domain), SetBytes(HeadU16(t)), |t| - 14, store, t[14..]);
      Outcome(IPFIX(IPFIXPacket(10, HeadU16(t), HeadU32(t[2..]), HeadU32(t[6..]), domain, m.flowSets)),
              m.store, m.missing, m.failed)
  }
}

/** The records of NetFlow v9 (RFC 3954) and IPFIX (RFC 7011) packets. */
module NetFlowTypes {
  import opened Bytes

  const VARIABLE: u16 := 0xffff
  const ENTERPRISE: u16 := 0x8000

  datatype Field = Field(penProvided: bool, typ: u16, length: u16, pen: u32)

  /** A data field carries a byte slice or a string; no other Go value can be encoded. */
  datatype Value = Raw(data: bytes) | Text(data: bytes) | Unsupported

  datatype DataField = DataField(penProvided: bool, typ: u16, length: u16, pen: u32, value: Value)

  /** What a record whose payload is too short for its template is filled with. */
  const ZERO_FIELD := DataField(false, 0, 0, 0, Unsupported)

  datatype Template =
    | TemplateRecord(templateId: u16, fieldCount: u16, fields: seq<Field>)
    | NFv9OptionsTemplateRecord(templateId: u16, scopeLength: u16, optionLength: u16, scopes: seq<Field>,
                                options: seq<Field>)
    | IPFIXOptionsTemplateRecord(templateId: u16, fieldCount: u16, scopeFieldCount: u16, scopes: seq<Field>,
                                 options: seq<Field>)
  {
    /** Both halves of a record's layout; a plain template has no scope half. */
    function ScopeFields(): seq<Field> {
      if TemplateRecord? then [] else scopes
    }

    function ValueFields(): seq<Field> {
      if TemplateRecord? then fields else options
    }
  }

  /** The four template sets, one per (version, set id) pair the decoder recognises. */
  datatype TemplateKind = NFv9Data | NFv9Options | IPFIXData | IPFIXOptions
  {
    function SetId(): u16 {
      match this
      case NFv9Data => 0
      case NFv9Options => 1
      case IPFIXData => 2
      case IPFIXOptions => 3
    }

    predicate Enterprise() {
      IPFIXData? || IPFIXOptions?
    }

    /** The Go record type that sets of this kind hold. */
    predicate Holds(t: Template) {
      match this
      case NFv9Data => t.TemplateRecord?
      case IPFIXData => t.TemplateRecord?
      case NFv9Options => t.NFv9OptionsTemplateRecord?
      case IPFIXOptions => t.IPFIXOptionsTemplateRecord?
    }
  }

  /** A data record has no scopes; an options data record may. */
  datatype DataRecord = DataRecord(scopes: seq<DataField>, values: seq<DataField>)

  datatype FlowSet =
    | TemplateFlowSet(id: u16, length: u16, templates: seq<Template>)
    | NFv9OptionsTemplateFlowSet(id: u16, length: u16, templates: seq<Template>)
    | IPFIXOptionsTemplateFlowSet(id: u16, length: u16, templates: seq<Template>)
    | DataFlowSet(id: u16, length: u16, records: seq<DataRecord>)
    | OptionsDataFlowSet(id: u16, length: u16, records: seq<DataRecord>)
    | RawFlowSet(id: u16, length: u16, data: bytes)
  {
    predicate Announces() {
      TemplateFlowSet? || NFv9OptionsTemplateFlowSet? || IPFIXOptionsTemplateFlowSet?
    }
  }

  /** The template kind a flow set is encoded as, if the version allows the set at all. */
  function KindOf(version: u16, fs: FlowSet): Option<TemplateKind>
    requires fs.Announces()
  {
    match fs
    case TemplateFlowSet(_, _, _) => if version == 9 then Some(NFv9Data) else Some(IPFIXData)
    case NFv9OptionsTemplateFlowSet(_, _, _) => if version == 9 then Some(NFv9Options) else None
    case IPFIXOptionsTemplateFlowSet(_, _, _) => if version == 10 then Some(IPFIXOptions) else None
  }

  function KindFor(version: u16, id: u16): Option<TemplateKind>
  {
    if version == 9 && id == 0 then Some(NFv9Data)
    else if version == 9 && id == 1 then Some(NFv9Options)
    else if version == 10 && id == 2 then Some(IPFIXData)
    else if version == 10 && id == 3 then Some(IPFIXOptions)
    else None
  }

  function TemplateSetOf(kind: TemplateKind, length: u16, templates: seq<Template>): FlowSet
  {
    match kind
    case NFv9Data => TemplateFlowSet(0, length, templates)
    case IPFIXData => TemplateFlowSet(2, length, templates)
    case NFv9Options => NFv9OptionsTemplateFlowSet(1, length, templates)
    case IPFIXOptions => IPFIXOptionsTemplateFlowSet(3, length, templates)
  }

  /** Bytes that the fixed-length fields of a layout take. */
  function TemplateSize(fields: seq<Field>): nat
  {
    if fields == [] then 0
    else (if fields[0].length == VARIABLE then 0 else fields[0].length) + TemplateSize(fields[1..])
  }

  datatype NFv9Packet = NFv9Packet(version: u16, count: u16, systemUptime: u32, unixSeconds: u32,
                                   sequenceNumber: u32, sourceId: u32, flowSets: seq<FlowSet>)

  datatype IPFIXPacket = IPFIXPacket(version: u16, length: u16, exportTime: u32,
                                     sequenceNumber: u32, domainId: u32, flowSets: seq<FlowSet>)

  // ---------- the template store ----------

  datatype TemplateKey = TemplateKey(router: string, version: u16, domain: u32, id: u16)

  type Store = map<TemplateKey, Template>

  function Lookup(store: Store, key: TemplateKey): Option<Template>
  {
    if key in store then Some(store[key]) else None
  }
}

/** Aggregation buckets: what one event contributes, how contributions merge, and what a timer does to a bucket. */
module Aggregate {
  import opened Bytes
  import opened AggregateKeys

  // ---------- numbers ----------

  const TWO_32: int := 0x1_0000_0000
  const TWO_63: int := 0x8000_0000_0000_0000
  const TWO_64: int := 0x1_0000_0000_0000_0000

  /** Two's complement wrap-around of a 64-bit signed integer. */
  function Wrap64(n: int): (r: int)
    ensures -TWO_63 <= r < TWO_63 && (r - n) % TWO_64 == 0
  {
    (n + TWO_63) % TWO_64 - TWO_63
  }

  /** The number shapes aggregation reads; everything else is 0. */
  function Int64(v: Any): int
  {
    match v
    case Num(kind, n) => if kind == KindI64 || kind == KindU64 || kind == KindU32 || kind == KindInt then Wrap64(n)
      else 0
    case Float64(_, whole) => Wrap64(whole)
    case _ => 0
  }

  function Uint32(v: Any): u32
  {
    match v
    case Num(kind, n) => if kind == KindI64 || kind == KindU64 || kind == KindU32 || kind == KindInt then n % TWO_32
      else 0
    case Float64(_, whole) => whole % TWO_32
    case _ => 0
  }

  /** Bitwise conjunction, bit by bit from the lowest. */
  function And32(a: u32, b: u32): (r: u32)
    ensures r <= a
  {
    if a == 0 || b == 0 then 0 else (if a % 2 == 1 && b % 2 == 1 then 1 else 0) + 2 * And32(a / 2, b / 2)
  }

  /** The earlier timestamp that is not zero. */
  function MinTimestamp(a: int, b: int): int
  {
    if a == 0 then b else if b == 0 || a <= b then a else b
  }

  /** The later timestamp that is not zero. */
  function MaxTimestamp(a: int, b: int): int
  {
    if a == 0 then b else if b == 0 || a >= b then a else b
  }

  // ---------- fields of a bucket ----------

  datatype Mark = SumMark | FirstMark | CurrentMark | MinMark | MaxMark | AndMark

  /** A stored field: a plain value, or one marked with how it merges. */
  datatype Cell = Plain(v: Any) | Marked(mark: Mark, inner: Cell)

  type Fields = map<string, Cell>

  function CellInt64(c: Cell): int
  {
    if c.Plain? then Int64(c.v) else 0
  }

  function CellUint32(c: Cell): u32
  {
    if c.Plain? then Uint32(c.v) else 0
  }

  function Unmark(mark: Mark, c: Cell): Cell
  {
    if c.Marked? && c.mark == mark then c.inner else c
  }

  const START := "start_time_unix"
  const END := "end_time_unix"

  function Timestamp(ms: int): Cell
  {
    Plain(Num(KindI64, ms))
  }

  function OldTime(held: Option<Cell>): int
  {
    if held.Some? then CellInt64(held.value) else 0
  }

  /** What a bucket's field becomes when a contribution brings `brought`. */
  function MergeCell(key: string, held: Option<Cell>, brought: Cell): Cell
  {
    if key == START then Timestamp(MinTimestamp(OldTime(held), CellInt64(brought)))
    else if key == END then Timestamp(MaxTimestamp(OldTime(held), CellInt64(brought)))
    else if held.None? then brought
    else
      match brought
      case Plain(_) => brought
      case Marked(mark, incoming) =>
        var current := Unmark(mark, held.value);
        match mark
        case SumMark => Marked(SumMark, Timestamp(Wrap64(CellInt64(current) + CellInt64(incoming))))
        case FirstMark => held.value
        case CurrentMark => brought
        case MinMark => Marked(MinMark, if CellInt64(incoming) < CellInt64(current) then incoming else current)
        case MaxMark => Marked(MaxMark, if CellInt64(incoming) > CellInt64(current) then incoming else current)
        case AndMark => Marked(AndMark, Plain(Num(KindU32, And32(CellUint32(current), CellUint32(incoming)))))
  }

  function Get(m: Fields, k: string): Option<Cell>
  {
    if k in m then Some(m[k]) else None
  }

  /** Every field the contribution brings is merged; the others stay. */
  function MergeFields(dst: Fields, src: Fields): Fields
  {
    map k | k in dst.Keys + src.Keys :: if k in src then MergeCell(k, Get(dst, k), src[k]) else dst[k]
  }

  datatype Record = Record(fields: Fields, firstSeen: int, lastSeen: int, dirty: bool)

  function Add(bucket: Option<Record>, delta: Record): Record
  {
    match bucket
    case None => delta.(dirty := true)
    case Some(r) =>
      Record(MergeFields(r.fields, delta.fields),
             if delta.firstSeen < r.firstSeen then delta.firstSeen else r.firstSeen,
             if delta.lastSeen > r.lastSeen then delta.lastSeen else r.lastSeen,
             true)
  }

  // ---------- what one event contributes ----------

  datatype Role = KeyRole | Static | Merged(mark: Mark)

  datatype FieldSpec = FieldSpec(role: Role, name: string, family: string)

  datatype Config = Config(
    fields: seq<FieldSpec>, statics: map<string, Any>, aggregateMissing: bool,
    idleFlushAfter: int, maxFlushAfter: int, idleEraseAfter: int, periodicEvery: int, resetBuckets: bool)

  /** `lookup` is what the event holds for a configured field, after any address family conversion. */
  datatype Event = Event(control: bool, hasFields: bool, lookup: FieldSpec -> Option<Any>, start: Option<Any>,
                         end: Option<Any>)

  function Contribution(spec: FieldSpec, evt: Event): Option<Cell>
  {
    match spec.role
    case KeyRole => if evt.lookup(spec).Some? then Some(Plain(evt.lookup(spec).value)) else None
    case Static => None
    case Merged(mark) =>
      if mark == SumMark then
        Some(Marked(SumMark, Timestamp(if evt.lookup(spec).Some? then Int64(evt.lookup(spec).value) else 0)))
      else if evt.lookup(spec).Some? then Some(Marked(mark, Plain(evt.lookup(spec).value)))
      else None
  }

  /** The contributions of the fields from index `i` on, later ones over earlier ones. */
  function Contributions(specs: seq<FieldSpec>, evt: Event, acc: Fields): Fields
    decreases |specs|
  {
    if specs == [] then acc
    else
      var c := Contribution(specs[0], evt);
      Contributions(specs[1..], evt, if c.Some? then acc[specs[0].name := c.value] else acc)
  }

  function TimeOrNow(v: Option<Any>, now: int): int
  {
    if v.Some? && Int64(v.value) != 0 then Int64(v.value) else now / 1000000
  }

  function StaticCells(statics: map<string, Any>): Fields
  {
    map k | k in statics :: Plain(statics[k])
  }

  function DeltaOf(cfg: Config, evt: Event, now: int): Record
  {
    var fields := Contributions(cfg.fields, evt, StaticCells(cfg.statics));
    Record(fields[START := Timestamp(TimeOrNow(evt.start, now))][END := Timestamp(TimeOrNow(evt.end, now))], now, now,
           false)
  }

  function KeyValues(specs: seq<FieldSpec>, evt: Event): seq<Option<Any>>
  {
    if specs == [] then []
    else (if specs[0].role == KeyRole then [evt.lookup(specs[0])] else []) + KeyValues(specs[1..], evt)
  }

  // ---------- timers ----------

  const MILLISECOND := 1000000

  predicate Elapsed(after: int, since: int, now: int)
  {
    after > 0 && now - since >= after * MILLISECOND
  }

  datatype Fate = Flush | Reset | Snapshot | Erase | Keep

  /** A window flush wins over a periodic export, which wins over silent erasure. */
  function FateOf(cfg: Config, r: Record, now: int, due: bool): Fate
  {
    if Elapsed(cfg.idleFlushAfter, r.lastSeen, now) || Elapsed(cfg.maxFlushAfter, r.firstSeen, now) then Flush
    else if due && r.dirty then (if cfg.resetBuckets then Reset else Snapshot)
    else if Elapsed(cfg.idleEraseAfter, r.lastSeen, now) then Erase
    else Keep
  }

  predicate Survives(f: Fate)
  {
    f == Snapshot || f == Keep
  }

  predicate Exports(f: Fate)
  {
    f == Flush || f == Reset || f == Snapshot
  }

  function Remains(r: Record, f: Fate): Record
  {
    if f == Snapshot then r.(dirty := false) else r
  }

  function PeriodicDue(cfg: Config, startedAt: int, lastRun: Option<int>, now: int): bool
  {
    Elapsed(cfg.periodicEvery, if lastRun.Some? then lastRun.value else startedAt, now)
  }

  type Buckets = map<string, Record>

  function Flushed(cfg: Config, buckets: Buckets, now: int, due: bool): Buckets
  {
    map k | k in buckets && Survives(FateOf(cfg, buckets[k], now, due)) ::
      Remains(buckets[k], FateOf(cfg, buckets[k], now, due))
  }

  /** An exported bucket. */
  datatype Export = Export(key: string, record: Record)

  function ExportsOf(cfg: Config, buckets: Buckets, now: int, due: bool): set<Export>
  {
    set k | k in buckets && Exports(FateOf(cfg, buckets[k], now, due)) :: Export(k, buckets[k])
  }

  function AllOf(buckets: Buckets): set<Export>
  {
    set k | k in buckets :: Export(k, buckets[k])
  }

  /** The sequence lists the set, each element once. */
  ghost predicate Lists(out: seq<Export>, wanted: set<Export>)
  {
    && (forall e :: e in out <==> e in wanted)
    && (forall i, j :: 0 <= i < j < |out| ==> out[i] != out[j])
  }
}

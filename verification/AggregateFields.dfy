/** What a bucket says of the events in it: each field is the summary its role asks for of the values they carried. */
module AggregateFields {
  import opened Bytes
  import opened AggregateKeys
  import opened Aggregate
  import opened AggregateRuns
  import opened AggregateOrder
  import opened AggregateConservation

  /** An event and when the aggregator saw it, in nanoseconds. */
  datatype Arrival = Arrival(evt: Event, now: int)

  function Deltas(cfg: Config, arrivals: seq<Arrival>): seq<Record>
  {
    if arrivals == [] then []
    else
      var last := arrivals[|arrivals| - 1];
      Deltas(cfg, arrivals[..|arrivals| - 1]) + [DeltaOf(cfg, last.evt, last.now)]
  }

  /** The values the events carry for a field, in order. */
  function Values(spec: FieldSpec, arrivals: seq<Arrival>): seq<Any>
  {
    if arrivals == [] then []
    else
      var v := arrivals[|arrivals| - 1].evt.lookup(spec);
      Values(spec, arrivals[..|arrivals| - 1]) + (if v.Some? then [v.value] else [])
  }

  // ---------- summaries ----------

  /** Bit `b` of a number, counted from the lowest. */
  predicate Bit(n: nat, b: nat)
    decreases b
  {
    if b == 0 then n % 2 == 1 else Bit(n / 2, b - 1)
  }

  predicate AllHave(vs: seq<Any>, b: nat)
  {
    forall i :: 0 <= i < |vs| ==> Bit(Uint32(vs[i]), b)
  }

  /** What a field marked so holds of these values: sums apart, whose field also counts the events without a value. */
  ghost predicate Summarizes(mark: Mark, vs: seq<Any>, c: Cell)
    requires vs != []
  {
    && c.Marked? && c.mark == mark && c.inner.Plain?
    && var v := c.inner.v;
       match mark
       case FirstMark => v == vs[0]
       case CurrentMark => v == vs[|vs| - 1]
       case MinMark => v in vs && forall i :: 0 <= i < |vs| ==> Int64(v) <= Int64(vs[i])
       case MaxMark => v in vs && forall i :: 0 <= i < |vs| ==> Int64(v) >= Int64(vs[i])
       case _ => forall b: nat :: Bit(Uint32(v), b) <==> AllHave(vs, b)
  }

  function Marks(mark: Mark, vs: seq<Any>): seq<Cell>
  {
    if vs == [] then [] else Marks(mark, vs[..|vs| - 1]) + [Marked(mark, Plain(vs[|vs| - 1]))]
  }

  lemma {:induction false} ZeroHasNone(b: nat)
    ensures !Bit(0, b)
  {
    if b > 0 { ZeroHasNone(b - 1); }
  }

  lemma {:induction false} AndBit(m: u32, n: u32, b: nat)
    ensures Bit(And32(m, n), b) <==> Bit(m, b) && Bit(n, b)
    decreases b
  {
    if m == 0 || n == 0 {
      ZeroHasNone(b);
    } else {
      AndBits(m, n);
      if b > 0 { AndBit(m / 2, n / 2, b - 1); }
    }
  }

  lemma AndSummarizes(front: seq<Any>, v: Any, held: Any)
    requires forall b: nat :: Bit(Uint32(held), b) <==> AllHave(front, b)
    ensures var both := Num(KindU32, And32(Uint32(held), Uint32(v)));
            forall b: nat :: Bit(Uint32(both), b) <==> AllHave(front + [v], b)
  {
    hide And32, Bit;
    var m := And32(Uint32(held), Uint32(v));
    MaskIsItself(m);
    forall b: nat ensures Bit(m, b) <==> AllHave(front + [v], b) {
      AndBit(Uint32(held), Uint32(v), b);
      var all := front + [v];
      assert all[|front|] == v;
      assert forall i :: 0 <= i < |front| ==> all[i] == front[i];
    }
  }

  lemma {:induction false} FoldSummarizes(f: string, mark: Mark, vs: seq<Any>)
    requires !IsTime(f) && mark != SumMark && vs != []
    ensures Marks(mark, vs) != [] && Summarizes(mark, vs, FoldCells(f, Marks(mark, vs)))
  {
    hide FoldCells, And32, Bit, Int64, Uint32;
    var n := |vs| - 1;
    var front, v := vs[..n], vs[n];
    var c := Marked(mark, Plain(v));
    FoldCellsSnoc(f, Marks(mark, front), c);
    assert vs == front + [v];
    if n == 0 {
      assert forall b: nat :: AllHave([v], b) <==> Bit(Uint32(v), b) by { assert [v][0] == v; }
    } else {
      FoldSummarizes(f, mark, front);
      MergeSummarizes(f, mark, front, v, FoldCells(f, Marks(mark, front)));
    }
  }

  lemma MergeSummarizes(f: string, mark: Mark, front: seq<Any>, v: Any, held: Cell)
    requires !IsTime(f) && mark != SumMark && front != [] && Summarizes(mark, front, held)
    ensures Summarizes(mark, front + [v], MergeCell(f, Some(held), Marked(mark, Plain(v))))
  {
    hide And32, Bit, Int64, Uint32;
    if mark == AndMark { AndSummarizes(front, v, held.inner.v); }
  }

  /** The numbers a value counts for: that of the four integer kinds that are read, and 0 for every other kind. */
  lemma NumbersRead(kind: IntKind, n: int)
    requires -TWO_63 <= n < TWO_63
    ensures var read := kind == KindI64 || kind == KindU64 || kind == KindU32 || kind == KindInt;
            && Int64(Num(kind, n)) == (if read then n else 0)
            && (0 <= n < TWO_32 ==> Uint32(Num(kind, n)) == if read then n else 0)
  {
    WrapSame(n);
    if 0 <= n < TWO_32 { MaskIsItself(n); }
  }

  // ---------- events ----------

  /** The one specification of a field name, which no static field shares. */
  ghost predicate OnlySpec(cfg: Config, spec: FieldSpec)
  {
    && !IsTime(spec.name) && spec in cfg.fields && spec.name !in cfg.statics
    && forall s :: s in cfg.fields && s.name == spec.name ==> s == spec
  }

  lemma {:induction false} OnlyContribution(specs: seq<FieldSpec>, spec: FieldSpec, evt: Event, acc: Fields)
    requires forall s :: s in specs && s.name == spec.name ==> s == spec
    ensures var c := Contribution(spec, evt);
            Get(Contributions(specs, evt, acc), spec.name)
            == if spec in specs && c.Some? then c else Get(acc, spec.name)
    decreases |specs|
  {
    hide Contribution;
    if specs != [] {
      var c := Contribution(specs[0], evt);
      OnlyContribution(specs[1..], spec, evt, if c.Some? then acc[specs[0].name := c.value] else acc);
    }
  }

  lemma EventBrings(cfg: Config, spec: FieldSpec, evt: Event, now: int)
    requires OnlySpec(cfg, spec) && spec.role.Merged? && spec.role.mark != SumMark
    ensures var v := evt.lookup(spec);
            Get(DeltaOf(cfg, evt, now).fields, spec.name)
            == if v.Some? then Some(Marked(spec.role.mark, Plain(v.value))) else None
  {
    hide Contributions;
    OnlyContribution(cfg.fields, spec, evt, StaticCells(cfg.statics));
  }

  lemma {:induction false} ValuesBrought(cfg: Config, spec: FieldSpec, arrivals: seq<Arrival>)
    requires OnlySpec(cfg, spec) && spec.role.Merged? && spec.role.mark != SumMark
    ensures Cells(Deltas(cfg, arrivals), spec.name) == Marks(spec.role.mark, Values(spec, arrivals))
  {
    hide DeltaOf, Cells, OnlySpec;
    if arrivals == [] {
      NoCells([], spec.name);
    } else {
      var n := |arrivals| - 1;
      var front, last := arrivals[..n], arrivals[n];
      var vs, v := Values(spec, front), last.evt.lookup(spec);
      ValuesBrought(cfg, spec, front);
      EventBrings(cfg, spec, last.evt, last.now);
      CellsSnoc(Deltas(cfg, front), DeltaOf(cfg, last.evt, last.now), spec.name);
      if v.Some? {
        assert (vs + [v.value])[..|vs|] == vs;
      } else {
        Empty(vs);
        Empty(Marks(spec.role.mark, vs));
      }
    }
  }

  lemma {:induction false} DeltasTimed(cfg: Config, arrivals: seq<Arrival>)
    ensures Timed(Deltas(cfg, arrivals)) && |Deltas(cfg, arrivals)| == |arrivals|
  {
    hide Contributions;
    if arrivals != [] { DeltasTimed(cfg, arrivals[..|arrivals| - 1]); }
  }

  /**
   * In the bucket of any events, a field with one specification is there exactly when some event carried a value for
   * it, and is the first of these values, the last, the least, the greatest, or the bits they all have.
   */
  lemma BucketSummarizes(cfg: Config, spec: FieldSpec, arrivals: seq<Arrival>)
    requires OnlySpec(cfg, spec) && spec.role.Merged? && spec.role.mark != SumMark && arrivals != []
    ensures Deltas(cfg, arrivals) != []
    ensures var bucket, vs := Fold(Deltas(cfg, arrivals)).fields, Values(spec, arrivals);
            && (spec.name in bucket <==> vs != [])
            && (vs != [] ==> Summarizes(spec.role.mark, vs, bucket[spec.name]))
  {
    hide Fold, Cells, FoldCells, Summarizes, Values, Deltas;
    DeltasTimed(cfg, arrivals);
    FieldOfFold(Deltas(cfg, arrivals), spec.name);
    ValuesBrought(cfg, spec, arrivals);
    if Values(spec, arrivals) != [] {
      FoldSummarizes(spec.name, spec.role.mark, Values(spec, arrivals));
    }
  }

  lemma LastShows(cfg: Config, arrivals: seq<Arrival>, f: string, v: Any)
    requires arrivals != [] && !IsTime(f)
    requires var last := arrivals[|arrivals| - 1]; Get(DeltaOf(cfg, last.evt, last.now).fields, f) == Some(Plain(v))
    ensures Deltas(cfg, arrivals) != []
    ensures var bucket := Fold(Deltas(cfg, arrivals)).fields; f in bucket && bucket[f] == Plain(v)
  {
    hide Fold, Cells, FoldCells, DeltaOf;
    var n := |arrivals| - 1;
    var front, last := Deltas(cfg, arrivals[..n]), DeltaOf(cfg, arrivals[n].evt, arrivals[n].now);
    DeltasTimed(cfg, arrivals);
    FieldOfFold(Deltas(cfg, arrivals), f);
    CellsSnoc(front, last, f);
    FoldCellsSnoc(f, Cells(front, f), Plain(v));
  }

  /** A bucket shows the key value of its last event, and the static fields as configured. */
  lemma BucketShows(cfg: Config, spec: FieldSpec, arrivals: seq<Arrival>, f: string)
    requires arrivals != []
    requires OnlySpec(cfg, spec) && spec.role == KeyRole && arrivals[|arrivals| - 1].evt.lookup(spec).Some?
    requires !IsTime(f) && f in cfg.statics && forall s :: s in cfg.fields ==> s.name != f
    ensures Deltas(cfg, arrivals) != []
    ensures var bucket := Fold(Deltas(cfg, arrivals)).fields;
            && spec.name in bucket && bucket[spec.name] == Plain(arrivals[|arrivals| - 1].evt.lookup(spec).value)
            && f in bucket && bucket[f] == Plain(cfg.statics[f])
  {
    hide Fold, Contributions;
    var last := arrivals[|arrivals| - 1];
    OnlyContribution(cfg.fields, spec, last.evt, StaticCells(cfg.statics));
    OnlyContribution(cfg.fields, FieldSpec(Static, f, ""), last.evt, StaticCells(cfg.statics));
    LastShows(cfg, arrivals, spec.name, last.evt.lookup(spec).value);
    LastShows(cfg, arrivals, f, cfg.statics[f]);
  }

  // ---------- the time span ----------

  /** When the event says it began or ended, in milliseconds; the time of its arrival when it does not say. */
  function When(said: Option<Any>, now: int): int
  {
    if said.Some? && Int64(said.value) != 0 then Int64(said.value) else now / 1000000
  }

  function Times(arrivals: seq<Arrival>, end: bool): seq<int>
  {
    if arrivals == [] then []
    else
      var last := arrivals[|arrivals| - 1];
      Times(arrivals[..|arrivals| - 1], end) + [When(if end then last.evt.end else last.evt.start, last.now)]
  }

  /** The earliest of the times that are not zero, or the latest; zero when all are. */
  predicate Extreme(ts: seq<int>, end: bool, t: int)
  {
    && t in ts
    && forall i :: 0 <= i < |ts| && ts[i] != 0 ==> t != 0 && (if end then t >= ts[i] else t <= ts[i])
  }

  predicate ClockOk(arrivals: seq<Arrival>)
  {
    forall i :: 0 <= i < |arrivals| ==> -TWO_63 <= arrivals[i].now < TWO_63
  }

  lemma WhenInRange(said: Option<Any>, now: int)
    requires -TWO_63 <= now < TWO_63
    ensures -TWO_63 <= When(said, now) < TWO_63
    ensures CellInt64(Timestamp(When(said, now))) == When(said, now)
  {
    if said.Some? { CellInt64InRange(Plain(said.value)); }
    WrapSame(When(said, now));
  }

  lemma DeltaTimes(cfg: Config, evt: Event, now: int)
    ensures var fields := DeltaOf(cfg, evt, now).fields;
            && START in fields && fields[START] == Timestamp(When(evt.start, now))
            && END in fields && fields[END] == Timestamp(When(evt.end, now))
  {
    hide Contributions;
    assert START[0] != END[0];
  }

  lemma {:induction false} TimesFold(cfg: Config, arrivals: seq<Arrival>, end: bool)
    requires arrivals != [] && ClockOk(arrivals)
    ensures var f := if end then END else START;
            var cs := Cells(Deltas(cfg, arrivals), f);
            && cs != [] && FoldCells(f, cs).Plain? && FoldCells(f, cs) == Timestamp(CellInt64(FoldCells(f, cs)))
            && Extreme(Times(arrivals, end), end, CellInt64(FoldCells(f, cs)))
  {
    hide DeltaOf, Cells, FoldCells, Int64;
    var f := if end then END else START;
    var n := |arrivals| - 1;
    var front, last := arrivals[..n], arrivals[n];
    var t := When(if end then last.evt.end else last.evt.start, last.now);
    DeltaTimes(cfg, last.evt, last.now);
    WhenInRange(if end then last.evt.end else last.evt.start, last.now);
    CellsSnoc(Deltas(cfg, front), DeltaOf(cfg, last.evt, last.now), f);
    var cs := Cells(Deltas(cfg, front), f);
    FoldCellsSnoc(f, cs, Timestamp(t));
    if n == 0 {
      NoCells([], f);
    } else {
      TimesFold(cfg, front, end);
      TimesMerge(f, end, Times(front, end), t, FoldCells(f, cs));
    }
  }

  lemma TimesMerge(f: string, end: bool, ts: seq<int>, t: int, held: Cell)
    requires f == (if end then END else START) && Extreme(ts, end, CellInt64(held))
    requires CellInt64(Timestamp(t)) == t
    ensures var c := MergeCell(f, Some(held), Timestamp(t));
            && c == Timestamp(CellInt64(c)) && Extreme(ts + [t], end, CellInt64(c))
  {
    hide Wrap64;
    assert START[0] != END[0];
    var c := MergeCell(f, Some(held), Timestamp(t));
    var h := CellInt64(held);
    CellInt64InRange(held);
    WrapSame(h);
    assert CellInt64(Timestamp(h)) == h;
    assert (ts + [t])[|ts|] == t;
    assert forall i :: 0 <= i < |ts| ==> (ts + [t])[i] == ts[i];
  }

  /** A bucket spans its events: from the earliest time any of them began to the latest any of them ended. */
  lemma BucketSpans(cfg: Config, arrivals: seq<Arrival>)
    requires arrivals != [] && ClockOk(arrivals)
    ensures Deltas(cfg, arrivals) != []
    ensures var bucket := Fold(Deltas(cfg, arrivals)).fields;
            && START in bucket && Extreme(Times(arrivals, false), false, CellInt64(bucket[START]))
            && END in bucket && Extreme(Times(arrivals, true), true, CellInt64(bucket[END]))
  {
    hide Fold, Cells, FoldCells, Deltas, Times;
    DeltasTimed(cfg, arrivals);
    FieldOfFold(Deltas(cfg, arrivals), START);
    FieldOfFold(Deltas(cfg, arrivals), END);
    TimesFold(cfg, arrivals, false);
    TimesFold(cfg, arrivals, true);
  }
}

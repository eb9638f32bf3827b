/** Sums are conserved over every run of the aggregator. */
module AggregateConservation {
  import opened Bytes
  import opened Aggregate
  import opened AggregateRuns
  import opened AggregateOrder

  function Amount(r: Record, f: string): int
  {
    if f in r.fields then NumberOf(f, SumMark, r.fields[f]) else 0
  }

  function TotalAmount(rs: seq<Record>, f: string): int
  {
    if rs == [] then 0 else Amount(rs[0], f) + TotalAmount(rs[1..], f)
  }

  /** A contribution that brings a number to add and its time span. */
  predicate Sums(d: Record, f: string)
  {
    START in d.fields && END in d.fields && f in d.fields && Fits(f, SumMark, d.fields[f])
  }

  predicate AllSums(ds: seq<Record>, f: string)
  {
    forall i :: 0 <= i < |ds| ==> Sums(ds[i], f)
  }

  // ---------- contributions of events ----------

  /** The last field specification of a name. */
  function LastNamed(specs: seq<FieldSpec>, f: string): Option<FieldSpec>
  {
    if specs == [] then None
    else
      var later := LastNamed(specs[1..], f);
      if later.Some? then later else if specs[0].name == f then Some(specs[0]) else None
  }

  lemma {:induction false} LastContribution(specs: seq<FieldSpec>, evt: Event, acc: Fields, f: string)
    ensures var last := LastNamed(specs, f);
            && (last.None? ==> Get(Contributions(specs, evt, acc), f) == Get(acc, f))
            && (last.Some? && Contribution(last.value, evt).Some? ==>
                  Get(Contributions(specs, evt, acc), f) == Contribution(last.value, evt))
    decreases |specs|
  {
    hide Contribution;
    if specs != [] {
      var c := Contribution(specs[0], evt);
      LastContribution(specs[1..], evt, if c.Some? then acc[specs[0].name := c.value] else acc, f);
    }
  }

  /** A field last configured as a sum brings the event's number for it, 0 when the event has none. */
  lemma EventContributesItsNumber(cfg: Config, evt: Event, now: int, f: string)
    requires !IsTime(f) && LastNamed(cfg.fields, f).Some? && LastNamed(cfg.fields, f).value.role == Merged(SumMark)
    ensures Sums(DeltaOf(cfg, evt, now), f)
    ensures var v := evt.lookup(LastNamed(cfg.fields, f).value);
            Amount(DeltaOf(cfg, evt, now), f) == if v.Some? then Int64(v.value) else 0
  {
    var spec := LastNamed(cfg.fields, f).value;
    LastContribution(cfg.fields, evt, StaticCells(cfg.statics), f);
    var v := evt.lookup(spec);
    var n := if v.Some? then Int64(v.value) else 0;
    assert -TWO_63 <= n < TWO_63 by { if v.Some? { CellInt64InRange(Plain(v.value)); } }
    WrapSame(n);
  }

  // ---------- totals ----------

  lemma {:induction false} TotalAppend(a: seq<Record>, b: seq<Record>, f: string)
    ensures TotalAmount(a + b, f) == TotalAmount(a, f) + TotalAmount(b, f)
  {
    if a == [] {
      Empty(b);
    } else {
      assert (a + b)[1..] == a[1..] + b;
      TotalAppend(a[1..], b, f);
    }
  }

  lemma TotalOne(d: Record, f: string)
    ensures TotalAmount([d], f) == Amount(d, f)
  {
    assert [d][1..] == [];
  }

  lemma AddAmount(r: Record, d: Record, f: string)
    requires !IsTime(f) && Sums(d, f) && f in r.fields
    ensures f in Add(Some(r), d).fields
    ensures Amount(Add(Some(r), d), f) == Wrap64(Amount(r, f) + Amount(d, f))
  {
    hide MergeCell, NumberOf;
    AddField(Some(r), d, f);
    MergeNumber(f, SumMark, r.fields[f], d.fields[f]);
  }

  /** A bucket's sum field is the wrapped total of its contributions. */
  lemma {:induction false} FoldAmount(ds: seq<Record>, f: string)
    requires ds != [] && AllSums(ds, f) && !IsTime(f)
    ensures f in Fold(ds).fields && Amount(Fold(ds), f) == Wrap64(TotalAmount(ds, f))
  {
    hide Wrap64, Sums, Add, NumberOf, TotalAmount;
    var n := |ds| - 1;
    var d, front := ds[n], ds[..n];
    assert ds == front + [d];
    TotalAppend(front, [d], f);
    TotalOne(d, f);
    SumsFacts(d, f);
    if n == 0 {
      TotalNone(front, f);
      WrapSame(Amount(d, f));
      FirstAdd(d, f);
    } else {
      FoldAmount(front, f);
      AddAmount(Fold(front), d, f);
      WrapWrap(TotalAmount(front, f), Amount(d, f));
    }
  }

  lemma SumsFacts(d: Record, f: string)
    requires Sums(d, f)
    ensures f in d.fields && -TWO_63 <= Amount(d, f) < TWO_63
  {
    CellInt64InRange(if IsTime(f) then d.fields[f] else Unmark(SumMark, d.fields[f]));
  }

  lemma TotalNone(ds: seq<Record>, f: string)
    requires ds == []
    ensures TotalAmount(ds, f) == 0
  {
  }

  lemma FirstAdd(d: Record, f: string)
    ensures Add(None, d).fields == d.fields && Amount(Add(None, d), f) == Amount(d, f)
  {
  }

  lemma SameAmount(a: Record, b: Record, f: string)
    requires Same(a, b)
    ensures Amount(a, f) == Amount(b, f)
  {
  }

  lemma AllSumsSplit(a: seq<Record>, b: seq<Record>, f: string)
    requires AllSums(a + b, f)
    ensures AllSums(a, f) && AllSums(b, f)
  {
    assert forall i :: 0 <= i < |a| ==> (a + b)[i] == a[i];
    assert forall i :: 0 <= i < |b| ==> (a + b)[|a| + i] == b[i];
  }

  lemma HeadFolds(rs: seq<Record>, gs: seq<seq<Record>>)
    requires AreFolds(rs, gs)
    ensures |rs| == |gs|
    ensures gs != [] ==> gs[0] != [] && Same(rs[0], Fold(gs[0])) && AreFolds(rs[1..], gs[1..])
    ensures Concat(gs) == if gs == [] then [] else gs[0] + Concat(gs[1..])
  {
    hide Fold;
  }

  lemma {:induction false} GroupsTotal(rs: seq<Record>, gs: seq<seq<Record>>, f: string, x: int)
    requires AreFolds(rs, gs) && AllSums(Concat(gs), f) && !IsTime(f)
    ensures Wrap64(TotalAmount(rs, f) + x) == Wrap64(TotalAmount(Concat(gs), f) + x)
    decreases |gs|
  {
    hide *;
    HeadFolds(rs, gs);
    if gs == [] {
      assert rs == Concat(gs);
    } else {
      var r, g, rest := rs[0], gs[0], Concat(gs[1..]);
      AllSumsSplit(g, rest, f);
      FoldAmount(g, f);
      SameAmount(r, Fold(g), f);
      assert rs == [r] + rs[1..];
      TotalAppend([r], rs[1..], f);
      TotalOne(r, f);
      TotalAppend(g, rest, f);
      GroupsTotal(rs[1..], gs[1..], f, x + Amount(r, f));
      WrapWrap(TotalAmount(g, f), TotalAmount(rest, f) + x);
    }
  }

  // ---------- conservation ----------

  /** The removed buckets of `k` that were exported, or those that were silently erased. */
  function Taken(cfg: Config, startedAt: int, s: State, run: seq<Step>, k: string, exported: bool): seq<Record>
    decreases |run|
  {
    if run == [] then []
    else
      var gone := Removed(cfg, startedAt, s, run[0], k);
      var fits := gone != [] && Exports(FateOf(cfg, gone[0], run[0].now, Due(cfg, startedAt, s, run[0].now)))
        == exported;
      (if fits then gone else []) + Taken(cfg, startedAt, After(cfg, startedAt, s, run[0]), run[1..], k, exported)
  }

  lemma {:induction false} TakenEitherWay(cfg: Config, startedAt: int, s: State, run: seq<Step>, k: string, f: string)
    ensures TotalAmount(AllRemoved(cfg, startedAt, s, run, k), f)
            == TotalAmount(Taken(cfg, startedAt, s, run, k, true), f)
              + TotalAmount(Taken(cfg, startedAt, s, run, k, false), f)
    decreases |run|
  {
    hide TotalAmount, FateOf;
    if run == [] {
      TotalNone([], f);
    } else {
      var s' := After(cfg, startedAt, s, run[0]);
      var gone := Removed(cfg, startedAt, s, run[0], k);
      TakenEitherWay(cfg, startedAt, s', run[1..], k, f);
      TotalAppend(gone, AllRemoved(cfg, startedAt, s', run[1..], k), f);
      TotalAppend(gone, Taken(cfg, startedAt, s', run[1..], k, true), f);
      TotalAppend(gone, Taken(cfg, startedAt, s', run[1..], k, false), f);
      Empty(Taken(cfg, startedAt, s', run[1..], k, true));
      Empty(Taken(cfg, startedAt, s', run[1..], k, false));
      TotalNone([], f);
    }
  }

  /**
   * For every run from an empty aggregator, every key and every sum field, modulo 2^64: what was ingested is what
   * left in bucket-removing exports, plus what was erased, plus what is resident.
   */
  lemma SumsConserved(cfg: Config, startedAt: int, run: seq<Step>, k: string, f: string)
    requires !IsTime(f) && AllSums(Ingested(run, k), f)
    ensures var start := State(map[], None);
            var resident := Bucket(Reach(cfg, startedAt, start, run), k);
            Wrap64(TotalAmount(Ingested(run, k), f))
            == Wrap64(TotalAmount(Taken(cfg, startedAt, start, run, k, true), f)
                      + TotalAmount(Taken(cfg, startedAt, start, run, k, false), f)
                      + (if resident.Some? then Amount(resident.value, f) else 0))
  {
    hide *;
    var start := State(map[], None);
    assert Bucket(start, k).None? by { Fresh(k); }
    Vacant(Bucket(start, k));
    EveryContributionOnce(cfg, startedAt, start, run, k, []);
    TakenEitherWay(cfg, startedAt, start, run, k, f);
    var (closed, last) := Groups(cfg, startedAt, start, run, k, []);
    var removed := AllRemoved(cfg, startedAt, start, run, k);
    Empty(Ingested(run, k));
    AllSumsSplit(Concat(closed), last, f);
    TotalAppend(Concat(closed), last, f);
    var resident := Bucket(Reach(cfg, startedAt, start, run), k);
    HeldAmount(resident, last, f);
    var x := if resident.Some? then Amount(resident.value, f) else 0;
    GroupsTotal(removed, closed, f, x);
    WrapWrap(TotalAmount(last, f), TotalAmount(Concat(closed), f));
  }

  lemma Fresh(k: string)
    ensures Bucket(State(map[], None), k).None?
  {
  }

  lemma HeldAmount(resident: Option<Record>, last: seq<Record>, f: string)
    requires Holds(resident, last) && AllSums(last, f) && !IsTime(f)
    ensures (if resident.Some? then Amount(resident.value, f) else 0) == Wrap64(TotalAmount(last, f))
  {
    hide Fold, Wrap64, AllSums, Amount;
    if last == [] {
      TotalNone(last, f);
      WrapSame(0);
    } else {
      FoldAmount(last, f);
      SameAmount(resident.value, Fold(last), f);
    }
  }
}

/** Over every run each contribution ends up in exactly one bucket, and sums are conserved. */
module AggregateRuns {
  import opened Bytes
  import opened Aggregate

  // ---------- runs ----------

  datatype Step = Ingest(key: string, delta: Record) | Tick(now: int) | Closing

  datatype State = State(buckets: Buckets, lastRun: Option<int>)

  function Due(cfg: Config, startedAt: int, s: State, now: int): bool
  {
    PeriodicDue(cfg, startedAt, s.lastRun, now)
  }

  function Bucket(s: State, k: string): Option<Record>
  {
    if k in s.buckets then Some(s.buckets[k]) else None
  }

  /** What the methods of the aggregator do to its state. */
  function After(cfg: Config, startedAt: int, s: State, step: Step): State
  {
    match step
    case Ingest(key, delta) => State(s.buckets[key := Add(Bucket(s, key), delta)], s.lastRun)
    case Tick(now) =>
      var due := Due(cfg, startedAt, s, now);
      State(Flushed(cfg, s.buckets, now, due), if due then Some(now) else s.lastRun)
    case Closing => s
  }

  /** The bucket of `k` when the step removes it, whether exported or erased. */
  function Removed(cfg: Config, startedAt: int, s: State, step: Step, k: string): seq<Record>
  {
    if step.Tick? && k in s.buckets && !Survives(FateOf(cfg, s.buckets[k], step.now, Due(cfg, startedAt, s, step.now)))
    then [s.buckets[k]] else []
  }

  function Reach(cfg: Config, startedAt: int, s: State, run: seq<Step>): State
    decreases |run|
  {
    if run == [] then s else Reach(cfg, startedAt, After(cfg, startedAt, s, run[0]), run[1..])
  }

  function Ingested(run: seq<Step>, k: string): seq<Record>
  {
    if run == [] then []
    else (if run[0].Ingest? && run[0].key == k then [run[0].delta] else []) + Ingested(run[1..], k)
  }

  function AllRemoved(cfg: Config, startedAt: int, s: State, run: seq<Step>, k: string): seq<Record>
    decreases |run|
  {
    if run == [] then []
    else
      Removed(cfg, startedAt, s, run[0], k)
      + AllRemoved(cfg, startedAt, After(cfg, startedAt, s, run[0]), run[1..], k)
  }

  // ---------- buckets are folds ----------

  /** The bucket that a nonempty sequence of contributions makes. */
  function Fold(ds: seq<Record>): Record
    requires ds != []
  {
    var n := |ds| - 1;
    Add(if n == 0 then None else Some(Fold(ds[..n])), ds[n])
  }

  /** Equal except for the dirty flag, which no export shows. */
  predicate Same(a: Record, b: Record)
  {
    a.(dirty := true) == b.(dirty := true)
  }

  predicate Holds(bucket: Option<Record>, open: seq<Record>)
  {
    if open == [] then bucket.None? else bucket.Some? && Same(bucket.value, Fold(open))
  }

  lemma FoldSnoc(open: seq<Record>, bucket: Option<Record>, d: Record)
    requires Holds(bucket, open)
    ensures Same(Add(bucket, d), Fold(open + [d]))
  {
    var all := open + [d];
    assert all[..|all| - 1] == open && all[|all| - 1] == d;
  }

  /** The contributions to `k`, cut where its bucket was removed; the last piece is still open. */
  function Groups(cfg: Config, startedAt: int, s: State, run: seq<Step>, k: string,
                  open: seq<Record>): (seq<seq<Record>>, seq<Record>)
    decreases |run|
  {
    if run == [] then ([], open)
    else
      var s' := After(cfg, startedAt, s, run[0]);
      if run[0].Ingest? && run[0].key == k then Groups(cfg, startedAt, s', run[1..], k, open + [run[0].delta])
      else if Removed(cfg, startedAt, s, run[0], k) != [] then
        var (closed, last) := Groups(cfg, startedAt, s', run[1..], k, []);
        ([open] + closed, last)
      else Groups(cfg, startedAt, s', run[1..], k, open)
  }

  function Concat(gs: seq<seq<Record>>): seq<Record>
  {
    if gs == [] then [] else gs[0] + Concat(gs[1..])
  }

  /** Each record is the fold of its group. */
  predicate AreFolds(rs: seq<Record>, gs: seq<seq<Record>>)
  {
    |rs| == |gs| && forall i :: 0 <= i < |rs| ==> gs[i] != [] && Same(rs[i], Fold(gs[i]))
  }

  lemma OneStep(cfg: Config, startedAt: int, s: State, step: Step, k: string, open: seq<Record>)
    requires Holds(Bucket(s, k), open)
    ensures var s', removed := After(cfg, startedAt, s, step), Removed(cfg, startedAt, s, step, k);
            if step.Ingest? && step.key == k then Holds(Bucket(s', k), open + [step.delta])
            else if removed != [] then open != [] && |removed| == 1 && Same(removed[0], Fold(open))
              && Bucket(s', k).None?
            else Holds(Bucket(s', k), open)
  {
    hide Fold, FateOf, PeriodicDue, Add;
    if step.Ingest? && step.key == k {
      FoldSnoc(open, Bucket(s, k), step.delta);
    }
  }

  lemma ConsFolds(r: Record, g: seq<Record>, rs: seq<Record>, gs: seq<seq<Record>>)
    requires g != [] && Same(r, Fold(g)) && AreFolds(rs, gs)
    ensures AreFolds([r] + rs, [g] + gs) && Concat([g] + gs) == g + Concat(gs)
  {
    assert ([g] + gs)[1..] == gs;
  }

  lemma IngestedCons(run: seq<Step>, k: string)
    requires run != []
    ensures run[0].Ingest? && run[0].key == k ==> Ingested(run, k) == [run[0].delta] + Ingested(run[1..], k)
    ensures !(run[0].Ingest? && run[0].key == k) ==> Ingested(run, k) == Ingested(run[1..], k)
  {
  }

  lemma GroupsCons(cfg: Config, startedAt: int, s: State, run: seq<Step>, k: string, open: seq<Record>)
    requires run != []
    ensures var s', removed := After(cfg, startedAt, s, run[0]), Removed(cfg, startedAt, s, run[0], k);
            && AllRemoved(cfg, startedAt, s, run, k) == removed + AllRemoved(cfg, startedAt, s', run[1..], k)
            && Reach(cfg, startedAt, s, run) == Reach(cfg, startedAt, s', run[1..])
            && Groups(cfg, startedAt, s, run, k, open) ==
               (if run[0].Ingest? && run[0].key == k then Groups(cfg, startedAt, s', run[1..], k, open + [run[0].delta])
                else if removed != [] then
                  var (closed, last) := Groups(cfg, startedAt, s', run[1..], k, []);
                  ([open] + closed, last)
                else Groups(cfg, startedAt, s', run[1..], k, open))
  {
  }

  /**
   * For every run and key: the contributions, in order, split into consecutive nonempty groups; each removed bucket
   * is the fold of one group, in order, and the resident bucket is the fold of what is left.
   */
  lemma {:induction false} EveryContributionOnce(cfg: Config, startedAt: int, s: State, run: seq<Step>, k: string,
                                                 open: seq<Record>)
    requires Holds(Bucket(s, k), open)
    ensures var (closed, last) := Groups(cfg, startedAt, s, run, k, open);
            && Concat(closed) + last == open + Ingested(run, k)
            && AreFolds(AllRemoved(cfg, startedAt, s, run, k), closed)
            && Holds(Bucket(Reach(cfg, startedAt, s, run), k), last)
    decreases |run|
  {
    if run == [] {
      Empty(open);
    } else {
      hide *;
      var s', step := After(cfg, startedAt, s, run[0]), run[0];
      OneStep(cfg, startedAt, s, step, k, open);
      GroupsCons(cfg, startedAt, s, run, k, open);
      IngestedCons(run, k);
      var removed, later := Removed(cfg, startedAt, s, step, k), AllRemoved(cfg, startedAt, s', run[1..], k);
      var rest := Ingested(run[1..], k);
      if step.Ingest? && step.key == k {
        NotRemoved(cfg, startedAt, s, step, k);
        Empty(later);
        EveryContributionOnce(cfg, startedAt, s', run[1..], k, open + [step.delta]);
        Assoc(open, [step.delta], rest);
      } else if removed != [] {
        Vacant(Bucket(s', k));
        EveryContributionOnce(cfg, startedAt, s', run[1..], k, []);
        var (closed, last) := Groups(cfg, startedAt, s', run[1..], k, []);
        assert removed == [removed[0]];
        ConsFolds(removed[0], open, later, closed);
        Empty(rest);
        Assoc(open, Concat(closed), last);
      } else {
        Empty(later);
        EveryContributionOnce(cfg, startedAt, s', run[1..], k, open);
      }
    }
  }

  lemma NotRemoved(cfg: Config, startedAt: int, s: State, step: Step, k: string)
    requires step.Ingest?
    ensures Removed(cfg, startedAt, s, step, k) == []
  {
  }

  lemma Vacant(bucket: Option<Record>)
    requires bucket.None?
    ensures Holds(bucket, [])
  {
  }
}

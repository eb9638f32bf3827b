/** Where the router's events end up, and that what an aggregator absorbs is flushed. */
module PipelineRouting {
  import opened Pipeline
  import opened PipelineRuns

  predicate Goes(cfg: Config, x: Item, i: nat)
  {
    !cfg.isNil(x) && !cfg.isControl(x) && i < cfg.aggregators && Matches(cfg, x, i)
  }

  predicate Unclaimed(cfg: Config, x: Item)
  {
    !cfg.isNil(x) && (cfg.isControl(x) || forall i :: 0 <= i < cfg.aggregators ==> !Matches(cfg, x, i))
  }

  lemma {:induction false} ToAggregatorsAppend(x: Item, a: seq<nat>, b: seq<nat>)
    ensures ToAggregators(x, a + b) == ToAggregators(x, a) + ToAggregators(x, b)
  {
    if a == [] {
      assert a + b == b;
    } else {
      assert (a + b)[1..] == a[1..] + b;
      ToAggregatorsAppend(x, a[1..], b);
    }
  }

  lemma ToOne(x: Item, i: nat)
    ensures ToAggregators(x, [i]) == [Msg(CAgg(i), x)] && ToAggregators(x, []) == []
  {
    assert [i][1..] == [];
  }

  lemma Split(a: seq<Msg>, b: seq<Msg>, m: Msg)
    ensures multiset(a + b)[m] == multiset(a)[m] + multiset(b)[m]
  {
  }

  lemma {:induction false} MatchedOnce(cfg: Config, y: Item, n: nat, i: nat, x: Item)
    ensures multiset(ToAggregators(y, Matched(cfg, y, n)))[Msg(CAgg(i), x)]
            == if y == x && i < n && Matches(cfg, x, i) then 1 else 0
    ensures multiset(ToAggregators(y, Matched(cfg, y, n)))[Msg(CEncode, x)] == 0
  {
    hide ToAggregators, Matches;
    ToOne(y, 0);
    if n > 0 {
      MatchedOnce(cfg, y, n - 1, i, x);
      ToOne(y, n - 1);
      var before, last := Matched(cfg, y, n - 1), if Matches(cfg, y, n - 1) then [n - 1] else [];
      ToAggregatorsAppend(y, before, last);
      Split(ToAggregators(y, before), ToAggregators(y, last), Msg(CAgg(i), x));
      Split(ToAggregators(y, before), ToAggregators(y, last), Msg(CEncode, x));
    }
  }

  lemma {:induction false} MatchedNone(cfg: Config, y: Item, n: nat)
    ensures Matched(cfg, y, n) == [] <==> forall k :: 0 <= k < n ==> !Matches(cfg, y, k)
  {
    hide Matches;
    if n > 0 { MatchedNone(cfg, y, n - 1); }
  }

  lemma RouteCounts(cfg: Config, y: Item, x: Item, i: nat)
    ensures multiset(RouteOf(cfg, y))[Msg(CAgg(i), x)] == if y == x && Goes(cfg, x, i) then 1 else 0
    ensures multiset(RouteOf(cfg, y))[Msg(CEncode, x)] == if y == x && Unclaimed(cfg, x) then 1 else 0
  {
    hide ToAggregators, Matches, Matched;
    MatchedOnce(cfg, y, cfg.aggregators, i, x);
    MatchedNone(cfg, y, cfg.aggregators);
  }

  lemma NotMade(cfg: Config, st: Stage, outs: seq<Msg>, m: Msg)
    requires Outputs(cfg, st, outs) && !MaySend(cfg, st, m.chan)
    ensures multiset(outs)[m] == 0
  {
    assert m !in outs;
  }

  /** One entry of the log: only an event taken by the router is made into events for an aggregator. */
  lemma EntryCounts(cfg: Config, e: Entry, x: Item, i: nat)
    requires EntryOk(cfg, e)
    ensures multiset(MadeBy(e))[Msg(CAgg(i), x)] == if e.Taken? && e.msg == Msg(CRoute, x) && Goes(cfg, x, i) then 1
            else 0
  {
    hide RouteOf, Goes, Unclaimed;
    match e {
      case Taken(m, o) =>
        if m.chan == CRoute {
          RouteCounts(cfg, m.item, x, i);
        } else {
          TakenOutputs(cfg, StageOf(m.chan), m.item, o);
          NotMade(cfg, StageOf(m.chan), OutsOf(o), Msg(CAgg(i), x));
        }
      case Ticked(k, outs) => NotMade(cfg, Aggregating(k), outs, Msg(CAgg(i), x));
      case Flush(k, outs) => NotMade(cfg, Aggregating(k), outs, Msg(CAgg(i), x));
    }
  }

  lemma {:induction false} AggregatorReceives(cfg: Config, log: seq<Entry>, x: Item, i: nat)
    requires LogOk(cfg, log)
    ensures MadeCount(log, Msg(CAgg(i), x)) == if Goes(cfg, x, i) then TakenCount(log, Msg(CRoute, x)) else 0
  {
    hide EntryOk, Goes, MadeBy;
    if log != [] {
      AggregatorReceives(cfg, log[..|log| - 1], x, i);
      EntryCounts(cfg, log[|log| - 1], x, i);
    }
  }

  /** How often a message was made of an event taken from channel `c`. */
  function MadeFrom(log: seq<Entry>, c: Chan, m: Msg): nat
  {
    if log == [] then 0
    else
      var e := log[|log| - 1];
      MadeFrom(log[..|log| - 1], c, m) + (if e.Taken? && e.msg.chan == c then multiset(MadeBy(e))[m] else 0)
  }

  lemma {:induction false} EncoderReceives(cfg: Config, log: seq<Entry>, x: Item)
    requires LogOk(cfg, log)
    ensures MadeFrom(log, CRoute, Msg(CEncode, x)) == if Unclaimed(cfg, x) then TakenCount(log, Msg(CRoute, x)) else 0
  {
    hide Unclaimed, RouteOf;
    if log != [] {
      var e := log[|log| - 1];
      EncoderReceives(cfg, log[..|log| - 1], x);
      assert EntryOk(cfg, e);
      if e.Taken? && e.msg.chan == CRoute { RouteCounts(cfg, e.msg.item, x, 0); }
    }
  }

  /**
   * When a run has ended: an aggregator was sent exactly the routed events it matches, as often as they were routed,
   * and the router sent the encoders exactly the routed events that no aggregator claims.
   */
  lemma RoutedEvents(cfg: Config, start: State, run: seq<Label>, x: Item, i: nat)
    requires Begins(cfg, start) && IsRun(cfg, start, run) && Reach(cfg, start, run).pc == 7
    ensures var s := Reach(cfg, start, run);
            && s.sent[Msg(CAgg(i), x)] == (if Goes(cfg, x, i) then s.sent[Msg(CRoute, x)] else 0)
            && MadeFrom(s.log, CRoute, Msg(CEncode, x)) == (if Unclaimed(cfg, x) then s.sent[Msg(CRoute, x)] else 0)
  {
    hide Reach, IsRun, Begins, Goes, Unclaimed, LogOk, Flushed, FlushIsLast, MadeFrom, Control, Kept, Delivered;
    InvBegins(cfg, start);
    RunKeeps(cfg, start, run);
    var s := Reach(cfg, start, run);
    Ended(cfg, s);
    AggregatorReceives(cfg, s.log, x, i);
    EncoderReceives(cfg, s.log, x);
    assert NothingLeft(s, Msg(CAgg(i), x)) && NothingLeft(s, Msg(CRoute, x));
  }

  lemma {:induction false} TakenIsCounted(log: seq<Entry>, k: nat)
    requires k < |log| && log[k].Taken?
    ensures TakenCount(log, log[k].msg) > 0
  {
    if k < |log| - 1 { TakenIsCounted(log[..|log| - 1], k); }
  }

  /** When a run has ended, every event an aggregator took, absorbed or not, was taken before its one flush. */
  lemma AbsorbedThenFlushed(cfg: Config, start: State, run: seq<Label>, k: nat)
    requires Begins(cfg, start) && IsRun(cfg, start, run) && Reach(cfg, start, run).pc == 7
    requires k < |Reach(cfg, start, run).log| && Reach(cfg, start, run).log[k].Taken?
    requires Reach(cfg, start, run).log[k].msg.chan.CAgg?
    ensures var log := Reach(cfg, start, run).log;
            exists p :: k < p < |log| && IsFlush(log[p], log[k].msg.chan.i)
  {
    hide Reach, IsRun, Begins, LogOk, Control, Kept, Delivered, TakenCount, MadeCount;
    InvBegins(cfg, start);
    RunKeeps(cfg, start, run);
    var s := Reach(cfg, start, run);
    Ended(cfg, s);
    var m := s.log[k].msg;
    TakenIsCounted(s.log, k);
    assert NothingLeft(s, m);
    assert InUse(cfg, m.chan);
    assert Flushed(s.log, m.chan.i);
    var p :| 0 <= p < |s.log| && IsFlush(s.log[p], m.chan.i);
    assert p < k ==> !About(s.log[k], m.chan.i);
  }
}

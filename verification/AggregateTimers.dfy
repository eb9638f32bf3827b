/** What every timer does to every bucket, told by the times of the events in it. */
module AggregateTimers {
  import opened Bytes
  import opened Aggregate
  import opened AggregateRuns
  import opened AggregateEvents
  import AggregateStore

  function Earliest(times: seq<int>): int
    requires times != []
  {
    if |times| == 1 || times[|times| - 1] < Earliest(times[..|times| - 1]) then times[|times| - 1]
    else Earliest(times[..|times| - 1])
  }

  function Latest(times: seq<int>): int
    requires times != []
  {
    if |times| == 1 || times[|times| - 1] > Latest(times[..|times| - 1]) then times[|times| - 1]
    else Latest(times[..|times| - 1])
  }

  /** A duration in milliseconds has passed between two times in nanoseconds; 0 or less switches the timer off. */
  predicate Passed(milliseconds: int, since: int, now: int)
  {
    milliseconds > 0 && now >= since + milliseconds * 1000000
  }

  /** The arrival times of the events in a key's bucket, and whether one arrived since its last export. */
  datatype Tenant = Tenant(times: seq<int>, touched: bool)

  datatype Verdict = Leaves | ExportedAndStays | Dropped | Stays

  /**
   * A bucket leaves with an export when it has had no event for the idle time, or was opened the maximal time ago.
   * Otherwise a periodic run exports it if an event arrived since its last export, and removes it if buckets are
   * reset. Otherwise it is dropped without export after the erase time without an event.
   */
  function VerdictOn(cfg: Config, t: Tenant, periodic: bool, now: int): Verdict
    requires t.times != []
  {
    if Passed(cfg.idleFlushAfter, Latest(t.times), now) || Passed(cfg.maxFlushAfter, Earliest(t.times), now) then Leaves
    else if periodic && t.touched && cfg.resetBuckets then Leaves
    else if periodic && t.touched then ExportedAndStays
    else if Passed(cfg.idleEraseAfter, Latest(t.times), now) then Dropped
    else Stays
  }

  /** When the last periodic run was, or the start. */
  function LastRun(cfg: Config, startedAt: int, calls: seq<Call>): int
  {
    if calls == [] then startedAt
    else
      var n := |calls| - 1;
      var before := LastRun(cfg, startedAt, calls[..n]);
      if calls[n].Timer? && Passed(cfg.periodicEvery, before, calls[n].now) then calls[n].now else before
  }

  /** What a key's bucket holds after the calls: the events since it last left. */
  function TenantOf(cfg: Config, startedAt: int, calls: seq<Call>, k: string): Tenant
  {
    if calls == [] then Tenant([], false)
    else
      var n := |calls| - 1;
      var before := TenantOf(cfg, startedAt, calls[..n], k);
      match calls[n]
      case Event(evt, now) => if KeyFor(cfg, evt) == Some(k) then Tenant(before.times + [now], true) else before
      case End => before
      case Timer(now) =>
        if before.times == [] then before
        else
          match VerdictOn(cfg, before, Passed(cfg.periodicEvery, LastRun(cfg, startedAt, calls[..n]), now), now)
          case Leaves => Tenant([], false)
          case Dropped => Tenant([], false)
          case ExportedAndStays => Tenant(before.times, false)
          case Stays => before
  }

  /** A bucket that holds these events. */
  predicate Holds(b: Option<Record>, t: Tenant)
  {
    if t.times == [] then b.None?
    else
      && b.Some? && b.value.firstSeen == Earliest(t.times) && b.value.lastSeen == Latest(t.times)
      && b.value.dirty == t.touched
  }

  lemma SnocTimes(times: seq<int>, now: int)
    ensures times != [] ==> Earliest(times + [now]) == (if now < Earliest(times) then now else Earliest(times))
    ensures times != [] ==> Latest(times + [now]) == (if now > Latest(times) then now else Latest(times))
    ensures Earliest([now]) == now && Latest([now]) == now
  {
    assert (times + [now])[..|times|] == times;
  }

  lemma EventHeld(b: Option<Record>, t: Tenant, d: Record, now: int)
    requires Holds(b, t) && d.firstSeen == now && d.lastSeen == now
    ensures Holds(Some(Add(b, d)), Tenant(t.times + [now], true))
  {
    hide Earliest, Latest;
    SnocTimes(t.times, now);
    if t.times == [] { Empty([now]); }
  }

  lemma FateIsVerdict(cfg: Config, r: Record, t: Tenant, periodic: bool, now: int)
    requires t.times != [] && Holds(Some(r), t)
    ensures var fate, v := FateOf(cfg, r, now, periodic), VerdictOn(cfg, t, periodic, now);
            && (Exports(fate) <==> v == Leaves || v == ExportedAndStays)
            && (Survives(fate) <==> v == ExportedAndStays || v == Stays)
            && (fate == Snapshot <==> v == ExportedAndStays)
  {
    hide Earliest, Latest;
  }

  ghost predicate Describes(cfg: Config, startedAt: int, s: State, calls: seq<Call>)
  {
    && LastRun(cfg, startedAt, calls) == (if s.lastRun.Some? then s.lastRun.value else startedAt)
    && forall k: string :: Holds(Bucket(s, k), TenantOf(cfg, startedAt, calls, k))
  }

  lemma StepDescribes(cfg: Config, startedAt: int, s: State, calls: seq<Call>, call: Call)
    requires Describes(cfg, startedAt, s, calls)
    ensures Describes(cfg, startedAt, Reach(cfg, startedAt, s, StepOf(cfg, call)), calls + [call])
  {
    hide Holds, Reach, VerdictOn, FateOf, DeltaOf, KeyFor, Add;
    var all := calls + [call];
    assert all[..|calls|] == calls && all[|calls|] == call;
    var s' := Reach(cfg, startedAt, s, StepOf(cfg, call));
    match call {
      case Event(evt, now) =>
        EventDescribes(cfg, startedAt, s, calls, evt, now);
      case Timer(now) =>
        ReachOne(cfg, startedAt, s, Tick(now));
        forall k: string ensures Holds(Bucket(s', k), TenantOf(cfg, startedAt, all, k)) {
          TimerDescribes(cfg, startedAt, s, calls, now, k);
        }
      case End => ReachOne(cfg, startedAt, s, Closing);
    }
  }

  lemma EventDescribes(cfg: Config, startedAt: int, s: State, calls: seq<Call>, evt: Aggregate.Event, now: int)
    requires Describes(cfg, startedAt, s, calls)
    ensures var s' := Reach(cfg, startedAt, s, StepOf(cfg, Call.Event(evt, now)));
            && s'.lastRun == s.lastRun
            && forall k: string :: Holds(Bucket(s', k), TenantOf(cfg, startedAt, calls + [Call.Event(evt, now)], k))
  {
    hide Holds, Reach, VerdictOn, DeltaOf, KeyFor, Add;
    var call := Call.Event(evt, now);
    var all := calls + [call];
    assert all[..|calls|] == calls && all[|calls|] == call;
    var key := KeyFor(cfg, evt);
    if key.Some? {
      var d := DeltaOf(cfg, evt, now);
      ReachOne(cfg, startedAt, s, Ingest(key.value, d));
      DeltaTimes(cfg, evt, now);
      EventHeld(Bucket(s, key.value), TenantOf(cfg, startedAt, calls, key.value), d, now);
    } else {
      ReachNone(cfg, startedAt, s);
    }
  }

  lemma DeltaTimes(cfg: Config, evt: Aggregate.Event, now: int)
    ensures DeltaOf(cfg, evt, now).firstSeen == now && DeltaOf(cfg, evt, now).lastSeen == now
  {
  }

  lemma TimerDescribes(cfg: Config, startedAt: int, s: State, calls: seq<Call>, now: int, k: string)
    requires Describes(cfg, startedAt, s, calls)
    ensures Holds(Bucket(After(cfg, startedAt, s, Tick(now)), k), TenantOf(cfg, startedAt, calls + [Timer(now)], k))
    ensures Due(cfg, startedAt, s, now) == Passed(cfg.periodicEvery, LastRun(cfg, startedAt, calls), now)
  {
    hide VerdictOn, FateOf, Earliest, Latest;
    var all := calls + [Timer(now)];
    assert all[..|calls|] == calls && all[|calls|] == Timer(now);
    var t := TenantOf(cfg, startedAt, calls, k);
    assert Holds(Bucket(s, k), t);
    if t.times != [] { FateIsVerdict(cfg, s.buckets[k], t, Due(cfg, startedAt, s, now), now); }
  }

  lemma {:induction false} RunDescribes(cfg: Config, startedAt: int, calls: seq<Call>)
    ensures Describes(cfg, startedAt, Reach(cfg, startedAt, State(map[], None), Steps(cfg, calls)), calls)
    decreases |calls|
  {
    hide Describes, StepOf, Reach;
    var start := State(map[], None);
    if calls == [] {
      NoSteps(cfg);
      ReachNone(cfg, startedAt, start);
      NothingDescribed(cfg, startedAt);
    } else {
      var n := |calls| - 1;
      var front, call := calls[..n], calls[n];
      assert calls == front + [call];
      RunDescribes(cfg, startedAt, front);
      StepsSnoc(cfg, front, call);
      ReachAppend(cfg, startedAt, start, Steps(cfg, front), StepOf(cfg, call));
      StepDescribes(cfg, startedAt, Reach(cfg, startedAt, start, Steps(cfg, front)), front, call);
    }
  }

  lemma NothingDescribed(cfg: Config, startedAt: int)
    ensures Describes(cfg, startedAt, State(map[], None), [])
  {
  }

  ghost predicate Exported(out: seq<Export>, k: string)
  {
    exists e :: e in out && e.key == k
  }

  /**
   * For every sequence of calls on a new aggregator, every timer among them and every key: a key without events since
   * it last left is not exported and has no bucket. Any other is exported, and keeps its bucket, exactly as the
   * verdict on its events says.
   */
  lemma TimersDecide(cfg: Config, startedAt: int, calls: seq<Call>, out: seq<seq<Export>>, i: nat, k: string)
    requires EmitsAll(cfg, startedAt, State(map[], None), calls, out) && i < |calls| && calls[i].Timer?
    ensures var start := State(map[], None);
            var t := TenantOf(cfg, startedAt, calls[..i], k);
            var after := Reach(cfg, startedAt, start, Steps(cfg, calls[..i + 1]));
            if t.times == [] then !Exported(out[i], k) && k !in after.buckets
            else
              var periodic := Passed(cfg.periodicEvery, LastRun(cfg, startedAt, calls[..i]), calls[i].now);
              var v := VerdictOn(cfg, t, periodic, calls[i].now);
              && (Exported(out[i], k) <==> v == Leaves || v == ExportedAndStays)
              && (k in after.buckets <==> v == ExportedAndStays || v == Stays)
  {
    hide Reach, Steps, VerdictOn, FateOf, Earliest, Latest, TenantOf;
    var start, before, now := State(map[], None), calls[..i], calls[i].now;
    var s := Reach(cfg, startedAt, start, Steps(cfg, before));
    RunDescribes(cfg, startedAt, before);
    TimerDescribes(cfg, startedAt, s, before, now, k);
    RunDescribes(cfg, startedAt, calls[..i + 1]);
    assert calls[..i + 1] == before + [calls[i]];
    assert Emits(cfg, startedAt, s, calls[i], out[i]);
    var t := TenantOf(cfg, startedAt, before, k);
    assert Holds(Bucket(s, k), t);
    var due := Due(cfg, startedAt, s, now);
    if t.times != [] { FateIsVerdict(cfg, s.buckets[k], t, due, now); }
    TenantAfter(cfg, startedAt, before, now, k);
    assert Holds(Bucket(Reach(cfg, startedAt, start, Steps(cfg, calls[..i + 1])), k),
                 TenantOf(cfg, startedAt, before + [Timer(now)], k));
    ExportedIs(cfg, s, now, due, out[i], k);
  }

  lemma TenantAfter(cfg: Config, startedAt: int, calls: seq<Call>, now: int, k: string)
    ensures var t := TenantOf(cfg, startedAt, calls, k);
            var t' := TenantOf(cfg, startedAt, calls + [Timer(now)], k);
            if t.times == [] then t' == t
            else
              var v := VerdictOn(cfg, t, Passed(cfg.periodicEvery, LastRun(cfg, startedAt, calls), now), now);
              t'.times == [] <==> v == Leaves || v == Dropped
  {
    hide VerdictOn;
    var all := calls + [Timer(now)];
    assert all[..|calls|] == calls && all[|calls|] == Timer(now);
  }

  lemma ExportedIs(cfg: Config, s: State, now: int, due: bool, out: seq<Export>, k: string)
    requires Lists(out, ExportsOf(cfg, s.buckets, now, due))
    ensures Exported(out, k) <==> k in s.buckets && Exports(FateOf(cfg, s.buckets[k], now, due))
  {
    hide FateOf;
    if Exported(out, k) {
      var e :| e in out && e.key == k;
      AggregateStore.InExports(cfg, s.buckets, now, due, e);
    }
    if k in s.buckets && Exports(FateOf(cfg, s.buckets[k], now, due)) {
      AggregateStore.InExports(cfg, s.buckets, now, due, Export(k, s.buckets[k]));
      assert Export(k, s.buckets[k]) in out;
    }
  }
}

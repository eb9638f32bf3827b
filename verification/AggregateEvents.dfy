/** The aggregator driven by its worker: calls in order are a run, and the numbers of events are conserved. */
module AggregateEvents {
  import opened Bytes
  import opened AggregateKeys
  import opened Aggregate
  import opened AggregateStore
  import opened AggregateRuns
  import opened AggregateOrder
  import opened AggregateConservation

  /** What a worker asks of its aggregator. */
  datatype Call = Event(evt: Aggregate.Event, now: int) | Timer(now: int) | End

  /** The bucket an event is absorbed into, if any. */
  function KeyFor(cfg: Config, evt: Aggregate.Event): Option<string>
  {
    if evt.control || !evt.hasFields then None
    else
      match KeyOf(KeyValues(cfg.fields, evt), cfg.aggregateMissing)
      case Err(_) => None
      case Ok(key) => Some(key)
  }

  function StepOf(cfg: Config, call: Call): seq<Step>
  {
    match call
    case Event(evt, now) => if KeyFor(cfg, evt).Some? then [Ingest(KeyFor(cfg, evt).value, DeltaOf(cfg, evt, now))]
      else []
    case Timer(now) => [Tick(now)]
    case End => [Closing]
  }

  function Steps(cfg: Config, calls: seq<Call>): seq<Step>
  {
    if calls == [] then [] else StepOf(cfg, calls[0]) + Steps(cfg, calls[1..])
  }

  lemma {:induction false} ReachAppend(cfg: Config, startedAt: int, s: State, a: seq<Step>, b: seq<Step>)
    ensures Reach(cfg, startedAt, s, a + b) == Reach(cfg, startedAt, Reach(cfg, startedAt, s, a), b)
    decreases |a|
  {
    hide After;
    if a == [] {
      Empty(b);
    } else {
      assert (a + b)[1..] == a[1..] + b;
      ReachAppend(cfg, startedAt, After(cfg, startedAt, s, a[0]), a[1..], b);
    }
  }

  lemma ReachOne(cfg: Config, startedAt: int, s: State, step: Step)
    ensures Reach(cfg, startedAt, s, [step]) == After(cfg, startedAt, s, step)
  {
    hide After;
    assert [step][1..] == [];
  }

  lemma {:induction false} StepsSnoc(cfg: Config, calls: seq<Call>, call: Call)
    ensures Steps(cfg, calls + [call]) == Steps(cfg, calls) + StepOf(cfg, call)
  {
    hide StepOf;
    if calls == [] {
      assert (calls + [call])[1..] == [];
      Empty(StepOf(cfg, call));
    } else {
      assert (calls + [call])[1..] == calls[1..] + [call];
      StepsSnoc(cfg, calls[1..], call);
      Assoc(StepOf(cfg, calls[0]), Steps(cfg, calls[1..]), StepOf(cfg, call));
    }
  }

  /** What a call in state `s` hands to the encoders: a timer what is due, the end every bucket, each once. */
  ghost predicate Emits(cfg: Config, startedAt: int, s: State, call: Call, out: seq<Export>)
  {
    match call
    case Event(_, _) => out == []
    case Timer(now) => Lists(out, ExportsOf(cfg, s.buckets, now, Due(cfg, startedAt, s, now)))
    case End => Lists(out, AllOf(s.buckets))
  }

  /** Every call emits what it does in the state that the calls before it lead to. */
  ghost predicate EmitsAll(cfg: Config, startedAt: int, s: State, calls: seq<Call>, out: seq<seq<Export>>)
  {
    && |out| == |calls|
    && forall i :: 0 <= i < |calls| ==>
         Emits(cfg, startedAt, Reach(cfg, startedAt, s, Steps(cfg, calls[..i])), calls[i], out[i])
  }

  /** One call of the aggregator is its step of a run. */
  method Serve(a: Stateful, call: Call) returns (out: seq<Export>)
    modifies a
    ensures State(a.state, a.lastPeriodicRun)
            == Reach(a.cfg, a.startedAt, old(State(a.state, a.lastPeriodicRun)), StepOf(a.cfg, call))
    ensures Emits(a.cfg, a.startedAt, old(State(a.state, a.lastPeriodicRun)), call, out)
  {
    hide Reach, FateOf, KeyOf, DeltaOf, PeriodicDue, Lists, ExportsOf, AllOf;
    out := [];
    ghost var s := State(a.state, a.lastPeriodicRun);
    match call {
      case Event(evt, now) =>
        var r := a.Process(evt, now);
        if r.Absorbed? {
          ReachOne(a.cfg, a.startedAt, s, Ingest(r.key, DeltaOf(a.cfg, evt, now)));
        } else {
          ReachNone(a.cfg, a.startedAt, s);
        }
      case Timer(now) =>
        out := a.FlushAt(now);
        ReachOne(a.cfg, a.startedAt, s, Tick(now));
      case End =>
        out := a.Close();
        ReachOne(a.cfg, a.startedAt, s, Closing);
    }
  }

  lemma ReachNone(cfg: Config, startedAt: int, s: State)
    ensures Reach(cfg, startedAt, s, []) == s
  {
  }

  /** The worker's loop: the aggregator goes where its run goes and emits what the run emits. */
  method Work(a: Stateful, calls: seq<Call>) returns (out: seq<seq<Export>>)
    modifies a
    ensures State(a.state, a.lastPeriodicRun)
            == Reach(a.cfg, a.startedAt, old(State(a.state, a.lastPeriodicRun)), Steps(a.cfg, calls))
    ensures EmitsAll(a.cfg, a.startedAt, old(State(a.state, a.lastPeriodicRun)), calls, out)
  {
    hide Reach, StepOf, Steps, Emits;
    ghost var s := State(a.state, a.lastPeriodicRun);
    out := [];
    NoSteps(a.cfg);
    ReachNone(a.cfg, a.startedAt, s);
    for i := 0 to |calls|
      invariant State(a.state, a.lastPeriodicRun) == Reach(a.cfg, a.startedAt, s, Steps(a.cfg, calls[..i]))
      invariant EmitsAll(a.cfg, a.startedAt, s, calls[..i], out)
    {
      var exported := Serve(a, calls[i]);
      EmitsSnoc(a.cfg, a.startedAt, s, calls[..i], out, calls[i], exported);
      out := out + [exported];
      assert calls[..i + 1] == calls[..i] + [calls[i]];
      StepsSnoc(a.cfg, calls[..i], calls[i]);
      ReachAppend(a.cfg, a.startedAt, s, Steps(a.cfg, calls[..i]), StepOf(a.cfg, calls[i]));
    }
    assert calls[..|calls|] == calls;
  }

  lemma EmitsSnoc(cfg: Config, startedAt: int, s: State, calls: seq<Call>, out: seq<seq<Export>>, call: Call,
                  exported: seq<Export>)
    requires EmitsAll(cfg, startedAt, s, calls, out)
    requires Emits(cfg, startedAt, Reach(cfg, startedAt, s, Steps(cfg, calls)), call, exported)
    ensures EmitsAll(cfg, startedAt, s, calls + [call], out + [exported])
  {
    hide Reach, Steps, Emits;
    var all, outs := calls + [call], out + [exported];
    forall i | 0 <= i < |all|
      ensures Emits(cfg, startedAt, Reach(cfg, startedAt, s, Steps(cfg, all[..i])), all[i], outs[i])
    {
      assert all[..i] == if i < |calls| then calls[..i] else calls;
    }
  }

  lemma NoSteps(cfg: Config)
    ensures Steps(cfg, []) == []
  {
  }

  // ---------- conservation over events ----------

  function ValueOf(spec: FieldSpec, evt: Aggregate.Event): int
  {
    var v := evt.lookup(spec);
    if v.Some? then Int64(v.value) else 0
  }

  /** The sum of a field over all events of one key. */
  function EventTotal(cfg: Config, spec: FieldSpec, calls: seq<Call>, k: string): int
  {
    if calls == [] then 0
    else
      (if calls[0].Event? && KeyFor(cfg, calls[0].evt) == Some(k) then ValueOf(spec, calls[0].evt) else 0)
      + EventTotal(cfg, spec, calls[1..], k)
  }

  predicate IsSum(cfg: Config, f: string)
  {
    !IsTime(f) && LastNamed(cfg.fields, f).Some? && LastNamed(cfg.fields, f).value.role == Merged(SumMark)
  }

  lemma IngestedAfter(cfg: Config, call: Call, rest: seq<Step>, k: string)
    ensures Ingested(StepOf(cfg, call) + rest, k)
            == (if call.Event? && KeyFor(cfg, call.evt) == Some(k) then [DeltaOf(cfg, call.evt, call.now)] else [])
               + Ingested(rest, k)
  {
    hide DeltaOf, KeyFor;
    var one := StepOf(cfg, call);
    Empty(rest);
    Empty(Ingested(rest, k));
    if one != [] { assert (one + rest)[1..] == rest; }
  }

  lemma {:induction false} IngestedTotal(cfg: Config, calls: seq<Call>, k: string, f: string)
    requires IsSum(cfg, f)
    ensures AllSums(Ingested(Steps(cfg, calls), k), f)
    ensures TotalAmount(Ingested(Steps(cfg, calls), k), f) == EventTotal(cfg, LastNamed(cfg.fields, f).value, calls, k)
  {
    hide StepOf, KeyFor, DeltaOf, LastNamed, Sums, Ingested, TotalAmount, Int64, IsTime;
    if calls == [] {
      NothingIngested(k, f);
    } else {
      var call, rest := calls[0], Steps(cfg, calls[1..]);
      IngestedTotal(cfg, calls[1..], k, f);
      IngestedAfter(cfg, call, rest, k);
      if call.Event? && KeyFor(cfg, call.evt) == Some(k) {
        var d := DeltaOf(cfg, call.evt, call.now);
        EventContributesItsNumber(cfg, call.evt, call.now, f);
        TotalAppend([d], Ingested(rest, k), f);
        TotalOne(d, f);
      } else {
        Empty(Ingested(rest, k));
      }
    }
  }

  lemma NothingIngested(k: string, f: string)
    ensures Ingested([], k) == [] && TotalAmount([], f) == 0
  {
  }

  /**
   * For every sequence of calls on a new aggregator, every key and every sum field, modulo 2^64: the total over the
   * events of that key is what left in bucket-removing exports, plus what was erased, plus what is resident.
   */
  lemma EventSumsConserved(cfg: Config, startedAt: int, calls: seq<Call>, k: string, f: string)
    requires IsSum(cfg, f)
    ensures var start, run := State(map[], None), Steps(cfg, calls);
            var resident := Bucket(Reach(cfg, startedAt, start, run), k);
            Wrap64(EventTotal(cfg, LastNamed(cfg.fields, f).value, calls, k))
            == Wrap64(TotalAmount(Taken(cfg, startedAt, start, run, k, true), f)
                      + TotalAmount(Taken(cfg, startedAt, start, run, k, false), f)
                      + (if resident.Some? then Amount(resident.value, f) else 0))
  {
    hide *;
    SumFieldIsNoTime(cfg, f);
    IngestedTotal(cfg, calls, k, f);
    SumsConserved(cfg, startedAt, Steps(cfg, calls), k, f);
  }

  lemma SumFieldIsNoTime(cfg: Config, f: string)
    requires IsSum(cfg, f)
    ensures !IsTime(f) && LastNamed(cfg.fields, f).Some?
  {
  }
}

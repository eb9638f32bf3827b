/** The records that leave an aggregator add up to the events that went in. */
module AggregateEmitted {
  import opened Bytes
  import opened Aggregate
  import opened AggregateRuns
  import opened AggregateOrder
  import opened AggregateConservation
  import opened AggregateEvents

  /** The records of one key in a list of exports. */
  function OfKey(out: seq<Export>, k: string): seq<Record>
  {
    if out == [] then [] else (if out[0].key == k then [out[0].record] else []) + OfKey(out[1..], k)
  }

  function Emitted(out: seq<seq<Export>>, k: string): seq<Record>
  {
    if out == [] then [] else OfKey(out[0], k) + Emitted(out[1..], k)
  }

  lemma {:induction false} OfKeyOnce(out: seq<Export>, k: string, r: Record)
    requires forall i, j :: 0 <= i < j < |out| ==> out[i] != out[j]
    requires forall i :: 0 <= i < |out| && out[i].key == k ==> out[i] == Export(k, r)
    ensures OfKey(out, k) == if Export(k, r) in out then [r] else []
  {
    if out != [] {
      OfKeyOnce(out[1..], k, r);
      if out[0].key == k { assert forall i :: 0 <= i < |out[1..]| ==> out[1..][i] == out[i + 1]; }
    }
  }

  lemma {:induction false} OfKeyNone(out: seq<Export>, k: string)
    requires forall i :: 0 <= i < |out| ==> out[i].key != k
    ensures OfKey(out, k) == []
  {
    if out != [] { OfKeyNone(out[1..], k); }
  }

  lemma ListedOfKey(out: seq<Export>, wanted: set<Export>, buckets: Buckets, k: string)
    requires Lists(out, wanted)
    requires forall e :: e in wanted ==> e.key in buckets && e.record == buckets[e.key]
    ensures OfKey(out, k) == if k in buckets && Export(k, buckets[k]) in wanted then [buckets[k]] else []
  {
    if k in buckets {
      assert forall i :: 0 <= i < |out| ==> out[i] in wanted;
      OfKeyOnce(out, k, buckets[k]);
    } else {
      forall i | 0 <= i < |out| ensures out[i].key != k { assert out[i] in wanted; }
      OfKeyNone(out, k);
    }
  }

  // ---------- one call ----------

  /** A bucket of `k` that a step exports and keeps. */
  function Kept(cfg: Config, startedAt: int, s: State, step: Step, k: string): seq<Record>
  {
    if step.Tick? && k in s.buckets && FateOf(cfg, s.buckets[k], step.now, Due(cfg, startedAt, s, step.now)) == Snapshot
    then [s.buckets[k]] else []
  }

  /** The buckets of `k` that a run exports and keeps: periodic exports without a reset. */
  function Snapshots(cfg: Config, startedAt: int, s: State, run: seq<Step>, k: string): seq<Record>
    decreases |run|
  {
    if run == [] then []
    else Kept(cfg, startedAt, s, run[0], k) + Snapshots(cfg, startedAt, After(cfg, startedAt, s, run[0]), run[1..], k)
  }

  function TakenNow(cfg: Config, startedAt: int, s: State, step: Step, k: string): seq<Record>
  {
    var gone := Removed(cfg, startedAt, s, step, k);
    if gone != [] && Exports(FateOf(cfg, gone[0], step.now, Due(cfg, startedAt, s, step.now))) then gone else []
  }

  /** A timer emits for `k` what it takes or what it keeps. */
  lemma TimerEmits(cfg: Config, startedAt: int, s: State, now: int, out: seq<Export>, k: string)
    requires Emits(cfg, startedAt, s, Timer(now), out)
    ensures OfKey(out, k) == TakenNow(cfg, startedAt, s, Tick(now), k) + Kept(cfg, startedAt, s, Tick(now), k)
  {
    hide OfKey, Due;
    ListedOfKey(out, ExportsOf(cfg, s.buckets, now, Due(cfg, startedAt, s, now)), s.buckets, k);
  }

  lemma EndEmits(cfg: Config, startedAt: int, s: State, out: seq<Export>, k: string)
    requires Emits(cfg, startedAt, s, End, out)
    ensures OfKey(out, k) == if k in s.buckets then [s.buckets[k]] else []
  {
    hide OfKey;
    ListedOfKey(out, AllOf(s.buckets), s.buckets, k);
  }

  // ---------- a run ----------

  lemma StepsCons(cfg: Config, startedAt: int, s: State, calls: seq<Call>, i: nat)
    requires calls != [] && i < |calls|
    ensures Reach(cfg, startedAt, s, Steps(cfg, calls[..i + 1]))
            == Reach(cfg, startedAt, Reach(cfg, startedAt, s, StepOf(cfg, calls[0])), Steps(cfg, calls[1..][..i]))
  {
    hide StepOf, Reach;
    assert calls[..i + 1][1..] == calls[1..][..i];
    ReachAppend(cfg, startedAt, s, StepOf(cfg, calls[0]), Steps(cfg, calls[1..][..i]));
  }

  lemma EmitsTail(cfg: Config, startedAt: int, s: State, calls: seq<Call>, out: seq<seq<Export>>)
    requires calls != [] && EmitsAll(cfg, startedAt, s, calls, out)
    ensures |out| == |calls| && Emits(cfg, startedAt, s, calls[0], out[0])
    ensures EmitsAll(cfg, startedAt, Reach(cfg, startedAt, s, StepOf(cfg, calls[0])), calls[1..], out[1..])
  {
    hide Reach, Steps, StepOf, Emits;
    assert calls[..0] == [];
    NoSteps(cfg);
    ReachNone(cfg, startedAt, s);
    var s' := Reach(cfg, startedAt, s, StepOf(cfg, calls[0]));
    forall i | 0 <= i < |calls[1..]|
      ensures Emits(cfg, startedAt, Reach(cfg, startedAt, s', Steps(cfg, calls[1..][..i])), calls[1..][i], out[1..][i])
    {
      StepsCons(cfg, startedAt, s, calls, i);
    }
  }

  lemma TakenCons(cfg: Config, startedAt: int, s: State, step: Step, rest: seq<Step>, k: string)
    ensures var s' := After(cfg, startedAt, s, step);
            && Taken(cfg, startedAt, s, [step] + rest, k, true)
               == TakenNow(cfg, startedAt, s, step, k) + Taken(cfg, startedAt, s', rest, k, true)
            && Snapshots(cfg, startedAt, s, [step] + rest, k)
               == Kept(cfg, startedAt, s, step, k) + Snapshots(cfg, startedAt, s', rest, k)
  {
    hide After, FateOf, Due;
    assert ([step] + rest)[1..] == rest;
  }

  lemma QuietStep(cfg: Config, startedAt: int, s: State, step: Step, k: string)
    requires !step.Tick?
    ensures TakenNow(cfg, startedAt, s, step, k) == [] && Kept(cfg, startedAt, s, step, k) == []
  {
  }

  /** Before the end: what was emitted for a key is what was taken and what was kept. */
  lemma {:induction false} EmittedTotal(cfg: Config, startedAt: int, s: State, calls: seq<Call>, out: seq<seq<Export>>,
                                        k: string, f: string)
    requires EmitsAll(cfg, startedAt, s, calls, out) && forall i :: 0 <= i < |calls| ==> !calls[i].End?
    ensures TotalAmount(Emitted(out, k), f)
            == TotalAmount(Taken(cfg, startedAt, s, Steps(cfg, calls), k, true), f)
               + TotalAmount(Snapshots(cfg, startedAt, s, Steps(cfg, calls), k), f)
    decreases |calls|
  {
    hide EmitsAll, Emits, Reach, After, TotalAmount, Taken, Snapshots, TakenNow, Kept, OfKey, KeyFor, DeltaOf;
    if calls == [] {
      NothingTotal(cfg, startedAt, s, out, k, f);
    } else {
      var call, rest := calls[0], Steps(cfg, calls[1..]);
      EmitsTail(cfg, startedAt, s, calls, out);
      var s' := Reach(cfg, startedAt, s, StepOf(cfg, call));
      EmittedTotal(cfg, startedAt, s', calls[1..], out[1..], k, f);
      TotalAppend(OfKey(out[0], k), Emitted(out[1..], k), f);
      if StepOf(cfg, call) == [] {
        ReachNone(cfg, startedAt, s);
        Empty(rest);
        NoneEmitted(cfg, startedAt, s, call, out[0], k, f);
      } else {
        var step := StepOf(cfg, call)[0];
        assert StepOf(cfg, call) == [step];
        ReachOne(cfg, startedAt, s, step);
        TakenCons(cfg, startedAt, s, step, rest, k);
        TotalAppend(TakenNow(cfg, startedAt, s, step, k), Taken(cfg, startedAt, s', rest, k, true), f);
        TotalAppend(Kept(cfg, startedAt, s, step, k), Snapshots(cfg, startedAt, s', rest, k), f);
        OneEmitted(cfg, startedAt, s, call, out[0], k, f);
      }
    }
  }

  lemma NothingTotal(cfg: Config, startedAt: int, s: State, out: seq<seq<Export>>, k: string, f: string)
    requires EmitsAll(cfg, startedAt, s, [], out)
    ensures out == [] && TotalAmount(Emitted(out, k), f) == 0
    ensures Taken(cfg, startedAt, s, [], k, true) == [] && Snapshots(cfg, startedAt, s, [], k) == []
    ensures TotalAmount([], f) == 0
  {
  }

  lemma NoneEmitted(cfg: Config, startedAt: int, s: State, call: Call, out: seq<Export>, k: string, f: string)
    requires call.Event? && Emits(cfg, startedAt, s, call, out)
    ensures OfKey(out, k) == [] && TotalAmount(OfKey(out, k), f) == 0
  {
  }

  lemma OneEmitted(cfg: Config, startedAt: int, s: State, call: Call, out: seq<Export>, k: string, f: string)
    requires !call.End? && StepOf(cfg, call) != [] && Emits(cfg, startedAt, s, call, out)
    ensures var step := StepOf(cfg, call)[0];
            TotalAmount(OfKey(out, k), f)
            == TotalAmount(TakenNow(cfg, startedAt, s, step, k), f) + TotalAmount(Kept(cfg, startedAt, s, step, k), f)
  {
    hide Emits, TotalAmount, TakenNow, Kept, OfKey, KeyFor, DeltaOf;
    var step := StepOf(cfg, call)[0];
    if call.Timer? {
      TimerEmits(cfg, startedAt, s, call.now, out, k);
      TotalAppend(TakenNow(cfg, startedAt, s, step, k), Kept(cfg, startedAt, s, step, k), f);
    } else {
      NoneEmitted(cfg, startedAt, s, call, out, k, f);
      QuietStep(cfg, startedAt, s, step, k);
    }
  }

  lemma {:induction false} EmittedSnoc(out: seq<seq<Export>>, last: seq<Export>, k: string)
    ensures Emitted(out + [last], k) == Emitted(out, k) + OfKey(last, k)
  {
    hide OfKey;
    if out == [] {
      assert (out + [last])[1..] == [];
      Empty(OfKey(last, k));
    } else {
      assert (out + [last])[1..] == out[1..] + [last];
      EmittedSnoc(out[1..], last, k);
      Assoc(OfKey(out[0], k), Emitted(out[1..], k), OfKey(last, k));
    }
  }

  lemma {:induction false} NoSnapshots(cfg: Config, startedAt: int, s: State, run: seq<Step>, k: string)
    requires cfg.resetBuckets || cfg.periodicEvery <= 0
    ensures Snapshots(cfg, startedAt, s, run, k) == []
    decreases |run|
  {
    hide After;
    if run != [] { NoSnapshots(cfg, startedAt, After(cfg, startedAt, s, run[0]), run[1..], k); }
  }

  lemma {:induction false} NoneErased(cfg: Config, startedAt: int, s: State, run: seq<Step>, k: string)
    requires cfg.idleEraseAfter <= 0
    ensures Taken(cfg, startedAt, s, run, k, false) == []
    decreases |run|
  {
    hide After;
    if run != [] { NoneErased(cfg, startedAt, After(cfg, startedAt, s, run[0]), run[1..], k); }
  }

  lemma EmitsLast(cfg: Config, startedAt: int, s: State, calls: seq<Call>, call: Call, out: seq<seq<Export>>)
    requires EmitsAll(cfg, startedAt, s, calls + [call], out)
    ensures var n := |calls|;
            && |out| == n + 1 && EmitsAll(cfg, startedAt, s, calls, out[..n])
            && Emits(cfg, startedAt, Reach(cfg, startedAt, s, Steps(cfg, calls)), call, out[n])
  {
    hide Emits, Reach, Steps;
    var all, n := calls + [call], |calls|;
    assert all[..n] == calls && all[n] == call;
    forall i | 0 <= i < n
      ensures Emits(cfg, startedAt, Reach(cfg, startedAt, s, Steps(cfg, calls[..i])), calls[i], out[..n][i])
    {
      assert all[..i] == calls[..i] && all[i] == calls[i];
    }
  }

  lemma ResidentEmitted(cfg: Config, startedAt: int, s: State, out: seq<Export>, k: string, f: string)
    requires Emits(cfg, startedAt, s, End, out)
    ensures TotalAmount(OfKey(out, k), f) == if Bucket(s, k).Some? then Amount(Bucket(s, k).value, f) else 0
  {
    hide OfKey, Amount, Emits;
    EndEmits(cfg, startedAt, s, out, k);
    if k in s.buckets { TotalOne(s.buckets[k], f); } else { TotalNone([], f); }
  }

  /**
   * For any calls on a new aggregator that finish with the end, every key and every sum field, modulo 2^64: the total
   * over the events of that key, counted again for each export that kept its bucket, is the total over the records
   * emitted for that key plus what was erased without export. With buckets reset, or no periodic export, nothing is
   * counted again; without silent erasure nothing is lost.
   */
  lemma EmittedConserved(cfg: Config, startedAt: int, calls: seq<Call>, out: seq<seq<Export>>, k: string, f: string)
    requires IsSum(cfg, f) && forall i :: 0 <= i < |calls| ==> !calls[i].End?
    requires EmitsAll(cfg, startedAt, State(map[], None), calls + [End], out)
    ensures var start, run := State(map[], None), Steps(cfg, calls);
            var total := EventTotal(cfg, LastNamed(cfg.fields, f).value, calls, k);
            var again := TotalAmount(Snapshots(cfg, startedAt, start, run, k), f);
            var erased := TotalAmount(Taken(cfg, startedAt, start, run, k, false), f);
            && Wrap64(total + again) == Wrap64(TotalAmount(Emitted(out, k), f) + erased)
            && (cfg.resetBuckets || cfg.periodicEvery <= 0 ==> again == 0)
            && (cfg.idleEraseAfter <= 0 ==> erased == 0)
  {
    hide *;
    SumFieldIsNoTime(cfg, f);
    var start, run, n := State(map[], None), Steps(cfg, calls), |calls|;
    var total := EventTotal(cfg, LastNamed(cfg.fields, f).value, calls, k);
    var again := Snapshots(cfg, startedAt, start, run, k);
    EmitsLast(cfg, startedAt, start, calls, End, out);
    EmittedTotal(cfg, startedAt, start, calls, out[..n], k, f);
    EmittedSnoc(out[..n], out[n], k);
    assert out == out[..n] + [out[n]];
    TotalAppend(Emitted(out[..n], k), OfKey(out[n], k), f);
    ResidentEmitted(cfg, startedAt, Reach(cfg, startedAt, start, run), out[n], k, f);
    EventSumsConserved(cfg, startedAt, calls, k, f);
    WrapWrap(total, TotalAmount(again, f));
    var exported := Taken(cfg, startedAt, start, run, k, true);
    var erased := Taken(cfg, startedAt, start, run, k, false);
    var resident := Bucket(Reach(cfg, startedAt, start, run), k);
    WrapWrap(TotalAmount(exported, f) + TotalAmount(erased, f)
             + (if resident.Some? then Amount(resident.value, f) else 0), TotalAmount(again, f));
    TotalNone([], f);
    if cfg.resetBuckets || cfg.periodicEvery <= 0 { NoSnapshots(cfg, startedAt, start, run, k); }
    if cfg.idleEraseAfter <= 0 { NoneErased(cfg, startedAt, start, run, k); }
  }
}

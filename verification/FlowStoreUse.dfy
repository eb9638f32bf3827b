/**
 * A store used by calls in order makes a run, so what is proved of runs holds of the store and of the events it fires.
 */
module FlowStoreUse {
  import opened Bytes
  import opened Fifo
  import opened FlowStoreRuns
  import FlowStore

  method Serve<K(==, !new), V>(store: FlowStore.Store<K, V>, op: Op<K, V>) returns (ghost events: seq<Event<K, V>>)
    requires store.Valid()
    modifies store
    ensures store.Valid() && store.fired == old(store.fired) + events
    ensures StepTo(store.cfg, store.zero, old(store.Contents()), op, store.Contents(), events)
  {
    hide Write, Get, Delete, Sweep, Swept, Deletes, FlowStore.View, FlowStore.NoDup, FlowStore.Covers;
    ghost var before := store.fired;
    match op {
      case WriteOp(key, delta, update, mutate, opts, now, hook) =>
        var _, _ := store.Write(key, delta, update, mutate, opts, now, hook);
      case GetOp(key, now, hook, quiet) =>
        var _ := store.Get(key, now, hook, quiet);
      case DeleteOp(key) =>
        var _ := store.Delete(key);
      case SweepOp(now, hook) =>
        var _ := store.ExpireStale(now, hook);
      case FlushOp =>
        store.Flush();
    }
    events := store.fired[|before|..];
  }

  lemma {:induction false} RunSnoc<K, V>(cfg: Config, zero: V, s: seq<Entry<K, V>>, run: seq<Step<K, V>>,
                                         step: Step<K, V>)
    requires Run(cfg, zero, s, run) && StepTo(cfg, zero, Final(s, run), step.op, step.after, step.events)
    ensures Run(cfg, zero, s, run + [step]) && Final(s, run + [step]) == step.after
    ensures Log(run + [step]) == Log(run) + step.events
    decreases |run|
  {
    hide StepTo;
    var all := run + [step];
    if run == [] {
      assert all[1..] == [];
      Empty(step.events);
    } else {
      assert all[1..] == run[1..] + [step] && all[0] == run[0];
      RunSnoc(cfg, zero, run[0].after, run[1..], step);
      Assoc(run[0].events, Log(run[1..]), step.events);
    }
  }

  /** Calls in order: the contents and the fired events are those of a run of these operations. */
  method ServeAll<K(==, !new), V>(store: FlowStore.Store<K, V>, ops: seq<Op<K, V>>) returns (ghost run: seq<Step<K, V>>)
    requires store.Valid()
    modifies store
    ensures store.Valid() && Run(store.cfg, store.zero, old(store.Contents()), run)
    ensures |run| == |ops| && forall i :: 0 <= i < |ops| ==> run[i].op == ops[i]
    ensures store.Contents() == Final(old(store.Contents()), run) && store.fired == old(store.fired) + Log(run)
  {
    hide StepTo, Run, Final, Log, FlowStore.View, FlowStore.NoDup, FlowStore.Covers;
    ghost var start, before := store.Contents(), store.fired;
    run := [];
    EmptyRun(store.cfg, store.zero, start);
    Empty(before);
    for i := 0 to |ops|
      invariant store.Valid() && Run(store.cfg, store.zero, start, run)
      invariant |run| == i && forall j :: 0 <= j < i ==> run[j].op == ops[j]
      invariant store.Contents() == Final(start, run) && store.fired == before + Log(run)
    {
      var events := Serve(store, ops[i]);
      ghost var step := Step(ops[i], store.Contents(), events);
      RunSnoc(store.cfg, store.zero, start, run, step);
      Assoc(before, Log(run), events);
      run := run + [step];
    }
  }

  lemma EmptyRun<K, V>(cfg: Config, zero: V, s: seq<Entry<K, V>>)
    ensures Run(cfg, zero, s, []) && Final(s, []) == s && Log<K, V>([]) == []
  {
  }

  lemma EmptyInv<K, V>(cfg: Config)
    ensures Inv<K, V>(cfg, []) && KeySet<K, V>([]) == {}
  {
  }

  /** A new store with both listeners: what was fired tells exactly its keys and the ones quiet reads dropped. */
  method Listen<K(==, !new), V>(cfg: Config, zero: V, ops: seq<Op<K, V>>)
    returns (store: FlowStore.Store<K, V>, ghost run: seq<Step<K, V>>)
    requires cfg.onSet && cfg.onDelete
    ensures store.Valid() && Run(cfg, zero, [], run) && |run| == |ops|
    ensures forall i :: 0 <= i < |ops| ==> run[i].op == ops[i]
    ensures Inv(cfg, store.Contents()) && KeySet(store.Contents()) !! Lost(cfg, [], {}, run)
    ensures Replay({}, store.fired) == KeySet(store.Contents()) + Lost(cfg, [], {}, run)
    ensures Truthful({}, store.fired) <==> NoneReturns(cfg, [], {}, run)
  {
    hide *;
    store := new FlowStore.Store(cfg, zero);
    run := ServeAll(store, ops);
    EmptyInv<K, V>(cfg);
    LogFollowsStore(cfg, zero, [], {}, run);
    Empty(Log(run));
    assert KeySet<K, V>([]) + {} == {};
  }
}

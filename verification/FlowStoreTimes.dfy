/** How long a flow store keeps an entry: to the end of its lifetime, and through how many further writes. */
module FlowStoreTimes {
  import opened Bytes
  import opened Fifo
  import opened FlowStoreRuns
  import FlowStore

  // ---------- the end a write gives an entry ----------

  /** The end of a live entry as the hook leaves it: its own, or from now on when that has passed. */
  function EndFound<K, V>(cfg: Config, found: Entry<K, V>, now: int, hook: Hook<K, V>): Option<int>
  {
    if found.expiry.None? || now < found.expiry.value then found.expiry
    else
      var ttl := hook(found.key, found.value);
      if ttl.Some? && ttl.value > 0 then Some(now + ttl.value)
      else if cfg.defaultTTL > 0 then Some(now + cfg.defaultTTL) else None
  }

  /**
   * When the written key ends. A given lifetime counts from now, and a given one of zero or less never ends. Without
   * one, a new key lives for the default lifetime, and a live key keeps its end unless writes refresh it.
   */
  lemma WriteSetsEnd<K, V>(cfg: Config, s: seq<Entry<K, V>>, key: K, zero: V, delta: V, update: Update<V>,
                           mutate: (K, V, bool) -> V, opts: EntryOptions, now: int, hook: Hook<K, V>)
    requires Inv(cfg, s) && Write(cfg, s, key, zero, delta, update, mutate, opts, now, hook).ok
    ensures var w := Write(cfg, s, key, zero, delta, update, mutate, opts, now, hook);
            Lookup(w.entries, key).Some?
            && var end, live := Lookup(w.entries, key).value.expiry, LiveKey(cfg, s, key, now, hook);
            && (opts.ttlSet && !opts.noExpiration && opts.ttl > 0 ==> end == Some(now + opts.ttl))
            && (opts.ttlSet && (opts.noExpiration || opts.ttl <= 0) ==> end == None)
            && (!opts.ttlSet && !live && !opts.noExpiration && cfg.defaultTTL > 0 ==> end == Some(now + cfg.defaultTTL))
            && (!opts.ttlSet && !live && (opts.noExpiration || cfg.defaultTTL <= 0) ==> end == None)
            && (!opts.ttlSet && live && cfg.refreshTTL && cfg.defaultTTL > 0 ==> end == Some(now + cfg.defaultTTL))
            && (!opts.ttlSet && live && (!cfg.refreshTTL || cfg.defaultTTL <= 0)
                ==> end == EndFound(cfg, Lookup(s, key).value, now, hook))
  {
    hide Lookup, Distinct, KeySet, Replace, Remove, WriteNew;
    LookupKeys(s, key);
    RemoveKeys(s, key);
    if LiveKey(cfg, s, key, now, hook) {
      var e := Live(cfg, Lookup(s, key).value, now, hook).value;
      var expiry :=
        if opts.ttlSet then ExpiresAt(cfg, now, opts, true)
        else if cfg.refreshTTL && cfg.defaultTTL > 0 then Some(now + cfg.defaultTTL)
        else e.expiry;
      LookupReplace(s, key, mutate(key, update(e.value, delta, true).0, true), expiry, key);
    } else {
      if Lookup(s, key).None? { FlowStore.RemoveMissing(s, key); }
      NewReadsBack(cfg, Remove(s, key), key, zero, delta, update, mutate, opts, now, key);
    }
  }

  /**
   * When a key that is read ends: a read that is not quiet renews a live key where reads refresh, for the default
   * lifetime from now; a key past its end is gone, or ends as the hook asks.
   */
  lemma ReadSetsEnd<K, V>(cfg: Config, s: seq<Entry<K, V>>, key: K, now: int, hook: Hook<K, V>, quiet: bool)
    requires Lookup(s, key).Some?
    ensures var found, r := Lookup(s, key).value, Get(cfg, s, key, now, hook, quiet);
            var past, left := found.expiry.Some? && now >= found.expiry.value, Lookup(r.entries, key);
            && (left.Some? <==> !past || hook(key, found.value).Some?)
            && r.value == (if left.Some? then Some(found.value) else None)
            && (left.Some? ==>
                  left.value == Entry(key, found.value,
                                      if !past && !quiet && cfg.refreshTTLOnRead && cfg.defaultTTL > 0
                                      then Some(now + cfg.defaultTTL) else EndFound(cfg, found, now, hook)))
  {
    hide Lookup, Replace, Remove;
    LookupKeys(s, key);
    LookupRemove(s, key, key);
    var found := Lookup(s, key).value;
    LookupReplace(s, key, found.value, EndFound(cfg, found, now, hook), key);
    LookupReplace(s, key, found.value, Some(now + cfg.defaultTTL), key);
  }

  // ---------- the place of a key ----------

  /** The entries newer than that of `k`. */
  function Behind<K(==), V>(s: seq<Entry<K, V>>, k: K): nat
  {
    if s == [] then 0 else if s[0].key == k then |s| - 1 else Behind(s[1..], k)
  }

  lemma {:induction false} BehindReplace<K, V>(s: seq<Entry<K, V>>, key: K, value: V, expiry: Option<int>, k: K)
    ensures Behind(Replace(s, key, value, expiry), k) == Behind(s, k)
  {
    ReplaceKeys(s, key, value, expiry);
    if s != [] {
      BehindReplace(s[1..], key, value, expiry, k);
    }
  }

  lemma {:induction false} BehindRemove<K, V>(s: seq<Entry<K, V>>, key: K, k: K)
    requires k != key
    ensures Behind(Remove(s, key), k) <= Behind(s, k)
  {
    RemoveKeys(s, key);
    if s != [] {
      BehindRemove(s[1..], key, k);
      if s[0].key == key {
        Empty(Remove(s[1..], key));
      } else {
        assert Remove(s, key)[1..] == Remove(s[1..], key);
        RemoveKeys(s[1..], key);
      }
    }
  }

  lemma {:induction false} BehindSweep<K, V>(cfg: Config, s: seq<Entry<K, V>>, now: int, hook: Hook<K, V>, k: K)
    requires Distinct(s) && Lookup(Sweep(cfg, s, now, hook), k).Some?
    ensures Behind(Sweep(cfg, s, now, hook), k) <= Behind(s, k)
  {
    if s != [] {
      SweepKeys(cfg, s[1..], now, hook);
      SweepRemovesExactly(cfg, s, now, hook, k);
      var live := Live(cfg, s[0], now, hook);
      if live.Some? {
        assert Sweep(cfg, s, now, hook)[1..] == Sweep(cfg, s[1..], now, hook);
      }
      if s[0].key != k {
        BehindSweep(cfg, s[1..], now, hook, k);
      }
    }
  }

  lemma {:induction false} BehindAppend<K, V>(s: seq<Entry<K, V>>, e: Entry<K, V>, k: K)
    ensures Behind(s + [e], k) == if k in KeySet(s) then Behind(s, k) + 1 else 0
  {
    if s == [] {
      assert s + [e] == [e];
    } else {
      assert (s + [e])[1..] == s[1..] + [e];
      BehindAppend(s[1..], e, k);
    }
  }

  // ---------- steps that leave a key alone ----------

  predicate Past(end: Option<int>, t: int)
  {
    end.Some? && t >= end.value
  }

  /** An operation no later than `t` that neither writes, deletes nor renews the entry of `k`. */
  predicate Spares<K(==), V>(cfg: Config, op: Op<K, V>, k: K, v: V, t: int)
  {
    match op
    case WriteOp(key, _, _, _, _, _, _) => key != k
    case GetOp(key, now, hook, quiet) =>
      key == k ==> now <= t && hook(k, v).None? && (quiet || !cfg.refreshTTLOnRead || cfg.defaultTTL <= 0)
    case DeleteOp(key) => key != k
    case SweepOp(now, hook) => now <= t && hook(k, v).None?
    case FlushOp => false
  }

  /** What is left of the entry: all of it, or nothing, and then because of its end or of the writes. */
  ghost predicate Stays<K, V>(cfg: Config, s: seq<Entry<K, V>>, s': seq<Entry<K, V>>, e: Entry<K, V>, t: int,
                              writes: nat)
    requires Lookup(s, e.key) == Some(e)
  {
    && Inv(cfg, s')
    && (Lookup(s', e.key) == Some(e) ==> Behind(s', e.key) <= Behind(s, e.key) + writes)
    && (Lookup(s', e.key) != Some(e) ==>
          Lookup(s', e.key).None?
          && (Past(e.expiry, t) || 0 < cfg.maxSize <= Behind(s, e.key) + writes))
  }

  lemma NewSpares<K, V>(cfg: Config, s: seq<Entry<K, V>>, key: K, zero: V, delta: V, update: Update<V>,
                        mutate: (K, V, bool) -> V, opts: EntryOptions, now: int, e: Entry<K, V>, t: int)
    requires Inv(cfg, s) && Lookup(s, e.key) == Some(e) && key != e.key && key !in KeySet(s)
    ensures Stays(cfg, s, WriteNew(cfg, s, key, zero, delta, update, mutate, opts, now).entries, e, t, 1)
  {
    hide Distinct, KeySet, ExpiresAt, Deletes, Sets;
    NewKeepsInv(cfg, s, key, zero, delta, update, mutate, opts, now);
    NewReadsBack(cfg, s, key, zero, delta, update, mutate, opts, now, e.key);
    LookupKeys(s, e.key);
    var (value, ok) := update(zero, delta, false);
    if ok {
      var added := Entry(key, mutate(key, value, false), ExpiresAt(cfg, now, opts, false));
      var all := s + [added];
      BehindAppend(s, added, e.key);
      if Excess(cfg, |all|) == 0 {
        assert all[0..] == all;
      } else {
        assert all[0] == s[0];
      }
    }
  }

  lemma WriteSpares<K, V>(cfg: Config, s: seq<Entry<K, V>>, key: K, zero: V, delta: V, update: Update<V>,
                          mutate: (K, V, bool) -> V, opts: EntryOptions, now: int, hook: Hook<K, V>, e: Entry<K, V>,
                          t: int)
    requires Inv(cfg, s) && Lookup(s, e.key) == Some(e) && key != e.key
    ensures Stays(cfg, s, Write(cfg, s, key, zero, delta, update, mutate, opts, now, hook).entries, e, t, 1)
  {
    hide Distinct, KeySet, Lookup, Behind, Replace, Remove, WriteNew, ExpiresAt, Deletes, Sets;
    LookupKeys(s, key);
    RemoveKeys(s, key);
    WriteKeepsInv(cfg, s, key, zero, delta, update, mutate, opts, now, hook);
    if LiveKey(cfg, s, key, now, hook) {
      var found := Live(cfg, Lookup(s, key).value, now, hook).value;
      var expiry :=
        if opts.ttlSet then ExpiresAt(cfg, now, opts, true)
        else if cfg.refreshTTL && cfg.defaultTTL > 0 then Some(now + cfg.defaultTTL)
        else found.expiry;
      var (value, ok) := update(found.value, delta, true);
      var v := if ok then mutate(key, value, true) else value;
      LookupReplace(s, key, v, expiry, e.key);
      BehindReplace(s, key, v, expiry, e.key);
    } else {
      if Lookup(s, key).None? { FlowStore.RemoveMissing(s, key); }
      LookupRemove(s, key, e.key);
      BehindRemove(s, key, e.key);
      NewSpares(cfg, Remove(s, key), key, zero, delta, update, mutate, opts, now, e, t);
    }
  }

  lemma GetSpares<K, V>(cfg: Config, s: seq<Entry<K, V>>, op: Op<K, V>, e: Entry<K, V>, t: int)
    requires Inv(cfg, s) && Lookup(s, e.key) == Some(e) && op.GetOp? && Spares(cfg, op, e.key, e.value, t)
    ensures Stays(cfg, s, Get(cfg, s, op.key, op.now, op.hook, op.quiet).entries, e, t, 0)
  {
    hide Distinct, KeySet, Lookup, Behind, Replace, Remove;
    var found := Lookup(s, op.key);
    if found.Some? {
      LookupKeys(s, op.key);
      var live := Live(cfg, found.value, op.now, op.hook);
      if live.None? {
        RemoveKeys(s, op.key);
        LookupRemove(s, op.key, e.key);
        if op.key != e.key { BehindRemove(s, op.key, e.key); }
      } else {
        var expiry := if IsExpired(found.value, op.now) then live.value.expiry else Some(op.now + cfg.defaultTTL);
        ReplaceKeys(s, op.key, found.value.value, expiry);
        LookupReplace(s, op.key, found.value.value, expiry, e.key);
        BehindReplace(s, op.key, found.value.value, expiry, e.key);
      }
    }
  }

  lemma StepSpares<K, V>(cfg: Config, zero: V, s: seq<Entry<K, V>>, op: Op<K, V>, s': seq<Entry<K, V>>,
                         events: seq<Event<K, V>>, e: Entry<K, V>, t: int)
    requires Inv(cfg, s) && StepTo(cfg, zero, s, op, s', events)
    requires Lookup(s, e.key) == Some(e) && Spares(cfg, op, e.key, e.value, t)
    ensures Stays(cfg, s, s', e, t, if op.WriteOp? then 1 else 0)
  {
    hide Distinct, KeySet, Lookup, Behind, Replace, Remove, Write, Get, Sweep, Swept, Deletes;
    match op {
      case WriteOp(key, delta, update, mutate, opts, now, hook) =>
        WriteSpares(cfg, s, key, zero, delta, update, mutate, opts, now, hook, e, t);
      case GetOp(_, _, _, _) => GetSpares(cfg, s, op, e, t);
      case DeleteOp(key) =>
        RemoveKeys(s, key);
        LookupRemove(s, key, e.key);
        BehindRemove(s, key, e.key);
      case SweepOp(now, hook) =>
        SweepKeys(cfg, s, now, hook);
        SweepRemovesExactly(cfg, s, now, hook, e.key);
        if Lookup(s', e.key).Some? { BehindSweep(cfg, s, now, hook, e.key); }
    }
  }

  // ---------- runs ----------

  ghost predicate RunSpares<K, V>(cfg: Config, run: seq<Step<K, V>>, k: K, v: V, t: int)
  {
    forall i :: 0 <= i < |run| ==> Spares(cfg, run[i].op, k, v, t)
  }

  function Writes<K, V>(run: seq<Step<K, V>>): nat
  {
    if run == [] then 0 else (if run[0].op.WriteOp? then 1 else 0) + Writes(run[1..])
  }

  lemma StepGone<K, V>(cfg: Config, zero: V, s: seq<Entry<K, V>>, op: Op<K, V>, s': seq<Entry<K, V>>,
                       events: seq<Event<K, V>>, k: K, v: V, t: int)
    requires Inv(cfg, s) && StepTo(cfg, zero, s, op, s', events) && Lookup(s, k).None? && Spares(cfg, op, k, v, t)
    ensures Inv(cfg, s') && Lookup(s', k).None?
  {
    hide Distinct, KeySet, Lookup, Replace, Remove, Write, Sweep, Swept, Deletes;
    match op {
      case WriteOp(key, delta, update, mutate, opts, now, hook) =>
        WriteKeepsInv(cfg, s, key, zero, delta, update, mutate, opts, now, hook);
        WriteKeysOnly(cfg, s, key, zero, delta, update, mutate, opts, now, hook, k);
      case GetOp(key, now, hook, quiet) =>
        LookupKeys(s, key);
        RemoveKeys(s, key);
        LookupRemove(s, key, k);
        if Lookup(s, key).Some? {
          var found := Lookup(s, key).value;
          var live := Live(cfg, found, now, hook);
          var expiry := if live.Some? && IsExpired(found, now) then live.value.expiry else Some(now + cfg.defaultTTL);
          ReplaceKeys(s, key, found.value, expiry);
          LookupReplace(s, key, found.value, expiry, k);
        }
      case DeleteOp(key) =>
        RemoveKeys(s, key);
        LookupRemove(s, key, k);
      case SweepOp(now, hook) =>
        SweepKeys(cfg, s, now, hook);
        SweepRemovesExactly(cfg, s, now, hook, k);
    }
  }

  /** A write brings in no key but its own. */
  lemma WriteKeysOnly<K, V>(cfg: Config, s: seq<Entry<K, V>>, key: K, zero: V, delta: V, update: Update<V>,
                            mutate: (K, V, bool) -> V, opts: EntryOptions, now: int, hook: Hook<K, V>, k: K)
    requires Inv(cfg, s) && k != key && Lookup(s, k).None?
    ensures Lookup(Write(cfg, s, key, zero, delta, update, mutate, opts, now, hook).entries, k).None?
  {
    hide Distinct, KeySet, Lookup, Replace, Remove, WriteNew, ExpiresAt, Deletes, Sets;
    LookupKeys(s, key);
    RemoveKeys(s, key);
    if LiveKey(cfg, s, key, now, hook) {
      var found := Live(cfg, Lookup(s, key).value, now, hook).value;
      var expiry :=
        if opts.ttlSet then ExpiresAt(cfg, now, opts, true)
        else if cfg.refreshTTL && cfg.defaultTTL > 0 then Some(now + cfg.defaultTTL)
        else found.expiry;
      var (value, ok) := update(found.value, delta, true);
      LookupReplace(s, key, if ok then mutate(key, value, true) else value, expiry, k);
    } else {
      if Lookup(s, key).None? { FlowStore.RemoveMissing(s, key); }
      LookupRemove(s, key, k);
      NewReadsBack(cfg, Remove(s, key), key, zero, delta, update, mutate, opts, now, k);
      NewFails(cfg, Remove(s, key), key, zero, delta, update, mutate, opts, now);
    }
  }

  lemma NewFails<K, V>(cfg: Config, s: seq<Entry<K, V>>, key: K, zero: V, delta: V, update: Update<V>,
                       mutate: (K, V, bool) -> V, opts: EntryOptions, now: int)
    ensures var w := WriteNew(cfg, s, key, zero, delta, update, mutate, opts, now); !w.ok ==> w.entries == s
  {
  }

  lemma {:induction false} GoneStaysGone<K, V>(cfg: Config, zero: V, s: seq<Entry<K, V>>, run: seq<Step<K, V>>, k: K,
                                               v: V, t: int)
    requires Inv(cfg, s) && Run(cfg, zero, s, run) && Lookup(s, k).None? && RunSpares(cfg, run, k, v, t)
    ensures Inv(cfg, Final(s, run)) && Lookup(Final(s, run), k).None?
    decreases |run|
  {
    hide Inv, StepTo, Spares, Lookup;
    if run != [] {
      StepGone(cfg, zero, s, run[0].op, run[0].after, run[0].events, k, v, t);
      GoneStaysGone(cfg, zero, run[0].after, run[1..], k, v, t);
    }
  }

  lemma {:induction false} RunKeepsEntry<K, V>(cfg: Config, zero: V, s: seq<Entry<K, V>>, run: seq<Step<K, V>>,
                                               e: Entry<K, V>, t: int)
    requires Inv(cfg, s) && Run(cfg, zero, s, run) && Lookup(s, e.key) == Some(e)
    requires RunSpares(cfg, run, e.key, e.value, t)
    ensures Stays(cfg, s, Final(s, run), e, t, Writes(run))
    decreases |run|
  {
    hide Inv, StepTo, Spares, Lookup, Behind;
    if run != [] {
      var s' := run[0].after;
      StepSpares(cfg, zero, s, run[0].op, s', run[0].events, e, t);
      if Lookup(s', e.key) == Some(e) {
        RunKeepsEntry(cfg, zero, s', run[1..], e, t);
      } else {
        GoneStaysGone(cfg, zero, s', run[1..], e.key, e.value, t);
      }
    }
  }

  /**
   * An entry that a run leaves alone is read back until its end and not from then on, whatever else happens to the
   * store; a bounded store may let go of it earlier, but not before as many writes as there are places behind it.
   */
  lemma EntryLivesToItsEnd<K, V>(cfg: Config, zero: V, s: seq<Entry<K, V>>, run: seq<Step<K, V>>, e: Entry<K, V>,
                                 t: int, hook: Hook<K, V>, quiet: bool)
    requires Inv(cfg, s) && Run(cfg, zero, s, run) && Lookup(s, e.key) == Some(e)
    requires RunSpares(cfg, run, e.key, e.value, t) && hook(e.key, e.value).None?
    ensures var read := Get(cfg, Final(s, run), e.key, t, hook, quiet).value;
            && (read.Some? ==> read == Some(e.value) && (e.expiry.None? || t < e.expiry.value))
            && (cfg.maxSize <= 0 || Behind(s, e.key) + Writes(run) < cfg.maxSize ==>
                  (read.Some? <==> e.expiry.None? || t < e.expiry.value))
  {
    hide Inv, Run, Final, RunSpares, Lookup, Behind, Writes, Replace, Remove;
    RunKeepsEntry(cfg, zero, s, run, e, t);
  }

  /**
   * A key that is new to the store when it is written, left alone, is read back until its lifetime ends: the given
   * one, else the default one, and without either it does not end. It survives `maxSize - 1` further writes.
   */
  lemma NewKeyLives<K, V>(cfg: Config, zero: V, s: seq<Entry<K, V>>, wrote: Step<K, V>, run: seq<Step<K, V>>, t: int,
                          hook: Hook<K, V>, quiet: bool)
    requires Inv(cfg, s) && Run(cfg, zero, s, [wrote] + run)
    requires wrote.op.WriteOp? && Lookup(s, wrote.op.key).None? && wrote.op.update(zero, wrote.op.delta, false).1
    requires var v := wrote.op.mutate(wrote.op.key, wrote.op.update(zero, wrote.op.delta, false).0, false);
             RunSpares(cfg, run, wrote.op.key, v, t) && hook(wrote.op.key, v).None?
    requires cfg.maxSize <= 0 || Writes(run) < cfg.maxSize
    ensures var opts := wrote.op.opts;
            var lifetime := if opts.noExpiration then 0 else if opts.ttlSet then opts.ttl else cfg.defaultTTL;
            Get(cfg, Final(wrote.after, run), wrote.op.key, t, hook, quiet).value.Some?
            <==> lifetime <= 0 || t < wrote.op.now + lifetime
  {
    hide Inv, Lookup, Behind, Writes, Replace, Remove, Get, RunSpares, Final;
    var all := [wrote] + run;
    assert all[0] == wrote && all[1..] == run;
    var o, k := wrote.op, wrote.op.key;
    WriteKeepsInv(cfg, s, k, zero, o.delta, o.update, o.mutate, o.opts, o.now, o.hook);
    WriteReadsBack(cfg, s, k, zero, o.delta, o.update, o.mutate, o.opts, o.now, o.hook, k);
    WriteSetsEnd(cfg, s, k, zero, o.delta, o.update, o.mutate, o.opts, o.now, o.hook);
    LookupKeys(wrote.after, k);
    LastBehind(wrote.after, k);
    EntryLivesToItsEnd(cfg, zero, wrote.after, run, Lookup(wrote.after, k).value, t, hook, quiet);
  }

  lemma {:induction false} LastBehind<K, V>(s: seq<Entry<K, V>>, k: K)
    requires Distinct(s) && s != [] && Keys(s)[|s| - 1] == k
    ensures Behind(s, k) == 0
  {
    if |s| > 1 {
      KeyListed(s[1..], |s| - 2);
      LastBehind(s[1..], k);
    }
  }

  lemma {:induction false} KeyListed<K, V>(s: seq<Entry<K, V>>, i: nat)
    requires i < |s|
    ensures Keys(s)[i] in KeySet(s)
  {
    if i > 0 { KeyListed(s[1..], i - 1); }
  }
}

/** What holds of a flow store over every run, and what its event log is worth. */
module FlowStoreRuns {
  import opened Bytes
  import opened Fifo
  import FlowStore

  // ---------- key sets ----------

  lemma {:induction false} KeySetAppend<K, V>(a: seq<Entry<K, V>>, b: seq<Entry<K, V>>)
    ensures KeySet(a + b) == KeySet(a) + KeySet(b)
  {
    if a == [] {
      Empty(b);
    } else {
      assert (a + b)[1..] == a[1..] + b;
      KeySetAppend(a[1..], b);
    }
  }

  lemma {:induction false} RemoveKeys<K, V>(s: seq<Entry<K, V>>, k: K)
    ensures KeySet(Remove(s, k)) == KeySet(s) - {k}
    ensures Distinct(s) ==> Distinct(Remove(s, k))
    ensures |Remove(s, k)| <= |s|
    ensures k in KeySet(s) ==> |Remove(s, k)| < |s|
  {
    if s != [] {
      RemoveKeys(s[1..], k);
      if s[0].key == k {
        Empty(Remove(s[1..], k));
      } else {
        assert Remove(s, k)[1..] == Remove(s[1..], k);
      }
    }
  }

  lemma {:induction false} ReplaceKeys<K, V>(s: seq<Entry<K, V>>, k: K, value: V, expiry: Option<int>)
    ensures Keys(Replace(s, k, value, expiry)) == Keys(s)
    ensures KeySet(Replace(s, k, value, expiry)) == KeySet(s)
    ensures Distinct(Replace(s, k, value, expiry)) == Distinct(s) && |Replace(s, k, value, expiry)| == |s|
  {
    if s != [] {
      ReplaceKeys(s[1..], k, value, expiry);
    }
  }

  lemma {:induction false} LookupKeys<K, V>(s: seq<Entry<K, V>>, k: K)
    ensures Lookup(s, k).Some? <==> k in KeySet(s)
    ensures Lookup(s, k).Some? ==> Lookup(s, k).value.key == k
  {
    if s != [] {
      LookupKeys(s[1..], k);
    }
  }

  lemma {:induction false} DistinctAppend<K, V>(s: seq<Entry<K, V>>, e: Entry<K, V>)
    requires Distinct(s) && e.key !in KeySet(s)
    ensures Distinct(s + [e])
  {
    if s == [] {
      assert s + [e] == [e];
    } else {
      assert (s + [e])[1..] == s[1..] + [e];
      DistinctAppend(s[1..], e);
      KeySetAppend(s[1..], [e]);
    }
  }

  /** Dropping entries from the front drops exactly their keys. */
  lemma {:induction false} DropKeys<K, V>(s: seq<Entry<K, V>>, n: nat)
    requires Distinct(s) && n <= |s|
    ensures Distinct(s[n..]) && KeySet(s[n..]) == KeySet(s) - KeySet(s[..n])
  {
    if n == 0 {
      assert s[0..] == s && s[..0] == [];
    } else {
      DropKeys(s[1..], n - 1);
      assert s[1..][n - 1..] == s[n..];
      assert s[..n][1..] == s[1..][..n - 1];
      assert KeySet(s[1..]) >= KeySet(s[n..]);
    }
  }

  lemma {:induction false} SweepKeys<K, V>(cfg: Config, s: seq<Entry<K, V>>, now: int, hook: Hook<K, V>)
    requires Distinct(s)
    ensures Distinct(Sweep(cfg, s, now, hook)) && |Sweep(cfg, s, now, hook)| <= |s|
    ensures KeySet(Sweep(cfg, s, now, hook)) == KeySet(s) - KeySet(Swept(cfg, s, now, hook))
    ensures KeySet(Swept(cfg, s, now, hook)) <= KeySet(s)
  {
    if s != [] {
      SweepKeys(cfg, s[1..], now, hook);
      var live := Live(cfg, s[0], now, hook);
      if live.Some? {
        assert Sweep(cfg, s, now, hook)[1..] == Sweep(cfg, s[1..], now, hook);
      } else {
        assert Swept(cfg, s, now, hook)[1..] == Swept(cfg, s[1..], now, hook);
      }
    }
  }

  /** A sweep removes a key exactly when its entry is past its time and the hook does not extend it. */
  lemma {:induction false} SweepRemovesExactly<K, V>(cfg: Config, s: seq<Entry<K, V>>, now: int, hook: Hook<K, V>, k: K)
    requires Distinct(s)
    ensures Lookup(Sweep(cfg, s, now, hook), k)
            == if Lookup(s, k).None? then None else Live(cfg, Lookup(s, k).value, now, hook)
  {
    if s != [] {
      SweepRemovesExactly(cfg, s[1..], now, hook, k);
      LookupKeys(s[1..], k);
      var live := Live(cfg, s[0], now, hook);
      if live.Some? {
        assert Sweep(cfg, s, now, hook)[1..] == Sweep(cfg, s[1..], now, hook);
      }
    }
  }

  // ---------- one write ----------

  predicate Inv<K(==), V>(cfg: Config, s: seq<Entry<K, V>>)
  {
    Distinct(s) && (cfg.maxSize > 0 ==> |s| <= cfg.maxSize)
  }

  /** A key whose entry is live when the write reaches it. */
  predicate LiveKey<K(==), V>(cfg: Config, s: seq<Entry<K, V>>, key: K, now: int, hook: Hook<K, V>)
  {
    Lookup(s, key).Some? && Live(cfg, Lookup(s, key).value, now, hook).Some?
  }

  lemma KeysAppend<K, V>(s: seq<Entry<K, V>>, e: Entry<K, V>)
    ensures Keys(s + [e]) == Keys(s) + [e.key]
  {
    if s == [] {
      assert s + [e] == [e];
    } else {
      assert (s + [e])[1..] == s[1..] + [e];
      KeysAppend(s[1..], e);
    }
  }

  lemma {:induction false} KeysDrop<K, V>(s: seq<Entry<K, V>>, n: nat)
    requires n <= |s|
    ensures Keys(s[n..]) == Keys(s)[n..]
  {
    if n == 0 {
      assert s[0..] == s;
    } else {
      KeysDrop(s[1..], n - 1);
      assert s[1..][n - 1..] == s[n..];
    }
  }

  lemma NewKeepsInv<K, V>(cfg: Config, s: seq<Entry<K, V>>, key: K, zero: V, delta: V, update: Update<V>,
                          mutate: (K, V, bool) -> V, opts: EntryOptions, now: int)
    requires Inv(cfg, s) && key !in KeySet(s)
    ensures var w := WriteNew(cfg, s, key, zero, delta, update, mutate, opts, now);
            && Inv(cfg, w.entries)
            && (w.ok ==> Keys(w.entries) == (Keys(s) + [key])[Excess(cfg, |s| + 1)..] && Excess(cfg, |s| + 1) <= 1)
            && (w.ok ==> Keys(w.entries) != [] && Keys(w.entries)[|w.entries| - 1] == key)
  {
    var (value, ok) := update(zero, delta, false);
    if ok {
      var e := Entry(key, mutate(key, value, false), ExpiresAt(cfg, now, opts, false));
      var all, n := s + [e], Excess(cfg, |s| + 1);
      DistinctAppend(s, e);
      DropKeys(all, n);
      KeysAppend(s, e);
      KeysDrop(all, n);
    }
  }

  /**
   * A write keeps the invariant. To a live key it keeps every place in the order; otherwise the key
   * goes to the back, at most the single oldest key leaves, and the key just written stays.
   */
  lemma WriteKeepsInv<K, V>(cfg: Config, s: seq<Entry<K, V>>, key: K, zero: V, delta: V, update: Update<V>,
                            mutate: (K, V, bool) -> V, opts: EntryOptions, now: int, hook: Hook<K, V>)
    requires Inv(cfg, s)
    ensures var w := Write(cfg, s, key, zero, delta, update, mutate, opts, now, hook);
            && Inv(cfg, w.entries)
            && (LiveKey(cfg, s, key, now, hook) ==> Keys(w.entries) == Keys(s))
            && (!LiveKey(cfg, s, key, now, hook) && w.ok ==>
                  var kept := Keys(Remove(s, key)) + [key];
                  && Excess(cfg, |kept|) <= 1 && Keys(w.entries) == kept[Excess(cfg, |kept|)..]
                  && Keys(w.entries) != [] && Keys(w.entries)[|w.entries| - 1] == key)
  {
    LookupKeys(s, key);
    RemoveKeys(s, key);
    if LiveKey(cfg, s, key, now, hook) {
      ExistingKeepsKeys(cfg, s, Live(cfg, Lookup(s, key).value, now, hook).value, delta, update, mutate, opts, now);
    } else {
      if Lookup(s, key).None? { FlowStore.RemoveMissing(s, key); }
      NewKeepsInv(cfg, Remove(s, key), key, zero, delta, update, mutate, opts, now);
    }
  }

  lemma ExistingKeepsKeys<K, V>(cfg: Config, s: seq<Entry<K, V>>, e: Entry<K, V>, delta: V, update: Update<V>,
                                mutate: (K, V, bool) -> V, opts: EntryOptions, now: int)
    ensures var w := WriteExisting(cfg, s, e, delta, update, mutate, opts, now);
            && Keys(w.entries) == Keys(s) && KeySet(w.entries) == KeySet(s) && Distinct(w.entries) == Distinct(s)
            && |w.entries| == |s|
  {
    var expiry :=
      if opts.ttlSet then ExpiresAt(cfg, now, opts, true)
      else if cfg.refreshTTL && cfg.defaultTTL > 0 then Some(now + cfg.defaultTTL)
      else e.expiry;
    var (value, ok) := update(e.value, delta, true);
    var v := if ok then mutate(e.key, value, true) else value;
    ReplaceKeys(s, e.key, v, expiry);
  }

  lemma {:induction false} LookupReplace<K, V>(s: seq<Entry<K, V>>, key: K, value: V, expiry: Option<int>, k: K)
    ensures Lookup(Replace(s, key, value, expiry), k)
            == if k == key && Lookup(s, k).Some? then Some(Entry(key, value, expiry)) else Lookup(s, k)
  {
    if s != [] {
      LookupReplace(s[1..], key, value, expiry, k);
    }
  }

  lemma {:induction false} LookupRemove<K, V>(s: seq<Entry<K, V>>, key: K, k: K)
    ensures Lookup(Remove(s, key), k) == if k == key then None else Lookup(s, k)
  {
    if s != [] {
      LookupRemove(s[1..], key, k);
      if s[0].key != key { assert Remove(s, key)[1..] == Remove(s[1..], key); } else { Empty(Remove(s[1..], key)); }
    }
  }

  lemma {:induction false} LookupAppend<K, V>(s: seq<Entry<K, V>>, e: Entry<K, V>, k: K)
    requires e.key !in KeySet(s)
    ensures Lookup(s + [e], k) == if k == e.key then Some(e) else Lookup(s, k)
  {
    if s == [] {
      assert s + [e] == [e];
    } else {
      assert (s + [e])[1..] == s[1..] + [e];
      LookupAppend(s[1..], e, k);
    }
  }

  lemma LookupDropFirst<K, V>(s: seq<Entry<K, V>>, k: K)
    requires Distinct(s) && s != []
    ensures Lookup(s[1..], k) == if k == s[0].key then None else Lookup(s, k)
  {
    LookupKeys(s[1..], k);
  }

  /** A key that a write to another key may cost its place: the oldest one, when the store is full. */
  predicate Evictable<K(==), V>(cfg: Config, s: seq<Entry<K, V>>, key: K, k: K)
  {
    var rest := Remove(s, key);
    cfg.maxSize > 0 && |rest| == cfg.maxSize && rest[0].key == k
  }

  lemma NewReadsBack<K, V>(cfg: Config, s: seq<Entry<K, V>>, key: K, zero: V, delta: V, update: Update<V>,
                           mutate: (K, V, bool) -> V, opts: EntryOptions, now: int, k: K)
    requires Inv(cfg, s) && key !in KeySet(s)
    ensures var w := WriteNew(cfg, s, key, zero, delta, update, mutate, opts, now);
            w.ok ==>
              && Lookup(w.entries, key) == Some(Entry(key, mutate(key, update(zero, delta, false).0, false),
                                                      ExpiresAt(cfg, now, opts, false)))
              && (k != key ==> Lookup(w.entries, k) == if cfg.maxSize > 0 && |s| == cfg.maxSize && s[0].key == k
                  then None else Lookup(s, k))
  {
    hide Lookup, Distinct, KeySet;
    var (value, ok) := update(zero, delta, false);
    if ok {
      var e := Entry(key, mutate(key, value, false), ExpiresAt(cfg, now, opts, false));
      var all, n := s + [e], Excess(cfg, |s| + 1);
      DistinctAppend(s, e);
      LookupAppend(s, e, key);
      LookupAppend(s, e, k);
      if n == 0 {
        assert all[n..] == all;
      } else {
        assert all[0] == s[0];
        NotFirst(s, key);
        LookupDropFirst(all, key);
        LookupDropFirst(all, k);
      }
    }
  }

  lemma NotFirst<K, V>(s: seq<Entry<K, V>>, key: K)
    requires s != [] && key !in KeySet(s)
    ensures s[0].key != key
  {
  }

  /**
   * A successful write is read back: the value its update made of the live value, or of the zero value when there was
   * none; every other key keeps its entry unless it is the oldest of a full store and the written key is new.
   */
  lemma WriteReadsBack<K, V>(cfg: Config, s: seq<Entry<K, V>>, key: K, zero: V, delta: V, update: Update<V>,
                             mutate: (K, V, bool) -> V, opts: EntryOptions, now: int, hook: Hook<K, V>, k: K)
    requires Inv(cfg, s)
    ensures var w := Write(cfg, s, key, zero, delta, update, mutate, opts, now, hook);
            var live := LiveKey(cfg, s, key, now, hook);
            w.ok ==>
              && Lookup(w.entries, key).Some? && w.existed == live
              && Lookup(w.entries, key).value.value
                 == mutate(key, update(if live then Lookup(s, key).value.value else zero, delta, live).0, live)
              && (k != key ==> Lookup(w.entries, k) == if !live && Evictable(cfg, s, key, k) then None
                  else Lookup(s, k))
  {
    hide Lookup, Distinct, KeySet, Replace, Remove, WriteNew;
    LookupKeys(s, key);
    RemoveKeys(s, key);
    if LiveKey(cfg, s, key, now, hook) {
      var e := Live(cfg, Lookup(s, key).value, now, hook).value;
      var (value, ok) := update(e.value, delta, true);
      if ok {
        var expiry :=
          if opts.ttlSet then ExpiresAt(cfg, now, opts, true)
          else if cfg.refreshTTL && cfg.defaultTTL > 0 then Some(now + cfg.defaultTTL)
          else e.expiry;
        LookupReplace(s, key, mutate(key, value, true), expiry, key);
        LookupReplace(s, key, mutate(key, value, true), expiry, k);
      }
    } else {
      if Lookup(s, key).None? { FlowStore.RemoveMissing(s, key); }
      LookupRemove(s, key, k);
      NewReadsBack(cfg, Remove(s, key), key, zero, delta, update, mutate, opts, now, k);
      FlowStore.WriteNewExisted(cfg, Remove(s, key), key, zero, delta, update, mutate, opts, now);
    }
  }

  // ---------- the event log ----------

  /** What a listener that tracks the key set makes of one event. */
  function Hear<K, V>(known: set<K>, e: Event<K, V>): set<K>
  {
    match e
    case SetEvent(k, _, _) => known + {k}
    case DeleteEvent(k, _, _) => known - {k}
    case GetEvent(_, _) => known
  }

  /** The key set a listener rebuilds from an event log. */
  function Replay<K, V>(known: set<K>, log: seq<Event<K, V>>): set<K>
    decreases |log|
  {
    if log == [] then known else Replay(Hear(known, log[0]), log[1..])
  }

  /** Every Set event tells the listener truly whether it already knew the key. */
  predicate Truthful<K(==), V>(known: set<K>, log: seq<Event<K, V>>)
    decreases |log|
  {
    log == []
    || ((log[0].SetEvent? ==> log[0].existed == (log[0].key in known)) && Truthful(Hear(known, log[0]), log[1..]))
  }

  function Touched<K, V>(log: seq<Event<K, V>>): set<K>
  {
    if log == [] then {} else (if log[0].GetEvent? then {} else {log[0].key}) + Touched(log[1..])
  }

  lemma {:induction false} ReplayAppend<K, V>(known: set<K>, a: seq<Event<K, V>>, b: seq<Event<K, V>>)
    ensures Replay(known, a + b) == Replay(Replay(known, a), b)
    ensures Truthful(known, a + b) <==> Truthful(known, a) && Truthful(Replay(known, a), b)
    decreases |a|
  {
    if a == [] {
      Empty(b);
    } else {
      assert (a + b)[1..] == a[1..] + b;
      ReplayAppend(Hear(known, a[0]), a[1..], b);
    }
  }

  lemma {:induction false} ReplayDeletes<K, V>(cfg: Config, known: set<K>, s: seq<Entry<K, V>>, reason: Reason)
    requires cfg.onDelete
    ensures Replay(known, Deletes(cfg, s, reason)) == known - KeySet(s)
    ensures Truthful(known, Deletes(cfg, s, reason))
    decreases |s|
  {
    if s != [] {
      var d := DeleteEvent(s[0].key, s[0].value, reason);
      assert Deletes(cfg, s, reason)[1..] == Deletes(cfg, s[1..], reason);
      assert Deletes(cfg, s, reason)[0] == d;
      ReplayDeletes(cfg, Hear(known, d), s[1..], reason);
    }
  }

  /** Keys the listener holds beyond the store's stay with it unless an event names them. */
  lemma {:induction false} ReplayFrame<K, V>(known: set<K>, extra: set<K>, log: seq<Event<K, V>>)
    ensures Replay(known + extra, log) == Replay(known, log) + (extra - Touched(log))
    decreases |log|
  {
    if log != [] {
      var k := log[0].key;
      match log[0] {
        case SetEvent(_, _, _) =>
          assert known + extra + {k} == (known + {k}) + (extra - {k});
          ReplayFrame(known + {k}, extra - {k}, log[1..]);
          assert extra - {k} - Touched(log[1..]) == extra - Touched(log);
          assert k in Replay(known, log) || k !in extra - Touched(log);
        case DeleteEvent(_, _, _) =>
          assert known + extra - {k} == (known - {k}) + (extra - {k});
          ReplayFrame(known - {k}, extra - {k}, log[1..]);
          assert extra - {k} - Touched(log[1..]) == extra - Touched(log);
        case GetEvent(_, _) =>
          ReplayFrame(known, extra, log[1..]);
      }
    }
  }

  /** Delete events in any order remove the same keys. */
  lemma {:induction false} ReplayAllDeletes<K, V>(known: set<K>, log: seq<Event<K, V>>)
    requires forall i :: 0 <= i < |log| ==> log[i].DeleteEvent?
    ensures Replay(known, log) == known - Touched(log) && Truthful(known, log)
    decreases |log|
  {
    if log != [] {
      ReplayAllDeletes(known - {log[0].key}, log[1..]);
    }
  }

  lemma {:induction false} TouchedKeys<K, V>(log: seq<Event<K, V>>, k: K)
    ensures k in Touched(log) <==> exists i :: 0 <= i < |log| && !log[i].GetEvent? && log[i].key == k
  {
    if log != [] {
      TouchedKeys(log[1..], k);
      if i :| 0 <= i < |log| && !log[i].GetEvent? && log[i].key == k {
        if i > 0 { assert log[1..][i - 1] == log[i]; }
      }
      if i :| 0 <= i < |log[1..]| && !log[1..][i].GetEvent? && log[1..][i].key == k {
        assert log[i + 1].key == k;
      }
    }
  }

  lemma SamePermutation<K, V>(a: seq<Event<K, V>>, b: seq<Event<K, V>>)
    requires multiset(a) == multiset(b)
    ensures Touched(a) == Touched(b)
    ensures (forall i :: 0 <= i < |b| ==> b[i].DeleteEvent?) ==> forall i :: 0 <= i < |a| ==> a[i].DeleteEvent?
  {
    assert forall x :: x in a <==> x in multiset(a);
    assert forall x :: x in b <==> x in multiset(b);
    forall k | k in Touched(a) + Touched(b) ensures k in Touched(a) && k in Touched(b) {
      TouchedKeys(a, k);
      TouchedKeys(b, k);
      if i :| 0 <= i < |a| && !a[i].GetEvent? && a[i].key == k {
        assert a[i] in b;
      }
      if i :| 0 <= i < |b| && !b[i].GetEvent? && b[i].key == k {
        assert b[i] in a;
      }
    }
    forall i | 0 <= i < |a| ensures a[i] in b {
      assert a[i] in multiset(a);
    }
  }

  lemma {:induction false} DeletesTouch<K, V>(cfg: Config, s: seq<Entry<K, V>>, reason: Reason)
    requires cfg.onDelete
    ensures Touched(Deletes(cfg, s, reason)) == KeySet(s)
    ensures forall i :: 0 <= i < |Deletes(cfg, s, reason)| ==> Deletes(cfg, s, reason)[i].DeleteEvent?
  {
    if s != [] {
      DeletesTouch(cfg, s[1..], reason);
      assert Deletes(cfg, s, reason)[1..] == Deletes(cfg, s[1..], reason);
    }
  }

  // ---------- runs ----------

  datatype Op<!K, !V> =
    | WriteOp(key: K, delta: V, update: Update<V>, mutate: (K, V, bool) -> V, opts: EntryOptions, now: int,
              hook: Hook<K, V>)
    | GetOp(key: K, now: int, hook: Hook<K, V>, quiet: bool)
    | DeleteOp(key: K)
    | SweepOp(now: int, hook: Hook<K, V>)
    | FlushOp

  /** What the methods of the store guarantee of one operation. */
  ghost predicate StepTo<K, V>(cfg: Config, zero: V, s: seq<Entry<K, V>>, op: Op<K, V>, s': seq<Entry<K, V>>,
                               events: seq<Event<K, V>>)
  {
    match op
    case WriteOp(key, delta, update, mutate, opts, now, hook) =>
      var w := Write(cfg, s, key, zero, delta, update, mutate, opts, now, hook);
      s' == w.entries && events == w.events
    case GetOp(key, now, hook, quiet) =>
      var r := Get(cfg, s, key, now, hook, quiet);
      s' == r.entries && events == r.events
    case DeleteOp(key) =>
      var r := Delete(cfg, s, key);
      s' == r.entries && events == r.events
    case SweepOp(now, hook) =>
      s' == Sweep(cfg, s, now, hook) && events == Deletes(cfg, Swept(cfg, s, now, hook), Expired)
    case FlushOp =>
      s' == [] && multiset(events) == multiset(Deletes(cfg, s, Flushed))
  }

  /** The keys a quiet read drops behind the listener's back. */
  ghost function Dropped<K, V>(cfg: Config, s: seq<Entry<K, V>>, op: Op<K, V>): set<K>
  {
    if op.GetOp? && op.quiet && Lookup(s, op.key).Some? && !LiveKey(cfg, s, op.key, op.now, op.hook) then {op.key}
      else {}
  }

  lemma DropStep<K, V>(cfg: Config, s: seq<Entry<K, V>>, key: K, reason: Reason)
    requires Inv(cfg, s) && cfg.onDelete && Lookup(s, key).Some?
    ensures Inv(cfg, Remove(s, key)) && key !in KeySet(Remove(s, key)) && KeySet(s) == KeySet(Remove(s, key)) + {key}
    ensures var events := Deletes(cfg, [Lookup(s, key).value], reason);
            Replay(KeySet(s), events) == KeySet(Remove(s, key)) && Truthful(KeySet(s), events)
  {
    LookupKeys(s, key);
    RemoveKeys(s, key);
    var found := Lookup(s, key).value;
    ReplayDeletes(cfg, KeySet(s), [found], reason);
    assert [found][1..] == [];
    assert KeySet([found]) == {key};
  }

  lemma QuietEvents<K, V>(known: set<K>, events: seq<Event<K, V>>)
    requires events == [] || (|events| == 1 && events[0].GetEvent?)
    ensures Replay(known, events) == known && Truthful(known, events)
  {
  }

  lemma GetStep<K, V>(cfg: Config, s: seq<Entry<K, V>>, key: K, now: int, hook: Hook<K, V>, quiet: bool)
    requires Inv(cfg, s) && cfg.onDelete
    ensures var r, dropped := Get(cfg, s, key, now, hook, quiet), Dropped(cfg, s, GetOp(key, now, hook, quiet));
            && Inv(cfg, r.entries) && Truthful(KeySet(s), r.events)
            && Replay(KeySet(s), r.events) == KeySet(r.entries) + dropped && KeySet(r.entries) !! dropped
  {
    hide Replay, Truthful, KeySet, Distinct, Replace, Remove, Lookup, Keys;
    var r := Get(cfg, s, key, now, hook, quiet);
    var found := Lookup(s, key);
    if found.None? {
      QuietEvents(KeySet(s), r.events);
    } else {
      LookupKeys(s, key);
      if IsExpired(found.value, now) {
        var live := Live(cfg, found.value, now, hook);
        if live.Some? {
          ReplaceKeys(s, key, live.value.value, live.value.expiry);
          QuietEvents(KeySet(s), r.events);
        } else {
          DropStep(cfg, s, key, Expired);
          if quiet { QuietEvents(KeySet(s), r.events); }
        }
      } else {
        ReplaceKeys(s, key, found.value.value, Some(now + cfg.defaultTTL));
        QuietEvents(KeySet(s), r.events);
      }
    }
  }

  lemma SetStep<K, V>(cfg: Config, known: set<K>, key: K, value: V, existed: bool)
    requires cfg.onSet && existed == (key in known)
    ensures Replay(known, Sets(cfg, key, value, existed)) == known + {key}
    ensures Truthful(known, Sets(cfg, key, value, existed))
  {
    assert Sets(cfg, key, value, existed)[1..] == [];
  }

  lemma NewStep<K, V>(cfg: Config, s: seq<Entry<K, V>>, key: K, zero: V, delta: V, update: Update<V>,
                      mutate: (K, V, bool) -> V, opts: EntryOptions, now: int)
    requires Inv(cfg, s) && key !in KeySet(s) && cfg.onSet && cfg.onDelete
    ensures var w := WriteNew(cfg, s, key, zero, delta, update, mutate, opts, now);
            Replay(KeySet(s), w.events) == KeySet(w.entries) && Truthful(KeySet(s), w.events)
  {
    hide Replay, Truthful, KeySet, Distinct, Deletes, Sets;
    var (value, ok) := update(zero, delta, false);
    if !ok {
      QuietEvents<K, V>(KeySet(s), []);
    } else {
      var e := Entry(key, mutate(key, value, false), ExpiresAt(cfg, now, opts, false));
      var all, n := s + [e], Excess(cfg, |s| + 1);
      DistinctAppend(s, e);
      DropKeys(all, n);
      OneKey(s, e);
      DropKeys(s, n);
      assert all[..n] == s[..n];
      var known := KeySet(s) - KeySet(s[..n]);
      ReplayDeletes(cfg, KeySet(s), s[..n], Evicted);
      SetStep(cfg, known, key, value, false);
      ReplayAppend(KeySet(s), Deletes(cfg, s[..n], Evicted), Sets(cfg, key, value, false));
      TakeKeys(s, n);
    }
  }

  lemma OneKey<K, V>(s: seq<Entry<K, V>>, e: Entry<K, V>)
    ensures KeySet(s + [e]) == KeySet(s) + {e.key}
  {
    KeySetAppend(s, [e]);
    assert [e][1..] == [];
  }

  lemma TakeKeys<K, V>(s: seq<Entry<K, V>>, n: nat)
    requires n <= |s|
    ensures KeySet(s[..n]) <= KeySet(s)
  {
    KeySetAppend(s[..n], s[n..]);
    assert s == s[..n] + s[n..];
  }

  lemma WriteStep<K, V>(cfg: Config, s: seq<Entry<K, V>>, key: K, zero: V, delta: V, update: Update<V>,
                        mutate: (K, V, bool) -> V, opts: EntryOptions, now: int, hook: Hook<K, V>)
    requires Inv(cfg, s) && cfg.onSet && cfg.onDelete
    ensures var w := Write(cfg, s, key, zero, delta, update, mutate, opts, now, hook);
            && Inv(cfg, w.entries)
            && Replay(KeySet(s), w.events) == KeySet(w.entries) && Truthful(KeySet(s), w.events)
  {
    hide Replay, Truthful, KeySet, Distinct, Replace, Remove, Lookup, Keys, WriteNew, Sets, Deletes;
    WriteKeepsInv(cfg, s, key, zero, delta, update, mutate, opts, now, hook);
    LookupKeys(s, key);
    var found := Lookup(s, key);
    if found.None? {
      NewStep(cfg, s, key, zero, delta, update, mutate, opts, now);
    } else {
      var live := Live(cfg, found.value, now, hook);
      if live.Some? {
        ExistingKeepsKeys(cfg, s, live.value, delta, update, mutate, opts, now);
        var (value, ok) := update(live.value.value, delta, true);
        if ok { SetStep(cfg, KeySet(s), key, mutate(key, value, true), true); }
          else { QuietEvents<K, V>(KeySet(s), []); }
      } else {
        DropStep(cfg, s, key, Expired);
        var rest := Remove(s, key);
        NewStep(cfg, rest, key, zero, delta, update, mutate, opts, now);
        var w := WriteNew(cfg, rest, key, zero, delta, update, mutate, opts, now);
        ReplayAppend(KeySet(s), Deletes(cfg, [found.value], Expired), w.events);
      }
    }
  }

  lemma DeleteStep<K, V>(cfg: Config, s: seq<Entry<K, V>>, key: K)
    requires Inv(cfg, s) && cfg.onDelete
    ensures var r := Delete(cfg, s, key);
            && Inv(cfg, r.entries)
            && Replay(KeySet(s), r.events) == KeySet(r.entries) && Truthful(KeySet(s), r.events)
  {
    if Lookup(s, key).Some? { DropStep(cfg, s, key, Explicit); }
  }

  lemma SweepStep<K, V>(cfg: Config, s: seq<Entry<K, V>>, now: int, hook: Hook<K, V>)
    requires Inv(cfg, s) && cfg.onDelete
    ensures var events := Deletes(cfg, Swept(cfg, s, now, hook), Expired);
            && Inv(cfg, Sweep(cfg, s, now, hook))
            && Replay(KeySet(s), events) == KeySet(Sweep(cfg, s, now, hook)) && Truthful(KeySet(s), events)
  {
    SweepKeys(cfg, s, now, hook);
    ReplayDeletes(cfg, KeySet(s), Swept(cfg, s, now, hook), Expired);
  }

  lemma FlushStep<K, V>(cfg: Config, s: seq<Entry<K, V>>, events: seq<Event<K, V>>)
    requires cfg.onDelete && multiset(events) == multiset(Deletes(cfg, s, Flushed))
    ensures Replay(KeySet(s), events) == {} && Truthful(KeySet(s), events)
  {
    DeletesTouch(cfg, s, Flushed);
    SamePermutation(events, Deletes(cfg, s, Flushed));
    ReplayAllDeletes(KeySet(s), events);
  }

  /** One operation: the invariant is kept, and the log follows the key set up to what a quiet read drops. */
  lemma StepKeeps<K, V>(cfg: Config, zero: V, s: seq<Entry<K, V>>, op: Op<K, V>, s': seq<Entry<K, V>>,
                        events: seq<Event<K, V>>)
    requires Inv(cfg, s) && cfg.onSet && cfg.onDelete && StepTo(cfg, zero, s, op, s', events)
    ensures Inv(cfg, s') && Truthful(KeySet(s), events)
    ensures Replay(KeySet(s), events) == KeySet(s') + Dropped(cfg, s, op) && KeySet(s') !! Dropped(cfg, s, op)
  {
    hide Replay, Truthful, Write, Get, Delete, Sweep, Swept, Deletes;
    match op {
      case WriteOp(key, delta, update, mutate, opts, now, hook) =>
        WriteStep(cfg, s, key, zero, delta, update, mutate, opts, now, hook);
      case GetOp(key, now, hook, quiet) => GetStep(cfg, s, key, now, hook, quiet);
      case DeleteOp(key) => DeleteStep(cfg, s, key);
      case SweepOp(now, hook) => SweepStep(cfg, s, now, hook);
      case FlushOp => FlushStep(cfg, s, events);
    }
  }

  datatype Step<!K, !V> = Step(op: Op<K, V>, after: seq<Entry<K, V>>, events: seq<Event<K, V>>)

  ghost predicate Run<K, V>(cfg: Config, zero: V, s: seq<Entry<K, V>>, run: seq<Step<K, V>>)
    decreases |run|
  {
    run == []
    || (StepTo(cfg, zero, s, run[0].op, run[0].after, run[0].events) && Run(cfg, zero, run[0].after, run[1..]))
  }

  ghost function Final<K, V>(s: seq<Entry<K, V>>, run: seq<Step<K, V>>): seq<Entry<K, V>>
  {
    if run == [] then s else run[|run| - 1].after
  }

  ghost function Log<K, V>(run: seq<Step<K, V>>): seq<Event<K, V>>
  {
    if run == [] then [] else run[0].events + Log(run[1..])
  }

  /** The keys that went without an event and that no event has named since. */
  ghost function Lost<K, V>(cfg: Config, s: seq<Entry<K, V>>, lost: set<K>, run: seq<Step<K, V>>): set<K>
    decreases |run|
  {
    if run == [] then lost
    else Lost(cfg, run[0].after, (lost - Touched(run[0].events)) + Dropped(cfg, s, run[0].op), run[1..])
  }

  /** No event sets a key that is lost at that point. */
  predicate SetsNone<K(==), V>(lost: set<K>, events: seq<Event<K, V>>)
    decreases |events|
  {
    events == []
    || ((events[0].SetEvent? ==> events[0].key !in lost)
        && SetsNone(if events[0].GetEvent? then lost else lost - {events[0].key}, events[1..]))
  }

  ghost predicate NoneReturns<K, V>(cfg: Config, s: seq<Entry<K, V>>, lost: set<K>, run: seq<Step<K, V>>)
    decreases |run|
  {
    run == []
    || (SetsNone(lost, run[0].events)
        && NoneReturns(cfg, run[0].after, (lost - Touched(run[0].events)) + Dropped(cfg, s, run[0].op), run[1..]))
  }

  lemma {:induction false} TruthfulFrame<K, V>(known: set<K>, lost: set<K>, events: seq<Event<K, V>>)
    requires known !! lost && Truthful(known, events)
    ensures Truthful(known + lost, events) <==> SetsNone(lost, events)
    decreases |events|
  {
    if events != [] {
      var e := events[0];
      var rest := if e.GetEvent? then lost else lost - {e.key};
      TruthfulFrame(Hear(known, e), rest, events[1..]);
      if !e.SetEvent? || e.key !in lost {
        assert Hear(known + lost, e) == Hear(known, e) + rest;
      }
    }
  }

  /**
   * Every run: the invariant holds throughout; the listener ends up knowing exactly the store's keys
   * and the lost ones, which the store does not hold; and every Set event is truthful exactly when no
   * lost key is set again.
   */
  lemma {:induction false} LogFollowsStore<K, V>(cfg: Config, zero: V, s: seq<Entry<K, V>>, lost: set<K>,
                                                 run: seq<Step<K, V>>)
    requires Inv(cfg, s) && cfg.onSet && cfg.onDelete && Run(cfg, zero, s, run) && KeySet(s) !! lost
    ensures Inv(cfg, Final(s, run))
    ensures Replay(KeySet(s) + lost, Log(run)) == KeySet(Final(s, run)) + Lost(cfg, s, lost, run)
    ensures KeySet(Final(s, run)) !! Lost(cfg, s, lost, run)
    ensures Truthful(KeySet(s) + lost, Log(run)) <==> NoneReturns(cfg, s, lost, run)
    decreases |run|
  {
    hide Replay, Truthful, KeySet, Distinct, Touched, StepTo, Dropped, SetsNone;
    if run == [] {
      ReplayNothing<K, V>(KeySet(s) + lost);
    } else {
      var Step(op, s', events) := run[0];
      var lost' := (lost - Touched(events)) + Dropped(cfg, s, op);
      StepKeeps(cfg, zero, s, op, s', events);
      ReplayFrame(KeySet(s), lost, events);
      TruthfulFrame(KeySet(s), lost, events);
      LostStaysApart(KeySet(s), lost, events);
      assert Replay(KeySet(s) + lost, events) == KeySet(s') + lost';
      LogFollowsStore(cfg, zero, s', lost', run[1..]);
      ReplayAppend(KeySet(s) + lost, events, Log(run[1..]));
    }
  }

  lemma ReplayNothing<K, V>(known: set<K>)
    ensures Replay<K, V>(known, []) == known && Truthful<K, V>(known, [])
  {
  }

  /** A key that replaying adds was named by an event. */
  lemma {:induction false} LostStaysApart<K, V>(known: set<K>, lost: set<K>, events: seq<Event<K, V>>)
    requires known !! lost
    ensures Replay(known, events) !! lost - Touched(events)
    decreases |events|
  {
    if events != [] {
      var k := events[0].key;
      var rest := if events[0].GetEvent? then lost else lost - {k};
      LostStaysApart(Hear(known, events[0]), rest, events[1..]);
      assert lost - Touched(events) == rest - Touched(events[1..]);
    }
  }

  ghost predicate NothingDropped<K, V>(cfg: Config, s: seq<Entry<K, V>>, run: seq<Step<K, V>>)
    decreases |run|
  {
    run == [] || (Dropped(cfg, s, run[0].op) == {} && NothingDropped(cfg, run[0].after, run[1..]))
  }

  lemma {:induction false} NothingLost<K, V>(cfg: Config, s: seq<Entry<K, V>>, run: seq<Step<K, V>>)
    requires NothingDropped(cfg, s, run)
    ensures Lost(cfg, s, {}, run) == {} && NoneReturns(cfg, s, {}, run)
    decreases |run|
  {
    if run != [] {
      SetsNoneOfNone(run[0].events);
      assert ({} - Touched(run[0].events)) + Dropped(cfg, s, run[0].op) == {};
      NothingLost(cfg, run[0].after, run[1..]);
    }
  }

  lemma {:induction false} SetsNoneOfNone<K, V>(events: seq<Event<K, V>>)
    ensures SetsNone({}, events)
  {
    if events != [] {
      SetsNoneOfNone(events[1..]);
      assert {} - {events[0].key} == {};
    }
  }

  /**
   * From an empty store: the log rebuilds the key set exactly when no key is lost; without quiet drops it always does.
   */
  lemma LogRebuildsKeys<K, V>(cfg: Config, zero: V, run: seq<Step<K, V>>)
    requires cfg.onSet && cfg.onDelete && Run(cfg, zero, [], run)
    ensures Replay({}, Log(run)) == KeySet(Final([], run)) <==> Lost(cfg, [], {}, run) == {}
    ensures NothingDropped(cfg, [], run) ==> Replay({}, Log(run)) == KeySet(Final([], run)) && Truthful({}, Log(run))
  {
    var none: seq<Entry<K, V>> := [];
    assert KeySet(none) + {} == {};
    LogFollowsStore(cfg, zero, [], {}, run);
    if NothingDropped(cfg, none, run) { NothingLost(cfg, none, run); }
  }

  /** A key written with a lifetime and then read quietly past it is gone, and the log still holds it. */
  lemma QuietReadLosesKey<K, V>(cfg: Config, zero: V, write: Op<K, V>, read: Op<K, V>, value: V)
    returns (run: seq<Step<K, V>>)
    requires cfg.onSet && cfg.onDelete
    requires write.WriteOp? && write.opts.ttlSet && write.opts.ttl > 0 && !write.opts.noExpiration
    requires write.update(zero, write.delta, false) == (value, true) && write.mutate(write.key, value, false) == value
    requires read.GetOp? && read.quiet && read.key == write.key && read.now >= write.now + write.opts.ttl
    requires read.hook(write.key, value).None?
    ensures |run| == 2 && run[0].op == write && run[1].op == read && Run(cfg, zero, [], run)
    ensures KeySet(Final([], run)) == {} && Replay({}, Log(run)) == {write.key}
  {
    var key := write.key;
    var e := Entry(key, value, Some(write.now + write.opts.ttl));
    var wrote, dropped := Step(write, [e], Sets(cfg, key, value, false)), Step(read, [], []);
    run := [wrote, dropped];
    assert Remove([e], key) == [] by { assert [e][1..] == []; }
    assert run[1..] == [dropped] && [dropped][1..] == [];
    assert Log(run) == wrote.events + Log([dropped]);
    assert Log([dropped]) == [];
    SetStep(cfg, {}, key, value, false);
  }

  // ---------- what an event tells ----------

  lemma {:induction false} DeletesOf<K, V>(cfg: Config, s: seq<Entry<K, V>>, reason: Reason, e: Event<K, V>)
    requires e in Deletes(cfg, s, reason)
    ensures cfg.onDelete && exists i :: 0 <= i < |s| && e == DeleteEvent(s[i].key, s[i].value, reason)
  {
    if e == DeleteEvent(s[0].key, s[0].value, reason) {
    } else {
      DeletesOf(cfg, s[1..], reason, e);
      var i :| 0 <= i < |s[1..]| && e == DeleteEvent(s[1..][i].key, s[1..][i].value, reason);
      assert s[i + 1] == s[1..][i];
    }
  }

  lemma {:induction false} LookupAt<K, V>(s: seq<Entry<K, V>>, i: nat)
    requires Distinct(s) && i < |s|
    ensures Lookup(s, s[i].key) == Some(s[i])
  {
    if i > 0 {
      LookupAt(s[1..], i - 1);
      LookupKeys(s[1..], s[i].key);
    }
  }

  lemma {:induction false} SweptArePast<K, V>(cfg: Config, s: seq<Entry<K, V>>, now: int, hook: Hook<K, V>, i: nat)
    requires i < |Swept(cfg, s, now, hook)|
    ensures var e := Swept(cfg, s, now, hook)[i];
            e in s && e.expiry.Some? && now >= e.expiry.value && hook(e.key, e.value).None?
  {
    if Live(cfg, s[0], now, hook).Some? {
      SweptArePast(cfg, s[1..], now, hook, i);
    } else if i > 0 {
      SweptArePast(cfg, s[1..], now, hook, i - 1);
    }
  }

  /** An entry that an operation at `now` found past its time and that the hook did not extend. */
  predicate Overdue<K(==), V>(s: seq<Entry<K, V>>, k: K, now: int, hook: Hook<K, V>)
  {
    var found := Lookup(s, k);
    && found.Some? && found.value.expiry.Some? && now >= found.value.expiry.value
    && hook(k, found.value.value).None?
  }

  /** The reason a delete event may give, and the entry it is about. */
  ghost predicate Explained<K, V>(cfg: Config, s: seq<Entry<K, V>>, op: Op<K, V>, k: K, v: V, reason: Reason)
  {
    && Lookup(s, k).Some? && v == Lookup(s, k).value.value
    && match op
       case DeleteOp(key) => k == key && reason == Explicit
       case FlushOp => reason == Flushed
       case SweepOp(now, hook) => reason == Expired && Overdue(s, k, now, hook)
       case GetOp(key, now, hook, quiet) => k == key && !quiet && reason == Expired && Overdue(s, k, now, hook)
       case WriteOp(key, _, _, _, _, now, hook) =>
         if k == key then reason == Expired && Overdue(s, k, now, hook)
         else reason == Evicted && Evictable(cfg, s, key, k) && !LiveKey(cfg, s, key, now, hook)
  }

  /** The event is true of the operation that fired it. */
  ghost predicate Tells<K, V>(cfg: Config, zero: V, s: seq<Entry<K, V>>, op: Op<K, V>, s': seq<Entry<K, V>>,
                              e: Event<K, V>)
  {
    match e
    case DeleteEvent(k, v, reason) => cfg.onDelete && Explained(cfg, s, op, k, v, reason)
    case SetEvent(k, v, existed) =>
      && op.WriteOp? && cfg.onSet && k == op.key && existed == LiveKey(cfg, s, k, op.now, op.hook)
      && Lookup(s', k).Some?
      && v == if existed then Lookup(s', k).value.value else op.update(zero, op.delta, false).0
    case GetEvent(k, v) =>
      op.GetOp? && cfg.onGet && !op.quiet && k == op.key && Lookup(s, k).Some? && v == Lookup(s, k).value.value
  }

  lemma DeleteTells<K, V>(cfg: Config, found: Entry<K, V>, reason: Reason, e: Event<K, V>)
    requires e in Deletes(cfg, [found], reason)
    ensures cfg.onDelete && e == DeleteEvent(found.key, found.value, reason)
  {
    DeletesOf(cfg, [found], reason, e);
  }

  lemma NewTells<K, V>(cfg: Config, s: seq<Entry<K, V>>, key: K, zero: V, delta: V, update: Update<V>,
                       mutate: (K, V, bool) -> V, opts: EntryOptions, now: int, e: Event<K, V>)
    requires Inv(cfg, s) && key !in KeySet(s)
    requires e in WriteNew(cfg, s, key, zero, delta, update, mutate, opts, now).events
    ensures || (cfg.onSet && e == SetEvent(key, update(zero, delta, false).0, false))
            || (cfg.onDelete && cfg.maxSize > 0 && |s| == cfg.maxSize
                && e == DeleteEvent(s[0].key, s[0].value, Evicted))
  {
    hide Distinct, KeySet, ExpiresAt;
    var (value, _) := update(zero, delta, false);
    var added := Entry(key, mutate(key, value, false), ExpiresAt(cfg, now, opts, false));
    var all, n := s + [added], Excess(cfg, |s| + 1);
    if e in Deletes(cfg, all[..n], Evicted) {
      DeletesOf(cfg, all[..n], Evicted, e);
    }
  }

  lemma WriteTells<K, V>(cfg: Config, zero: V, s: seq<Entry<K, V>>, op: Op<K, V>, s': seq<Entry<K, V>>,
                         events: seq<Event<K, V>>, e: Event<K, V>)
    requires Inv(cfg, s) && op.WriteOp? && StepTo(cfg, zero, s, op, s', events) && e in events
    ensures Tells(cfg, zero, s, op, s', e)
  {
    hide Distinct, KeySet, Lookup, Replace, Remove, WriteNew, Deletes, ExpiresAt;
    var key, now, hook := op.key, op.now, op.hook;
    LookupKeys(s, key);
    RemoveKeys(s, key);
    if LiveKey(cfg, s, key, now, hook) {
      LiveTells(cfg, zero, s, op, e);
    } else {
      if Lookup(s, key).None? { FlowStore.RemoveMissing(s, key); }
      var w := WriteNew(cfg, Remove(s, key), key, zero, op.delta, op.update, op.mutate, op.opts, now);
      if e !in w.events {
        DeleteTells(cfg, Lookup(s, key).value, Expired, e);
      } else {
        var rest := Remove(s, key);
        NewTells(cfg, rest, key, zero, op.delta, op.update, op.mutate, op.opts, now, e);
        NewReadsBack(cfg, rest, key, zero, op.delta, op.update, op.mutate, op.opts, now, key);
        NewEvents(cfg, rest, key, zero, op.delta, op.update, op.mutate, op.opts, now);
        if e.DeleteEvent? {
          LookupAt(rest, 0);
          LookupRemove(s, key, rest[0].key);
        }
      }
    }
  }

  lemma NewEvents<K, V>(cfg: Config, s: seq<Entry<K, V>>, key: K, zero: V, delta: V, update: Update<V>,
                        mutate: (K, V, bool) -> V, opts: EntryOptions, now: int)
    ensures var w := WriteNew(cfg, s, key, zero, delta, update, mutate, opts, now); !w.ok ==> w.events == []
  {
  }

  lemma LiveTells<K, V>(cfg: Config, zero: V, s: seq<Entry<K, V>>, op: Op<K, V>, e: Event<K, V>)
    requires Inv(cfg, s) && op.WriteOp? && LiveKey(cfg, s, op.key, op.now, op.hook)
    requires var w := Write(cfg, s, op.key, zero, op.delta, op.update, op.mutate, op.opts, op.now, op.hook);
             e in w.events
    ensures var w := Write(cfg, s, op.key, zero, op.delta, op.update, op.mutate, op.opts, op.now, op.hook);
            cfg.onSet && Lookup(w.entries, op.key).Some?
            && e == SetEvent(op.key, Lookup(w.entries, op.key).value.value, true)
  {
    hide Distinct, KeySet, Lookup, Replace, Remove, WriteNew, Deletes;
    var key := op.key;
    LookupKeys(s, key);
    WriteReadsBack(cfg, s, key, zero, op.delta, op.update, op.mutate, op.opts, op.now, op.hook, key);
  }

  /**
   * Every event is true: a delete names an entry the store held and why it went, expired only past its end, evicted
   * only as the oldest of a full store by a key new to it; a set names the key written and whether it was live.
   */
  lemma EventsTell<K, V>(cfg: Config, zero: V, s: seq<Entry<K, V>>, op: Op<K, V>, s': seq<Entry<K, V>>,
                         events: seq<Event<K, V>>, e: Event<K, V>)
    requires Inv(cfg, s) && StepTo(cfg, zero, s, op, s', events) && e in events
    ensures Tells(cfg, zero, s, op, s', e)
  {
    hide Distinct, KeySet, Lookup, Replace, Remove, Write, Sweep, Swept, Deletes;
    match op {
      case WriteOp(_, _, _, _, _, _, _) => WriteTells(cfg, zero, s, op, s', events, e);
      case GetOp(key, now, hook, quiet) =>
        LookupKeys(s, key);
        if IsExpired(Lookup(s, key).value, now) { DeleteTells(cfg, Lookup(s, key).value, Expired, e); }
      case DeleteOp(key) =>
        LookupKeys(s, key);
        DeleteTells(cfg, Lookup(s, key).value, Explicit, e);
      case SweepOp(now, hook) => SweepTells(cfg, s, now, hook, e);
      case FlushOp =>
        assert e in multiset(events);
        DeletesOf(cfg, s, Flushed, e);
        var i :| 0 <= i < |s| && e == DeleteEvent(s[i].key, s[i].value, Flushed);
        LookupAt(s, i);
    }
  }

  lemma SweepTells<K, V>(cfg: Config, s: seq<Entry<K, V>>, now: int, hook: Hook<K, V>, e: Event<K, V>)
    requires Inv(cfg, s) && e in Deletes(cfg, Swept(cfg, s, now, hook), Expired)
    ensures e.DeleteEvent? && cfg.onDelete && Explained(cfg, s, SweepOp(now, hook), e.key, e.value, e.reason)
  {
    hide Distinct, Lookup, Deletes, Swept;
    var swept := Swept(cfg, s, now, hook);
    DeletesOf(cfg, swept, Expired, e);
    var i :| 0 <= i < |swept| && e == DeleteEvent(swept[i].key, swept[i].value, Expired);
    SweptArePast(cfg, s, now, hook, i);
    var j :| 0 <= j < |s| && s[j] == swept[i];
    LookupAt(s, j);
  }
}

/** The store as it runs: a map of entries beside a list of keys in insertion order. */
module FlowStore {
  import opened Bytes
  import F = Fifo

  datatype Cell<V> = Cell(value: V, expiry: Option<int>)

  // ---------- what the map and the list say together ----------

  ghost predicate Covers<K(!new), V>(order: seq<K>, entries: map<K, Cell<V>>)
  {
    forall k :: k in order <==> k in entries
  }

  predicate NoDup<K(==)>(order: seq<K>)
  {
    order == [] || (order[0] !in order[1..] && NoDup(order[1..]))
  }

  function View<K, V>(order: seq<K>, entries: map<K, Cell<V>>): (s: seq<F.Entry<K, V>>)
    requires forall k :: k in order ==> k in entries
    ensures |s| == |order|
  {
    if order == [] then []
    else [F.Entry(order[0], entries[order[0]].value, entries[order[0]].expiry)] + View(order[1..], entries)
  }

  function Without<K(==)>(order: seq<K>, k: K): seq<K>
  {
    if order == [] then [] else (if order[0] == k then [] else [order[0]]) + Without(order[1..], k)
  }

  lemma {:induction false} WithoutMembers<K>(order: seq<K>, k: K)
    ensures forall x :: x in Without(order, k) <==> x in order && x != k
  {
    if order != [] {
      WithoutMembers(order[1..], k);
      forall x ensures x in Without(order, k) <==> x in order && x != k {
        assert x in order <==> x == order[0] || x in order[1..];
      }
    }
  }

  lemma {:induction false} WithoutNoDup<K>(order: seq<K>, k: K)
    requires NoDup(order)
    ensures NoDup(Without(order, k))
  {
    if order != [] {
      WithoutNoDup(order[1..], k);
      WithoutMembers(order[1..], k);
      if order[0] == k {
        Empty(Without(order[1..], k));
      } else {
        assert Without(order, k)[1..] == Without(order[1..], k);
      }
    }
  }

  lemma {:induction false} ViewRemove<K, V>(order: seq<K>, entries: map<K, Cell<V>>, k: K)
    requires forall x :: x in order ==> x in entries
    ensures forall x :: x in Without(order, k) ==> x in entries - {k}
    ensures View(Without(order, k), entries - {k}) == F.Remove(View(order, entries), k)
  {
    WithoutMembers(order, k);
    if order != [] {
      ViewRemove(order[1..], entries, k);
      if order[0] == k {
        Empty(Without(order[1..], k));
      } else {
        assert Without(order, k)[1..] == Without(order[1..], k);
      }
    }
  }

  lemma {:induction false} ViewReplace<K, V>(order: seq<K>, entries: map<K, Cell<V>>, k: K, c: Cell<V>)
    requires forall x :: x in order ==> x in entries
    ensures View(order, entries[k := c]) == F.Replace(View(order, entries), k, c.value, c.expiry)
  {
    if order != [] {
      ViewReplace(order[1..], entries, k, c);
    }
  }

  lemma {:induction false} ViewAppend<K, V>(order: seq<K>, entries: map<K, Cell<V>>, k: K, c: Cell<V>)
    requires k !in order && forall x :: x in order ==> x in entries
    ensures View(order + [k], entries[k := c]) == View(order, entries) + [F.Entry(k, c.value, c.expiry)]
  {
    if order == [] {
      assert order + [k] == [k];
    } else {
      ViewAppend(order[1..], entries, k, c);
      assert (order + [k])[1..] == order[1..] + [k];
    }
  }

  lemma {:induction false} ViewLookup<K, V>(order: seq<K>, entries: map<K, Cell<V>>, k: K)
    requires forall x :: x in order ==> x in entries
    ensures F.Lookup(View(order, entries), k)
            == if k in order then Some(F.Entry(k, entries[k].value, entries[k].expiry)) else None
  {
    if order != [] {
      ViewLookup(order[1..], entries, k);
    }
  }

  lemma {:induction false} ViewAt<K, V>(order: seq<K>, entries: map<K, Cell<V>>, i: nat)
    requires i < |order| && forall x :: x in order ==> x in entries
    ensures View(order, entries)[i] == F.Entry(order[i], entries[order[i]].value, entries[order[i]].expiry)
  {
    if i > 0 {
      ViewAt(order[1..], entries, i - 1);
    }
  }

  lemma {:induction false} ViewDistinct<K, V>(order: seq<K>, entries: map<K, Cell<V>>)
    requires forall x :: x in order ==> x in entries
    ensures forall k :: k in F.KeySet(View(order, entries)) <==> k in order
    ensures F.Distinct(View(order, entries)) <==> NoDup(order)
  {
    if order != [] {
      ViewDistinct(order[1..], entries);
    }
  }

  lemma {:induction false} AppendNoDup<K>(order: seq<K>, k: K)
    requires NoDup(order) && k !in order
    ensures NoDup(order + [k])
  {
    if order == [] {
      assert order + [k] == [k];
    } else {
      AppendNoDup(order[1..], k);
      assert (order + [k])[1..] == order[1..] + [k];
    }
  }

  lemma {:induction false} SizesAgree<K(!new), V>(order: seq<K>, entries: map<K, Cell<V>>)
    requires NoDup(order) && Covers(order, entries)
    ensures |order| == |entries|
  {
    if order == [] {
      assert entries.Keys == {};
    } else {
      var k := order[0];
      var rest := entries - {k};
      assert rest.Keys == entries.Keys - {k};
      assert forall x :: x in order <==> x == k || x in order[1..];
      SizesAgree(order[1..], rest);
    }
  }

  // ---------- lemmas about the reference form ----------

  lemma {:induction false} RemoveMissing<K, V>(s: seq<F.Entry<K, V>>, k: K)
    requires k !in F.KeySet(s)
    ensures F.Remove(s, k) == s
  {
    if s != [] {
      RemoveMissing(s[1..], k);
    }
  }

  lemma {:induction false} RemoveAt<K, V>(a: seq<F.Entry<K, V>>, e: F.Entry<K, V>, b: seq<F.Entry<K, V>>)
    requires F.Distinct(a + [e] + b)
    ensures F.Remove(a + [e] + b, e.key) == a + b
  {
    var s := a + [e] + b;
    if a == [] {
      assert s == [e] + b && s[1..] == b;
      RemoveMissing(b, e.key);
      Empty(b);
    } else {
      assert s[1..] == a[1..] + [e] + b;
      RemoveAt(a[1..], e, b);
      InKeySet(s[1..], |a| - 1);
      Assoc([a[0]], a[1..], b);
    }
  }

  lemma {:induction false} ReplaceMissing<K, V>(s: seq<F.Entry<K, V>>, k: K, value: V, expiry: Option<int>)
    requires k !in F.KeySet(s)
    ensures F.Replace(s, k, value, expiry) == s
  {
    if s != [] {
      ReplaceMissing(s[1..], k, value, expiry);
    }
  }

  lemma {:induction false} ReplaceAt<K, V>(a: seq<F.Entry<K, V>>, e: F.Entry<K, V>, b: seq<F.Entry<K, V>>, value: V,
                                           expiry: Option<int>)
    requires F.Distinct(a + [e] + b)
    ensures F.Replace(a + [e] + b, e.key, value, expiry) == a + [F.Entry(e.key, value, expiry)] + b
  {
    var s := a + [e] + b;
    if a == [] {
      assert s == [e] + b && s[1..] == b;
      ReplaceMissing(b, e.key, value, expiry);
    } else {
      assert s[1..] == a[1..] + [e] + b;
      ReplaceAt(a[1..], e, b, value, expiry);
      InKeySet(s[1..], |a| - 1);
      Assoc([a[0]], a[1..], [F.Entry(e.key, value, expiry)]);
      Assoc([a[0]], a[1..] + [F.Entry(e.key, value, expiry)], b);
      assert [a[0]] + a[1..] == a;
    }
  }

  lemma {:induction false} InKeySet<K, V>(s: seq<F.Entry<K, V>>, i: nat)
    requires i < |s|
    ensures s[i].key in F.KeySet(s)
  {
    if i > 0 {
      InKeySet(s[1..], i - 1);
    }
  }

  lemma {:induction false} DeletesAppend<K, V>(cfg: F.Config, a: seq<F.Entry<K, V>>, b: seq<F.Entry<K, V>>,
                                               reason: F.Reason)
    ensures F.Deletes(cfg, a + b, reason) == F.Deletes(cfg, a, reason) + F.Deletes(cfg, b, reason)
  {
    if a == [] {
      Empty(b);
      Empty(F.Deletes(cfg, b, reason));
    } else {
      assert (a + b)[1..] == a[1..] + b;
      DeletesAppend(cfg, a[1..], b, reason);
      if cfg.onDelete {
        Assoc([F.DeleteEvent(a[0].key, a[0].value, reason)], F.Deletes(cfg, a[1..], reason), F.Deletes(cfg, b, reason));
      }
    }
  }

  lemma {:induction false} SweepSnoc<K, V>(cfg: F.Config, s: seq<F.Entry<K, V>>, e: F.Entry<K, V>, now: int,
                                           hook: F.Hook<K, V>)
    ensures F.Sweep(cfg, s + [e], now, hook)
            == F.Sweep(cfg, s, now, hook) + (match F.Live(cfg, e, now, hook) case None => [] case Some(x) => [x])
    ensures F.Swept(cfg, s + [e], now, hook)
            == F.Swept(cfg, s, now, hook) + (match F.Live(cfg, e, now, hook) case None => [e] case Some(_) => [])
  {
    if s == [] {
      assert s + [e] == [e] && [e][1..] == [];
    } else {
      assert (s + [e])[1..] == s[1..] + [e];
      SweepSnoc(cfg, s[1..], e, now, hook);
    }
  }

  /** A sweep half way: the first `j` entries are dealt with, `i` of them stayed. */
  ghost predicate Progress<K, V>(cfg: F.Config, all: seq<F.Entry<K, V>>, j: nat, now: int, hook: F.Hook<K, V>,
                                 c: seq<F.Entry<K, V>>, i: nat, events: seq<F.Event<K, V>>, removed: nat)
  {
    && j <= |all|
    && i == |F.Sweep(cfg, all[..j], now, hook)|
    && c == F.Sweep(cfg, all[..j], now, hook) + all[j..]
    && removed == |F.Swept(cfg, all[..j], now, hook)|
    && events == F.Deletes(cfg, F.Swept(cfg, all[..j], now, hook), F.Expired)
  }

  lemma ProgressStart<K, V>(cfg: F.Config, all: seq<F.Entry<K, V>>, now: int, hook: F.Hook<K, V>)
    ensures Progress(cfg, all, 0, now, hook, all, 0, [], 0)
  {
    assert all[..0] == [] && all[0..] == all;
    Empty(all);
  }

  lemma ProgressEnd<K, V>(cfg: F.Config, all: seq<F.Entry<K, V>>, j: nat, now: int, hook: F.Hook<K, V>,
                          c: seq<F.Entry<K, V>>, i: nat, events: seq<F.Event<K, V>>, removed: nat)
    requires Progress(cfg, all, j, now, hook, c, i, events, removed) && i >= |c|
    ensures c == F.Sweep(cfg, all, now, hook)
    ensures removed == |F.Swept(cfg, all, now, hook)|
            && events == F.Deletes(cfg, F.Swept(cfg, all, now, hook), F.Expired)
  {
    assert j == |all| && all[..j] == all && all[j..] == [];
    Empty(F.Sweep(cfg, all, now, hook));
  }

  lemma StillLive<K, V>(cfg: F.Config, e: F.Entry<K, V>, now: int, hook: F.Hook<K, V>)
    requires !F.IsExpired(e, now)
    ensures F.Live(cfg, e, now, hook) == Some(e)
  {
  }

  lemma Advance<K, V>(cfg: F.Config, all: seq<F.Entry<K, V>>, j: nat, now: int, hook: F.Hook<K, V>,
                      c: seq<F.Entry<K, V>>, i: nat, events: seq<F.Event<K, V>>, removed: nat)
    requires Progress(cfg, all, j, now, hook, c, i, events, removed) && i < |c| && F.Distinct(c)
    ensures j < |all|
    ensures match F.Live(cfg, c[i], now, hook)
            case None => Progress(cfg, all, j + 1, now, hook, F.Remove(c, c[i].key), i,
                                  events + F.Deletes(cfg, [c[i]], F.Expired), removed + 1)
            case Some(x) => Progress(cfg, all, j + 1, now, hook, F.Replace(c, c[i].key, x.value, x.expiry), i + 1,
                                     events, removed)
    ensures F.Replace(c, c[i].key, c[i].value, c[i].expiry) == c
  {
    hide F.Sweep, F.Swept, F.Deletes, F.Remove, F.Replace, F.Distinct;
    var kept, e, rest := F.Sweep(cfg, all[..j], now, hook), all[j], all[j + 1..];
    var gone := F.Swept(cfg, all[..j], now, hook);
    assert c[i] == e;
    assert all[j..] == [e] + rest;
    Assoc(kept, [e], rest);
    assert all[..j] + [e] == all[..j + 1];
    SweepSnoc(cfg, all[..j], e, now, hook);
    DeletesAppend(cfg, gone, [e], F.Expired);
    ReplaceAt(kept, e, rest, e.value, e.expiry);
    match F.Live(cfg, e, now, hook)
    case None =>
      RemoveAt(kept, e, rest);
      Empty(kept);
    case Some(x) =>
      ReplaceAt(kept, e, rest, x.value, x.expiry);
      Empty(gone);
  }

  // ---------- the store ----------

  class Store<K(==, !new), V> {
    const cfg: F.Config
    const zero: V
    var entries: map<K, Cell<V>>
    var order: seq<K>
    var fired: seq<F.Event<K, V>>

    /** The map and the list hold the same keys, each once. */
    ghost predicate Valid()
      reads this
    {
      NoDup(order) && Covers(order, entries)
    }

    ghost function Contents(): seq<F.Entry<K, V>>
      requires Valid()
      reads this
    {
      View(order, entries)
    }

    constructor (cfg: F.Config, zero: V)
      ensures Valid() && Contents() == [] && fired == []
      ensures this.cfg == cfg && this.zero == zero
    {
      this.cfg, this.zero := cfg, zero;
      entries, order, fired := map[], [], [];
    }

    // ---------- steps taken under the lock ----------

    method InsertLocked(key: K, cell: Cell<V>)
      requires Valid() && key !in entries
      modifies this`entries, this`order
      ensures Valid() && Contents() == old(Contents()) + [F.Entry(key, cell.value, cell.expiry)]
      ensures key in entries
    {
      ViewAppend(order, entries, key, cell);
      AppendNoDup(order, key);
      order := order + [key];
      entries := entries[key := cell];
    }

    method DeleteLocked(key: K)
      requires Valid() && key in entries
      modifies this`entries, this`order
      ensures Valid() && Contents() == F.Remove(old(Contents()), key)
      ensures key !in entries && |order| < old(|order|)
    {
      ViewRemove(order, entries, key);
      WithoutMembers(order, key);
      WithoutNoDup(order, key);
      SizesAgree(order, entries);
      entries := entries - {key};
      order := Without(order, key);
      assert |entries| < |old(entries)| by {
        assert entries.Keys == old(entries).Keys - {key};
      }
      SizesAgree(order, entries);
    }

    method UpdateLocked(key: K, cell: Cell<V>)
      requires Valid() && key in entries
      modifies this`entries
      ensures Valid() && Contents() == F.Replace(old(Contents()), key, cell.value, cell.expiry)
      ensures key in entries && entries[key] == cell
    {
      ViewReplace(order, entries, key, cell);
      entries := entries[key := cell];
    }

    /** Consults the hook for an entry past its time; true when the entry lives on. */
    method MaybeExtendLocked(key: K, now: int, hook: F.Hook<K, V>) returns (extended: bool)
      requires Valid() && key in entries
      requires F.IsExpired(F.Entry(key, entries[key].value, entries[key].expiry), now)
      modifies this`entries
      ensures Valid() && key in entries
      ensures var live := F.Live(cfg, F.Entry(key, old(entries[key].value), old(entries[key].expiry)), now, hook);
              && extended == live.Some?
              && (extended ==> entries[key] == Cell(live.value.value, live.value.expiry)
                               && Contents() == F.Replace(old(Contents()), key, live.value.value, live.value.expiry))
              && (!extended ==> entries == old(entries))
    {
      var cell := entries[key];
      var ttl := hook(key, cell.value);
      if ttl.None? { return false; }
      if ttl.value <= 0 && cfg.defaultTTL <= 0 {
        UpdateLocked(key, Cell(cell.value, None));
      } else {
        UpdateLocked(key, Cell(cell.value, Some(now + (if ttl.value <= 0 then cfg.defaultTTL else ttl.value))));
      }
      return true;
    }

    /** The delete event of one entry, when someone listens. */
    method RecordDelete(e: F.Entry<K, V>, reason: F.Reason) returns (ev: seq<F.Event<K, V>>)
      ensures ev == F.Deletes(cfg, [e], reason)
    {
      ev := if cfg.onDelete then [F.DeleteEvent(e.key, e.value, reason)] else [];
    }

    method EnforceMaxSizeLocked(events: seq<F.Event<K, V>>) returns (out: seq<F.Event<K, V>>)
      requires Valid()
      modifies this`entries, this`order
      ensures Valid()
      ensures var all := old(Contents());
              var n := F.Excess(cfg, |all|);
              Contents() == all[n..] && out == events + F.Deletes(cfg, all[..n], F.Evicted)
    {
      out := events;
      ghost var all, j := Contents(), 0;
      Empty(events);
      SizesAgree(order, entries);
      if cfg.maxSize <= 0 { return; }
      while |entries| > cfg.maxSize
        invariant Valid() && |order| == |entries|
        invariant 0 <= j <= F.Excess(cfg, |all|) && Contents() == all[j..]
        invariant out == events + F.Deletes(cfg, all[..j], F.Evicted)
        decreases |entries|
      {
        var key := order[0];
        var e := F.Entry(key, entries[key].value, entries[key].expiry);
        assert e == all[j];
        var ev := RecordDelete(e, F.Evicted);
        Assoc(events, F.Deletes(cfg, all[..j], F.Evicted), ev);
        assert all[..j] + [e] == all[..j + 1];
        DeletesAppend(cfg, all[..j], [e], F.Evicted);
        ViewDistinct(order, entries);
        assert [] + [e] + all[j + 1..] == all[j..];
        RemoveAt([], e, all[j + 1..]);
        Empty(all[j + 1..]);
        out := out + ev;
        DeleteLocked(key);
        SizesAgree(order, entries);
        j := j + 1;
      }
    }

    method ExpireBeforeLocked(now: int, hook: F.Hook<K, V>) returns (events: seq<F.Event<K, V>>, removed: nat)
      requires Valid()
      modifies this`entries, this`order
      ensures Valid() && Contents() == F.Sweep(cfg, old(Contents()), now, hook)
      ensures var gone := F.Swept(cfg, old(Contents()), now, hook);
              removed == |gone| && events == F.Deletes(cfg, gone, F.Expired)
    {
      hide F.Sweep, F.Swept, F.Deletes, F.Remove, F.Replace, F.Live, F.Distinct, View, NoDup, Progress;
      events, removed := [], 0;
      ghost var all, j := Contents(), 0;
      ProgressStart(cfg, all, now, hook);
      var i := 0;
      while i < |order|
        invariant Valid() && Progress(cfg, all, j, now, hook, Contents(), i, events, removed)
        decreases |all| - j
      {
        var key := order[i];
        var e := F.Entry(key, entries[key].value, entries[key].expiry);
        ViewAt(order, entries, i);
        ViewDistinct(order, entries);
        Advance(cfg, all, j, now, hook, Contents(), i, events, removed);
        if e.expiry.Some? && now >= e.expiry.value {
          var extended := MaybeExtendLocked(key, now, hook);
          if extended {
            i := i + 1;
          } else {
            var ev := RecordDelete(e, F.Expired);
            events := events + ev;
            DeleteLocked(key);
            removed := removed + 1;
          }
        } else {
          StillLive(cfg, e, now, hook);
          i := i + 1;
        }
        j := j + 1;
      }
      ProgressEnd(cfg, all, j, now, hook, Contents(), i, events, removed);
    }

    // ---------- operations ----------

    /** A live entry takes the update in place; its lifetime changes even when the value refuses. */
    method UpdateExisting(key: K, delta: V, update: F.Update<V>, mutate: (K, V, bool) -> V, opts: F.EntryOptions,
                          now: int)
      returns (events: seq<F.Event<K, V>>, ok: bool)
      requires Valid() && key in entries
      modifies this`entries
      ensures Valid()
      ensures var w := F.WriteExisting(cfg, old(Contents()),
                                       F.Entry(key, old(entries[key].value), old(entries[key].expiry)),
                                       delta, update, mutate, opts, now);
              Contents() == w.entries && events == w.events && ok == w.ok
    {
      var cell := entries[key];
      var expiry := cell.expiry;
      if opts.ttlSet {
        expiry := F.ExpiresAt(cfg, now, opts, true);
      } else if cfg.refreshTTL && cfg.defaultTTL > 0 {
        expiry := Some(now + cfg.defaultTTL);
      }
      var (value, good) := update(cell.value, delta, true);
      if !good {
        UpdateLocked(key, Cell(value, expiry));
        return [], false;
      }
      value := mutate(key, value, true);
      UpdateLocked(key, Cell(value, expiry));
      return if cfg.onSet then [F.SetEvent(key, value, true)] else [], true;
    }

    method InsertNew(key: K, delta: V, update: F.Update<V>, mutate: (K, V, bool) -> V, opts: F.EntryOptions, now: int)
      returns (events: seq<F.Event<K, V>>, ok: bool)
      requires Valid() && key !in entries
      modifies this`entries, this`order
      ensures Valid()
      ensures var w := F.WriteNew(cfg, old(Contents()), key, zero, delta, update, mutate, opts, now);
              Contents() == w.entries && events == w.events && ok == w.ok
    {
      var (value, good) := update(zero, delta, false);
      if !good { return [], false; }
      InsertLocked(key, Cell(mutate(key, value, false), F.ExpiresAt(cfg, now, opts, false)));
      ghost var all := Contents();
      events := EnforceMaxSizeLocked([]);
      Empty(F.Deletes(cfg, all[..F.Excess(cfg, |all|)], F.Evicted));
      if cfg.onSet {
        events := events + [F.SetEvent(key, value, false)];
      } else {
        Empty(events);
      }
      ok := true;
    }

    /** Add and Set, which differ only in the method of the value they call. */
    method Write(key: K, delta: V, update: F.Update<V>, mutate: (K, V, bool) -> V, opts: F.EntryOptions, now: int,
                 hook: F.Hook<K, V>)
      returns (existed: bool, ok: bool)
      requires Valid()
      modifies this
      ensures Valid()
      ensures var w := F.Write(cfg, old(Contents()), key, zero, delta, update, mutate, opts, now, hook);
              Contents() == w.entries && fired == old(fired) + w.events && existed == w.existed && ok == w.ok
    {
      hide View, F.Replace, F.Remove, F.WriteExisting, F.WriteNew, F.Deletes, F.Lookup;
      ViewLookup(order, entries, key);
      ghost var s := Contents();
      var events := [];
      if key in entries {
        var e := F.Entry(key, entries[key].value, entries[key].expiry);
        var live := true;
        if F.IsExpired(e, now) {
          live := MaybeExtendLocked(key, now, hook);
        }
        if live {
          ghost var x := F.Live(cfg, e, now, hook).value;
          WriteAfterExtend(cfg, s, x, delta, update, mutate, opts, now);
          events, ok := UpdateExisting(key, delta, update, mutate, opts, now);
          existed := true;
          fired := fired + events;
          WriteExistingExisted(cfg, s, x, delta, update, mutate, opts, now);
          return;
        }
        events := RecordDelete(e, F.Expired);
        DeleteLocked(key);
      }
      ghost var s' := Contents();
      var more;
      more, ok := InsertNew(key, delta, update, mutate, opts, now);
      WriteNewExisted(cfg, s', key, zero, delta, update, mutate, opts, now);
      existed := false;
      Empty(more);
      events := events + more;
      fired := fired + events;
    }

    /** Get and GetQuiet. */
    method Get(key: K, now: int, hook: F.Hook<K, V>, quiet: bool) returns (value: Option<V>)
      requires Valid()
      modifies this
      ensures Valid()
      ensures var r := F.Get(cfg, old(Contents()), key, now, hook, quiet);
              Contents() == r.entries && fired == old(fired) + r.events && value == r.value
    {
      hide View, F.Replace, F.Remove, F.Deletes, F.Lookup;
      ViewLookup(order, entries, key);
      Empty(fired);
      if key !in entries { return None; }
      var e := F.Entry(key, entries[key].value, entries[key].expiry);
      if F.IsExpired(e, now) {
        var extended := MaybeExtendLocked(key, now, hook);
        if extended { return Some(e.value); }
        if !quiet {
          var events := RecordDelete(e, F.Expired);
          fired := fired + events;
        }
        DeleteLocked(key);
        return None;
      }
      if !quiet && cfg.refreshTTLOnRead && cfg.defaultTTL > 0 {
        UpdateLocked(key, Cell(e.value, Some(now + cfg.defaultTTL)));
      }
      if !quiet && cfg.onGet {
        fired := fired + [F.GetEvent(key, e.value)];
      }
      return Some(e.value);
    }

    method Delete(key: K) returns (deleted: bool)
      requires Valid()
      modifies this
      ensures Valid()
      ensures var r := F.Delete(cfg, old(Contents()), key);
              Contents() == r.entries && fired == old(fired) + r.events && deleted == r.value.Some?
    {
      ViewLookup(order, entries, key);
      Empty(fired);
      if key !in entries { return false; }
      var events := RecordDelete(F.Entry(key, entries[key].value, entries[key].expiry), F.Explicit);
      fired := fired + events;
      DeleteLocked(key);
      return true;
    }

    method Len() returns (n: nat)
      requires Valid()
      ensures n == |Contents()|
    {
      SizesAgree(order, entries);
      n := |entries|;
    }

    method ExpireStale(now: int, hook: F.Hook<K, V>) returns (removed: nat)
      requires Valid()
      modifies this
      ensures Valid() && Contents() == F.Sweep(cfg, old(Contents()), now, hook)
      ensures var gone := F.Swept(cfg, old(Contents()), now, hook);
              removed == |gone| && fired == old(fired) + F.Deletes(cfg, gone, F.Expired)
    {
      var events;
      events, removed := ExpireBeforeLocked(now, hook);
      fired := fired + events;
    }

    /** What Range hands to its callback, oldest entry first. */
    method Range(now: int, hook: F.Hook<K, V>) returns (items: seq<(K, V)>)
      requires Valid()
      modifies this
      ensures Valid() && Contents() == F.Sweep(cfg, old(Contents()), now, hook)
      ensures fired == old(fired) + F.Deletes(cfg, F.Swept(cfg, old(Contents()), now, hook), F.Expired)
      ensures |items| == |Contents()| && forall i :: 0 <= i < |items| ==>
                items[i] == (Contents()[i].key, Contents()[i].value)
    {
      var _ := ExpireStale(now, hook);
      items := [];
      var i := 0;
      while i < |order|
        modifies {}
        invariant 0 <= i <= |order| && |items| == i
        invariant forall j :: 0 <= j < i ==> items[j] == (Contents()[j].key, Contents()[j].value)
      {
        ViewAt(order, entries, i);
        items := items + [(order[i], entries[order[i]].value)];
        i := i + 1;
      }
    }

    /** Visits the map in whatever order it likes; every entry is deleted and reported once. */
    method Flush()
      requires Valid()
      modifies this
      ensures Valid() && Contents() == []
      ensures old(fired) <= fired
      ensures multiset(fired[|old(fired)|..]) == multiset(F.Deletes(cfg, old(Contents()), F.Flushed))
    {
      hide F.Deletes, F.Remove, F.Lookup, F.Distinct, View, NoDup;
      ghost var before, all := fired, Contents();
      var events := [];
      Empty(F.Deletes(cfg, all, F.Flushed));
      while entries != map[]
        invariant Valid() && fired == before
        invariant multiset(events + F.Deletes(cfg, Contents(), F.Flushed)) == multiset(F.Deletes(cfg, all, F.Flushed))
        decreases |order|
      {
        var key :| key in entries;
        var e := F.Entry(key, entries[key].value, entries[key].expiry);
        ghost var c := Contents();
        ViewLookup(order, entries, key);
        ViewDistinct(order, entries);
        RemoveCounted(cfg, c, e, F.Flushed);
        var ev := RecordDelete(e, F.Flushed);
        DeleteLocked(key);
        CountedStep(events, F.Deletes(cfg, c, F.Flushed), ev, F.Deletes(cfg, Contents(), F.Flushed));
        events := events + ev;
      }
      SizesAgree(order, entries);
      NothingLeft(cfg, order, entries);
      Empty(events);
      fired := fired + events;
    }
  }

  // ---------- glue between the two forms ----------

  lemma {:induction false} ReplaceTwice<K, V>(s: seq<F.Entry<K, V>>, k: K, v: V, x: Option<int>, v': V, x': Option<int>)
    ensures F.Replace(F.Replace(s, k, v, x), k, v', x') == F.Replace(s, k, v', x')
  {
    if s != [] {
      ReplaceTwice(s[1..], k, v, x, v', x');
    }
  }

  /** Extending first and writing then is the same as writing the extended entry. */
  lemma WriteAfterExtend<K, V>(cfg: F.Config, s: seq<F.Entry<K, V>>, x: F.Entry<K, V>, delta: V, update: F.Update<V>,
                               mutate: (K, V, bool) -> V, opts: F.EntryOptions, now: int)
    ensures F.WriteExisting(cfg, F.Replace(s, x.key, x.value, x.expiry), x, delta, update, mutate, opts, now)
            == F.WriteExisting(cfg, s, x, delta, update, mutate, opts, now)
  {
    var w := F.WriteExisting(cfg, s, x, delta, update, mutate, opts, now);
    var (value, ok) := update(x.value, delta, true);
    var v := if ok then mutate(x.key, value, true) else value;
    var expiry :=
      if opts.ttlSet then F.ExpiresAt(cfg, now, opts, true)
      else if cfg.refreshTTL && cfg.defaultTTL > 0 then Some(now + cfg.defaultTTL)
      else x.expiry;
    ReplaceTwice(s, x.key, x.value, x.expiry, v, expiry);
  }

  lemma WriteExistingExisted<K, V>(cfg: F.Config, s: seq<F.Entry<K, V>>, x: F.Entry<K, V>, delta: V,
                                   update: F.Update<V>,
                                   mutate: (K, V, bool) -> V, opts: F.EntryOptions, now: int)
    ensures F.WriteExisting(cfg, s, x, delta, update, mutate, opts, now).existed
  {
  }

  lemma WriteNewExisted<K, V>(cfg: F.Config, s: seq<F.Entry<K, V>>, key: K, zero: V, delta: V, update: F.Update<V>,
                              mutate: (K, V, bool) -> V, opts: F.EntryOptions, now: int)
    ensures !F.WriteNew(cfg, s, key, zero, delta, update, mutate, opts, now).existed
  {
  }

  lemma {:induction false} RemoveCounted<K, V>(cfg: F.Config, s: seq<F.Entry<K, V>>, e: F.Entry<K, V>, reason: F.Reason)
    requires F.Distinct(s) && F.Lookup(s, e.key) == Some(e)
    ensures multiset(F.Deletes(cfg, s, reason))
            == multiset(F.Deletes(cfg, [e], reason)) + multiset(F.Deletes(cfg, F.Remove(s, e.key), reason))
  {
    var tail := s[1..];
    assert s == [s[0]] + tail;
    DeletesAppend(cfg, [s[0]], tail, reason);
    if s[0].key == e.key {
      RemoveMissing(tail, e.key);
      Empty(tail);
    } else {
      RemoveCounted(cfg, tail, e, reason);
      DeletesAppend(cfg, [s[0]], F.Remove(tail, e.key), reason);
      Regroup(F.Deletes(cfg, s, reason), F.Deletes(cfg, [s[0]], reason), F.Deletes(cfg, tail, reason),
              F.Deletes(cfg, [e], reason), F.Deletes(cfg, F.Remove(tail, e.key), reason));
    }
  }

  lemma CountedStep<T>(done: seq<T>, left: seq<T>, x: seq<T>, left': seq<T>)
    requires multiset(left) == multiset(x) + multiset(left')
    ensures multiset(done + left) == multiset(done + x + left')
  {
  }

  lemma NothingLeft<K, V>(cfg: F.Config, order: seq<K>, entries: map<K, Cell<V>>)
    requires |order| == 0
    ensures View(order, entries) == [] && F.Deletes(cfg, View(order, entries), F.Flushed) == []
  {
  }

  lemma Regroup<T>(whole: seq<T>, head: seq<T>, tail: seq<T>, x: seq<T>, rest: seq<T>)
    requires whole == head + tail && multiset(tail) == multiset(x) + multiset(rest)
    ensures multiset(whole) == multiset(x) + multiset(head + rest)
  {
  }
}

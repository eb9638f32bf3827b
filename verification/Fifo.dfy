/** A flow store as one sequence of entries, oldest first: the simple form the store refines. */
module Fifo {
  import opened Bytes

  /** expiry is None for an entry that never expires. */
  datatype Entry<K, V> = Entry(key: K, value: V, expiry: Option<int>)

  datatype Config = Config(defaultTTL: int, refreshTTL: bool, refreshTTLOnRead: bool, maxSize: int,
                           onSet: bool, onDelete: bool, onGet: bool)

  datatype EntryOptions = EntryOptions(ttlSet: bool, ttl: int, noExpiration: bool)

  datatype Reason = Explicit | Expired | Evicted | Flushed

  datatype Event<K, V> =
    | SetEvent(key: K, value: V, existed: bool)
    | DeleteEvent(key: K, value: V, reason: Reason)
    | GetEvent(key: K, value: V)

  /** The expiry hook consulted by one operation: None lets the entry go, Some asks for a new lifetime. */
  type Hook<!K, !V> = (K, V) -> Option<int>

  // ---------- keys ----------

  function Keys<K, V>(s: seq<Entry<K, V>>): (r: seq<K>)
    ensures |r| == |s|
  {
    if s == [] then [] else [s[0].key] + Keys(s[1..])
  }

  function KeySet<K, V>(s: seq<Entry<K, V>>): set<K>
  {
    if s == [] then {} else {s[0].key} + KeySet(s[1..])
  }

  predicate Distinct<K(==), V>(s: seq<Entry<K, V>>)
  {
    s == [] || (s[0].key !in KeySet(s[1..]) && Distinct(s[1..]))
  }

  function Lookup<K(==), V>(s: seq<Entry<K, V>>, k: K): Option<Entry<K, V>>
  {
    if s == [] then None else if s[0].key == k then Some(s[0]) else Lookup(s[1..], k)
  }

  function Remove<K(==), V>(s: seq<Entry<K, V>>, k: K): seq<Entry<K, V>>
  {
    if s == [] then [] else (if s[0].key == k then [] else [s[0]]) + Remove(s[1..], k)
  }

  /** The entry of `k` with a new value and expiry, in its old place. */
  function Replace<K(==), V>(s: seq<Entry<K, V>>, k: K, value: V, expiry: Option<int>): seq<Entry<K, V>>
  {
    if s == [] then []
    else [if s[0].key == k then Entry(k, value, expiry) else s[0]] + Replace(s[1..], k, value, expiry)
  }

  // ---------- time ----------

  predicate IsExpired<K, V>(e: Entry<K, V>, now: int)
  {
    e.expiry.Some? && now >= e.expiry.value
  }

  function ExtendedExpiry(cfg: Config, now: int, ttl: int): Option<int>
  {
    if ttl > 0 then Some(now + ttl)
    else if cfg.defaultTTL > 0 then Some(now + cfg.defaultTTL)
    else None
  }

  function ExpiresAt(cfg: Config, now: int, opts: EntryOptions, existing: bool): Option<int>
  {
    if opts.noExpiration || (opts.ttlSet && opts.ttl <= 0) then None
    else if opts.ttlSet then Some(now + opts.ttl)
    else if !existing && cfg.defaultTTL > 0 then Some(now + cfg.defaultTTL)
    else None
  }

  /** The entry as an operation at `now` finds it: unchanged, extended by the hook, or gone. */
  function Live<K, V>(cfg: Config, e: Entry<K, V>, now: int, hook: Hook<K, V>): Option<Entry<K, V>>
  {
    if !IsExpired(e, now) then Some(e)
    else
      match hook(e.key, e.value)
      case None => None
      case Some(ttl) => Some(Entry(e.key, e.value, ExtendedExpiry(cfg, now, ttl)))
  }

  // ---------- operations ----------

  datatype Written<K, V> = Written(entries: seq<Entry<K, V>>, events: seq<Event<K, V>>, existed: bool, ok: bool)

  function Excess(cfg: Config, n: nat): nat
  {
    if cfg.maxSize > 0 && n > cfg.maxSize then n - cfg.maxSize else 0
  }

  function Deletes<K, V>(cfg: Config, s: seq<Entry<K, V>>, reason: Reason): seq<Event<K, V>>
  {
    if s == [] || !cfg.onDelete then []
    else [DeleteEvent(s[0].key, s[0].value, reason)] + Deletes(cfg, s[1..], reason)
  }

  function Sets<K, V>(cfg: Config, key: K, value: V, existed: bool): seq<Event<K, V>>
  {
    if cfg.onSet then [SetEvent(key, value, existed)] else []
  }

  /** How a call to Add or Set changes a value: the result and whether the value's own method accepted it. */
  type Update<!V> = (V, V, bool) -> (V, bool)

  function WriteExisting<K(==), V>(cfg: Config, s: seq<Entry<K, V>>, e: Entry<K, V>, delta: V, update: Update<V>,
                                   mutate: (K, V, bool) -> V, opts: EntryOptions, now: int): Written<K, V>
  {
    var expiry :=
      if opts.ttlSet then ExpiresAt(cfg, now, opts, true)
      else if cfg.refreshTTL && cfg.defaultTTL > 0 then Some(now + cfg.defaultTTL)
      else e.expiry;
    var (value, ok) := update(e.value, delta, true);
    if !ok then Written(Replace(s, e.key, value, expiry), [], true, false)
    else
      var v := mutate(e.key, value, true);
      Written(Replace(s, e.key, v, expiry), Sets(cfg, e.key, v, true), true, true)
  }

  function WriteNew<K(==), V>(cfg: Config, s: seq<Entry<K, V>>, key: K, zero: V, delta: V, update: Update<V>,
                              mutate: (K, V, bool) -> V, opts: EntryOptions, now: int): Written<K, V>
  {
    var (value, ok) := update(zero, delta, false);
    if !ok then Written(s, [], false, false)
    else
      var all := s + [Entry(key, mutate(key, value, false), ExpiresAt(cfg, now, opts, false))];
      var n := Excess(cfg, |all|);
      Written(all[n..], Deletes(cfg, all[..n], Evicted) + Sets(cfg, key, value, false), false, true)
  }

  /** Add and Set: update a live entry in place; otherwise append a new one and evict from the front. */
  function Write<K(==), V>(cfg: Config, s: seq<Entry<K, V>>, key: K, zero: V, delta: V, update: Update<V>,
                           mutate: (K, V, bool) -> V, opts: EntryOptions, now: int, hook: Hook<K, V>): Written<K, V>
  {
    match Lookup(s, key)
    case None => WriteNew(cfg, s, key, zero, delta, update, mutate, opts, now)
    case Some(found) =>
      match Live(cfg, found, now, hook)
      case Some(e) => WriteExisting(cfg, s, e, delta, update, mutate, opts, now)
      case None =>
        var w := WriteNew(cfg, Remove(s, key), key, zero, delta, update, mutate, opts, now);
        Written(w.entries, Deletes(cfg, [found], Expired) + w.events, w.existed, w.ok)
  }

  datatype Read<K, V> = Read(entries: seq<Entry<K, V>>, events: seq<Event<K, V>>, value: Option<V>)

  /** Get and, with `quiet`, GetQuiet: an entry past its time is dropped, but the quiet form tells no one. */
  function Get<K(==), V>(cfg: Config, s: seq<Entry<K, V>>, key: K, now: int, hook: Hook<K, V>, quiet: bool): Read<K, V>
  {
    match Lookup(s, key)
    case None => Read(s, [], None)
    case Some(found) =>
      if IsExpired(found, now) then
        match Live(cfg, found, now, hook)
        case Some(e) => Read(Replace(s, key, e.value, e.expiry), [], Some(e.value))
        case None => Read(Remove(s, key), if quiet then [] else Deletes(cfg, [found], Expired), None)
      else
        var refresh := !quiet && cfg.refreshTTLOnRead && cfg.defaultTTL > 0;
        Read(if refresh then Replace(s, key, found.value, Some(now + cfg.defaultTTL)) else s,
             if !quiet && cfg.onGet then [GetEvent(key, found.value)] else [], Some(found.value))
  }

  function Delete<K(==), V>(cfg: Config, s: seq<Entry<K, V>>, key: K): Read<K, V>
  {
    match Lookup(s, key)
    case None => Read(s, [], None)
    case Some(found) => Read(Remove(s, key), Deletes(cfg, [found], Explicit), Some(found.value))
  }

  /** Exactly the entries that are live at `now`, in their old order. */
  function Sweep<K, V>(cfg: Config, s: seq<Entry<K, V>>, now: int, hook: Hook<K, V>): seq<Entry<K, V>>
  {
    if s == [] then []
    else
      match Live(cfg, s[0], now, hook)
      case None => Sweep(cfg, s[1..], now, hook)
      case Some(e) => [e] + Sweep(cfg, s[1..], now, hook)
  }

  /** Exactly the others, in their old order. */
  function Swept<K, V>(cfg: Config, s: seq<Entry<K, V>>, now: int, hook: Hook<K, V>): seq<Entry<K, V>>
  {
    if s == [] then []
    else
      match Live(cfg, s[0], now, hook)
      case None => [s[0]] + Swept(cfg, s[1..], now, hook)
      case Some(_) => Swept(cfg, s[1..], now, hook)
  }
}

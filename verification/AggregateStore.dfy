/**
 * The stateful aggregator: its maps are updated field by field and bucket by bucket, in the order the map yields them.
 */
module AggregateStore {
  import opened Bytes
  import opened AggregateKeys
  import opened Aggregate

  lemma MergeOneMore(dst: Fields, seen: Fields, k: string, c: Cell)
    requires k !in seen
    ensures Get(MergeFields(dst, seen), k) == Get(dst, k)
    ensures MergeFields(dst, seen)[k := MergeCell(k, Get(dst, k), c)] == MergeFields(dst, seen[k := c])
  {
    hide MergeCell;
  }

  lemma MergeNothing(dst: Fields)
    ensures MergeFields(dst, map[]) == dst
  {
  }

  /** Merge field by field, in any order. */
  method MergeInto(dst: Fields, src: Fields) returns (merged: Fields)
    ensures merged == MergeFields(dst, src)
  {
    hide MergeCell, MergeFields, Get;
    merged := dst;
    var left := src.Keys;
    ghost var seen: Fields := map[];
    MergeNothing(dst);
    while left != {}
      invariant left <= src.Keys && seen == src - left && merged == MergeFields(dst, seen)
      decreases |left|
    {
      var k :| k in left;
      MergeOneMore(dst, seen, k, src[k]);
      merged := merged[k := MergeCell(k, Get(merged, k), src[k])];
      left := left - {k};
      seen := seen[k := src[k]];
    }
    assert seen == src;
  }

  method Contribute(cfg: Config, evt: Event, now: int) returns (delta: Record)
    ensures delta == DeltaOf(cfg, evt, now)
  {
    var fields := StaticCells(cfg.statics);
    for i := 0 to |cfg.fields|
      invariant Contributions(cfg.fields[i..], evt, fields) == Contributions(cfg.fields, evt, StaticCells(cfg.statics))
    {
      assert cfg.fields[i..][1..] == cfg.fields[i + 1..];
      var c := Contribution(cfg.fields[i], evt);
      if c.Some? {
        fields := fields[cfg.fields[i].name := c.value];
      }
    }
    assert cfg.fields[|cfg.fields|..] == [];
    fields := fields[START := Timestamp(TimeOrNow(evt.start, now))];
    fields := fields[END := Timestamp(TimeOrNow(evt.end, now))];
    delta := Record(fields, now, now, false);
  }

  method CollectKeyValues(specs: seq<FieldSpec>, evt: Event) returns (values: seq<Option<Any>>)
    ensures values == KeyValues(specs, evt)
  {
    values := [];
    for i := 0 to |specs|
      invariant values + KeyValues(specs[i..], evt) == KeyValues(specs, evt)
    {
      assert specs[i..][1..] == specs[i + 1..];
      if specs[i].role == KeyRole {
        Assoc(values, [evt.lookup(specs[i])], KeyValues(specs[i + 1..], evt));
        values := values + [evt.lookup(specs[i])];
      } else {
        Empty(KeyValues(specs[i + 1..], evt));
      }
    }
    assert specs[|specs|..] == [];
    Empty(values);
  }

  lemma Nothing(m: Buckets)
    ensures map[] + m == m && m + map[] == m
  {
  }

  lemma FlushNothing(cfg: Config, now: int, due: bool)
    ensures Flushed(cfg, map[], now, due) == map[] && ExportsOf(cfg, map[], now, due) == {} && Lists([], {})
  {
  }

  /** Flushing one more bucket on its own is flushing one more bucket of the whole. */
  lemma FlushOneMore(cfg: Config, seen: Buckets, rest: Buckets, key: string, now: int, due: bool)
    requires key in rest && seen.Keys !! rest.Keys
    ensures var fate, state := FateOf(cfg, rest[key], now, due), Flushed(cfg, seen, now, due) + rest;
            && key in state && state[key] == rest[key]
            && (if Survives(fate) then state[key := Remains(rest[key], fate)] else state - {key})
               == Flushed(cfg, seen[key := rest[key]], now, due) + (rest - {key})
  {
    hide FateOf;
  }

  lemma MoveOver(seen: Buckets, rest: Buckets, key: string)
    requires key in rest && seen.Keys !! rest.Keys
    ensures var seen', rest' := seen[key := rest[key]], rest - {key};
            seen' + rest' == seen + rest && seen'.Keys !! rest'.Keys && rest'.Keys == rest.Keys - {key}
  {
  }

  lemma InExports(cfg: Config, buckets: Buckets, now: int, due: bool, e: Export)
    ensures e in ExportsOf(cfg, buckets, now, due) <==>
            e.key in buckets && Exports(FateOf(cfg, buckets[e.key], now, due)) && e.record == buckets[e.key]
  {
    if e.key in buckets && Exports(FateOf(cfg, buckets[e.key], now, due)) && e.record == buckets[e.key] {
      assert e == Export(e.key, buckets[e.key]);
    }
  }

  lemma ListOneMore(cfg: Config, seen: Buckets, key: string, r: Record, now: int, due: bool, out: seq<Export>,
                    one: seq<Export>)
    requires key !in seen && Lists(out, ExportsOf(cfg, seen, now, due))
    requires one == if Exports(FateOf(cfg, r, now, due)) then [Export(key, r)] else []
    ensures Lists(out + one, ExportsOf(cfg, seen[key := r], now, due))
  {
    hide FateOf, ExportsOf;
    forall e ensures e in out + one <==> e in ExportsOf(cfg, seen[key := r], now, due) {
      InExports(cfg, seen, now, due, e);
      InExports(cfg, seen[key := r], now, due, e);
    }
    InExports(cfg, seen, now, due, Export(key, r));
  }

  datatype Processed = Passed | Absorbed(key: string) | NoFields | NoKey(why: Failure)

  class Stateful {
    const cfg: Config
    const startedAt: int
    var state: Buckets
    var lastPeriodicRun: Option<int>

    constructor (cfg: Config, now: int)
      ensures this.cfg == cfg && startedAt == now && state == map[] && lastPeriodicRun == None
    {
      this.cfg, startedAt, state, lastPeriodicRun := cfg, now, map[], None;
    }

    /** A control event passes through; a data event is absorbed into exactly the bucket of its key. */
    method Process(evt: Event, now: int) returns (r: Processed)
      modifies this`state
      ensures r == (if evt.control then Passed
                    else if !evt.hasFields then NoFields
                    else match KeyOf(KeyValues(cfg.fields, evt), cfg.aggregateMissing)
                         case Err(why) => NoKey(why)
                         case Ok(key) => Absorbed(key))
      ensures !r.Absorbed? ==> state == old(state)
      ensures r.Absorbed? ==>
                state == old(state)[r.key := Add(if r.key in old(state) then Some(old(state)[r.key]) else None,
                                                 DeltaOf(cfg, evt, now))]
    {
      if evt.control {
        return Passed;
      }
      if !evt.hasFields {
        return NoFields;
      }
      var values := CollectKeyValues(cfg.fields, evt);
      var key := BuildKey(values, cfg.aggregateMissing);
      if key.Err? {
        return NoKey(key.why);
      }
      var delta := Contribute(cfg, evt, now);
      if key.text in state {
        var current := state[key.text];
        var fields := MergeInto(current.fields, delta.fields);
        var first := if delta.firstSeen < current.firstSeen then delta.firstSeen else current.firstSeen;
        var last := if delta.lastSeen > current.lastSeen then delta.lastSeen else current.lastSeen;
        state := state[key.text := Record(fields, first, last, true)];
      } else {
        state := state[key.text := delta.(dirty := true)];
      }
      return Absorbed(key.text);
    }

    /** One bucket meets its fate. */
    method FlushOne(key: string, now: int, due: bool) returns (out: seq<Export>)
      requires key in state
      modifies this`state
      ensures var fate := FateOf(cfg, old(state)[key], now, due);
              && state == (if Survives(fate) then old(state)[key := Remains(old(state)[key], fate)]
                           else old(state) - {key})
              && out == if Exports(fate) then [Export(key, old(state)[key])] else []
    {
      hide Elapsed;
      out := [];
      var record := state[key];
      if Elapsed(cfg.idleFlushAfter, record.lastSeen, now) || Elapsed(cfg.maxFlushAfter, record.firstSeen, now) {
        out := [Export(key, record)];
        state := state - {key};
      } else if due && record.dirty {
        out := [Export(key, record)];
        if cfg.resetBuckets {
          state := state - {key};
        } else {
          state := state[key := record.(dirty := false)];
        }
      } else if Elapsed(cfg.idleEraseAfter, record.lastSeen, now) {
        state := state - {key};
      } else {
        assert state[key := record] == state;
      }
    }

    /** Every bucket meets its fate once, whatever the order; each export is listed once. */
    method FlushAt(now: int) returns (out: seq<Export>)
      modifies this
      ensures var due := PeriodicDue(cfg, startedAt, old(lastPeriodicRun), now);
              && state == Flushed(cfg, old(state), now, due)
              && Lists(out, ExportsOf(cfg, old(state), now, due))
              && lastPeriodicRun == if due then Some(now) else old(lastPeriodicRun)
    {
      hide *;
      out := [];
      var due := PeriodicDue(cfg, startedAt, lastPeriodicRun, now);
      var left := state.Keys;
      ghost var seen: Buckets, rest: Buckets := map[], state;
      FlushNothing(cfg, now, due);
      Nothing(state);
      while left != {}
        invariant lastPeriodicRun == old(lastPeriodicRun) && left == rest.Keys
        invariant seen + rest == old(state) && seen.Keys !! rest.Keys
        invariant state == Flushed(cfg, seen, now, due) + rest
        invariant Lists(out, ExportsOf(cfg, seen, now, due))
        decreases |left|
      {
        var key :| key in left;
        FlushOneMore(cfg, seen, rest, key, now, due);
        var exported := FlushOne(key, now, due);
        ListOneMore(cfg, seen, key, rest[key], now, due, out, exported);
        MoveOver(seen, rest, key);
        out := out + exported;
        seen, rest := seen[key := rest[key]], rest - {key};
        left := left - {key};
      }
      assert rest == map[];
      Nothing(seen);
      Nothing(state);
      Nothing(Flushed(cfg, seen, now, due));
      if due {
        lastPeriodicRun := Some(now);
      }
    }

    /** Every bucket is exported once; none is removed. */
    method Close() returns (out: seq<Export>)
      ensures Lists(out, AllOf(state))
    {
      out := [];
      var left := state.Keys;
      while left != {}
        invariant left <= state.Keys
        invariant forall e :: e in out <==> e.key in state && e.key !in left && e.record == state[e.key]
        invariant forall i, j :: 0 <= i < j < |out| ==> out[i] != out[j]
        decreases |left|
      {
        var key :| key in left;
        out := out + [Export(key, state[key])];
        left := left - {key};
      }
    }
  }
}

/** What a bucket's fields mean: sums, least and greatest values and bit masks do not depend on the order of arrival. */
module AggregateOrder {
  import opened Bytes
  import opened AggregateKeys
  import opened Aggregate
  import opened AggregateRuns

  // ---------- folds over any order ----------

  function FoldOp<T>(op: (T, T) -> T, xs: seq<T>): T
    requires xs != []
  {
    var n := |xs| - 1;
    if n == 0 then xs[0] else op(FoldOp(op, xs[..n]), xs[n])
  }

  ghost predicate Commutes<T(!new)>(op: (T, T) -> T)
  {
    && (forall a, b :: op(a, b) == op(b, a))
    && (forall a, b, c :: op(op(a, b), c) == op(a, op(b, c)))
  }

  lemma FoldSnocOp<T>(op: (T, T) -> T, xs: seq<T>, x: T)
    ensures FoldOp(op, xs + [x]) == if xs == [] then x else op(FoldOp(op, xs), x)
  {
    var all := xs + [x];
    assert all[..|all| - 1] == xs && all[|all| - 1] == x;
  }

  /** An element can be taken out of the middle and folded in last. */
  lemma {:induction false} MoveLast<T(!new)>(op: (T, T) -> T, a: seq<T>, x: T, b: seq<T>)
    requires Commutes(op)
    ensures FoldOp(op, a + [x] + b) == FoldOp(op, a + b + [x])
    decreases |b|
  {
    hide FoldOp;
    if b == [] {
      assert a + [x] + b == a + b + [x];
    } else {
      var n := |b| - 1;
      var y, c := b[n], b[..n];
      assert b == c + [y];
      assert a + [x] + b == (a + [x] + c) + [y];
      assert a + b == (a + c) + [y];
      MoveLast(op, a, x, c);
      FoldSnocOp(op, a + [x] + c, y);
      FoldSnocOp(op, a + c, x);
      FoldSnocOp(op, a + c, y);
      FoldSnocOp(op, a + b, x);
      Swap(op, a + c, x, y);
    }
  }

  lemma Swap<T(!new)>(op: (T, T) -> T, s: seq<T>, x: T, y: T)
    requires Commutes(op)
    ensures s == [] ==> op(x, y) == op(y, x)
    ensures s != [] ==> op(op(FoldOp(op, s), x), y) == op(op(FoldOp(op, s), y), x)
  {
    hide FoldOp;
    if s != [] {
      var f := FoldOp(op, s);
      assert op(op(f, x), y) == op(f, op(x, y));
      assert op(op(f, y), x) == op(f, op(y, x));
    }
  }

  lemma TakeOut<T>(s: seq<T>, j: nat)
    requires j < |s|
    ensures multiset(s[..j] + s[j + 1..]) == multiset(s) - multiset{s[j]}
  {
    assert s == s[..j] + [s[j]] + s[j + 1..];
  }

  lemma {:induction false} FoldAnyOrder<T(!new)>(op: (T, T) -> T, xs: seq<T>, ys: seq<T>)
    requires Commutes(op) && xs != [] && multiset(xs) == multiset(ys)
    ensures ys != [] && FoldOp(op, xs) == FoldOp(op, ys)
    decreases |xs|
  {
    hide FoldOp, Commutes;
    var n := |xs| - 1;
    var x, front := xs[n], xs[..n];
    assert xs == front + [x];
    assert x in multiset(ys);
    var j :| 0 <= j < |ys| && ys[j] == x;
    var a, b := ys[..j], ys[j + 1..];
    assert ys == a + [x] + b;
    MoveLast(op, a, x, b);
    TakeOut(xs, n);
    TakeOut(ys, j);
    Empty(front);
    assert xs[n + 1..] == [];
    FoldSnocOp(op, front, x);
    FoldSnocOp(op, a + b, x);
    if front != [] {
      FoldAnyOrder(op, front, a + b);
    } else {
      assert |multiset(a + b)| == 0;
    }
  }

  // ---------- one field of a bucket ----------

  function FlatMap<T, U>(h: T -> seq<U>, s: seq<T>): seq<U>
  {
    if s == [] then [] else h(s[0]) + FlatMap(h, s[1..])
  }

  lemma {:induction false} FlatMapAppend<T, U>(h: T -> seq<U>, a: seq<T>, b: seq<T>)
    ensures FlatMap(h, a + b) == FlatMap(h, a) + FlatMap(h, b)
  {
    if a == [] {
      Empty(b);
      Empty(FlatMap(h, b));
    } else {
      assert (a + b)[1..] == a[1..] + b;
      FlatMapAppend(h, a[1..], b);
      Assoc(h(a[0]), FlatMap(h, a[1..]), FlatMap(h, b));
    }
  }

  lemma FlatMapOne<T, U>(h: T -> seq<U>, x: T)
    ensures FlatMap(h, [x]) == h(x)
  {
    assert [x][1..] == [];
    Empty(h(x));
  }

  lemma FlatMapAround<T, U>(h: T -> seq<U>, s: seq<T>, j: nat)
    requires j < |s|
    ensures multiset(FlatMap(h, s)) == multiset(FlatMap(h, s[..j] + s[j + 1..])) + multiset(h(s[j]))
  {
    hide FlatMap;
    var a, b := s[..j], s[j + 1..];
    assert s == a + [s[j]] + b;
    FlatMapAppend(h, a + [s[j]], b);
    FlatMapAppend(h, a, [s[j]]);
    FlatMapOne(h, s[j]);
    FlatMapAppend(h, a, b);
  }

  lemma {:induction false} FlatMapAnyOrder<T, U>(h: T -> seq<U>, a: seq<T>, b: seq<T>)
    requires multiset(a) == multiset(b)
    ensures multiset(FlatMap(h, a)) == multiset(FlatMap(h, b))
    decreases |a|
  {
    hide FlatMap;
    assert |multiset(a)| == |multiset(b)|;
    if a == [] {
      assert b == [];
    } else {
      assert a[0] in multiset(b);
      var j :| 0 <= j < |b| && b[j] == a[0];
      FlatMapAround(h, a, 0);
      FlatMapAround(h, b, j);
      TakeOut(a, 0);
      TakeOut(b, j);
      FlatMapAnyOrder(h, a[..0] + a[1..], b[..j] + b[j + 1..]);
    }
  }

  function CellOf(f: string): Record -> seq<Cell>
  {
    (d: Record) => if f in d.fields then [d.fields[f]] else []
  }

  /** The contributions' values for one field, in order. */
  function Cells(ds: seq<Record>, f: string): seq<Cell>
  {
    FlatMap(CellOf(f), ds)
  }

  function FoldCells(f: string, cs: seq<Cell>): Cell
    requires cs != []
  {
    var n := |cs| - 1;
    if n == 0 then cs[0] else MergeCell(f, Some(FoldCells(f, cs[..n])), cs[n])
  }

  lemma CellsSnoc(ds: seq<Record>, d: Record, f: string)
    ensures Cells(ds + [d], f) == Cells(ds, f) + (if f in d.fields then [d.fields[f]] else [])
  {
    FlatMapAppend(CellOf(f), ds, [d]);
    FlatMapOne(CellOf(f), d);
  }

  lemma FoldCellsSnoc(f: string, cs: seq<Cell>, c: Cell)
    ensures FoldCells(f, cs + [c]) == if cs == [] then c else MergeCell(f, Some(FoldCells(f, cs)), c)
  {
    var all := cs + [c];
    assert all[..|all| - 1] == cs && all[|all| - 1] == c;
  }

  predicate Timed(ds: seq<Record>)
  {
    forall i :: 0 <= i < |ds| ==> START in ds[i].fields && END in ds[i].fields
  }

  lemma AddField(bucket: Option<Record>, d: Record, f: string)
    ensures var r := Add(bucket, d);
            Get(r.fields, f) ==
              if bucket.None? then Get(d.fields, f)
              else if f in d.fields then Some(MergeCell(f, Get(bucket.value.fields, f), d.fields[f]))
              else Get(bucket.value.fields, f)
    ensures f != START && f != END && bucket.Some? && f !in bucket.value.fields && f in d.fields ==>
              Get(Add(bucket, d).fields, f) == Some(d.fields[f])
  {
  }

  /** A bucket's field depends on that field's contributions alone. */
  lemma {:induction false} FieldOfFold(ds: seq<Record>, f: string)
    requires ds != [] && Timed(ds)
    ensures f in Fold(ds).fields <==> Cells(ds, f) != []
    ensures f in Fold(ds).fields ==> Fold(ds).fields[f] == FoldCells(f, Cells(ds, f))
  {
    hide MergeCell, MergeFields, Cells, FoldCells, Add;
    var n := |ds| - 1;
    var d, front := ds[n], ds[..n];
    assert ds == front + [d];
    CellsSnoc(front, d, f);
    Empty(Cells(front, f));
    AddField(if n == 0 then None else Some(Fold(front)), d, f);
    if f in d.fields { FoldCellsSnoc(f, Cells(front, f), d.fields[f]); }
    if n > 0 {
      FieldOfFold(front, f);
      if f == START || f == END { FieldOfTimes(front, f); }
    } else {
      NoCells(front, f);
    }
  }

  lemma NoCells(ds: seq<Record>, f: string)
    requires ds == []
    ensures Cells(ds, f) == []
  {
  }

  lemma FieldOfTimes(ds: seq<Record>, f: string)
    requires ds != [] && Timed(ds) && (f == START || f == END)
    ensures Cells(ds, f) != []
  {
  }

  // ---------- what each mark computes ----------

  function SumOp(a: int, b: int): int { Wrap64(a + b) }

  function MinOp(a: int, b: int): int { if b < a then b else a }

  function MaxOp(a: int, b: int): int { if b > a then b else a }

  predicate IsTime(f: string)
  {
    f == START || f == END
  }

  /** How two numbers of a field combine. */
  function OpFor(f: string, mark: Mark): (int, int) -> int
    requires IsTime(f) || mark == SumMark || mark == MinMark || mark == MaxMark
  {
    if f == START then MinTimestamp
    else if f == END then MaxTimestamp
    else if mark == SumMark then SumOp
    else if mark == MinMark then MinOp
    else MaxOp
  }

  function NumberOf(f: string, mark: Mark, c: Cell): int
  {
    CellInt64(if IsTime(f) then c else Unmark(mark, c))
  }

  predicate Fits(f: string, mark: Mark, c: Cell)
  {
    IsTime(f) || (c.Marked? && c.mark == mark)
  }

  lemma WrapShift(x: int, k: int)
    ensures Wrap64(x + k * TWO_64) == Wrap64(x)
  {
  }

  lemma WrapIs(a: int) returns (k: int)
    ensures Wrap64(a) == a + k * TWO_64
  {
    k := -((a + TWO_63) / TWO_64);
  }

  lemma WrapWrap(a: int, b: int)
    ensures Wrap64(Wrap64(a)) == Wrap64(a) && Wrap64(Wrap64(a) + b) == Wrap64(a + b) == Wrap64(a + Wrap64(b))
  {
    hide Wrap64;
    var k := WrapIs(a);
    var l := WrapIs(b);
    WrapShift(a, k);
    WrapShift(a + b, k);
    WrapShift(a + b, l);
  }

  lemma WrapSame(a: int)
    requires -TWO_63 <= a < TWO_63
    ensures Wrap64(a) == a
  {
  }

  lemma SumCommutes()
    ensures Commutes(SumOp)
  {
    hide SumOp;
    forall a, b ensures SumOp(a, b) == SumOp(b, a) { SumLaws(a, b, 0); }
    forall a, b, c ensures SumOp(SumOp(a, b), c) == SumOp(a, SumOp(b, c)) { SumLaws(a, b, c); }
  }

  lemma SumLaws(a: int, b: int, c: int)
    ensures SumOp(a, b) == SumOp(b, a) && SumOp(SumOp(a, b), c) == SumOp(a, SumOp(b, c))
  {
    hide Wrap64;
    WrapWrap(a + b, c);
    WrapWrap(a, b + c);
  }

  lemma OpCommutes(f: string, mark: Mark)
    requires IsTime(f) || mark == SumMark || mark == MinMark || mark == MaxMark
    ensures Commutes(OpFor(f, mark))
  {
    SumCommutes();
  }

  lemma CellInt64InRange(c: Cell)
    ensures -TWO_63 <= CellInt64(c) < TWO_63
  {
  }

  /** Merging cells combines their numbers. */
  lemma MergeNumber(f: string, mark: Mark, held: Cell, brought: Cell)
    requires IsTime(f) || mark == SumMark || mark == MinMark || mark == MaxMark
    requires Fits(f, mark, brought)
    ensures NumberOf(f, mark, MergeCell(f, Some(held), brought))
            == OpFor(f, mark)(NumberOf(f, mark, held), NumberOf(f, mark, brought))
  {
    hide Wrap64;
    CellInt64InRange(held);
    CellInt64InRange(brought);
    var a, b := NumberOf(f, mark, held), NumberOf(f, mark, brought);
    if IsTime(f) {
      WrapSame(OpFor(f, mark)(a, b));
    } else {
      WrapWrap(a + b, 0);
    }
  }

  function NumberIn(f: string, mark: Mark): Cell -> seq<int>
  {
    (c: Cell) => [NumberOf(f, mark, c)]
  }

  function Numbers(f: string, mark: Mark, cs: seq<Cell>): seq<int>
  {
    FlatMap(NumberIn(f, mark), cs)
  }

  lemma NumbersSnoc(f: string, mark: Mark, cs: seq<Cell>, c: Cell)
    ensures Numbers(f, mark, cs + [c]) == Numbers(f, mark, cs) + [NumberOf(f, mark, c)]
  {
    FlatMapAppend(NumberIn(f, mark), cs, [c]);
    FlatMapOne(NumberIn(f, mark), c);
  }

  lemma {:induction false} NumbersLength(f: string, mark: Mark, cs: seq<Cell>)
    ensures |Numbers(f, mark, cs)| == |cs|
  {
    if cs != [] { NumbersLength(f, mark, cs[1..]); }
  }

  /** The number in a bucket's field is the combination of the numbers contributed. */
  lemma {:induction false} NumberOfFold(f: string, mark: Mark, cs: seq<Cell>)
    requires IsTime(f) || mark == SumMark || mark == MinMark || mark == MaxMark
    requires cs != [] && forall i :: 0 <= i < |cs| ==> Fits(f, mark, cs[i])
    ensures Numbers(f, mark, cs) != []
    ensures NumberOf(f, mark, FoldCells(f, cs)) == FoldOp(OpFor(f, mark), Numbers(f, mark, cs))
  {
    hide OpFor, NumberOf, MergeCell, Numbers, FoldOp, FoldCells, Fits;
    var n := |cs| - 1;
    var c, front := cs[n], cs[..n];
    assert cs == front + [c];
    NumbersLength(f, mark, cs);
    NumbersLength(f, mark, front);
    NumbersSnoc(f, mark, front, c);
    FoldSnocOp(OpFor(f, mark), Numbers(f, mark, front), NumberOf(f, mark, c));
    FoldCellsSnoc(f, front, c);
    if n > 0 {
      NumberOfFold(f, mark, front);
      MergeNumber(f, mark, FoldCells(f, front), c);
    }
  }

  predicate AllFit(ds: seq<Record>, f: string, mark: Mark)
  {
    forall i :: 0 <= i < |ds| && f in ds[i].fields ==> Fits(f, mark, ds[i].fields[f])
  }

  lemma {:induction false} CellsFit(ds: seq<Record>, f: string, mark: Mark)
    requires AllFit(ds, f, mark)
    ensures forall i :: 0 <= i < |Cells(ds, f)| ==> Fits(f, mark, Cells(ds, f)[i])
  {
    if ds != [] {
      assert AllFit(ds[1..], f, mark) by {
        assert forall i :: 0 <= i < |ds[1..]| ==> ds[1..][i] == ds[i + 1];
      }
      CellsFit(ds[1..], f, mark);
      var first, rest := CellOf(f)(ds[0]), Cells(ds[1..], f);
      assert Cells(ds, f) == first + rest;
    }
  }

  lemma ReorderedFit(g: seq<Record>, h: seq<Record>, f: string, mark: Mark)
    requires multiset(g) == multiset(h) && Timed(g) && AllFit(g, f, mark)
    ensures Timed(h) && AllFit(h, f, mark)
  {
    forall i | 0 <= i < |h|
      ensures START in h[i].fields && END in h[i].fields && (f in h[i].fields ==> Fits(f, mark, h[i].fields[f]))
    {
      assert h[i] in multiset(h);
      assert h[i] in multiset(g);
      var j :| 0 <= j < |g| && g[j] == h[i];
    }
  }

  /** Sums, least and greatest values and the time span of a bucket are the same for every order of arrival. */
  lemma OrderDoesNotMatter(g: seq<Record>, h: seq<Record>, f: string, mark: Mark)
    requires IsTime(f) || mark == SumMark || mark == MinMark || mark == MaxMark
    requires g != [] && multiset(g) == multiset(h) && Timed(g) && AllFit(g, f, mark)
    ensures h != []
    ensures f in Fold(g).fields <==> f in Fold(h).fields
    ensures f in Fold(g).fields ==> NumberOf(f, mark, Fold(g).fields[f]) == NumberOf(f, mark, Fold(h).fields[f])
  {
    hide FoldCells, FoldOp, OpFor, NumberOf, Fold, FlatMap, Fits, Commutes;
    assert |multiset(g)| == |multiset(h)|;
    ReorderedFit(g, h, f, mark);
    FieldOfFold(g, f);
    FieldOfFold(h, f);
    FlatMapAnyOrder(CellOf(f), g, h);
    var a, b := Cells(g, f), Cells(h, f);
    assert |multiset(a)| == |multiset(b)|;
    if a != [] {
      CellsFit(g, f, mark);
      CellsFit(h, f, mark);
      NumberOfFold(f, mark, a);
      NumberOfFold(f, mark, b);
      FlatMapAnyOrder(NumberIn(f, mark), a, b);
      OpCommutes(f, mark);
      FoldAnyOrder(OpFor(f, mark), Numbers(f, mark, a), Numbers(f, mark, b));
    }
  }

  // ---------- bit masks ----------

  lemma AndBits(a: u32, b: u32)
    ensures And32(a, b) % 2 == (if a % 2 == 1 && b % 2 == 1 then 1 else 0)
    ensures And32(a, b) / 2 == And32(a / 2, b / 2)
  {
  }

  lemma {:induction false} AndSwap(a: u32, b: u32)
    ensures And32(a, b) == And32(b, a)
  {
    if a > 0 && b > 0 { AndSwap(a / 2, b / 2); }
  }

  lemma {:induction false} AndAssoc(a: u32, b: u32, c: u32)
    ensures And32(And32(a, b), c) == And32(a, And32(b, c))
  {
    if a > 0 {
      AndAssoc(a / 2, b / 2, c / 2);
      AndBits(a, b);
      AndBits(b, c);
      AndBits(And32(a, b), c);
      AndBits(a, And32(b, c));
    }
  }

  lemma AndCommutes()
    ensures Commutes(And32)
  {
    hide And32;
    forall a: u32, b: u32 ensures And32(a, b) == And32(b, a) { AndSwap(a, b); }
    forall a: u32, b: u32, c: u32 ensures And32(And32(a, b), c) == And32(a, And32(b, c)) { AndAssoc(a, b, c); }
  }

  function MaskOf(c: Cell): u32
  {
    CellUint32(Unmark(AndMark, c))
  }

  function MaskIn(): Cell -> seq<u32>
  {
    (c: Cell) => [MaskOf(c)]
  }

  function Masks(cs: seq<Cell>): seq<u32>
  {
    FlatMap(MaskIn(), cs)
  }

  lemma MasksSnoc(cs: seq<Cell>, c: Cell)
    ensures Masks(cs + [c]) == Masks(cs) + [MaskOf(c)]
  {
    FlatMapAppend(MaskIn(), cs, [c]);
    FlatMapOne(MaskIn(), c);
  }

  lemma {:induction false} MasksLength(cs: seq<Cell>)
    ensures |Masks(cs)| == |cs|
  {
    if cs != [] { MasksLength(cs[1..]); }
  }

  lemma MergeMask(f: string, held: Cell, brought: Cell)
    requires !IsTime(f) && Fits(f, AndMark, brought)
    ensures MaskOf(MergeCell(f, Some(held), brought)) == And32(MaskOf(held), MaskOf(brought))
  {
    hide And32;
    MaskIsItself(And32(MaskOf(held), MaskOf(brought)));
  }

  lemma MaskIsItself(m: u32)
    ensures Uint32(Num(KindU32, m)) == m
  {
  }

  lemma {:induction false} MaskOfFold(f: string, cs: seq<Cell>)
    requires !IsTime(f) && cs != [] && forall i :: 0 <= i < |cs| ==> Fits(f, AndMark, cs[i])
    ensures Masks(cs) != [] && MaskOf(FoldCells(f, cs)) == FoldOp(And32, Masks(cs))
  {
    hide MaskOf, MergeCell, Masks, FoldOp, FoldCells, Fits, And32;
    var n := |cs| - 1;
    var c, front := cs[n], cs[..n];
    assert cs == front + [c];
    MasksLength(cs);
    MasksLength(front);
    MasksSnoc(front, c);
    FoldSnocOp(And32, Masks(front), MaskOf(c));
    FoldCellsSnoc(f, front, c);
    if n > 0 {
      MaskOfFold(f, front);
      MergeMask(f, FoldCells(f, front), c);
    }
  }

  /** The bit mask of a bucket is the same for every order of arrival. */
  lemma MaskOrderDoesNotMatter(g: seq<Record>, h: seq<Record>, f: string)
    requires !IsTime(f) && g != [] && multiset(g) == multiset(h) && Timed(g) && AllFit(g, f, AndMark)
    ensures h != []
    ensures f in Fold(g).fields <==> f in Fold(h).fields
    ensures f in Fold(g).fields ==> MaskOf(Fold(g).fields[f]) == MaskOf(Fold(h).fields[f])
  {
    hide FoldCells, FoldOp, MaskOf, Fold, FlatMap, Fits, Commutes, And32;
    assert |multiset(g)| == |multiset(h)|;
    ReorderedFit(g, h, f, AndMark);
    FieldOfFold(g, f);
    FieldOfFold(h, f);
    FlatMapAnyOrder(CellOf(f), g, h);
    var a, b := Cells(g, f), Cells(h, f);
    assert |multiset(a)| == |multiset(b)|;
    if a != [] {
      CellsFit(g, f, AndMark);
      CellsFit(h, f, AndMark);
      MaskOfFold(f, a);
      MaskOfFold(f, b);
      FlatMapAnyOrder(MaskIn(), a, b);
      AndCommutes();
      FoldAnyOrder(And32, Masks(a), Masks(b));
    }
  }

  // ---------- what the numbers are ----------

  function Total(xs: seq<int>): int
  {
    if xs == [] then 0 else Total(xs[..|xs| - 1]) + xs[|xs| - 1]
  }

  lemma {:induction false} SumIsTotal(xs: seq<int>)
    requires xs != [] && -TWO_63 <= xs[0] < TWO_63
    ensures FoldOp(SumOp, xs) == Wrap64(Total(xs))
  {
    hide Wrap64;
    var n := |xs| - 1;
    var front := xs[..n];
    if n == 0 {
      assert front == [] && Total(xs) == xs[0];
      WrapSame(xs[0]);
    } else {
      SumIsTotal(front);
      WrapWrap(Total(front), xs[n]);
    }
  }

  lemma {:induction false} MinIsLeast(xs: seq<int>)
    requires xs != []
    ensures FoldOp(MinOp, xs) in xs && forall i :: 0 <= i < |xs| ==> FoldOp(MinOp, xs) <= xs[i]
  {
    if |xs| > 1 { MinIsLeast(xs[..|xs| - 1]); }
  }

  lemma {:induction false} MaxIsGreatest(xs: seq<int>)
    requires xs != []
    ensures FoldOp(MaxOp, xs) in xs && forall i :: 0 <= i < |xs| ==> FoldOp(MaxOp, xs) >= xs[i]
  {
    if |xs| > 1 { MaxIsGreatest(xs[..|xs| - 1]); }
  }

  /** A first value is the first contributed, a current value the last. */
  lemma {:induction false} FirstAndCurrent(f: string, mark: Mark, cs: seq<Cell>)
    requires !IsTime(f) && cs != [] && (mark == FirstMark || mark == CurrentMark)
    requires forall i :: 0 <= i < |cs| ==> Fits(f, mark, cs[i])
    ensures FoldCells(f, cs) == if mark == FirstMark then cs[0] else cs[|cs| - 1]
  {
    if |cs| > 1 { FirstAndCurrent(f, mark, cs[..|cs| - 1]); }
  }
}
